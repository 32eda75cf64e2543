/** The create and status handlers of app/api/firecrawl_v2_compat.py over forwarding and bindings. */
module Gateway {
  import opened Common
  import opened Text
  import opened Clients
  import opened Keys
  import opened Lifecycle
  import KeyPool
  import Pricing
  import opened Forwarding
  import opened ResourceBinding

  /** The v2 endpoints only ever use this provider. */
  const PROVIDER := "firecrawl"

  /** The id in a created resource's body; only a 2xx JSON object with a non-blank string id has one. */
  function ExtractedId(r: Result, body: Option<string>): Option<string> {
    if r.Response? && Succeeded(r.status) && body.Some? && Strip(body.value) != "" then Some(Strip(body.value))
    else None
  }

  /** A resource was created: a delivered 2xx whose body has an id. */
  ghost predicate Created(r: Result, body: Option<string>) {
    r.Response? && 200 <= r.status <= 299 && body.Some? && Strip(body.value) != ""
  }

  /** The resource created is the one that this id names. */
  ghost predicate CreatedAs(r: Result, body: Option<string>, id: string) {
    Created(r, body) && Strip(body.value) == Strip(id)
  }

  ghost predicate NeverBound(ops: seq<Op>, client: int, kind: string, id: string) {
    forall i :: 0 <= i < |ops| ==> !Binds(ops[i], client, kind, id)
  }

  /** One forward for this provider, as far as the handlers rely on it. */
  method ForwardOnce(f: Forwarder, client: ClientAccount, pin: Option<int>, request: Request, world: nat -> Tick)
    returns (r: Result, sends: seq<Send>)
    requires f.Valid()
    modifies f.pool, f.limiter, f.leases, f`keys, f`history, f`failures, f`recorded, client`dailyUsage
    modifies f`selected, f`trail, f`requests, f`outcomes
    ensures f.Valid() && f.leases.live == old(f.leases.live) && f.requests == old(f.requests) + KeysOf(sends)
    ensures old(f.history) <= f.history
    ensures f.outcomes == old(f.outcomes) + [r]
    ensures client.dailyUsage == old(client.dailyUsage) + UsageOf(r, client.dailyQuota, f.config.countSuccess)
    ensures |sends| <= TotalAttempts(f.config) && FromLast(r, sends)
    ensures if pin.Some? && PinHolds(old(f.keys), pin.value, client.id, PROVIDER) then
              && f.selected == old(f.selected) && AllOn(sends, pin.value) && (r.Raised? ==> !r.code.PoolError?)
              && (NotFound(r) ==> LeftByOthers(f.keys, old(f.history), world, |sends|))
            else |f.selected| > |old(f.selected)|
    ensures |f.selected| >= |old(f.selected)|
  {
    var selections;
    ghost var ticks, last;
    r, sends, selections, ticks, last := f.Forward(client, PROVIDER, pin, request, world);
    OthersServing(world, request, |sends|);
  }

  /** Which request is served makes no difference to what others do. */
  lemma {:induction false} OthersServing(world: nat -> Tick, request: Request, n: nat)
    ensures OthersOf(Serving(world, request), n) == OthersOf(world, n)
  {
    if n > 0 {
      OthersServing(world, request, n - 1);
    }
  }

  /**
   * Whether the pin still holds when the fallback starts: as others' steps during the first forward, which made
   * `n` requests, and in the gap after it have left the key.
   */
  ghost predicate StillPinned(history: seq<Step>, world: nat -> Tick, n: nat, gap: seq<Step>, pin: int, client: int) {
    PinHolds(Replay(history + OthersOf(world, n) + gap), pin, client, PROVIDER)
  }

  /**
   * app/api/firecrawl_v2_compat.py: _forward_with_fallback. `world` and `retryWorld` are what happens during the
   * two forwards, and `gap` what others do between them; the fallback path is taken exactly after a first 404 or
   * 405. However many forwards it takes, the client is charged at most once, and exactly for a delivered 2xx. A pin
   * that holds at the start is used for the first forward, and for the fallback exactly if it still holds then:
   * otherwise the fallback selects from the pool.
   */
  method ForwardWithFallback(f: Forwarder, client: ClientAccount, pin: Option<int>, request: Request,
                             fallback: Option<string>, world: nat -> Tick, gap: seq<Step>, retryWorld: nat -> Tick)
    returns (r: Result, sends: seq<Send>, ghost first: Option<Result>, ghost split: nat)
    requires f.Valid()
    modifies f.pool, f.limiter, f.leases, f`keys, f`history, f`failures, f`recorded, client`dailyUsage
    modifies f`selected, f`trail, f`requests, f`outcomes
    ensures f.Valid() && f.leases.live == old(f.leases.live) && f.requests == old(f.requests) + KeysOf(sends)
    ensures old(f.history) <= f.history
    ensures if first.None? then
              f.outcomes == old(f.outcomes) + [r]
              && !(fallback.Some? && r.Response? && (r.status == 404 || r.status == 405))
            else
              && f.outcomes == old(f.outcomes) + [first.value, r]
              && fallback.Some? && first.value.Response? && (first.value.status == 404 || first.value.status == 405)
    ensures client.dailyUsage == old(client.dailyUsage)
                                 + if r.Response? && 200 <= r.status <= 299 && client.dailyQuota.Some?
                                      && f.config.countSuccess then 1 else 0
    ensures |sends| <= (if fallback.Some? then 2 else 1) * (Max(f.config.maxRetries, 0) + 1)
    ensures FromLast(r, sends) && split <= |sends| && (first.None? ==> split == |sends|)
    ensures pin.Some? && PinHolds(old(f.keys), pin.value, client.id, PROVIDER) ==>
              var still := first.None? || StillPinned(old(f.history), world, split, gap, pin.value, client.id);
              && AllOn(sends[..split], pin.value)
              && (f.selected == old(f.selected) <==> still)
              && (still ==> AllOn(sends, pin.value) && (r.Raised? ==> !r.code.PoolError?))
    ensures pin.None? ==> |f.selected| > |old(f.selected)|
  {
    first := None;
    r, sends := ForwardOnce(f, client, pin, request, world);
    split := |sends|;
    AllOnJoins(sends, [], pin.GetOr(0));
    if fallback.Some? && NotFound(r) {
      first := Some(r);
      var earlier := sends;
      r, sends := Fallback(f, client, pin, request.(path := fallback.value), world, split, gap, retryWorld,
                           old(f.history));
      AllOnJoins(earlier, sends, pin.GetOr(0));
      KeysOfJoin(old(f.requests), earlier, sends);
      sends := earlier + sends;
    }
  }

  /** The gap and the second forward, after a first one that began at `start` and made `n` requests. */
  method Fallback(f: Forwarder, client: ClientAccount, pin: Option<int>, request: Request, ghost world: nat -> Tick,
                  ghost n: nat, gap: seq<Step>, retryWorld: nat -> Tick, ghost start: seq<Step>)
    returns (r: Result, sends: seq<Send>)
    requires f.Valid()
    modifies f.pool, f.limiter, f.leases, f`keys, f`history, f`failures, f`recorded, client`dailyUsage
    modifies f`selected, f`trail, f`requests, f`outcomes
    ensures f.Valid() && f.leases.live == old(f.leases.live) && f.requests == old(f.requests) + KeysOf(sends)
    ensures old(f.history) <= f.history
    ensures f.outcomes == old(f.outcomes) + [r]
    ensures client.dailyUsage == old(client.dailyUsage) + UsageOf(r, client.dailyQuota, f.config.countSuccess)
    ensures |sends| <= TotalAttempts(f.config) && FromLast(r, sends)
    ensures |f.selected| >= |old(f.selected)|
    ensures pin.Some? && LeftByOthers(old(f.keys), start, world, n) ==>
              if StillPinned(start, world, n, gap, pin.value, client.id) then
                f.selected == old(f.selected) && AllOn(sends, pin.value) && (r.Raised? ==> !r.code.PoolError?)
              else |f.selected| > |old(f.selected)|
  {
    f.CommitAll(gap);
    if pin.Some? && LeftByOthers(old(f.keys), start, world, n) {
      PinLeftByOthers(old(f.history), start, world, n, gap, pin.value, client.id, PROVIDER);
    }
    r, sends := ForwardOnce(f, client, pin, request, retryWorld);
  }

  /**
   * A create call: forward, then bind the new resource to the key whose response is delivered. A first bind
   * is permanent; an id that is already bound keeps its key.
   */
  method Create(f: Forwarder, table: BindingTable, client: ClientAccount, kind: string, path: string,
                fallback: Option<string>, body: Option<string>, now: int, world: nat -> Tick, gap: seq<Step>,
                retryWorld: nat -> Tick)
    returns (r: Result, sends: seq<Send>)
    requires f.Valid() && table.Valid()
    modifies f.pool, f.limiter, f.leases, f`keys, f`history, f`failures, f`recorded, client`dailyUsage
    modifies f`selected, f`trail, f`requests, f`outcomes, table
    ensures f.Valid() && f.leases.live == old(f.leases.live) && f.requests == old(f.requests) + KeysOf(sends)
    ensures old(f.history) <= f.history
    ensures client.dailyUsage == old(client.dailyUsage) + UsageOf(r, client.dailyQuota, f.config.countSuccess)
    ensures FromLast(r, sends) && table.Valid()
    ensures table.ops == old(table.ops) + if Created(r, body)
                                          then [BindOp(client.id, r.keyId, kind, Strip(body.value), None, now)] else []
    ensures if Created(r, body) then
              var address := Address(client.id, kind, body.value);
              && address.Some? && address.value in table.rows
              && table.rows == (if address.value in old(table.rows) then old(table.rows)
                                else old(table.rows)[address.value := Binding(r.keyId, None)])
            else table.rows == old(table.rows)
  {
    ghost var first, split;
    r, sends, first, split :=
      ForwardWithFallback(f, client, None, Request(path, false), fallback, world, gap, retryWorld);
    var id := ExtractedId(r, body);
    if id.Some? {
      StripTwice(body.value);
      table.Bind(client.id, r.keyId, kind, id.value, None, now);
    }
  }

  /**
   * A status call on a table that only the gateway has written. The owner is the key of the first operation that bound
   * the resource. If it is still active, the client's own and of the provider, it alone serves every attempt of the
   * first path, and every attempt of the fallback exactly if it is still so then; only if it is not does the fallback
   * turn to the pool. A resource that nothing has bound is served from the pool.
   */
  method Status(f: Forwarder, table: BindingTable, client: ClientAccount, kind: string, id: string, path: string,
                fallback: Option<string>, now: int, world: nat -> Tick, gap: seq<Step>, retryWorld: nat -> Tick)
    returns (r: Result, sends: seq<Send>, ghost first: Option<Result>, ghost split: nat, ghost owner: Option<int>)
    requires f.Valid() && table.Valid() && GatewayOps(table.ops)
    modifies f.pool, f.limiter, f.leases, f`keys, f`history, f`failures, f`recorded, client`dailyUsage
    modifies f`selected, f`trail, f`requests, f`outcomes, table
    ensures f.Valid() && f.leases.live == old(f.leases.live) && f.requests == old(f.requests) + KeysOf(sends)
    ensures old(f.history) <= f.history
    ensures table.Valid() && GatewayOps(table.ops) && table.rows == old(table.rows)
    ensures client.dailyUsage == old(client.dailyUsage) + UsageOf(r, client.dailyQuota, f.config.countSuccess)
    ensures split <= |sends| && (first.None? ==> split == |sends|)
    ensures owner.Some? <==> exists n: nat :: FirstBind(old(table.ops), n, client.id, kind, id)
    ensures forall n: nat ::
              FirstBind(old(table.ops), n, client.id, kind, id) ==> owner == Some(old(table.ops)[n].keyId)
    ensures if owner.Some? then
              ServedBy(owner.value, client.id, old(f.keys), old(f.history), world, gap, r, sends, first, split,
                       f.selected == old(f.selected))
            else |f.selected| > |old(f.selected)|
  {
    LookupYieldsOwner(table.ops, client.id, kind, id, now);
    GatewayRowsArePermanent(map[], table.ops);
    var pin := table.Lookup(client.id, kind, id, now);
    owner := pin;
    r, sends, first, split :=
      ForwardWithFallback(f, client, pin, Request(path, true), fallback, world, gap, retryWorld);
  }

  /** The outcome of a status call whose resource is bound to `keyId`. */
  ghost predicate ServedBy(keyId: int, client: int, keys: Keys.Table, history: seq<Step>, world: nat -> Tick,
                           gap: seq<Step>,
                           r: Result, sends: seq<Send>, first: Option<Result>, split: nat, noneSelected: bool)
    requires split <= |sends|
  {
    PinHolds(keys, keyId, client, PROVIDER) ==>
      var still := first.None? || StillPinned(history, world, split, gap, keyId, client);
      && AllOn(sends[..split], keyId)
      && (noneSelected <==> still)
      && (still ==> && AllOn(sends, keyId) && (r.Response? ==> r.keyId == keyId)
                    && (r.Raised? ==> !r.code.PoolError?))
  }

  /**
   * Sticky end to end: a create call whose response names a new resource, anything the gateway then does to the
   * bindings and anyone to the keys, and a status call for that resource. The status call is served by the key whose
   * response created the resource.
   */
  method CreateThenStatus(f: Forwarder, table: BindingTable, client: ClientAccount, kind: string, path: string,
                          body: Option<string>, now: int, world: nat -> Tick, later: seq<Op>, others: seq<Step>,
                          id: string, statusPath: string, time: int, statusWorld: nat -> Tick, gap: seq<Step>,
                          retryWorld: nat -> Tick, fallback: Option<string>)
    returns (created: Result, r: Result, sends: seq<Send>, ghost first: Option<Result>, ghost split: nat,
             ghost keys: Keys.Table, ghost history: seq<Step>, ghost noneSelected: bool)
    requires f.Valid() && table.Valid() && GatewayOps(table.ops) && GatewayOps(later)
    modifies f.pool, f.limiter, f.leases, f`keys, f`history, f`failures, f`recorded, client`dailyUsage
    modifies f`selected, f`trail, f`requests, f`outcomes, table
    ensures f.Valid() && table.Valid() && GatewayOps(table.ops) && split <= |sends|
    ensures old(f.history) <= history <= f.history && keys == Replay(history)
    ensures CreatedAs(created, body, id) && NeverBound(old(table.ops), client.id, kind, id) ==>
              ServedBy(created.keyId, client.id, keys, history, statusWorld, gap, r, sends, first, split, noneSelected)
  {
    ghost var before := table.ops;
    var made;
    created, made := Create(f, table, client, kind, path, None, body, now, world, [], world);
    GatewayOpsJoin(table.ops, later);
    table.Perform(later);
    f.CommitAll(others);
    keys, history := f.keys, f.history;
    ghost var selected := f.selected;
    if CreatedAs(created, body, id) && NeverBound(before, client.id, kind, id) {
      NewOwner(before, BindOp(client.id, created.keyId, kind, Strip(body.value), None, now), later, id);
    }
    ghost var owner;
    r, sends, first, split, owner := Status(f, table, client, kind, id, statusPath, fallback, time, statusWorld, gap,
                                     retryWorld);
    noneSelected := f.selected == selected;
  }

  lemma {:induction false} GatewayOpsJoin(a: seq<Op>, b: seq<Op>)
    requires GatewayOps(a) && GatewayOps(b)
    ensures GatewayOps(a + b)
  {
  }

  /** The first bind of a resource, by its stripped id, stays the first whatever follows. */
  lemma {:induction false} NewOwner(before: seq<Op>, bind: Op, later: seq<Op>, id: string)
    requires bind.BindOp? && bind.id == Strip(id) != ""
    requires NeverBound(before, bind.client, bind.kind, id)
    ensures FirstBind(before + [bind] + later, |before|, bind.client, bind.kind, id)
    ensures (before + [bind] + later)[|before|] == bind
  {
    StripTwice(id);
  }

  /** A key is kept by a step that neither switches it off, purges it, nor gives it to another client. */
  predicate Keeps(step: Step, id: int, client: int) {
    && !SwitchesOff(step, id) && step != Purge(id) && step != PurgeClient(client)
    && (step.Edit? && step.id == id ==>
          match step.w
          case Update(p) => p.client.GetOr(Some(client)) == Some(client)
          case Batch(_, p, _) => p.None? || p.value.client.GetOr(Some(client)) == Some(client)
          case _ => true)
  }

  ghost predicate AllKeep(steps: seq<Step>, id: int, client: int) {
    forall i :: 0 <= i < |steps| ==> Keeps(steps[i], id, client)
  }

  /** If every step of others during the first forward and in the gap keeps the key, the pin outlasts it. */
  lemma {:induction false} KeptPinsHold(history: seq<Step>, steps: seq<Step>, pin: int, client: int)
    requires PinHolds(Replay(history), pin, client, PROVIDER)
    requires AllKeep(steps, pin, client)
    ensures PinHolds(Replay(history + steps), pin, client, PROVIDER)
    decreases |steps|
  {
    if steps == [] {
      assert history + steps == history;
    } else {
      var front, last := steps[..|steps| - 1], steps[|steps| - 1];
      KeptPinsHold(history, front, pin, client);
      assert history + steps == (history + front) + [last];
      ReplaySnoc(history + front, last);
      DisabledMeansInactive(history + front);
      PinKept(Replay(history + front), last, pin, client);
    }
  }

  lemma {:induction false} PinKept(keys: Table, step: Step, pin: int, client: int)
    requires AllSound(keys) && Sorted(keys) && PinHolds(keys, pin, client, PROVIDER) && Keeps(step, pin, client)
    ensures PinHolds(Apply(keys, step), pin, client, PROVIDER)
  {
    var at :| 0 <= at < |keys| && keys[at] == Find(keys, pin).value;
    ApplyKeepsSound(keys, step);
    var keys' := Apply(keys, step);
    if step.Purge? {
      WithoutKeeps(keys, step.id);
      assert keys[at] in keys';
      var i :| 0 <= i < |keys'| && keys'[i] == keys[at];
      FindIsUnique(keys', pin, i);
    } else {
      RowKept(keys, step, at, client);
      FindIsUnique(keys', pin, at);
    }
  }

  lemma {:induction false} RowKept(keys: Table, step: Step, at: nat, client: int)
    requires at < |keys| && !step.Purge? && Keeps(step, keys[at].id, client)
    requires keys[at].client == Some(client) && keys[at].isActive
    ensures at < |Apply(keys, step)|
    ensures var k := Apply(keys, step)[at];
            k.id == keys[at].id && k.client == Some(client) && k.isActive && k.provider == keys[at].provider
  {
    match step
    case Select(visited, m) => BoneSettled(keys[at], m);
    case Edit(id, w) => if id == keys[at].id { BoneKept(keys[at], w, client); }
    case _ =>
  }

  lemma {:induction false} BoneKept(k: ApiKey, w: Write, client: int)
    requires k.client == Some(client) && k.isActive && Keeps(Edit(k.id, w), k.id, client)
    ensures var k' := Written(k, w);
            k'.id == k.id && k'.client == Some(client) && k'.isActive && k'.provider == k.provider
  {
    match w
    case Update(_) =>
    case Batch(_, _, _) =>
    case FillIn(_, _, _, _) =>
    case _ => PlainBone(k, w);
  }

  /**
   * It does happen that the pin is lost between the two paths: an active key of the client, a first forward that is
   * sent to it and answered with 404, and someone disabling the key before the fallback.
   */
  lemma {:induction false} PinLostBetweenPaths(config: Config, m: KeyPool.Moment)
    ensures var tick := Tick(Request("/v2/crawl/7", true), m, 0.0, [], [], true, Resp(404, None, Pricing.Empty), true);
            var (start, row) := ([Lifecycle.Create(UnlimitedDraft())], NewRow(1, UnlimitedDraft()));
            && PinHolds(Replay(start), 1, 1, PROVIDER) && Tried(map[], {}, row, tick) == Sent(tick.upstream)
            && PinnedEnd(config, Sent(tick.upstream), tick, 1, 0) == Some(Response(404, 1, 0))
            && NotFound(Response(404, 1, 0)) && TurnSteps(config, [row], map[], 1, tick, Sent(tick.upstream)) == []
            && !StillPinned(start, n => tick, 1, [Edit(1, Disable)], 1, 1)
  {
    var tick := Tick(Request("/v2/crawl/7", true), m, 0.0, [], [], true, Resp(404, None, Pricing.Empty), true);
    var start, row := [Lifecycle.Create(UnlimitedDraft())], NewRow(1, UnlimitedDraft());
    OneKey(UnlimitedDraft());
    assert OthersOf(n => tick, 1) == [];
    assert start + [] + [Edit(1, Disable)] == start + [Edit(1, Disable)];
    ReplaySnoc(start, Edit(1, Disable));
    assert Apply([row], Edit(1, Disable)) == [Deleted(row)];
  }
}
