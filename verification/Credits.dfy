/** What the cached credits of a key amount to between refreshes: the cache writes of app/core/forwarder.py. */
module Credits {
  import opened Common
  import opened Keys
  import opened Lifecycle
  import opened Pricing
  import opened Forwarding

  predicate Touches(step: Step, id: int) {
    step.Edit? && step.id == id
  }

  /** Not a new snapshot for this key, and not a purge of it. */
  predicate Quiet(step: Step, id: int) {
    step != Purge(id) && (Touches(step, id) ==> !step.w.Fetched?)
  }

  /** The estimated cost of the request that the step deducts from this key's cache. */
  function Cost(step: Step, id: int): (cost: int)
    ensures cost >= 0
  {
    if Touches(step, id) && step.w.Deduct? then step.w.cost else 0
  }

  function CostsOf(steps: seq<Step>, id: int): (costs: seq<int>)
    ensures |costs| == |steps|
  {
    seq(|steps|, n requires 0 <= n < |steps| => Cost(steps[n], id))
  }

  function Sum(costs: seq<int>): int {
    if costs == [] then 0 else Sum(costs[..|costs| - 1]) + costs[|costs| - 1]
  }

  /** The sum of the estimates of all requests on this key. */
  function Deductions(steps: seq<Step>, id: int): int {
    Sum(CostsOf(steps, id))
  }

  function Cached(keys: Table, id: int): Option<int> {
    var k := Find(keys, id);
    if k.None? then None else k.value.credits
  }

  function Floored(c: int): int {
    Max(0, c)
  }

  /** Only deductions and snapshots write the cache. */
  lemma {:induction false} CreditsWritten(k: ApiKey, w: Write)
    requires !w.Fetched?
    ensures Written(k, w).credits ==
            if w.Deduct? && k.credits.Some? then Some(Floored(k.credits.value - w.cost)) else k.credits
  {
    match w
    case Update(p) => CreditsPatched(k, p);
    case Batch(resetCooldown, changes, _) =>
      if changes.Some? {
        CreditsPatched(if resetCooldown then CooldownReset(k) else k, changes.value);
      }
    case _ =>
  }

  lemma {:induction false} CreditsPatched(k: ApiKey, p: Patch)
    ensures Patched(k, p).credits == k.credits
  {
  }

  lemma {:induction false} RowCacheAfter(keys: Table, keys': Table, step: Step, i: nat, cost: int)
    requires keys' == Apply(keys, step) && !step.Purge?
    requires i < |keys| && Quiet(step, keys[i].id) && cost == Cost(step, keys[i].id)
    requires keys[i].credits.Some? && keys[i].credits.value >= 0
    ensures i < |keys'| && keys'[i].id == keys[i].id
    ensures keys'[i].credits == Some(Floored(keys[i].credits.value - cost))
  {
    match step
    case Edit(id, w) =>
      WriteMeans(keys[i], w);
      if id == keys[i].id {
        CreditsWritten(keys[i], w);
      }
    case _ =>
  }

  lemma {:induction false} RowAfterPurge(keys: Table, gone: int, id: int)
    requires Sorted(keys) && gone != id && Find(keys, id).Some?
    ensures Find(Without(keys, gone), id) == Find(keys, id)
  {
    WithoutKeeps(keys, gone);
    var k := Find(keys, id).value;
    assert k in Without(keys, gone);
    var j :| 0 <= j < |Without(keys, gone)| && Without(keys, gone)[j] == k;
    FindIsUnique(Without(keys, gone), id, j);
  }

  lemma {:induction false} CachedAt(keys: Table, id: int, i: nat, c: int)
    requires Sorted(keys) && i < |keys| && keys[i].id == id && keys[i].credits == Some(c)
    ensures Cached(keys, id) == Some(c)
  {
    FindIsUnique(keys, id, i);
  }

  /** One step of the table, seen from one row's cache. */
  lemma {:induction false} CacheAfter(keys: Table, keys': Table, step: Step, id: int, c: int, cost: int)
    requires AllSound(keys) && Sorted(keys) && keys' == Apply(keys, step) && Sorted(keys')
    requires Quiet(step, id) && Cached(keys, id) == Some(c) && c >= 0 && cost == Cost(step, id)
    ensures Cached(keys', id) == Some(Floored(c - cost))
  {
    if step.Purge? {
      RowAfterPurge(keys, step.id, id);
    } else {
      var i :| 0 <= i < |keys| && keys[i] == Find(keys, id).value;
      RowCacheAfter(keys, keys', step, i, cost);
      CachedAt(keys', id, i, Floored(c - cost));
    }
  }

  lemma {:induction false} FloorOnce(snapshot: int, before: int, cost: int)
    requires cost >= 0
    ensures Floored(Floored(snapshot - before) - cost) == Floored(snapshot - (before + cost))
  {
  }

  /** The cached credits of a key after a run of the table. */
  function CacheAt(run: seq<Step>, id: int): Option<int> {
    Cached(Replay(run), id)
  }

  lemma {:induction false} CacheAfterRun(run: seq<Step>, last: Step, id: int, c: int, cost: int)
    requires Quiet(last, id) && CacheAt(run, id) == Some(c) && c >= 0 && cost == Cost(last, id)
    ensures CacheAt(run + [last], id) == Some(Floored(c - cost))
  {
    ReplaySnoc(run, last);
    DisabledMeansInactive(run);
    DisabledMeansInactive(run + [last]);
    CacheAfter(Replay(run), Replay(run + [last]), last, id, c, cost);
  }

  ghost predicate AllQuiet(steps: seq<Step>, id: int) {
    forall n :: 0 <= n < |steps| ==> Quiet(steps[n], id)
  }

  /** Balances that go down by these costs, floored at every step. */
  ghost predicate Ledger(balances: seq<int>, costs: seq<int>) {
    && |balances| == |costs| + 1 && balances[0] >= 0
    && forall k :: 0 <= k < |costs| ==> costs[k] >= 0 && balances[k + 1] == Floored(balances[k] - costs[k])
  }

  /** Floored at every step or once at the end, the balance comes to the same. */
  lemma {:induction false} FloorAlong(balances: seq<int>, costs: seq<int>)
    requires Ledger(balances, costs)
    ensures balances[|costs|] == Floored(balances[0] - Sum(costs))
    decreases |costs|
  {
    if costs != [] {
      var n := |costs| - 1;
      FloorAlong(balances[..n + 1], costs[..n]);
      FloorOnce(balances[0], Sum(costs[..n]), costs[n]);
    }
  }

  lemma {:induction false} LedgerGrows(balances: seq<int>, costs: seq<int>, cost: int, balance: int)
    requires Ledger(balances, costs) && cost >= 0 && balance == Floored(balances[|costs|] - cost)
    ensures Ledger(balances + [balance], costs + [cost])
  {
  }

  lemma {:induction false} LedgerStays(balances: seq<int>, costs: seq<int>)
    requires Ledger(balances, costs)
    ensures balances[|costs|] >= 0
  {
    if costs != [] {
      var k := |costs| - 1;
      assert balances[k + 1] == Floored(balances[k] - costs[k]);
    }
  }

  lemma {:induction false} CostsOfMore(steps: seq<Step>, id: int)
    requires steps != []
    ensures CostsOf(steps, id) == CostsOf(steps[..|steps| - 1], id) + [Cost(steps[|steps| - 1], id)]
  {
  }

  /** The cache after each step of a run. */
  lemma {:induction false} BalancesAlong(before: seq<Step>, since: seq<Step>, id: int, snapshot: int)
    returns (balances: seq<int>, costs: seq<int>)
    requires AllQuiet(since, id) && CacheAt(before, id) == Some(snapshot) && snapshot >= 0
    ensures Ledger(balances, costs) && costs == CostsOf(since, id) && balances[0] == snapshot
    ensures CacheAt(before + since, id) == Some(balances[|costs|])
    decreases |since|
  {
    if since == [] {
      assert before + since == before;
      return [snapshot], [];
    }
    var front, last := since[..|since| - 1], since[|since| - 1];
    balances, costs := BalancesAlong(before, front, id, snapshot);
    LedgerStays(balances, costs);
    var cost, balance := NextBalance(before + front, last, id, balances[|costs|]);
    LedgerGrows(balances, costs, cost, balance);
    CostsOfMore(since, id);
    FrontApart(before, since);
    balances, costs := balances + [balance], costs + [cost];
  }

  lemma {:induction false} NextBalance(run: seq<Step>, last: Step, id: int, c: int) returns (cost: nat, balance: int)
    requires Quiet(last, id) && CacheAt(run, id) == Some(c) && c >= 0
    ensures cost == Cost(last, id) && balance == Floored(c - cost) && CacheAt(run + [last], id) == Some(balance)
  {
    cost := Cost(last, id);
    balance := Floored(c - cost);
    CacheAfterRun(run, last, id, c, cost);
  }

  /**
   * Whatever else happens to the table, and however often the floor at 0 is hit on the way, the cached credits are the
   * last snapshot less the estimated costs of all requests counted on the key since, floored once.
   */
  lemma {:induction false} CacheIsSnapshotLessCosts(before: seq<Step>, since: seq<Step>, id: int, snapshot: int)
    requires AllQuiet(since, id)
    requires CacheAt(before, id) == Some(snapshot) && snapshot >= 0
    ensures CacheAt(before + since, id) == Some(Floored(snapshot - Deductions(since, id)))
  {
    var balances, costs := BalancesAlong(before, since, id, snapshot);
    assert balances[|costs|] == Floored(snapshot - Deductions(since, id)) by {
      FloorAlong(balances, costs);
    }
  }

  lemma {:induction false} SnapshotWrites(keys: Table, id: int, w: Write)
    requires Find(keys, id).Some? && w.Fetched?
    ensures Cached(MapRow(keys, id, w), id) == Some(w.remaining)
  {
    FindEdited(keys, id, w, id);
  }

  /** A snapshot of an existing key is what the cache holds right after it. */
  lemma {:induction false} SnapshotIsCached(before: seq<Step>, id: int, w: Write)
    requires Find(Replay(before), id).Some? && w.Fetched?
    ensures CacheAt(before + [Edit(id, w)], id) == Some(w.remaining)
  {
    ReplaySnoc(before, Edit(id, w));
    SnapshotWrites(Replay(before), id, w);
    assert !Clashes(Replay(before), id, w);
  }
}
