/** Sticky bindings of upstream resources to keys: app/core/resource_binding.py. */
module ResourceBinding {
  import opened Common
  import opened Text

  /** The unique key of a binding row. */
  datatype Ref = Ref(client: int, kind: string, rid: string)
  datatype Binding = Binding(keyId: int, expiresAt: Option<int>)
  type Bindings = map<Ref, Binding>

  function Truncated(s: string, n: nat): string {
    if |s| <= n then s else s[..n]
  }

  /** The row a raw type and id address; a blank id addresses none. */
  function Address(client: int, kind: string, id: string): Option<Ref> {
    var rid := Strip(id);
    if rid == "" then None else Some(Ref(client, Truncated(kind, 32), Truncated(rid, 128)))
  }

  /** Expiry asked for by a bind: none for a missing or zero TTL. */
  function ExpiryOf(ttl: Option<int>, now: int): Option<int> {
    if ttl.GetOr(0) == 0 then None else Some(now + ttl.value * SECOND)
  }

  function Bound(rows: Bindings, client: int, keyId: int, kind: string, id: string, ttl: Option<int>,
                 now: int): Bindings {
    match Address(client, kind, id)
    case None => rows
    case Some(ref) =>
      var asked := ExpiryOf(ttl, now);
      if ref !in rows then rows[ref := Binding(keyId, asked)]
      else
        var b := rows[ref];
        if b.keyId == keyId && asked.Some? && (b.expiresAt.None? || b.expiresAt.value < asked.value)
        then rows[ref := b.(expiresAt := asked)] else rows
  }

  predicate Expired(b: Binding, now: int) {
    b.expiresAt.Some? && b.expiresAt.value < now
  }

  function LookedUp(rows: Bindings, client: int, kind: string, id: string, now: int): (Bindings, Option<int>) {
    match Address(client, kind, id)
    case None => (rows, None)
    case Some(ref) =>
      if ref !in rows then (rows, None)
      else if Expired(rows[ref], now) then (rows - {ref}, None)
      else (rows, Some(rows[ref].keyId))
  }

  class BindingTable {
    var rows: Bindings
    /** Every bind and lookup so far. */
    ghost var ops: seq<Op>

    ghost predicate Valid()
      reads this
    {
      rows == After(map[], ops)
    }

    constructor ()
      ensures Valid() && rows == map[] && ops == []
    {
      rows, ops := map[], [];
    }

    /** app/core/resource_binding.py: bind_resource. The insert loses to an existing row. */
    method Bind(client: int, keyId: int, kind: string, id: string, ttl: Option<int>, now: int)
      requires Valid()
      modifies this
      ensures Valid() && ops == old(ops) + [BindOp(client, keyId, kind, id, ttl, now)]
      ensures rows == Bound(old(rows), client, keyId, kind, id, ttl, now)
    {
      AfterNext(map[], ops, BindOp(client, keyId, kind, id, ttl, now));
      ops := ops + [BindOp(client, keyId, kind, id, ttl, now)];
      var address := Address(client, kind, id);
      if address.None? {
        return;
      }
      var ref := address.value;
      var expiresAt := ExpiryOf(ttl, now);
      if ref !in rows {
        rows := rows[ref := Binding(keyId, expiresAt)];
        return;
      }
      var existing := rows[ref];
      if existing.keyId != keyId {
        return;
      }
      if expiresAt.Some? && (existing.expiresAt.None? || existing.expiresAt.value < expiresAt.value) {
        rows := rows[ref := existing.(expiresAt := expiresAt)];
      }
    }

    /** app/core/resource_binding.py: lookup_bound_key_id. An expired row is deleted on the way. */
    method Lookup(client: int, kind: string, id: string, now: int) returns (keyId: Option<int>)
      requires Valid()
      modifies this
      ensures Valid() && ops == old(ops) + [LookupOp(client, kind, id, now)]
      ensures (rows, keyId) == LookedUp(old(rows), client, kind, id, now)
    {
      AfterNext(map[], ops, LookupOp(client, kind, id, now));
      ops := ops + [LookupOp(client, kind, id, now)];
      var address := Address(client, kind, id);
      if address.None? || address.value !in rows {
        return None;
      }
      var record := rows[address.value];
      if record.expiresAt.Some? && record.expiresAt.value < now {
        rows := rows - {address.value};
        return None;
      }
      return Some(record.keyId);
    }

    /** Any sequence of binds and lookups, by whatever handlers. */
    method Perform(more: seq<Op>)
      requires Valid()
      modifies this
      ensures Valid() && ops == old(ops) + more && rows == After(old(rows), more)
      decreases |more|
    {
      if more == [] {
        return;
      }
      match more[0] {
        case BindOp(client, keyId, kind, id, ttl, now) => Bind(client, keyId, kind, id, ttl, now);
        case LookupOp(client, kind, id, now) =>
          var found := Lookup(client, kind, id, now);
      }
      Perform(more[1..]);
    }
  }

  // ---------------------------------------------------------------------------
  // Runs
  // ---------------------------------------------------------------------------

  datatype Op =
    | BindOp(client: int, keyId: int, kind: string, id: string, ttl: Option<int>, now: int)
    | LookupOp(client: int, kind: string, id: string, now: int)

  function Next(rows: Bindings, op: Op): Bindings {
    match op
    case BindOp(client, keyId, kind, id, ttl, now) => Bound(rows, client, keyId, kind, id, ttl, now)
    case LookupOp(client, kind, id, now) => LookedUp(rows, client, kind, id, now).0
  }

  function After(rows: Bindings, ops: seq<Op>): Bindings
    decreases |ops|
  {
    if ops == [] then rows else After(Next(rows, ops[0]), ops[1..])
  }

  lemma {:induction false} AfterNext(rows: Bindings, ops: seq<Op>, op: Op)
    ensures After(rows, ops + [op]) == Next(After(rows, ops), op)
    decreases |ops|
  {
    if ops == [] {
      assert [op][1..] == [] && [] + [op] == [op];
    } else {
      AfterNext(Next(rows, ops[0]), ops[1..], op);
      assert (ops + [op])[1..] == ops[1..] + [op];
    }
  }

  /** The row the operation addresses. */
  function Target(op: Op): Option<Ref> {
    Address(op.client, op.kind, op.id)
  }

  /**
   * One operation on a bound resource: the key never changes, and the row goes only when a lookup finds it
   * expired.
   */
  lemma {:induction false} KeyNeverChanges(rows: Bindings, op: Op, ref: Ref)
    requires ref in rows
    ensures ref in Next(rows, op) ==> Next(rows, op)[ref].keyId == rows[ref].keyId
    ensures ref !in Next(rows, op) <==> op.LookupOp? && Target(op) == Some(ref) && Expired(rows[ref], op.now)
  {
  }

  /** A permanent binding stays exactly as it is unless the same key is bound again with a TTL. */
  lemma {:induction false} PermanentUnlessRebound(rows: Bindings, op: Op, ref: Ref)
    requires ref in rows && rows[ref].expiresAt.None?
    ensures ref in Next(rows, op)
    ensures Next(rows, op)[ref] == rows[ref] <==>
            !(op.BindOp? && Target(op) == Some(ref) && op.keyId == rows[ref].keyId && op.ttl.GetOr(0) != 0)
  {
  }

  /** The gateway never passes a TTL. */
  ghost predicate GatewayOps(ops: seq<Op>) {
    forall i :: 0 <= i < |ops| && ops[i].BindOp? ==> ops[i].ttl.None?
  }

  /** Under gateway operations no row ever gets an expiry. */
  lemma {:induction false} GatewayRowsArePermanent(rows: Bindings, ops: seq<Op>)
    requires GatewayOps(ops) && forall ref :: ref in rows ==> rows[ref].expiresAt.None?
    ensures forall ref :: ref in After(rows, ops) ==> After(rows, ops)[ref].expiresAt.None?
    decreases |ops|
  {
    if ops != [] {
      assert forall i :: 0 <= i < |ops[1..]| ==> ops[1..][i] == ops[i + 1];
      GatewayRowsArePermanent(Next(rows, ops[0]), ops[1..]);
    }
  }

  /**
   * Sticky: once a resource is bound without expiry, no later sequence of gateway binds and lookups, with
   * whatever keys, changes the binding, and every lookup that addresses it, at any time, yields its key.
   */
  lemma {:induction false} BindingIsSticky(rows: Bindings, ops: seq<Op>, ref: Ref, client: int, kind: string,
                                           id: string, now: int)
    requires ref in rows && rows[ref].expiresAt.None? && GatewayOps(ops)
    requires Address(client, kind, id) == Some(ref)
    ensures ref in After(rows, ops) && After(rows, ops)[ref] == rows[ref]
    ensures LookedUp(After(rows, ops), client, kind, id, now).1 == Some(rows[ref].keyId)
    decreases |ops|
  {
    if ops != [] {
      PermanentUnlessRebound(rows, ops[0], ref);
      assert forall i :: 0 <= i < |ops[1..]| ==> ops[1..][i] == ops[i + 1];
      BindingIsSticky(Next(rows, ops[0]), ops[1..], ref, client, kind, id, now);
    }
  }

  /** The strings agree on their first `n` characters. */
  ghost predicate Agree(a: string, b: string, n: nat) {
    && (|a| == |b| || (|a| >= n && |b| >= n))
    && forall i :: 0 <= i < n && i < |a| && i < |b| ==> a[i] == b[i]
  }

  /** The same client's resource of the same type, as far as the columns can tell ids and types apart. */
  ghost predicate SameResource(client: int, kind: string, id: string, client': int, kind': string, id': string) {
    client == client' && Agree(kind, kind', 32) && Agree(Strip(id), Strip(id'), 128)
  }

  lemma {:induction false} AgreeMeans(a: string, b: string, n: nat)
    ensures Truncated(a, n) == Truncated(b, n) <==> Agree(a, b, n)
  {
    var s, t := Truncated(a, n), Truncated(b, n);
    if s == t {
      assert forall i :: 0 <= i < |s| ==> a[i] == s[i] == t[i] == b[i];
    } else if Agree(a, b, n) {
      assert |s| == |t| && forall i :: 0 <= i < |s| ==> s[i] == t[i];
    }
  }

  /** Different resources have different rows, and one resource has one row, however its id is padded. */
  lemma {:induction false} RowsTellResourcesApart(client: int, kind: string, id: string, client': int, kind': string,
                                                  id': string)
    requires Strip(id) != "" && Strip(id') != ""
    ensures Address(client, kind, id).Some? && Address(client', kind', id').Some?
    ensures Address(client, kind, id) == Address(client', kind', id')
            <==> SameResource(client, kind, id, client', kind', id')
  {
    AgreeMeans(kind, kind', 32);
    AgreeMeans(Strip(id), Strip(id'), 128);
  }

  /** The operation concerns the resource, under whatever spelling. */
  ghost predicate Concerns(op: Op, client: int, kind: string, id: string) {
    Strip(op.id) != "" && SameResource(op.client, op.kind, op.id, client, kind, id)
  }

  lemma {:induction false} ConcernsMeans(op: Op, client: int, kind: string, id: string)
    requires Strip(id) != ""
    ensures Concerns(op, client, kind, id) <==> Target(op) == Address(client, kind, id)
  {
    if Strip(op.id) != "" {
      RowsTellResourcesApart(op.client, op.kind, op.id, client, kind, id);
    }
  }

  /** Binds and lookups of other resources leave a resource's lookups as they were. */
  lemma {:induction false} OthersLeaveIt(rows: Bindings, ops: seq<Op>, client: int, kind: string, id: string, now: int)
    requires forall i :: 0 <= i < |ops| ==> !Concerns(ops[i], client, kind, id)
    ensures LookedUp(After(rows, ops), client, kind, id, now).1 == LookedUp(rows, client, kind, id, now).1
    decreases |ops|
  {
    if ops != [] && Strip(id) != "" {
      ConcernsMeans(ops[0], client, kind, id);
      assert forall i :: 0 <= i < |ops[1..]| ==> ops[1..][i] == ops[i + 1];
      OthersLeaveIt(Next(rows, ops[0]), ops[1..], client, kind, id, now);
      var ref := Address(client, kind, id).value;
      assert (ref in Next(rows, ops[0]) <==> ref in rows) && (ref in rows ==> Next(rows, ops[0])[ref] == rows[ref]);
    }
  }

  /** The operation binds the resource to a key. */
  ghost predicate Binds(op: Op, client: int, kind: string, id: string) {
    op.BindOp? && Concerns(op, client, kind, id)
  }

  /** The `n`-th operation is the first to bind the resource. */
  ghost predicate FirstBind(ops: seq<Op>, n: nat, client: int, kind: string, id: string) {
    n < |ops| && Binds(ops[n], client, kind, id) && forall i :: 0 <= i < n ==> !Binds(ops[i], client, kind, id)
  }

  /** A row is there only if some operation bound its resource. */
  lemma {:induction false} RowsComeFromBinds(rows: Bindings, ops: seq<Op>, client: int, kind: string, id: string)
    requires Strip(id) != "" && Address(client, kind, id).value !in rows
    requires forall i :: 0 <= i < |ops| ==> !Binds(ops[i], client, kind, id)
    ensures Address(client, kind, id).value !in After(rows, ops)
    decreases |ops|
  {
    if ops != [] {
      ConcernsMeans(ops[0], client, kind, id);
      assert forall i :: 0 <= i < |ops[1..]| ==> ops[1..][i] == ops[i + 1];
      RowsComeFromBinds(Next(rows, ops[0]), ops[1..], client, kind, id);
    }
  }

  /** Until some operation binds it, a resource has no key, whatever else is bound. */
  lemma {:induction false} UnboundHasNoKey(ops: seq<Op>, client: int, kind: string, id: string, now: int)
    requires forall i :: 0 <= i < |ops| ==> !Binds(ops[i], client, kind, id)
    ensures LookedUp(After(map[], ops), client, kind, id, now).1 == None
  {
    if Strip(id) != "" {
      RowsComeFromBinds(map[], ops, client, kind, id);
    }
  }

  /**
   * The whole chain, from the empty table: after any binds and lookups by the gateway, of whatever resources, a
   * resource resolves at any time to the key of the first operation that bound it.
   */
  lemma {:induction false} OwnerForGood(ops: seq<Op>, n: nat, client: int, kind: string, id: string, time: int)
    requires GatewayOps(ops) && Strip(id) != "" && FirstBind(ops, n, client, kind, id)
    ensures LookedUp(After(map[], ops), client, kind, id, time).1 == Some(ops[n].keyId)
    ensures var ref := Address(client, kind, id).value;
            ref in After(map[], ops) && After(map[], ops)[ref] == Binding(ops[n].keyId, None)
  {
    var before, later := ops[..n], ops[n + 1..];
    var rows := After(map[], before);
    assert ops == (before + [ops[n]]) + later;
    ConcernsMeans(ops[n], client, kind, id);
    RowsComeFromBinds(map[], before, client, kind, id);
    AfterNext(map[], before, ops[n]);
    AfterJoin(map[], before + [ops[n]], later);
    BindingIsSticky(Next(rows, ops[n]), later, Address(client, kind, id).value, client, kind, id, time);
  }

  /** So a lookup tells which key that is, and finds none exactly if nothing has bound the resource. */
  lemma {:induction false} LookupYieldsOwner(ops: seq<Op>, client: int, kind: string, id: string, time: int)
    requires GatewayOps(ops)
    ensures var found := LookedUp(After(map[], ops), client, kind, id, time).1;
            && (found.Some? <==> exists n: nat :: FirstBind(ops, n, client, kind, id))
            && forall n: nat :: FirstBind(ops, n, client, kind, id) ==> found == Some(ops[n].keyId)
  {
    if i :| 0 <= i < |ops| && Binds(ops[i], client, kind, id) {
      var n := FirstBindBy(ops, i, client, kind, id);
      forall n: nat | FirstBind(ops, n, client, kind, id)
        ensures LookedUp(After(map[], ops), client, kind, id, time).1 == Some(ops[n].keyId)
      {
        OwnerForGood(ops, n, client, kind, id, time);
      }
    } else {
      UnboundHasNoKey(ops, client, kind, id, time);
    }
  }

  lemma {:induction false} FirstBindBy(ops: seq<Op>, i: nat, client: int, kind: string, id: string) returns (n: nat)
    requires i < |ops| && Binds(ops[i], client, kind, id)
    ensures FirstBind(ops, n, client, kind, id)
    decreases i
  {
    if j :| 0 <= j < i && Binds(ops[j], client, kind, id) {
      n := FirstBindBy(ops, j, client, kind, id);
    } else {
      n := i;
    }
  }

  lemma {:induction false} AfterJoin(rows: Bindings, a: seq<Op>, b: seq<Op>)
    ensures After(rows, a + b) == After(After(rows, a), b)
    decreases |a|
  {
    if a == [] {
      assert a + b == b;
    } else {
      assert (a + b)[1..] == a[1..] + b;
      AfterJoin(Next(rows, a[0]), a[1..], b);
    }
  }

  /**
   * A TTL runs in whole seconds from the bind, its last instant included: on a new row, and on the key's own row if
   * that would expire sooner or not at all. On another key's row it does nothing.
   */
  lemma {:induction false} TtlMeans(rows: Bindings, client: int, keyId: int, kind: string, id: string, ttl: int,
                                    now: int, time: int)
    requires Strip(id) != "" && ttl != 0
    ensures var ref := Address(client, kind, id).value;
            var found := LookedUp(Bound(rows, client, keyId, kind, id, Some(ttl), now), client, kind, id, time).1;
            if ref !in rows || (rows[ref].keyId == keyId && rows[ref].expiresAt.None?) then
              found == if time <= now + ttl * 1_000_000 then Some(keyId) else None
            else if rows[ref].keyId == keyId then
              found == if time <= Max(now + ttl * 1_000_000, rows[ref].expiresAt.value) then Some(keyId) else None
            else found == LookedUp(rows, client, kind, id, time).1
  {
  }

  /** The first bind wins: after it, the resource resolves to that key. */
  lemma {:induction false} FirstBindWins(rows: Bindings, client: int, keyId: int, kind: string, id: string, now: int,
                                         later: int)
    requires Address(client, kind, id).Some? && Address(client, kind, id).value !in rows
    ensures LookedUp(Bound(rows, client, keyId, kind, id, None, now), client, kind, id, later).1 == Some(keyId)
  {
  }
}
