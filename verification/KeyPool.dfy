/** Round-robin key selection: app/core/key_pool.py. */
module KeyPool {
  import opened Common
  import opened Keys

  /** What a select reads besides the table: clock, local date, cooldown-store answers, seconds to midnight. */
  datatype Moment = Moment(now: int, today: int, store: map<int, int>, untilMidnight: int)

  /** How the scan classifies a key. */
  datatype Verdict = Off | Waiting(remaining: int) | OverQuota | Free

  /** Remaining cooldown in whole seconds, truncated. */
  function CooldownRemaining(k: ApiKey, now: int): int {
    if k.cooldownUntil.None? || k.cooldownUntil.value <= now then 0
    else (k.cooldownUntil.value - now) / SECOND
  }

  /** The longer of the row's own cooldown and, for a cooling key, the store's. */
  function Remaining(k: ApiKey, m: Moment): int {
    var own := CooldownRemaining(k, m.now);
    if k.status == Cooling && k.id in m.store then Max(own, m.store[k.id]) else own
  }

  /** The lazy daily reset. */
  function Rolled(k: ApiKey, today: int): ApiKey {
    if k.quotaResetAt == Some(today) then k
    else k.(dailyUsage := 0, quotaResetAt := Some(today),
            status := if k.status == QuotaExceeded then Active else k.status)
  }

  /** The row as the scan leaves it, and its classification. */
  function Settle(k: ApiKey, m: Moment): (ApiKey, Verdict) {
    if IsDisabled(k) then (k, Off)
    else
      var r := Rolled(k, m.today);
      if Paused(r) && Remaining(r, m) > 0 then (r, Waiting(Remaining(r, m)))
      else
        var a := if Paused(r) then r.(cooldownUntil := None, status := Active) else r;
        if Spent(a) then (a.(status := QuotaExceeded), OverQuota) else (a, Free)
  }

  /**
   * A key is selectable exactly when it is enabled, has no whole second of a cooldown to wait out if it is cooling or
   * failed, by its own row and for a cooling key by the store, and is under its quota for today, where nothing counts
   * that was used before today's stamp.
   */
  lemma {:induction false} FreeMeans(k: ApiKey, m: Moment)
    ensures Settle(k, m).1.Free? <==>
              && k.isActive && k.status != Disabled
              && (k.status == Cooling || k.status == Failed ==>
                    k.cooldownUntil.None? || k.cooldownUntil.value - m.now < 1_000_000)
              && (k.status == Cooling && k.id in m.store ==> m.store[k.id] <= 0)
              && (k.dailyQuota.Some? ==>
                    (if k.quotaResetAt == Some(m.today) then k.dailyUsage else 0) < k.dailyQuota.value)
  {
  }

  /**
   * The scan leaves a switched-off key alone. Of an enabled one it stamps the day, forgetting what was used before it;
   * it lets a cooldown run or clears it; and it sets the status to match: still waiting, out of quota, or active again
   * after a cooldown or a new day.
   */
  lemma {:induction false} SettledMeans(k: ApiKey, m: Moment)
    ensures var (r, v) := Settle(k, m);
            if !k.isActive || k.status == Disabled then r == k && v == Off
            else
              var paused := k.status == Cooling || k.status == Failed;
              && r == k.(dailyUsage := r.dailyUsage, quotaResetAt := r.quotaResetAt, status := r.status,
                         cooldownUntil := r.cooldownUntil)
              && r.quotaResetAt == Some(m.today)
              && r.dailyUsage == (if k.quotaResetAt == Some(m.today) then k.dailyUsage else 0)
              && (v.Waiting? ==> paused && r.status == k.status && r.cooldownUntil == k.cooldownUntil)
              && (!v.Waiting? ==> r.cooldownUntil == if paused then None else k.cooldownUntil)
              && (v.OverQuota? ==>
                    r.status == QuotaExceeded && r.dailyQuota.Some? && r.dailyQuota.value <= r.dailyUsage)
              && (v.Free? ==> r.status == if paused || (k.status == QuotaExceeded && k.quotaResetAt != Some(m.today))
                                          then Active else k.status)
  {
  }

  /** The wait of a cooling or failed key in whole seconds: its row's, or the store's if that is longer and it cools. */
  lemma {:induction false} WaitMeans(k: ApiKey, m: Moment)
    requires Settle(k, m).1.Waiting?
    ensures var wait := Settle(k, m).1.remaining;
            var own := if k.cooldownUntil.Some? then k.cooldownUntil.value - m.now else 0;
            && wait > 0
            && (wait * 1_000_000 <= own || (k.status == Cooling && k.id in m.store && m.store[k.id] == wait))
            && own < (wait + 1) * 1_000_000
            && (k.status == Cooling && k.id in m.store ==> m.store[k.id] <= wait)
  {
  }

  /** A selected key that was cooling or failed has less than one second of its cooldown left. */
  lemma {:induction false} FreeAfterPause(k: ApiKey, m: Moment)
    requires Settle(k, m).1.Free? && Paused(k) && k.cooldownUntil.Some?
    ensures k.cooldownUntil.value - m.now < SECOND
  {
    FreeMeans(k, m);
  }

  // ---------------------------------------------------------------------------
  // The scan
  // ---------------------------------------------------------------------------

  predicate InScope(k: ApiKey, client: Option<int>, provider: string) {
    k.provider == provider && (client.Some? ==> k.client == client)
  }

  /** Positions of the rows the query returns, in id order. */
  function Scope(keys: Table, client: Option<int>, provider: string): (ps: seq<nat>)
    ensures forall i :: 0 <= i < |ps| ==> ps[i] < |keys| && InScope(keys[ps[i]], client, provider)
    ensures forall i, j :: 0 <= i < j < |ps| ==> ps[i] < ps[j]
    ensures forall p :: 0 <= p < |keys| && InScope(keys[p], client, provider) ==> p in ps
  {
    if keys == [] then []
    else
      var n := |keys| - 1;
      var front := Scope(keys[..n], client, provider);
      if InScope(keys[n], client, provider) then front + [n] else front
  }

  function Verdicts(keys: Table, ps: seq<nat>, m: Moment): (vs: seq<Verdict>)
    requires Within(ps, keys)
    ensures |vs| == |ps|
  {
    seq(|ps|, i requires 0 <= i < |ps| => Settle(keys[ps[i]], m).1)
  }

  function Rotate<T>(s: seq<T>, start: nat): (r: seq<T>)
    requires start <= |s|
    ensures |r| == |s|
  {
    s[start..] + s[..start]
  }

  /** The cyclic position `o` places after `start`, that is (start + o) % n. */
  function Wrap(start: nat, o: nat, n: nat): (idx: nat)
    requires start < n && o < n
    ensures idx < n
  {
    if start + o < n then start + o else start + o - n
  }

  lemma {:induction false} WrapIsModulo(start: nat, o: nat, n: nat)
    requires start < n && o < n
    ensures Wrap(start, o, n) == (start + o) % n
  {
    if start + o < n {
      assert (start + o) % n == start + o;
    } else {
      assert (start + o) % n == start + o - n;
    }
  }

  /** Index of the first selectable entry from `i` on, or the length if there is none. */
  function FirstFree(vs: seq<Verdict>, i: nat): (o: nat)
    requires i <= |vs|
    ensures i <= o <= |vs|
    ensures forall j :: i <= j < o ==> !vs[j].Free?
    ensures o < |vs| ==> vs[o].Free?
    decreases |vs| - i
  {
    if i == |vs| || vs[i].Free? then i else FirstFree(vs, i + 1)
  }

  /** The slot chosen by a scan that starts at `start`. */
  function Pick(vs: seq<Verdict>, start: nat): (slot: Option<nat>)
    requires start < |vs|
    ensures slot.Some? ==> slot.value < |vs|
  {
    var o := FirstFree(Rotate(vs, start), 0);
    if o == |vs| then None else Some(Wrap(start, o, |vs|))
  }

  /** The rows of the first `n` slots of a lap from `start`. */
  function Walked(ps: seq<nat>, start: nat, n: nat): set<nat>
    requires start < |ps| && n <= |ps|
  {
    if n == 0 then {} else Walked(ps, start, n - 1) + {ps[Wrap(start, n - 1, |ps|)]}
  }

  /** Places from `start` forward to slot `p`. */
  function Ahead(start: nat, p: nat, n: nat): (d: nat)
    requires start < n && p < n
    ensures d < n && Wrap(start, d, n) == p
  {
    if start <= p then p - start else p + n - start
  }

  /** Places from the stored index forward to slot `p`. */
  function Distance(index: nat, p: nat, n: nat): (d: nat)
    requires p < n
    ensures d < n
  {
    Ahead(index % n, p, n)
  }

  /** The rows a successful scan has touched: from the slot of the old index to the one just before the new index. */
  function VisitedBy(ps: seq<nat>, index: nat, index': nat): set<nat>
    requires 0 < index' <= |ps|
  {
    Walked(ps, index % |ps|, Ahead(index % |ps|, index' - 1, |ps|) + 1)
  }

  lemma {:induction false} AheadOfWrap(start: nat, o: nat, n: nat)
    requires start < n && o < n
    ensures Ahead(start, Wrap(start, o, n), n) == o
  {
  }

  /** They are the rows from slot `start` on, `n` of them, going around the end of the scope to its beginning. */
  lemma {:induction false} WalkedMeans(ps: seq<nat>, start: nat, n: nat)
    requires start < |ps| && n <= |ps|
    ensures forall o: nat :: o < n ==> ps[Wrap(start, o, |ps|)] in Walked(ps, start, n)
    ensures forall p :: p in Walked(ps, start, n) ==> exists o: nat :: o < n && p == ps[Wrap(start, o, |ps|)]
  {
    if n > 0 {
      WalkedMeans(ps, start, n - 1);
    }
  }

  /** The table once the visited rows have been written back. */
  function Commit(keys: Table, visited: set<nat>, m: Moment): (r: Table)
    ensures |r| == |keys|
  {
    seq(|keys|, p requires 0 <= p < |keys| => if p in visited then Settle(keys[p], m).0 else keys[p])
  }

  /** The counters of the scan; `free` stays 0 until it stops. */
  datatype Tally = Tally(off: nat, waiting: nat, over: nat, free: nat)

  function Tallied(t: Tally, v: Verdict): Tally {
    match v
    case Off => t.(off := t.off + 1)
    case Waiting(_) => t.(waiting := t.waiting + 1)
    case OverQuota => t.(over := t.over + 1)
    case Free => t.(free := t.free + 1)
  }

  function Plus(s: Tally, t: Tally): Tally {
    Tally(s.off + t.off, s.waiting + t.waiting, s.over + t.over, s.free + t.free)
  }

  /** The retry hint kept by the scan. */
  function Shortest(hint: Option<int>, v: Verdict): Option<int> {
    if v.Waiting? then Some(if hint.None? then v.remaining else Min(hint.value, v.remaining)) else hint
  }

  function Count(vs: seq<Verdict>): (t: Tally)
    ensures t.off + t.waiting + t.over + t.free == |vs|
  {
    if vs == [] then Tally(0, 0, 0, 0) else Tallied(Count(vs[..|vs| - 1]), vs[|vs| - 1])
  }

  function ShortestWait(vs: seq<Verdict>): Option<int> {
    if vs == [] then None else Shortest(ShortestWait(vs[..|vs| - 1]), vs[|vs| - 1])
  }

  datatype Error =
    | NoKeyConfigured
    | AllKeysDisabled
    | AllKeysQuotaExceeded(retryAfter: int)
    | AllKeysCooling(retryAfter: int)
    | NoKeyAvailable

  /** The error of a scan over `n` keys that found nothing, from its counters and its hint. */
  function Refusal(t: Tally, n: nat, hint: Option<int>, untilMidnight: int): Error {
    if t.off == n then AllKeysDisabled
    else if t.over > 0 && t.over + t.off == n then AllKeysQuotaExceeded(untilMidnight)
    else if t.waiting > 0 && t.waiting + t.off == n then AllKeysCooling(hint.GetOr(0))
    else NoKeyAvailable
  }

  datatype Selection = Selected(pos: nat) | Refused(error: Error)

  /** Every position in `ps` is a row of the table. */
  predicate Within(ps: seq<nat>, keys: Table) {
    forall i :: 0 <= i < |ps| ==> ps[i] < |keys|
  }

  predicate NoneActive(keys: Table, ps: seq<nat>)
    requires Within(ps, keys)
  {
    forall i :: 0 <= i < |ps| ==> !keys[ps[i]].isActive
  }

  /** The outcome of a select over the rows `ps` when the stored index is `index`, and the index stored after it. */
  function Choose(keys: Table, ps: seq<nat>, m: Moment, index: nat): (Selection, nat)
    requires Within(ps, keys)
  {
    if ps == [] then (Refused(NoKeyConfigured), index)
    else if NoneActive(keys, ps) then (Refused(AllKeysDisabled), index)
    else
      var vs := Verdicts(keys, ps, m);
      match Pick(vs, index % |ps|)
      case Some(slot) => (Selected(ps[slot]), slot + 1)
      case None => (Refused(Refusal(Count(vs), |vs|, ShortestWait(vs), m.untilMidnight)), index)
  }

  datatype ScopeName = ScopeName(client: Option<int>, provider: string)

  /** One turn of the scan: daily reset, then cooldown expiry, then the quota check. */
  method Visit(key: ApiKey, m: Moment) returns (k: ApiKey, v: Verdict)
    ensures (k, v) == Settle(key, m)
  {
    k := key;
    if IsDisabled(k) {
      return k, Off;
    }
    if k.quotaResetAt != Some(m.today) {
      k := k.(dailyUsage := 0, quotaResetAt := Some(m.today));
      if k.status == QuotaExceeded {
        k := k.(status := Active);
      }
    }
    if k.status == Cooling || k.status == Failed {
      var remaining := CooldownRemaining(k, m.now);
      if k.status == Cooling && k.id in m.store {
        remaining := Max(remaining, m.store[k.id]);
      }
      if remaining > 0 {
        return k, Waiting(remaining);
      }
      k := k.(cooldownUntil := None, status := Active);
    }
    if k.dailyQuota.Some? && k.dailyUsage >= k.dailyQuota.value {
      return k.(status := QuotaExceeded), OverQuota;
    }
    return k, Free;
  }

  class KeyPool {
    var rrIndex: map<ScopeName, nat>

    constructor ()
      ensures rrIndex == map[]
    {
      rrIndex := map[];
    }

    function Index(scope: ScopeName): nat
      reads this
    {
      if scope in rrIndex then rrIndex[scope] else 0
    }

    /**
     * app/core/key_pool.py: select. A success commits every row the scan touched; a refusal is raised
     * before any commit, so the session's edits are dropped with it.
     */
    method Select(keys: Table, client: Option<int>, provider: string, m: Moment)
      returns (r: Selection, keys': Table, visited: set<nat>)
      modifies this
      ensures var scope := ScopeName(client, provider);
              var outcome := Choose(keys, Scope(keys, client, provider), m, old(Index(scope)));
              && r == outcome.0
              && rrIndex == if r.Selected? then old(rrIndex)[scope := outcome.1] else old(rrIndex)
      ensures r.Refused? ==> keys' == keys
      ensures r.Selected? ==>
                && r.pos < |keys| && r.pos in visited && keys' == Commit(keys, visited, m)
                && visited == VisitedBy(Scope(keys, client, provider), old(Index(ScopeName(client, provider))),
                                        rrIndex[ScopeName(client, provider)])
                && InScope(keys[r.pos], client, provider) && Settle(keys[r.pos], m).1.Free?
                && |keys'| == |keys|
                && forall p :: 0 <= p < |keys| ==> keys'[p] == if p in visited then Settle(keys[p], m).0 else keys[p]
    {
      var ps, scope := Scope(keys, client, provider), ScopeName(client, provider);
      var index;
      r, index, keys', visited := SelectFrom(keys, ps, m, Index(scope));
      if r.Selected? {
        rrIndex := rrIndex[scope := index];
      }
    }
  }

  method SelectFrom(keys: Table, ps: seq<nat>, m: Moment, index: nat)
    returns (r: Selection, index': nat, keys': Table, visited: set<nat>)
    requires Within(ps, keys)
    ensures (r, index') == Choose(keys, ps, m, index)
    ensures r.Refused? ==> keys' == keys
    ensures r.Selected? ==> r.pos in ps && r.pos in visited && keys' == Commit(keys, visited, m)
                            && visited == VisitedBy(ps, index, index') && Settle(keys[r.pos], m).1.Free?
  {
    keys', visited, index' := keys, {}, index;
    if ps == [] {
      r := Refused(NoKeyConfigured);
    } else if NoneActive(keys, ps) {
      r := Refused(AllKeysDisabled);
    } else {
      var slot, rows, seen, t, hint := Scan(keys, ps, index % |ps|, m);
      PickIsFree(keys, ps, m, index % |ps|);
      if slot.Some? {
        r, index', keys', visited := Selected(ps[slot.value]), slot.value + 1, rows, seen;
      } else {
        r := Refused(Refusal(t, |ps|, hint, m.untilMidnight));
      }
    }
  }

  /** The loop of `select`: one lap around the scope from `start`, stopping at the first selectable key. */
  method Scan(keys: Table, ps: seq<nat>, start: nat, m: Moment)
    returns (slot: Option<nat>, keys': Table, visited: set<nat>, t: Tally, hint: Option<int>)
    requires start < |ps| && Within(ps, keys)
    ensures slot == Pick(Verdicts(keys, ps, m), start)
    ensures keys' == Commit(keys, visited, m)
    ensures slot.Some? ==> visited == Walked(ps, start, Ahead(start, slot.value, |ps|) + 1)
    ensures slot.None? ==> t == Count(Verdicts(keys, ps, m)) && hint == ShortestWait(Verdicts(keys, ps, m))
  {
    var n := |ps|;
    ghost var vs := Verdicts(keys, ps, m);
    ghost var order := Rotate(vs, start);
    slot, keys', visited, t, hint := None, keys, {}, Tally(0, 0, 0, 0), None;
    for offset := 0 to n
      invariant Counts(order, offset, t, hint) && t.free == 0
      invariant keys' == Commit(keys, visited, m) && visited == Walked(ps, start, offset)
    {
      var idx, free;
      keys', idx, t, hint, free := VisitSlot(keys, keys', ps, start, offset, m, visited, t, hint);
      visited := visited + {ps[idx]};
      if free {
        LapStops(vs, start, offset);
        AheadOfWrap(start, offset, n);
        slot := Some(idx);
        return;
      }
    }
    WholeLap(order);
    LapFindsNone(vs, start);
    LapCounts(vs, start);
  }

  lemma {:induction false} LapStops(vs: seq<Verdict>, start: nat, o: nat)
    requires start < |vs| && o < |vs|
    requires Count(Rotate(vs, start)[..o]).free == 0 && Rotate(vs, start)[o].Free?
    ensures Pick(vs, start) == Some(Wrap(start, o, |vs|))
  {
    FoundAt(Rotate(vs, start), o);
  }

  lemma {:induction false} LapFindsNone(vs: seq<Verdict>, start: nat)
    requires start < |vs| && Count(Rotate(vs, start)).free == 0
    ensures Pick(vs, start) == None
  {
    var order := Rotate(vs, start);
    NoneFree(order);
  }

  lemma {:induction false} LapCounts(vs: seq<Verdict>, start: nat)
    requires start < |vs|
    ensures Count(Rotate(vs, start)[..|vs|]) == Count(vs)
    ensures ShortestWait(Rotate(vs, start)[..|vs|]) == ShortestWait(vs)
  {
    CountRotates(vs, start);
    WholeLap(Rotate(vs, start));
  }

  lemma {:induction false} WholeLap(order: seq<Verdict>)
    ensures order[..|order|] == order
  {
  }

  /** The counters after the first `o` slots of a lap. */
  ghost predicate Counts(order: seq<Verdict>, o: nat, t: Tally, hint: Option<int>)
    requires o <= |order|
  {
    Count(order[..o]) == t && ShortestWait(order[..o]) == hint
  }

  /** One slot of the lap: settle its row and count its verdict. */
  method VisitSlot(keys: Table, rows: Table, ps: seq<nat>, start: nat, offset: nat, m: Moment, ghost visited: set<nat>,
                   t: Tally, hint: Option<int>)
    returns (rows': Table, idx: nat, t': Tally, hint': Option<int>, free: bool)
    requires start < |ps| && offset < |ps| && Within(ps, keys) && rows == Commit(keys, visited, m)
    requires Counts(Rotate(Verdicts(keys, ps, m), start), offset, t, hint)
    ensures idx == Wrap(start, offset, |ps|) && rows' == Commit(keys, visited + {ps[idx]}, m)
    ensures Counts(Rotate(Verdicts(keys, ps, m), start), offset + 1, t', hint')
    ensures free == Rotate(Verdicts(keys, ps, m), start)[offset].Free?
    ensures t'.free == t.free + if free then 1 else 0
  {
    ghost var order := Rotate(Verdicts(keys, ps, m), start);
    idx := SlotAt(start, offset, |ps|);
    var key, verdict := Visit(keys[ps[idx]], m);
    RotatedVerdict(keys, ps, m, start, offset);
    CountNext(order, offset);
    CommitNext(keys, visited, ps[idx], m);
    rows' := rows[ps[idx] := key];
    t', hint', free := Tallied(t, verdict), Shortest(hint, verdict), verdict.Free?;
  }

  /** The scan's index arithmetic. */
  method SlotAt(start: nat, offset: nat, n: nat) returns (idx: nat)
    requires start < n && offset < n
    ensures idx == Wrap(start, offset, n)
  {
    idx := (start + offset) % n;
    WrapIsModulo(start, offset, n);
  }

  /** The picked row is selectable, and is the last one visited. */
  lemma {:induction false} PickIsFree(keys: Table, ps: seq<nat>, m: Moment, start: nat)
    requires start < |ps| && Within(ps, keys)
    ensures var slot := Pick(Verdicts(keys, ps, m), start);
            slot.Some? ==>
              && Settle(keys[ps[slot.value]], m).1.Free?
              && ps[slot.value] in Walked(ps, start, Ahead(start, slot.value, |ps|) + 1)
  {
    PickMeans(Verdicts(keys, ps, m), start);
  }

  lemma {:induction false} RotatedVerdict(keys: Table, ps: seq<nat>, m: Moment, start: nat, o: nat)
    requires start < |ps| && o < |ps| && Within(ps, keys)
    ensures Rotate(Verdicts(keys, ps, m), start)[o] == Settle(keys[ps[Wrap(start, o, |ps|)]], m).1
  {
  }

  lemma {:induction false} NoneFree(vs: seq<Verdict>)
    ensures Count(vs).free == 0 <==> forall i :: 0 <= i < |vs| ==> !vs[i].Free?
  {
    if vs != [] {
      NoneFree(vs[..|vs| - 1]);
      assert forall i :: 0 <= i < |vs| - 1 ==> vs[..|vs| - 1][i] == vs[i];
    }
  }

  lemma {:induction false} CommitNext(keys: Table, visited: set<nat>, p: nat, m: Moment)
    requires p < |keys|
    ensures Commit(keys, visited + {p}, m) == Commit(keys, visited, m)[p := Settle(keys[p], m).0]
  {
  }

  lemma {:induction false} CountNext(vs: seq<Verdict>, o: nat)
    requires o < |vs|
    ensures Count(vs[..o + 1]) == Tallied(Count(vs[..o]), vs[o])
    ensures ShortestWait(vs[..o + 1]) == Shortest(ShortestWait(vs[..o]), vs[o])
  {
    assert vs[..o + 1][..o] == vs[..o];
  }

  lemma {:induction false} FoundAt(vs: seq<Verdict>, o: nat)
    requires o <= |vs| && Count(vs[..o]).free == 0 && (o < |vs| ==> vs[o].Free?)
    ensures FirstFree(vs, 0) == o
  {
    NoneFree(vs[..o]);
    assert forall i :: 0 <= i < o ==> vs[..o][i] == vs[i];
  }

  function Sooner(x: Option<int>, y: Option<int>): Option<int> {
    if x.None? then y else if y.None? then x else Some(Min(x.value, y.value))
  }

  lemma {:induction false} CountSnoc(a: seq<Verdict>, v: Verdict)
    ensures Count(a + [v]) == Tallied(Count(a), v)
    ensures ShortestWait(a + [v]) == Shortest(ShortestWait(a), v)
  {
    assert (a + [v])[..|a + [v]| - 1] == a;
  }

  lemma {:induction false} CountAppends(a: seq<Verdict>, b: seq<Verdict>)
    ensures Count(a + b) == Plus(Count(a), Count(b))
    ensures ShortestWait(a + b) == Sooner(ShortestWait(a), ShortestWait(b))
    decreases |b|
  {
    if b == [] {
      assert a + b == a;
    } else {
      var front, v := b[..|b| - 1], b[|b| - 1];
      CountAppends(a, front);
      assert a + b == (a + front) + [v];
      CountSnoc(a + front, v);
      TalliesAdd(Count(a), Count(front), v);
      HintsAdd(ShortestWait(a), ShortestWait(front), v);
    }
  }

  lemma {:induction false} TalliesAdd(s: Tally, t: Tally, v: Verdict)
    ensures Tallied(Plus(s, t), v) == Plus(s, Tallied(t, v))
  {
  }

  lemma {:induction false} HintsAdd(x: Option<int>, y: Option<int>, v: Verdict)
    ensures Shortest(Sooner(x, y), v) == Sooner(x, Shortest(y, v))
  {
  }

  lemma {:induction false} PlusCommutes(s: Tally, t: Tally)
    ensures Plus(s, t) == Plus(t, s)
  {
  }

  lemma {:induction false} SoonerCommutes(x: Option<int>, y: Option<int>)
    ensures Sooner(x, y) == Sooner(y, x)
  {
  }

  lemma {:induction false} CountSwaps(a: seq<Verdict>, b: seq<Verdict>)
    ensures Count(a + b) == Count(b + a) && ShortestWait(a + b) == ShortestWait(b + a)
  {
    CountAppends(a, b);
    CountAppends(b, a);
    PlusCommutes(Count(a), Count(b));
    SoonerCommutes(ShortestWait(a), ShortestWait(b));
  }

  /** The counters do not depend on where the scan starts. */
  lemma {:induction false} CountRotates(vs: seq<Verdict>, start: nat)
    requires start <= |vs|
    ensures Count(Rotate(vs, start)) == Count(vs) && ShortestWait(Rotate(vs, start)) == ShortestWait(vs)
  {
    var front, back := vs[..start], vs[start..];
    assert vs == front + back && Rotate(vs, start) == back + front;
    CountSwaps(back, front);
  }

  // ---------------------------------------------------------------------------
  // What a select means
  // ---------------------------------------------------------------------------

  /**
   * Pick finds a key exactly when some key is selectable, and then the cyclically first one: every slot
   * passed over on the way from `start` is not selectable.
   */
  lemma {:induction false} PickMeans(vs: seq<Verdict>, start: nat)
    requires start < |vs|
    ensures Pick(vs, start).None? <==> forall i :: 0 <= i < |vs| ==> !vs[i].Free?
    ensures Pick(vs, start).Some? ==>
              exists o: nat :: o < |vs| && Pick(vs, start) == Some(Wrap(start, o, |vs|))
                               && vs[Wrap(start, o, |vs|)].Free?
                               && forall e: nat :: e < o ==> !vs[Wrap(start, e, |vs|)].Free?
  {
    var order := Rotate(vs, start);
    var o := FirstFree(order, 0);
    assert forall e: nat :: e < |vs| ==> order[e] == vs[Wrap(start, e, |vs|)];
    if o == |vs| {
      forall i | 0 <= i < |vs|
        ensures !vs[i].Free?
      {
        assert vs[i] == order[if i >= start then i - start else i + |vs| - start];
      }
    }
  }

  /** A verdict that occurs is counted, and the hint does not exceed a wait that occurs. */
  lemma {:induction false} Counted(vs: seq<Verdict>, i: nat)
    requires i < |vs|
    ensures match vs[i]
            case Off => Count(vs).off > 0
            case Waiting(r) =>
              Count(vs).waiting > 0 && ShortestWait(vs).Some? && ShortestWait(vs).value <= r
            case OverQuota => Count(vs).over > 0
            case Free => Count(vs).free > 0
    decreases |vs|
  {
    var front := vs[..|vs| - 1];
    if i < |front| {
      Counted(front, i);
      assert front[i] == vs[i];
    }
  }

  /** A positive counter has a witness, and the hint is one of the waits. */
  lemma {:induction false} Witnessed(vs: seq<Verdict>)
    ensures Count(vs).waiting > 0 ==> ShortestWait(vs).Some?
    ensures ShortestWait(vs).Some? ==> Waiting(ShortestWait(vs).value) in vs
    ensures Count(vs).over > 0 ==> OverQuota in vs
    decreases |vs|
  {
    if vs != [] {
      var front := vs[..|vs| - 1];
      Witnessed(front);
      assert vs[|vs| - 1] in vs && forall v :: v in front ==> v in vs;
    }
  }

  /**
   * When nothing is selectable every key is off, waiting or over quota, and the kinds present fix the error:
   * NO_KEY_AVAILABLE exactly when waiting and exhausted keys are mixed, and the cooling hint is the least wait.
   */
  lemma {:induction false} RefusalMeans(vs: seq<Verdict>, untilMidnight: int)
    requires vs != [] && forall i :: 0 <= i < |vs| ==> !vs[i].Free?
    ensures var t := Count(vs);
            var error := Refusal(t, |vs|, ShortestWait(vs), untilMidnight);
            var waiting := exists i :: 0 <= i < |vs| && vs[i].Waiting?;
            var over := exists i :: 0 <= i < |vs| && vs[i].OverQuota?;
            && t.off + t.waiting + t.over == |vs|
            && (error.AllKeysDisabled? <==> forall i :: 0 <= i < |vs| ==> vs[i].Off?)
            && (error == AllKeysQuotaExceeded(untilMidnight) <==> over && !waiting)
            && (error.AllKeysQuotaExceeded? ==> error.retryAfter == untilMidnight)
            && (error.AllKeysCooling? <==> waiting && !over)
            && (error.NoKeyAvailable? <==> waiting && over)
            && (error.AllKeysCooling? ==>
                  && Waiting(error.retryAfter) in vs
                  && forall i :: 0 <= i < |vs| && vs[i].Waiting? ==> error.retryAfter <= vs[i].remaining)
  {
    forall i | 0 <= i < |vs|
      ensures match vs[i]
              case Off => Count(vs).off > 0
              case Waiting(r) =>
                Count(vs).waiting > 0 && ShortestWait(vs).Some? && ShortestWait(vs).value <= r
              case OverQuota => Count(vs).over > 0
              case Free => Count(vs).free > 0
    {
      Counted(vs, i);
    }
    Witnessed(vs);
    NoneFree(vs);
  }

  datatype Kind = AnyKind | FreeKind | WaitingKind | OverQuotaKind

  predicate OfKind(v: Verdict, kind: Kind) {
    match kind
    case AnyKind => true
    case FreeKind => v.Free?
    case WaitingKind => v.Waiting?
    case OverQuotaKind => v.OverQuota?
  }

  ghost predicate SomeVerdict(vs: seq<Verdict>, kind: Kind) {
    exists i :: 0 <= i < |vs| && OfKind(vs[i], kind)
  }

  /** Some key of the provider, and of the client if one is given, has a verdict of this kind. */
  ghost predicate SomeKey(keys: Table, client: Option<int>, provider: string, m: Moment, kind: Kind) {
    exists p :: 0 <= p < |keys| && keys[p].provider == provider && (client == None || keys[p].client == client)
                && OfKind(Settle(keys[p], m).1, kind)
  }

  lemma {:induction false} SomeKeyInScope(keys: Table, client: Option<int>, provider: string, m: Moment, kind: Kind)
    ensures SomeKey(keys, client, provider, m, kind)
            <==> SomeVerdict(Verdicts(keys, Scope(keys, client, provider), m), kind)
  {
    var ps := Scope(keys, client, provider);
    var vs := Verdicts(keys, ps, m);
    if p :| 0 <= p < |keys| && keys[p].provider == provider && (client == None || keys[p].client == client)
            && OfKind(Settle(keys[p], m).1, kind) {
      assert InScope(keys[p], client, provider);
      var i :| 0 <= i < |ps| && ps[i] == p;
      assert OfKind(vs[i], kind);
    }
    if i :| 0 <= i < |vs| && OfKind(vs[i], kind) {
      assert InScope(keys[ps[i]], client, provider) && vs[i] == Settle(keys[ps[i]], m).1;
    }
  }

  /** The outcome over verdicts; keys that are all inactive are all off. */
  lemma {:induction false} ChoiceMeans(keys: Table, ps: seq<nat>, m: Moment, index: nat, vs: seq<Verdict>)
    requires Within(ps, keys) && vs == Verdicts(keys, ps, m)
    ensures var r := Choose(keys, ps, m, index).0;
            var free := SomeVerdict(vs, FreeKind);
            && (r.Selected? <==> free)
            && (r == Refused(NoKeyConfigured) <==> vs == [])
            && (vs != [] && !free ==> r == Refused(Refusal(Count(vs), |vs|, ShortestWait(vs), m.untilMidnight)))
  {
    assert forall i :: 0 <= i < |vs| ==> vs[i] == Settle(keys[ps[i]], m).1;
    if ps != [] {
      PickMeans(vs, index % |ps|);
      assert SomeVerdict(vs, FreeKind) <==> exists i :: 0 <= i < |vs| && vs[i].Free?;
      if NoneActive(keys, ps) {
        assert forall i :: 0 <= i < |vs| ==> vs[i].Off?;
        RefusalMeans(vs, m.untilMidnight);
      }
    }
  }

  /**
   * What a select comes to, whatever the stored index: a key if the client has a selectable one, else the error that
   * the kinds of its keys of the provider call for.
   */
  lemma {:induction false} SelectionMeans(keys: Table, client: Option<int>, provider: string, m: Moment, index: nat)
    ensures var r := Choose(keys, Scope(keys, client, provider), m, index).0;
            var any := SomeKey(keys, client, provider, m, AnyKind);
            var free := SomeKey(keys, client, provider, m, FreeKind);
            var waiting := SomeKey(keys, client, provider, m, WaitingKind);
            var over := SomeKey(keys, client, provider, m, OverQuotaKind);
            && (r.Selected? <==> free)
            && (r == Refused(NoKeyConfigured) <==> !any)
            && (r == Refused(AllKeysDisabled) <==> any && !free && !waiting && !over)
            && (r == Refused(AllKeysQuotaExceeded(m.untilMidnight)) <==> !free && over && !waiting)
            && (r.Refused? && r.error.AllKeysCooling? <==> !free && waiting && !over)
            && (r == Refused(NoKeyAvailable) <==> !free && waiting && over)
  {
    var vs := Verdicts(keys, Scope(keys, client, provider), m);
    SomeKeyInScope(keys, client, provider, m, AnyKind);
    SomeKeyInScope(keys, client, provider, m, FreeKind);
    SomeKeyInScope(keys, client, provider, m, WaitingKind);
    SomeKeyInScope(keys, client, provider, m, OverQuotaKind);
    ChoiceMeans(keys, Scope(keys, client, provider), m, index, vs);
    if vs != [] && !SomeVerdict(vs, FreeKind) {
      assert SomeVerdict(vs, AnyKind) by { assert OfKind(vs[0], AnyKind); }
      RefusalByKind(vs, m.untilMidnight);
    }
  }

  lemma {:induction false} RefusalByKind(vs: seq<Verdict>, untilMidnight: int)
    requires vs != [] && !SomeVerdict(vs, FreeKind)
    ensures var error := Refusal(Count(vs), |vs|, ShortestWait(vs), untilMidnight);
            var (over, waiting) := (SomeVerdict(vs, OverQuotaKind), SomeVerdict(vs, WaitingKind));
            && (error.AllKeysDisabled? <==> !waiting && !over)
            && (error == AllKeysQuotaExceeded(untilMidnight) <==> over && !waiting)
            && (error.AllKeysCooling? <==> waiting && !over)
            && (error.NoKeyAvailable? <==> waiting && over)
  {
    assert forall i :: 0 <= i < |vs| && vs[i].Free? ==> OfKind(vs[i], FreeKind);
    assert forall i :: 0 <= i < |vs| && vs[i].Waiting? ==> OfKind(vs[i], WaitingKind);
    assert forall i :: 0 <= i < |vs| && vs[i].OverQuota? ==> OfKind(vs[i], OverQuotaKind);
    RefusalMeans(vs, untilMidnight);
  }

  // ---------------------------------------------------------------------------
  // Fairness over many selects
  // ---------------------------------------------------------------------------

  /** Each round is what one select of the scope sees: a verdict for every key, however the rows changed meanwhile. */
  ghost predicate Stable(rounds: seq<seq<Verdict>>, n: nat) {
    forall i :: 0 <= i < |rounds| ==> |rounds[i]| == n
  }

  /** The slots chosen by successive selects; a refused select keeps the index and chooses nothing. */
  function Picks(rounds: seq<seq<Verdict>>, index: nat, n: nat): (slots: seq<Option<nat>>)
    requires n > 0 && Stable(rounds, n)
    ensures |slots| == |rounds|
    decreases |rounds|
  {
    if rounds == [] then []
    else
      var slot := Pick(rounds[0], index % n);
      [slot] + Picks(rounds[1..], if slot.Some? then slot.value + 1 else index, n)
  }

  /** A scan never passes a selectable slot: it stops no later than `p`. */
  lemma {:induction false} PickNotPast(vs: seq<Verdict>, start: nat, p: nat) returns (o: nat)
    requires p < |vs| && vs[p].Free? && start < |vs|
    ensures o < |vs| && Pick(vs, start) == Some(Wrap(start, o, |vs|))
    ensures o <= if start <= p then p - start else p + |vs| - start
  {
    PickMeans(vs, start);
    o :| o < |vs| && Pick(vs, start) == Some(Wrap(start, o, |vs|))
         && forall e: nat :: e < o ==> !vs[Wrap(start, e, |vs|)].Free?;
    assert Wrap(start, if start <= p then p - start else p + |vs| - start, |vs|) == p;
  }

  lemma {:induction false} NextStart(slot: nat, n: nat)
    requires slot < n
    ensures (slot + 1) % n == if slot + 1 == n then 0 else slot + 1
  {
  }

  /** While `p` is selectable, a select either takes it or comes strictly closer to it. */
  lemma {:induction false} PickApproaches(vs: seq<Verdict>, index: nat, p: nat)
    requires p < |vs| && vs[p].Free?
    ensures var slot := Pick(vs, index % |vs|);
            && slot.Some?
            && (slot.value == p || Distance(slot.value + 1, p, |vs|) < Distance(index, p, |vs|))
  {
    var o := PickNotPast(vs, index % |vs|, p);
    NextStart(Wrap(index % |vs|, o, |vs|), |vs|);
  }

  /**
   * Round-robin starves no key: one that is selectable throughout is chosen within its cyclic distance
   * from the stored index, so within n selects, whatever happens to the other keys.
   */
  lemma {:induction false} NoStarvation(rounds: seq<seq<Verdict>>, index: nat, n: nat, p: nat)
    requires p < n && Stable(rounds, n) && AlwaysFree(rounds, p)
    requires |rounds| > Distance(index, p, n)
    ensures exists i :: 0 <= i <= Distance(index, p, n) && Picks(rounds, index, n)[i] == Some(p)
    decreases |rounds|
  {
    PickApproaches(rounds[0], index, p);
    var slot := Pick(rounds[0], index % n).value;
    NextRounds(rounds, n, p);
    PicksFirst(rounds, index, slot + 1, n);
    var picks := Picks(rounds, index, n);
    assert picks[0] == Some(slot);
    if slot != p {
      var later := Picks(rounds[1..], slot + 1, n);
      NoStarvation(rounds[1..], slot + 1, n, p);
      var i :| 0 <= i <= Distance(slot + 1, p, n) && later[i] == Some(p);
      assert picks[i + 1] == later[i];
    }
  }

  /** Slot `p` is selectable in every round. */
  ghost predicate AlwaysFree(rounds: seq<seq<Verdict>>, p: nat) {
    forall i :: 0 <= i < |rounds| ==> p < |rounds[i]| && rounds[i][p].Free?
  }

  lemma {:induction false} NextRounds(rounds: seq<seq<Verdict>>, n: nat, p: nat)
    requires rounds != [] && Stable(rounds, n) && AlwaysFree(rounds, p)
    ensures Stable(rounds[1..], n) && AlwaysFree(rounds[1..], p)
  {
    assert forall i :: 0 <= i < |rounds[1..]| ==> rounds[1..][i] == rounds[i + 1];
  }

  ghost predicate AllFree(rounds: seq<seq<Verdict>>) {
    forall j, p :: 0 <= j < |rounds| && 0 <= p < |rounds[j]| ==> rounds[j][p].Free?
  }

  lemma {:induction false} FirstIsStart(vs: seq<Verdict>, start: nat)
    requires start < |vs| && vs[start].Free?
    ensures Pick(vs, start) == Some(start)
  {
    var o := PickNotPast(vs, start, start);
  }

  lemma {:induction false} RestOfRounds(rounds: seq<seq<Verdict>>, n: nat)
    requires rounds != [] && Stable(rounds, n) && AllFree(rounds)
    ensures Stable(rounds[1..], n) && AllFree(rounds[1..])
  {
    assert forall j :: 0 <= j < |rounds[1..]| ==> rounds[1..][j] == rounds[j + 1];
  }

  /** With every key selectable the picks simply go around. */
  lemma {:induction false} PicksGoAround(rounds: seq<seq<Verdict>>, index: nat, n: nat, i: nat)
    requires n > 0 && Stable(rounds, n) && i < |rounds| && i < n
    requires AllFree(rounds)
    ensures Picks(rounds, index, n)[i] == Some(Wrap(index % n, i, n))
    decreases i
  {
    var start := index % n;
    FirstIsStart(rounds[0], start);
    RestOfRounds(rounds, n);
    PicksFirst(rounds, index, start + 1, n);
    if i > 0 {
      PicksGoAround(rounds[1..], start + 1, n, i - 1);
      NextStart(start, n);
    }
  }

  /** n selects over n always-selectable keys choose each key exactly once. */
  lemma {:induction false} EachOnceInTurn(rounds: seq<seq<Verdict>>, index: nat, n: nat, p: nat)
    requires p < n == |rounds| && Stable(rounds, n) && AllFree(rounds)
    ensures forall i :: 0 <= i < n ==> (Picks(rounds, index, n)[i] == Some(p) <==> i == Distance(index, p, n))
  {
    forall i | 0 <= i < n
      ensures Picks(rounds, index, n)[i] == Some(p) <==> i == Distance(index, p, n)
    {
      PicksGoAround(rounds, index, n, i);
    }
  }

  /** What successive selects of a scope see. */
  function Seen(rounds: seq<(Table, Moment)>, client: Option<int>, provider: string): (vs: seq<seq<Verdict>>)
    ensures |vs| == |rounds|
  {
    seq(|rounds|, i requires 0 <= i < |rounds| =>
      Verdicts(rounds[i].0, Scope(rounds[i].0, client, provider), rounds[i].1))
  }

  lemma {:induction false} ChooseIsPick(keys: Table, ps: seq<nat>, m: Moment, index: nat)
    requires ps != [] && Within(ps, keys)
    ensures var slot := Pick(Verdicts(keys, ps, m), index % |ps|);
            && (Choose(keys, ps, m, index).0.Selected? <==> slot.Some?)
            && (slot.Some? ==> Choose(keys, ps, m, index) == (Selected(ps[slot.value]), slot.value + 1))
            && (slot.None? ==> Choose(keys, ps, m, index).1 == index)
  {
    if NoneActive(keys, ps) {
      PickMeans(Verdicts(keys, ps, m), index % |ps|);
    }
  }

  /** The selection is the row in the slot picked. */
  ghost predicate SelectsAs(r: Selection, ps: seq<nat>, slot: Option<nat>) {
    if slot.None? then r.Refused? else slot.value < |ps| && r == Selected(ps[slot.value])
  }

  function Scopes(rounds: seq<(Table, Moment)>, client: Option<int>, provider: string): (ps: seq<seq<nat>>)
    ensures |ps| == |rounds|
  {
    seq(|rounds|, i requires 0 <= i < |rounds| => Scope(rounds[i].0, client, provider))
  }

  ghost predicate SelectsAsPicked(rs: seq<Selection>, scopes: seq<seq<nat>>, slots: seq<Option<nat>>) {
    && |rs| == |scopes| == |slots|
    && forall i :: 0 <= i < |rs| ==> SelectsAs(rs[i], scopes[i], slots[i])
  }

  /** Successive selects, on whatever tables others leave in between, choose as the fairness results assume. */
  method SelectInTurn(pool: KeyPool, client: Option<int>, provider: string, rounds: seq<(Table, Moment)>, n: nat)
    returns (rs: seq<Selection>)
    requires n > 0 && ScopeOf(rounds, client, provider, n)
    modifies pool
    ensures Stable(Seen(rounds, client, provider), n)
    ensures SelectsAsPicked(rs, Scopes(rounds, client, provider),
                            Picks(Seen(rounds, client, provider), old(pool.Index(ScopeName(client, provider))), n))
    decreases |rounds|
  {
    SeenIsStable(rounds, client, provider, n);
    if rounds == [] {
      return [];
    }
    ghost var index := pool.Index(ScopeName(client, provider));
    var r, keys', visited := pool.Select(rounds[0].0, client, provider, rounds[0].1);
    ghost var next := pool.Index(ScopeName(client, provider));
    NextIndex(rounds[0].0, Scope(rounds[0].0, client, provider), rounds[0].1, index);
    SeenIsStable(rounds[1..], client, provider, n);
    var rest := SelectInTurn(pool, client, provider, rounds[1..], n);
    FirstSelects(rounds, client, provider, n, index, next, r, rest);
    rs := [r] + rest;
  }

  ghost predicate ScopeOf(rounds: seq<(Table, Moment)>, client: Option<int>, provider: string, n: nat) {
    forall i :: 0 <= i < |rounds| ==> |Scope(rounds[i].0, client, provider)| == n
  }

  lemma {:induction false} SeenIsStable(rounds: seq<(Table, Moment)>, client: Option<int>, provider: string, n: nat)
    requires ScopeOf(rounds, client, provider, n)
    ensures Stable(Seen(rounds, client, provider), n)
    ensures rounds != [] ==> ScopeOf(rounds[1..], client, provider, n)
  {
    assert forall i :: 1 <= i < |rounds| ==> rounds[1..][i - 1] == rounds[i];
  }

  /** A refused select stores the index it found. */
  lemma {:induction false} NextIndex(keys: Table, ps: seq<nat>, m: Moment, index: nat)
    requires Within(ps, keys)
    ensures Choose(keys, ps, m, index).0.Refused? ==> Choose(keys, ps, m, index).1 == index
  {
  }

  lemma {:induction false} FirstSelects(rounds: seq<(Table, Moment)>, client: Option<int>, provider: string, n: nat,
                                        index: nat, next: nat, r: Selection, rest: seq<Selection>)
    requires rounds != [] && n > 0 && ScopeOf(rounds, client, provider, n)
    requires (r, next) == Choose(rounds[0].0, Scope(rounds[0].0, client, provider), rounds[0].1, index)
    requires Stable(Seen(rounds, client, provider), n) && Stable(Seen(rounds[1..], client, provider), n)
    requires SelectsAsPicked(rest, Scopes(rounds[1..], client, provider),
                             Picks(Seen(rounds[1..], client, provider), next, n))
    ensures SelectsAsPicked([r] + rest, Scopes(rounds, client, provider),
                            Picks(Seen(rounds, client, provider), index, n))
  {
    var ps := Scope(rounds[0].0, client, provider);
    ChooseIsPick(rounds[0].0, ps, rounds[0].1, index);
    var seen := Seen(rounds, client, provider);
    ScopesFirst(rounds, client, provider);
    var later := Picks(seen[1..], next, n);
    var slot := Pick(seen[0], index % n);
    assert SelectsAs(r, ps, slot);
    PicksFirst(seen, index, next, n);
    SelectsMore(r, rest, ps, Scopes(rounds[1..], client, provider), slot, later);
  }

  lemma {:induction false} ScopesFirst(rounds: seq<(Table, Moment)>, client: Option<int>, provider: string)
    requires rounds != []
    ensures Scopes(rounds, client, provider)
            == [Scope(rounds[0].0, client, provider)] + Scopes(rounds[1..], client, provider)
    ensures Seen(rounds, client, provider)[1..] == Seen(rounds[1..], client, provider)
  {
  }

  lemma {:induction false} PicksFirst(rounds: seq<seq<Verdict>>, index: nat, next: nat, n: nat)
    requires n > 0 && rounds != [] && Stable(rounds, n) && Stable(rounds[1..], n)
    requires var slot := Pick(rounds[0], index % n); next == if slot.Some? then slot.value + 1 else index
    ensures Picks(rounds, index, n) == [Pick(rounds[0], index % n)] + Picks(rounds[1..], next, n)
  {
  }

  lemma {:induction false} SelectsMore(r: Selection, rest: seq<Selection>, ps: seq<nat>, scopes: seq<seq<nat>>,
                                       slot: Option<nat>, later: seq<Option<nat>>)
    requires SelectsAs(r, ps, slot) && SelectsAsPicked(rest, scopes, later)
    ensures SelectsAsPicked([r] + rest, [ps] + scopes, [slot] + later)
  {
  }
}
