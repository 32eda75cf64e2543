/**
 * Record ids as SQLite hands them out: the largest id in the table plus one, so the id of a deleted last record comes
 * back, while app/core/idempotency.py: complete looks a record up by its id alone. The machine of Idempotency numbers
 * records afresh; here each of its records also has such a database id.
 */
module RecordIds {
  import opened Common
  import opened Idempotency

  /** `dbIds[g]` is the database id of the record that grant `g` inserted. */
  datatype Tagged = Tagged(s: State, dbIds: seq<nat>)

  function IdsInUse(r: Tagged): set<nat> {
    set slot | slot in r.s.rows && r.s.rows[slot].id < |r.dbIds| :: r.dbIds[r.s.rows[slot].id]
  }

  lemma {:induction false} MaximumExists(ids: set<nat>)
    requires ids != {}
    ensures exists m :: m in ids && forall x :: x in ids ==> x <= m
  {
    var x :| x in ids;
    if ids != {x} {
      MaximumExists(ids - {x});
      var m :| m in ids - {x} && forall y :: y in ids - {x} ==> y <= m;
      var top := if x > m then x else m;
      assert top in ids;
      forall y | y in ids
        ensures y <= top
      {
        assert y != x ==> y in ids - {x};
      }
    }
  }

  ghost function FreshId(r: Tagged): (id: nat)
    ensures forall x :: x in IdsInUse(r) ==> x < id
    ensures IdsInUse(r) == {} ==> id == 1
  {
    if IdsInUse(r) == {} then 1
    else
      MaximumExists(IdsInUse(r));
      var m :| m in IdsInUse(r) && forall x :: x in IdsInUse(r) ==> x <= m;
      m + 1
  }

  /** The record in `slot` has the database id that start `id` was given. */
  predicate Holds(r: Tagged, slot: Slot, id: nat) {
    slot in r.s.rows && r.s.rows[slot].id < |r.dbIds| && id < |r.dbIds| && r.dbIds[r.s.rows[slot].id] == r.dbIds[id]
  }

  /** A completion by id: it fills in whatever record has the id now. */
  ghost function Completed(r: Tagged, pid: nat, fits: bool, response: Response): Tagged {
    match PhaseOf(r.s, pid)
    case Granted(req, id) =>
      var moved := Move(r.s, pid, Done);
      if slot :| fits && Holds(r, slot, id) then r.(s := Storing(moved, slot, response)) else r.(s := moved)
    case _ => r
  }

  ghost function NextTagged(r: Tagged, step: Step, ttl: int): Tagged {
    match step
    case Complete(pid, fits, response) => Completed(r, pid, fits, response)
    case _ =>
      var s' := Next(r.s, step, ttl);
      Tagged(s', if |s'.grants| > |r.s.grants| then r.dbIds + [FreshId(r)] else r.dbIds)
  }

  ghost function RunTagged(clock: int, steps: seq<Step>, ttl: int): Tagged
    decreases |steps|
  {
    if steps == [] then Tagged(Initial(clock), [])
    else NextTagged(RunTagged(clock, steps[..|steps| - 1], ttl), steps[|steps| - 1], ttl)
  }

  // ---------------------------------------------------------------------------
  // Completions that miss their record
  // ---------------------------------------------------------------------------

  /** The completion stores into a record that is not the one its own start inserted. */
  ghost predicate Misdirected(r: Tagged, step: Step) {
    && step.Complete? && step.fits && PhaseOf(r.s, step.pid).Granted?
    && exists slot :: Holds(r, slot, r.s.callers[step.pid].id) && r.s.rows[slot].id != r.s.callers[step.pid].id
  }

  /** The start's own record is still there. */
  predicate OwnRecord(s: State, req: Request, id: nat) {
    req.slot in s.rows && s.rows[req.slot].id == id
  }

  /** In every run: ids number the grants, records in the table have different ones, and each sits in its own slot. */
  ghost predicate Numbered(r: Tagged) {
    && |r.dbIds| == |r.s.grants|
    && (forall slot :: slot in r.s.rows ==>
          r.s.rows[slot].id < |r.s.grants| && r.s.grants[r.s.rows[slot].id].req.slot == slot)
    && (forall a, b :: a in r.s.rows && Holds(r, b, r.s.rows[a].id) ==> a == b)
    && (forall pid :: pid in r.s.callers && r.s.callers[pid].Granted? ==>
          r.s.callers[pid].id < |r.s.grants| && r.s.grants[r.s.callers[pid].id].req == r.s.callers[pid].req)
  }

  lemma {:induction false} InsertKeepsNumbers(r: Tagged, pid: nat, ttl: int)
    requires Numbered(r)
    ensures Numbered(NextTagged(r, Insert(pid), ttl))
  {
    var r' := NextTagged(r, Insert(pid), ttl);
    if PhaseOf(r.s, pid).Cleaned? && r.s.callers[pid].req.slot !in r.s.rows {
      assert forall g :: 0 <= g < |r.s.grants| ==> r'.s.grants[g] == r.s.grants[g];
      NewIdIsDistinct(r, pid, ttl);
    } else {
      FewerRowsStayNumbered(r, r');
    }
  }

  lemma {:induction false} NewIdIsDistinct(r: Tagged, pid: nat, ttl: int)
    requires Numbered(r) && PhaseOf(r.s, pid).Cleaned? && r.s.callers[pid].req.slot !in r.s.rows
    ensures var r' := NextTagged(r, Insert(pid), ttl);
            forall a, b :: a in r'.s.rows && Holds(r', b, r'.s.rows[a].id) ==> a == b
  {
    var r', slot, n := NextTagged(r, Insert(pid), ttl), r.s.callers[pid].req.slot, |r.s.grants|;
    assert r'.dbIds == r.dbIds + [FreshId(r)] && r'.s.rows.Keys == r.s.rows.Keys + {slot} && r'.s.rows[slot].id == n;
    assert forall a :: a in r.s.rows ==> r'.s.rows[a] == r.s.rows[a] && r.s.rows[a].id < n;
    assert forall a :: a in r.s.rows ==> r.dbIds[r.s.rows[a].id] in IdsInUse(r);
    forall a, b | a in r'.s.rows && Holds(r', b, r'.s.rows[a].id)
      ensures a == b
    {
      if a != slot && b != slot {
        assert Holds(r, b, r.s.rows[a].id);
      }
    }
  }

  /** The same grants and ids, no new record, and no new permission. */
  ghost predicate NothingNew(r: Tagged, r': Tagged) {
    && r'.s.grants == r.s.grants && r'.dbIds == r.dbIds
    && (forall slot :: slot in r'.s.rows ==> slot in r.s.rows && r'.s.rows[slot].id == r.s.rows[slot].id)
    && (forall pid :: pid in r'.s.callers && r'.s.callers[pid].Granted? ==>
          pid in r.s.callers && r.s.callers[pid] == r'.s.callers[pid])
  }

  lemma {:induction false} FewerRowsStayNumbered(r: Tagged, r': Tagged)
    requires Numbered(r) && NothingNew(r, r')
    ensures Numbered(r')
  {
    forall a, b | a in r'.s.rows && Holds(r', b, r'.s.rows[a].id)
      ensures a == b
    {
      assert Holds(r, b, r.s.rows[a].id);
    }
  }

  lemma {:induction false} OthersKeepNumbers(r: Tagged, step: Step, ttl: int)
    requires Numbered(r) && !step.Insert? && !step.Complete?
    ensures Numbered(NextTagged(r, step, ttl))
  {
    AddNothing(r, step, ttl);
    FewerRowsStayNumbered(r, NextTagged(r, step, ttl));
  }

  lemma {:induction false} AddNothing(r: Tagged, step: Step, ttl: int)
    requires !step.Insert? && !step.Complete?
    ensures NothingNew(r, NextTagged(r, step, ttl))
  {
  }

  lemma {:induction false} CompleteKeepsNumbers(r: Tagged, pid: nat, fits: bool, response: Response)
    requires Numbered(r)
    ensures Numbered(Completed(r, pid, fits, response))
  {
    FewerRowsStayNumbered(r, Completed(r, pid, fits, response));
  }

  lemma {:induction false} RunsAreNumbered(clock: int, steps: seq<Step>, ttl: int)
    ensures Numbered(RunTagged(clock, steps, ttl))
    decreases |steps|
  {
    if steps != [] {
      var r, step := RunTagged(clock, steps[..|steps| - 1], ttl), steps[|steps| - 1];
      RunsAreNumbered(clock, steps[..|steps| - 1], ttl);
      match step
      case Insert(pid) => InsertKeepsNumbers(r, pid, ttl);
      case Complete(pid, fits, response) => CompleteKeepsNumbers(r, pid, fits, response);
      case _ => OthersKeepNumbers(r, step, ttl);
    }
  }

  /**
   * In every run, a completion that fits goes astray exactly when its own record has been deleted and another record
   * has been given the id since.
   */
  lemma {:induction false} MisdirectedExactly(clock: int, steps: seq<Step>, ttl: int, pid: nat, response: Response)
    requires PhaseOf(RunTagged(clock, steps, ttl).s, pid).Granted?
    ensures var r := RunTagged(clock, steps, ttl);
            var Granted(req, id) := r.s.callers[pid];
            Misdirected(r, Complete(pid, true, response))
            <==> !OwnRecord(r.s, req, id) && exists slot :: Holds(r, slot, id)
  {
    RunsAreNumbered(clock, steps, ttl);
    var r := RunTagged(clock, steps, ttl);
    var Granted(req, id) := r.s.callers[pid];
    if OwnRecord(r.s, req, id) {
      forall slot | Holds(r, slot, id)
        ensures slot == req.slot
      {
        assert Holds(r, slot, r.s.rows[req.slot].id);
      }
    } else if slot :| Holds(r, slot, id) {
      assert r.s.rows[slot].id == id ==> slot == req.slot;
    }
  }

  // ---------------------------------------------------------------------------
  // Without them, nothing differs
  // ---------------------------------------------------------------------------

  /** No completion of the run goes astray. */
  ghost predicate Aimed(clock: int, steps: seq<Step>, ttl: int) {
    forall n :: 0 <= n < |steps| ==> !Misdirected(RunTagged(clock, steps[..n], ttl), steps[n])
  }

  lemma {:induction false} AimedStep(r: Tagged, step: Step, ttl: int)
    requires Numbered(r) && !Misdirected(r, step)
    ensures NextTagged(r, step, ttl).s == Next(r.s, step, ttl)
  {
    if step.Complete? && PhaseOf(r.s, step.pid).Granted? {
      var Granted(req, id) := r.s.callers[step.pid];
      forall slot | step.fits && Holds(r, slot, id)
        ensures slot == req.slot && OwnRecord(r.s, req, id)
      {
        assert r.s.rows[slot].id == id;
      }
      if OwnRecord(r.s, req, id) {
        assert Holds(r, req.slot, id);
      }
    }
  }

  /**
   * A run in which no completion goes astray is the run of the machine with fresh ids, step for step: everything proved
   * there about starts, replays and stored responses holds of it.
   */
  lemma {:induction false} AimedRunsAreFresh(clock: int, steps: seq<Step>, ttl: int)
    requires Aimed(clock, steps, ttl)
    ensures RunTagged(clock, steps, ttl).s == Run(clock, steps, ttl)
    decreases |steps|
  {
    if steps != [] {
      var n := |steps| - 1;
      var front := steps[..n];
      forall k | 0 <= k < n
        ensures !Misdirected(RunTagged(clock, front[..k], ttl), front[k])
      {
        assert front[..k] == steps[..k];
      }
      AimedRunsAreFresh(clock, front, ttl);
      RunsAreNumbered(clock, front, ttl);
      AimedStep(RunTagged(clock, front, ttl), steps[n], ttl);
    }
  }

  // ---------------------------------------------------------------------------
  // With one, a wrong replay follows
  // ---------------------------------------------------------------------------

  /** A caller that asks for the record in this slot with its own hash, undisturbed and without a clean-up. */
  function AskFor(pid: nat, slot: Slot, hash: string): seq<Step> {
    [Call(pid, Request(slot, hash)), Begin(pid, false), Insert(pid), Examine(pid)]
  }

  ghost function Then(r: Tagged, steps: seq<Step>, ttl: int): Tagged
    decreases |steps|
  {
    if steps == [] then r else Then(NextTagged(r, steps[0], ttl), steps[1..], ttl)
  }

  lemma {:induction false} ThenFour(r: Tagged, a: Step, b: Step, c: Step, d: Step, ttl: int)
    ensures Then(r, [a, b, c, d], ttl)
            == NextTagged(NextTagged(NextTagged(NextTagged(r, a, ttl), b, ttl), c, ttl), d, ttl)
  {
    var r1 := NextTagged(r, a, ttl);
    var r2 := NextTagged(r1, b, ttl);
    var r3 := NextTagged(r2, c, ttl);
    assert [a, b, c, d][1..] == [b, c, d] && [b, c, d][1..] == [c, d] && [c, d][1..] == [d] && [d][1..] == [];
    assert Then(r3, [d], ttl) == Then(NextTagged(r3, d, ttl), [], ttl);
    assert Then(r1, [b, c, d], ttl) == Then(r2, [c, d], ttl);
  }

  /**
   * After a completion of start `id` that goes astray into an unexpired record, a caller that asks for that record,
   which
   * belongs to another start, is answered with the response meant for `id`.
   */
  lemma {:induction false} WrongReplayFollows(clock: int, steps: seq<Step>, ttl: int, pid: nat, response: Response,
                                              slot: Slot, other: nat)
    requires var r := RunTagged(clock, steps, ttl);
             && PhaseOf(r.s, pid).Granted? && other != pid && PhaseOf(r.s, other).Done?
             && Holds(r, slot, r.s.callers[pid].id) && r.s.rows[slot].id != r.s.callers[pid].id
             && r.s.rows[slot].expiresAt >= r.s.clock
    ensures var r := RunTagged(clock, steps, ttl);
            var r' := NextTagged(r, Complete(pid, true, response), ttl);
            var after := Then(r', AskFor(other, slot, r.s.rows[slot].hash), ttl);
            && |after.s.replays| == |r.s.replays| + 1
            && after.s.replays[|r.s.replays|].id == r.s.rows[slot].id
            && after.s.replays[|r.s.replays|].response == response
  {
    RunsAreNumbered(clock, steps, ttl);
    var r := RunTagged(clock, steps, ttl);
    StoredAstray(r, pid, response, slot, ttl);
    var r' := NextTagged(r, Complete(pid, true, response), ttl);
    var req := Request(slot, r.s.rows[slot].hash);
    ThenFour(r', Call(other, req), Begin(other, false), Insert(other), Examine(other), ttl);
    Asked(r', other, req, response, ttl);
  }

  lemma {:induction false} StoredAstray(r: Tagged, pid: nat, response: Response, slot: Slot, ttl: int)
    requires Numbered(r) && PhaseOf(r.s, pid).Granted? && Holds(r, slot, r.s.callers[pid].id)
    ensures NextTagged(r, Complete(pid, true, response), ttl) == r.(s := Storing(Move(r.s, pid, Done), slot, response))
  {
    forall b | Holds(r, b, r.s.callers[pid].id)
      ensures b == slot
    {
      assert Holds(r, b, r.s.rows[slot].id);
    }
  }

  lemma {:induction false} Asked(r: Tagged, pid: nat, req: Request, response: Response, ttl: int)
    requires PhaseOf(r.s, pid).Done? && req.slot in r.s.rows && r.s.rows[req.slot].hash == req.hash
    requires r.s.rows[req.slot].stored == Some(response) && r.s.rows[req.slot].expiresAt >= r.s.clock
    ensures var begun := NextTagged(NextTagged(r, Call(pid, req), ttl), Begin(pid, false), ttl);
            var after := NextTagged(NextTagged(begun, Insert(pid), ttl), Examine(pid), ttl);
            && |after.s.replays| == |r.s.replays| + 1
            && after.s.replays[|r.s.replays|].id == r.s.rows[req.slot].id
            && after.s.replays[|r.s.replays|].response == response
  {
    var begun := NextTagged(NextTagged(r, Call(pid, req), ttl), Begin(pid, false), ttl);
    assert begun.s.rows == r.s.rows && PhaseOf(begun.s, pid) == Cleaned(req, r.s.clock);
    var clashed := NextTagged(begun, Insert(pid), ttl);
    assert clashed.s.rows == r.s.rows && PhaseOf(clashed.s, pid) == Clashed(req, r.s.clock);
    assert Decide(r.s.rows[req.slot], req.hash, r.s.clock) == ReplayOf(response);
  }

  /** Such completions happen, whatever the lifetime: a handler slower than it, and the client's next start. */
  lemma {:induction false} IdComesBack(ttl: nat, response: Response)
    ensures var (a, b) := (Request(Slot(1, "first"), "h1"), Request(Slot(1, "second"), "h2"));
            var r := RunTagged(0, TwoStarts(a, b, ttl), ttl);
            && Misdirected(r, Complete(0, true, response))
            && r.s.rows == map[b.slot := Row(1, "h2", None, 2 * ttl + 1)] && r.s.clock == ttl + 1
  {
    var a, b := Request(Slot(1, "first"), "h1"), Request(Slot(1, "second"), "h2");
    var steps := TwoStarts(a, b, ttl);
    SevenSteps(steps, ttl);
    FirstStart(a, ttl);
    SecondCleanup(a, b, ttl);
    SecondStart(a, b, ttl);
    assert steps[..7] == steps;
    assert Holds(RunTagged(0, steps, ttl), b.slot, 0);
  }

  function TwoStarts(a: Request, b: Request, ttl: nat): (steps: seq<Step>)
    ensures |steps| == 7
  {
    [Call(0, a), Begin(0, true), Insert(0), Wait(ttl + 1), Call(1, b), Begin(1, true), Insert(1)]
  }

  /** After the first start, and after the clean-up at the second. */
  function Started(a: Request, ttl: nat): Tagged {
    Tagged(State(map[a.slot := Row(0, a.hash, None, ttl)], map[0 := Granted(a, 0)], 0, map[], [Grant(a, 0, 0, 0)],
                 map[], []), [1])
  }

  function Cleared(a: Request, b: Request, ttl: nat): Tagged {
    Tagged(State(map[], map[0 := Granted(a, 0), 1 := Cleaned(b, ttl + 1)], ttl + 1, map[], [Grant(a, 0, 0, 0)],
                 map[], []), [1])
  }

  ghost function Three(r: Tagged, a: Step, b: Step, c: Step, ttl: int): Tagged {
    NextTagged(NextTagged(NextTagged(r, a, ttl), b, ttl), c, ttl)
  }

  lemma {:induction false} SevenSteps(steps: seq<Step>, ttl: int)
    requires |steps| == 7
    ensures RunTagged(0, steps[..7], ttl) ==
            NextTagged(Three(Three(Tagged(Initial(0), []), steps[0], steps[1], steps[2], ttl),
                             steps[3], steps[4], steps[5], ttl), steps[6], ttl)
  {
    assert steps[..0] == [];
    for n := 1 to 8
      invariant forall k :: 1 <= k < n ==>
                  RunTagged(0, steps[..k], ttl) == NextTagged(RunTagged(0, steps[..k - 1], ttl), steps[k - 1], ttl)
    {
      TaggedUnrolls(0, steps, ttl, n);
    }
  }

  lemma {:induction false} TaggedUnrolls(clock: int, steps: seq<Step>, ttl: int, n: nat)
    requires 0 < n <= |steps|
    ensures RunTagged(clock, steps[..n], ttl) == NextTagged(RunTagged(clock, steps[..n - 1], ttl), steps[n - 1], ttl)
  {
    assert steps[..n][..n - 1] == steps[..n - 1];
  }

  lemma {:induction false} FirstStart(a: Request, ttl: nat)
    ensures Three(Tagged(Initial(0), []), Call(0, a), Begin(0, true), Insert(0), ttl) == Started(a, ttl)
  {
    var begun := NextTagged(NextTagged(Tagged(Initial(0), []), Call(0, a), ttl), Begin(0, true), ttl);
    assert WithoutExpired(map[], a.slot.client, 0) == map[];
    assert begun == Tagged(State(map[], map[0 := Cleaned(a, 0)], 0, map[], [], map[], []), []);
    assert IdsInUse(begun) == {};
  }

  lemma {:induction false} SecondCleanup(a: Request, b: Request, ttl: nat)
    requires a.slot.client == b.slot.client
    ensures Three(Started(a, ttl), Wait(ttl + 1), Call(1, b), Begin(1, true), ttl) == Cleared(a, b, ttl)
  {
    assert WithoutExpired(Started(a, ttl).s.rows, b.slot.client, ttl + 1) == map[];
    assert map[0 := Granted(a, 0)][1 := Ready(b)][1 := Cleaned(b, ttl + 1)]
           == map[0 := Granted(a, 0), 1 := Cleaned(b, ttl + 1)];
  }

  lemma {:induction false} SecondStart(a: Request, b: Request, ttl: nat)
    ensures var r := NextTagged(Cleared(a, b, ttl), Insert(1), ttl);
            && r.dbIds == [1, 1] && r.s.callers == map[0 := Granted(a, 0), 1 := Granted(b, 1)] && r.s.clock == ttl + 1
            && r.s.rows == map[b.slot := Row(1, b.hash, None, 2 * ttl + 1)]
  {
    assert IdsInUse(Cleared(a, b, ttl)) == {};
  }
}
