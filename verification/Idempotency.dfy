/**
 * The idempotency protocol of app/core/idempotency.py: as the sequential calls a handler makes, and as a
 * state machine in which the database transactions of any number of callers interleave freely.
 */
module Idempotency {
  import opened Common

  datatype Response = Response(status: int, body: string)
  datatype Slot = Slot(client: int, key: string)
  datatype Request = Request(slot: Slot, hash: string)

  /** `stored` is the completed response; a row without one is still in progress. */
  datatype Row = Row(id: nat, hash: string, stored: Option<Response>, expiresAt: int)
  type Table = map<Slot, Row>

  /** What a caller that finds the slot taken decides from the row it reads. */
  datatype Decision = Expired | Conflict | InProgress | ReplayOf(response: Response)

  function Decide(row: Row, hash: string, now: int): Decision {
    if row.expiresAt < now then Expired
    else if row.hash != hash then Conflict
    else if row.stored.Some? then ReplayOf(row.stored.value)
    else InProgress
  }

  /**
   * An expired row decides nothing. Of a row that still counts, a different request is a conflict, the same request is
   * in progress until its response is stored, and then gets that response.
   */
  lemma {:induction false} DecisionMeans(row: Row, hash: string, now: int)
    ensures Decide(row, hash, now) == Expired <==> row.expiresAt < now
    ensures Decide(row, hash, now) == Conflict <==> row.expiresAt >= now && row.hash != hash
    ensures Decide(row, hash, now) == InProgress <==> row.expiresAt >= now && row.hash == hash && row.stored.None?
    ensures forall r :: Decide(row, hash, now) == ReplayOf(r) <==>
                          row.expiresAt >= now && row.hash == hash && row.stored == Some(r)
  {
  }

  /** The deletions of _cleanup_expired (one client), cleanup_retention (all) and purge_client (regardless of age). */
  function WithoutExpired(rows: Table, client: int, now: int): (r: Table) {
    map s | s in rows && !(s.client == client && rows[s].expiresAt < now) :: rows[s]
  }

  function Retained(rows: Table, cut: int): Table {
    map s | s in rows && rows[s].expiresAt >= cut :: rows[s]
  }

  function WithoutClient(rows: Table, client: int): Table {
    map s | s in rows && s.client != client :: rows[s]
  }

  /** The configured lifetime, at least one second. */
  function Lifetime(ttlSeconds: int): int {
    Max(ttlSeconds, 1) * SECOND
  }

  // ---------------------------------------------------------------------------
  // Sequential calls
  // ---------------------------------------------------------------------------

  datatype Outcome = Bypass | KeyRequired | Start(id: nat) | Refused(why: Decision) | Replay(response: Response)

  /** The cleanup transaction at the start of a call. */
  function Cleanup(rows: Table, client: int, now: int, ok: bool): Table {
    if ok then WithoutExpired(rows, client, now) else rows
  }

  /**
   * A call with a key, from start to end: the clean-up, then the insert, or the decision on the row in the way; an
   * expired row is deleted and the call starts over at `later`, where nothing is in the way any more.
   */
  function Called(rows: Table, nextId: nat, req: Request, now: int, later: int, cleanupOk: bool, ttl: int)
    : (Table, nat, Outcome)
  {
    var slot := req.slot;
    var clean := Cleanup(rows, slot.client, now, cleanupOk);
    if slot !in clean then (clean[slot := Row(nextId, req.hash, None, now + ttl)], nextId + 1, Start(nextId))
    else
      match Decide(clean[slot], req.hash, now)
      case Expired =>
        var again := Cleanup(clean - {slot}, slot.client, later, cleanupOk);
        (again[slot := Row(nextId, req.hash, None, later + ttl)], nextId + 1, Start(nextId))
      case ReplayOf(r) => (clean, nextId, Replay(r))
      case d => (clean, nextId, Refused(d))
  }

  class IdempotencyStore {
    var rows: Table
    var nextId: nat

    constructor ()
      ensures rows == map[] && nextId == 0
    {
      rows, nextId := map[], 0;
    }

    /**
     * app/core/idempotency.py: start_or_replay. `now` is the clock at entry and `later` the clock if the
     * call has to start over; `cleanupOk` is false when the cleanup transaction failed and was swallowed.
     */
    method StartOrReplay(enabled: bool, required: bool, key: Option<string>, client: int, hash: string,
                         now: int, later: int, cleanupOk: bool, ttlSeconds: int) returns (o: Outcome)
      requires now <= later
      modifies this
      ensures !enabled ==> o == Bypass
      ensures enabled && (key.None? || key.value == "") ==> o == if required then KeyRequired else Bypass
      ensures o == Bypass || o == KeyRequired ==> rows == old(rows) && nextId == old(nextId)
      ensures enabled && key.Some? && key.value != "" ==>
                (rows, nextId, o) == Called(old(rows), old(nextId), Request(Slot(client, key.value), hash), now, later,
                                            cleanupOk, Lifetime(ttlSeconds))
      ensures enabled && key.Some? && key.value != "" ==>
                var slot := Slot(client, key.value);
                // a live row decides the answer and stays as it is
                && (slot in old(rows) && old(rows)[slot].expiresAt >= now ==>
                      && slot in rows && rows[slot] == old(rows)[slot] && nextId == old(nextId)
                      && (o == Refused(Conflict) <==> old(rows)[slot].hash != hash)
                      && (o == Refused(InProgress) <==>
                            old(rows)[slot].hash == hash && old(rows)[slot].stored.None?)
                      && (forall r :: o == Replay(r) <==>
                            old(rows)[slot].hash == hash && old(rows)[slot].stored == Some(r)))
                // otherwise the caller may forward, holding a fresh record
                && (!(slot in old(rows) && old(rows)[slot].expiresAt >= now) ==>
                      && o == Start(old(nextId)) && nextId == old(nextId) + 1
                      && slot in rows
                      && rows[slot] == Row(old(nextId), hash, None,
                                           (if slot in old(rows) && !cleanupOk then later else now)
                                           + (if ttlSeconds >= 1 then ttlSeconds else 1) * 1_000_000))
                // and nothing unexpired is lost, nothing else written
                && (forall s :: s in rows && s != slot ==> s in old(rows) && rows[s] == old(rows)[s])
                && (forall s :: s in old(rows) && s != slot && s !in rows ==>
                                  cleanupOk && s.client == client && old(rows)[s].expiresAt < later)
                // while a cleanup that works leaves none of the client's expired rows behind
                && (cleanupOk ==> forall s :: s in rows && s.client == client ==> rows[s].expiresAt >= now)
      decreases key.Some? && Slot(client, key.value) in rows
    {
      if !enabled {
        return Bypass;
      }
      if key.None? || key.value == "" {
        return if required then KeyRequired else Bypass;
      }
      var slot := Slot(client, key.value);
      if cleanupOk {
        rows := WithoutExpired(rows, client, now);
      }
      if slot !in rows {
        rows := rows[slot := Row(nextId, hash, None, now + Lifetime(ttlSeconds))];
        nextId := nextId + 1;
        return Start(nextId - 1);
      }
      var existing := rows[slot];
      if existing.expiresAt < now {
        rows := rows - {slot};
        o := StartOrReplay(enabled, required, key, client, hash, later, later, cleanupOk, ttlSeconds);
      } else if existing.hash != hash {
        o := Refused(Conflict);
      } else if existing.stored.Some? {
        o := Replay(existing.stored.value);
      } else {
        o := Refused(InProgress);
      }
    }

    /** app/core/idempotency.py: complete. A response too large to store leaves the record in progress. */
    method Complete(enabled: bool, id: nat, fits: bool, response: Response)
      requires forall s, t :: s in rows && t in rows && rows[s].id == rows[t].id ==> s == t
      modifies this`rows
      ensures rows.Keys == old(rows).Keys
      ensures forall s :: s in rows ==>
                            rows[s] == if enabled && fits && rows[s].id == id
                                       then old(rows)[s].(stored := Some(response)) else old(rows)[s]
    {
      if enabled && fits {
        if slot :| slot in rows && rows[slot].id == id {
          rows := rows[slot := rows[slot].(stored := Some(response))];
        }
      }
    }
  }

  // ---------------------------------------------------------------------------
  // Interleaved callers
  // ---------------------------------------------------------------------------

  /** Where a caller stands between two of its transactions; `now` is the clock it read on entry. */
  datatype Phase =
    | Ready(req: Request)
    | Cleaned(req: Request, now: int)
    | Clashed(req: Request, now: int)
    | Stale(req: Request, now: int, id: nat)
    | Granted(req: Request, id: nat)
    | Done

  /** Permission to forward: when the clock was read, when the insert committed, and the client's purges by then. */
  datatype Grant = Grant(req: Request, readAt: int, at: int, epoch: nat)

  /** A replayed response; `seen` is how many grants existed at that moment. */
  datatype Replayed = Replayed(req: Request, id: nat, response: Response, at: int, epoch: nat, seen: nat)

  /** Record `id` is the one inserted for `grants[id]`: ids are never reused. */
  datatype State = State(
    rows: Table,
    callers: map<nat, Phase>,
    clock: int,
    purges: map<int, nat>,
    grants: seq<Grant>,
    stored: map<nat, Response>,
    replays: seq<Replayed>)

  datatype Step =
    | Call(pid: nat, req: Request)
    | Begin(pid: nat, cleanupOk: bool)
    | Insert(pid: nat)
    | Examine(pid: nat)
    | DeleteStale(pid: nat)
    | Complete(pid: nat, fits: bool, response: Response)
    | Abandon(pid: nat)
    | Wait(span: nat)
    | Retention(cut: int)
    | Purge(client: int)

  function Epoch(s: State, client: int): nat {
    if client in s.purges then s.purges[client] else 0
  }

  function PhaseOf(s: State, pid: nat): Phase {
    if pid in s.callers then s.callers[pid] else Done
  }

  function Move(s: State, pid: nat, p: Phase): State {
    s.(callers := s.callers[pid := p])
  }

  /** The row of `slot` with a response filled in. */
  function Storing(s: State, slot: Slot, response: Response): State
    requires slot in s.rows
  {
    s.(rows := s.rows[slot := s.rows[slot].(stored := Some(response))],
       stored := s.stored[s.rows[slot].id := response])
  }

  /** One transaction of one caller, one housekeeping transaction, or the passing of time. */
  function Next(s: State, step: Step, ttl: int): State {
    match step
    case Call(pid, req) =>
      if PhaseOf(s, pid).Done? then Move(s, pid, Ready(req)) else s
    case Begin(pid, cleanupOk) =>
      (match PhaseOf(s, pid)
       case Ready(req) =>
         var rows := if cleanupOk then WithoutExpired(s.rows, req.slot.client, s.clock) else s.rows;
         Move(s.(rows := rows), pid, Cleaned(req, s.clock))
       case _ => s)
    case Insert(pid) =>
      (match PhaseOf(s, pid)
       case Cleaned(req, now) =>
         if req.slot in s.rows then Move(s, pid, Clashed(req, now))
         else
           var id := |s.grants|;
           Move(s.(rows := s.rows[req.slot := Row(id, req.hash, None, now + ttl)],
                   grants := s.grants + [Grant(req, now, s.clock, Epoch(s, req.slot.client))]),
                pid, Granted(req, id))
       case _ => s)
    case Examine(pid) =>
      (match PhaseOf(s, pid)
       case Clashed(req, now) =>
         if req.slot !in s.rows then Move(s, pid, Done)
         else
           var row := s.rows[req.slot];
           (match Decide(row, req.hash, now)
            case Expired => Move(s, pid, Stale(req, now, row.id))
            case ReplayOf(r) =>
              var event := Replayed(req, row.id, r, s.clock, Epoch(s, req.slot.client), |s.grants|);
              Move(s.(replays := s.replays + [event]), pid, Done)
            case _ => Move(s, pid, Done))
       case _ => s)
    case DeleteStale(pid) =>
      (match PhaseOf(s, pid)
       case Stale(req, now, id) =>
         if req.slot in s.rows && s.rows[req.slot].id == id then
           Move(s.(rows := s.rows - {req.slot}), pid, Ready(req))
         else Move(s, pid, Done)
       case _ => s)
    case Complete(pid, fits, response) =>
      (match PhaseOf(s, pid)
       case Granted(req, id) =>
         if fits && req.slot in s.rows && s.rows[req.slot].id == id then
           Storing(Move(s, pid, Done), req.slot, response)
         else Move(s, pid, Done)
       case _ => s)
    case Abandon(pid) => Move(s, pid, Done)
    case Wait(span) => s.(clock := s.clock + span)
    case Retention(cut) => if cut <= s.clock then s.(rows := Retained(s.rows, cut)) else s
    case Purge(client) =>
      s.(rows := WithoutClient(s.rows, client), purges := s.purges[client := Epoch(s, client) + 1])
  }

  function Initial(clock: int): State {
    State(map[], map[], clock, map[], [], map[], [])
  }

  function Run(clock: int, steps: seq<Step>, ttl: int): State
    decreases |steps|
  {
    if steps == [] then Initial(clock)
    else Next(Run(clock, steps[..|steps| - 1], ttl), steps[|steps| - 1], ttl)
  }

  // --- the invariant, clause by clause ---

  /** Each row is the one its grant inserted, and carries what was stored for it. */
  ghost predicate RowsAccounted(s: State, ttl: int) {
    forall slot :: slot in s.rows ==>
      var r := s.rows[slot];
      && r.id < |s.grants|
      && s.grants[r.id].req == Request(slot, r.hash)
      && r.expiresAt == s.grants[r.id].readAt + ttl
      && r.stored == if r.id in s.stored then Some(s.stored[r.id]) else None
  }

  /** A grant's row outlasts its lifetime unless the client is purged. */
  ghost predicate GrantsCovered(s: State, ttl: int) {
    forall i :: 0 <= i < |s.grants| ==>
      var g := s.grants[i];
      && g.epoch <= Epoch(s, g.req.slot.client)
      && (g.epoch == Epoch(s, g.req.slot.client) ==>
            (g.req.slot in s.rows && s.rows[g.req.slot].id == i) || s.clock > g.readAt + ttl)
  }

  ghost predicate CallersSane(s: State, ttl: int) {
    && (forall id :: id in s.stored ==> id < |s.grants|)
    && (forall pid :: pid in s.callers ==>
          match s.callers[pid]
          case Cleaned(req, now) => now <= s.clock
          case Clashed(req, now) => now <= s.clock
          case Stale(req, now, id) =>
            now <= s.clock && id < |s.grants| && s.grants[id].req.slot == req.slot && s.grants[id].readAt + ttl < now
          case Granted(req, id) => id < |s.grants| && s.grants[id].req == req && id !in s.stored
          case _ => true)
    && (forall p, q :: p in s.callers && q in s.callers && Shares(s.callers[p], s.callers[q]) ==> p == q)
  }

  ghost predicate Shares(p: Phase, q: Phase) {
    p.Granted? && q.Granted? && p.id == q.id
  }

  ghost predicate GrantsSpaced(s: State, ttl: int) {
    forall i, j :: 0 <= i < j < |s.grants| && SameEpoch(s.grants[i], s.grants[j]) ==>
                     s.grants[j].at > s.grants[i].readAt + ttl
  }

  ghost predicate SameEpoch(g: Grant, h: Grant) {
    g.req.slot == h.req.slot && g.epoch == h.epoch
  }

  ghost predicate ReplaysSound(s: State, ttl: int) {
    forall k :: 0 <= k < |s.replays| ==> ReplaySound(s, s.replays[k], ttl)
  }

  ghost predicate ReplaySound(s: State, r: Replayed, ttl: int) {
    && r.id < r.seen <= |s.grants| && s.grants[r.id].req == r.req
    && r.id in s.stored && s.stored[r.id] == r.response
    && forall i :: 0 <= i < r.seen && i != r.id
                   && s.grants[i].req.slot == r.req.slot && s.grants[i].epoch == r.epoch ==>
                     r.at > s.grants[i].readAt + ttl
  }

  ghost predicate Inv(s: State, ttl: int) {
    && RowsAccounted(s, ttl) && GrantsCovered(s, ttl) && CallersSane(s, ttl)
    && GrantsSpaced(s, ttl) && ReplaysSound(s, ttl)
  }

  /** What was said about a past replay stays true as the history grows. */
  lemma {:induction false} HistoryKeeps(s: State, s': State, ttl: int)
    requires ReplaysSound(s, ttl)
    requires s'.replays == s.replays && s.grants <= s'.grants
    requires forall id :: id in s.stored ==> id in s'.stored && s'.stored[id] == s.stored[id]
    ensures ReplaysSound(s', ttl)
  {
    forall k | 0 <= k < |s'.replays|
      ensures ReplaySound(s', s'.replays[k], ttl)
    {
      assert ReplaySound(s, s.replays[k], ttl);
    }
  }

  /** Deleting rows that have outlived their grants keeps the invariant. */
  lemma {:induction false} PruningKeeps(s: State, rows: Table, ttl: int)
    requires Inv(s, ttl)
    requires forall slot :: slot in rows ==> slot in s.rows && rows[slot] == s.rows[slot]
    requires forall slot :: slot in s.rows && slot !in rows ==> s.rows[slot].expiresAt < s.clock
    ensures Inv(s.(rows := rows), ttl)
  {
    HistoryKeeps(s, s.(rows := rows), ttl);
  }

  /** A caller's own bookkeeping touches nothing shared. */
  lemma {:induction false} MovingKeeps(s: State, pid: nat, p: Phase, ttl: int)
    requires Inv(s, ttl) && !p.Granted?
    requires match p
             case Cleaned(req, now) => now <= s.clock
             case Clashed(req, now) => now <= s.clock
             case Stale(req, now, id) =>
               now <= s.clock && id < |s.grants| && s.grants[id].req.slot == req.slot && s.grants[id].readAt + ttl < now
             case _ => true
    ensures Inv(Move(s, pid, p), ttl)
  {
    HistoryKeeps(s, Move(s, pid, p), ttl);
  }

  /** A fresh row goes in only where no grant of this epoch is still covered. */
  lemma {:induction false} InsertKeeps(s: State, pid: nat, ttl: int)
    requires Inv(s, ttl) && PhaseOf(s, pid).Cleaned? && s.callers[pid].req.slot !in s.rows
    ensures Inv(Next(s, Insert(pid), ttl), ttl)
  {
    var s' := Next(s, Insert(pid), ttl);
    var n := |s.grants|;
    forall i | 0 <= i < n
      ensures s'.grants[i] == s.grants[i]
      ensures SameEpoch(s.grants[i], s'.grants[n]) ==> s'.grants[n].at > s.grants[i].readAt + ttl
    {
    }
    assert GrantsSpaced(s', ttl);
    InsertKeepsCover(s, pid, ttl);
    InsertKeepsCallers(s, pid, ttl);
    HistoryKeeps(s, s', ttl);
  }

  lemma {:induction false} InsertKeepsCover(s: State, pid: nat, ttl: int)
    requires Inv(s, ttl) && PhaseOf(s, pid).Cleaned? && s.callers[pid].req.slot !in s.rows
    ensures GrantsCovered(Next(s, Insert(pid), ttl), ttl) && RowsAccounted(Next(s, Insert(pid), ttl), ttl)
  {
    var s' := Next(s, Insert(pid), ttl);
    assert s'.purges == s.purges && s'.clock == s.clock;
    assert forall i :: 0 <= i < |s.grants| ==> s'.grants[i] == s.grants[i];
  }

  lemma {:induction false} InsertKeepsCallers(s: State, pid: nat, ttl: int)
    requires Inv(s, ttl) && PhaseOf(s, pid).Cleaned? && s.callers[pid].req.slot !in s.rows
    ensures CallersSane(Next(s, Insert(pid), ttl), ttl)
  {
    var s' := Next(s, Insert(pid), ttl);
    assert forall i :: 0 <= i < |s.grants| ==> s'.grants[i] == s.grants[i];
    assert forall q :: q in s'.callers && q != pid ==> q in s.callers && s'.callers[q] == s.callers[q];
    assert forall q :: q in s.callers && s.callers[q].Granted? ==> s.callers[q].id < |s.grants|;
  }

  /** A replay is read off the one row of its slot, so any other grant there has run out. */
  lemma {:induction false} ReplayKeeps(s: State, pid: nat, ttl: int)
    requires Inv(s, ttl) && PhaseOf(s, pid).Clashed? && s.callers[pid].req.slot in s.rows
    requires Decide(s.rows[s.callers[pid].req.slot], s.callers[pid].req.hash, s.callers[pid].now).ReplayOf?
    ensures Inv(Next(s, Examine(pid), ttl), ttl)
  {
    var Clashed(req, now) := s.callers[pid];
    var row := s.rows[req.slot];
    var event := Replayed(req, row.id, row.stored.value, s.clock, Epoch(s, req.slot.client), |s.grants|);
    assert ReplaySound(s, event, ttl);
    MovingKeeps(s, pid, Done, ttl);
    var t := Move(s, pid, Done);
    var s' := t.(replays := s.replays + [event]);
    assert s' == Next(s, Examine(pid), ttl);
    forall k | 0 <= k < |s'.replays|
      ensures ReplaySound(s', s'.replays[k], ttl)
    {
      assert ReplaySound(s, s'.replays[k], ttl);
    }
  }

  lemma {:induction false} ExamineKeeps(s: State, pid: nat, ttl: int)
    requires Inv(s, ttl) && PhaseOf(s, pid).Clashed?
    ensures Inv(Next(s, Examine(pid), ttl), ttl)
  {
    var Clashed(req, now) := s.callers[pid];
    if req.slot in s.rows && Decide(s.rows[req.slot], req.hash, now).ReplayOf? {
      ReplayKeeps(s, pid, ttl);
    } else if req.slot in s.rows && Decide(s.rows[req.slot], req.hash, now).Expired? {
      MovingKeeps(s, pid, Stale(req, now, s.rows[req.slot].id), ttl);
    } else {
      MovingKeeps(s, pid, Done, ttl);
    }
  }

  /** No other caller holds the same grant. */
  lemma {:induction false} SoleHolder(s: State, pid: nat, q: nat, ttl: int)
    requires CallersSane(s, ttl) && pid in s.callers && s.callers[pid].Granted?
    requires q in s.callers && q != pid && s.callers[q].Granted?
    ensures s.callers[q].id != s.callers[pid].id
  {
    assert !Shares(s.callers[q], s.callers[pid]);
  }

  /** Storing the response: only the grant's own caller can, and it has not done so before. */
  lemma {:induction false} CompleteKeeps(s: State, pid: nat, slot: Slot, response: Response, ttl: int)
    requires Inv(s, ttl) && pid in s.callers && s.callers[pid].Granted?
    requires slot in s.rows && s.rows[slot].id == s.callers[pid].id
    ensures Inv(Storing(Move(s, pid, Done), slot, response), ttl)
  {
    MovingKeeps(s, pid, Done, ttl);
    var t := Move(s, pid, Done);
    forall q | q in t.callers && t.callers[q].Granted?
      ensures t.callers[q].id != s.callers[pid].id
    {
      SoleHolder(s, pid, q, ttl);
    }
    assert s.callers[pid].id !in s.stored;
    StoringKeeps(t, slot, response, ttl);
  }

  lemma {:induction false} StoringKeeps(s: State, slot: Slot, response: Response, ttl: int)
    requires Inv(s, ttl) && slot in s.rows && s.rows[slot].id !in s.stored
    requires forall q :: q in s.callers && s.callers[q].Granted? ==> s.callers[q].id != s.rows[slot].id
    ensures Inv(Storing(s, slot, response), ttl)
  {
    StoringKeepsRows(s, slot, response, ttl);
    StoringKeepsCallers(s, slot, response, ttl);
    HistoryKeeps(s, Storing(s, slot, response), ttl);
  }

  lemma {:induction false} StoringKeepsRows(s: State, slot: Slot, response: Response, ttl: int)
    requires RowsAccounted(s, ttl) && GrantsCovered(s, ttl) && slot in s.rows
    ensures RowsAccounted(Storing(s, slot, response), ttl) && GrantsCovered(Storing(s, slot, response), ttl)
  {
    forall other | other in s.rows && other != slot
      ensures s.rows[other].id != s.rows[slot].id
    {
      assert s.grants[s.rows[other].id].req.slot == other;
    }
  }

  lemma {:induction false} StoringKeepsCallers(s: State, slot: Slot, response: Response, ttl: int)
    requires Inv(s, ttl) && slot in s.rows && s.rows[slot].id !in s.stored
    requires forall q :: q in s.callers && s.callers[q].Granted? ==> s.callers[q].id != s.rows[slot].id
    ensures CallersSane(Storing(s, slot, response), ttl)
  {
  }

  lemma {:induction false} PurgeKeeps(s: State, client: int, ttl: int)
    requires Inv(s, ttl)
    ensures Inv(Next(s, Purge(client), ttl), ttl)
  {
    HistoryKeeps(s, Next(s, Purge(client), ttl), ttl);
  }

  lemma {:induction false} WaitKeeps(s: State, span: nat, ttl: int)
    requires Inv(s, ttl)
    ensures Inv(s.(clock := s.clock + span), ttl)
  {
    HistoryKeeps(s, s.(clock := s.clock + span), ttl);
  }

  lemma {:induction false} BeginKeeps(s: State, pid: nat, cleanupOk: bool, ttl: int)
    requires Inv(s, ttl) && PhaseOf(s, pid).Ready?
    ensures Inv(Next(s, Begin(pid, cleanupOk), ttl), ttl)
  {
    var req := s.callers[pid].req;
    var rows := if cleanupOk then WithoutExpired(s.rows, req.slot.client, s.clock) else s.rows;
    PruningKeeps(s, rows, ttl);
    MovingKeeps(s.(rows := rows), pid, Cleaned(req, s.clock), ttl);
  }

  lemma {:induction false} DeleteStaleKeeps(s: State, pid: nat, ttl: int)
    requires Inv(s, ttl) && PhaseOf(s, pid).Stale?
    ensures Inv(Next(s, DeleteStale(pid), ttl), ttl)
  {
    var Stale(req, now, id) := s.callers[pid];
    if req.slot in s.rows && s.rows[req.slot].id == id {
      PruningKeeps(s, s.rows - {req.slot}, ttl);
      MovingKeeps(s.(rows := s.rows - {req.slot}), pid, Ready(req), ttl);
    } else {
      MovingKeeps(s, pid, Done, ttl);
    }
  }

  /** Every transaction of every caller, every housekeeping step and every delay keeps the invariant. */
  lemma {:induction false} StepKeeps(s: State, step: Step, ttl: int)
    requires Inv(s, ttl)
    ensures Inv(Next(s, step, ttl), ttl)
  {
    match step
    case Wait(span) => WaitKeeps(s, span, ttl);
    case Retention(cut) => if cut <= s.clock { PruningKeeps(s, Retained(s.rows, cut), ttl); }
    case Purge(client) => PurgeKeeps(s, client, ttl);
    case Insert(pid) => InsertStepKeeps(s, pid, ttl);
    case Complete(pid, fits, response) => CompleteStepKeeps(s, pid, fits, response, ttl);
    case _ => CallStepKeeps(s, step, ttl);
  }

  lemma {:induction false} InsertStepKeeps(s: State, pid: nat, ttl: int)
    requires Inv(s, ttl)
    ensures Inv(Next(s, Insert(pid), ttl), ttl)
  {
    if PhaseOf(s, pid).Cleaned? {
      if s.callers[pid].req.slot in s.rows {
        MovingKeeps(s, pid, Clashed(s.callers[pid].req, s.callers[pid].now), ttl);
      } else {
        InsertKeeps(s, pid, ttl);
      }
    }
  }

  lemma {:induction false} CompleteStepKeeps(s: State, pid: nat, fits: bool, response: Response, ttl: int)
    requires Inv(s, ttl)
    ensures Inv(Next(s, Complete(pid, fits, response), ttl), ttl)
  {
    if PhaseOf(s, pid).Granted? {
      var Granted(req, id) := s.callers[pid];
      if fits && req.slot in s.rows && s.rows[req.slot].id == id {
        CompleteKeeps(s, pid, req.slot, response, ttl);
      } else {
        MovingKeeps(s, pid, Done, ttl);
      }
    }
  }

  /** The other transactions of a caller. */
  lemma {:induction false} CallStepKeeps(s: State, step: Step, ttl: int)
    requires Inv(s, ttl) && (step.Call? || step.Begin? || step.Examine? || step.DeleteStale? || step.Abandon?)
    ensures Inv(Next(s, step, ttl), ttl)
  {
    match step
    case Call(pid, req) => MovingKeeps(s, pid, Ready(req), ttl);
    case Begin(pid, cleanupOk) => if PhaseOf(s, pid).Ready? { BeginKeeps(s, pid, cleanupOk, ttl); }
    case Examine(pid) => if PhaseOf(s, pid).Clashed? { ExamineKeeps(s, pid, ttl); }
    case DeleteStale(pid) => if PhaseOf(s, pid).Stale? { DeleteStaleKeeps(s, pid, ttl); }
    case Abandon(pid) => MovingKeeps(s, pid, Done, ttl);
  }

  lemma {:induction false} RunsKeep(clock: int, steps: seq<Step>, ttl: int)
    ensures Inv(Run(clock, steps, ttl), ttl)
    decreases |steps|
  {
    if steps != [] {
      RunsKeep(clock, steps[..|steps| - 1], ttl);
      StepKeeps(Run(clock, steps[..|steps| - 1], ttl), steps[|steps| - 1], ttl);
    }
  }

  // --- the theorems ---

  /**
   * Over every interleaving: a second permission to forward for the same client and key, with no purge of
   * the client in between, commits more than the lifetime after the clock reading of the first. Whether the
   * first call completed, failed upstream or is still running makes no difference.
   */
  lemma {:induction false} GrantsAreSpaced(clock: int, steps: seq<Step>, ttl: int, i: nat, j: nat)
    requires var s := Run(clock, steps, ttl);
             i < j < |s.grants| && s.grants[i].req.slot == s.grants[j].req.slot
               && s.grants[i].epoch == s.grants[j].epoch
    ensures var s := Run(clock, steps, ttl);
            && s.grants[j].at > s.grants[i].readAt + ttl
            && (s.grants[i].at == s.grants[i].readAt ==> s.grants[j].at - s.grants[i].at > ttl)
  {
    RunsKeep(clock, steps, ttl);
    assert SameEpoch(Run(clock, steps, ttl).grants[i], Run(clock, steps, ttl).grants[j]);
  }

  lemma {:induction false} ClockMovesOn(s: State, step: Step, ttl: int)
    requires Timed(s)
    ensures Timed(Next(s, step, ttl))
  {
  }

  /** Grants are listed in the order of their inserts, none later than now. */
  ghost predicate Timed(s: State) {
    && (forall i, j :: 0 <= i <= j < |s.grants| ==> s.grants[i].at <= s.grants[j].at)
    && (forall i :: 0 <= i < |s.grants| ==> s.grants[i].at <= s.clock)
  }

  lemma {:induction false} RunsAreTimed(clock: int, steps: seq<Step>, ttl: int)
    ensures Timed(Run(clock, steps, ttl))
    decreases |steps|
  {
    if steps != [] {
      RunsAreTimed(clock, steps[..|steps| - 1], ttl);
      ClockMovesOn(Run(clock, steps[..|steps| - 1], ttl), steps[|steps| - 1], ttl);
    }
  }

  /** The time from a start's insert to the next start for the same client and key, with no purge between them. */
  ghost predicate Gap(clock: int, steps: seq<Step>, ttl: int, stall: int, gap: int) {
    var s := Run(clock, steps, ttl);
    exists i, j :: 0 <= i < j < |s.grants| && GapAt(s, i, j, stall, gap)
  }

  /** Grant `i` was inserted `stall` after its caller read the clock, and grant `j` followed it by `gap`. */
  ghost predicate GapAt(s: State, i: nat, j: nat, stall: int, gap: int)
    requires i < |s.grants| && j < |s.grants|
  {
    && SameEpoch(s.grants[i], s.grants[j])
    && s.grants[i].at - s.grants[i].readAt == stall && s.grants[j].at - s.grants[i].at == gap
  }

  /** What a caller that stalled between its clock reading and its insert leaves of the lifetime. */
  function LeastGap(ttl: nat, stall: nat): nat {
    if stall <= ttl then ttl + 1 - stall else 0
  }

  /**
   * After an insert that came `stall` after its clock reading, in every run the next start is this far away or more,
   */
  lemma {:induction false} GapsAreLong(clock: int, steps: seq<Step>, ttl: nat, stall: nat, gap: int)
    requires Gap(clock, steps, ttl, stall, gap)
    ensures gap >= LeastGap(ttl, stall)
  {
    var s := Run(clock, steps, ttl);
    var i, j :| 0 <= i < j < |s.grants| && GapAt(s, i, j, stall, gap);
    GrantsAreSpaced(clock, steps, ttl, i, j);
    RunsAreTimed(clock, steps, ttl);
  }

  /** and in some run it is exactly that far: for every lifetime and every stall the bound is sharp. */
  lemma {:induction false} LeastGapHappens(ttl: nat, stall: nat)
    ensures Gap(0, StalledRun(ttl, stall), ttl, stall, LeastGap(ttl, stall))
  {
    var a := Request(Slot(1, "k"), "h");
    StalledCallRuns(a, ttl, stall);
    var steps := StalledRun(ttl, stall);
    RunUnrolls(0, steps, ttl, 5);
    RunUnrolls(0, steps, ttl, 6);
    RunUnrolls(0, steps, ttl, 7);
    RunUnrolls(0, steps, ttl, 8);
    assert steps[..4] == StalledCall(a, stall) && steps[..8] == steps;
    SecondCallStarts(AfterStall(a, ttl, stall), a, ttl, stall);
    TwoGrants(a, ttl, stall, Run(0, steps, ttl));
  }

  lemma {:induction false} TwoGrants(a: Request, ttl: nat, stall: nat, s: State)
    requires var now := stall + LeastGap(ttl, stall); s.grants == [Grant(a, 0, stall, 0)] + [Grant(a, now, now, 0)]
    ensures |s.grants| == 2 && GapAt(s, 0, 1, stall, LeastGap(ttl, stall))
  {
  }

  /**
   * So starts are kept more than the lifetime apart, insert to insert, exactly for callers that do not stall: every
   * stall of one tick or more between the clock reading and the insert lets some later start in too early.
   */
  lemma {:induction false} SpacingHoldsExactly(ttl: nat, stall: nat)
    ensures (forall clock, steps, gap :: Gap(clock, steps, ttl, stall, gap) ==> gap > ttl) <==> stall == 0
  {
    if stall == 0 {
      forall clock, steps, gap | Gap(clock, steps, ttl, stall, gap)
        ensures gap > ttl
      {
        GapsAreLong(clock, steps, ttl, stall, gap);
      }
    } else {
      LeastGapHappens(ttl, stall);
    }
  }

  /** A call that reads the clock, stalls, and only then inserts. */
  function StalledCall(a: Request, stall: nat): seq<Step> {
    [Call(0, a), Begin(0, true), Wait(stall), Insert(0)]
  }

  /** Such a call, and a second one as soon as the row it left has expired. */
  function StalledRun(ttl: nat, stall: nat): seq<Step> {
    var a := Request(Slot(1, "k"), "h");
    StalledCall(a, stall) + [Wait(LeastGap(ttl, stall)), Call(1, a), Begin(1, true), Insert(1)]
  }

  function AfterStall(a: Request, ttl: nat, stall: nat): State {
    State(map[a.slot := Row(0, a.hash, None, ttl)], map[0 := Granted(a, 0)], stall, map[], [Grant(a, 0, stall, 0)],
          map[], [])
  }

  lemma {:induction false} SecondCallStarts(s: State, a: Request, ttl: nat, stall: nat)
    requires s == AfterStall(a, ttl, stall)
    ensures var now := stall + LeastGap(ttl, stall);
            var s' := Next(Next(Next(Next(s, Wait(LeastGap(ttl, stall)), ttl), Call(1, a), ttl), Begin(1, true), ttl),
                           Insert(1), ttl);
            s'.grants == s.grants + [Grant(a, now, now, 0)]
  {
    assert WithoutExpired(s.rows, a.slot.client, stall + LeastGap(ttl, stall)) == map[];
  }

  lemma {:induction false} StalledCallRuns(a: Request, ttl: nat, stall: nat)
    ensures Run(0, StalledCall(a, stall), ttl) == AfterStall(a, ttl, stall)
  {
    var steps := StalledCall(a, stall);
    RunUnrolls(0, steps, ttl, 1);
    RunUnrolls(0, steps, ttl, 2);
    RunUnrolls(0, steps, ttl, 3);
    RunUnrolls(0, steps, ttl, 4);
    assert steps[..4] == steps && steps[..0] == [];
    FirstCallStalls(a, ttl, stall);
  }

  lemma {:induction false} FirstCallStalls(a: Request, ttl: nat, stall: nat)
    ensures Next(Next(Next(Next(Initial(0), Call(0, a), ttl), Begin(0, true), ttl), Wait(stall), ttl), Insert(0), ttl)
            == AfterStall(a, ttl, stall)
  {
    assert WithoutExpired(map[], a.slot.client, 0) == map[];
    assert Next(Next(Initial(0), Call(0, a), ttl), Begin(0, true), ttl).callers == map[0 := Cleaned(a, 0)];
  }

  lemma {:induction false} RunUnrolls(clock: int, steps: seq<Step>, ttl: int, n: nat)
    requires 0 < n <= |steps|
    ensures Run(clock, steps[..n], ttl) == Next(Run(clock, steps[..n - 1], ttl), steps[n - 1], ttl)
  {
    assert steps[..n][..n - 1] == steps[..n - 1];
  }

  // --- a call that nobody disturbs ---

  function RunFrom(s: State, steps: seq<Step>, ttl: int): State
    decreases |steps|
  {
    if steps == [] then s else RunFrom(Next(s, steps[0], ttl), steps[1..], ttl)
  }

  /** The transactions of one call, up to the insert or the decision on the row in the way. */
  function CallSteps(pid: nat, req: Request, cleanupOk: bool): seq<Step> {
    [Call(pid, req), Begin(pid, cleanupOk), Insert(pid), Examine(pid)]
  }

  /** The transactions that follow when that row has expired. */
  function AgainSteps(pid: nat, gap: nat, cleanupOk: bool): seq<Step> {
    [DeleteStale(pid), Wait(gap), Begin(pid, cleanupOk), Insert(pid)]
  }

  /** A state tells the same story as the outcome of a sequential call. */
  ghost predicate Tells(s: State, s': State, pid: nat, req: Request, outcome: (Table, nat, Outcome)) {
    && s'.rows == outcome.0 && |s'.grants| == outcome.1
    && match outcome.2
       case Start(id) => PhaseOf(s', pid) == Granted(req, id) && s'.replays == s.replays
       case Replay(r) => |s'.replays| == |s.replays| + 1 && s'.replays[|s.replays|].response == r
       case _ => PhaseOf(s', pid).Done? && s'.replays == s.replays
  }

  /** In the machine, a call whose transactions nobody interleaves with does what the sequential call does. */
  lemma {:induction false} UndisturbedCall(s: State, pid: nat, req: Request, cleanupOk: bool, gap: nat, ttl: int)
    requires PhaseOf(s, pid).Done?
    ensures var outcome := Called(s.rows, |s.grants|, req, s.clock, s.clock + gap, cleanupOk, ttl);
            var once := RunFrom(s, CallSteps(pid, req, cleanupOk), ttl);
            if PhaseOf(once, pid).Stale?
            then Tells(s, RunFrom(once, AgainSteps(pid, gap, cleanupOk), ttl), pid, req, outcome)
            else Tells(s, once, pid, req, outcome)
  {
    FirstRound(s, pid, req, cleanupOk, ttl);
    var once := RunFrom(s, CallSteps(pid, req, cleanupOk), ttl);
    if PhaseOf(once, pid).Stale? {
      FourSteps(once, DeleteStale(pid), Wait(gap), Begin(pid, cleanupOk), Insert(pid), ttl);
      StartedOver(once, pid, req, cleanupOk, gap, ttl);
    } else {
      FirstRoundTells(s, once, pid, req, cleanupOk, gap, ttl);
    }
  }

  /** The state after the first four transactions. */
  ghost predicate FirstRoundLeaves(s: State, once: State, pid: nat, req: Request, clean: Table, ttl: int) {
    if req.slot !in clean then
      && once.rows == clean[req.slot := Row(|s.grants|, req.hash, None, s.clock + ttl)]
      && |once.grants| == |s.grants| + 1 && PhaseOf(once, pid) == Granted(req, |s.grants|) && once.replays == s.replays
    else
      && once.rows == clean && once.grants == s.grants && once.clock == s.clock
      && match Decide(clean[req.slot], req.hash, s.clock)
         case Expired => PhaseOf(once, pid) == Stale(req, s.clock, clean[req.slot].id) && once.replays == s.replays
         case ReplayOf(r) =>
           && PhaseOf(once, pid) == Done && |once.replays| == |s.replays| + 1
           && once.replays[|s.replays|].response == r
         case _ => PhaseOf(once, pid) == Done && once.replays == s.replays
  }

  lemma {:induction false} FirstRound(s: State, pid: nat, req: Request, cleanupOk: bool, ttl: int)
    requires PhaseOf(s, pid).Done?
    ensures FirstRoundLeaves(s, RunFrom(s, CallSteps(pid, req, cleanupOk), ttl), pid, req,
                             Cleanup(s.rows, req.slot.client, s.clock, cleanupOk), ttl)
  {
    FourSteps(s, Call(pid, req), Begin(pid, cleanupOk), Insert(pid), Examine(pid), ttl);
    var begun := AfterCleanup(s, pid, req, cleanupOk, ttl);
    if req.slot !in begun.rows {
      Inserted(begun, pid, req, s.clock, ttl);
    } else {
      Examined(begun, pid, req, s.clock, ttl);
    }
  }

  lemma {:induction false} FirstRoundTells(s: State, once: State, pid: nat, req: Request, cleanupOk: bool, gap: nat,
                                           ttl: int)
    requires FirstRoundLeaves(s, once, pid, req, Cleanup(s.rows, req.slot.client, s.clock, cleanupOk), ttl)
    requires !PhaseOf(once, pid).Stale?
    ensures Tells(s, once, pid, req, Called(s.rows, |s.grants|, req, s.clock, s.clock + gap, cleanupOk, ttl))
  {
  }

  lemma {:induction false} AfterCleanup(s: State, pid: nat, req: Request, cleanupOk: bool, ttl: int)
    returns (begun: State)
    requires PhaseOf(s, pid).Done?
    ensures begun == Next(Next(s, Call(pid, req), ttl), Begin(pid, cleanupOk), ttl)
    ensures begun == s.(rows := Cleanup(s.rows, req.slot.client, s.clock, cleanupOk),
                        callers := s.callers[pid := Cleaned(req, s.clock)])
  {
    begun := Next(Next(s, Call(pid, req), ttl), Begin(pid, cleanupOk), ttl);
    assert s.callers[pid := Ready(req)][pid := Cleaned(req, s.clock)] == s.callers[pid := Cleaned(req, s.clock)];
  }

  lemma {:induction false} Inserted(begun: State, pid: nat, req: Request, now: int, ttl: int)
    requires PhaseOf(begun, pid) == Cleaned(req, now) && req.slot !in begun.rows
    ensures var once := Next(Next(begun, Insert(pid), ttl), Examine(pid), ttl);
            var id := |begun.grants|;
            && once.rows == begun.rows[req.slot := Row(id, req.hash, None, now + ttl)]
            && |once.grants| == id + 1 && PhaseOf(once, pid) == Granted(req, id) && once.replays == begun.replays
  {
  }

  lemma {:induction false} Examined(begun: State, pid: nat, req: Request, now: int, ttl: int)
    requires PhaseOf(begun, pid) == Cleaned(req, now) && req.slot in begun.rows
    ensures var once := Next(Next(begun, Insert(pid), ttl), Examine(pid), ttl);
            && once.rows == begun.rows && once.grants == begun.grants && once.clock == begun.clock
            && match Decide(begun.rows[req.slot], req.hash, now)
               case Expired =>
                 PhaseOf(once, pid) == Stale(req, now, begun.rows[req.slot].id) && once.replays == begun.replays
               case ReplayOf(r) =>
                 && PhaseOf(once, pid) == Done && |once.replays| == |begun.replays| + 1
                 && once.replays[|begun.replays|].response == r
               case _ => PhaseOf(once, pid) == Done && once.replays == begun.replays
  {
  }

  lemma {:induction false} StartedOver(once: State, pid: nat, req: Request, cleanupOk: bool, gap: nat, ttl: int)
    requires PhaseOf(once, pid).Stale? && PhaseOf(once, pid).req == req && req.slot in once.rows
    requires PhaseOf(once, pid).id == once.rows[req.slot].id
    ensures var waited := Next(Next(once, DeleteStale(pid), ttl), Wait(gap), ttl);
            var s' := Next(Next(waited, Begin(pid, cleanupOk), ttl), Insert(pid), ttl);
            var later, id := once.clock + gap, |once.grants|;
            && s'.rows == Cleanup(once.rows - {req.slot}, req.slot.client, later, cleanupOk)
                          [req.slot := Row(id, req.hash, None, later + ttl)]
            && |s'.grants| == id + 1 && PhaseOf(s', pid) == Granted(req, id) && s'.replays == once.replays
  {
    var deleted := Next(Next(once, DeleteStale(pid), ttl), Wait(gap), ttl);
    assert deleted.rows == once.rows - {req.slot} && PhaseOf(deleted, pid) == Ready(req);
  }

  lemma {:induction false} FourSteps(s: State, a: Step, b: Step, c: Step, d: Step, ttl: int)
    ensures RunFrom(s, [a, b, c, d], ttl) == Next(Next(Next(Next(s, a, ttl), b, ttl), c, ttl), d, ttl)
  {
    var s1 := Next(s, a, ttl);
    var s2 := Next(s1, b, ttl);
    var s3 := Next(s2, c, ttl);
    assert [a, b, c, d][1..] == [b, c, d] && [b, c, d][1..] == [c, d] && [c, d][1..] == [d] && [d][1..] == [];
    assert RunFrom(s3, [d], ttl) == RunFrom(Next(s3, d, ttl), [], ttl);
    assert RunFrom(s1, [b, c, d], ttl) == RunFrom(s2, [c, d], ttl);
  }

  /**
   * Every replay returns the response stored for a start with the same client, key and request hash; and any
   * other start for that client and key seen by then (so any with a different hash) had outlived its lifetime.
   */
  lemma {:induction false} ReplaysAreFaithful(clock: int, steps: seq<Step>, ttl: int, k: nat)
    requires k < |Run(clock, steps, ttl).replays|
    ensures var s := Run(clock, steps, ttl);
            var r := s.replays[k];
            && r.id < |s.grants| && s.grants[r.id].req == r.req
            && r.id in s.stored && s.stored[r.id] == r.response
            && forall i :: 0 <= i < r.seen <= |s.grants| && s.grants[i].req.slot == r.req.slot
                           && s.grants[i].epoch == r.epoch && (i != r.id || s.grants[i].req.hash != r.req.hash)
                 ==> r.at > s.grants[i].readAt + ttl
  {
    RunsKeep(clock, steps, ttl);
    var s := Run(clock, steps, ttl);
    assert ReplaySound(s, s.replays[k], ttl);
  }

  /** A stored response is never replaced: in every reachable state each step leaves it as it is. */
  lemma {:induction false} StoredNeverChanges(clock: int, steps: seq<Step>, step: Step, ttl: int, id: nat)
    requires id in Run(clock, steps, ttl).stored
    ensures var s := Run(clock, steps, ttl);
            var s' := Next(s, step, ttl);
            && id in s'.stored && s'.stored[id] == s.stored[id]
            && forall slot :: slot in s'.rows && s'.rows[slot].id == id ==> s'.rows[slot].stored == Some(s.stored[id])
  {
    RunsKeep(clock, steps, ttl);
    StepKeeps(Run(clock, steps, ttl), step, ttl);
    StoredStays(Run(clock, steps, ttl), step, ttl, id);
  }

  lemma {:induction false} StoredStays(s: State, step: Step, ttl: int, id: nat)
    requires CallersSane(s, ttl) && RowsAccounted(Next(s, step, ttl), ttl) && id in s.stored
    ensures var s' := Next(s, step, ttl);
            && id in s'.stored && s'.stored[id] == s.stored[id]
            && forall slot :: slot in s'.rows && s'.rows[slot].id == id ==> s'.rows[slot].stored == Some(s.stored[id])
  {
  }
}
