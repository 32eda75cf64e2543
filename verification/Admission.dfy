/** Client admission, app/api/deps.py: enforce_client_governance, against quota consumption by forwarding. */
module Admission {
  import opened Common
  import opened Clients
  import RateLimit
  import Concurrency

  datatype Rejection =
    | ConcurrencyLimited
    | RateLimited(retryAfter: int)
    | QuotaExceeded(retryAfter: int)
    | DbUnavailable

  /** Today's usage: the counter, or nothing if it belongs to another day. */
  function UsageOn(usage: int, resetAt: Option<int>, today: int): int {
    if resetAt == Some(today) then usage else 0
  }

  /**
   * The part before the handler runs. An admitted request holds its lease until Leave; every rejection has
   * given it back. `commitOk` is false when storing the daily reset fails.
   */
  method Enter(leases: Concurrency.ConcurrencyManager, limiter: RateLimit.TokenBucketRateLimiter, client: ClientAccount,
               checkQuota: bool, today: int, clock: real, untilMidnight: int, commitOk: bool)
    returns (rejected: Option<Rejection>, lease: Concurrency.Lease?)
    requires leases.Valid()
    modifies leases, limiter, client
    ensures leases.Valid()
    ensures rejected.Some? ==> leases.live == old(leases.live)
    ensures rejected.None? ==>
              && lease != null && fresh(lease) && lease.manager == leases && lease.key == client.id && !lease.released
              && lease.counted == (client.maxConcurrent > 0)
              && leases.live == (if lease.counted then old(leases.live) + {lease} else old(leases.live))
              && (lease.counted ==> |Concurrency.HeldFor(leases.live, client.id)| <= client.maxConcurrent)
    ensures rejected == Some(ConcurrencyLimited) <==>
              0 < client.maxConcurrent <= |Concurrency.HeldFor(old(leases.live), client.id)|
    ensures checkQuota && client.dailyQuota.Some? ==>
              var usage := if old(client.quotaResetAt) == Some(today) then old(client.dailyUsage) else 0;
              && (rejected.None? ==> client.dailyUsage == usage < client.dailyQuota.value
                                     && client.quotaResetAt == Some(today))
              && (rejected.Some? && rejected.value.QuotaExceeded? ==>
                    client.dailyUsage == usage >= client.dailyQuota.value && client.quotaResetAt == Some(today))
    ensures (rejected.Some? && !rejected.value.QuotaExceeded?) || !checkQuota || client.dailyQuota.None? ==>
              client.dailyUsage == old(client.dailyUsage) && client.quotaResetAt == old(client.quotaResetAt)
    ensures rejected == Some(ConcurrencyLimited) ==> limiter.buckets == old(limiter.buckets)
    ensures rejected != Some(ConcurrencyLimited) ==>
              var call := RateLimit.Call(client.id, client.ratePerMin, clock);
              var (buckets, verdict) := RateLimit.Served(old(limiter.buckets), call);
              && limiter.buckets == buckets
              && (verdict.Denied? <==> rejected.Some? && rejected.value.RateLimited?)
              && (verdict.Denied? ==> rejected.value.retryAfter == verdict.retryAfter)
    ensures rejected.Some? && (rejected.value.QuotaExceeded? || rejected.value.DbUnavailable?) ==>
              checkQuota && client.dailyQuota.Some?
    ensures rejected.Some? && rejected.value.QuotaExceeded? ==> rejected.value.retryAfter == untilMidnight
    // a caller let through by concurrency and rate fails on the database or the quota exactly if there is a reason
    ensures rejected.Some? ==> !rejected.value.ConcurrencyLimited? && !rejected.value.RateLimited? ==>
              if old(client.quotaResetAt) != Some(today) && !commitOk then rejected.value == DbUnavailable
              else rejected.value == QuotaExceeded(untilMidnight)
    ensures rejected.None? && checkQuota && client.dailyQuota.Some? ==>
              old(client.quotaResetAt) == Some(today) || commitOk
  {
    rejected := None;
    lease := leases.TryAcquire(client.id, client.maxConcurrent);
    if lease == null {
      return Some(ConcurrencyLimited), null;
    }
    var verdict := limiter.Allow(client.id, client.ratePerMin, clock);
    if verdict.Denied? {
      lease.Release();
      return Some(RateLimited(verdict.retryAfter)), null;
    }
    if checkQuota && client.dailyQuota.Some? {
      if client.quotaResetAt != Some(today) {
        if !commitOk {
          lease.Release();
          return Some(DbUnavailable), null;
        }
        client.dailyUsage := 0;
        client.quotaResetAt := Some(today);
      }
      if client.dailyUsage >= client.dailyQuota.value {
        lease.Release();
        return Some(QuotaExceeded(untilMidnight)), null;
      }
    }
  }

  /** The part after the handler, on every way out of it. */
  method Leave(leases: Concurrency.ConcurrencyManager, lease: Concurrency.Lease)
    requires leases.Valid() && lease.manager == leases
    requires lease.counted && !lease.released ==> lease in leases.live
    modifies lease, leases
    ensures leases.Valid() && leases.live == old(leases.live) - {lease}
  {
    lease.Release();
  }

  // ---------------------------------------------------------------------------
  // Interleaved requests of one client
  // ---------------------------------------------------------------------------

  /** Requests in flight, each with whether it has already been counted against the quota. */
  datatype State = State(usage: int, resetAt: Option<int>, inFlight: map<nat, bool>)

  /**
   * Admission is one atomic step with an oracle for the rate limiter; counting happens at most once per
   * request, on a delivered 2xx, before the request leaves.
   */
  datatype Step =
    | Admit(id: nat, today: int, rateOk: bool)
    | Count(id: nat)
    | Finish(id: nat)

  function Next(s: State, step: Step, quota: int, maxConcurrent: int): State {
    match step
    case Admit(id, today, rateOk) =>
      if id in s.inFlight || |s.inFlight.Keys| >= maxConcurrent || !rateOk then s
      else
        var t := s.(usage := UsageOn(s.usage, s.resetAt, today), resetAt := Some(today));
        if t.usage >= quota then t else t.(inFlight := t.inFlight[id := false])
    case Count(id) =>
      if id in s.inFlight && !s.inFlight[id]
      then s.(usage := s.usage + 1, inFlight := s.inFlight[id := true]) else s
    case Finish(id) => s.(inFlight := s.inFlight - {id})
  }

  function Run(s: State, steps: seq<Step>, quota: int, maxConcurrent: int): State
    decreases |steps|
  {
    if steps == [] then s else Run(Next(s, steps[0], quota, maxConcurrent), steps[1..], quota, maxConcurrent)
  }

  /** Requests that may still add to the usage. */
  function Pending(s: State): set<nat> {
    set id | id in s.inFlight && !s.inFlight[id]
  }

  ghost predicate Bounded(s: State, quota: int, maxConcurrent: int) {
    && |s.inFlight.Keys| <= maxConcurrent
    && s.usage + |Pending(s)| <= quota + maxConcurrent - 1
  }

  lemma {:induction false} PendingInFlight(s: State)
    ensures |Pending(s)| <= |s.inFlight.Keys|
  {
    SubsetSize(Pending(s), s.inFlight.Keys);
  }

  /** Every step, including the daily reset in the middle of other requests, keeps the bound. */
  lemma {:induction false} StepKeepsBound(s: State, step: Step, quota: int, maxConcurrent: int)
    requires Bounded(s, quota, maxConcurrent) && quota >= 0 && maxConcurrent > 0
    ensures Bounded(Next(s, step, quota, maxConcurrent), quota, maxConcurrent)
  {
    match step
    case Admit(id, today, rateOk) => AdmitKeepsBound(s, id, today, rateOk, quota, maxConcurrent);
    case Count(id) =>
      if id in s.inFlight && !s.inFlight[id] {
        var t := Next(s, step, quota, maxConcurrent);
        assert t.inFlight.Keys == s.inFlight.Keys;
        assert Pending(t) == Pending(s) - {id};
      }
    case Finish(id) =>
      var t := Next(s, step, quota, maxConcurrent);
      SubsetSize(t.inFlight.Keys, s.inFlight.Keys);
      SubsetSize(Pending(t), Pending(s));
  }

  lemma {:induction false} AdmitKeepsBound(s: State, id: nat, today: int, rateOk: bool, quota: int, maxConcurrent: int)
    requires Bounded(s, quota, maxConcurrent) && quota >= 0 && maxConcurrent > 0
    ensures Bounded(Next(s, Admit(id, today, rateOk), quota, maxConcurrent), quota, maxConcurrent)
  {
    var t := Next(s, Admit(id, today, rateOk), quota, maxConcurrent);
    PendingInFlight(s);
    if id in t.inFlight && id !in s.inFlight {
      assert t.inFlight.Keys == s.inFlight.Keys + {id};
      PendingInFlight(t);
    } else {
      assert Pending(t) == Pending(s);
    }
  }

  /**
   * Over every interleaving of a client's requests, its usage and the requests that may still be counted never
   * exceed daily_quota + max_concurrent - 1 together.
   */
  lemma {:induction false} UsageIsBounded(s: State, steps: seq<Step>, quota: int, maxConcurrent: int)
    requires Bounded(s, quota, maxConcurrent) && quota >= 0 && maxConcurrent > 0
    ensures Bounded(Run(s, steps, quota, maxConcurrent), quota, maxConcurrent)
    ensures Run(s, steps, quota, maxConcurrent).usage <= quota + maxConcurrent - 1
    decreases |steps|
  {
    if steps != [] {
      StepKeepsBound(s, steps[0], quota, maxConcurrent);
      UsageIsBounded(Next(s, steps[0], quota, maxConcurrent), steps[1..], quota, maxConcurrent);
    }
  }

  // --- the bound is attained ---

  lemma {:induction false} RunAppends(s: State, a: seq<Step>, b: seq<Step>, quota: int, maxConcurrent: int)
    ensures Run(s, a + b, quota, maxConcurrent) == Run(Run(s, a, quota, maxConcurrent), b, quota, maxConcurrent)
    decreases |a|
  {
    if a == [] {
      assert a + b == b;
    } else {
      assert (a + b)[1..] == a[1..] + b;
      RunAppends(Next(s, a[0], quota, maxConcurrent), a[1..], b, quota, maxConcurrent);
    }
  }

  function Ids(m: nat): (ids: set<nat>)
    ensures forall id :: id in ids <==> 1 <= id <= m
    ensures |ids| == m
  {
    if m == 0 then {} else Ids(m - 1) + {m}
  }

  /** Requests 1 to m in flight, the first `counted` of them counted. */
  function Flight(m: nat, counted: nat): map<nat, bool> {
    map id | id in Ids(m) :: id <= counted
  }

  /** `n` requests one after the other, each counted. */
  lemma {:induction false} OneByOne(n: nat, quota: int, maxConcurrent: int) returns (steps: seq<Step>)
    requires n < quota && maxConcurrent > 0
    ensures Run(State(0, Some(0), map[]), steps, quota, maxConcurrent) == State(n, Some(0), map[])
  {
    steps := [];
    if n > 0 {
      var front := OneByOne(n - 1, quota, maxConcurrent);
      var round := [Admit(0, 0, true), Count(0), Finish(0)];
      OneRound(n - 1, quota, maxConcurrent);
      RunAppends(State(0, Some(0), map[]), front, round, quota, maxConcurrent);
      steps := front + round;
    }
  }

  lemma {:induction false} OneRound(u: nat, quota: int, maxConcurrent: int)
    requires u < quota && maxConcurrent > 0
    ensures Run(State(u, Some(0), map[]), [Admit(0, 0, true), Count(0), Finish(0)], quota, maxConcurrent)
            == State(u + 1, Some(0), map[])
  {
    var s := State(u, Some(0), map[]);
    var s1 := State(u, Some(0), map[0 := false]);
    var s2 := State(u + 1, Some(0), map[0 := true]);
    assert Next(s, Admit(0, 0, true), quota, maxConcurrent) == s1;
    assert Next(s1, Count(0), quota, maxConcurrent) == s2;
    assert Next(s2, Finish(0), quota, maxConcurrent) == State(u + 1, Some(0), map[]);
    assert [Admit(0, 0, true), Count(0), Finish(0)][1..] == [Count(0), Finish(0)];
    assert [Count(0), Finish(0)][1..] == [Finish(0)] && [Finish(0)][1..] == [];
  }

  lemma {:induction false} Then(s: State, a: seq<Step>, t: State, b: seq<Step>, quota: int, maxConcurrent: int)
    requires Run(s, a, quota, maxConcurrent) == t
    ensures Run(s, a + b, quota, maxConcurrent) == Run(t, b, quota, maxConcurrent)
  {
    RunAppends(s, a, b, quota, maxConcurrent);
  }

  lemma {:induction false} RunLast(s: State, front: seq<Step>, step: Step, quota: int, maxConcurrent: int)
    ensures Run(s, front + [step], quota, maxConcurrent)
            == Next(Run(s, front, quota, maxConcurrent), step, quota, maxConcurrent)
  {
    RunAppends(s, front, [step], quota, maxConcurrent);
    var t := Run(s, front, quota, maxConcurrent);
    assert [step][1..] == [];
    assert Run(t, [step], quota, maxConcurrent) == Run(Next(t, step, quota, maxConcurrent), [], quota, maxConcurrent);
  }

  lemma {:induction false} OneMoreAdmitted(u: int, m: nat, quota: int, maxConcurrent: int)
    requires u < quota && 0 < m <= maxConcurrent
    ensures Next(State(u, Some(0), Flight(m - 1, 0)), Admit(m, 0, true), quota, maxConcurrent)
            == State(u, Some(0), Flight(m, 0))
  {
    assert Flight(m - 1, 0).Keys == Ids(m - 1);
    assert Flight(m - 1, 0)[m := false] == Flight(m, 0);
  }

  /** `m` requests admitted together while the usage is still below the quota. */
  lemma {:induction false} Together(u: int, m: nat, quota: int, maxConcurrent: int) returns (steps: seq<Step>)
    requires u < quota && m <= maxConcurrent
    ensures Run(State(u, Some(0), map[]), steps, quota, maxConcurrent) == State(u, Some(0), Flight(m, 0))
  {
    steps := [];
    if m > 0 {
      var front := Together(u, m - 1, quota, maxConcurrent);
      RunLast(State(u, Some(0), map[]), front, Admit(m, 0, true), quota, maxConcurrent);
      OneMoreAdmitted(u, m, quota, maxConcurrent);
      steps := front + [Admit(m, 0, true)];
    }
  }

  /** The first `n` of them are counted. */
  lemma {:induction false} AllCounted(u: int, m: nat, n: nat, quota: int, maxConcurrent: int) returns (steps: seq<Step>)
    requires n <= m
    ensures Run(State(u, Some(0), Flight(m, 0)), steps, quota, maxConcurrent) == State(u + n, Some(0), Flight(m, n))
  {
    steps := [];
    if n > 0 {
      var front := AllCounted(u, m, n - 1, quota, maxConcurrent);
      RunLast(State(u, Some(0), Flight(m, 0)), front, Count(n), quota, maxConcurrent);
      assert Flight(m, n - 1)[n := true] == Flight(m, n);
      steps := front + [Count(n)];
    }
  }

  lemma {:induction false} CountedUsage(u: int, m: nat, quota: int, maxConcurrent: int) returns (steps: seq<Step>)
    ensures Run(State(u, Some(0), Flight(m, 0)), steps, quota, maxConcurrent).usage == u + m
  {
    steps := AllCounted(u, m, m, quota, maxConcurrent);
  }

  lemma {:induction false} Burst(u: int, m: nat, quota: int, maxConcurrent: int) returns (steps: seq<Step>)
    requires u < quota && m <= maxConcurrent
    ensures Run(State(u, Some(0), map[]), steps, quota, maxConcurrent).usage == u + m
  {
    var together := Together(u, m, quota, maxConcurrent);
    var counted := CountedUsage(u, m, quota, maxConcurrent);
    Then(State(u, Some(0), map[]), together, State(u, Some(0), Flight(m, 0)), counted, quota, maxConcurrent);
    steps := together + counted;
  }

  /** The overshoot is real: for every positive quota and concurrency some run uses daily_quota + max_concurrent - 1. */
  lemma {:induction false} BoundIsAttained(quota: int, maxConcurrent: int) returns (steps: seq<Step>)
    requires quota > 0 && maxConcurrent > 0
    ensures Run(State(0, Some(0), map[]), steps, quota, maxConcurrent).usage == quota + maxConcurrent - 1
  {
    var warm := OneByOne(quota - 1, quota, maxConcurrent);
    var burst := Burst(quota - 1, maxConcurrent, quota, maxConcurrent);
    Then(State(0, Some(0), map[]), warm, State(quota - 1, Some(0), map[]), burst, quota, maxConcurrent);
    steps := warm + burst;
  }
}
