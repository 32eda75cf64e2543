/** One client request from admission to release, over the modules it passes through: app/api/data_plane.py. */
module Requests {
  import opened Common
  import opened Clients
  import opened Forwarding
  import opened Gateway
  import Admission
  import Concurrency
  import RateLimit
  import Lifecycle

  /** What such a request is in the interleaved machine: admitted, counted at most once, finished. */
  function StepsOf(rejected: Option<Admission.Rejection>, counted: bool, id: nat, today: int): seq<Admission.Step> {
    match rejected
    case None =>
      [Admission.Admit(id, today, true)] + (if counted then [Admission.Count(id)] else []) + [Admission.Finish(id)]
    case Some(RateLimited(_)) => [Admission.Admit(id, today, false)]
    case Some(DbUnavailable) => []
    case _ => [Admission.Admit(id, today, true)]
  }

  /** The machine's state is that of the client's row and leases. */
  ghost predicate Depicts(s: Admission.State, client: ClientAccount, leases: Concurrency.ConcurrencyManager)
    reads client, leases
  {
    && s.usage == client.dailyUsage && s.resetAt == client.quotaResetAt
    && |s.inFlight.Keys| == |Concurrency.HeldFor(leases.live, client.id)|
  }

  /**
   * Admission, the forwards with their fallback, and the release, for a client with a quota and a concurrency limit.
   * A request takes the machine through exactly its steps: it is counted once if a 2xx is delivered, however many
   * forwards and upstream requests that took, and otherwise not at all, and its lease is back at the end.
   */
  method Serve(leases: Concurrency.ConcurrencyManager, limiter: RateLimit.TokenBucketRateLimiter, client: ClientAccount,
               f: Forwarder, request: Request, fallback: Option<string>, today: int, clock: real, untilMidnight: int,
               commitOk: bool,
               world: nat -> Tick, gap: seq<Lifecycle.Step>, retryWorld: nat -> Tick, ghost s: Admission.State,
               ghost id: nat)
    returns (rejected: Option<Admission.Rejection>, r: Option<Result>)
    requires leases.Valid() && f.Valid() && f.leases != leases && f.limiter != limiter
    requires client.dailyQuota.Some? && client.maxConcurrent > 0 && f.config.countSuccess
    requires Depicts(s, client, leases) && id !in s.inFlight
    modifies leases, limiter, client
    modifies f.pool, f.limiter, f.leases, f`keys, f`history, f`failures, f`recorded
    modifies f`selected, f`trail, f`requests, f`outcomes
    ensures leases.Valid() && f.Valid() && leases.live == old(leases.live) && f.leases.live == old(f.leases.live)
    ensures rejected.None? <==> r.Some?
    ensures var counted := r.Some? && r.value.Response? && 200 <= r.value.status <= 299;
            Admission.Run(s, StepsOf(rejected, counted, id, today), client.dailyQuota.value, client.maxConcurrent)
            == Admission.State(client.dailyUsage, client.quotaResetAt, s.inFlight)
    ensures Depicts(Admission.State(client.dailyUsage, client.quotaResetAt, s.inFlight), client, leases)
  {
    r := None;
    var lease;
    rejected, lease := Admission.Enter(leases, limiter, client, true, today, clock, untilMidnight, commitOk);
    if rejected.Some? {
      RejectedRun(s, rejected.value, id, today, client.dailyQuota.value, client.maxConcurrent);
      return;
    }
    var result := Handle(leases, lease, client, f, request, fallback, world, gap, retryWorld);
    r := Some(result);
    ghost var counted := result.Response? && 200 <= result.status <= 299;
    AdmittedRun(s, counted, id, today, client.dailyQuota.value, client.maxConcurrent);
  }

  /** The handler of an admitted request, and the release after it. */
  method Handle(leases: Concurrency.ConcurrencyManager, lease: Concurrency.Lease, client: ClientAccount, f: Forwarder,
                request: Request, fallback: Option<string>, world: nat -> Tick, gap: seq<Lifecycle.Step>,
                retryWorld: nat -> Tick)
    returns (r: Result)
    requires leases.Valid() && f.Valid() && f.leases != leases
    requires lease in leases.live && lease.manager == leases && lease.counted && !lease.released
    modifies leases, lease, client`dailyUsage
    modifies f.pool, f.limiter, f.leases, f`keys, f`history, f`failures, f`recorded
    modifies f`selected, f`trail, f`requests, f`outcomes
    ensures leases.Valid() && f.Valid() && leases.live == old(leases.live) - {lease}
            && f.leases.live == old(f.leases.live)
    ensures client.dailyUsage == old(client.dailyUsage) + UsageOf(r, client.dailyQuota, f.config.countSuccess)
  {
    var sends;
    ghost var first, split;
    r, sends, first, split := ForwardWithFallback(f, client, None, request, fallback, world, gap, retryWorld);
    Admission.Leave(leases, lease);
  }

  lemma {:induction false} RejectedRun(s: Admission.State, why: Admission.Rejection, id: nat, today: int, quota: int,
                                       max: int)
    ensures var steps := StepsOf(Some(why), false, id, today);
            match why
            case DbUnavailable => Admission.Run(s, steps, quota, max) == s
            case RateLimited(_) => Admission.Run(s, steps, quota, max) == s
            case _ => Admission.Run(s, steps, quota, max)
                      == Admission.Next(s, Admission.Admit(id, today, true), quota, max)
  {
    var step := Admission.Admit(id, today, !why.RateLimited?);
    assert [step][1..] == [];
    assert Admission.Run(s, [step], quota, max) == Admission.Run(Admission.Next(s, step, quota, max), [], quota, max);
  }

  lemma {:induction false} AdmittedRun(s: Admission.State, counted: bool, id: nat, today: int, quota: int, max: int)
    requires id !in s.inFlight && |s.inFlight.Keys| < max && Admission.UsageOn(s.usage, s.resetAt, today) < quota
    ensures Admission.Run(s, StepsOf(None, counted, id, today), quota, max)
            == Admission.State(Admission.UsageOn(s.usage, s.resetAt, today) + if counted then 1 else 0, Some(today),
                               s.inFlight)
  {
    var usage := Admission.UsageOn(s.usage, s.resetAt, today);
    var admitted := Admission.State(usage, Some(today), s.inFlight[id := false]);
    var admit, count, finish := Admission.Admit(id, today, true), Admission.Count(id), Admission.Finish(id);
    assert Admission.Next(s, admit, quota, max) == admitted;
    Admission.RunLast(s, [admit], finish, quota, max);
    Admission.RunLast(s, [], admit, quota, max);
    assert [] + [admit] == [admit];
    if counted {
      Admission.RunLast(s, [admit], count, quota, max);
      Admission.RunLast(s, [admit, count], finish, quota, max);
      assert [admit] + [count] == [admit, count] && [admit, count] + [finish] == [admit, count, finish];
      assert s.inFlight[id := false][id := true] - {id} == s.inFlight;
    } else {
      assert [admit] + [finish] == [admit, finish];
      assert s.inFlight[id := false] - {id} == s.inFlight;
    }
  }
}
