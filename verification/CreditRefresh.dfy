/**
 * When credits are read again, and the pass that reads them: app/core/credit_refresh.py, app/core/credit_fetcher.py.
 */
module CreditRefresh {
  import opened Common
  import opened Keys
  import opened Lifecycle
  import Calendar

  /** Intervals and the retry delay in minutes. */
  datatype Config = Config(
    smart: bool,
    fixed: int,
    high: int,
    medium: int,
    normal: int,
    low: int,
    batchSize: int,
    retryDelay: int)

  // ---------------------------------------------------------------------------
  // The next refresh time
  // ---------------------------------------------------------------------------

  function Interval(remaining: int, planned: int, config: Config): int
    requires planned != 0
  {
    var usage := 1.0 - remaining as real / planned as real;
    if !config.smart then config.fixed
    else if usage > 0.9 then config.high
    else if usage > 0.7 then config.medium
    else if usage > 0.5 then config.normal
    else config.low
  }

  function NextRefresh(remaining: Option<int>, planned: Option<int>, config: Config, now: nat): int {
    if remaining.None? || planned.None? then now
    else if planned.value == 0 then now + config.fixed * MINUTE
    else if remaining.value == 0 then Calendar.FirstOfNextMonth(now)
    else now + Interval(remaining.value, planned.value, config) * MINUTE
  }

  predicate Positive(config: Config) {
    config.fixed > 0 && config.high > 0 && config.medium > 0 && config.normal > 0 && config.low > 0
  }

  /** The documented bands, in whole credits: under 10, 30 and 50 percent of the plan left. */
  lemma {:induction false} BandsByShare(remaining: int, planned: int, config: Config)
    requires planned > 0 && config.smart
    ensures Interval(remaining, planned, config) ==
            if 10 * remaining < planned then config.high
            else if 10 * remaining < 3 * planned then config.medium
            else if 10 * remaining < 5 * planned then config.normal
            else config.low
  {
    UsageAbove(remaining, planned, 9);
    UsageAbove(remaining, planned, 7);
    UsageAbove(remaining, planned, 5);
  }

  /** More than `tenths` tenths used means less than the other tenths left. */
  lemma {:induction false} UsageAbove(remaining: int, planned: int, tenths: int)
    requires planned > 0
    ensures 1.0 - remaining as real / planned as real > tenths as real / 10.0
            <==> 10 * remaining < (10 - tenths) * planned
  {
    var share, rest := remaining as real / planned as real, (10 - tenths) as real / 10.0;
    assert share * planned as real == remaining as real;
    ScaleBy(share, rest, planned as real);
    Tenths(remaining, planned, 10 - tenths);
    assert 1.0 - tenths as real / 10.0 == rest;
  }

  lemma {:induction false} ScaleBy(a: real, b: real, c: real)
    requires c > 0.0
    ensures a < b <==> a * c < b * c
  {
  }

  lemma {:induction false} Tenths(remaining: int, planned: int, tenths: int)
    ensures remaining as real < tenths as real / 10.0 * planned as real <==> 10 * remaining < tenths * planned
  {
    assert (tenths * planned) as real == tenths as real * planned as real;
    assert tenths as real / 10.0 * planned as real == (tenths * planned) as real / 10.0;
  }

  /** With ordered intervals, a plan with less left, as long as something is left, is never read later. */
  lemma {:induction false} LessLeftIsReadSooner(a: int, b: int, planned: int, config: Config, now: nat)
    requires 0 < a <= b && planned > 0
    requires config.high <= config.medium <= config.normal <= config.low
    ensures NextRefresh(Some(a), Some(planned), config, now) <= NextRefresh(Some(b), Some(planned), config, now)
  {
    if config.smart {
      BandsByShare(a, planned, config);
      BandsByShare(b, planned, config);
    }
  }

  lemma {:induction false} MinutesAhead(now: int, minutes: int)
    requires minutes > 0
    ensures now + minutes * MINUTE > now
  {
  }

  /** With positive intervals a known plan is never due at once. */
  lemma {:induction false} NextIsLater(remaining: int, planned: int, config: Config, now: nat)
    requires Positive(config)
    ensures NextRefresh(Some(remaining), Some(planned), config, now) > now
  {
    if planned == 0 {
      MinutesAhead(now, config.fixed);
    } else if remaining == 0 {
      Calendar.NextMonthIsAhead(now);
    } else {
      MinutesAhead(now, Interval(remaining, planned, config));
    }
  }

  // ---------------------------------------------------------------------------
  // One key
  // ---------------------------------------------------------------------------

  /** What can come of asking for a key's credits; the last three raise without naming the key's state. */
  datatype Reply =
    | Undecryptable
    | Usage(remaining: int, planned: int)
    | Unauthorized
    | RateLimited
    | Timeout
    | Rejected
    | Broken

  /** A reply with the three clock readings of its fetch: before sending, at the cache write, and in the pass. */
  datatype Answer = Answer(reply: Reply, asked: nat, stored: nat, settled: nat)

  datatype Snapshot = Snapshot(key: int, remaining: int, planned: int, success: bool)

  function FetchWrite(a: Answer, config: Config): Option<Write> {
    match a.reply
    case Undecryptable => Some(DecryptFailure)
    case Usage(r, p) => Some(Fetched(r, p, NextRefresh(Some(r), Some(p), config, a.stored)))
    case Unauthorized => Some(FetchUnauthorized)
    case RateLimited => Some(FetchRateLimited(a.asked))
    case _ => None
  }

  /** A broken transport or an unreadable number leaves no snapshot; every other failure leaves an empty one. */
  function Recorded(id: int, a: Answer): seq<Snapshot> {
    match a.reply
    case Usage(r, p) => [Snapshot(id, r, p, true)]
    case Broken => []
    case _ => [Snapshot(id, 0, 0, false)]
  }

  /** The schedule the pass writes for a key in the end. */
  function Scheduled(a: Answer, config: Config, now: nat): int {
    if a.reply.Usage? then NextRefresh(Some(a.reply.remaining), Some(a.reply.planned), config, a.settled)
    else now + Max(config.retryDelay, 1) * MINUTE
  }

  function AfterFetch(k: ApiKey, a: Answer, config: Config): ApiKey {
    var w := FetchWrite(a, config);
    if w.None? then k else Written(k, w.value)
  }

  /** The row as the pass leaves it. */
  function Refreshed(k: ApiKey, a: Answer, config: Config, now: nat): ApiKey {
    Written(AfterFetch(k, a, config), Reschedule(Scheduled(a, config, now)))
  }

  /** After a successful fetch the cache holds what the schedule is computed from. */
  lemma {:induction false} ScheduledFromCache(k: ApiKey, a: Answer, config: Config, now: nat)
    requires a.reply.Usage?
    ensures var row := AfterFetch(k, a, config);
            NextRefresh(row.credits, row.plan, config, a.settled) == Scheduled(a, config, now)
  {
  }

  /** Due: in use, and never read or due by now. */
  predicate IsDue(k: ApiKey, now: int) {
    && k.isActive
    && (k.status == Active || k.status == Cooling)
    && (k.nextRefreshAt.None? || k.nextRefreshAt.value <= now)
  }

  /** Whatever the reply, the key is not due again before the time scheduled for it, which is after the pass. */
  lemma {:induction false} RestsUntilScheduled(k: ApiKey, a: Answer, config: Config, now: nat, t: int)
    requires Positive(config) && now <= a.settled
    ensures Scheduled(a, config, now) > now
    ensures IsDue(Refreshed(k, a, config, now), t) ==> t >= Scheduled(a, config, now)
  {
    if a.reply.Usage? {
      NextIsLater(a.reply.remaining, a.reply.planned, config, a.settled);
    }
  }

  /** Credits just read are scheduled by what is left of the plan, and a plan of nothing at the fixed interval. */
  lemma {:induction false} ScheduleMeans(left: int, planned: int, config: Config, now: nat)
    ensures var next := NextRefresh(Some(left), Some(planned), config, now);
            && (planned == 0 || (!config.smart && left != 0) ==> next == now + config.fixed * 60_000_000)
            && (planned != 0 && left == 0 ==> next == Calendar.Midnight(Calendar.NextMonth(Calendar.DateOf(now))))
            && (planned > 0 && left != 0 && config.smart ==>
                  next == now + 60_000_000 * if 10 * left < planned then config.high
                                             else if 10 * left < 3 * planned then config.medium
                                             else if 10 * left < 5 * planned then config.normal
                                             else config.low)
  {
    if planned > 0 && config.smart {
      BandsByShare(left, planned, config);
    }
    Calendar.LandsOnNextMonth(now);
  }

  /**
   * What a pass makes of a row, reply by reply: credits that were read are cached and schedule the key; otherwise it is
   * tried again after the retry delay, at least a minute. A key that does not decrypt or is refused is switched off
   * besides, and one that is rate limited is left cooling.
   */
  lemma {:induction false} RefreshedMeans(k: ApiKey, a: Answer, config: Config, now: nat)
    ensures var row := Refreshed(k, a, config, now);
            match a.reply
            case Usage(left, planned) =>
              row == k.(credits := Some(left), plan := Some(planned),
                        nextRefreshAt := Some(NextRefresh(Some(left), Some(planned), config, a.settled)))
            case Undecryptable =>
              row == k.(isActive := false, status := DecryptFailed, nextRefreshAt := RetryAt(config, now))
            case Unauthorized => row == k.(isActive := false, status := Failed, nextRefreshAt := RetryAt(config, now))
            case RateLimited =>
              row == k.(status := Cooling, cooldownUntil := Some(a.asked), nextRefreshAt := RetryAt(config, now))
            case _ => row == k.(nextRefreshAt := RetryAt(config, now))
  {
  }

  ghost function RetryAt(config: Config, now: nat): Option<int> {
    Some(now + (if config.retryDelay >= 1 then config.retryDelay else 1) * 60_000_000)
  }

  /** A key whose plan is used up is read again exactly from the first instant of the next calendar month. */
  lemma {:induction false} ExhaustedRestsUntilNextMonth(k: ApiKey, a: Answer, config: Config, now: nat, t: int)
    requires a.reply.Usage? && a.reply.remaining == 0 && a.reply.planned != 0 && IsDue(k, now)
    ensures IsDue(Refreshed(k, a, config, now), t) <==>
            t >= Calendar.Midnight(Calendar.NextMonth(Calendar.DateOf(a.settled)))
  {
    Calendar.LandsOnNextMonth(a.settled);
  }

  // ---------------------------------------------------------------------------
  // The pass
  // ---------------------------------------------------------------------------

  ghost predicate Below(ps: seq<nat>, bound: nat) {
    forall j :: 0 <= j < |ps| ==> ps[j] < bound
  }

  ghost predicate Increasing(ps: seq<nat>) {
    forall a, b :: 0 <= a < b < |ps| ==> ps[a] < ps[b]
  }

  /** The due rows, by position. */
  function Due(keys: Table, now: int): (ps: seq<nat>)
    ensures Below(ps, |keys|) && Increasing(ps)
  {
    if keys == [] then []
    else
      var n := |keys| - 1;
      var front := Due(keys[..n], now);
      if IsDue(keys[n], now) then front + [n] else front
  }

  /** Exactly the active or cooling keys in use whose credits were never read, or are to be read by now. */
  lemma {:induction false} DueMeans(keys: Table, now: int, i: nat)
    ensures i in Due(keys, now) <==>
              && i < |keys| && keys[i].isActive && keys[i].status in {Active, Cooling}
              && (keys[i].nextRefreshAt == None || keys[i].nextRefreshAt.value <= now)
    ensures i in Due(keys, now) <==> i < |keys| && IsDue(keys[i], now)
  {
    if keys != [] {
      var n := |keys| - 1;
      DueMeans(keys[..n], now, i);
      assert n in [n];
    }
  }

  /** `s` after `f` has been applied at the first `n` of the positions `ps`, one after the other. */
  function Updated<T>(s: seq<T>, ps: seq<nat>, n: nat, f: (nat, T) -> T): (r: seq<T>)
    requires n <= |ps| && Below(ps, |s|)
    ensures |r| == |s|
  {
    if n == 0 then s
    else
      var r := Updated(s, ps, n - 1, f);
      r[ps[n - 1] := f(n - 1, r[ps[n - 1]])]
  }

  /** Each position is updated once, from its own old value, and no other changes. */
  lemma {:induction false} UpdatedOnce<T>(s: seq<T>, ps: seq<nat>, n: nat, f: (nat, T) -> T)
    requires n <= |ps| && Below(ps, |s|) && Increasing(ps)
    ensures forall j :: 0 <= j < n ==> Updated(s, ps, n, f)[ps[j]] == f(j, s[ps[j]])
    ensures forall i :: 0 <= i < |s| && i !in ps[..n] ==> Updated(s, ps, n, f)[i] == s[i]
    ensures n < |ps| ==> Updated(s, ps, n, f)[ps[n]] == s[ps[n]]
  {
    if n > 0 {
      UpdatedOnce(s, ps, n - 1, f);
      assert ps[..n] == ps[..n - 1] + [ps[n - 1]];
    }
  }

  /** The ids of the first `n` rows of `ps`. */
  function Ids(keys: Table, ps: seq<nat>, n: nat): seq<int>
    requires n <= |ps| && Below(ps, |keys|)
  {
    if n == 0 then [] else Ids(keys, ps, n - 1) + [keys[ps[n - 1]].id]
  }

  /** What the answers for them leave in the snapshot table. */
  function AllRecorded(keys: Table, ps: seq<nat>, n: nat, world: nat -> Answer): seq<Snapshot>
    requires n <= |ps| && Below(ps, |keys|)
  {
    if n == 0 then [] else AllRecorded(keys, ps, n - 1, world) + Recorded(keys[ps[n - 1]].id, world(n - 1))
  }

  /** The work of a pass on its j-th row. */
  function Work(world: nat -> Answer, config: Config, now: nat): (nat, ApiKey) -> ApiKey {
    (j: nat, k: ApiKey) => Refreshed(k, world(j), config, now)
  }

  /** The next row is still as it was; with it the pass is one further. */
  lemma {:induction false} NextUp(was: Table, ps: seq<nat>, n: nat, world: nat -> Answer, config: Config, now: nat)
    requires n < |ps| && Below(ps, |was|) && Increasing(ps)
    ensures var keys := Updated(was, ps, n, Work(world, config, now));
            && keys[ps[n]] == was[ps[n]]
            && Updated(was, ps, n + 1, Work(world, config, now))
               == keys[ps[n] := Refreshed(was[ps[n]], world(n), config, now)]
    ensures Ids(was, ps, n + 1) == Ids(was, ps, n) + [was[ps[n]].id]
    ensures AllRecorded(was, ps, n + 1, world) == AllRecorded(was, ps, n, world) + Recorded(was[ps[n]].id, world(n))
  {
    UpdatedOnce(was, ps, n, Work(world, config, now));
  }

  lemma {:induction false} Regroup<T>(a: seq<T>, b: seq<T>, c: seq<T>)
    ensures (a + b) + c == a + (b + c)
  {
  }

  /** The table after a whole pass. */
  function Pass(keys: Table, world: nat -> Answer, config: Config, now: nat): (r: Table)
    ensures |r| == |keys|
  {
    Updated(keys, Due(keys, now), |Due(keys, now)|, Work(world, config, now))
  }

  /** A pass refreshes exactly the due rows, each once and with one answer of its own. */
  lemma {:induction false} PassRefreshesDueRows(keys: Table, world: nat -> Answer, config: Config, now: nat, i: nat)
    requires i < |keys|
    ensures IsDue(keys[i], now) ==>
              exists j: nat :: j < |Due(keys, now)| && Due(keys, now)[j] == i
                               && Pass(keys, world, config, now)[i] == Refreshed(keys[i], world(j), config, now)
    ensures !IsDue(keys[i], now) ==> Pass(keys, world, config, now)[i] == keys[i]
  {
    var ps := Due(keys, now);
    UpdatedOnce(keys, ps, |ps|, Work(world, config, now));
    DueMeans(keys, now, i);
    assert ps[..|ps|] == ps;
  }

  lemma {:induction false} EditChangesOne(keys: Table, at: nat, w: Write)
    requires Sorted(keys) && at < |keys| && !w.Update?
    ensures Apply(keys, Edit(keys[at].id, w)) == keys[at := Written(keys[at], w)]
  {
  }

  /**
   * After a pass with positive intervals and a clock that does not run back, every key that was due is
   * scheduled after the pass time, and no key at all is due then.
   */
  lemma {:induction false} PassLeavesNothingDue(was: Table, world: nat -> Answer, config: Config, now: nat)
    requires Positive(config) && forall j :: now <= world(j).settled
    ensures Due(Pass(was, world, config, now), now) == []
    ensures forall i :: 0 <= i < |was| && IsDue(was[i], now) ==> ScheduledAfter(Pass(was, world, config, now)[i], now)
  {
    var keys := Pass(was, world, config, now);
    forall i | 0 <= i < |was| && IsDue(was[i], now)
      ensures ScheduledAfter(keys[i], now)
    {
      PassRefreshesDueRows(was, world, config, now, i);
      var j: nat :| keys[i] == Refreshed(was[i], world(j), config, now);
      assert now <= world(j).settled;
      RestsUntilScheduled(was[i], world(j), config, now, now);
    }
    if Due(keys, now) != [] {
      var i := Due(keys, now)[0];
      DueMeans(keys, now, i);
      PassRefreshesDueRows(was, world, config, now, i);
    }
  }

  predicate ScheduledAfter(k: ApiKey, now: int) {
    k.nextRefreshAt.Some? && k.nextRefreshAt.value > now
  }

  /** The refresher over the key and snapshot tables; every commit succeeds, and no one else writes during a pass. */
  class CreditMonitor {
    const config: Config
    var keys: Table
    var snapshots: seq<Snapshot>
    /** The keys whose credits were asked for, in order. */
    ghost var asked: seq<int>

    ghost predicate Valid()
      reads this
    {
      Reachable(keys)
    }

    constructor (config: Config)
      ensures Valid() && this.config == config && keys == [] && snapshots == [] && asked == []
    {
      this.config := config;
      keys, snapshots, asked := [], [], [];
      assert Replay([]) == [];
    }

    method Commit(at: nat, w: Write)
      requires Valid() && at < |keys| && !w.Update?
      modifies this`keys
      ensures Valid() && keys == Apply(old(keys), Edit(old(keys)[at].id, w))
      ensures keys == old(keys)[at := Written(old(keys)[at], w)]
    {
      ReachableMeans(keys);
      EditChangesOne(keys, at, w);
      ReachableStep(keys, Edit(keys[at].id, w));
      keys := Apply(keys, Edit(keys[at].id, w));
    }

    /** Asks for one key's credits; false when the source's function raises. */
    method Fetch(at: nat, answer: Answer) returns (ok: bool)
      requires Valid() && at < |keys|
      modifies this
      ensures Valid()
      ensures ok == answer.reply.Usage?
      ensures asked == old(asked) + [old(keys)[at].id]
      ensures snapshots == old(snapshots) + Recorded(old(keys)[at].id, answer)
      ensures snapshots == old(snapshots)
                           + match answer.reply
                             case Usage(left, planned) => [Snapshot(old(keys)[at].id, left, planned, true)]
                             case Broken => []
                             case _ => [Snapshot(old(keys)[at].id, 0, 0, false)]
      ensures keys == old(keys)[at := AfterFetch(old(keys)[at], answer, config)]
    {
      asked := asked + [keys[at].id];
      snapshots := snapshots + Recorded(keys[at].id, answer);
      match answer.reply {
        case Undecryptable => Commit(at, DecryptFailure);
        case Usage(r, p) => Commit(at, Fetched(r, p, NextRefresh(Some(r), Some(p), config, answer.stored)));
        case Unauthorized => Commit(at, FetchUnauthorized);
        case RateLimited => Commit(at, FetchRateLimited(answer.asked));
        case _ =>
      }
      ok := answer.reply.Usage?;
    }

    /** The body of the pass for one key: fetch, then schedule from the cache or for a retry. */
    method RefreshKey(at: nat, answer: Answer, now: nat)
      requires Valid() && at < |keys|
      modifies this
      ensures Valid()
      ensures keys == old(keys)[at := Refreshed(old(keys)[at], answer, config, now)]
      ensures asked == old(asked) + [old(keys)[at].id]
      ensures snapshots == old(snapshots) + Recorded(old(keys)[at].id, answer)
    {
      var ok := Fetch(at, answer);
      if ok {
        ScheduledFromCache(old(keys)[at], answer, config, now);
        Commit(at, Reschedule(NextRefresh(keys[at].credits, keys[at].plan, config, answer.settled)));
      } else {
        Commit(at, Reschedule(now + Max(config.retryDelay, 1) * MINUTE));
      }
    }

    /** The first `n` positions of the pass are done. */
    ghost predicate Progress(was: Table, asked0: seq<int>, snapshots0: seq<Snapshot>, ps: seq<nat>, n: nat,
                             world: nat -> Answer, now: nat)
      reads this
    {
      && n <= |ps| && Below(ps, |was|) && Increasing(ps)
      && keys == Updated(was, ps, n, Work(world, config, now))
      && asked == asked0 + Ids(was, ps, n)
      && snapshots == snapshots0 + AllRecorded(was, ps, n, world)
    }

    /** With the next position refreshed, asked for and recorded, one more is done. */
    lemma {:induction false} ProgressGrows(was: Table, asked0: seq<int>, snapshots0: seq<Snapshot>, ps: seq<nat>,
                                           n: nat, world: nat -> Answer, now: nat)
      requires n < |ps| && Progress(was, asked0, snapshots0, ps, n, world, now)
      ensures ps[n] < |keys| && keys[ps[n]] == was[ps[n]]
      ensures Updated(was, ps, n + 1, Work(world, config, now))
              == keys[ps[n] := Refreshed(keys[ps[n]], world(n), config, now)]
      ensures asked0 + Ids(was, ps, n + 1) == asked + [keys[ps[n]].id]
      ensures snapshots0 + AllRecorded(was, ps, n + 1, world) == snapshots + Recorded(keys[ps[n]].id, world(n))
    {
      NextUp(was, ps, n, world, config, now);
      Regroup(asked0, Ids(was, ps, n), [was[ps[n]].id]);
      Regroup(snapshots0, AllRecorded(was, ps, n, world), Recorded(was[ps[n]].id, world(n)));
    }

    /** One pass: every key due at its start is asked for exactly once, in id order, across all batches. */
    method RefreshOnce(now: nat, world: nat -> Answer)
      requires Valid()
      modifies this
      ensures Valid()
      ensures keys == Pass(old(keys), world, config, now)
      ensures asked == old(asked) + Ids(old(keys), Due(old(keys), now), |Due(old(keys), now)|)
      ensures snapshots == old(snapshots) + AllRecorded(old(keys), Due(old(keys), now), |Due(old(keys), now)|, world)
    {
      ghost var was := keys;
      var due := Due(keys, now);
      var size := Max(config.batchSize, 1);
      var i := 0;
      while i < |due|
        invariant 0 <= i <= |due| && Valid()
        invariant Progress(was, old(asked), old(snapshots), due, i, world, now)
      {
        var end := Min(i + size, |due|);
        RefreshBatch(was, old(asked), old(snapshots), due, i, end, now, world);
        i := end;
      }
    }

    /** Positions `from` to `end` of the pass. */
    method RefreshBatch(ghost was: Table, ghost asked0: seq<int>, ghost snapshots0: seq<Snapshot>, due: seq<nat>,
                        from: nat, end: nat, now: nat, world: nat -> Answer)
      requires Valid() && from <= end <= |due|
      requires Progress(was, asked0, snapshots0, due, from, world, now)
      modifies this
      ensures Valid() && Progress(was, asked0, snapshots0, due, end, world, now)
    {
      var j := from;
      while j < end
        invariant j <= end && Valid() && Progress(was, asked0, snapshots0, due, j, world, now)
      {
        RefreshNext(was, asked0, snapshots0, due, j, now, world, world(j));
        j := j + 1;
      }
    }

    method RefreshNext(ghost was: Table, ghost asked0: seq<int>, ghost snapshots0: seq<Snapshot>, due: seq<nat>, j: nat,
                       now: nat, ghost world: nat -> Answer, answer: Answer)
      requires Valid() && j < |due| && answer == world(j)
      requires Progress(was, asked0, snapshots0, due, j, world, now)
      modifies this
      ensures Valid() && Progress(was, asked0, snapshots0, due, j + 1, world, now)
    {
      ProgressGrows(was, asked0, snapshots0, due, j, world, now);
      RefreshKey(due[j], answer, now);
    }
  }
}
