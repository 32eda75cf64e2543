/** The forwarding loops of app/core/forwarder.py, over the key pool, the limiter and the lease manager. */
module Forwarding {
  import opened Common
  import opened Keys
  import opened Lifecycle
  import opened Clients
  import Breaker
  import KeyPool
  import RateLimit
  import Concurrency
  import Pricing

  datatype Config = Config(
    maxRetries: int,
    cooldownSeconds: int,
    failureThreshold: int,
    failureWindowSeconds: int,
    failedCooldownSeconds: int,
    countSuccess: bool,
    estimateCredits: bool)

  /** What is forwarded, as far as its cost depends on it. */
  datatype Request = Request(path: string, isGet: bool)

  /** What the upstream request comes to; `Crash` is any exception that is not the HTTP client's own. */
  datatype Upstream =
    | Timeout
    | HttpError
    | Crash
    | Resp(status: int, retryAfter: Option<nat>, body: Pricing.Body)

  /**
   * One turn of a loop: the request being forwarded, and the outside world meanwhile: the clocks, what other requests
   * and admins did to the table before the turn and between its selection and its request, whether the key decrypts,
   * what upstream does, and whether the quota commit goes through.
   */
  datatype Tick = Tick(
    request: Request,
    m: KeyPool.Moment,
    clock: real,
    others: seq<Step>,
    meanwhile: seq<Step>,
    decryptOk: bool,
    upstream: Upstream,
    commitOk: bool)

  datatype Code =
    | AllKeysBusy(retryAfter: Option<int>)
    | KeyDecryptFailed
    | UpstreamTimeout
    | UpstreamUnavailable
    | DbUnavailable
    | PoolError(error: KeyPool.Error)
    | Unexpected

  datatype Result = Response(status: int, keyId: int, retryCount: int) | Raised(code: Code)

  /**
   * One upstream request: the row as it was looked up, the turn it was made in, how long the table's history was at the
   * lookup and at the request, and what the request's outcome then wrote.
   */
  datatype Send = Send(row: ApiKey, tick: Tick, at: nat, sentAt: nat, writes: seq<Step>)

  /** Taking a key through limiter, lease and decryption to upstream. */
  datatype Attempt = Limited(retryAfter: int) | Busy | Undecryptable | Sent(upstream: Upstream)

  /** The world as a call with this request meets it. */
  function Serving(world: nat -> Tick, request: Request): nat -> Tick {
    (n: nat) => world(n).(request := request)
  }

  /** The rate token is asked for first, then the lease, then the plaintext key. */
  function AttemptOf(verdict: RateLimit.Verdict, full: bool, tick: Tick): Attempt {
    if verdict.Denied? then Limited(verdict.retryAfter)
    else if full then Busy
    else if !tick.decryptOk then Undecryptable
    else Sent(tick.upstream)
  }

  /** What makes the pool loop try another key, while requests are left. */
  predicate Retryable(u: Upstream) {
    u.Timeout? || u.HttpError? || (u.Resp? && (u.status in {429, 401, 403} || u.status >= 500))
  }

  /** What makes the pinned loop try its key again, while requests are left. */
  predicate RetryableOnPin(u: Upstream) {
    u.Timeout? || u.HttpError? || (u.Resp? && u.status >= 500)
  }

  /** What asking for the key's rate token does to the buckets, and the answer. */
  function Asked(buckets: RateLimit.Buckets, row: ApiKey, tick: Tick): (RateLimit.Buckets, RateLimit.Verdict) {
    RateLimit.Served(buckets, RateLimit.Call(row.id, row.ratePerMin, tick.clock))
  }

  /** All leases of the key are out. */
  ghost predicate Full(row: ApiKey, live: set<Concurrency.Lease>) {
    0 < row.maxConcurrent <= |Concurrency.HeldFor(live, row.id)|
  }

  predicate Succeeded(status: int) {
    200 <= status < 300
  }

  function TotalAttempts(config: Config): (n: nat)
    ensures n >= 1
  {
    Max(config.maxRetries, 0) + 1
  }

  function SelectionBudget(config: Config): nat {
    Max(TotalAttempts(config) * 20, 50)
  }

  /** The header's delay, where a missing header and 0 both fall back to the configured cooldown. */
  function CooldownFor(config: Config, retryAfter: Option<nat>): int {
    if retryAfter.GetOr(0) == 0 then config.cooldownSeconds else retryAfter.value
  }

  function Find(keys: Table, id: int): (k: Option<ApiKey>)
    ensures k.Some? ==> k.value in keys && k.value.id == id
    ensures k.None? ==> forall i :: 0 <= i < |keys| ==> keys[i].id != id
  {
    if keys == [] then None
    else if keys[|keys| - 1].id == id then Some(keys[|keys| - 1])
    else Find(keys[..|keys| - 1], id)
  }

  /** A pinned key is honoured when it is the client's own, active, and of the right provider. */
  predicate PinHolds(keys: Table, id: int, client: int, provider: string) {
    var k := Find(keys, id);
    k.Some? && k.value.client == Some(client) && !IsDisabled(k.value) && k.value.provider == provider
  }

  function WindowLength(config: Config): int {
    config.failureWindowSeconds * SECOND
  }

  /** The failure that a failed request on this key records: none if the key is gone or disabled. */
  function FailuresOf(keys: Table, id: int, now: int): seq<Breaker.Failure> {
    var k := Find(keys, id);
    if k.None? || IsDisabled(k.value) then [] else [Breaker.Failure(id, now)]
  }

  /** The write it causes: the failed mark, once the window holds enough failures. */
  function FailureSteps(config: Config, keys: Table, failures: Breaker.Failures, id: int, now: int): seq<Step> {
    if FailuresOf(keys, id, now) != []
       && Breaker.Counted(Breaker.Get(failures, id), now, WindowLength(config)).count >= config.failureThreshold
    then [Edit(id, MarkFailed(now, Max(config.failedCooldownSeconds, 1)))] else []
  }

  /** The writes after a 2xx that commits. */
  function SuccessSteps(config: Config, id: int, request: Request, body: Pricing.Body): seq<Step> {
    (if config.estimateCredits && !request.isGet then [Edit(id, Deduct(Pricing.Taken(request.path, body)))] else [])
    + (if config.countSuccess then [Edit(id, Consume)] else [])
  }

  /** The writes a response causes. */
  function ReactionSteps(config: Config, keys: Table, failures: Breaker.Failures, id: int, tick: Tick): seq<Step>
    requires tick.upstream.Resp?
  {
    var status := tick.upstream.status;
    if status == 429 then [Edit(id, MarkCooling(tick.m.now, CooldownFor(config, tick.upstream.retryAfter)))]
    else if status == 401 || status == 403 then [Edit(id, Disable)]
    else if status >= 500 then FailureSteps(config, keys, failures, id, tick.m.now)
    else if Succeeded(status) && tick.commitOk then SuccessSteps(config, id, tick.request, tick.upstream.body)
    else []
  }

  /** The writes of an attempt itself: a key that does not decrypt is switched off, a failed request is recorded. */
  function AttemptSteps(config: Config, keys: Table, failures: Breaker.Failures, id: int, now: int,
                        a: Attempt): seq<Step> {
    match a
    case Undecryptable => [Edit(id, DecryptFailure)]
    case Sent(u) => if u.Timeout? || u.HttpError? then FailureSteps(config, keys, failures, id, now) else []
    case _ => []
  }

  /** The latest failure of a key is the one just recorded, and its window is the counter just stored. */
  lemma {:induction false} LatestFailure(recorded: seq<Breaker.Failure>, id: int, now: int, length: int)
    ensures var after := recorded + [Breaker.Failure(id, now)];
            var times := Breaker.TimesOf(after, id);
            var w := Breaker.Counted(Breaker.Get(Breaker.Recorded(recorded, length), id), now, length);
            && times == Breaker.TimesOf(recorded, id) + [now]
            && Breaker.Recorded(after, length) == Breaker.Recorded(recorded, length)[id := w]
            && Breaker.Track(times[..|times|], length) == Some(w)
  {
    var after := recorded + [Breaker.Failure(id, now)];
    assert after[..|after| - 1] == recorded;
    var times := Breaker.TimesOf(after, id);
    Breaker.KeysAreIndependent(after, id, length);
    assert times[..|times|] == times;
  }

  /** Admin edits are the only steps forwarding never takes itself. */
  predicate ByAdmin(step: Step) {
    match step
    case Edit(_, w) => w.Update? || w.Batch? || w.Delete? || w.FillIn?
    case Select(_, _) => false
    case _ => true
  }

  predicate OwnWrites(steps: seq<Step>) {
    forall i :: 0 <= i < |steps| ==> !ByAdmin(steps[i])
  }

  /** The responses that make a handler try its fallback path. */
  predicate NotFound(r: Result) {
    r.Response? && (r.status == 404 || r.status == 405)
  }

  lemma {:induction false} Regroup(a: seq<Step>, b: seq<Step>, c: seq<Step>)
    ensures (a + b) + c == a + (b + c)
  {
  }

  predicate FailMarks(steps: seq<Step>) {
    forall i :: 0 <= i < |steps| ==> steps[i].Edit? && steps[i].w.MarkFailed?
  }

  /** What one request adds to the client's usage: one for a delivered 2xx under a quota, else nothing. */
  function UsageOf(r: Result, quota: Option<int>, countSuccess: bool): nat {
    if r.Response? && Succeeded(r.status) && quota.Some? && countSuccess then 1 else 0
  }

  /** What a turn that may or may not have ended the call adds to it. */
  function ChargeOf(done: Option<Result>, quota: Option<int>, countSuccess: bool): nat {
    if done.None? then 0 else UsageOf(done.value, quota, countSuccess)
  }

  /**
   * What a request comes to: nothing yet when the outcome is worth another try (`again`) and a request is left;
   * else its error or its response, a 2xx only once it is counted.
   */
  function Reaction(config: Config, tick: Tick, id: int, retryCount: nat, again: bool,
                    lastAttempt: bool): Option<Result> {
    if again && !lastAttempt then None
    else
      match tick.upstream
      case Crash => Some(Raised(Unexpected))
      case Timeout => Some(Raised(UpstreamTimeout))
      case HttpError => Some(Raised(UpstreamUnavailable))
      case Resp(status, _, _) =>
        Some(if Succeeded(status) && config.countSuccess && !tick.commitOk then Raised(DbUnavailable)
             else Response(status, id, retryCount))
  }

  /** What taking a key comes to, given the buckets and the leases that are out. */
  ghost function Tried(buckets: RateLimit.Buckets, live: set<Concurrency.Lease>, row: ApiKey, tick: Tick): Attempt {
    AttemptOf(Asked(buckets, row, tick).1, Full(row, live), tick)
  }

  /**
   * A key is tried for its own rate and its own leases: a refused token comes before a refused lease, and both before a
   * key that does not decrypt, which alone of the three is written down.
   */
  lemma {:induction false} TriedMeans(buckets: RateLimit.Buckets, live: set<Concurrency.Lease>, row: ApiKey, tick: Tick,
                                      config: Config, keys: Table, failures: Breaker.Failures)
    ensures var (buckets', verdict) :=
              RateLimit.Served(buckets, RateLimit.Call(row.id, row.ratePerMin, tick.clock));
            var full := 0 < row.maxConcurrent <= |Concurrency.HeldFor(live, row.id)|;
            var a := Tried(buckets, live, row, tick);
            var writes := AttemptSteps(config, keys, failures, row.id, tick.m.now, a);
            && Asked(buckets, row, tick).0 == buckets'
            && (a.Limited? <==> verdict.Denied?) && (a.Limited? ==> a.retryAfter == verdict.retryAfter)
            && (a.Busy? <==> verdict.Allowed? && full)
            && (a.Undecryptable? <==> verdict.Allowed? && !full && !tick.decryptOk)
            && (a.Sent? ==> a.upstream == tick.upstream)
            && (a.Undecryptable? ==> writes == [Edit(row.id, DecryptFailure)])
            && (a.Limited? || a.Busy? ==> writes == [])
  {
  }

  /** The writes of a whole turn on a key. */
  function TurnSteps(config: Config, keys: Table, failures: Breaker.Failures, id: int, tick: Tick,
                     a: Attempt): seq<Step> {
    if a.Sent? && tick.upstream.Resp? then ReactionSteps(config, keys, failures, id, tick)
    else AttemptSteps(config, keys, failures, id, tick.m.now, a)
  }

  lemma {:induction false} TurnStepsMean(config: Config, keys: Table, failures: Breaker.Failures, id: int, tick: Tick,
                                         a: Attempt)
    requires a.Sent? ==> a.upstream == tick.upstream
    ensures OwnWrites(TurnSteps(config, keys, failures, id, tick, a))
    ensures a.Sent? && (RetryableOnPin(tick.upstream)
                        || (tick.upstream.Resp? && tick.upstream.status in {404, 405})) ==>
              FailMarks(TurnSteps(config, keys, failures, id, tick, a))
  {
  }

  /** How a turn of the pinned loop ends it, if it does: there is no other key to turn to. */
  function PinnedEnd(config: Config, a: Attempt, tick: Tick, id: int, attempt: nat): Option<Result> {
    match a
    case Limited(retryAfter) => Some(Raised(AllKeysBusy(Some(retryAfter))))
    case Busy => Some(Raised(AllKeysBusy(None)))
    case Undecryptable => Some(Raised(KeyDecryptFailed))
    case Sent(_) =>
      Reaction(config, tick, id, attempt, RetryableOnPin(tick.upstream), attempt + 1 >= TotalAttempts(config))
  }

  /**
   * A send by the pool: at selection the key was in scope and selectable. The selection is a step of its own, and the
   * steps from there to the request are others'.
   */
  ghost predicate PoolSend(s: Send, history: seq<Step>, client: int, provider: string) {
    && s.at < s.sentAt <= |history| && history[s.at].Select? && s.row in Replay(history[..s.at])
    && KeyPool.InScope(s.row, Some(client), provider)
    && KeyPool.Settle(s.row, s.tick.m).1.Free?
  }

  /** The writes of a request that timed out, failed or met a server error: at most the failed mark. */
  ghost predicate AtMostMarked(s: Send, config: Config) {
    s.writes == [] || s.writes == [Edit(s.row.id, MarkFailed(s.tick.m.now, Max(config.failedCooldownSeconds, 1)))]
  }

  /**
   * What the outcome of a request does to its key: a 429 cools it down for the header's positive delay, or else for
   * the configured one, a 401 or 403 switches it off, a failure counts against it, and a 2xx that commits is deducted
   * at the request's estimated cost and counted. Nothing else is written.
   */
  ghost predicate FitsOutcome(s: Send, config: Config) {
    match s.tick.upstream
    case Crash => s.writes == []
    case Timeout => AtMostMarked(s, config)
    case HttpError => AtMostMarked(s, config)
    case Resp(status, delay, body) =>
      if status == 429 then
        s.writes == [Edit(s.row.id, MarkCooling(s.tick.m.now, if delay.Some? && delay.value > 0 then delay.value
                                                              else config.cooldownSeconds))]
      else if status == 401 || status == 403 then s.writes == [Edit(s.row.id, Disable)]
      else if status >= 500 then AtMostMarked(s, config)
      else if 200 <= status <= 299 && s.tick.commitOk then
        var deducted := if config.estimateCredits && !s.tick.request.isGet then 1 else 0;
        && |s.writes| == deducted + (if config.countSuccess then 1 else 0)
        && (deducted == 1 ==> s.writes[0].Edit? && s.writes[0].id == s.row.id && s.writes[0].w.Deduct?)
        && (forall step :: step in s.writes && step.Edit? && step.w.Deduct? ==>
              step.w.cost == Pricing.Taken(s.tick.request.path, body))
        && (config.countSuccess ==> s.writes[deducted] == Edit(s.row.id, Consume))
      else s.writes == []
  }

  /** The request's writes stand in the history right after it, and are those its outcome calls for. */
  ghost predicate Reacted(s: Send, history: seq<Step>, config: Config) {
    s.sentAt <= |history| && s.writes <= history[s.sentAt..] && FitsOutcome(s, config)
  }

  ghost predicate AllReacted(sends: seq<Send>, history: seq<Step>, config: Config) {
    forall i :: 0 <= i < |sends| ==> Reacted(sends[i], history, config)
  }

  lemma {:induction false} ReactionMeans(config: Config, keys: Table, failures: Breaker.Failures, s: Send,
                                         history: seq<Step>)
    requires s.sentAt <= |history| && s.writes == history[s.sentAt..]
    requires s.writes == TurnSteps(config, keys, failures, s.row.id, s.tick, Sent(s.tick.upstream))
    ensures Reacted(s, history, config)
  {
  }

  /** A request notes what the history gained after it. */
  lemma {:induction false} WritesNoted(config: Config, keys: Table, failures: Breaker.Failures, pick: Send,
                                       h: seq<Step>, h': seq<Step>, writes: seq<Step>)
    requires pick.sentAt == |h| && h' == h + writes
    requires writes == TurnSteps(config, keys, failures, pick.row.id, pick.tick, Sent(pick.tick.upstream))
    ensures h'[pick.sentAt..] == writes && Reacted(pick.(writes := writes), h', config)
  {
    ReactionMeans(config, keys, failures, pick.(writes := writes), h');
  }

  lemma {:induction false} ReactionsGrow(sends: seq<Send>, send: Option<Send>, h: seq<Step>, h': seq<Step>,
                                         config: Config)
    requires AllReacted(sends, h, config) && h <= h' && (send.Some? ==> Reacted(send.value, h', config))
    ensures AllReacted(if send.Some? then sends + [send.value] else sends, h', config)
  {
    forall i | 0 <= i < |sends|
      ensures Reacted(sends[i], h', config)
    {
      assert Reacted(sends[i], h, config);
      assert h[sends[i].sentAt..] <= h'[sends[i].sentAt..];
    }
  }

  /** The request was answered by what sends the pool loop to another key. */
  ghost predicate KeyAtFault(s: Send) {
    match s.tick.upstream
    case Crash => false
    case Timeout => true
    case HttpError => true
    case Resp(status, _, _) => status == 429 || status == 401 || status == 403 || status >= 500
  }

  ghost predicate MovedOn(sends: seq<Send>) {
    forall i :: 0 <= i < |sends| ==> KeyAtFault(sends[i])
  }

  /** The request on a pinned key was answered by what makes the loop try that key again. */
  ghost predicate ServerAtFault(s: Send) {
    match s.tick.upstream
    case Crash => false
    case Timeout => true
    case HttpError => true
    case Resp(status, _, _) => status >= 500
  }

  ghost predicate TriedAgain(sends: seq<Send>) {
    forall i :: 0 <= i < |sends| ==> ServerAtFault(sends[i])
  }

  /**
   * Every request of a pinned call before the last was worth another try, and so was the last if the call failed on
   * the key's rate, its leases or its decryption.
   */
  ghost predicate PinnedRetries(r: Result, sends: seq<Send>) {
    && (sends != [] ==> TriedAgain(sends[..|sends| - 1]))
    && (r.Raised? && (r.code.AllKeysBusy? || r.code.KeyDecryptFailed?) ==> TriedAgain(sends))
  }

  lemma {:induction false} RetriesNext(sends: seq<Send>, sent: bool, s: Send, done: Option<Result>)
    requires TriedAgain(sends)
    requires done.None? ==> !s.tick.upstream.Crash? && (s.tick.upstream.Resp? ==> s.tick.upstream.status >= 500)
    requires done.Some? && done.value.Raised? && (done.value.code.AllKeysBusy? || done.value.code.KeyDecryptFailed?) ==>
               !sent
    ensures var sends' := if sent then sends + [s] else sends;
            if done.Some? then PinnedRetries(done.value, sends') else TriedAgain(sends')
  {
    assert (sends + [s])[..|sends|] == sends;
  }

  /** The steps between a selection and its request. */
  function Between(s: Send, history: seq<Step>): seq<Step>
    requires s.at < s.sentAt <= |history|
  {
    history[s.at + 1..s.sentAt]
  }

  lemma {:induction false} FreshPick(h: seq<Step>, step: Step, pos: nat, tick: Tick, client: int, provider: string)
    requires pos < |Replay(h)| && KeyPool.InScope(Replay(h)[pos], Some(client), provider)
    requires KeyPool.Settle(Replay(h)[pos], tick.m).1.Free? && step.Select?
    ensures PoolSend(Send(Replay(h)[pos], tick, |h|, |h| + 1, []), h + [step], client, provider)
  {
    assert (h + [step])[..|h|] == h;
  }

  /** Others' steps after the selection put off the request. */
  lemma {:induction false} RequestLater(s: Send, h: seq<Step>, steps: seq<Step>, client: int, provider: string)
    requires PoolSend(s, h, client, provider) && s.sentAt == s.at + 1 == |h|
    ensures var s' := s.(sentAt := |h + steps|);
            PoolSend(s', h + steps, client, provider) && Between(s', h + steps) == steps
  {
    assert (h + steps)[..s.at] == h[..s.at];
  }

  /** The error a failed selection surfaces as: once a key has failed to decrypt, running out of keys says so. */
  function Surfaced(error: KeyPool.Error, decryptSeen: bool): (code: Code)
    ensures code == PoolError(error) || (code == KeyDecryptFailed && decryptSeen && RanOut(error))
  {
    if decryptSeen && RanOut(error) then KeyDecryptFailed else PoolError(error)
  }

  /** The errors of a scope in which no key is usable, other than by quota or cooldown alone. */
  predicate RanOut(error: KeyPool.Error) {
    error.NoKeyConfigured? || error.AllKeysDisabled? || error.NoKeyAvailable?
  }

  /** The keys of these requests, in order. */
  function KeysOf(sends: seq<Send>): (ids: seq<int>)
    ensures |ids| == |sends|
  {
    if sends == [] then [] else KeysOf(sends[..|sends| - 1]) + [sends[|sends| - 1].row.id]
  }

  lemma {:induction false} KeysOfMore(before: seq<int>, sends: seq<Send>, s: Send)
    ensures before + KeysOf(sends + [s]) == (before + KeysOf(sends)) + [s.row.id]
  {
    assert (sends + [s])[..|sends|] == sends;
  }

  lemma {:induction false} KeysOfJoin(before: seq<int>, a: seq<Send>, b: seq<Send>)
    ensures before + KeysOf(a + b) == (before + KeysOf(a)) + KeysOf(b)
    decreases |b|
  {
    if b == [] {
      assert a + b == a;
    } else {
      var front, last := b[..|b| - 1], b[|b| - 1];
      assert a + b == (a + front) + [last];
      KeysOfJoin(before, a, front);
      KeysOfMore(before, a + front, last);
    }
  }

  /** What a select on this table with this stored index comes to. */
  function SelectedFrom(keys: Table, client: int, provider: string, m: KeyPool.Moment, index: nat): KeyPool.Selection {
    KeyPool.Choose(keys, KeyPool.Scope(keys, Some(client), provider), m, index).0
  }

  function ErrorOf(selection: KeyPool.Selection): Option<KeyPool.Error> {
    if selection.Refused? then Some(selection.error) else None
  }

  /** The row that goes with it. */
  ghost predicate PickFits(selection: KeyPool.Selection, keys: Table, pick: Option<Send>) {
    if selection.Refused? then pick.None?
    else selection.pos < |keys| && pick.Some? && pick.value.row == keys[selection.pos]
  }

  class Forwarder {
    const config: Config
    const pool: KeyPool.KeyPool
    const limiter: RateLimit.TokenBucketRateLimiter
    const leases: Concurrency.ConcurrencyManager
    var keys: Table
    var failures: Breaker.Failures
    /** Every step the table has taken, by this forwarder and by everyone else. */
    var history: seq<Step>

    /** Every failure recorded so far, of any key. */
    ghost var recorded: seq<Breaker.Failure>
    /** What every selection came to, every attempt on a key, and the key of every request that went upstream. */
    ghost var selected: seq<Option<KeyPool.Error>>
    ghost var trail: seq<Attempt>
    ghost var requests: seq<int>
    /** What every call of forward came to. */
    ghost var outcomes: seq<Result>

    /** The table is where its history leads, and the failure windows are those of the recorded failures. */
    ghost predicate Consistent()
      reads this`keys, this`history, this`failures, this`recorded
    {
      keys == Replay(history) && failures == Breaker.Recorded(recorded, WindowLength(config))
    }

    ghost predicate Valid()
      reads this`keys, this`history, this`failures, this`recorded, leases, leases.live
    {
      Consistent() && leases.Valid()
    }

    constructor (config: Config)
      ensures Valid() && this.config == config && keys == [] && history == []
      ensures fresh(pool) && fresh(limiter) && fresh(leases) && leases.live == {}
    {
      this.config := config;
      pool := new KeyPool.KeyPool();
      limiter := new RateLimit.TokenBucketRateLimiter();
      leases := new Concurrency.ConcurrencyManager();
      keys, failures, history, recorded := [], map[], [], [];
      selected, trail, requests, outcomes := [], [], [], [];
    }

    /** One committed step of the table. */
    method Commit(step: Step)
      requires Consistent()
      modifies this`keys, this`history
      ensures Consistent() && keys == Apply(old(keys), step)
      ensures history == old(history) + [step]
    {
      ReplaySnoc(history, step);
      keys, history := Apply(keys, step), history + [step];
    }

    method CommitAll(steps: seq<Step>)
      requires Consistent()
      modifies this`keys, this`history
      ensures Consistent() && history == old(history) + steps
    {
      for i := 0 to |steps|
        invariant Consistent() && history == old(history) + steps[..i]
      {
        Commit(steps[i]);
      }
    }

    /**
     * app/core/forwarder.py: _record_failure. Only an enabled key is counted; it is marked failed exactly when
     * its latest failure reaches the threshold within its window.
     */
    method RecordFailure(id: int, now: int)
      requires Consistent()
      modifies this`keys, this`history, this`failures, this`recorded
      ensures Consistent()
      ensures history == old(history) + FailureSteps(config, old(keys), old(failures), id, now)
      ensures recorded == old(recorded) + FailuresOf(old(keys), id, now)
      ensures recorded != old(recorded) ==>
                var times := Breaker.TimesOf(recorded, id);
                && times == Breaker.TimesOf(old(recorded), id) + [now]
                && (history != old(history) <==>
                      Breaker.Marks(times, |times| - 1, config.failureThreshold,
                                    config.failureWindowSeconds * 1_000_000))
      ensures history != old(history) ==>
                && recorded != old(recorded)
                && history == old(history) + [Edit(id, MarkFailed(now, Max(config.failedCooldownSeconds, 1)))]
    {
      var key := Find(keys, id);
      if key.None? || IsDisabled(key.value) {
        return;
      }
      var window := NextWindow(id, now);
      LatestFailure(recorded, id, now, WindowLength(config));
      failures := failures[id := window];
      recorded := recorded + [Breaker.Failure(id, now)];
      if window.count < config.failureThreshold {
        return;
      }
      Commit(Edit(id, MarkFailed(now, Max(config.failedCooldownSeconds, 1))));
    }

    /** The window of a key with one more failure in it; a window that is over starts anew. */
    method NextWindow(id: int, now: int) returns (w: Breaker.Window)
      ensures w == Breaker.Counted(Breaker.Get(failures, id), now, WindowLength(config))
    {
      var count, firstAt := 0, now;
      if id in failures {
        count, firstAt := failures[id].count, failures[id].firstAt;
      }
      if now - firstAt > config.failureWindowSeconds * SECOND {
        count, firstAt := 0, now;
      }
      w := Breaker.Window(count + 1, firstAt);
    }

    /** A rate token, then a lease; a refusal holds nothing. */
    method Reserve(row: ApiKey, tick: Tick) returns (verdict: RateLimit.Verdict, lease: Concurrency.Lease?)
      requires leases.Valid()
      modifies limiter, leases
      ensures leases.Valid()
      ensures (limiter.buckets, verdict) == Asked(old(limiter.buckets), row, tick)
      ensures verdict.Denied? ==> lease == null
      ensures verdict.Allowed? ==> (lease == null <==> Full(row, old(leases.live)))
      ensures lease == null ==> leases.live == old(leases.live)
      ensures lease != null ==>
                && fresh(lease) && lease.manager == leases && !lease.released
                && leases.live == if lease.counted then old(leases.live) + {lease} else old(leases.live)
    {
      lease := null;
      verdict := limiter.Allow(row.id, row.ratePerMin, tick.clock);
      if verdict.Allowed? {
        lease := leases.TryAcquire(row.id, row.maxConcurrent);
      }
    }

    /**
     * Limiter, lease, decryption, request, and the release that every way out passes through.
     */
    method TrySend(row: ApiKey, tick: Tick) returns (a: Attempt, ghost writes: seq<Step>)
      requires Valid()
      modifies limiter, leases, this`keys, this`history, this`failures, this`recorded, this`trail, this`requests
      ensures Valid() && leases.live == old(leases.live)
      ensures limiter.buckets == Asked(old(limiter.buckets), row, tick).0
      ensures a == AttemptOf(Asked(old(limiter.buckets), row, tick).1, Full(row, old(leases.live)), tick)
      ensures history == old(history) + writes
      ensures writes == AttemptSteps(config, old(keys), old(failures), row.id, tick.m.now, a)
      ensures recorded == old(recorded) + if a.Sent? && (a.upstream.Timeout? || a.upstream.HttpError?)
                                          then FailuresOf(old(keys), row.id, tick.m.now) else []
      ensures requests == old(requests) + if a.Sent? then [row.id] else []
      ensures trail == old(trail) + [a]
    {
      writes := [];
      var verdict, lease := Reserve(row, tick);
      if lease == null {
        a := if verdict.Denied? then Limited(verdict.retryAfter) else Busy;
      } else {
        a, writes := SendAndRelease(row.id, tick, lease);
      }
      trail := trail + [a];
    }

    /** What happens under a lease, and its release, whatever that was. */
    method SendAndRelease(id: int, tick: Tick, lease: Concurrency.Lease) returns (a: Attempt, ghost writes: seq<Step>)
      requires Valid() && lease.manager == leases && !lease.released && (lease.counted ==> lease in leases.live)
      modifies lease, leases, this`keys, this`history, this`failures, this`recorded, this`requests
      ensures Valid() && leases.live == old(leases.live) - {lease}
      ensures a == if tick.decryptOk then Sent(tick.upstream) else Undecryptable
      ensures history == old(history) + writes
      ensures writes == AttemptSteps(config, old(keys), old(failures), id, tick.m.now, a)
      ensures recorded == old(recorded) + if a.Sent? && (a.upstream.Timeout? || a.upstream.HttpError?)
                                          then FailuresOf(old(keys), id, tick.m.now) else []
      ensures requests == old(requests) + if a.Sent? then [id] else []
    {
      a, writes := UnderLease(id, tick);
      lease.Release();
    }

    /** Decryption and the request itself; a failed request is recorded before the lease goes back. */
    method UnderLease(id: int, tick: Tick) returns (a: Attempt, ghost writes: seq<Step>)
      requires Consistent()
      modifies this`keys, this`history, this`failures, this`recorded, this`requests
      ensures Consistent() && history == old(history) + writes
      ensures a == if tick.decryptOk then Sent(tick.upstream) else Undecryptable
      ensures writes == AttemptSteps(config, old(keys), old(failures), id, tick.m.now, a)
      ensures recorded == old(recorded) + if a.Sent? && (a.upstream.Timeout? || a.upstream.HttpError?)
                                          then FailuresOf(old(keys), id, tick.m.now) else []
      ensures requests == old(requests) + if a.Sent? then [id] else []
    {
      if !tick.decryptOk {
        Commit(Edit(id, DecryptFailure));
        return Undecryptable, [Edit(id, DecryptFailure)];
      }
      a := Sent(tick.upstream);
      requests := requests + [id];
      writes := AttemptSteps(config, keys, failures, id, tick.m.now, a);
      if tick.upstream.Timeout? || tick.upstream.HttpError? {
        RecordFailure(id, tick.m.now);
      }
    }

    /** The bookkeeping after a 2xx: local credits, then quota, in one commit. */
    method CountSuccess(client: ClientAccount, id: int, request: Request, body: Pricing.Body, commitOk: bool)
      returns (ok: bool)
      requires Consistent()
      modifies this`keys, this`history, client`dailyUsage
      ensures Consistent()
      ensures ok == (commitOk || !config.countSuccess)
      ensures history == old(history) + if commitOk then SuccessSteps(config, id, request, body) else []
      ensures commitOk && config.estimateCredits && !request.isGet ==>
                && |history| > |old(history)|
                && history[|old(history)|] == Edit(id, Deduct(Pricing.Taken(request.path, body)))
      ensures client.dailyUsage ==
              old(client.dailyUsage) + if ok && config.countSuccess && client.dailyQuota.Some? then 1 else 0
    {
      ok := commitOk || !config.countSuccess;
      if !commitOk {
        return;
      }
      if config.estimateCredits && !request.isGet {
        Commit(Edit(id, Deduct(Pricing.Taken(request.path, body))));
      }
      if config.countSuccess {
        if client.dailyQuota.Some? {
          client.dailyUsage := client.dailyUsage + 1;
        }
        Commit(Edit(id, Consume));
      }
      Regroup(old(history), if config.estimateCredits && !request.isGet
                            then [Edit(id, Deduct(Pricing.Taken(request.path, body)))] else [],
              if config.countSuccess then [Edit(id, Consume)] else []);
    }

    /** The write that a 429, 401, 403 or 5xx response causes. */
    method Penalize(id: int, status: int, retryAfter: Option<nat>, now: int)
      requires Consistent()
      modifies this`keys, this`history, this`failures, this`recorded
      ensures Consistent()
      ensures history == old(history) +
                if status == 429 then [Edit(id, MarkCooling(now, CooldownFor(config, retryAfter)))]
                else if status == 401 || status == 403 then [Edit(id, Disable)]
                else FailureSteps(config, old(keys), old(failures), id, now)
      ensures recorded == old(recorded) + if status == 429 || status == 401 || status == 403 then []
                                          else FailuresOf(old(keys), id, now)
    {
      if status == 429 {
        Commit(Edit(id, MarkCooling(now, CooldownFor(config, retryAfter))));
      } else if status == 401 || status == 403 {
        Commit(Edit(id, Disable));
      } else {
        RecordFailure(id, now);
      }
    }

    /** The pool loop's reaction to a response; `lastAttempt` says that no send is left. */
    method React(client: ClientAccount, id: int, tick: Tick, retryCount: nat, lastAttempt: bool)
      returns (done: Option<Result>, retryCount': nat)
      requires Consistent() && tick.upstream.Resp?
      modifies this`keys, this`history, this`failures, this`recorded, client`dailyUsage
      ensures Consistent()
      ensures history == old(history) + ReactionSteps(config, old(keys), old(failures), id, tick)
      ensures recorded == old(recorded) + if tick.upstream.Resp? && tick.upstream.status >= 500
                                          then FailuresOf(old(keys), id, tick.m.now) else []
      ensures done == Reaction(config, tick, id, retryCount, Retryable(tick.upstream), lastAttempt)
      ensures done.None? ==> retryCount' == retryCount + 1
      ensures client.dailyUsage == old(client.dailyUsage) + ChargeOf(done, client.dailyQuota, config.countSuccess)
    {
      done, retryCount' := None, retryCount;
      var status := tick.upstream.status;
      if status == 429 || status == 401 || status == 403 || status >= 500 {
        Penalize(id, status, tick.upstream.retryAfter, tick.m.now);
        retryCount' := retryCount' + 1;
        if lastAttempt {
          done := Some(Response(status, id, retryCount' - 1));
        }
        return;
      }
      if Succeeded(status) {
        var ok := CountSuccess(client, id, tick.request, tick.upstream.body, tick.commitOk);
        if !ok {
          return Some(Raised(DbUnavailable)), retryCount';
        }
      }
      done := Some(Response(status, id, retryCount'));
    }

    /** Others' steps, a selection, and others' steps again before its request. */
    method PickKey(client: int, provider: string, tick: Tick)
      returns (selection: KeyPool.Selection, pick: Option<Send>)
      requires Valid()
      modifies pool, this`keys, this`history, this`selected
      ensures Valid() && old(history) <= history && FromTick(history[|old(history)|..], tick)
      ensures selection == SelectedFrom(Replay(old(history) + tick.others), client, provider, tick.m,
                                        old(pool.Index(KeyPool.ScopeName(Some(client), provider))))
      ensures PickFits(selection, Replay(old(history) + tick.others), pick)
      ensures pick.Some? ==>
                && PoolSend(pick.value, history, client, provider) && |old(history)| <= pick.value.at
                && Between(pick.value, history) == tick.meanwhile && pick.value.sentAt == |history|
                && pick.value.tick == tick
      ensures selected == old(selected) + [ErrorOf(selection)]
    {
      CommitAll(tick.others);
      var first;
      ghost var mine;
      selection, first, mine := TakeKey(client, provider, tick);
      TickAdds(old(history), tick, mine);
      pick := first;
      if first.Some? {
        ghost var before := history;
        RequestLater(first.value, before, tick.meanwhile, client, provider);
        CommitAll(tick.meanwhile);
        MeanwhileAdds(old(history), before, tick);
        pick := Some(first.value.(sentAt := |history|));
      }
    }

    /** A selection on the table as it stands. */
    method TakeKey(client: int, provider: string, tick: Tick)
      returns (selection: KeyPool.Selection, pick: Option<Send>, ghost mine: seq<Step>)
      requires Consistent()
      modifies pool, this`keys, this`history, this`selected
      ensures Consistent() && history == old(history) + mine && OwnWrites(mine)
      ensures selection == SelectedFrom(old(keys), client, provider, tick.m,
                                        old(pool.Index(KeyPool.ScopeName(Some(client), provider))))
      ensures PickFits(selection, old(keys), pick)
      ensures pick.None? || PoolSend(pick.value, history, client, provider)
      ensures pick.Some? ==> pick.value.at == |old(history)| && pick.value.tick == tick
                             && pick.value.sentAt == pick.value.at + 1 == |history|
      ensures selected == old(selected) + [ErrorOf(selection)]
    {
      pick, mine := None, [];
      var keys', visited;
      selection, keys', visited := pool.Select(keys, Some(client), provider, tick.m);
      selected := selected + [ErrorOf(selection)];
      if selection.Refused? {
        return;
      }
      pick, mine := Some(Send(keys[selection.pos], tick, |history|, |history| + 1, [])), [Select(visited, tick.m)];
      FreshPick(history, Select(visited, tick.m), selection.pos, tick, client, provider);
      Commit(Select(visited, tick.m));
    }

    /** One turn of the pool loop: a selection, others' steps, an attempt, and the reaction to its outcome. */
    method PoolTurn(client: ClientAccount, provider: string, tick: Tick, sent: nat, retryCount: nat, decryptSeen: bool)
      returns (done: Option<Result>, send: Option<Send>, retryCount': nat, decryptSeen': bool,
               ghost selection: KeyPool.Selection, ghost pick: Option<Send>, ghost a: Option<Attempt>)
      requires Valid() && sent < TotalAttempts(config)
      modifies pool, limiter, leases, this`keys, this`history, this`failures, this`recorded, client`dailyUsage
      modifies this`selected, this`trail, this`requests
      ensures Valid() && leases.live == old(leases.live)
      ensures old(history) <= history && FromTick(history[|old(history)|..], tick)
      ensures selection == SelectedFrom(Replay(old(history) + tick.others), client.id, provider, tick.m,
                                        old(pool.Index(KeyPool.ScopeName(Some(client.id), provider))))
      ensures PickFits(selection, Replay(old(history) + tick.others), pick)
      ensures a == if pick.None? then None
                   else Some(Tried(old(limiter.buckets), old(leases.live), pick.value.row, tick))
      ensures send.Some? <==> a.Some? && a.value.Sent?
      ensures send.Some? ==> send.value == pick.value.(writes := send.value.writes) && send.value.tick == tick
      ensures send.Some? ==> PoolSend(send.value, history, client.id, provider) && |old(history)| <= send.value.at
                             && Between(send.value, history) == tick.meanwhile && Reacted(send.value, history, config)
      ensures done == TurnEnd(config, ErrorOf(selection), send, tick, retryCount, sent + 1 >= TotalAttempts(config),
                              decryptSeen)
      ensures send.Some? ==> (done.None? <==> KeyAtFault(send.value) && sent < config.maxRetries)
      ensures selection.Refused? ==> a.None?
      ensures done.None? ==> retryCount' == retryCount + 1
      ensures decryptSeen' == (decryptSeen || a == Some(Undecryptable))
      ensures client.dailyUsage == old(client.dailyUsage) + ChargeOf(done, client.dailyQuota, config.countSuccess)
      ensures selected == old(selected) + [ErrorOf(selection)]
      ensures trail == old(trail) + if a.Some? then [a.value] else []
      ensures requests == old(requests) + if send.Some? then [send.value.row.id] else []
    {
      done, send, retryCount', decryptSeen' := None, None, retryCount, decryptSeen;
      var picking, picked;
      picking, picked := PickKey(client.id, provider, tick);
      selection, pick, a := picking, picked, None;
      if picking.Refused? {
        done := Some(Raised(Surfaced(picking.error, decryptSeen)));
        return;
      }
      ghost var before, writes := history, [];
      a := Some(Tried(limiter.buckets, leases.live, picked.value.row, tick));
      done, send, retryCount', decryptSeen',
      writes := UseKey(client, picked.value, tick, sent, retryCount, decryptSeen);
      PoolSendStays(picked.value, before, history, client.id, provider);
      WritesAdd(old(history), before, writes, tick);
    }

    /** The attempt on a picked key and the reaction to it. */
    method UseKey(client: ClientAccount, pick: Send, tick: Tick, sent: nat, retryCount: nat, decryptSeen: bool)
      returns (done: Option<Result>, send: Option<Send>, retryCount': nat, decryptSeen': bool, ghost writes: seq<Step>)
      requires Valid() && pick.sentAt == |history| && pick.tick == tick
      modifies limiter, leases, this`keys, this`history, this`failures, this`recorded, client`dailyUsage
      modifies this`trail, this`requests
      ensures Valid() && leases.live == old(leases.live)
      ensures send == if Tried(old(limiter.buckets), old(leases.live), pick.row, tick).Sent?
                      then Some(pick.(writes := writes)) else None
      ensures send.None? || Reacted(send.value, history, config)
      ensures send.Some? ==> (done.None? <==> KeyAtFault(send.value) && sent < config.maxRetries)
      ensures decryptSeen' == (decryptSeen
                               || Tried(old(limiter.buckets), old(leases.live), pick.row, tick).Undecryptable?)
      ensures done == if send.None? then None
                      else Reaction(config, tick, pick.row.id, retryCount, Retryable(tick.upstream),
                                    sent + 1 >= TotalAttempts(config))
      ensures done.None? ==> retryCount' == retryCount + 1
      ensures history == old(history) + writes && OwnWrites(writes)
      ensures writes == TurnSteps(config, old(keys), old(failures), pick.row.id, tick,
                                  Tried(old(limiter.buckets), old(leases.live), pick.row, tick))
      ensures client.dailyUsage == old(client.dailyUsage) + ChargeOf(done, client.dailyQuota, config.countSuccess)
      ensures requests == old(requests) + if send.Some? then [pick.row.id] else []
      ensures trail == old(trail) + [Tried(old(limiter.buckets), old(leases.live), pick.row, tick)]
    {
      done, send, retryCount', decryptSeen' := None, None, retryCount + 1, decryptSeen;
      var a;
      a, writes := TrySend(pick.row, tick);
      TurnStepsMean(config, old(keys), old(failures), pick.row.id, tick, a);
      if a.Undecryptable? {
        decryptSeen' := true;
      }
      if a.Sent? {
        assert tick.upstream.Resp? ==> writes == [] && history == old(history) && recorded == old(recorded);
        writes := TurnSteps(config, old(keys), old(failures), pick.row.id, tick, a);
        done, retryCount' := AfterSend(client, pick.row.id, tick, retryCount, sent + 1 >= TotalAttempts(config));
        WritesNoted(config, old(keys), old(failures), pick, old(history), history, writes);
        send := Some(pick.(writes := history[pick.sentAt..]));
      }
    }

    /** What follows a request of the pool loop. */
    method AfterSend(client: ClientAccount, id: int, tick: Tick, retryCount: nat, lastAttempt: bool)
      returns (done: Option<Result>, retryCount': nat)
      requires Valid()
      modifies this`keys, this`history, this`failures, this`recorded, client`dailyUsage
      ensures Valid() && leases.live == old(leases.live)
      ensures history == old(history) + if tick.upstream.Resp?
                                        then ReactionSteps(config, old(keys), old(failures), id, tick) else []
      ensures recorded == old(recorded) + if tick.upstream.Resp? && tick.upstream.status >= 500
                                          then FailuresOf(old(keys), id, tick.m.now) else []
      ensures done == Reaction(config, tick, id, retryCount, Retryable(tick.upstream), lastAttempt)
      ensures done.None? ==> retryCount' == retryCount + 1
      ensures client.dailyUsage == old(client.dailyUsage) + ChargeOf(done, client.dailyQuota, config.countSuccess)
    {
      done, retryCount' := None, retryCount;
      match tick.upstream {
        case Crash =>
          done := Some(Raised(Unexpected));
        case Timeout =>
          retryCount' := retryCount + 1;
          done := if lastAttempt then Some(Raised(UpstreamTimeout)) else None;
        case HttpError =>
          retryCount' := retryCount + 1;
          done := if lastAttempt then Some(Raised(UpstreamUnavailable)) else None;
        case Resp(_, _, _) =>
          done, retryCount' := React(client, id, tick, retryCount, lastAttempt);
      }
    }

    /** A turn of the pool loop, after `selections` earlier ones of which `sends` reached upstream. */
    method PoolStep(client: ClientAccount, provider: string, world: nat -> Tick, sends: seq<Send>, selections: nat,
                    retryCount: nat, decryptSeen: bool, ghost start: seq<Step>, ghost trail0: nat,
                    ghost requests0: seq<int>)
      returns (done: Option<Result>, sends': seq<Send>, retryCount': nat, decryptSeen': bool)
      requires Valid() && start <= history && |sends| < TotalAttempts(config) && retryCount == selections
      requires Accounted(|start|, history, world, selections)
      requires PoolSends(sends, history, client.id, provider, |start|, world, selections)
      requires trail0 <= |trail| && decryptSeen == Missed(trail, trail0)
      requires requests == requests0 + KeysOf(sends) && MovedOn(sends) && AllReacted(sends, history, config)
      modifies pool, limiter, leases, this`keys, this`history, this`failures, this`recorded, client`dailyUsage
      modifies this`selected, this`trail, this`requests
      ensures Valid() && leases.live == old(leases.live)
      ensures Accounted(|start|, history, world, selections + 1) && start <= history
      ensures PoolSends(sends', history, client.id, provider, |start|, world, selections + 1)
              && |sends'| <= TotalAttempts(config)
      ensures AllReacted(sends', history, config)
      ensures done.Some? || (MovedOn(sends') && |sends'| < TotalAttempts(config) && retryCount' == selections + 1)
      ensures done.None? || PoolEnd(config, done.value, sends', selections + 1, world, selected, trail, trail0)
      ensures done.None? || PoolRetries(done.value, sends')
      ensures trail0 <= |trail| && decryptSeen' == Missed(trail, trail0)
      ensures client.dailyUsage == old(client.dailyUsage) + ChargeOf(done, client.dailyQuota, config.countSuccess)
      ensures |selected| == |old(selected)| + 1
      ensures requests == requests0 + KeysOf(sends')
    {
      ghost var before := history;
      var send;
      ghost var selection, pick, a;
      done, send, retryCount', decryptSeen', selection, pick, a :=
        PoolTurn(client, provider, world(selections), |sends|, retryCount, decryptSeen);
      TurnAccounted(|start|, before, history, world, selections);
      SendsGrow(sends, send, before, history, client.id, provider, |start|, world, selections);
      ReactionsGrow(sends, send, before, history, config);
      TurnEnds(config, done, ErrorOf(selection), a, sends, send, selections, world, decryptSeen, old(selected),
               old(trail), trail0);
      sends' := sends;
      if send.Some? {
        KeysOfMore(requests0, sends, send.value);
        sends' := sends + [send.value];
      }
    }

    /**
     * The pool loop. It ends by a turn that finishes, or with the selection budget spent; `selections` counts
     * the turns taken and `sends` lists the upstream requests.
     */
    method PoolLoop(client: ClientAccount, provider: string, world: nat -> Tick)
      returns (done: Option<Result>, sends: seq<Send>, selections: nat)
      requires Valid()
      modifies pool, limiter, leases, this`keys, this`history, this`failures, this`recorded, client`dailyUsage
      modifies this`selected, this`trail, this`requests
      ensures Valid() && leases.live == old(leases.live)
      ensures Accounted(|old(history)|, history, world, selections) && old(history) <= history
      ensures PoolSends(sends, history, client.id, provider, |old(history)|, world, selections)
      ensures AllReacted(sends, history, config)
      ensures |sends| <= TotalAttempts(config) && 0 < selections <= SelectionBudget(config)
      ensures done.Some? || (|sends| < TotalAttempts(config) && selections == SelectionBudget(config) && MovedOn(sends))
      ensures done.None? || PoolEnd(config, done.value, sends, selections, world, selected, trail, |old(trail)|)
      ensures done.None? || PoolRetries(done.value, sends)
      ensures client.dailyUsage == old(client.dailyUsage) + ChargeOf(done, client.dailyQuota, config.countSuccess)
      ensures |selected| == |old(selected)| + selections && requests == old(requests) + KeysOf(sends)
    {
      ghost var start, trail0, requests0 := history, |trail|, requests;
      done, sends, selections := None, [], 0;
      var retryCount, decryptSeen := 0, false;
      assert requests == requests + KeysOf(sends);
      while done.None? && |sends| < TotalAttempts(config) && selections < SelectionBudget(config)
        invariant Valid() && leases.live == old(leases.live)
        invariant Accounted(|start|, history, world, selections) && start <= history
        invariant PoolSends(sends, history, client.id, provider, |start|, world, selections)
        invariant AllReacted(sends, history, config)
        invariant |sends| <= TotalAttempts(config) && selections <= SelectionBudget(config)
        invariant done.Some? || (|sends| < TotalAttempts(config) && retryCount == selections && MovedOn(sends))
        invariant done.None? || PoolEnd(config, done.value, sends, selections, world, selected, trail, trail0)
        invariant done.None? || (selections > 0 && PoolRetries(done.value, sends))
        invariant |selected| == |old(selected)| + selections && requests == requests0 + KeysOf(sends)
        invariant trail0 <= |trail| && decryptSeen == Missed(trail, trail0)
        invariant client.dailyUsage == old(client.dailyUsage) + ChargeOf(done, client.dailyQuota, config.countSuccess)
        decreases SelectionBudget(config) - selections
      {
        done, sends, retryCount, decryptSeen :=
          PoolStep(client, provider, world, sends, selections, retryCount, decryptSeen, start, trail0, requests0);
        selections := selections + 1;
      }
    }

    /** The pool loop and the two errors after it. */
    method PoolForward(client: ClientAccount, provider: string, world: nat -> Tick)
      returns (r: Result, sends: seq<Send>, selections: nat)
      requires Valid()
      modifies pool, limiter, leases, this`keys, this`history, this`failures, this`recorded, client`dailyUsage
      modifies this`selected, this`trail, this`requests, this`outcomes
      ensures Valid() && leases.live == old(leases.live)
      ensures old(history) <= history
              && PoolCall(config, r, sends, client.id, provider, old(history), history, world, selections, selected,
                          trail, |old(trail)|)
      ensures client.dailyUsage == old(client.dailyUsage) + UsageOf(r, client.dailyQuota, config.countSuccess)
      ensures |selected| == |old(selected)| + selections && requests == old(requests) + KeysOf(sends)
      ensures outcomes == old(outcomes) + [r]
    {
      var done;
      done, sends, selections := PoolLoop(client, provider, world);
      if done.Some? {
        r := done.value;
      } else {
        r := Raised(if |sends| == 0 then AllKeysBusy(None) else UpstreamUnavailable);
        SelectionsRanOut(config, sends, world, selected, trail, |old(trail)|);
      }
      outcomes := outcomes + [r];
    }

    /** One attempt of the pinned loop; `done` is None when the loop goes on to its next attempt. */
    method PinnedTurn(client: ClientAccount, row: ApiKey, tick: Tick, attempt: nat)
      returns (done: Option<Result>, sent: bool, ghost writes: seq<Step>)
      requires Valid()
      modifies limiter, leases, this`keys, this`history, this`failures, this`recorded, client`dailyUsage
      modifies this`trail, this`requests
      ensures Valid() && leases.live == old(leases.live)
      ensures sent == Tried(old(limiter.buckets), old(leases.live), row, tick).Sent?
      ensures done == PinnedEnd(config, Tried(old(limiter.buckets), old(leases.live), row, tick), tick, row.id, attempt)
      ensures history == old(history) + writes
      ensures writes == TurnSteps(config, old(keys), old(failures), row.id, tick,
                                  Tried(old(limiter.buckets), old(leases.live), row, tick))
      ensures client.dailyUsage == old(client.dailyUsage) + ChargeOf(done, client.dailyQuota, config.countSuccess)
      ensures requests == old(requests) + if sent then [row.id] else []
      ensures trail == old(trail) + [Tried(old(limiter.buckets), old(leases.live), row, tick)]
    {
      var a;
      a, writes := TrySend(row, tick);
      sent := a.Sent?;
      match a {
        case Limited(retryAfter) => return Some(Raised(AllKeysBusy(Some(retryAfter)))), sent, writes;
        case Busy => return Some(Raised(AllKeysBusy(None))), sent, writes;
        case Undecryptable => return Some(Raised(KeyDecryptFailed)), sent, writes;
        case Sent(_) =>
      }
      assert tick.upstream.Resp? ==> writes == [] && history == old(history) && recorded == old(recorded);
      writes := TurnSteps(config, old(keys), old(failures), row.id, tick, a);
      done := PinnedAfterSend(client, row.id, tick, attempt);
    }

    /** What follows a request of the pinned loop: only timeouts, HTTP errors and 5xx are tried again. */
    method PinnedAfterSend(client: ClientAccount, id: int, tick: Tick, attempt: nat) returns (done: Option<Result>)
      requires Consistent()
      modifies this`keys, this`history, this`failures, this`recorded, client`dailyUsage
      ensures Consistent()
      ensures history == old(history) + if tick.upstream.Resp?
                                        then ReactionSteps(config, old(keys), old(failures), id, tick) else []
      ensures recorded == old(recorded) + if tick.upstream.Resp? && tick.upstream.status >= 500
                                          then FailuresOf(old(keys), id, tick.m.now) else []
      ensures done == Reaction(config, tick, id, attempt, RetryableOnPin(tick.upstream),
                               attempt + 1 >= TotalAttempts(config))
      ensures client.dailyUsage == old(client.dailyUsage) + ChargeOf(done, client.dailyQuota, config.countSuccess)
    {
      var last := attempt >= TotalAttempts(config) - 1;
      match tick.upstream {
        case Crash => done := Some(Raised(Unexpected));
        case Timeout => done := if last then Some(Raised(UpstreamTimeout)) else None;
        case HttpError => done := if last then Some(Raised(UpstreamUnavailable)) else None;
        case Resp(status, retryAfter, body) =>
          done := Some(Response(status, id, attempt));
          if status == 429 || status == 401 || status == 403 || status >= 500 {
            Penalize(id, status, retryAfter, tick.m.now);
            if status >= 500 && !last {
              done := None;
            }
          } else if Succeeded(status) {
            var ok := CountSuccess(client, id, tick.request, body, tick.commitOk);
            if !ok {
              done := Some(Raised(DbUnavailable));
            }
          }
      }
    }

    /** A turn of the pinned loop: others' steps first, then the attempt on the row as it was looked up. */
    method PinnedAttempt(client: ClientAccount, row: ApiKey, world: nat -> Tick, attempt: nat, ghost start: seq<Step>)
      returns (done: Option<Result>, sent: bool, at: nat, ghost n: nat, ghost last: Attempt)
      requires Valid() && attempt < TotalAttempts(config) && start <= history
      requires Accounted(|start|, history, world, attempt) && LeftByOthers(keys, start, world, attempt)
      modifies limiter, leases, this`keys, this`history, this`failures, this`recorded, client`dailyUsage
      modifies this`trail, this`requests
      ensures Valid() && leases.live == old(leases.live)
      ensures old(history) <= history && Accounted(|start|, history, world, attempt + 1)
      ensures |start| <= at <= |history| && LeftByOthers(Replay(history[..at]), start, world, attempt + 1)
      ensures done.None? ==> sent && attempt + 1 < TotalAttempts(config) && !world(attempt).upstream.Crash?
                             && (world(attempt).upstream.Resp? ==> world(attempt).upstream.status >= 500)
      ensures sent ==> Reacted(Send(row, world(attempt), |start|, at, history[at..]), history, config)
      ensures done.None? || NotFound(done.value) ==> sent && LeftByOthers(keys, start, world, attempt + 1)
      ensures trail == old(trail) + [last] && (sent <==> last.Sent?)
      ensures n == (if sent then attempt + 1 else attempt)
      ensures done.Some? ==> PinnedDone(config, done.value, row.id, n, world, last)
      ensures client.dailyUsage == old(client.dailyUsage) + ChargeOf(done, client.dailyQuota, config.countSuccess)
      ensures requests == old(requests) + if sent then [row.id] else []
    {
      CommitAll(world(attempt).others);
      OthersLeave(old(history), start, world, attempt);
      at := |history|;
      ghost var mid, keys0, failures0 := history, keys, failures;
      ghost var a := Tried(limiter.buckets, leases.live, row, world(attempt));
      ghost var writes;
      done, sent, writes := PinnedTurn(client, row, world(attempt), attempt);
      n, last := if sent then attempt + 1 else attempt, a;
      assert history[..at] == mid;
      PinnedTurnEnds(config, keys0, failures0, a, world, row.id, attempt);
      if sent {
        WritesNoted(config, keys0, failures0, Send(row, world(attempt), |start|, at, []), mid, history, writes);
      }
      TickAdds(old(history), world(attempt), writes);
      TurnAccounted(|start|, old(history), history, world, attempt);
      if FailMarks(writes) {
        MarksKeepSkeleton(mid, writes);
      }
    }

    /** A turn of the pinned loop after `sends`, each of its earlier turns having sent. */
    method PinnedStep(client: ClientAccount, row: ApiKey, world: nat -> Tick, sends: seq<Send>, lookedUp: nat,
                      ghost start: seq<Step>, ghost requests0: seq<int>)
      returns (done: Option<Result>, sends': seq<Send>, ghost last: Attempt)
      requires Valid() && requests == requests0 + KeysOf(sends)
      requires lookedUp == |start| && PinnedOn(config, sends, row, start, history, world)
      modifies limiter, leases, this`keys, this`history, this`failures, this`recorded, client`dailyUsage
      modifies this`trail, this`requests
      ensures Valid() && leases.live == old(leases.live)
      ensures start <= history && trail != [] && trail[|trail| - 1] == last
      ensures done.Some? || |sends'| == |sends| + 1 < TotalAttempts(config)
      ensures done.Some? || PinnedOn(config, sends', row, start, history, world)
      ensures done.None? || PinnedCall(config, done.value, sends', row, start, history, world, |sends| + 1, last)
      ensures client.dailyUsage == old(client.dailyUsage) + ChargeOf(done, client.dailyQuota, config.countSuccess)
      ensures requests == requests0 + KeysOf(sends')
    {
      var sent, at;
      ghost var n;
      done, sent, at, n, last := PinnedAttempt(client, row, world, |sends|, start);
      var s := Send(row, world(|sends|), lookedUp, at, history[at..]);
      PinnedSendsNext(sends, sent, s, row, old(history), history, start, world, requests0);
      ReactionsGrow(sends, if sent then Some(s) else None, old(history), history, config);
      RetriesNext(sends, sent, s, done);
      sends' := if sent then sends + [s] else sends;
    }

    /**
     * The pinned loop. Every request goes to the pinned key, whatever others do to its row meanwhile, and the
     * last attempt always ends the loop, so control never reaches the pool loop below it.
     */
    method PinnedForward(client: ClientAccount, row: ApiKey, world: nat -> Tick)
      returns (r: Result, sends: seq<Send>, ghost ticks: nat, ghost last: Option<Attempt>)
      requires Valid()
      modifies limiter, leases, this`keys, this`history, this`failures, this`recorded, client`dailyUsage
      modifies this`trail, this`requests, this`outcomes
      ensures Valid() && leases.live == old(leases.live)
      ensures old(history) <= history && trail != [] && last == Some(trail[|trail| - 1])
      ensures last.None? || PinnedCall(config, r, sends, row, old(history), history, world, ticks, last.value)
      ensures client.dailyUsage == old(client.dailyUsage) + UsageOf(r, client.dailyQuota, config.countSuccess)
      ensures requests == old(requests) + KeysOf(sends) && outcomes == old(outcomes) + [r]
    {
      ghost var start, requests0 := history, requests;
      sends := [];
      var lookedUp := |history|;
      NothingYet(config, row, start, world);
      assert requests == requests + KeysOf(sends);
      // the last attempt returns, so the range of attempts is never left by its end
      while true
        invariant Valid() && leases.live == old(leases.live) && start <= history
        invariant PinnedOn(config, sends, row, start, history, world)
        invariant client.dailyUsage == old(client.dailyUsage) && requests == requests0 + KeysOf(sends)
        invariant outcomes == old(outcomes)
        decreases TotalAttempts(config) - |sends|
      {
        ghost var final, before := Busy, |sends|;
        var done;
        done, sends, final := PinnedStep(client, row, world, sends, lookedUp, start, requests0);
        if done.Some? {
          outcomes := outcomes + [done.value];
          return done.value, sends, before + 1, Some(final);
        }
      }
    }

    /**
     * app/core/forwarder.py: forward. A pin that holds at the start is served by the pinned loop alone; any other
     * pin is ignored. Every way out leaves the held leases as they were and charges the client exactly for a
     * delivered 2xx.
     */
    method Forward(client: ClientAccount, provider: string, pin: Option<int>, request: Request, world: nat -> Tick)
      returns (r: Result, sends: seq<Send>, selections: nat, ghost ticks: nat, ghost last: Option<Attempt>)
      requires Valid()
      modifies pool, limiter, leases, this`keys, this`history, this`failures, this`recorded, client`dailyUsage
      modifies this`selected, this`trail, this`requests, this`outcomes
      ensures Valid() && leases.live == old(leases.live) && old(history) <= history
      ensures outcomes == old(outcomes) + [r]
      ensures client.dailyUsage == old(client.dailyUsage)
                                   + if r.Response? && 200 <= r.status <= 299 && client.dailyQuota.Some?
                                        && config.countSuccess then 1 else 0
      ensures |selected| == |old(selected)| + selections && requests == old(requests) + KeysOf(sends)
      ensures last.Some? <==> pin.Some? && PinHolds(old(keys), pin.value, client.id, provider)
      ensures last.Some? ==> selections == 0 && selected == old(selected) && trail != []
                             && last.value == trail[|trail| - 1]
      ensures last.None? || PinnedCall(config, r, sends, Find(old(keys), pin.value).value, old(history), history,
                                       Serving(world, request), ticks, last.value)
      ensures last.Some? || PoolCall(config, r, sends, client.id, provider, old(history), history,
                                     Serving(world, request), ticks, selected, trail, |old(trail)|)
      ensures last.Some? || selections == ticks
    {
      if pin.Some? && PinHolds(keys, pin.value, client.id, provider) {
        r, sends, ticks, last := PinnedForward(client, Find(keys, pin.value).value, Serving(world, request));
        selections := 0;
      } else {
        r, sends, selections := PoolForward(client, provider, Serving(world, request));
        ticks, last := selections, None;
      }
    }
  }

  lemma {:induction false} FindEdited(keys: Table, edited: int, w: Write, id: int)
    ensures var k := Find(keys, id);
            Find(MapRow(keys, edited, w), id) ==
            if k.Some? && id == edited then Some(Written(k.value, w)) else k
    decreases |keys|
  {
    if keys != [] {
      var n, keys' := |keys| - 1, MapRow(keys, edited, w);
      IdKept(keys[n], w);
      assert keys'[n].id == keys[n].id && keys'[..n] == MapRow(keys[..n], edited, w);
      if keys[n].id != id {
        FindEdited(keys[..n], edited, w, id);
        assert Find(keys, id) == Find(keys[..n], id) && Find(keys', id) == Find(keys'[..n], id);
      }
    }
  }

  lemma {:induction false} IdKept(k: ApiKey, w: Write)
    ensures Written(k, w).id == k.id
  {
    WriteMeans(k, w);
  }

  lemma {:induction false} FindIsUnique(keys: Table, id: int, i: nat)
    requires Sorted(keys) && i < |keys| && keys[i].id == id
    ensures Find(keys, id) == Some(keys[i])
  {
    var j :| 0 <= j < |keys| && keys[j] == Find(keys, id).value;
  }

  /**
   * A pin is honoured exactly if the row with its id is the client's own, active and of the provider, and a failure is
   * recorded exactly for a key that exists and is on.
   */
  lemma {:induction false} EnabledMeans(steps: seq<Step>, id: int, client: int, provider: string, now: int)
    ensures PinHolds(Replay(steps), id, client, provider) <==>
              exists k :: k in Replay(steps) && k.id == id && k.client == Some(client) && k.provider == provider
                          && k.isActive
    ensures FailuresOf(Replay(steps), id, now)
            == if ActiveIn(Replay(steps), id) then [Breaker.Failure(id, now)] else []
  {
    var keys := Replay(steps);
    DisabledMeansInactive(steps);
    forall i | 0 <= i < |keys| && keys[i].id == id
      ensures Find(keys, id) == Some(keys[i])
    {
      FindIsUnique(keys, id, i);
    }
  }

  // ---------------------------------------------------------------------------
  // What a request meets
  // ---------------------------------------------------------------------------

  /** Everyone else's steps of the first `n` ticks, in order. */
  function OthersOf(world: nat -> Tick, n: nat): seq<Step> {
    if n == 0 then [] else OthersOf(world, n - 1) + world(n - 1).others
  }

  /** As to ownership and activity, the table is what others' steps of the first `n` ticks made of the starting one. */
  ghost predicate LeftByOthers(keys: Table, start: seq<Step>, world: nat -> Tick, n: nat) {
    Skeleton(keys) == Skeleton(Replay(start + OthersOf(world, n)))
  }

  lemma {:induction false} NothingYet(config: Config, row: ApiKey, start: seq<Step>, world: nat -> Tick)
    ensures PinnedOn(config, [], row, start, start, world)
  {
    assert start + [] == start;
  }

  lemma {:induction false} OthersLeave(h: seq<Step>, start: seq<Step>, world: nat -> Tick, n: nat)
    requires LeftByOthers(Replay(h), start, world, n)
    ensures LeftByOthers(Replay(h + world(n).others), start, world, n + 1)
  {
    SkeletonAfterAll(h, start + OthersOf(world, n), world(n).others);
    Regroup(start, OthersOf(world, n), world(n).others);
  }

  /** Marking keys failed changes neither ownership nor activity. */
  lemma {:induction false} MarksKeepSkeleton(before: seq<Step>, marks: seq<Step>)
    requires FailMarks(marks)
    ensures Skeleton(Replay(before + marks)) == Skeleton(Replay(before))
    decreases |marks|
  {
    if marks == [] {
      assert before + marks == before;
    } else {
      var n := |marks| - 1;
      MarksKeepSkeleton(before, marks[..n]);
      assert before + marks == (before + marks[..n]) + [marks[n]];
      ReplaySnoc(before + marks[..n], marks[n]);
      MarkKeepsSkeleton(Replay(before + marks[..n]), marks[n]);
    }
  }

  lemma {:induction false} MarkKeepsSkeleton(keys: Table, mark: Step)
    requires mark.Edit? && mark.w.MarkFailed?
    ensures Skeleton(Apply(keys, mark)) == Skeleton(keys)
  {
    SkeletonAt(Apply(keys, mark), keys);
  }

  /**
   * The requests of a pinned call: each carries the row as it was looked up, and the i-th is made on a table that
   * others' steps of the first i + 1 ticks have left behind.
   */
  ghost predicate PinnedSends(sends: seq<Send>, row: ApiKey, history: seq<Step>, start: seq<Step>, world: nat -> Tick) {
    && start <= history
    && forall i :: 0 <= i < |sends| ==>
         && sends[i].row == row && sends[i].tick == world(i) && sends[i].at == |start| <= sends[i].sentAt <= |history|
         && LeftByOthers(Replay(history[..sends[i].sentAt]), start, world, i + 1)
  }

  lemma {:induction false} PinnedSendsStay(sends: seq<Send>, row: ApiKey, h: seq<Step>, h': seq<Step>, start: seq<Step>,
                                           world: nat -> Tick)
    requires PinnedSends(sends, row, h, start, world) && h <= h'
    ensures PinnedSends(sends, row, h', start, world)
  {
    forall i | 0 <= i < |sends|
      ensures LeftByOthers(Replay(h'[..sends[i].sentAt]), start, world, i + 1)
    {
      assert h'[..sends[i].sentAt] == h[..sends[i].sentAt];
    }
  }

  lemma {:induction false} PinnedSendsGrow(sends: seq<Send>, s: Send, row: ApiKey, h: seq<Step>, h': seq<Step>,
                                           start: seq<Step>, world: nat -> Tick)
    requires PinnedSends(sends, row, h, start, world) && h <= h'
    requires s.row == row && s.tick == world(|sends|) && s.at == |start| <= s.sentAt <= |h'|
    requires LeftByOthers(Replay(h'[..s.sentAt]), start, world, |sends| + 1)
    ensures PinnedSends(sends + [s], row, h', start, world)
  {
    PinnedSendsStay(sends, row, h, h', start, world);
  }

  lemma {:induction false} PinnedSendsNext(sends: seq<Send>, sent: bool, s: Send, row: ApiKey, h: seq<Step>,
                                           h': seq<Step>,
                                           start: seq<Step>, world: nat -> Tick, requests0: seq<int>)
    requires PinnedSends(sends, row, h, start, world) && h <= h'
    requires s.row == row && s.tick == world(|sends|) && s.at == |start| <= s.sentAt <= |h'|
    requires LeftByOthers(Replay(h'[..s.sentAt]), start, world, |sends| + 1)
    ensures var sends' := if sent then sends + [s] else sends;
            && PinnedSends(sends', row, h', start, world)
            && requests0 + KeysOf(sends') == requests0 + KeysOf(sends) + if sent then [row.id] else []
  {
    if sent {
      KeysOfMore(requests0, sends, s);
      PinnedSendsGrow(sends, s, row, h, h', start, world);
    } else {
      PinnedSendsStay(sends, row, h, h', start, world);
    }
  }

  /**
   * A pinned request meets a key that is switched off or gone exactly when others' steps of this call have left it
   * so: the call's own marks never do, and the check at the start does not prevent it.
   */
  lemma {:induction false} PinnedMeetsDormantExactly(sends: seq<Send>, i: nat, history: seq<Step>, start: seq<Step>,
                                                     world: nat -> Tick, row: ApiKey)
    requires PinnedSends(sends, row, history, start, world) && i < |sends|
    ensures !ActiveIn(Replay(history[..sends[i].sentAt]), row.id)
            <==> !ActiveIn(Replay(start + OthersOf(world, i + 1)), row.id)
  {
    ActiveBySkeleton(Replay(history[..sends[i].sentAt]), Replay(start + OthersOf(world, i + 1)), row.id);
  }

  /** In particular not unless one of those steps switches it off or purges it. */
  lemma {:induction false} PinnedMeetsActive(sends: seq<Send>, i: nat, history: seq<Step>, start: seq<Step>,
                                             world: nat -> Tick, row: ApiKey)
    requires PinnedSends(sends, row, history, start, world) && i < |sends| && ActiveIn(Replay(start), row.id)
    requires forall step :: step in OthersOf(world, i + 1) ==> !SwitchesOff(step, row.id) && step != Purge(row.id)
    ensures ActiveIn(Replay(history[..sends[i].sentAt]), row.id)
  {
    ActiveUntilSwitchedOff(start, OthersOf(world, i + 1), row.id);
    PinnedMeetsDormantExactly(sends, i, history, start, world, row);
  }

  /**
   * It does happen: a key that is active at the lookup, a first request that times out, and someone disabling the
   * key before the second. The loop goes on, and the second request is sent on the disabled key.
   */
  lemma {:induction false} SwitchedOffBetweenAttempts(config: Config, m: KeyPool.Moment)
    requires config.maxRetries >= 1 && config.failureThreshold > 1 && config.failureWindowSeconds >= 0
    ensures var (draft, first) := (UnlimitedDraft(),
                                   Tick(Request("/v2/scrape", true), m, 0.0, [], [], true, Timeout, true));
            var second := first.(others := [Edit(1, Disable)]);
            var (start, row) := ([Create(draft)], NewRow(1, draft));
            && Replay(start) == [row] && PinHolds([row], 1, 1, "firecrawl")
            // the first attempt is sent, writes nothing, and the loop goes on
            && Tried(map[], {}, row, first) == Sent(Timeout)
            && TurnSteps(config, [row], map[], 1, first, Sent(Timeout)) == []
            && PinnedEnd(config, Sent(Timeout), first, 1, 0) == None
            // the second is sent as well, on a table where the key is off
            && Dormant(Replay(start + OthersOf(n => if n == 0 then first else second, 2)), 1)
            && Tried(map[], {}, row, second) == Sent(Timeout)
  {
    var draft := UnlimitedDraft();
    var first := Tick(Request("/v2/scrape", true), m, 0.0, [], [], true, Timeout, true);
    var second := first.(others := [Edit(1, Disable)]);
    var row := NewRow(1, draft);
    OneKey(draft);
    assert OthersOf(n => if n == 0 then first else second, 1) == [];
    assert OthersOf(n => if n == 0 then first else second, 2) == [Edit(1, Disable)];
    DisabledAfter(draft);
    NoMarkYet(config, row, m.now);
  }

  lemma {:induction false} OneKey(draft: Draft)
    ensures Replay([Create(draft)]) == [NewRow(1, draft)]
  {
    ReplaySnoc([], Create(draft));
    assert [] + [Create(draft)] == [Create(draft)];
    assert Apply([], Create(draft)) == [NewRow(1, draft)];
  }

  lemma {:induction false} DisabledAfter(draft: Draft)
    ensures Dormant(Replay([Create(draft)] + [Edit(1, Disable)]), 1)
  {
    var row := NewRow(1, draft);
    OneKey(draft);
    ReplaySnoc([Create(draft)], Edit(1, Disable));
    assert Apply([row], Edit(1, Disable)) == [Deleted(row)];
    assert [Deleted(row)][0].id == 1;
  }

  lemma {:induction false} NoMarkYet(config: Config, row: ApiKey, now: int)
    requires config.failureThreshold > 1 && config.failureWindowSeconds >= 0
    ensures FailureSteps(config, [row], map[], row.id, now) == []
  {
  }

  /** A key of client 1 without limits. */
  function UnlimitedDraft(): Draft {
    Draft(Some(1), "firecrawl", "s", None, None, None, true, None, 0, 0, 1)
  }

  /**
   * A request of the pool loop meets a key that is switched off or gone exactly when others' steps since its selection
   * have left it so: the selection itself, for which the key was on, never does.
   */
  lemma {:induction false} PoolMeetsDormantExactly(s: Send, history: seq<Step>, client: int, provider: string)
    requires PoolSend(s, history, client, provider)
    ensures !ActiveIn(Replay(history[..s.sentAt]), s.row.id)
            <==> !ActiveIn(Replay(history[..s.at] + Between(s, history)), s.row.id)
  {
    var h, select, rest := history[..s.at], history[s.at], Between(s, history);
    assert history[..s.sentAt] == (h + [select]) + rest;
    ReplaySnoc(h, select);
    SelectKeepsSkeleton(Replay(h), select);
    SkeletonAfterAll(h + [select], h, rest);
    ActiveBySkeleton(Replay(history[..s.sentAt]), Replay(h + rest), s.row.id);
  }

  lemma {:induction false} SelectKeepsSkeleton(keys: Table, step: Step)
    requires step.Select?
    ensures Skeleton(Apply(keys, step)) == Skeleton(keys)
  {
    forall i | 0 <= i < |keys|
      ensures BoneOf(Apply(keys, step)[i]) == BoneOf(keys[i])
    {
      BoneSettled(keys[i], step.m);
    }
    SkeletonAt(Apply(keys, step), keys);
  }

  /** In particular not unless one of those steps switches it off or purges it. */
  lemma {:induction false} PoolMeetsActive(s: Send, history: seq<Step>, client: int, provider: string)
    requires PoolSend(s, history, client, provider)
    requires forall step :: step in Between(s, history) ==> !SwitchesOff(step, s.row.id) && step != Purge(s.row.id)
    ensures ActiveIn(Replay(history[..s.sentAt]), s.row.id)
  {
    KeyPool.FreeMeans(s.row, s.tick.m);
    var i :| 0 <= i < |Replay(history[..s.at])| && Replay(history[..s.at])[i] == s.row;
    ActiveUntilSwitchedOff(history[..s.at], Between(s, history), s.row.id);
    PoolMeetsDormantExactly(s, history, client, provider);
  }

  /** It does happen: a key disabled right after its selection is still used. */
  lemma {:induction false} SwitchedOffAfterSelection(m: KeyPool.Moment)
    ensures var (draft, select) := (UnlimitedDraft(), Select({0}, m));
            var tick := Tick(Request("/v2/scrape", true), m, 0.0, [], [Edit(1, Disable)], true, Timeout, true);
            var (s, history) := (Send(NewRow(1, draft), tick, 1, 3, []), [Create(draft), select, Edit(1, Disable)]);
            && PoolSend(s, history, 1, "firecrawl") && Between(s, history) == tick.meanwhile
            && Tried(map[], {}, s.row, tick) == Sent(Timeout)
            && Dormant(Replay(history[..s.sentAt]), 1)
  {
    var draft, select := UnlimitedDraft(), Select({0}, m);
    var history := [Create(draft), select, Edit(1, Disable)];
    OneKey(draft);
    assert history[..1] == [Create(draft)] && history[..3] == ([Create(draft)] + [select]) + [Edit(1, Disable)];
    assert history[2..3] == [Edit(1, Disable)];
    ReplaySnoc([Create(draft)], select);
    ReplaySnoc([Create(draft)] + [select], Edit(1, Disable));
    var keys := Apply([NewRow(1, draft)], select);
    assert |keys| == 1 && keys[0].id == 1;
    assert Apply(keys, Edit(1, Disable)) == [Deleted(keys[0])];
    assert [Deleted(keys[0])][0].id == 1;
    KeyPool.FreeMeans(NewRow(1, draft), m);
  }

  lemma {:induction false} FindBySkeleton(a: Table, b: Table, id: int)
    requires Skeleton(a) == Skeleton(b)
    ensures Find(a, id).Some? == Find(b, id).Some?
    ensures Find(a, id).Some? ==> BoneOf(Find(a, id).value) == BoneOf(Find(b, id).value)
    decreases |a|
  {
    SkeletonAt(a, b);
    if a != [] {
      var n := |a| - 1;
      SkeletonAt(a[..n], b[..n]);
      FindBySkeleton(a[..n], b[..n], id);
      assert BoneOf(a[n]) == BoneOf(b[n]);
    }
  }

  /** So is whether a pin holds, in reachable tables. */
  lemma {:induction false} PinBySkeleton(a: Table, b: Table, id: int, client: int, provider: string)
    requires Skeleton(a) == Skeleton(b) && AllSound(a) && AllSound(b)
    ensures PinHolds(a, id, client, provider) == PinHolds(b, id, client, provider)
  {
    FindBySkeleton(a, b, id);
  }

  /** After a 404 or 405, the pin still holds exactly if others' steps, in the call and after it, have left it so. */
  lemma {:induction false} PinLeftByOthers(h: seq<Step>, start: seq<Step>, world: nat -> Tick, n: nat, gap: seq<Step>,
                                           id: int, client: int, provider: string)
    requires LeftByOthers(Replay(h), start, world, n)
    ensures PinHolds(Replay(h + gap), id, client, provider)
            == PinHolds(Replay(start + OthersOf(world, n) + gap), id, client, provider)
  {
    SkeletonAfterAll(h, start + OthersOf(world, n), gap);
    DisabledMeansInactive(h + gap);
    DisabledMeansInactive(start + OthersOf(world, n) + gap);
    PinBySkeleton(Replay(h + gap), Replay(start + OthersOf(world, n) + gap), id, client, provider);
  }

  /**
   * A key that is off when a call begins stays unused: no selection picks it, unless someone else enables or
   * purges it before, and a pin to it is ignored.
   */
  lemma {:induction false} NoSendOnDormantKey(history: seq<Step>, from: nat, s: Send, client: int, provider: string,
                                              world: nat -> Tick, k: nat, id: int)
    requires from <= s.at <= |history| && Accounted(from, history, world, k)
    requires PoolSend(s, history, client, provider)
    requires Dormant(Replay(history[..from]), id)
    requires forall step :: ByOthers(step, world, k) ==> !Enables(step, id) && step != Purge(id)
    ensures s.row.id != id && !PinHolds(Replay(history[..from]), id, client, provider)
  {
    forall n | from <= n < s.at
      ensures !Enables(history[n], id) && history[n] != Purge(id)
    {
      if ByAdmin(history[n]) {
        assert ByOthers(history[n], world, k);
      }
    }
    DormantUntilEnabled(history, from, s.at, id);
    KeyPool.FreeMeans(s.row, s.tick.m);
    assert s.row in Replay(history[..s.at]) && s.row.isActive;
  }

  /** After a gentle run, every request of the pool loop has less than one second of its key's cooldown left. */
  lemma {:induction false} PoolSendHonoursCooldown(s: Send, history: seq<Step>, client: int, provider: string)
    requires PoolSend(s, history, client, provider) && Gentle(history[..s.at])
    ensures s.row.cooldownUntil.Some? ==> s.row.cooldownUntil.value - s.tick.m.now < SECOND
  {
    var i :| 0 <= i < |Replay(history[..s.at])| && Replay(history[..s.at])[i] == s.row;
    CooldownIsHonoured(history[..s.at], i);
  }

  /** A delivered response is the last request's, and names that request's key. */
  ghost predicate FromLast(r: Result, sends: seq<Send>) {
    r.Response? ==> sends != [] && r.keyId == sends[|sends| - 1].row.id
  }

  /** Requests that all used the key `id`. */
  ghost predicate AllOn(sends: seq<Send>, id: int) {
    forall i :: 0 <= i < |sends| ==> sends[i].row.id == id
  }

  lemma {:induction false} AllOnJoins(a: seq<Send>, b: seq<Send>, id: int)
    ensures AllOn(a, id) <==> AllOn((a + b)[..|a|], id)
    ensures AllOn(a, id) && AllOn(b, id) ==> AllOn(a + b, id)
  {
    assert (a + b)[..|a|] == a;
  }

  /** Requests of the pool loop, each selected after `from`, with what one of the first `n` ticks brought in between. */
  ghost predicate PoolSends(sends: seq<Send>, history: seq<Step>, client: int, provider: string, from: nat,
                            world: nat -> Tick, n: nat)
  {
    forall i :: 0 <= i < |sends| ==>
      && PoolSend(sends[i], history, client, provider) && from <= sends[i].at
      && MetIn(Between(sends[i], history), world, n)
  }

  ghost predicate MetIn(steps: seq<Step>, world: nat -> Tick, n: nat) {
    exists k :: 0 <= k < n && steps == world(k).meanwhile
  }

  /**
   * How the pool loop ends: with the response of the last request, which is a 429, 401, 403 or server error only if no
   * request is left; with an error, whose cause is the last selection or the last attempt; or after the loop, when the
   * selections ran out first. The retry count is the number of selections less one.
   */
  ghost predicate PoolEnd(config: Config, r: Result, sends: seq<Send>, selections: nat, world: nat -> Tick,
                          selected: seq<Option<KeyPool.Error>>, trail: seq<Attempt>, trail0: nat)
  {
    match r
    case Response(status, keyId, retryCount) =>
      && selections > 0 && retryCount == selections - 1
      && sends != [] && keyId == sends[|sends| - 1].row.id && LastSent(trail, trail0, world(selections - 1))
      && world(selections - 1).upstream.Resp? && status == world(selections - 1).upstream.status
      && sends[|sends| - 1].tick == world(selections - 1)
      && (status == 429 || status == 401 || status == 403 || status >= 500 ==>
            |sends| == Max(config.maxRetries, 0) + 1)
    case Raised(AllKeysBusy(hint)) =>
      hint.None? && selections == Max(20 * Max(config.maxRetries, 0) + 20, 50) && sends == []
    case Raised(UpstreamTimeout) =>
      && selections > 0 && |sends| == Max(config.maxRetries, 0) + 1
      && LastSent(trail, trail0, world(selections - 1)) && world(selections - 1).upstream.Timeout?
    case Raised(UpstreamUnavailable) =>
      || (&& selections > 0 && |sends| == Max(config.maxRetries, 0) + 1
          && LastSent(trail, trail0, world(selections - 1)) && world(selections - 1).upstream.HttpError?)
      || (selections == Max(20 * Max(config.maxRetries, 0) + 20, 50) && 0 < |sends| < Max(config.maxRetries, 0) + 1)
    case Raised(DbUnavailable) =>
      && selections > 0 && LastSent(trail, trail0, world(selections - 1)) && !world(selections - 1).commitOk
      && world(selections - 1).upstream.Resp? && 200 <= world(selections - 1).upstream.status <= 299
    case Raised(Unexpected) =>
      selections > 0 && LastSent(trail, trail0, world(selections - 1)) && world(selections - 1).upstream.Crash?
    case Raised(PoolError(e)) =>
      && selections > 0 && selected != [] && selected[|selected| - 1] == Some(e)
      && (Missed(trail, trail0) ==> e.AllKeysQuotaExceeded? || e.AllKeysCooling?)
    case Raised(KeyDecryptFailed) =>
      && selections > 0 && Missed(trail, trail0) && selected != [] && selected[|selected| - 1].Some?
      && var e := selected[|selected| - 1].value;
         e.NoKeyConfigured? || e.AllKeysDisabled? || e.NoKeyAvailable?
  }

  /**
   * Every request of the pool loop before the last had sent it to another key, and so had the last unless its answer
   * was delivered, was a 2xx that could not be counted, or crashed.
   */
  ghost predicate PoolRetries(r: Result, sends: seq<Send>) {
    && (sends != [] ==> MovedOn(sends[..|sends| - 1]))
    && (r.Raised? && !r.code.DbUnavailable? && !r.code.Unexpected? ==> MovedOn(sends))
  }

  /** The two errors after the loop. */
  lemma {:induction false} SelectionsRanOut(config: Config, sends: seq<Send>, world: nat -> Tick,
                                            selected: seq<Option<KeyPool.Error>>, trail: seq<Attempt>, trail0: nat)
    requires |sends| < TotalAttempts(config) && MovedOn(sends)
    ensures PoolEnd(config, Raised(if |sends| == 0 then AllKeysBusy(None) else UpstreamUnavailable), sends,
                    SelectionBudget(config), world, selected, trail, trail0)
    ensures PoolRetries(Raised(if |sends| == 0 then AllKeysBusy(None) else UpstreamUnavailable), sends)
  {
  }

  /**
   * A whole call of the pool loop, from `before` to `after`: every request selected, reacted to and moved on from as it
   * should, within the numbers of requests and selections, and its end.
   */
  ghost predicate PoolCall(config: Config, r: Result, sends: seq<Send>, client: int, provider: string,
                           before: seq<Step>, after: seq<Step>, world: nat -> Tick, selections: nat,
                           selected: seq<Option<KeyPool.Error>>, trail: seq<Attempt>, trail0: nat)
  {
    && Accounted(|before|, after, world, selections)
    && PoolSends(sends, after, client, provider, |before|, world, selections) && AllReacted(sends, after, config)
    && |sends| <= Max(config.maxRetries, 0) + 1 && 0 < selections <= Max(20 * Max(config.maxRetries, 0) + 20, 50)
    && PoolEnd(config, r, sends, selections, world, selected, trail, trail0) && PoolRetries(r, sends)
  }

  /** The same of the pinned loop, which took `ticks` turns and whose last attempt came to `last`. */
  ghost predicate PinnedCall(config: Config, r: Result, sends: seq<Send>, row: ApiKey, before: seq<Step>,
                             after: seq<Step>, world: nat -> Tick, ticks: nat, last: Attempt)
  {
    && Accounted(|before|, after, world, ticks)
    && PinnedSends(sends, row, after, before, world) && AllReacted(sends, after, config)
    && |sends| <= ticks <= Max(config.maxRetries, 0) + 1
    && PinnedDone(config, r, row.id, |sends|, world, last) && PinnedRetries(r, sends)
    && (NotFound(r) ==> ticks == |sends| && LeftByOthers(Replay(after), before, world, ticks))
  }

  /** A pinned call that goes on: all its turns so far made a request, and all are worth another try. */
  ghost predicate PinnedOn(config: Config, sends: seq<Send>, row: ApiKey, before: seq<Step>, now: seq<Step>,
                           world: nat -> Tick)
  {
    && before <= now && Accounted(|before|, now, world, |sends|) && LeftByOthers(Replay(now), before, world, |sends|)
    && |sends| < TotalAttempts(config)
    && PinnedSends(sends, row, now, before, world) && AllReacted(sends, now, config) && TriedAgain(sends)
  }

  /** The last attempt of the call went upstream. */
  ghost predicate LastSent(trail: seq<Attempt>, trail0: nat, tick: Tick) {
    trail0 < |trail| && trail[|trail| - 1] == Sent(tick.upstream)
  }

  /** Some key taken since `trail0` failed to decrypt. */
  ghost predicate Missed(trail: seq<Attempt>, trail0: nat) {
    trail0 <= |trail| && Undecryptable in trail[trail0..]
  }

  /**
   * How the pinned loop may end after `n` requests, the last attempt having come to `last`: an outcome worth another
   * try ends it only with none left, and each error has its one cause.
   */
  ghost predicate PinnedDone(config: Config, r: Result, id: int, n: nat, world: nat -> Tick, last: Attempt) {
    match r
    case Response(status, keyId, count) =>
      && n > 0 && keyId == id && count == n - 1 && last == Sent(world(n - 1).upstream)
      && world(n - 1).upstream.Resp? && status == world(n - 1).upstream.status
      && (status >= 500 ==> n == Max(config.maxRetries, 0) + 1)
    case Raised(UpstreamTimeout) => n == Max(config.maxRetries, 0) + 1 && last == Sent(Timeout)
    case Raised(UpstreamUnavailable) => n == Max(config.maxRetries, 0) + 1 && last == Sent(HttpError)
    case Raised(Unexpected) => last == Sent(Crash)
    case Raised(DbUnavailable) =>
      n > 0 && last.Sent? && last.upstream.Resp? && 200 <= last.upstream.status <= 299 && !world(n - 1).commitOk
    case Raised(AllKeysBusy(hint)) => if hint.Some? then last == Limited(hint.value) else last == Busy
    case Raised(KeyDecryptFailed) => last == Undecryptable
    case Raised(PoolError(_)) => false
  }

  lemma {:induction false} PinnedTurnEnds(config: Config, keys: Table, failures: Breaker.Failures, a: Attempt,
                                          world: nat -> Tick, id: int, attempt: nat)
    requires attempt < TotalAttempts(config) && (a.Sent? ==> a.upstream == world(attempt).upstream)
    ensures var done := PinnedEnd(config, a, world(attempt), id, attempt);
            var writes := TurnSteps(config, keys, failures, id, world(attempt), a);
            && OwnWrites(writes)
            && (done.None? ==> a.Sent? && attempt + 1 < TotalAttempts(config) && !world(attempt).upstream.Crash?
                               && (world(attempt).upstream.Resp? ==> world(attempt).upstream.status >= 500))
            && (done.None? || NotFound(done.value) ==> FailMarks(writes))
            && (done.Some? ==> PinnedDone(config, done.value, id, if a.Sent? then attempt + 1 else attempt, world, a))
            && (done.Some? && NotFound(done.value) ==> a.Sent?)
  {
    TurnStepsMean(config, keys, failures, id, world(attempt), a);
  }

  /** Every step of the history from `from` on is forwarding's own, or others' in one of the first `k` ticks. */
  ghost predicate Accounted(from: nat, history: seq<Step>, world: nat -> Tick, k: nat) {
    forall n :: from <= n < |history| && ByAdmin(history[n]) ==> ByOthers(history[n], world, k)
  }

  ghost predicate ByOthers(step: Step, world: nat -> Tick, k: nat) {
    exists i :: 0 <= i < k && InTick(step, world(i))
  }

  predicate InTick(step: Step, tick: Tick) {
    step in tick.others || step in tick.meanwhile
  }

  /** Steps of forwarding itself, and of others in this tick. */
  ghost predicate FromTick(steps: seq<Step>, tick: Tick) {
    forall n :: 0 <= n < |steps| && ByAdmin(steps[n]) ==> InTick(steps[n], tick)
  }

  /** What a turn adds to the history: others' steps, its selection, others' steps again, its writes. */
  lemma {:induction false} TickAdds(before: seq<Step>, tick: Tick, mine: seq<Step>)
    requires OwnWrites(mine)
    ensures before <= before + tick.others + mine && FromTick((before + tick.others + mine)[|before|..], tick)
  {
    assert (before + tick.others + mine)[|before|..] == tick.others + mine;
  }

  lemma {:induction false} MeanwhileAdds(before: seq<Step>, mid: seq<Step>, tick: Tick)
    requires before <= mid && FromTick(mid[|before|..], tick)
    ensures before <= mid + tick.meanwhile && FromTick((mid + tick.meanwhile)[|before|..], tick)
  {
    assert (mid + tick.meanwhile)[|before|..] == mid[|before|..] + tick.meanwhile;
  }

  lemma {:induction false} WritesAdd(before: seq<Step>, mid: seq<Step>, writes: seq<Step>, tick: Tick)
    requires before <= mid && FromTick(mid[|before|..], tick) && OwnWrites(writes)
    ensures before <= mid + writes && FromTick((mid + writes)[|before|..], tick)
  {
    assert (mid + writes)[|before|..] == mid[|before|..] + writes;
  }

  lemma {:induction false} TurnAccounted(from: nat, before: seq<Step>, after: seq<Step>, world: nat -> Tick, k: nat)
    requires from <= |before| && Accounted(from, before, world, k)
    requires before <= after && FromTick(after[|before|..], world(k))
    ensures Accounted(from, after, world, k + 1)
  {
    forall n | from <= n < |after| && ByAdmin(after[n])
      ensures ByOthers(after[n], world, k + 1)
    {
      if n < |before| {
        assert ByOthers(before[n], world, k);
        var i :| 0 <= i < k && InTick(before[n], world(i));
      } else {
        assert after[|before|..][n - |before|] == after[n];
        assert InTick(after[n], world(k));
      }
    }
  }

  lemma {:induction false} SendsGrow(sends: seq<Send>, send: Option<Send>, h: seq<Step>, h': seq<Step>, client: int,
                                     provider: string, from: nat, world: nat -> Tick, n: nat)
    requires h <= h' && PoolSends(sends, h, client, provider, from, world, n)
    requires send.Some? ==> PoolSend(send.value, h', client, provider) && from <= send.value.at
                            && Between(send.value, h') == world(n).meanwhile
    ensures PoolSends(if send.Some? then sends + [send.value] else sends, h', client, provider, from, world, n + 1)
  {
    forall i | 0 <= i < |sends|
      ensures PoolSend(sends[i], h', client, provider) && MetIn(Between(sends[i], h'), world, n + 1)
    {
      PoolSendStays(sends[i], h, h', client, provider);
      var k :| 0 <= k < n && Between(sends[i], h) == world(k).meanwhile;
    }
    if send.Some? {
      assert MetIn(Between(send.value, h'), world, n + 1);
    }
  }

  /** How a turn ends the pool loop, if it does: with the error of a failed selection, or with its request. */
  function TurnEnd(config: Config, error: Option<KeyPool.Error>, send: Option<Send>, tick: Tick, retryCount: nat,
                   lastAttempt: bool, decryptSeen: bool): Option<Result> {
    if error.Some? then Some(Raised(Surfaced(error.value, decryptSeen)))
    else if send.None? then None
    else Reaction(config, tick, send.value.row.id, retryCount, Retryable(tick.upstream), lastAttempt)
  }

  lemma {:induction false} TurnEnds(config: Config, done: Option<Result>, error: Option<KeyPool.Error>,
                                    a: Option<Attempt>, sends: seq<Send>, send: Option<Send>, selections: nat,
                                    world: nat -> Tick, missed: bool,
                                    selected: seq<Option<KeyPool.Error>>, trail: seq<Attempt>, trail0: nat)
    requires |sends| < TotalAttempts(config) && trail0 <= |trail| && missed == Missed(trail, trail0)
    requires MovedOn(sends) && (send.Some? ==> send.value.tick == world(selections))
    requires send.Some? <==> a == Some(Sent(world(selections).upstream))
    requires error.Some? ==> a.None?
    requires done == TurnEnd(config, error, send, world(selections), selections, |sends| + 1 >= TotalAttempts(config),
                             missed)
    ensures var sends' := if send.Some? then sends + [send.value] else sends;
            var trail' := trail + if a.Some? then [a.value] else [];
            && (missed || a == Some(Undecryptable) <==> Missed(trail', trail0))
            && (done.Some? || (|sends'| < TotalAttempts(config) && MovedOn(sends')))
            && (done.None? || (&& PoolRetries(done.value, sends')
                               && PoolEnd(config, done.value, sends', selections + 1, world, selected + [error], trail',
                                          trail0)))
  {
    var trail' := trail + if a.Some? then [a.value] else [];
    assert trail'[trail0..] == trail[trail0..] + if a.Some? then [a.value] else [];
  }

  lemma {:induction false} PoolSendStays(s: Send, h: seq<Step>, h': seq<Step>, client: int, provider: string)
    requires PoolSend(s, h, client, provider) && h <= h'
    ensures PoolSend(s, h', client, provider) && Between(s, h') == Between(s, h)
  {
    assert h'[..s.at] == h[..s.at];
  }
}
