/** The token bucket of app/core/rate_limit.py, in its in-memory and its Redis form. */
module RateLimit {
  import opened Common

  datatype Bucket = Bucket(tokens: real, lastRefill: real)
  type Buckets = map<int, Bucket>
  datatype Verdict = Allowed | Denied(retryAfter: int)

  /** Tokens regained per second at `rate` requests per minute. */
  function PerSecond(rate: int): real {
    rate as real / 60.0
  }

  /** Tokens regained in `span` seconds: rate * span / 60. */
  function Budget(rate: int, span: real): real {
    span * PerSecond(rate)
  }

  /** Tokens in the bucket once the time up to `now` has been credited. */
  function Refilled(b: Bucket, rate: int, now: real): real {
    MinReal(rate as real, b.tokens + Budget(rate, MaxReal(now - b.lastRefill, 0.0)))
  }

  /** Whole seconds until `tokens` reaches one, at least one second. */
  function Wait(rate: int, tokens: real): int
    requires rate > 0
  {
    Max(Ceil((1.0 - tokens) / PerSecond(rate)), 1)
  }

  /** One call on one bucket, which is created full when missing. */
  function Take(bucket: Option<Bucket>, rate: int, now: real): (Bucket, Verdict)
    requires rate > 0
  {
    var tokens := Refilled(bucket.GetOr(Bucket(rate as real, now)), rate, now);
    if tokens >= 1.0 then
      (Bucket(tokens - 1.0, now), Allowed)
    else
      (Bucket(tokens, now), Denied(Wait(rate, tokens)))
  }

  function Lookup<V>(m: map<int, V>, key: int): Option<V> {
    if key in m then Some(m[key]) else None
  }

  class TokenBucketRateLimiter {
    var buckets: Buckets

    constructor ()
      ensures buckets == map[]
    {
      buckets := map[];
    }

    /** app/core/rate_limit.py: allow. A non-positive rate means "unlimited" and touches nothing. */
    method Allow(key: int, rate: int, now: real) returns (v: Verdict)
      modifies this
      ensures rate <= 0 ==> v == Allowed && buckets == old(buckets)
      ensures rate > 0 ==>
                var (b, w) := Take(Lookup(old(buckets), key), rate, now);
                v == w && buckets == old(buckets)[key := b]
    {
      if rate <= 0 {
        return Allowed;
      }
      var capacity := rate as real;
      var refillPerSec := capacity / 60.0;
      if key !in buckets {
        buckets := buckets[key := Bucket(capacity, now)];
      }
      var bucket := buckets[key];
      var elapsed := MaxReal(now - bucket.lastRefill, 0.0);
      var tokens := MinReal(capacity, bucket.tokens + elapsed * refillPerSec);
      if tokens >= 1.0 {
        buckets := buckets[key := Bucket(tokens - 1.0, now)];
        v := Allowed;
      } else {
        buckets := buckets[key := Bucket(tokens, now)];
        v := Denied(Max(Ceil((1.0 - tokens) / refillPerSec), 1));
      }
    }
  }

  // ---------------------------------------------------------------------------
  // Runs of the limiter
  // ---------------------------------------------------------------------------

  datatype Call = Call(key: int, rate: int, now: real)

  /** What one call leaves behind, and what it answers. */
  function Served(bs: Buckets, c: Call): (Buckets, Verdict) {
    if c.rate <= 0 then (bs, Allowed)
    else
      var (b, v) := Take(Lookup(bs, c.key), c.rate, c.now);
      (bs[c.key := b], v)
  }

  /** The answers to a sequence of calls. */
  function Serve(bs: Buckets, calls: seq<Call>): (vs: seq<Verdict>)
    ensures |vs| == |calls|
    decreases |calls|
  {
    if calls == [] then [] else
    var (bs', v) := Served(bs, calls[0]);
    [v] + Serve(bs', calls[1..])
  }

  /** The buckets after a sequence of calls. */
  function After(bs: Buckets, calls: seq<Call>): Buckets
    decreases |calls|
  {
    if calls == [] then bs else After(Served(bs, calls[0]).0, calls[1..])
  }

  /** How many of the calls for `key` were allowed. */
  function AllowedFor(key: int, calls: seq<Call>, vs: seq<Verdict>): nat
    requires |calls| == |vs|
  {
    if calls == [] then 0 else
    (if calls[0].key == key && vs[0].Allowed? then 1 else 0) + AllowedFor(key, calls[1..], vs[1..])
  }

  ghost predicate Ordered(calls: seq<Call>) {
    forall i, j :: 0 <= i <= j < |calls| ==> calls[i].now <= calls[j].now
  }

  ghost predicate FixedRate(calls: seq<Call>, key: int, rate: int) {
    forall i :: 0 <= i < |calls| && calls[i].key == key ==> calls[i].rate == rate
  }

  ghost predicate NonNegative(bs: Buckets) {
    forall k :: k in bs ==> bs[k].tokens >= 0.0
  }

  /** A minute regains the rate, and any other time its share of that. */
  lemma {:induction false} BudgetMeans(rate: int, span: real)
    ensures Budget(rate, span) == rate as real * span / 60.0
  {
  }

  lemma {:induction false} BudgetAdds(rate: int, a: real, b: real)
    ensures Budget(rate, a) + Budget(rate, b) == Budget(rate, a + b)
  {
  }

  /** Crediting time never lowers a non-negative bucket below zero. */
  lemma {:induction false} RefillKeepsSign(b: Bucket, rate: int, now: real)
    requires rate > 0 && b.tokens >= 0.0
    ensures 0.0 <= Refilled(b, rate, now) <= rate as real
    ensures b.lastRefill <= now ==> Refilled(b, rate, now) <= b.tokens + Budget(rate, now - b.lastRefill)
  {
    var e := MaxReal(now - b.lastRefill, 0.0);
    assert e * PerSecond(rate) >= 0.0;
  }

  /** In every run each bucket holds between zero tokens and the largest rate it was called with. */
  lemma {:induction false} TokensStayInRange(bs: Buckets, calls: seq<Call>, key: int, rate: int)
    requires NonNegative(bs)
    requires key in bs ==> bs[key].tokens <= rate as real
    requires forall i :: 0 <= i < |calls| && calls[i].key == key ==> calls[i].rate <= rate
    ensures NonNegative(After(bs, calls))
    ensures key in After(bs, calls) ==> 0.0 <= After(bs, calls)[key].tokens <= rate as real
    decreases |calls|
  {
    if calls != [] {
      var c := calls[0];
      if c.rate > 0 {
        RefillKeepsSign(Lookup(bs, c.key).GetOr(Bucket(c.rate as real, c.now)), c.rate, c.now);
      }
      TokensStayInRange(Served(bs, c).0, calls[1..], key, rate);
    }
  }

  /** Potential argument: allowed calls are paid for by the tokens at hand and the time credited. */
  lemma {:induction false} PaidFor(bs: Buckets, calls: seq<Call>, key: int, rate: int, until: real)
    requires rate > 0 && NonNegative(bs) && key in bs && bs[key].lastRefill <= until
    requires Ordered(calls) && FixedRate(calls, key, rate)
    requires forall i :: 0 <= i < |calls| ==> bs[key].lastRefill <= calls[i].now <= until
    ensures AllowedFor(key, calls, Serve(bs, calls)) as real
            <= bs[key].tokens + Budget(rate, until - bs[key].lastRefill)
    decreases |calls|
  {
    if calls == [] {
      BudgetGrows(rate, 0.0, until - bs[key].lastRefill);
    } else {
      var c, bs', rest := calls[0], Served(bs, calls[0]).0, calls[1..];
      CallIsPaidFor(bs, c, key, rate);
      assert forall i :: 0 <= i < |rest| ==> rest[i] == calls[i + 1];
      PaidFor(bs', rest, key, rate, until);
      CountFirst(bs, calls, key);
      BudgetAdds(rate, bs'[key].lastRefill - bs[key].lastRefill, until - bs'[key].lastRefill);
    }
  }

  /** 1 when the call is for `key` and is allowed, else 0. */
  function Counted(bs: Buckets, c: Call, key: int): nat {
    if c.key == key && Served(bs, c).1.Allowed? then 1 else 0
  }

  lemma {:induction false} CountFirst(bs: Buckets, calls: seq<Call>, key: int)
    requires calls != []
    ensures AllowedFor(key, calls, Serve(bs, calls))
            == Counted(bs, calls[0], key)
               + AllowedFor(key, calls[1..], Serve(Served(bs, calls[0]).0, calls[1..]))
  {
    assert Serve(bs, calls)[1..] == Serve(Served(bs, calls[0]).0, calls[1..]);
  }

  /** One call: an allowed call costs one token, and tokens only come from elapsed time. */
  lemma {:induction false} CallIsPaidFor(bs: Buckets, c: Call, key: int, rate: int)
    requires rate > 0 && NonNegative(bs) && key in bs && bs[key].lastRefill <= c.now
    requires c.key == key ==> c.rate == rate
    ensures var (bs', v) := Served(bs, c);
            && NonNegative(bs') && key in bs'
            && bs[key].lastRefill <= bs'[key].lastRefill <= c.now
            && Counted(bs, c, key) as real + bs'[key].tokens
               <= bs[key].tokens + Budget(rate, bs'[key].lastRefill - bs[key].lastRefill)
  {
    if c.rate > 0 {
      RefillKeepsSign(Lookup(bs, c.key).GetOr(Bucket(c.rate as real, c.now)), c.rate, c.now);
    }
  }

  /**
   * Whatever happened before, the calls for `key` allowed within any `d` seconds number at most
   * `rate + rate * d / 60`.
   */
  lemma {:induction false} WindowBound(before: seq<Call>, window: seq<Call>, key: int, rate: int, from: real, d: real)
    requires rate > 0 && d >= 0.0
    requires Ordered(window) && FixedRate(window, key, rate)
    requires forall i :: 0 <= i < |window| ==> from <= window[i].now <= from + d
    ensures AllowedFor(key, window, Serve(After(map[], before), window)) as real
            <= rate as real + rate as real * d / 60.0
  {
    BudgetMeans(rate, d);
    TokensNonNegative(map[], before);
    WindowBoundFrom(After(map[], before), window, key, rate, from, d);
  }

  lemma {:induction false} TokensNonNegative(bs: Buckets, calls: seq<Call>)
    requires NonNegative(bs)
    ensures NonNegative(After(bs, calls))
    decreases |calls|
  {
    if calls != [] {
      var c := calls[0];
      if c.rate > 0 {
        RefillKeepsSign(Lookup(bs, c.key).GetOr(Bucket(c.rate as real, c.now)), c.rate, c.now);
      }
      TokensNonNegative(Served(bs, c).0, calls[1..]);
    }
  }

  lemma {:induction false} WindowBoundFrom(bs: Buckets, window: seq<Call>, key: int, rate: int, from: real, d: real)
    requires rate > 0 && d >= 0.0 && NonNegative(bs)
    requires Ordered(window) && FixedRate(window, key, rate)
    requires forall i :: 0 <= i < |window| ==> from <= window[i].now <= from + d
    ensures AllowedFor(key, window, Serve(bs, window)) as real <= rate as real + Budget(rate, d)
    decreases |window|
  {
    BudgetGrows(rate, 0.0, d);
    if window != [] {
      var c, bs', rest := window[0], Served(bs, window[0]).0, window[1..];
      assert forall i :: 0 <= i < |rest| ==> rest[i] == window[i + 1];
      CountFirst(bs, window, key);
      FirstCallCaps(bs, c, key, rate);
      if c.key == key {
        PaidFor(bs', rest, key, rate, from + d);
        BudgetGrows(rate, from + d - c.now, d);
      } else {
        WindowBoundFrom(bs', rest, key, rate, from, d);
      }
    }
  }

  lemma {:induction false} BudgetGrows(rate: int, e: real, d: real)
    requires rate > 0 && 0.0 <= e <= d
    ensures 0.0 <= Budget(rate, e) <= Budget(rate, d)
  {
  }

  /** After any call on a bucket, the call's cost and the tokens left are covered by the capacity. */
  lemma {:induction false} FirstCallCaps(bs: Buckets, c: Call, key: int, rate: int)
    requires NonNegative(bs)
    requires c.key == key ==> c.rate == rate > 0
    ensures var bs' := Served(bs, c).0;
            && NonNegative(bs')
            && (c.key == key ==>
                  && key in bs' && bs'[key].lastRefill == c.now
                  && Counted(bs, c, key) as real + bs'[key].tokens <= rate as real)
  {
    if c.rate > 0 {
      RefillKeepsSign(Lookup(bs, c.key).GetOr(Bucket(c.rate as real, c.now)), c.rate, c.now);
    }
  }

  /** The bound is met at `d == 0`: a fresh bucket lets a burst of exactly `rate` calls through. */
  lemma {:induction false} BurstIsServed(bs: Buckets, key: int, rate: int, now: real, n: nat)
    requires rate > 0 && n <= rate
    requires if key in bs then bs[key] == Bucket(n as real, now) else n == rate
    ensures var calls := seq(n, _ => Call(key, rate, now));
            Serve(bs, calls) == seq(n, _ => Allowed)
    decreases n
  {
    var calls := seq(n, _ => Call(key, rate, now));
    if n > 0 {
      var (bs', v) := Served(bs, calls[0]);
      assert calls[1..] == seq(n - 1, _ => Call(key, rate, now));
      BurstIsServed(bs', key, rate, now, n - 1);
    }
  }

  /**
   * A denied caller's hint is exact: it is the first whole second, from one second on, in which what the rate regains
   * makes up a token with what is left, and on the bucket left behind a call `k` whole seconds later at the same rate
   * is allowed if and only if `k` has reached the hint.
   */
  lemma {:induction false} RetryHintIsExact(bucket: Option<Bucket>, rate: int, now: real, k: nat)
    requires rate > 0 && Take(bucket, rate, now).1.Denied?
    ensures var (b, v) := Take(bucket, rate, now);
            && v.retryAfter >= 1
            && (b.tokens + (k * rate) as real / 60.0 >= 1.0 <==> k >= v.retryAfter)
            && (Take(Some(b), rate, now + k as real).1.Allowed? <==> k >= v.retryAfter)
  {
    var (b, v) := Take(bucket, rate, now);
    WaitIsExact(rate, b.tokens, k);
    BudgetMeans(rate, k as real);
    assert (k * rate) as real == rate as real * k as real;
    assert MaxReal(now + k as real - b.lastRefill, 0.0) == k as real;
  }

  lemma {:induction false} WaitIsExact(rate: int, tokens: real, k: nat)
    requires rate > 0 && tokens < 1.0
    ensures tokens + Budget(rate, k as real) >= 1.0 <==> k >= Wait(rate, tokens)
  {
    var r := PerSecond(rate);
    var x := (1.0 - tokens) / r;
    assert x * r == 1.0 - tokens;
    assert x > 0.0;
    if k as real >= x {
      assert k as real * r >= x * r;
    } else {
      assert k as real * r < x * r;
    }
  }

  // ---------------------------------------------------------------------------
  // The Redis form
  // ---------------------------------------------------------------------------

  /** The hash a Lua call writes; `last` is in milliseconds. */
  datatype Hash = Hash(tokens: real, last: int)
  type Hashes = map<int, Hash>

  const EXPIRE_MS: int := 120_000

  function PerMs(rate: int): real {
    rate as real / 60000.0
  }

  function BudgetMs(rate: int, spanMs: int): real {
    spanMs as real * PerMs(rate)
  }

  function WaitMs(rate: int, tokens: real): int
    requires rate > 0
  {
    Max(Ceil((1.0 - tokens) / PerMs(rate) / 1000.0), 1)
  }

  lemma {:induction false} MillisecondsAgree(rate: int, spanMs: int, tokens: real)
    requires rate > 0
    ensures BudgetMs(rate, spanMs) == Budget(rate, Seconds(spanMs))
    ensures WaitMs(rate, tokens) == Wait(rate, tokens)
  {
    var needed, perMs := 1.0 - tokens, PerMs(rate);
    assert PerSecond(rate) == perMs * 1000.0;
    assert needed / (perMs * 1000.0) == needed / perMs / 1000.0;
  }

  /** The Lua script on one hash (rate > 0), in milliseconds throughout. */
  function LuaTake(hash: Option<Hash>, rate: int, nowMs: int): (Hash, Verdict)
    requires rate > 0
  {
    var capacity := rate as real;
    var h := hash.GetOr(Hash(capacity, nowMs));
    var elapsed := Max(nowMs - h.last, 0);
    var tokens := MinReal(capacity, h.tokens + BudgetMs(rate, elapsed));
    if tokens >= 1.0 then
      (Hash(tokens - 1.0, nowMs), Allowed)
    else
      (Hash(tokens, nowMs), Denied(WaitMs(rate, tokens)))
  }

  /** The script's arithmetic. */
  method Script(hash: Option<Hash>, rate: int, nowMs: int) returns (h: Hash, v: Verdict)
    requires rate > 0
    ensures (h, v) == LuaTake(hash, rate, nowMs)
  {
    var capacity := rate as real;
    var refillPerMs := capacity / 60000.0;
    var tokens, last := capacity, nowMs;
    if hash.Some? {
      tokens, last := hash.value.tokens, hash.value.last;
    }
    var elapsed := nowMs - last;
    if elapsed < 0 {
      elapsed := 0;
    }
    tokens := MinReal(capacity, tokens + elapsed as real * refillPerMs);
    v := Allowed;
    if tokens >= 1.0 {
      tokens := tokens - 1.0;
    } else {
      assert refillPerMs == PerMs(rate);
      var msNeeded := (1.0 - tokens) / refillPerMs;
      var retryAfter := Ceil(msNeeded / 1000.0);
      if retryAfter < 1 {
        retryAfter := 1;
      }
      v := Denied(retryAfter);
    }
    h := Hash(tokens, nowMs);
  }

  /** The hashes, and when Redis deletes each of them. */
  class RedisTokenBucketRateLimiter {
    var hashes: Hashes
    var expireAt: map<int, int>

    /** Every hash is due to go 120 seconds after the call that wrote it. */
    ghost predicate Valid()
      reads this
    {
      expireAt.Keys == hashes.Keys && forall k :: k in hashes ==> expireAt[k] == hashes[k].last + EXPIRE_MS
    }

    constructor ()
      ensures Valid() && hashes == map[]
    {
      hashes, expireAt := map[], map[];
    }

    /** What Redis has deleted by now. */
    function Gone(nowMs: int): (keys: set<int>)
      reads this
    {
      set k | k in expireAt && expireAt[k] <= nowMs
    }

    /**
     * app/core/rate_limit.py: the script, its EXPIRE and the guard in front of it. The call is a step of the run
     * model in which exactly the hashes that are due have been dropped.
     */
    method Allow(key: int, rate: int, nowMs: int) returns (v: Verdict)
      requires Valid()
      modifies this
      ensures Valid()
      ensures (hashes, v) == RedisServed(old(hashes), RedisCall(key, rate, nowMs, old(Gone(nowMs))))
      ensures forall k :: k in old(hashes) ==>
                            (k in old(Gone(nowMs)) <==> nowMs - old(hashes)[k].last >= 120_000)
    {
      Expire(nowMs);
      if rate <= 0 {
        return Allowed;
      }
      v := RunScript(key, rate, nowMs);
    }

    /** The script on the stored hash. */
    method RunScript(key: int, rate: int, nowMs: int) returns (v: Verdict)
      requires Valid() && rate > 0
      modifies this
      ensures Valid()
      ensures var (h, w) := LuaTake(Lookup(old(hashes), key), rate, nowMs);
              v == w && hashes == old(hashes)[key := h]
    {
      var h;
      h, v := Script(Lookup(hashes, key), rate, nowMs);
      Store(key, h);
    }

    /** HMSET and EXPIRE. */
    method Store(key: int, hash: Hash)
      requires Valid()
      modifies this
      ensures Valid() && hashes == old(hashes)[key := hash]
    {
      hashes := hashes[key := hash];
      expireAt := expireAt[key := hash.last + EXPIRE_MS];
    }

    /** Redis deletes the hashes that are due. */
    method Expire(nowMs: int)
      requires Valid()
      modifies this
      ensures Valid() && hashes == old(hashes) - old(Gone(nowMs)) && expireAt == old(expireAt) - old(Gone(nowMs))
    {
      var gone := Gone(nowMs);
      hashes, expireAt := hashes - gone, expireAt - gone;
    }
  }

  /** A Redis call; `dropped` are the hashes that Redis has expired since the previous call. */
  datatype RedisCall = RedisCall(key: int, rate: int, nowMs: int, dropped: set<int>)

  function RedisServed(hs: Hashes, c: RedisCall): (Hashes, Verdict) {
    var present := hs - c.dropped;
    if c.rate <= 0 then (present, Allowed)
    else
      var (h, v) := LuaTake(Lookup(present, c.key), c.rate, c.nowMs);
      (present[c.key := h], v)
  }

  function RedisServe(hs: Hashes, calls: seq<RedisCall>): seq<Verdict>
    decreases |calls|
  {
    if calls == [] then [] else
    var (hs', v) := RedisServed(hs, calls[0]);
    [v] + RedisServe(hs', calls[1..])
  }

  /** Redis may only drop a hash that has been idle for the whole 120 seconds. */
  ghost predicate LegalExpiry(hs: Hashes, calls: seq<RedisCall>)
    decreases |calls|
  {
    calls != [] ==>
      && (forall k :: k in calls[0].dropped && k in hs ==> calls[0].nowMs - hs[k].last >= EXPIRE_MS)
      && LegalExpiry(RedisServed(hs, calls[0]).0, calls[1..])
  }

  function Seconds(ms: int): real {
    ms as real / 1000.0
  }

  /** The same calls as the in-memory limiter would see them. */
  function InMemory(calls: seq<RedisCall>): (r: seq<Call>)
    ensures |r| == |calls|
  {
    seq(|calls|, i requires 0 <= i < |calls| => Call(calls[i].key, calls[i].rate, Seconds(calls[i].nowMs)))
  }

  /** A never-expiring bucket agrees with the hash, or the hash is gone and the bucket long since full. */
  ghost predicate Agrees(bs: Buckets, hs: Hashes, nowMs: int) {
    && NonNegative(bs)
    && (forall k :: k in hs ==> k in bs && bs[k] == Bucket(hs[k].tokens, Seconds(hs[k].last)))
    && (forall k :: k in bs && k !in hs ==> Seconds(nowMs) - bs[k].lastRefill >= 120.0)
  }

  /** One Lua call and one in-memory call give the same answer and the same tokens. */
  lemma {:induction false} LuaMatchesTake(hash: Option<Hash>, rate: int, nowMs: int)
    requires rate > 0
    ensures var bucket := if hash.None? then None else Some(Bucket(hash.value.tokens, Seconds(hash.value.last)));
            var (h, v) := LuaTake(hash, rate, nowMs);
            Take(bucket, rate, Seconds(nowMs)) == (Bucket(h.tokens, Seconds(h.last)), v)
  {
    var h0 := hash.GetOr(Hash(rate as real, nowMs));
    var e := Max(nowMs - h0.last, 0);
    MillisecondsAgree(rate, e, LuaTake(hash, rate, nowMs).0.tokens);
    assert MaxReal(Seconds(nowMs) - Seconds(h0.last), 0.0) == Seconds(e);
  }

  /** A bucket idle for 120 seconds is full whatever the positive rate, so a missing hash reads the same. */
  lemma {:induction false} IdleBucketIsFull(b: Bucket, rate: int, now: real)
    requires rate > 0 && b.tokens >= 0.0 && now - b.lastRefill >= 120.0
    ensures Take(Some(b), rate, now) == Take(None, rate, now)
  {
    var r := PerSecond(rate);
    assert (now - b.lastRefill) * r >= 120.0 * r;
    assert 120.0 * r == 2.0 * rate as real;
  }

  /**
   * The Redis limiter refines the never-expiring one: over every call sequence with a nondecreasing
   * clock, whatever Redis expires and however the rates change, each decision and each hint is the same.
   */
  lemma {:induction false} RedisRefinesMemory(calls: seq<RedisCall>)
    requires forall i, j :: 0 <= i <= j < |calls| ==> calls[i].nowMs <= calls[j].nowMs
    requires LegalExpiry(map[], calls)
    ensures RedisServe(map[], calls) == Serve(map[], InMemory(calls))
  {
    if calls != [] {
      RefinesFrom(map[], map[], calls, calls[0].nowMs);
    }
  }

  /** So its hint is as exact. */
  lemma {:induction false} RedisHintIsExact(hash: Option<Hash>, rate: int, nowMs: int, k: nat)
    requires rate > 0 && LuaTake(hash, rate, nowMs).1.Denied?
    ensures var (h, v) := LuaTake(hash, rate, nowMs);
            && v.retryAfter >= 1
            && (h.tokens + (k * rate) as real / 60.0 >= 1.0 <==> k >= v.retryAfter)
            && (LuaTake(Some(h), rate, nowMs + 1000 * k).1.Allowed? <==> k >= v.retryAfter)
  {
    var bucket := if hash.None? then None else Some(Bucket(hash.value.tokens, Seconds(hash.value.last)));
    LuaMatchesTake(hash, rate, nowMs);
    RetryHintIsExact(bucket, rate, Seconds(nowMs), k);
    LuaMatchesTake(Some(LuaTake(hash, rate, nowMs).0), rate, nowMs + 1000 * k);
    assert Seconds(nowMs + 1000 * k) == Seconds(nowMs) + k as real;
  }

  lemma {:induction false} ServeInParts(bs: Buckets, calls: seq<Call>, n: nat)
    requires n <= |calls|
    ensures Serve(bs, calls) == Serve(bs, calls[..n]) + Serve(After(bs, calls[..n]), calls[n..])
    decreases n
  {
    if n == 0 {
      assert calls[n..] == calls;
    } else {
      var bs' := Served(bs, calls[0]).0;
      ServeInParts(bs', calls[1..], n - 1);
      assert calls[..n][1..] == calls[1..][..n - 1] && calls[1..][n - 1..] == calls[n..];
    }
  }

  /**
   * And its window is as tight: from the `n`-th call on, the calls for `key` allowed within any `d` milliseconds number
   * at most `rate + rate * d / 60000`.
   */
  lemma {:induction false} RedisWindowBound(calls: seq<RedisCall>, n: nat, key: int, rate: int, d: nat)
    requires n < |calls| && rate > 0 && LegalExpiry(map[], calls)
    requires forall i, j :: 0 <= i <= j < |calls| ==> calls[i].nowMs <= calls[j].nowMs
    requires FixedRate(InMemory(calls)[n..], key, rate) && calls[|calls| - 1].nowMs <= calls[n].nowMs + d
    ensures |RedisServe(map[], calls)| == |calls|
    ensures AllowedFor(key, InMemory(calls)[n..], RedisServe(map[], calls)[n..]) as real
            <= rate as real + (rate * d) as real / 60000.0
  {
    var all, vs := InMemory(calls), RedisServe(map[], calls);
    assert vs == Serve(map[], all) by {
      RedisRefinesMemory(calls);
    }
    ServeInParts(map[], all, n);
    InMemoryWithin(calls, n, d);
    WindowOf(all, vs, n, key, rate, Seconds(calls[n].nowMs), Seconds(d));
    MillisecondShare(AllowedFor(key, all[n..], vs[n..]), rate, d);
  }

  /** The bound on the tail of a run. */
  lemma {:induction false} WindowOf(all: seq<Call>, vs: seq<Verdict>, n: nat, key: int, rate: int, from: real, d: real)
    requires n <= |all| && vs == Serve(map[], all[..n]) + Serve(After(map[], all[..n]), all[n..])
    requires rate > 0 && d >= 0.0 && Ordered(all[n..]) && FixedRate(all[n..], key, rate)
    requires forall i :: 0 <= i < |all[n..]| ==> from <= all[n..][i].now <= from + d
    ensures |vs| == |all|
    ensures AllowedFor(key, all[n..], vs[n..]) as real <= rate as real + Budget(rate, d)
  {
    BudgetMeans(rate, d);
    assert vs[n..] == Serve(After(map[], all[..n]), all[n..]);
    WindowBound(all[..n], all[n..], key, rate, from, d);
  }

  lemma {:induction false} MillisecondShare(n: nat, rate: int, d: int)
    requires n as real <= rate as real + Budget(rate, Seconds(d))
    ensures n as real <= rate as real + (rate * d) as real / 60000.0
  {
    assert (rate * d) as real == rate as real * d as real;
  }

  lemma {:induction false} InMemoryWithin(calls: seq<RedisCall>, n: nat, d: nat)
    requires n < |calls| && calls[|calls| - 1].nowMs <= calls[n].nowMs + d
    requires forall i, j :: 0 <= i <= j < |calls| ==> calls[i].nowMs <= calls[j].nowMs
    ensures var window := InMemory(calls)[n..];
            && Ordered(window)
            && forall i :: 0 <= i < |window| ==>
                 Seconds(calls[n].nowMs) <= window[i].now <= Seconds(calls[n].nowMs) + Seconds(d)
  {
    var window := InMemory(calls)[n..];
    forall i | 0 <= i < |window|
      ensures window[i].now == Seconds(calls[n + i].nowMs)
      ensures calls[n].nowMs <= calls[n + i].nowMs <= calls[n].nowMs + d
    {
      assert calls[n + i].nowMs <= calls[|calls| - 1].nowMs;
    }
  }

  lemma {:induction false} RefinesFrom(bs: Buckets, hs: Hashes, calls: seq<RedisCall>, clock: int)
    requires Agrees(bs, hs, clock) && LegalExpiry(hs, calls)
    requires forall i :: 0 <= i < |calls| ==> clock <= calls[i].nowMs
    requires forall i, j :: 0 <= i <= j < |calls| ==> calls[i].nowMs <= calls[j].nowMs
    ensures RedisServe(hs, calls) == Serve(bs, InMemory(calls))
    decreases |calls|
  {
    if calls != [] {
      var c := calls[0];
      var m := InMemory(calls)[0];
      StepRefines(bs, hs, c, clock);
      assert forall i :: 0 <= i < |calls[1..]| ==> calls[1..][i] == calls[i + 1];
      RefinesFrom(Served(bs, m).0, RedisServed(hs, c).0, calls[1..], c.nowMs);
      assert InMemory(calls)[1..] == InMemory(calls[1..]);
    }
  }

  lemma {:induction false} StepRefines(bs: Buckets, hs: Hashes, c: RedisCall, clock: int)
    requires Agrees(bs, hs, clock) && clock <= c.nowMs
    requires forall k :: k in c.dropped && k in hs ==> c.nowMs - hs[k].last >= EXPIRE_MS
    ensures var m := Call(c.key, c.rate, Seconds(c.nowMs));
            && RedisServed(hs, c).1 == Served(bs, m).1
            && Agrees(Served(bs, m).0, RedisServed(hs, c).0, c.nowMs)
  {
    var present := hs - c.dropped;
    assert Agrees(bs, present, c.nowMs);
    if c.rate > 0 {
      LuaMatchesTake(Lookup(present, c.key), c.rate, c.nowMs);
      if c.key in bs && c.key !in present {
        IdleBucketIsFull(bs[c.key], c.rate, Seconds(c.nowMs));
      }
      RefillKeepsSign(Lookup(bs, c.key).GetOr(Bucket(c.rate as real, Seconds(c.nowMs))), c.rate, Seconds(c.nowMs));
    }
  }
}
