/** The lease managers of app/core/concurrency.py, in memory and on Redis. */
module Concurrency {
  import opened Common

  type Counters = map<int, int>

  function Current(states: Counters, key: int): int {
    if key in states then states[key] else 0
  }

  /** The counters after a successful acquire, and after a release with its clamp at zero. */
  function Raised(states: Counters, key: int): Counters {
    states[key := Current(states, key) + 1]
  }

  function Lowered(states: Counters, key: int): Counters {
    if key in states then states[key := Max(states[key] - 1, 0)] else states
  }

  /** What an acquire does to the counters, and whether it hands out a lease. */
  function Acquired(states: Counters, key: int, maximum: int): (Counters, bool) {
    if maximum <= 0 then (states, true)
    else if Current(states, key) >= maximum then (states, false)
    else (Raised(states, key), true)
  }

  /** The held leases that count against `key`. */
  ghost function HeldFor(live: set<Lease>, key: int): set<Lease> {
    set l | l in live && l.key == key
  }

  lemma {:induction false} OneMoreHeld(live: set<Lease>, lease: Lease, k: int)
    requires lease !in live
    ensures |HeldFor(live + {lease}, k)| == |HeldFor(live, k)| + if k == lease.key then 1 else 0
  {
    assert HeldFor(live + {lease}, k) == HeldFor(live, k) + if k == lease.key then {lease} else {};
  }

  /** A lease remembers whether it has been released; an uncounted one came from an unlimited acquire. */
  class Lease {
    const manager: ConcurrencyManager
    const key: int
    const counted: bool
    var released: bool

    constructor (manager: ConcurrencyManager, key: int, counted: bool)
      ensures this.manager == manager && this.key == key && this.counted == counted && !released
    {
      this.manager, this.key, this.counted, released := manager, key, counted, false;
    }

    /** Releasing twice is the same as releasing once. */
    method Release()
      requires manager.Valid()
      requires counted && !released ==> this in manager.live
      modifies this`released, manager
      ensures released && manager.Valid()
      ensures manager.live == old(manager.live) - {this}
      ensures manager.states == if counted && !old(released) then Lowered(old(manager.states), key)
                                else old(manager.states)
      ensures old(released) ==> manager.live == old(manager.live)
    {
      if released {
        assert this !in manager.live;
        return;
      }
      released := true;
      if counted {
        manager.ReleaseKey(this);
      }
    }
  }

  class ConcurrencyManager {
    var states: Counters
    /** The counted leases that have been handed out and not released. */
    ghost var live: set<Lease>

    /** Every counter is exactly the number of live leases for its key. */
    ghost predicate Valid()
      reads this, live
    {
      && (forall l :: l in live ==> l.manager == this && l.counted && !l.released)
      && (forall k :: Current(states, k) == |HeldFor(live, k)|)
    }

    constructor ()
      ensures Valid() && live == {} && states == map[]
    {
      states, live := map[], {};
      new;
      assert forall k :: HeldFor(live, k) == {};
    }

    /** app/core/concurrency.py: try_acquire. */
    method TryAcquire(key: int, maximum: int) returns (lease: Lease?)
      requires Valid()
      modifies this
      ensures Valid()
      ensures lease == null <==> 0 < maximum <= |HeldFor(old(live), key)|
      ensures (states, lease != null) == Acquired(old(states), key, maximum)
      ensures lease == null ==> live == old(live)
      ensures lease != null ==>
                && fresh(lease) && lease.manager == this && lease.key == key && !lease.released
                && lease.counted == (maximum > 0)
                && live == (if maximum > 0 then old(live) + {lease} else old(live))
                && (maximum > 0 ==> |HeldFor(live, key)| <= maximum)
      ensures forall k :: Current(states, k) ==
                          Current(old(states), k) + (if lease != null && maximum > 0 && k == key then 1 else 0)
    {
      if maximum <= 0 {
        lease := new Lease(this, key, false);
        return;
      }
      if key !in states {
        states := states[key := 0];
      }
      if states[key] >= maximum {
        return null;
      }
      states := states[key := states[key] + 1];
      assert states == Raised(old(states), key);
      lease := new Lease(this, key, true);
      live := live + {lease};
      forall k
        ensures |HeldFor(live, k)| == |HeldFor(old(live), k)| + if k == key then 1 else 0
      {
        OneMoreHeld(old(live), lease, k);
      }
    }

    /**
     * app/core/concurrency.py: _release, called by the lease that has just marked itself released.
     * The counter it finds is positive, so the clamp at zero changes nothing.
     */
    method ReleaseKey(lease: Lease)
      requires lease in live && lease.manager == this && lease.counted && lease.released
      requires forall l :: l in live ==> l.manager == this && l.counted && (l == lease || !l.released)
      requires forall k :: Current(states, k) == |HeldFor(live, k)|
      modifies this
      ensures Valid()
      ensures live == old(live) - {lease}
      ensures states == Lowered(old(states), lease.key)
      ensures Current(states, lease.key) == Current(old(states), lease.key) - 1
    {
      var key := lease.key;
      forall k
        ensures |HeldFor(live, k)| == |HeldFor(live - {lease}, k)| + if k == key then 1 else 0
      {
        OneMoreHeld(live - {lease}, lease, k);
        assert live == live - {lease} + {lease};
      }
      if key in states {
        states := states[key := Max(states[key] - 1, 0)];
      }
      live := live - {lease};
    }
  }

  // ---------------------------------------------------------------------------
  // Runs: the in-memory manager against the Redis one
  // ---------------------------------------------------------------------------

  /** Leases are named by the tokens the Redis manager generates; tokens are never reused. */
  datatype Op =
    | Acquire(key: int, maximum: int, token: int, now: int)
    | Release(token: int, now: int)

  /** In memory: the counters, and the key behind each counted lease still held. */
  datatype Memory = Memory(states: Counters, held: map<int, int>)

  /** `true` when the operation hands out a lease (a release never does). */
  function InMemory(m: Memory, op: Op): (Memory, bool) {
    match op
    case Acquire(key, maximum, token, now) =>
      var (states, granted) := Acquired(m.states, key, maximum);
      (Memory(states, if granted && maximum > 0 then m.held[token := key] else m.held), granted)
    case Release(token, now) =>
      if token in m.held then (Memory(Lowered(m.states, m.held[token]), m.held - {token}), false)
      else (m, false)
  }

  /** On Redis: a sorted set of tokens scored by expiry time for each key, and the key's own expiry. */
  datatype ZSet = ZSet(scores: map<int, int>, expireAt: int)
  datatype Redis = Redis(sets: map<int, ZSet>, owner: map<int, int>)

  /** Tokens whose score is past, dropped by ZREMRANGEBYSCORE -inf now. */
  function Unexpired(scores: map<int, int>, now: int): (alive: map<int, int>)
    ensures forall t :: t in alive <==> t in scores && scores[t] > now
    ensures forall t :: t in alive ==> alive[t] == scores[t]
  {
    map t | t in scores && scores[t] > now :: scores[t]
  }

  /** Redis deletes a key whose EXPIRE has come due. */
  function Members(r: Redis, key: int, now: int): map<int, int> {
    if key in r.sets && now < r.sets[key].expireAt then r.sets[key].scores else map[]
  }

  function ExpireSpan(ttl: int): int {
    Max(1, (ttl + 999) / 1000) * 1000
  }

  function OnRedis(r: Redis, op: Op, ttl: int): (Redis, bool) {
    match op
    case Acquire(key, maximum, token, now) =>
      if maximum <= 0 then (r, true)
      else
        var alive := Unexpired(Members(r, key, now), now);
        var kept := if key in r.sets then r.sets[key].expireAt else 0;
        if |alive.Keys| >= maximum then (r.(sets := r.sets[key := ZSet(alive, kept)]), false)
        else
          (Redis(r.sets[key := ZSet(alive[token := now + ttl], now + ExpireSpan(ttl))], r.owner[token := key]), true)
    case Release(token, now) =>
      if token in r.owner && r.owner[token] in r.sets then
        var key := r.owner[token];
        (r.(sets := r.sets[key := r.sets[key].(scores := r.sets[key].scores - {token})]), false)
      else (r, false)
  }

  function MemoryGrants(m: Memory, ops: seq<Op>): seq<bool>
    decreases |ops|
  {
    if ops == [] then [] else
    var (m', granted) := InMemory(m, ops[0]);
    [granted] + MemoryGrants(m', ops[1..])
  }

  function RedisGrants(r: Redis, ops: seq<Op>, ttl: int): seq<bool>
    decreases |ops|
  {
    if ops == [] then [] else
    var (r', granted) := OnRedis(r, ops[0], ttl);
    [granted] + RedisGrants(r', ops[1..], ttl)
  }

  /** The tokens of the leases held for `key`. */
  function Tokens(held: map<int, int>, key: int): set<int> {
    set t | t in held && held[t] == key
  }

  /** In memory: each counter is the number of leases held for its key. */
  ghost predicate Counts(m: Memory) {
    forall k :: Current(m.states, k) == |Tokens(m.held, k)|
  }

  /** When each held lease was granted, kept alongside a run. */
  function GrantTimes(m: Memory, granted: map<int, int>, op: Op): map<int, int> {
    if op.Acquire? && op.maximum > 0 && InMemory(m, op).1 then granted[op.token := op.now] else granted
  }

  /** The clock never goes back, tokens in use are not reissued, and no held lease outlives its TTL. */
  ghost predicate ReleasedInTime(m: Memory, granted: map<int, int>, ops: seq<Op>, clock: int, ttl: int)
    decreases |ops|
  {
    ops != [] ==>
      var op := ops[0];
      && clock <= op.now
      && (op.Acquire? ==> op.token !in m.held)
      && (forall t :: t in m.held ==> t in granted && op.now < granted[t] + ttl)
      && ReleasedInTime(InMemory(m, op).0, GrantTimes(m, granted, op), ops[1..], op.now, ttl)
  }

  function MembersOf(sets: map<int, ZSet>, key: int): set<int> {
    if key in sets then sets[key].scores.Keys else {}
  }

  ghost predicate SameTokens(held: map<int, int>, sets: map<int, ZSet>) {
    forall k :: Tokens(held, k) == MembersOf(sets, k)
  }

  ghost predicate SameOwners(held: map<int, int>, owner: map<int, int>) {
    forall t :: t in held ==> t in owner && owner[t] == held[t]
  }

  ghost predicate ScoredBy(sets: map<int, ZSet>, granted: map<int, int>, ttl: int) {
    forall k, t :: k in sets && t in sets[k].scores ==> t in granted && sets[k].scores[t] == granted[t] + ttl
  }

  /** The sorted sets hold exactly the leases held in memory, each scored by its own expiry. */
  ghost predicate Mirrors(m: Memory, r: Redis, granted: map<int, int>, ttl: int) {
    SameTokens(m.held, r.sets) && SameOwners(m.held, r.owner) && ScoredBy(r.sets, granted, ttl)
  }

  /** No score lies beyond the key's own expiry, nor more than one TTL ahead of the clock. */
  ghost predicate Covered(r: Redis, clock: int, ttl: int) {
    forall k, t :: k in r.sets && t in r.sets[k].scores ==>
                     r.sets[k].scores[t] <= r.sets[k].expireAt && r.sets[k].scores[t] <= clock + ttl
  }

  lemma {:induction false} CountWithMore(held: map<int, int>, token: int, key: int, k: int)
    requires token !in held
    ensures |Tokens(held[token := key], k)| == |Tokens(held, k)| + if k == key then 1 else 0
  {
    if k == key {
      assert Tokens(held[token := key], k) == Tokens(held, k) + {token};
    } else {
      assert Tokens(held[token := key], k) == Tokens(held, k);
    }
  }

  lemma {:induction false} CountWithLess(held: map<int, int>, token: int, k: int)
    requires token in held
    ensures |Tokens(held - {token}, k)| == |Tokens(held, k)| - if k == held[token] then 1 else 0
  {
    if k == held[token] {
      assert Tokens(held - {token}, k) == Tokens(held, k) - {token};
    } else {
      assert Tokens(held - {token}, k) == Tokens(held, k);
    }
  }

  /** Raising or lowering one counter tracks adding or dropping one token. */
  lemma {:induction false} CountsKept(m: Memory, op: Op)
    requires Counts(m) && (op.Acquire? ==> op.token !in m.held)
    ensures Counts(InMemory(m, op).0)
  {
    var m' := InMemory(m, op).0;
    forall k
      ensures Current(m'.states, k) == |Tokens(m'.held, k)|
    {
      if m'.held != m.held {
        if op.Acquire? {
          CountWithMore(m.held, op.token, op.key, k);
        } else {
          CountWithLess(m.held, op.token, k);
        }
      }
    }
  }

  /** Every step of the Redis manager keeps each lease inside its key's EXPIRE. */
  lemma {:induction false} CoverKept(r: Redis, op: Op, clock: int, ttl: int)
    requires Covered(r, clock, ttl) && clock <= op.now && ttl > 0
    ensures Covered(OnRedis(r, op, ttl).0, op.now, ttl)
  {
    assert ExpireSpan(ttl) >= ttl;
  }

  function RedisAfter(r: Redis, ops: seq<Op>, ttl: int): Redis
    decreases |ops|
  {
    if ops == [] then r else RedisAfter(OnRedis(r, ops[0], ttl).0, ops[1..], ttl)
  }

  ghost predicate Ordered(ops: seq<Op>) {
    forall i, j :: 0 <= i <= j < |ops| ==> ops[i].now <= ops[j].now
  }

  lemma {:induction false} CoverKeptByRuns(r: Redis, ops: seq<Op>, clock: int, ttl: int)
    requires Covered(r, clock, ttl) && ttl > 0 && Ordered(ops)
    requires forall i :: 0 <= i < |ops| ==> clock <= ops[i].now
    ensures Covered(RedisAfter(r, ops, ttl), if ops == [] then clock else ops[|ops| - 1].now, ttl)
    decreases |ops|
  {
    if ops != [] {
      CoverKept(r, ops[0], clock, ttl);
      assert forall i :: 0 <= i < |ops[1..]| ==> ops[1..][i] == ops[i + 1];
      CoverKeptByRuns(OnRedis(r, ops[0], ttl).0, ops[1..], ops[0].now, ttl);
    }
  }

  /**
   * In every run, timely or not: the key-level EXPIRE never hides an unexpired lease, and a grant
   * leaves at most `maximum` unexpired leases on the key.
   */
  lemma {:induction false} ExpireDropsNothingAlive(ops: seq<Op>, key: int, maximum: int, token: int, now: int, ttl: int)
    requires Ordered(ops) && ttl > 0 && maximum > 0
    requires ops != [] ==> ops[|ops| - 1].now <= now
    ensures var r := RedisAfter(Redis(map[], map[]), ops, ttl);
            && (key in r.sets ==> Unexpired(Members(r, key, now), now) == Unexpired(r.sets[key].scores, now))
            && var (r', granted) := OnRedis(r, Acquire(key, maximum, token, now), ttl);
               granted ==> |Unexpired(r'.sets[key].scores, now).Keys| <= maximum
  {
    if ops != [] {
      CoverKeptByRuns(Redis(map[], map[]), ops, ops[0].now, ttl);
    }
    var r := RedisAfter(Redis(map[], map[]), ops, ttl);
    if key in r.sets {
      NothingHidden(r, key, now);
    }
    GrantFits(r, key, maximum, token, now, ttl);
  }

  lemma {:induction false} NothingHidden(r: Redis, key: int, now: int)
    requires key in r.sets
    requires forall t :: t in r.sets[key].scores ==> r.sets[key].scores[t] <= r.sets[key].expireAt
    ensures Unexpired(Members(r, key, now), now) == Unexpired(r.sets[key].scores, now)
  {
    if now >= r.sets[key].expireAt {
      assert forall t :: t !in Unexpired(r.sets[key].scores, now);
      assert forall t :: t !in Unexpired(map[], now);
    }
  }

  lemma {:induction false} GrantFits(r: Redis, key: int, maximum: int, token: int, now: int, ttl: int)
    requires ttl > 0 && maximum > 0
    ensures var (r', granted) := OnRedis(r, Acquire(key, maximum, token, now), ttl);
            granted ==> key in r'.sets && |Unexpired(r'.sets[key].scores, now).Keys| <= maximum
  {
    var alive := Unexpired(Members(r, key, now), now);
    var (r', granted) := OnRedis(r, Acquire(key, maximum, token, now), ttl);
    if granted {
      AddedKeys(alive, token, now, ttl);
      assert r'.sets[key].scores == alive[token := now + ttl];
    }
  }

  lemma {:induction false} AddedKeys(alive: map<int, int>, token: int, now: int, ttl: int)
    requires ttl > 0 && forall t :: t in alive ==> alive[t] > now
    ensures Unexpired(alive[token := now + ttl], now).Keys == alive.Keys + {token}
    ensures |alive.Keys + {token}| <= |alive.Keys| + 1
  {
    var more := alive[token := now + ttl];
    assert forall t :: t in Unexpired(more, now) <==> t in more;
  }

  /** One step: same decision, and the mirror survives. */
  lemma {:induction false} StepMirrors(m: Memory, r: Redis, granted: map<int, int>, op: Op, clock: int, ttl: int)
    requires Counts(m) && Mirrors(m, r, granted, ttl) && Covered(r, clock, ttl) && ttl > 0
    requires clock <= op.now
    requires op.Acquire? ==> op.token !in m.held
    requires forall t :: t in m.held ==> t in granted && op.now < granted[t] + ttl
    ensures InMemory(m, op).1 == OnRedis(r, op, ttl).1
    ensures Mirrors(InMemory(m, op).0, OnRedis(r, op, ttl).0, GrantTimes(m, granted, op), ttl)
  {
    if op.Acquire? && op.maximum > 0 {
      AcquireMirrors(m, r, granted, op, clock, ttl);
    } else if op.Release? {
      ReleaseMirrors(m, r, granted, op, ttl);
    }
  }

  lemma {:induction false} AcquireMirrors(m: Memory, r: Redis, granted: map<int, int>, op: Op, clock: int, ttl: int)
    requires Counts(m) && Mirrors(m, r, granted, ttl) && Covered(r, clock, ttl)
    requires op.Acquire? && op.maximum > 0 && op.token !in m.held
    requires forall t :: t in m.held ==> t in granted && op.now < granted[t] + ttl
    ensures InMemory(m, op).1 == OnRedis(r, op, ttl).1
    ensures Mirrors(InMemory(m, op).0, OnRedis(r, op, ttl).0, GrantTimes(m, granted, op), ttl)
  {
    var alive := Unexpired(Members(r, op.key, op.now), op.now);
    AllAlive(m, r, granted, op.key, op.now, clock, ttl);
    SameDecision(m, r, op, ttl);
    if InMemory(m, op).1 {
      GrantMirrors(m, r, granted, op.key, op.token, op.now, alive, ttl);
    } else {
      DenialMirrors(m, r, granted, op.key, alive, if op.key in r.sets then r.sets[op.key].expireAt else 0, ttl);
    }
  }

  function WithGrant(r: Redis, key: int, token: int, now: int, alive: map<int, int>, ttl: int): Redis {
    Redis(r.sets[key := ZSet(alive[token := now + ttl], now + ExpireSpan(ttl))], r.owner[token := key])
  }

  function WithDenial(r: Redis, key: int, alive: map<int, int>, kept: int): Redis {
    r.(sets := r.sets[key := ZSet(alive, kept)])
  }

  /** Both managers compare the same count to the same maximum; a grant or a denial then writes this and no more. */
  lemma {:induction false} SameDecision(m: Memory, r: Redis, op: Op, ttl: int)
    requires Counts(m) && op.Acquire? && op.maximum > 0
    requires Unexpired(Members(r, op.key, op.now), op.now).Keys == Tokens(m.held, op.key)
    ensures InMemory(m, op).1 == OnRedis(r, op, ttl).1 == (Current(m.states, op.key) < op.maximum)
    ensures var alive := Unexpired(Members(r, op.key, op.now), op.now);
            OnRedis(r, op, ttl).0 ==
            if InMemory(m, op).1 then WithGrant(r, op.key, op.token, op.now, alive, ttl)
            else WithDenial(r, op.key, alive, if op.key in r.sets then r.sets[op.key].expireAt else 0)
  {
  }

  /** A denial only rewrites the set it scanned with the members it already had. */
  lemma {:induction false} DenialMirrors(m: Memory, r: Redis, granted: map<int, int>, key: int, alive: map<int, int>,
                                         kept: int, ttl: int)
    requires Mirrors(m, r, granted, ttl)
    requires alive == if key in r.sets then r.sets[key].scores else map[]
    ensures Mirrors(m, WithDenial(r, key, alive, kept), granted, ttl)
  {
    var sets' := r.sets[key := ZSet(alive, kept)];
    assert forall k :: MembersOf(sets', k) == MembersOf(r.sets, k);
  }

  /** Adding the same fresh token on both sides keeps the mirror. */
  lemma {:induction false} GrantMirrors(m: Memory, r: Redis, granted: map<int, int>, key: int, token: int, now: int,
                                        alive: map<int, int>, ttl: int)
    requires Mirrors(m, r, granted, ttl) && token !in m.held
    requires alive == if key in r.sets then r.sets[key].scores else map[]
    ensures Mirrors(Memory(Raised(m.states, key), m.held[token := key]),
                    WithGrant(r, key, token, now, alive, ttl), granted[token := now], ttl)
  {
    TokenAdded(m.held, r.sets, key, token, ZSet(alive[token := now + ttl], now + ExpireSpan(ttl)));
    ScoreAdded(m.held, r.sets, granted, key, token, now, alive, now + ExpireSpan(ttl), ttl);
  }

  lemma {:induction false} TokenAdded(held: map<int, int>, sets: map<int, ZSet>, key: int, token: int, z: ZSet)
    requires SameTokens(held, sets) && token !in held && z.scores.Keys == MembersOf(sets, key) + {token}
    ensures SameTokens(held[token := key], sets[key := z])
  {
    var held', sets' := held[token := key], sets[key := z];
    forall k
      ensures Tokens(held', k) == MembersOf(sets', k)
    {
      assert Tokens(held', k) == if k == key then Tokens(held, k) + {token} else Tokens(held, k);
    }
  }

  lemma {:induction false} ScoreAdded(held: map<int, int>, sets: map<int, ZSet>, granted: map<int, int>, key: int,
                                      token: int, now: int, alive: map<int, int>, expireAt: int, ttl: int)
    requires SameTokens(held, sets) && ScoredBy(sets, granted, ttl) && token !in held
    requires alive == if key in sets then sets[key].scores else map[]
    ensures ScoredBy(sets[key := ZSet(alive[token := now + ttl], expireAt)], granted[token := now], ttl)
  {
    forall k, t | k in sets && t in sets[k].scores
      ensures t != token
    {
      assert t in MembersOf(sets, k) && t in Tokens(held, k);
    }
  }

  lemma {:induction false} ReleaseMirrors(m: Memory, r: Redis, granted: map<int, int>, op: Op, ttl: int)
    requires Mirrors(m, r, granted, ttl) && op.Release?
    ensures Mirrors(InMemory(m, op).0, OnRedis(r, op, ttl).0, granted, ttl)
  {
    var (m', r') := (InMemory(m, op).0, OnRedis(r, op, ttl).0);
    forall k
      ensures Tokens(m'.held, k) == MembersOf(r'.sets, k)
    {
      assert Tokens(m.held, k) == MembersOf(r.sets, k);
      assert Tokens(m'.held, k) == Tokens(m.held, k) - {op.token};
      assert op.token in Tokens(m.held, k) ==> r.owner[op.token] == k;
    }
  }

  /** While no held lease has expired, the scan on acquire sees exactly the held leases. */
  lemma {:induction false} AllAlive(m: Memory, r: Redis, granted: map<int, int>, key: int, now: int, clock: int,
                                    ttl: int)
    requires Mirrors(m, r, granted, ttl) && Covered(r, clock, ttl)
    requires forall t :: t in m.held ==> t in granted && now < granted[t] + ttl
    ensures Unexpired(Members(r, key, now), now) == if key in r.sets then r.sets[key].scores else map[]
    ensures Unexpired(Members(r, key, now), now).Keys == Tokens(m.held, key)
  {
    assert Tokens(m.held, key) == MembersOf(r.sets, key);
    if key in r.sets {
      var scores := r.sets[key].scores;
      assert scores.Keys == Tokens(m.held, key);
      forall t | t in scores
        ensures scores[t] > now && now < r.sets[key].expireAt
      {
        assert t in Tokens(m.held, key);
      }
      if scores == map[] {
        assert Members(r, key, now) == map[];
      }
    }
  }

  lemma {:induction false} SameFrom(m: Memory, r: Redis, granted: map<int, int>, ops: seq<Op>, clock: int, ttl: int)
    requires Counts(m) && Mirrors(m, r, granted, ttl) && Covered(r, clock, ttl) && ttl > 0
    requires ReleasedInTime(m, granted, ops, clock, ttl)
    ensures MemoryGrants(m, ops) == RedisGrants(r, ops, ttl)
    decreases |ops|
  {
    if ops != [] {
      var op := ops[0];
      CountsKept(m, op);
      CoverKept(r, op, clock, ttl);
      StepMirrors(m, r, granted, op, clock, ttl);
      SameFrom(InMemory(m, op).0, OnRedis(r, op, ttl).0, GrantTimes(m, granted, op), ops[1..], op.now, ttl);
    }
  }

  /** If every lease is released before its TTL, the two managers grant and deny alike, call for call. */
  lemma {:induction false} RedisMatchesMemory(ops: seq<Op>, clock: int, ttl: int)
    requires ttl > 0 && ReleasedInTime(Memory(map[], map[]), map[], ops, clock, ttl)
    ensures MemoryGrants(Memory(map[], map[]), ops) == RedisGrants(Redis(map[], map[]), ops, ttl)
  {
    assert forall k :: Tokens(map[], k) == {};
    SameFrom(Memory(map[], map[]), Redis(map[], map[]), map[], ops, clock, ttl);
  }

  function MemoryAfter(m: Memory, ops: seq<Op>): Memory
    decreases |ops|
  {
    if ops == [] then m else MemoryAfter(InMemory(m, ops[0]).0, ops[1..])
  }

  /** When each lease held after a run was granted. */
  function GrantedAt(m: Memory, granted: map<int, int>, ops: seq<Op>): map<int, int>
    decreases |ops|
  {
    if ops == [] then granted else GrantedAt(InMemory(m, ops[0]).0, GrantTimes(m, granted, ops[0]), ops[1..])
  }

  /** A timely run ends with the sorted sets mirroring the held leases. */
  lemma {:induction false} MirrorAfter(m: Memory, r: Redis, granted: map<int, int>, ops: seq<Op>, clock: int, ttl: int)
    requires Counts(m) && Mirrors(m, r, granted, ttl) && Covered(r, clock, ttl) && ttl > 0
    requires ReleasedInTime(m, granted, ops, clock, ttl)
    ensures Counts(MemoryAfter(m, ops))
    ensures Mirrors(MemoryAfter(m, ops), RedisAfter(r, ops, ttl), GrantedAt(m, granted, ops), ttl)
    ensures Covered(RedisAfter(r, ops, ttl), if ops == [] then clock else ops[|ops| - 1].now, ttl)
    decreases |ops|
  {
    if ops != [] {
      var op := ops[0];
      CountsKept(m, op);
      CoverKept(r, op, clock, ttl);
      StepMirrors(m, r, granted, op, clock, ttl);
      MirrorAfter(InMemory(m, op).0, OnRedis(r, op, ttl).0, GrantTimes(m, granted, op), ops[1..], op.now, ttl);
    }
  }

  /** The leases held for a key that have not reached their TTL. */
  function Timely(m: Memory, granted: map<int, int>, key: int, now: int, ttl: int): set<int> {
    set t | t in Tokens(m.held, key) && t in granted && now < granted[t] + ttl
  }

  lemma {:induction false} SeenExactly(m: Memory, r: Redis, granted: map<int, int>, key: int, now: int, clock: int,
                                       ttl: int)
    requires Mirrors(m, r, granted, ttl) && Covered(r, clock, ttl)
    ensures Unexpired(Members(r, key, now), now).Keys == Timely(m, granted, key, now, ttl)
  {
    var seen := Unexpired(Members(r, key, now), now);
    assert Tokens(m.held, key) == MembersOf(r.sets, key);
    forall t
      ensures t in seen <==> t in Timely(m, granted, key, now, ttl)
    {
      if key in r.sets && t in r.sets[key].scores {
        assert r.sets[key].scores[t] == granted[t] + ttl <= r.sets[key].expireAt;
      }
    }
  }

  /**
   * What happens to leases that outlive their TTL: after any timely run an acquire is decided differently exactly
   * when the unexpired leases leave room and the held ones do not, and then memory denies what Redis grants.
   */
  lemma {:induction false} OverdueLeasesTellThemApart(ops: seq<Op>, clock: int, ttl: int, op: Op)
    requires ttl > 0 && ReleasedInTime(Memory(map[], map[]), map[], ops, clock, ttl)
    requires op.Acquire? && op.maximum > 0
    ensures var m := MemoryAfter(Memory(map[], map[]), ops);
            var r := RedisAfter(Redis(map[], map[]), ops, ttl);
            var timely := Timely(m, GrantedAt(Memory(map[], map[]), map[], ops), op.key, op.now, ttl);
            && InMemory(m, op).1 == (|Tokens(m.held, op.key)| < op.maximum)
            && OnRedis(r, op, ttl).1 == (|timely| < op.maximum)
            && (InMemory(m, op).1 != OnRedis(r, op, ttl).1 <==> |timely| < op.maximum <= |Tokens(m.held, op.key)|)
  {
    var m := MemoryAfter(Memory(map[], map[]), ops);
    var r := RedisAfter(Redis(map[], map[]), ops, ttl);
    var granted := GrantedAt(Memory(map[], map[]), map[], ops);
    assert forall k :: Tokens(map[], k) == {};
    MirrorAfter(Memory(map[], map[]), Redis(map[], map[]), map[], ops, clock, ttl);
    SeenExactly(m, r, granted, op.key, op.now, if ops == [] then clock else ops[|ops| - 1].now, ttl);
    SubsetSize(Timely(m, granted, op.key, op.now, ttl), Tokens(m.held, op.key));
  }

  /** So once a held lease has reached its TTL, an acquire up to the number held is denied only in memory. */
  lemma {:induction false} OneOverdueLeaseSuffices(ops: seq<Op>, clock: int, ttl: int, token: int, op: Op)
    requires ttl > 0 && ReleasedInTime(Memory(map[], map[]), map[], ops, clock, ttl)
    requires token in MemoryAfter(Memory(map[], map[]), ops).held
    requires var m := MemoryAfter(Memory(map[], map[]), ops);
             && op.Acquire? && op.key == m.held[token] && op.maximum == |Tokens(m.held, op.key)|
             && token in GrantedAt(Memory(map[], map[]), map[], ops)
             && op.now >= GrantedAt(Memory(map[], map[]), map[], ops)[token] + ttl
    ensures !InMemory(MemoryAfter(Memory(map[], map[]), ops), op).1
    ensures OnRedis(RedisAfter(Redis(map[], map[]), ops, ttl), op, ttl).1
  {
    var m := MemoryAfter(Memory(map[], map[]), ops);
    var granted := GrantedAt(Memory(map[], map[]), map[], ops);
    var timely := Timely(m, granted, op.key, op.now, ttl);
    assert token in Tokens(m.held, op.key) && token !in timely;
    SubsetSize(timely, Tokens(m.held, op.key) - {token});
    assert |Tokens(m.held, op.key) - {token}| == |Tokens(m.held, op.key)| - 1;
    OverdueLeasesTellThemApart(ops, clock, ttl, op);
  }

  /** It does happen, for every TTL: one lease held for its whole TTL is counted in memory and no longer on Redis. */
  lemma {:induction false} HeldForItsTTL(ttl: int)
    requires ttl > 0
    ensures var (held, next) := ([Acquire(1, 1, 7, 0)], Acquire(1, 1, 8, ttl));
            && ReleasedInTime(Memory(map[], map[]), map[], held, 0, ttl)
            && !InMemory(MemoryAfter(Memory(map[], map[]), held), next).1
            && OnRedis(RedisAfter(Redis(map[], map[]), held, ttl), next, ttl).1
  {
    var held, next := [Acquire(1, 1, 7, 0)], Acquire(1, 1, 8, ttl);
    assert held[1..] == [];
    var m := MemoryAfter(Memory(map[], map[]), held);
    assert m == InMemory(Memory(map[], map[]), held[0]).0;
    assert Tokens(m.held, 1) == {7};
    OneOverdueLeaseSuffices(held, 0, ttl, 7, next);
  }
}
