/**
 The same lease port over Redis (apps/telegram-worker/src/workers/redis-account-lock.ts), and the
 proof that the two registries cannot be told apart by any schedule of calls, but for one case.

 Redis is a map of keys that are gone from the moment they expire. A script runs as one step.
 */
module RedisLock {
  import opened Common
  import opened AccountLock

  /** The value `${workerId}:${uuid}` stored under a key. */
  datatype LockValue = LockValue(workerId: string, uuid: Uuid)
  datatype Entry = Entry(value: LockValue, expiresAt: int)
  type Keys = map<string, Entry>

  const DEFAULT_PREFIX := "telegram_account_lock:"

  /** GET: the value stored under a key that has not expired. */
  function Get(keys: Keys, key: string, now: int): Option<LockValue> {
    if key in keys && keys[key].expiresAt > now then Some(keys[key].value) else None
  }

  class RedisServer {
    var keys: Keys

    /** SET key value PX ttl NX */
    method SetPxNx(key: string, value: LockValue, ttlMs: int, now: int) returns (ok: bool)
      requires ttlMs > 0
      modifies this
      ensures ok == Get(old(keys), key, now).None?
      ensures keys == if ok then old(keys)[key := Entry(value, now + ttlMs)] else old(keys)
    {
      ok := !(key in keys && keys[key].expiresAt > now);
      if ok { keys := keys[key := Entry(value, now + ttlMs)]; }
    }

    /** The renew script: compare, then PEXPIRE. */
    method EvalRenew(key: string, value: LockValue, ttlMs: int, now: int) returns (reply: int)
      requires ttlMs > 0
      modifies this
      ensures reply == if Get(old(keys), key, now) == Some(value) then 1 else 0
      ensures keys == if reply == 1 then old(keys)[key := Entry(value, now + ttlMs)] else old(keys)
    {
      var current := Get(keys, key, now);
      if current == Some(value) {
        keys := keys[key := keys[key].(expiresAt := now + ttlMs)];
        reply := 1;
      } else {
        reply := 0;
      }
    }

    /** The release script: compare, then DEL. */
    method EvalRelease(key: string, value: LockValue, now: int) returns (reply: int)
      modifies this
      ensures reply == if Get(old(keys), key, now) == Some(value) then 1 else 0
      ensures keys == if reply == 1 then old(keys) - {key} else old(keys)
    {
      var current := Get(keys, key, now);
      if current == Some(value) {
        keys := keys - {key};
        reply := 1;
      } else {
        reply := 0;
      }
    }
  }

  function KeyOf(prefix: string, accountId: string): string { prefix + accountId }

  lemma KeyOfInjective(prefix: string, a: string, b: string)
    ensures KeyOf(prefix, a) == KeyOf(prefix, b) ==> a == b
  {
    assert (prefix + a)[|prefix|..] == a && (prefix + b)[|prefix|..] == b;
  }

  function ValueOf(g: Grant): LockValue { LockValue(g.workerId, g.token) }

  /** The lease's key still holds the lease's value. */
  predicate Stored(keys: Keys, prefix: string, g: Grant, now: int) {
    Get(keys, KeyOf(prefix, g.accountId), now) == Some(ValueOf(g))
  }

  class RedisAccountLockRegistry {
    const redis: RedisServer
    const prefix: string

    constructor (redis: RedisServer, prefix: string := DEFAULT_PREFIX)
      ensures this.redis == redis && this.prefix == prefix
    {
      this.redis := redis;
      this.prefix := prefix;
    }

    method Acquire(accountId: string, workerId: string, ttlMs: int, now: int, token: Uuid)
      returns (lease: Option<RedisLease>)
      requires ttlMs > 0  // Redis answers a non-positive PX with an error
      modifies redis
      ensures lease.Some? == Get(old(redis.keys), KeyOf(prefix, accountId), now).None?
      ensures lease.Some? ==>
                prefix + accountId in redis.keys &&
                redis.keys[prefix + accountId] == Entry(LockValue(workerId, token), now + ttlMs)
      ensures redis.keys ==
              if lease.Some?
              then old(redis.keys)[KeyOf(prefix, accountId) := Entry(LockValue(workerId, token), now + ttlMs)]
              else old(redis.keys)
      ensures lease.Some? ==>
                && fresh(lease.value) && lease.value.redis == redis && lease.value.prefix == prefix
                && !lease.value.released && lease.value.grant == Grant(accountId, workerId, token, ttlMs)
    {
      var acquired := redis.SetPxNx(prefix + accountId, LockValue(workerId, token), ttlMs, now);
      if !acquired { return None; }
      var granted := new RedisLease(redis, prefix, Grant(accountId, workerId, token, ttlMs));
      return Some(granted);
    }
  }

  class RedisLease {
    const redis: RedisServer
    const prefix: string
    const grant: Grant
    var released: bool

    constructor (redis: RedisServer, prefix: string, grant: Grant)
      ensures this.redis == redis && this.prefix == prefix && this.grant == grant && !released
    {
      this.redis, this.prefix, this.grant := redis, prefix, grant;
      released := false;
    }

    method Renew(now: int) returns (ok: bool)
      requires grant.ttlMs > 0
      modifies redis
      ensures ok == (!released && Stored(old(redis.keys), prefix, grant, now))
      ensures redis.keys == AfterRedisRenew(old(redis.keys), prefix, grant, released, now)
    {
      if released { return false; }
      var reply := redis.EvalRenew(prefix + grant.accountId, ValueOf(grant), grant.ttlMs, now);
      ok := reply == 1;
    }

    /** The flag is set before the script runs, whatever the script answers. */
    method Release(now: int) returns (ok: bool)
      modifies redis, this`released
      ensures ok == (!old(released) && Stored(old(redis.keys), prefix, grant, now))
      ensures redis.keys == AfterRedisRelease(old(redis.keys), prefix, grant, old(released), now)
      ensures released
    {
      if released { return false; }
      released := true;
      var reply := redis.EvalRelease(prefix + grant.accountId, ValueOf(grant), now);
      ok := reply == 1;
    }
  }

  function AfterRedisRenew(keys: Keys, prefix: string, g: Grant, released: bool, now: int): Keys {
    if !released && Stored(keys, prefix, g, now)
    then keys[KeyOf(prefix, g.accountId) := Entry(ValueOf(g), now + g.ttlMs)]
    else keys
  }

  function AfterRedisRelease(keys: Keys, prefix: string, g: Grant, released: bool, now: int): Keys {
    if !released && Stored(keys, prefix, g, now) then keys - {KeyOf(prefix, g.accountId)} else keys
  }

  // ---------- Runs, on the schedules of the in-memory registry ----------

  datatype RedisWorld = RedisWorld(clock: int, prefix: string, keys: Keys, grants: map<Uuid, Grant>,
      released: set<Uuid>)

  predicate RedisAllowed(r: RedisWorld, c: LockCall) {
    match c
    case Advance(_) => true
    case AcquireCall(_, _, ttl, token) => ttl > 0 && token !in r.grants
    case RenewCall(token, _) => token in r.grants
    case ReleaseCall(token) => token in r.grants
  }

  predicate RedisAnswer(r: RedisWorld, c: LockCall)
    requires RedisAllowed(r, c)
  {
    match c
    case Advance(_) => true
    case AcquireCall(a, _, _, _) => Get(r.keys, KeyOf(r.prefix, a), r.clock).None?
    case RenewCall(t, _) => t !in r.released && Stored(r.keys, r.prefix, r.grants[t], r.clock)
    case ReleaseCall(t) => t !in r.released && Stored(r.keys, r.prefix, r.grants[t], r.clock)
  }

  function RedisNext(r: RedisWorld, c: LockCall): RedisWorld
    requires RedisAllowed(r, c)
  {
    match c
    case Advance(ms) => r.(clock := r.clock + ms)
    case AcquireCall(a, k, ttl, t) =>
      if RedisAnswer(r, c)
      then r.(keys := r.keys[KeyOf(r.prefix, a) := Entry(LockValue(k, t), r.clock + ttl)],
              grants := r.grants[t := Grant(a, k, t, ttl)])
      else r
    case RenewCall(t, lag) =>
      r.(keys := AfterRedisRenew(r.keys, r.prefix, r.grants[t], t in r.released, r.clock), clock := r.clock + lag)
    case ReleaseCall(t) =>
      r.(keys := AfterRedisRelease(r.keys, r.prefix, r.grants[t], t in r.released, r.clock),
         released := r.released + {t})
  }

  // ---------- Simulation ----------

  /** Valid arguments, and one clock reading per call: the schedules on which both registries are defined alike. */
  predicate Comparable(c: LockCall) {
    match c
    case AcquireCall(a, k, ttl, _) => ValidArguments(a, k, ttl)
    case RenewCall(_, lag) => lag == 0
    case _ => true
  }

  predicate ComparableRun(calls: seq<LockCall>) { forall i :: 0 <= i < |calls| ==> Comparable(calls[i]) }

  /** Both registries would answer the same about this account now. */
  ghost predicate SameLock(m: LockWorld, r: RedisWorld, a: string) {
    && Occupied(m.locks, a, m.clock) == Get(r.keys, KeyOf(r.prefix, a), r.clock).Some?
    && (Occupied(m.locks, a, m.clock) ==>
          && m.locks[a].expiresAt == r.keys[KeyOf(r.prefix, a)].expiresAt
          && r.keys[KeyOf(r.prefix, a)].value == LockValue(m.locks[a].workerId, m.locks[a].token))
  }

  /**
   The unexpired locks agree; a flag set only in Redis belongs to a lease the in-memory table no
   longer stores.
   */
  ghost predicate Similar(m: LockWorld, r: RedisWorld) {
    && Consistent(m)
    && m.clock == r.clock && m.grants == r.grants && m.released <= r.released <= m.grants.Keys
    && (forall a :: SameLock(m, r, a))
    && (forall a :: a in m.locks ==> m.locks[a].token !in r.released)
  }

  /** The lease has expired, nobody has taken the account since, and it has not been released. */
  predicate ExpiredUnclaimed(m: LockWorld, token: Uuid) {
    && token in m.grants && token !in m.released
    && Recorded(m.locks, m.grants[token])
    && m.locks[m.grants[token].accountId].expiresAt <= m.clock
  }

  lemma SimilarAnswers(m: LockWorld, r: RedisWorld, c: LockCall)
    requires Similar(m, r) && Allowed(m, c) && Comparable(c)
    ensures RedisAllowed(r, c)
    ensures Answer(m, c) != RedisAnswer(r, c) <==> c.ReleaseCall? && ExpiredUnclaimed(m, c.token)
    ensures Answer(m, c) != RedisAnswer(r, c) ==> Answer(m, c)
  {
    match c
    case Advance(_) =>
    case AcquireCall(a, _, _, _) => assert SameLock(m, r, a);
    case RenewCall(t, _) => assert SameLock(m, r, m.grants[t].accountId);
    case ReleaseCall(t) => assert SameLock(m, r, m.grants[t].accountId);
  }

  lemma SimilarSteps(m: LockWorld, r: RedisWorld, c: LockCall)
    requires Similar(m, r) && Allowed(m, c) && Comparable(c)
    ensures RedisAllowed(r, c) && Similar(Next(m, c), RedisNext(r, c))
  {
    SimilarAnswers(m, r, c);
    StepConsistent(m, c);
    var m', r' := Next(m, c), RedisNext(r, c);
    forall a ensures SameLock(m', r', a) {
      assert SameLock(m, r, a);
      if c.AcquireCall? {
        assert SameLock(m, r, c.accountId);
        KeyOfInjective(r.prefix, a, c.accountId);
      } else if !c.Advance? {
        var b := m.grants[c.token].accountId;
        assert SameLock(m, r, b);
        KeyOfInjective(r.prefix, a, b);
      }
    }
  }

  /** What a schedule makes the registries answer, call by call. */
  function Answers(m: LockWorld, calls: seq<LockCall>): (r: seq<bool>)
    requires ValidRun(m, calls)
    ensures |r| == |calls|
    decreases calls
  {
    if calls == [] then [] else [Answer(m, calls[0])] + Answers(Next(m, calls[0]), calls[1..])
  }

  predicate RedisValidRun(r: RedisWorld, calls: seq<LockCall>)
    decreases calls
  {
    calls == [] || (RedisAllowed(r, calls[0]) && RedisValidRun(RedisNext(r, calls[0]), calls[1..]))
  }

  function RedisAnswers(r: RedisWorld, calls: seq<LockCall>): (answers: seq<bool>)
    requires RedisValidRun(r, calls)
    ensures |answers| == |calls|
    decreases calls
  {
    if calls == [] then [] else [RedisAnswer(r, calls[0])] + RedisAnswers(RedisNext(r, calls[0]), calls[1..])
  }

  lemma {:induction false} PrefixIsRun(m: LockWorld, calls: seq<LockCall>, i: nat)
    requires ValidRun(m, calls) && i <= |calls|
    ensures ValidRun(m, calls[..i])
    decreases calls
  {
    if i > 0 {
      assert calls[..i][1..] == calls[1..][..i - 1];
      PrefixIsRun(Next(m, calls[0]), calls[1..], i - 1);
    }
  }

  /**
   Any schedule the in-memory registry admits runs on Redis, and the i-th answers differ exactly
   when call i releases a lease that has expired and not been claimed by anyone since. Then the
   in-memory release answers true and the Redis one false; every later answer agrees again, so
   the differing `released` flags are never observed.
   */
  lemma {:induction false} RegistriesAgree(m: LockWorld, r: RedisWorld, calls: seq<LockCall>, i: nat)
    requires Similar(m, r) && ValidRun(m, calls) && ComparableRun(calls) && i < |calls|
    ensures RedisValidRun(r, calls)
    ensures ValidRun(m, calls[..i])
    ensures Answers(m, calls)[i] != RedisAnswers(r, calls)[i] <==>
            calls[i].ReleaseCall? && ExpiredUnclaimed(After(m, calls[..i]), calls[i].token)
    ensures Answers(m, calls)[i] != RedisAnswers(r, calls)[i] ==> Answers(m, calls)[i]
    decreases calls
  {
    SimilarAnswers(m, r, calls[0]);
    SimilarSteps(m, r, calls[0]);
    PrefixIsRun(m, calls, i);
    var m', r' := Next(m, calls[0]), RedisNext(r, calls[0]);
    if i > 0 {
      assert calls[..i][1..] == calls[1..][..i - 1];
      RegistriesAgree(m', r', calls[1..], i - 1);
    } else if |calls| > 1 {
      RegistriesAgree(m', r', calls[1..], 0);
    }
  }

  /** Two empty registries with the same clock are similar, so the agreement holds of every schedule from the start. */
  lemma FreshRegistriesAgree(clock: int, prefix: string, calls: seq<LockCall>, i: nat)
    requires ValidRun(Initial(clock), calls) && ComparableRun(calls) && i < |calls|
    ensures var r := RedisWorld(clock, prefix, map[], map[], {});
            && RedisValidRun(r, calls)
            && (!calls[i].ReleaseCall? ==> Answers(Initial(clock), calls)[i] == RedisAnswers(r, calls)[i])
  {
    var r := RedisWorld(clock, prefix, map[], map[], {});
    assert Similar(Initial(clock), r);
    RegistriesAgree(Initial(clock), r, calls, i);
  }

  /** In similar states a lease is live in one registry exactly when it is stored in the other. */
  lemma LiveIffStored(m: LockWorld, r: RedisWorld, t: Uuid)
    requires Similar(m, r) && t in m.grants
    ensures Live(m, t) <==> Stored(r.keys, r.prefix, r.grants[t], r.clock)
  {
    assert SameLock(m, r, m.grants[t].accountId);
  }

  /** The one observable difference occurs: a lease of 1 ms, released 1 ms after it was taken. */
  lemma ReleaseAfterExpiryDiffers(clock: int, prefix: string)
    ensures var calls := [AcquireCall("a", "w", 1, 0), Advance(1), ReleaseCall(0)];
            && ValidRun(Initial(clock), calls) && ComparableRun(calls)
            && RedisValidRun(RedisWorld(clock, prefix, map[], map[], {}), calls)
            && Answers(Initial(clock), calls)[2] && !RedisAnswers(RedisWorld(clock, prefix, map[], map[], {}), calls)[2]
  {
    var calls := [AcquireCall("a", "w", 1, 0), Advance(1), ReleaseCall(0)];
    var m := Initial(clock);
    assert Occupied(m.locks, "a", clock) == false;
    var m1 := Next(m, calls[0]);
    var m2 := Next(m1, calls[1]);
    assert calls[1..] == [Advance(1), ReleaseCall(0)] && calls[2..] == [ReleaseCall(0)] &&
      calls[1..][1..] == calls[2..];
    assert ValidRun(m2, calls[2..]);
    assert ValidRun(m1, calls[1..]);
    assert ValidRun(m, calls);
    assert calls[..2] == [AcquireCall("a", "w", 1, 0), Advance(1)] && calls[..2][1..] == [Advance(1)];
    assert ExpiredUnclaimed(m2, 0);
    assert After(m, calls[..2]) == m2 by {
      assert After(m1, calls[..2][1..]) == After(m2, calls[..2][1..][1..]);
    }
    assert Similar(m, RedisWorld(clock, prefix, map[], map[], {}));
    RegistriesAgree(m, RedisWorld(clock, prefix, map[], map[], {}), calls, 2);
  }
}
