/**
 Leases with a time limit on Telegram accounts, as the in-memory registry grants them
 (apps/telegram-worker/src/workers/account-lock.ts).

 The registry and the lease objects it hands out are classes; what their methods do is given
 by functions on the lock table, and the laws of the protocol are proved about runs of those
 functions: every sequence of acquire, renew and release calls under a clock that never goes back.
 */
module AccountLock {
  import opened Common

  /** A `randomUUID()` value. Freshness is a condition on runs (`Allowed`), not on single calls. */
  type Uuid = nat

  datatype LockRecord = LockRecord(token: Uuid, workerId: string, expiresAt: int)

  type Locks = map<string, LockRecord>

  /** What the `renew` and `release` closures of one lease capture. */
  datatype Grant = Grant(accountId: string, workerId: string, token: Uuid, ttlMs: int)

  datatype Acquired = InvalidArguments | Held | Granted(grant: Grant)

  predicate ValidArguments(accountId: string, workerId: string, ttlMs: int) {
    accountId != "" && workerId != "" && ttlMs > 0
  }

  /** Is the account's record unexpired at `now`? */
  predicate Occupied(locks: Locks, accountId: string, now: int) {
    accountId in locks && locks[accountId].expiresAt > now
  }

  function AcquireOutcome(locks: Locks, accountId: string, workerId: string, ttlMs: int, token: Uuid, now: int)
    : Acquired
  {
    if !ValidArguments(accountId, workerId, ttlMs) then InvalidArguments
    else if Occupied(locks, accountId, now) then Held
    else Granted(Grant(accountId, workerId, token, ttlMs))
  }

  function AfterAcquire(locks: Locks, accountId: string, workerId: string, ttlMs: int, token: Uuid, now: int): Locks {
    if AcquireOutcome(locks, accountId, workerId, ttlMs, token, now).Granted?
    then locks[accountId := LockRecord(token, workerId, now + ttlMs)]
    else locks
  }

  /** The stored record is still the one this lease wrote. */
  predicate Recorded(locks: Locks, g: Grant) {
    g.accountId in locks && locks[g.accountId].token == g.token && locks[g.accountId].workerId == g.workerId
  }

  predicate RenewSucceeds(locks: Locks, g: Grant, released: bool, now: int) {
    !released && Recorded(locks, g) && locks[g.accountId].expiresAt > now
  }

  /** The clock is read twice: once for the check, once (`later`) for the new expiry. */
  function AfterRenew(locks: Locks, g: Grant, released: bool, now: int, later: int): Locks {
    if RenewSucceeds(locks, g, released, now)
    then locks[g.accountId := locks[g.accountId].(expiresAt := later + g.ttlMs)]
    else locks
  }

  /** Release does not look at the expiry. */
  predicate ReleaseSucceeds(locks: Locks, g: Grant, released: bool) {
    !released && Recorded(locks, g)
  }

  function AfterRelease(locks: Locks, g: Grant, released: bool): Locks {
    if ReleaseSucceeds(locks, g, released) then locks - {g.accountId} else locks
  }

  class InMemoryAccountLockRegistry {
    var locks: Locks

    constructor ()
      ensures locks == map[]
    {
      locks := map[];
    }

    /** `None` with `invalid` is the thrown TypeError; `None` alone is the `undefined` result. */
    method Acquire(accountId: string, workerId: string, ttlMs: int, now: int, token: Uuid)
      returns (lease: Option<Lease>, invalid: bool)
      modifies this`locks
      ensures locks == AfterAcquire(old(locks), accountId, workerId, ttlMs, token, now)
      ensures invalid == AcquireOutcome(old(locks), accountId, workerId, ttlMs, token, now).InvalidArguments?
      ensures lease.Some? == AcquireOutcome(old(locks), accountId, workerId, ttlMs, token, now).Granted?
      ensures invalid <==> accountId == "" || workerId == "" || ttlMs <= 0
      ensures lease.Some? <==> !invalid && !(accountId in old(locks) && old(locks)[accountId].expiresAt > now)
      ensures locks ==
              if lease.Some? then old(locks)[accountId := LockRecord(token, workerId, now + ttlMs)] else old(locks)
      ensures lease.Some? ==>
                && fresh(lease.value) && lease.value.registry == this && !lease.value.released
                && lease.value.grant == Grant(accountId, workerId, token, ttlMs)
    {
      lease, invalid := None, false;
      if accountId == "" || workerId == "" || ttlMs <= 0 {
        invalid := true;
        return;
      }
      if accountId in locks && locks[accountId].expiresAt > now {
        return;
      }
      locks := locks[accountId := LockRecord(token, workerId, now + ttlMs)];
      var granted := new Lease(this, Grant(accountId, workerId, token, ttlMs));
      lease := Some(granted);
    }
  }

  /** The object an acquire returns, with the `released` variable its closures share. */
  class Lease {
    const registry: InMemoryAccountLockRegistry
    const grant: Grant
    var released: bool

    constructor (registry: InMemoryAccountLockRegistry, grant: Grant)
      ensures this.registry == registry && this.grant == grant && !released
    {
      this.registry := registry;
      this.grant := grant;
      released := false;
    }

    method Renew(now: int, later: int) returns (ok: bool)
      modifies registry`locks
      ensures ok == RenewSucceeds(old(registry.locks), grant, released, now)
      ensures registry.locks == AfterRenew(old(registry.locks), grant, released, now, later)
      ensures var before, a := old(registry.locks), grant.accountId;
              && (ok <==> && !released && a in before && before[a].token == grant.token
                          && before[a].workerId == grant.workerId && before[a].expiresAt > now)
              && registry.locks ==
                 if ok then before[a := LockRecord(grant.token, grant.workerId, later + grant.ttlMs)] else before
    {
      var locks := registry.locks;
      if released || grant.accountId !in locks { return false; }
      var record := locks[grant.accountId];
      if record.token != grant.token || record.workerId != grant.workerId || record.expiresAt <= now {
        return false;
      }
      registry.locks := locks[grant.accountId := record.(expiresAt := later + grant.ttlMs)];
      return true;
    }

    method Release() returns (ok: bool)
      modifies registry`locks, this`released
      ensures ok == ReleaseSucceeds(old(registry.locks), grant, old(released))
      ensures registry.locks == AfterRelease(old(registry.locks), grant, old(released))
      ensures released == (old(released) || ok)
      ensures var before, a := old(registry.locks), grant.accountId;
              && (ok <==> && !old(released) && a in before && before[a].token == grant.token
                          && before[a].workerId == grant.workerId)
              && registry.locks == if ok then before - {a} else before
    {
      var locks := registry.locks;
      if released || grant.accountId !in locks { return false; }
      var record := locks[grant.accountId];
      if record.token != grant.token || record.workerId != grant.workerId { return false; }
      released := true;
      registry.locks := locks - {grant.accountId};
      return true;
    }
  }

  // ---------- Runs of the registry ----------

  datatype LockCall =
    | Advance(ms: nat)
    | AcquireCall(accountId: string, workerId: string, ttlMs: int, token: Uuid)
    | RenewCall(token: Uuid, lag: nat)  // `lag`: time between the two clock readings
    | ReleaseCall(token: Uuid)

  /** `grants` holds every lease ever granted, by its token; `released` the leases whose flag is set. */
  datatype LockWorld = LockWorld(clock: int, locks: Locks, grants: map<Uuid, Grant>, released: set<Uuid>)

  function Initial(clock: int): LockWorld { LockWorld(clock, map[], map[], {}) }

  /** A token is generated once, and only the holder of a lease object can call its methods. */
  predicate Allowed(w: LockWorld, c: LockCall) {
    match c
    case Advance(_) => true
    case AcquireCall(_, _, _, token) => token !in w.grants
    case RenewCall(token, _) => token in w.grants
    case ReleaseCall(token) => token in w.grants
  }

  /** The value the call returns to the program: did it get, extend or give up the lock? */
  predicate Answer(w: LockWorld, c: LockCall)
    requires Allowed(w, c)
  {
    match c
    case Advance(_) => true
    case AcquireCall(a, k, ttl, token) => AcquireOutcome(w.locks, a, k, ttl, token, w.clock).Granted?
    case RenewCall(token, _) => RenewSucceeds(w.locks, w.grants[token], token in w.released, w.clock)
    case ReleaseCall(token) => ReleaseSucceeds(w.locks, w.grants[token], token in w.released)
  }

  function Next(w: LockWorld, c: LockCall): LockWorld
    requires Allowed(w, c)
  {
    match c
    case Advance(ms) => w.(clock := w.clock + ms)
    case AcquireCall(a, k, ttl, token) =>
      w.(locks := AfterAcquire(w.locks, a, k, ttl, token, w.clock),
         grants := if Answer(w, c) then w.grants[token := Grant(a, k, token, ttl)] else w.grants)
    case RenewCall(token, lag) =>
      w.(locks := AfterRenew(w.locks, w.grants[token], token in w.released, w.clock, w.clock + lag),
         clock := w.clock + lag)
    case ReleaseCall(token) =>
      w.(locks := AfterRelease(w.locks, w.grants[token], token in w.released),
         released := if Answer(w, c) then w.released + {token} else w.released)
  }

  predicate ValidRun(w: LockWorld, calls: seq<LockCall>)
    decreases calls
  {
    calls == [] || (Allowed(w, calls[0]) && ValidRun(Next(w, calls[0]), calls[1..]))
  }

  function After(w: LockWorld, calls: seq<LockCall>): LockWorld
    requires ValidRun(w, calls)
    decreases calls
  {
    if calls == [] then w else After(Next(w, calls[0]), calls[1..])
  }

  /** The lease owns its account now: its record is stored and has not expired. */
  predicate Live(w: LockWorld, token: Uuid) {
    && token in w.grants
    && Recorded(w.locks, w.grants[token])
    && w.locks[w.grants[token].accountId].expiresAt > w.clock
  }

  /** Every stored record was written by the granted, unreleased lease it names. */
  ghost predicate Consistent(w: LockWorld) {
    && (forall a :: a in w.locks ==>
          && w.locks[a].token in w.grants && w.locks[a].token !in w.released
          && w.grants[w.locks[a].token].accountId == a
          && w.grants[w.locks[a].token].workerId == w.locks[a].workerId)
    && (forall t :: t in w.grants ==> w.grants[t].token == t && w.grants[t].ttlMs > 0)
    && (forall t :: t in w.released ==> t in w.grants)
  }

  lemma StepConsistent(w: LockWorld, c: LockCall)
    requires Consistent(w) && Allowed(w, c)
    ensures Consistent(Next(w, c))
    ensures w.grants.Keys <= Next(w, c).grants.Keys
    ensures forall t :: t in w.grants ==> Next(w, c).grants[t] == w.grants[t]
  {
  }

  /** Every reachable table is consistent, and a lease's identity never changes. */
  lemma {:induction false} RunConsistent(w: LockWorld, calls: seq<LockCall>)
    requires Consistent(w) && ValidRun(w, calls)
    ensures Consistent(After(w, calls))
    ensures forall t :: t in w.grants ==> t in After(w, calls).grants && After(w, calls).grants[t] == w.grants[t]
    decreases calls
  {
    if calls != [] {
      StepConsistent(w, calls[0]);
      RunConsistent(Next(w, calls[0]), calls[1..]);
    }
  }

  /** In every reachable state at most one lease is live on an account. */
  lemma AtMostOneLive(start: int, calls: seq<LockCall>, t: Uuid, u: Uuid)
    requires ValidRun(Initial(start), calls)
    requires var w := After(Initial(start), calls);
             Live(w, t) && Live(w, u) && w.grants[t].accountId == w.grants[u].accountId
    ensures t == u
  {
    RunConsistent(Initial(start), calls);
  }

  lemma NoStepRevives(w: LockWorld, c: LockCall, t: Uuid)
    requires Consistent(w) && Allowed(w, c) && t in w.grants && !Live(w, t)
    ensures !Live(Next(w, c), t)
  {
  }

  /** Once expired, released or superseded, a lease never becomes valid again. */
  lemma {:induction false} NoRevival(w: LockWorld, calls: seq<LockCall>, t: Uuid)
    requires Consistent(w) && ValidRun(w, calls) && t in w.grants && !Live(w, t)
    ensures !Live(After(w, calls), t)
    decreases calls
  {
    if calls != [] {
      StepConsistent(w, calls[0]);
      NoStepRevives(w, calls[0], t);
      NoRevival(Next(w, calls[0]), calls[1..], t);
    }
  }

  /** The token of a lease that lost its record is never written again. */
  lemma {:induction false} SupersededForever(w: LockWorld, calls: seq<LockCall>, t: Uuid)
    requires Consistent(w) && ValidRun(w, calls) && t in w.grants && !Recorded(w.locks, w.grants[t])
    ensures t in After(w, calls).grants && !Recorded(After(w, calls).locks, w.grants[t])
    ensures After(w, calls).grants[t] == w.grants[t]
    decreases calls
  {
    if calls != [] {
      StepConsistent(w, calls[0]);
      SupersededForever(Next(w, calls[0]), calls[1..], t);
    }
  }

  /** At any later time, renewing or releasing a lease that lost its record answers false and changes no lock. */
  lemma SupersededIsInert(w: LockWorld, calls: seq<LockCall>, t: Uuid, lag: nat)
    requires Consistent(w) && ValidRun(w, calls) && t in w.grants && !Recorded(w.locks, w.grants[t])
    ensures var later := After(w, calls);
            && Allowed(later, RenewCall(t, lag)) && Allowed(later, ReleaseCall(t))
            && !Answer(later, RenewCall(t, lag)) && Next(later, RenewCall(t, lag)).locks == later.locks
            && !Answer(later, ReleaseCall(t)) && Next(later, ReleaseCall(t)) == later
  {
    SupersededForever(w, calls, t);
  }

  /**
   A live lease is lost only by its own release or by time: no other call removes its record,
   shortens its expiry or takes its account.
   */
  lemma OnlyTimeOrReleaseEnds(w: LockWorld, c: LockCall, t: Uuid)
    requires Consistent(w) && Allowed(w, c) && Live(w, t) && c != ReleaseCall(t)
    ensures Recorded(Next(w, c).locks, w.grants[t])
    ensures Next(w, c).locks[w.grants[t].accountId].expiresAt ==
            if c.RenewCall? && c.token == t then Next(w, c).clock + w.grants[t].ttlMs
            else w.locks[w.grants[t].accountId].expiresAt
    ensures c.AcquireCall? && c.accountId == w.grants[t].accountId ==> !Answer(w, c) && Next(w, c) == w
  {
  }
}
