/**
 The handlers over the Redis registry. Acquires and renewals are answered alike and handlers ignore
 the answer of a release, so the runs over Redis are those over the in-memory registry, operation
 by operation and write by write. Hence the laws of module HandlerLaws hold over Redis, where the
 owner of an account is the token stored under its key.
 */
module RedisHandlers {
  import opened Common
  import opened AccountLock
  import opened RedisLock
  import opened Handlers
  import opened HandlerLaws

  datatype RedisRun = RedisRun(redis: RedisWorld, ops: map<nat, Op>, log: seq<Handlers.Entry>)

  function RedisIdle(clock: int, prefix: string): RedisRun {
    RedisRun(RedisWorld(clock, prefix, map[], map[], {}), map[], [])
  }

  /** A start with arguments the in-memory registry would not reject; Redis checks none of them. */
  predicate ValidStart(e: Event) { e.Start? ==> ValidArguments(e.accountId, e.workerId, e.ttlMs) }

  predicate ValidStarts(events: seq<Event>) { forall i :: 0 <= i < |events| ==> ValidStart(events[i]) }

  predicate RedisEnabled(x: RedisRun, e: Event) {
    ValidStart(e) && Possible(x.ops, x.redis.clock, x.redis.grants, e)
  }

  function RedisAnswerTo(x: RedisRun, e: Event): Acquired {
    if e.Start? && Get(x.redis.keys, KeyOf(x.redis.prefix, e.accountId), x.redis.clock).None?
    then Granted(Grant(e.accountId, e.workerId, e.token, e.ttlMs)) else Held
  }

  function RedisStep(x: RedisRun, e: Event): RedisRun
    requires RedisEnabled(x, e)
  {
    var call := CallOf(x.ops, e);
    RedisRun(if call.Some? then RedisNext(x.redis, call.value) else x.redis,
             OpsAfter(x.ops, x.redis.clock, x.redis.grants, RedisAnswerTo(x, e), e),
             LogAfter(x.ops, x.redis.clock, x.redis.grants, x.log, e))
  }

  predicate RedisRuns(x: RedisRun, events: seq<Event>)
    decreases events
  {
    events == [] || (RedisEnabled(x, events[0]) && RedisRuns(RedisStep(x, events[0]), events[1..]))
  }

  function RedisEnd(x: RedisRun, events: seq<Event>): RedisRun
    requires RedisRuns(x, events)
    decreases events
  {
    if events == [] then x else RedisEnd(RedisStep(x, events[0]), events[1..])
  }

  /** The handlers cannot tell which registry they run on. */
  ghost predicate Coupled(w: World, x: RedisRun) {
    Similar(w.locks, x.redis) && w.ops == x.ops && w.log == x.log
  }

  lemma SameStep(w: World, x: RedisRun, e: Event)
    requires Coupled(w, x)
    ensures RedisEnabled(x, e) <==> Enabled(w, e) && ValidStart(e)
    ensures RedisEnabled(x, e) ==> Coupled(Step(w, e), RedisStep(x, e))
  {
    if RedisEnabled(x, e) {
      var call := CallOf(w.ops, e);
      if call.Some? {
        SimilarAnswers(w.locks, x.redis, call.value);
        SimilarSteps(w.locks, x.redis, call.value);
      }
    }
  }

  /**
   The same events are possible over both registries, and they lead to the same operations and the
   same statuses written.
   */
  lemma {:induction false} SameRuns(w: World, x: RedisRun, events: seq<Event>)
    requires Coupled(w, x)
    ensures RedisRuns(x, events) <==> Runs(w, events) && ValidStarts(events)
    ensures RedisRuns(x, events) ==> Coupled(End(w, events), RedisEnd(x, events))
    decreases events
  {
    if events != [] {
      SameStep(w, x, events[0]);
      if RedisEnabled(x, events[0]) { SameRuns(Step(w, events[0]), RedisStep(x, events[0]), events[1..]); }
      assert ValidStarts(events) <==> ValidStart(events[0]) && ValidStarts(events[1..]) by {
        assert forall i :: 0 < i < |events| ==> events[i] == events[1..][i - 1];
      }
    }
  }

  /** The timing promise, made of a run over Redis. */
  ghost predicate RedisKeepsTime(tm: Timing, x: RedisRun, events: seq<Event>)
    requires RedisRuns(x, events)
    decreases events
  {
    events == [] ||
    (Punctual(tm, x.ops, x.redis.clock, events[0]) && RedisKeepsTime(tm, RedisStep(x, events[0]), events[1..]))
  }

  lemma {:induction false} SamePromise(tm: Timing, w: World, x: RedisRun, events: seq<Event>)
    requires Coupled(w, x) && RedisRuns(x, events) && RedisKeepsTime(tm, x, events)
    ensures Runs(w, events) && KeepsTime(tm, w, events)
    decreases events
  {
    SameRuns(w, x, events);
    if events != [] {
      SameStep(w, x, events[0]);
      SamePromise(tm, Step(w, events[0]), RedisStep(x, events[0]), events[1..]);
    }
  }

  lemma FromTheStart(clock: int, prefix: string, events: seq<Event>)
    requires RedisRuns(RedisIdle(clock, prefix), events)
    ensures Runs(Idle(clock), events) && Sound(End(Idle(clock), events))
    ensures Coupled(End(Idle(clock), events), RedisEnd(RedisIdle(clock, prefix), events))
  {
    assert Similar(Initial(clock), RedisIdle(clock, prefix).redis);
    SameRuns(Idle(clock), RedisIdle(clock, prefix), events);
    RunSound(Idle(clock), events);
  }

  /**
   Once a handler has returned or thrown and released, no account's key holds its token, even if its
   lease expired or its account was taken while it ran.
   */
  lemma NoTokenLeftInRedis(clock: int, prefix: string, events: seq<Event>, o: nat, a: string)
    requires RedisRuns(RedisIdle(clock, prefix), events)
    requires var x := RedisEnd(RedisIdle(clock, prefix), events); o in x.ops && x.ops[o].Ended?
    ensures var x := RedisEnd(RedisIdle(clock, prefix), events);
            var value := Get(x.redis.keys, KeyOf(x.redis.prefix, a), x.redis.clock);
            value.Some? ==> value.value.uuid != x.ops[o].grant.token
  {
    FromTheStart(clock, prefix, events);
    var w := End(Idle(clock), events);
    var x := RedisEnd(RedisIdle(clock, prefix), events);
    assert SameLock(w.locks, x.redis, a);
    assert !Recorded(w.locks.locks, w.ops[o].grant);
  }

  /** A handler's last act deletes nobody else's key: whatever token it holds, if not the handler's own, stays. */
  lemma ReleaseSparesOthersInRedis(clock: int, prefix: string, events: seq<Event>, o: nat, a: string)
    requires RedisRuns(RedisIdle(clock, prefix), events)
    requires var x := RedisEnd(RedisIdle(clock, prefix), events);
             var value := Get(x.redis.keys, KeyOf(x.redis.prefix, a), x.redis.clock);
             RedisEnabled(x, Release(o)) && value.Some? && value.value.uuid != x.ops[o].grant.token
    ensures var x := RedisEnd(RedisIdle(clock, prefix), events); var x' := RedisStep(x, Release(o));
            Get(x'.redis.keys, KeyOf(x.redis.prefix, a), x.redis.clock) ==
            Get(x.redis.keys, KeyOf(x.redis.prefix, a), x.redis.clock)
  {
    FromTheStart(clock, prefix, events);
    ReleaseSparesOtherKeys(End(Idle(clock), events), RedisEnd(RedisIdle(clock, prefix), events), o, a);
  }

  lemma ReleaseSparesOtherKeys(w: World, x: RedisRun, o: nat, a: string)
    requires Coupled(w, x) && Identified(w) && RedisEnabled(x, Release(o))
    requires var value := Get(x.redis.keys, KeyOf(x.redis.prefix, a), x.redis.clock);
             value.Some? && value.value.uuid != x.ops[o].grant.token
    ensures Get(RedisStep(x, Release(o)).redis.keys, KeyOf(x.redis.prefix, a), x.redis.clock) ==
            Get(x.redis.keys, KeyOf(x.redis.prefix, a), x.redis.clock)
  {
    var g := x.redis.grants[x.ops[o].grant.token];
    assert g == x.ops[o].grant;
    KeyOfInjective(x.redis.prefix, a, g.accountId);
  }

  lemma RedisDeferred(w: World, x: RedisRun, events: seq<Event>, o: nat)
    requires Coupled(w, x) && Attributed(w) && RedisRuns(x, events) && o in x.ops && !x.ops[o].HasLease()
    ensures var x' := RedisEnd(x, events); o in x'.ops && x'.ops[o] == x.ops[o] && Trace(x'.log, o) == []
  {
    SameRuns(w, x, events);
    DeferredDoesNothing(w, events, o);
  }

  /** A handler that Redis refused the lock in a run's first part does nothing in the rest of it. */
  lemma DeferredDoesNothingOverRedis(clock: int, prefix: string, first: seq<Event>, rest: seq<Event>, o: nat)
    requires RedisRuns(RedisIdle(clock, prefix), first)
    requires var x := RedisEnd(RedisIdle(clock, prefix), first);
             RedisRuns(x, rest) && o in x.ops && !x.ops[o].HasLease()
    ensures var x := RedisEnd(RedisIdle(clock, prefix), first); var x' := RedisEnd(x, rest);
            o in x'.ops && x'.ops[o] == x.ops[o] && Trace(x'.log, o) == []
  {
    FromTheStart(clock, prefix, first);
    RedisDeferred(End(Idle(clock), first), RedisEnd(RedisIdle(clock, prefix), first), rest, o);
  }

  /** Over Redis, too, two operations on one account never overlap, and a running operation's key holds its token. */
  lemma MutualExclusionOverRedis(tm: Timing, clock: int, prefix: string, events: seq<Event>, o: nat, p: nat)
    requires RedisRuns(RedisIdle(clock, prefix), events)
    requires RedisKeepsTime(tm, RedisIdle(clock, prefix), events) && AllTolerable(tm, events)
    requires var x := RedisEnd(RedisIdle(clock, prefix), events);
             && o in x.ops && p in x.ops && x.ops[o].Running() && x.ops[p].Running()
             && x.ops[o].grant.accountId == x.ops[p].grant.accountId
    ensures o == p
    ensures var x := RedisEnd(RedisIdle(clock, prefix), events);
            Stored(x.redis.keys, x.redis.prefix, x.ops[o].grant, x.redis.clock)
  {
    FromTheStart(clock, prefix, events);
    assert Similar(Initial(clock), RedisIdle(clock, prefix).redis);
    SamePromise(tm, Idle(clock), RedisIdle(clock, prefix), events);
    MutualExclusion(tm, clock, events, o, p);
    var w := End(Idle(clock), events);
    var x := RedisEnd(RedisIdle(clock, prefix), events);
    LiveIffStored(w.locks, x.redis, w.ops[o].grant.token);
  }
}
