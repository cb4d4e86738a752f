/**
 The laws of the handlers' runs: what holds whatever the timing, and mutual exclusion under the
 timing promise.
 */
module HandlerLaws {
  import opened AccountLock
  import opened Handlers

  // ---------- Main theorems, whatever the timing ----------

  /**
   Once a handler has returned or thrown and released, no lock anywhere carries its token, even if
   its lease expired or its account was taken while it ran.
   */
  lemma NoTokenLeftBehind(clock: int, events: seq<Event>, o: nat, a: string)
    requires Runs(Idle(clock), events)
    requires var w := End(Idle(clock), events); o in w.ops && w.ops[o].Ended? && a in w.locks.locks
    ensures var w := End(Idle(clock), events); w.locks.locks[a].token != w.ops[o].grant.token
  {
    RunSound(Idle(clock), events);
  }

  /** A handler's last act takes nobody else's lock: whoever owns an account then still does. */
  lemma ReleaseSparesOthers(clock: int, events: seq<Event>, o: nat, t: Uuid)
    requires Runs(Idle(clock), events)
    requires var w := End(Idle(clock), events);
             Enabled(w, Release(o)) && Live(w.locks, t) && t != w.ops[o].grant.token
    ensures var w := End(Idle(clock), events); var w' := Step(w, Release(o));
            && Live(w'.locks, t)
            && w'.locks.locks[w.locks.grants[t].accountId] == w.locks.locks[w.locks.grants[t].accountId]
  {
    RunSound(Idle(clock), events);
  }

  /** A handler that finds the account locked is `deferred`: from then on it writes nothing and never runs. */
  lemma {:induction false} DeferredDoesNothing(w: World, events: seq<Event>, o: nat)
    requires Attributed(w) && Runs(w, events) && o in w.ops && !w.ops[o].HasLease()
    ensures var w' := End(w, events); o in w'.ops && w'.ops[o] == w.ops[o] && Trace(w'.log, o) == []
    decreases events
  {
    if events == [] {
      NoEntriesNoTrace(w.log, o);
    } else {
      StepAttributed(w, events[0]);
      DeferredDoesNothing(Step(w, events[0]), events[1..], o);
    }
  }

  /** A start is refused exactly when the account is occupied, and then changes nothing but its own verdict. */
  lemma RefusedStart(w: World, e: Event)
    requires Enabled(w, e) && e.Start? && ValidArguments(e.accountId, e.workerId, e.ttlMs)
    ensures Step(w, e).ops[e.op] == Refused <==> Occupied(w.locks.locks, e.accountId, w.locks.clock)
    ensures Step(w, e).ops[e.op] == Refused ==> Step(w, e) == w.(ops := w.ops[e.op := Refused])
  {
  }

  /** The blocks of operations none of whose status writes failed. */
  function CleanBlocks(): set<seq<Status>> {
    {[CONNECTING], [CONNECTING, ONLINE], [CONNECTING, TELEGRAM_ERROR], [OFFLINE], [TELEGRAM_ERROR]}
  }

  /** Every operation that is over has written a block of its kind and outcome, whoever else wrote in between. */
  lemma EachTraceIsBlock(clock: int, events: seq<Event>, o: nat)
    requires Runs(Idle(clock), events) && o in End(Idle(clock), events).ops && End(Idle(clock), events).ops[o].Over()
    ensures var w := End(Idle(clock), events); var op := w.ops[o];
            && Trace(w.log, o) in Blocks(op.kind, op.Returned(), op.clean)
            && (op.clean && op.kind != Plain ==> Trace(w.log, o) in CleanBlocks())
  {
    RunSound(Idle(clock), events);
  }

  // ---------- Main theorems under the timing promise ----------

  /** In no run do two operations on one account overlap, and a running operation always owns its account. */
  lemma MutualExclusion(tm: Timing, clock: int, events: seq<Event>, o: nat, p: nat)
    requires Runs(Idle(clock), events) && KeepsTime(tm, Idle(clock), events) && AllTolerable(tm, events)
    requires var w := End(Idle(clock), events);
             && o in w.ops && p in w.ops && w.ops[o].Running() && w.ops[p].Running()
             && w.ops[o].grant.accountId == w.ops[p].grant.accountId
    ensures o == p
    ensures Live(End(Idle(clock), events).locks, End(Idle(clock), events).ops[o].grant.token)
  {
    RunKeepsInv(tm, Idle(clock), events);
    RunningApart(tm, End(Idle(clock), events), o, p);
    CoveredIsLive(tm, End(Idle(clock), events), o);
  }
}
