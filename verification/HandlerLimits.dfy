/**
 Which time limits a handler's lease can do with: the exact condition for handlers with a timer
 (account-lifecycle.ts:16) and for those without one, each with runs in which two operations
 overlap where it does not hold.
 */
module HandlerLimits {
  import opened Common
  import opened AccountLock
  import opened Handlers

  /**
   With ticks on time: no lost tick is survived exactly when ttl > 1000, isolated lost ticks
   exactly when ttl > 2000, two in a row only above 3000 and off the multiples of 3, three never.
   */
  lemma ToleranceTable(ttlMs: int)
    ensures Tolerates(Timing(0, 0), ttlMs) <==> ttlMs > 1000
    ensures Tolerates(Timing(0, 1), ttlMs) <==> ttlMs > 2000
    ensures Tolerates(Timing(0, 2), ttlMs) <==> ttlMs > 3000 && ttlMs % 3 != 0
    ensures forall n: nat :: n >= 3 ==> !Tolerates(Timing(0, n), ttlMs)
  {
    forall n: nat | n >= 3 ensures !Tolerates(Timing(0, n), ttlMs) {
      GapGrows(Timing(0, n), ttlMs, 3, n);
    }
  }

  /** The events in which `n` ticks in a row are lost, each as late as allowed. */
  function LostTicks(step: nat, n: nat): seq<Event> {
    if n == 0 then [] else [Pass(step), Tick(0, false)] + LostTicks(step, n - 1)
  }

  /** One connecting operation, alone, whose lease was granted at `start` and not renewed since. */
  ghost predicate Alone(w: World, tm: Timing, start: int, ttlMs: int) {
    && Consistent(w.locks) && w.ops.Keys == {0} && w.ops[0].Running() && w.ops[0].kind == Connect
    && w.ops[0].grant == Grant("a", "w", 0, ttlMs)
    && w.locks.grants == map[0 := w.ops[0].grant] && w.locks.locks == map["a" := LockRecord(0, "w", start + ttlMs)]
    && w.ops[0].due == w.locks.clock + Interval(ttlMs)
  }

  /** One tick lost, as late as allowed. */
  lemma LoseOne(tm: Timing, w: World, start: int, ttlMs: int)
    requires Alone(w, tm, start, ttlMs) && w.ops[0].lost < tm.tolerated
    ensures var step := Interval(ttlMs) + tm.jitter; var events := [Pass(step), Tick(0, false)];
            && Runs(w, events) && KeepsTime(tm, w, events)
            && var w' := End(w, events);
               && Alone(w', tm, start, ttlMs) && w'.ops[0].lost == w.ops[0].lost + 1
               && w'.locks.clock == w.locks.clock + step
  {
    var pass, tick := Pass(Interval(ttlMs) + tm.jitter), Tick(0, false);
    assert Timely(tm, w, pass) && Enabled(Step(w, pass), tick);
    TwoSteps(tm, w, pass, tick);
  }

  lemma TwoSteps(tm: Timing, w: World, e1: Event, e2: Event)
    requires Enabled(w, e1) && Timely(tm, w, e1) && Enabled(Step(w, e1), e2) && Timely(tm, Step(w, e1), e2)
    ensures Runs(w, [e1, e2]) && KeepsTime(tm, w, [e1, e2]) && End(w, [e1, e2]) == Step(Step(w, e1), e2)
  {
    var w1, w2 := Step(w, e1), Step(Step(w, e1), e2);
    assert [e1, e2][1..] == [e2] && [e2][1..] == [];
    assert Runs(w2, []) && End(w2, []) == w2;
    assert Runs(w1, [e2]) && KeepsTime(tm, w1, [e2]) && End(w1, [e2]) == w2;
  }

  lemma {:induction false} LosingTicks(tm: Timing, w: World, start: int, ttlMs: int, n: nat)
    requires Alone(w, tm, start, ttlMs) && w.ops[0].lost + n <= tm.tolerated
    ensures var events := LostTicks(Interval(ttlMs) + tm.jitter, n);
            && Runs(w, events) && KeepsTime(tm, w, events) && Alone(End(w, events), tm, start, ttlMs)
            && End(w, events).locks.clock == w.locks.clock + n * (Interval(ttlMs) + tm.jitter)
    decreases n
  {
    var step := Interval(ttlMs) + tm.jitter;
    if n > 0 {
      var one := [Pass(step), Tick(0, false)];
      LoseOne(tm, w, start, ttlMs);
      LosingTicks(tm, End(w, one), start, ttlMs, n - 1);
      RunsConcat(tm, w, one, LostTicks(step, n - 1));
      assert n * step == step + (n - 1) * step;
    }
  }

  lemma {:induction false} RunsConcat(tm: Timing, w: World, xs: seq<Event>, ys: seq<Event>)
    requires Runs(w, xs) && KeepsTime(tm, w, xs) && Runs(End(w, xs), ys) && KeepsTime(tm, End(w, xs), ys)
    ensures Runs(w, xs + ys) && KeepsTime(tm, w, xs + ys) && End(w, xs + ys) == End(End(w, xs), ys)
    decreases xs
  {
    if xs == [] {
      assert xs + ys == ys;
    } else {
      assert (xs + ys)[0] == xs[0] && (xs + ys)[1..] == xs[1..] + ys;
      RunsConcat(tm, Step(w, xs[0]), xs[1..], ys);
    }
  }

  /** Two operations run on one account. */
  predicate Overlap(w: World) {
    && 0 in w.ops && 1 in w.ops && w.ops[0].Running() && w.ops[1].Running()
    && w.ops[0].grant.accountId == w.ops[1].grant.accountId
  }

  /** As many ticks lost as allowed, each as late as allowed. */
  function LossOf(tm: Timing, ttlMs: int): seq<Event> { LostTicks(Interval(ttlMs) + tm.jitter, tm.tolerated) }

  /** The next tick, as late as allowed, comes after a second worker's start. */
  function TakeoverOf(tm: Timing, ttlMs: int): seq<Event> {
    [Pass(Interval(ttlMs) + tm.jitter), Start(1, Connect, "a", "v", ttlMs, 1)]
  }

  /** A run that keeps the promise but loses as many ticks, as late, as it allows; then a second worker starts. */
  function WorstCase(tm: Timing, ttlMs: int): seq<Event> {
    [Start(0, Connect, "a", "w", ttlMs, 0)] + (LossOf(tm, ttlMs) + TakeoverOf(tm, ttlMs))
  }

  /** A start on the account after the first lease has run out is granted, although the first operation still runs. */
  lemma LateStart(w: World, ttlMs: int)
    requires w.ops.Keys == {0} && w.ops[0].Running() && w.ops[0].grant.accountId == "a" && ttlMs > 0
    requires 1 !in w.locks.grants && !Occupied(w.locks.locks, "a", w.locks.clock)
    ensures var second := Start(1, Connect, "a", "v", ttlMs, 1); Enabled(w, second) && Overlap(Step(w, second))
  {
  }

  lemma Waiting(tm: Timing, w: World, start: int, ttlMs: int)
    requires Alone(w, tm, start, ttlMs)
    requires w.locks.clock + Interval(ttlMs) + tm.jitter >= start + ttlMs
    ensures var pass := Pass(Interval(ttlMs) + tm.jitter); var w1 := Step(w, pass);
            && Timely(tm, w, pass) && w1.ops == w.ops && w1.locks.grants == w.locks.grants
            && !Occupied(w1.locks.locks, "a", w1.locks.clock)
  {
  }

  /** The second start finds the first lease expired, although its operation is still running. */
  lemma TakenOver(tm: Timing, w: World, start: int, ttlMs: int)
    requires Alone(w, tm, start, ttlMs) && ttlMs > 0
    requires w.locks.clock + Interval(ttlMs) + tm.jitter >= start + ttlMs
    ensures var tail := TakeoverOf(tm, ttlMs); Runs(w, tail) && KeepsTime(tm, w, tail) && Overlap(End(w, tail))
  {
    var pass, second := Pass(Interval(ttlMs) + tm.jitter), Start(1, Connect, "a", "v", ttlMs, 1);
    Waiting(tm, w, start, ttlMs);
    LateStart(Step(w, pass), ttlMs);
    TwoSteps(tm, w, pass, second);
  }

  lemma GapIsLost(tm: Timing, ttlMs: int)
    requires !Tolerates(tm, ttlMs)
    ensures tm.tolerated * (Interval(ttlMs) + tm.jitter) + Interval(ttlMs) + tm.jitter >= ttlMs
  {
    var step := Interval(ttlMs) + tm.jitter;
    assert (tm.tolerated + 1) * step == tm.tolerated * step + step;
  }

  /** Where the tolerated losses leave the first operation: alone, and one more period from a lapsed lease. */
  lemma LostAsAllowed(tm: Timing, w: World, ttlMs: int)
    requires Alone(w, tm, w.locks.clock, ttlMs) && w.ops[0].lost == 0 && !Tolerates(tm, ttlMs)
    ensures Runs(w, LossOf(tm, ttlMs)) && KeepsTime(tm, w, LossOf(tm, ttlMs))
    ensures var w' := End(w, LossOf(tm, ttlMs));
            && Alone(w', tm, w.locks.clock, ttlMs)
            && w'.locks.clock + Interval(ttlMs) + tm.jitter >= w.locks.clock + ttlMs
  {
    LosingTicks(tm, w, w.locks.clock, ttlMs, tm.tolerated);
    GapIsLost(tm, ttlMs);
  }

  lemma LostAndTakenOver(tm: Timing, w: World, ttlMs: int)
    requires Alone(w, tm, w.locks.clock, ttlMs) && w.ops[0].lost == 0 && ttlMs > 0 && !Tolerates(tm, ttlMs)
    ensures var events := LossOf(tm, ttlMs) + TakeoverOf(tm, ttlMs);
            Runs(w, events) && KeepsTime(tm, w, events) && Overlap(End(w, events))
  {
    LostAsAllowed(tm, w, ttlMs);
    TakenOver(tm, End(w, LossOf(tm, ttlMs)), w.locks.clock, ttlMs);
    RunsConcat(tm, w, LossOf(tm, ttlMs), TakeoverOf(tm, ttlMs));
  }

  /**
   The condition is exact: for any time limit the timer cannot keep up with, some run that keeps
   the timing promise puts two running operations on one account.
   */
  lemma TolerationIsNecessary(tm: Timing, clock: int, ttlMs: int)
    requires ttlMs > 0 && !Tolerates(tm, ttlMs)
    ensures Runs(Idle(clock), WorstCase(tm, ttlMs)) && KeepsTime(tm, Idle(clock), WorstCase(tm, ttlMs))
    ensures Overlap(End(Idle(clock), WorstCase(tm, ttlMs)))
  {
    var first := Start(0, Connect, "a", "w", ttlMs, 0);
    var rest := LossOf(tm, ttlMs) + TakeoverOf(tm, ttlMs);
    assert WorstCase(tm, ttlMs)[0] == first && WorstCase(tm, ttlMs)[1..] == rest;
    assert Enabled(Idle(clock), first);
    var w := Step(Idle(clock), first);
    assert Alone(w, tm, clock, ttlMs);
    LostAndTakenOver(tm, w, ttlMs);
  }

  /** A handler without a timer is at work for `held` ms when a second worker starts on its account. */
  function HeldFor(ttlMs: int, held: nat, kind: Kind, secondTtlMs: int): seq<Event> {
    [Start(0, Plain, "a", "w", ttlMs, 0), Pass(held), Start(1, kind, "a", "v", secondTtlMs, 1)]
  }

  /** For handlers without a timer the limit is exact too: the two overlap exactly if the first reaches its limit. */
  lemma PlainLimitIsNecessary(clock: int, ttlMs: int, held: nat, kind: Kind, secondTtlMs: int)
    requires ttlMs > 0 && secondTtlMs > 0
    ensures Runs(Idle(clock), HeldFor(ttlMs, held, kind, secondTtlMs))
    ensures Overlap(End(Idle(clock), HeldFor(ttlMs, held, kind, secondTtlMs))) <==> held >= ttlMs
  {
    var events := HeldFor(ttlMs, held, kind, secondTtlMs);
    var w1 := Step(Idle(clock), events[0]);
    var w2 := Step(w1, events[1]);
    assert Enabled(w2, events[2]);
    var w3 := Step(w2, events[2]);
    assert events[1..][1..][1..] == [] && events[1..][0] == events[1] && events[1..][1..][0] == events[2];
    assert Runs(w3, []) && End(w3, []) == w3;
    assert Runs(w2, events[1..][1..]) && End(w2, events[1..][1..]) == w3;
    assert Runs(w1, events[1..]) && End(w1, events[1..]) == w3;
  }
}
