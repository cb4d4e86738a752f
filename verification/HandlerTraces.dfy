/**
 The statuses of one account over a whole run: under the timing promise of module Handlers they are
 the status blocks of the operations that wrote to it, one after the other.
 */
module HandlerTraces {
  import opened AccountLock
  import opened Handlers
  import opened HandlerLaws

  /** The statuses written to an account, in order. */
  function StatusesOf(log: seq<Entry>, a: string): seq<Status> {
    if log == [] then []
    else
      StatusesOf(log[..|log| - 1], a) +
      (if log[|log| - 1].accountId == a then [log[|log| - 1].status] else [])
  }

  /** The operations that wrote to an account, in the order of their turns. */
  function Writers(log: seq<Entry>, a: string): seq<nat> {
    if log == [] then []
    else WritersNext(Writers(log[..|log| - 1], a), log[|log| - 1], a)
  }

  function WritersNext(writers: seq<nat>, e: Entry, a: string): seq<nat> {
    if e.accountId != a || (writers != [] && writers[|writers| - 1] == e.op) then writers else writers + [e.op]
  }

  /** The statuses of these operations, one operation after the other. */
  function Joined(log: seq<Entry>, writers: seq<nat>): seq<Status> {
    if writers == [] then []
    else Joined(log, writers[..|writers| - 1]) + Trace(log, writers[|writers| - 1])
  }

  predicate NoRepeats(s: seq<nat>) { forall i, j :: 0 <= i < j < |s| ==> s[i] != s[j] }

  /** An operation writes to one account only. */
  ghost predicate OneAccountEach(log: seq<Entry>) {
    forall i, j :: 0 <= i < |log| && 0 <= j < |log| && log[i].op == log[j].op ==> log[i].accountId == log[j].accountId
  }

  predicate Wrote(log: seq<Entry>, o: nat, a: string) {
    exists i :: 0 <= i < |log| && log[i].op == o && log[i].accountId == a
  }

  /** Nobody else wrote to the account after this operation did. */
  predicate WroteLast(log: seq<Entry>, o: nat, a: string) {
    exists i :: 0 <= i < |log| && log[i].op == o && log[i].accountId == a &&
      forall j :: i < j < |log| ==> log[j].accountId != a
  }

  lemma WroteNext(log: seq<Entry>, e: Entry, o: nat, a: string)
    ensures Wrote(log + [e], o, a) <==> Wrote(log, o, a) || (e.op == o && e.accountId == a)
  {
    var log' := log + [e];
    if Wrote(log, o, a) {
      var i :| 0 <= i < |log| && log[i].op == o && log[i].accountId == a;
      assert log'[i] == log[i];
    }
    if e.op == o && e.accountId == a { assert log'[|log|] == e; }
  }

  lemma WroteLastNext(log: seq<Entry>, e: Entry, o: nat, a: string)
    requires (e.accountId != a && WroteLast(log, o, a)) || (e.accountId == a && e.op == o)
    ensures WroteLast(log + [e], o, a)
  {
    var log' := log + [e];
    if e.accountId != a {
      var i :| 0 <= i < |log| && log[i].op == o && log[i].accountId == a &&
        forall j :: i < j < |log| ==> log[j].accountId != a;
      assert log'[i] == log[i];
      assert forall j :: i < j < |log'| ==> log'[j].accountId != a;
    } else {
      assert log'[|log|] == e;
    }
  }

  /** The writers are those who wrote, and the last of them wrote last. */
  lemma {:induction false} WritersWrote(log: seq<Entry>, a: string)
    ensures forall o :: o in Writers(log, a) <==> Wrote(log, o, a)
    ensures Writers(log, a) != [] ==> WroteLast(log, Writers(log, a)[|Writers(log, a)| - 1], a)
    decreases |log|
  {
    if log != [] {
      var front, e := log[..|log| - 1], log[|log| - 1];
      assert log == front + [e];
      WritersWrote(front, a);
      forall o ensures o in Writers(log, a) <==> Wrote(log, o, a) { WroteNext(front, e, o, a); }
      if Writers(log, a) != [] { WroteLastNext(front, e, Writers(log, a)[|Writers(log, a)| - 1], a); }
    }
  }

  /** Whoever wrote and is not the last writer does not write again. */
  lemma OldWritersAreDone(log: seq<Entry>, e: Entry, o: nat)
    requires Uninterleaved(log + [e]) && WroteLast(log, o, e.accountId) && o != e.op
    ensures !Wrote(log, e.op, e.accountId)
  {
    var log' := log + [e];
    var m :| 0 <= m < |log| && log[m].op == o && log[m].accountId == e.accountId &&
      forall j :: m < j < |log| ==> log[j].accountId != e.accountId;
    forall i | 0 <= i < |log| && log[i].accountId == e.accountId ensures log[i].op != e.op {
      assert log'[i] == log[i] && log'[m] == log[m] && log'[|log|] == e;
      if i < m { assert log'[m].op == log'[i].op || log'[i].op != log'[|log|].op; }
    }
  }

  lemma {:induction false} JoinedElsewhere(log: seq<Entry>, e: Entry, writers: seq<nat>)
    requires e.op !in writers
    ensures Joined(log + [e], writers) == Joined(log, writers)
    decreases |writers|
  {
    if writers != [] {
      TraceAppend(log, e, writers[|writers| - 1]);
      JoinedElsewhere(log, e, writers[..|writers| - 1]);
      assert Trace(log, writers[|writers| - 1]) + [] == Trace(log, writers[|writers| - 1]);
    }
  }

  lemma JoinedSnoc(log: seq<Entry>, writers: seq<nat>, o: nat)
    ensures Joined(log, writers + [o]) == Joined(log, writers) + Trace(log, o)
  {
    assert (writers + [o])[..|writers|] == writers;
  }

  /** One more write goes to the end of the last writer's block, or begins the block of a new one. */
  lemma JoinedNext(log: seq<Entry>, e: Entry, earlier: seq<nat>)
    requires e.op !in earlier
    ensures Joined(log + [e], earlier + [e.op]) == Joined(log, earlier + [e.op]) + [e.status]
  {
    JoinedSnoc(log + [e], earlier, e.op);
    JoinedSnoc(log, earlier, e.op);
    JoinedElsewhere(log, e, earlier);
    TraceAppend(log, e, e.op);
  }

  lemma StatusesNext(log: seq<Entry>, e: Entry, a: string)
    ensures StatusesOf(log + [e], a) == StatusesOf(log, a) + (if e.accountId == a then [e.status] else [])
    ensures Writers(log + [e], a) == WritersNext(Writers(log, a), e, a)
  {
    assert (log + [e])[..|log|] == log;
  }

  lemma NewWriterHasNoTrace(log: seq<Entry>, e: Entry)
    requires OneAccountEach(log + [e]) && !Wrote(log, e.op, e.accountId)
    ensures Trace(log, e.op) == []
  {
    var log' := log + [e];
    forall i | 0 <= i < |log| ensures log[i].op != e.op {
      assert log'[i] == log[i] && log'[|log|] == e;
    }
    NoEntriesNoTrace(log, e.op);
  }

  /** The case of a write to the account in `StatusesAreBlocks`. */
  lemma BlocksNext(log: seq<Entry>, e: Entry)
    requires Uninterleaved(log + [e]) && OneAccountEach(log + [e])
    requires NoRepeats(Writers(log, e.accountId))
    requires StatusesOf(log, e.accountId) == Joined(log, Writers(log, e.accountId))
    ensures var writers := WritersNext(Writers(log, e.accountId), e, e.accountId);
            NoRepeats(writers) && StatusesOf(log, e.accountId) + [e.status] == Joined(log + [e], writers)
  {
    var writers := Writers(log, e.accountId);
    WritersWrote(log, e.accountId);
    if writers != [] && writers[|writers| - 1] == e.op {
      assert writers == writers[..|writers| - 1] + [e.op];
      JoinedNext(log, e, writers[..|writers| - 1]);
    } else {
      if writers != [] { OldWritersAreDone(log, e, writers[|writers| - 1]); }
      NewWriterHasNoTrace(log, e);
      JoinedNext(log, e, writers);
      JoinedSnoc(log, writers, e.op);
      assert Joined(log, writers) + [] == Joined(log, writers);
    }
  }

  lemma PrefixInTurn(log: seq<Entry>, n: nat)
    requires Uninterleaved(log) && OneAccountEach(log) && n <= |log|
    ensures Uninterleaved(log[..n]) && OneAccountEach(log[..n])
  {
  }

  /** If writes come in turns, an account's statuses are the traces of its writers, one after the other. */
  lemma {:induction false} StatusesAreBlocks(log: seq<Entry>, a: string)
    requires Uninterleaved(log) && OneAccountEach(log)
    ensures StatusesOf(log, a) == Joined(log, Writers(log, a)) && NoRepeats(Writers(log, a))
    decreases |log|
  {
    if log != [] {
      var front, e := log[..|log| - 1], log[|log| - 1];
      assert log == front + [e];
      PrefixInTurn(log, |log| - 1);
      StatusesAreBlocks(front, a);
      StatusesNext(front, e, a);
      if e.accountId == a {
        BlocksNext(front, e);
      } else {
        WritersWrote(front, a);
        OtherWriters(front, e, a);
        JoinedElsewhere(front, e, Writers(front, a));
        assert StatusesOf(front, a) + [] == StatusesOf(front, a);
      }
    }
  }

  lemma OtherWriters(log: seq<Entry>, e: Entry, a: string)
    requires OneAccountEach(log + [e]) && e.accountId != a
    ensures e.op !in Writers(log, a)
  {
    var log' := log + [e];
    WritersWrote(log, a);
    forall i | 0 <= i < |log| && log[i].accountId == a ensures log[i].op != e.op {
      assert log'[i] == log[i] && log'[|log|] == e;
    }
  }

  /** A writer's turn: a whole block if it is over; if it still runs, it is the last and has only written CONNECTING. */
  predicate TurnFits(op: Op, trace: seq<Status>, last: bool) {
    && op.HasLease() && op.kind != Plain
    && (op.Over() ==> trace in Blocks(op.kind, op.Returned(), op.clean))
    && (op.Over() && op.clean ==> trace in CleanBlocks())
    && (op.Running() ==> last && trace == [CONNECTING])
  }

  predicate IsTurn(w: World, a: string, o: nat, last: bool) {
    && o in w.ops && w.ops[o].HasLease() && w.ops[o].grant.accountId == a
    && TurnFits(w.ops[o], Trace(w.log, o), last)
  }

  /**
   The statuses written to an account over a whole run are a concatenation of blocks, one for each
   operation that wrote to it; the last block may be the [CONNECTING] of an operation still running.
   */
  lemma TraceLanguage(tm: Timing, clock: int, events: seq<Event>, a: string)
    requires Runs(Idle(clock), events) && KeepsTime(tm, Idle(clock), events) && AllTolerable(tm, events)
    ensures var w := End(Idle(clock), events); var writers := Writers(w.log, a);
            && StatusesOf(w.log, a) == Joined(w.log, writers) && NoRepeats(writers)
            && forall i :: 0 <= i < |writers| ==> IsTurn(w, a, writers[i], i == |writers| - 1)
    ensures Uninterleaved(End(Idle(clock), events).log)
  {
    RunKeepsInv(tm, Idle(clock), events);
    var w := End(Idle(clock), events);
    var writers := Writers(w.log, a);
    StatusesAreBlocks(w.log, a);
    WritersWrote(w.log, a);
    forall i | 0 <= i < |writers| ensures IsTurn(w, a, writers[i], i == |writers| - 1) {
      assert writers[i] in writers;
      TurnOf(w, a, writers[i], writers[|writers| - 1], i == |writers| - 1);
    }
  }

  lemma {:induction false} WroteHasTrace(log: seq<Entry>, o: nat, a: string)
    requires Wrote(log, o, a)
    ensures Trace(log, o) != []
    decreases |log|
  {
    var front, e := log[..|log| - 1], log[|log| - 1];
    assert log == front + [e];
    WroteNext(front, e, o, a);
    if e.op != o { WroteHasTrace(front, o, a); }
  }

  lemma FittingTurn(op: Op, trace: seq<Status>, last: bool)
    requires op.HasLease() && OpFits(op, trace) && trace != [] && (op.Running() ==> last)
    ensures TurnFits(op, trace, last)
  {
  }

  lemma WriterHasLease(w: World, o: nat, a: string)
    requires Attributed(w) && Wrote(w.log, o, a)
    ensures o in w.ops && w.ops[o].HasLease() && w.ops[o].grant.accountId == a
  {
  }

  lemma TurnOf(w: World, a: string, o: nat, lastWriter: nat, last: bool)
    requires Sound(w) && RunningWritesLast(w) && Wrote(w.log, o, a) && WroteLast(w.log, lastWriter, a)
    requires o == lastWriter ==> last
    ensures IsTurn(w, a, o, last)
  {
    WriterHasLease(w, o, a);
    WroteHasTrace(w.log, o, a);
    if w.ops[o].Running() { RunningIsLast(w, a, o, lastWriter); }
    FittingTurn(w.ops[o], Trace(w.log, o), last);
  }

  /** A running operation that has written is the last one to have done so. */
  lemma RunningIsLast(w: World, a: string, o: nat, last: nat)
    requires RunningWritesLast(w) && o in w.ops && w.ops[o].Running() && Wrote(w.log, o, a) && WroteLast(w.log, last, a)
    ensures o == last
  {
    var i :| 0 <= i < |w.log| && w.log[i].op == o && w.log[i].accountId == a;
    var m :| 0 <= m < |w.log| && w.log[m].op == last && w.log[m].accountId == a &&
      forall j :: m < j < |w.log| ==> w.log[j].accountId != a;
  }
}
