/**
 What Telegram answers decides what a handler writes and whether it returns: the table of
 account-lifecycle.ts:22-30, proved of every operation in every run, and from the calls that
 brought the answers about.
 */
module HandlerAnswers {
  import opened Common
  import opened AccountLock
  import opened Handlers

  /** What an operation was answered during these events, if anything; `before` is what it was answered earlier. */
  function Answered(before: Option<Reply>, events: seq<Event>, o: nat): Option<Reply>
    decreases events
  {
    if events == [] then before
    else Answered(AnsweredBy(before, events[0], o), events[1..], o)
  }

  function AnsweredBy(before: Option<Reply>, e: Event, o: nat): Option<Reply> {
    if e.GatewayReplies? && e.op == o then Some(e.reply) else before
  }

  /** The table: the answer (None is a handler that never asked) and whether a status write failed. */
  predicate OutcomeFits(kind: Kind, answer: Option<Reply>, clean: bool, returned: bool, trace: seq<Status>) {
    match kind
    case Connect =>
      if clean then
        || (answer == Some(CodeSent) && returned && trace == [CONNECTING])
        || (answer == Some(Done) && returned && trace == [CONNECTING, ONLINE])
        || (answer == Some(Threw) && !returned && trace == [CONNECTING, TELEGRAM_ERROR])
      else
        && !returned
        && ((answer == None && trace == [])
            || (answer == Some(Threw) && trace == [CONNECTING])
            || (answer == Some(Done) && (trace == [CONNECTING] || trace == [CONNECTING, TELEGRAM_ERROR])))
    case Disconnect =>
      if clean then
        || (answer == Some(Threw) && !returned && trace == [TELEGRAM_ERROR])
        || (answer in {Some(Done), Some(CodeSent)} && returned && trace == [OFFLINE])
      else
        && !returned
        && ((answer == Some(Threw) && trace == [])
            || (answer in {Some(Done), Some(CodeSent)} && (trace == [] || trace == [TELEGRAM_ERROR])))
    case Plain => clean && answer.Some? && trace == [] && (returned <==> answer != Some(Threw))
  }

  /** The table for an operation at work: which answer it has when it is about to write a status. */
  predicate PhaseFits(kind: Kind, phase: Phase, answer: Option<Reply>, clean: bool, trace: seq<Status>) {
    match phase
    case Finished(returned) => OutcomeFits(kind, answer, clean, returned, trace)
    case AtGateway => answer == None && clean && trace == (if kind.Connect? then [CONNECTING] else [])
    case Writing(status) =>
      match status
      case CONNECTING => kind.Connect? && answer == None && clean && trace == []
      case ONLINE => kind.Connect? && answer == Some(Done) && clean && trace == [CONNECTING]
      case OFFLINE => kind.Disconnect? && answer in {Some(Done), Some(CodeSent)} && clean && trace == []
      case TELEGRAM_ERROR =>
        && !kind.Plain? && answer.Some? && (answer == Some(Threw) <==> clean)
        && (kind.Connect? ==> answer != Some(CodeSent))
        && trace == (if kind.Connect? then [CONNECTING] else [])
  }

  predicate AnswerFits(op: Op, answer: Option<Reply>, trace: seq<Status>) {
    && (op.Active? ==> PhaseFits(op.kind, op.phase, answer, op.clean, trace))
    && (op.Ended? ==> OutcomeFits(op.kind, answer, op.clean, op.returned, trace))
  }

  /** An operation's standing: it has not begun and has neither answer nor statuses, or both fit. */
  predicate Fits(w: World, o: nat, answer: Option<Reply>) {
    if o in w.ops then AnswerFits(w.ops[o], answer, Trace(w.log, o)) else answer == None && Trace(w.log, o) == []
  }

  lemma ReplyFits(kind: Kind, reply: Reply, clean: bool, trace: seq<Status>)
    requires PhaseFits(kind, AtGateway, None, clean, trace)
    ensures PhaseFits(kind, AfterGateway(kind, reply), Some(reply), clean, trace)
  {
  }

  lemma StatusFits(kind: Kind, status: Status, ok: bool, answer: Option<Reply>, clean: bool, trace: seq<Status>)
    requires PhaseFits(kind, Writing(status), answer, clean, trace)
    ensures PhaseFits(kind, AfterWrite(status, ok), answer, clean && ok, trace + (if ok then [status] else []))
  {
    assert trace + [] == trace && [CONNECTING] + [status] == [CONNECTING, status] && [] + [status] == [status];
    if status == TELEGRAM_ERROR {
      match answer.value
      case CodeSent =>
      case Done =>
      case Threw =>
    }
  }

  lemma StepFits(w: World, e: Event, o: nat, answer: Option<Reply>)
    requires Enabled(w, e) && Fits(w, o, answer)
    ensures Fits(Step(w, e), o, AnsweredBy(answer, e, o))
  {
    StepTraces(w, e, o);
    if e.Pass? || e.op != o {
      assert o in Step(w, e).ops <==> o in w.ops;
    } else if e.WriteEnds? {
      var op := w.ops[o];
      StatusFits(op.kind, op.phase.status, e.ok, answer, op.clean, Trace(w.log, o));
      assert Trace(w.log, o) + [] == Trace(w.log, o);
    } else if e.GatewayReplies? {
      ReplyFits(w.ops[o].kind, e.reply, w.ops[o].clean, Trace(w.log, o));
    }
  }

  lemma {:induction false} RunFits(w: World, events: seq<Event>, o: nat, answer: Option<Reply>)
    requires Runs(w, events) && Fits(w, o, answer)
    ensures Fits(End(w, events), o, Answered(answer, events, o))
    decreases events
  {
    if events != [] {
      StepFits(w, events[0], o, answer);
      RunFits(Step(w, events[0]), events[1..], o, AnsweredBy(answer, events[0], o));
    }
  }

  /**
   In every run, whatever the timing, an operation that is over has the outcome its answer and its
   writes call for.
   */
  lemma AnswerDecides(clock: int, events: seq<Event>, o: nat)
    requires Runs(Idle(clock), events) && o in End(Idle(clock), events).ops && End(Idle(clock), events).ops[o].Over()
    ensures var w := End(Idle(clock), events); var op := w.ops[o];
            OutcomeFits(op.kind, Answered(None, events, o), op.clean, op.Returned(), Trace(w.log, o))
  {
    RunFits(Idle(clock), events, o, None);
  }

  lemma {:induction false} AnsweredWhen(before: Option<Reply>, events: seq<Event>, o: nat)
    ensures var r := Answered(before, events, o);
            r == before || (r.Some? && exists i :: 0 <= i < |events| && events[i] == GatewayReplies(o, r.value))
    decreases events
  {
    if events != [] {
      var next := AnsweredBy(before, events[0], o);
      AnsweredWhen(next, events[1..], o);
      var r := Answered(before, events, o);
      if r.Some? && exists i :: 0 <= i < |events[1..]| && events[1..][i] == GatewayReplies(o, r.value) {
        var i :| 0 <= i < |events[1..]| && events[1..][i] == GatewayReplies(o, r.value);
        assert events[i + 1] == GatewayReplies(o, r.value);
      } else if next != before {
        assert events[0] == GatewayReplies(o, next.value);
      }
    }
  }

  lemma FittingStatuses(op: Op, answer: Option<Reply>, trace: seq<Status>)
    requires AnswerFits(op, answer, trace) && op.HasLease()
    ensures ONLINE in trace ==> op.kind.Connect? && answer == Some(Done)
    ensures OFFLINE in trace ==> op.kind.Disconnect? && answer in {Some(Done), Some(CodeSent)}
    ensures TELEGRAM_ERROR in trace ==> answer == Some(Threw) || !op.clean
  {
  }

  /**
   In every run an operation has written ONLINE only if Telegram said it is connected, OFFLINE only
   if the disconnect did not throw, TELEGRAM_ERROR only after a throw or a failed write.
   */
  lemma StatusesHaveCauses(clock: int, events: seq<Event>, o: nat)
    requires Runs(Idle(clock), events) && o in End(Idle(clock), events).ops &&
             End(Idle(clock), events).ops[o].HasLease()
    ensures var w := End(Idle(clock), events); var op, trace := w.ops[o], Trace(w.log, o);
            && (ONLINE in trace ==> op.kind.Connect? && GatewayReplies(o, Done) in events)
            && (OFFLINE in trace ==>
                  op.kind.Disconnect? && (GatewayReplies(o, Done) in events || GatewayReplies(o, CodeSent) in events))
            && (TELEGRAM_ERROR in trace ==> GatewayReplies(o, Threw) in events || !op.clean)
  {
    RunFits(Idle(clock), events, o, None);
    AnsweredWhen(None, events, o);
    var w := End(Idle(clock), events);
    FittingStatuses(w.ops[o], Answered(None, events, o), Trace(w.log, o));
  }
}
