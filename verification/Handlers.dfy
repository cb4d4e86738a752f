/**
 The worker's command handlers under account leases: CONNECT_ACCOUNT and DISCONNECT_ACCOUNT,
 which renew their lease on a timer (account-lifecycle.ts), and the handlers that only acquire and
 release (messages.ts, dialogs.ts, contacts.ts, and one item of invitations.ts).

 Any number of operations of any number of workers interleave, one atomic step at a time, over
 one lock table and one clock. Time passes as it likes: a lease may expire while its operation
 runs, and another worker may take the account. What rests on time rests on a promise
 (`KeepsTime`): a renewal tick reaches the registry at most `jitter` ms after it is due, with at
 most `tolerated` ticks in a row lost; a handler that does not renew ends its operation within its
 time limit.
 */
module Handlers {
  import opened Common
  import opened AccountLock

  datatype Kind = Connect | Disconnect | Plain

  datatype Status = CONNECTING | ONLINE | OFFLINE | TELEGRAM_ERROR

  datatype Reply = CodeSent | Done | Threw

  /** Where an operation stands: about to write a status, waiting for Telegram, or over. */
  datatype Phase = Writing(status: Status) | AtGateway | Finished(returned: bool)

  function FirstPhase(kind: Kind): Phase {
    if kind.Connect? then Writing(CONNECTING) else AtGateway
  }

  function AfterGateway(kind: Kind, reply: Reply): Phase {
    match kind
    case Connect =>
      (match reply case CodeSent => Finished(true) case Done => Writing(ONLINE) case Threw => Writing(TELEGRAM_ERROR))
    case Disconnect => if reply.Threw? then Writing(TELEGRAM_ERROR) else Writing(OFFLINE)
    case Plain => Finished(!reply.Threw?)
  }

  /**
   The CONNECTING write is outside the `try`; a failing ONLINE or OFFLINE write falls into its
   `catch`; the TELEGRAM_ERROR write is the `catch` itself, which throws in any case.
   */
  function AfterWrite(status: Status, ok: bool): Phase {
    match status
    case CONNECTING => if ok then AtGateway else Finished(false)
    case ONLINE => if ok then Finished(true) else Writing(TELEGRAM_ERROR)
    case OFFLINE => if ok then Finished(true) else Writing(TELEGRAM_ERROR)
    case TELEGRAM_ERROR => Finished(false)
  }

  /** The renewal period, Math.max(1_000, Math.floor(ttlMs / 3)). */
  function Interval(ttlMs: int): nat { if ttlMs / 3 > 1000 then ttlMs / 3 else 1000 }

  datatype Timing = Timing(jitter: nat, tolerated: nat)

  /** The longest time between two renewals that reach the registry, with `lost` ticks lost between them. */
  function Gap(tm: Timing, ttlMs: int, lost: nat): nat { (lost + 1) * (Interval(ttlMs) + tm.jitter) }

  predicate Tolerates(tm: Timing, ttlMs: int) { Gap(tm, ttlMs, tm.tolerated) < ttlMs }

  /**
   An operation. `refreshedAt` is when its lease was granted or a renewal last reached the
   registry, `due` when the timer fires next, `lost` how many ticks in a row were lost, `clean`
   whether every status write so far succeeded. `Refused` is a handler that returned `deferred`,
   `Invalid` one whose acquire threw.
   */
  datatype Op =
    | Invalid
    | Refused
    | Active(kind: Kind, grant: Grant, phase: Phase, refreshedAt: int, due: int, lost: nat, clean: bool)
    | Ended(kind: Kind, grant: Grant, returned: bool, clean: bool)
  {
    predicate HasLease() { Active? || Ended? }
    predicate Running() { Active? && !phase.Finished? }

    /** The operation has returned or thrown; its lease may still have to be released. */
    predicate Over() { HasLease() && !Running() }

    predicate Returned()
      requires Over()
    {
      if Ended? then returned else phase.returned
    }
  }

  datatype Entry = Entry(accountId: string, op: nat, status: Status)

  datatype World = World(locks: LockWorld, ops: map<nat, Op>, log: seq<Entry>)

  function Idle(clock: int): World { World(Initial(clock), map[], []) }

  datatype Event =
    | Pass(ms: nat)
    | Start(op: nat, kind: Kind, accountId: string, workerId: string, ttlMs: int, token: Uuid)
    | Tick(op: nat, delivered: bool)
    | GatewayReplies(op: nat, reply: Reply)
    | WriteEnds(op: nat, ok: bool)
    | Release(op: nat)

  /** May the event happen, with these operations, at this time, with these leases granted so far? */
  predicate Possible(ops: map<nat, Op>, now: int, grants: map<Uuid, Grant>, e: Event) {
    match e
    case Pass(_) => true
    case Start(o, _, _, _, _, token) => o !in ops && token !in grants
    case Tick(o, _) =>
      && o in ops && ops[o].Running() && !ops[o].kind.Plain? && now >= ops[o].due
      && ops[o].grant.token in grants
    case GatewayReplies(o, _) => o in ops && ops[o].Active? && ops[o].phase.AtGateway?
    case WriteEnds(o, _) => o in ops && ops[o].Active? && ops[o].phase.Writing?
    case Release(o) => o in ops && ops[o].Active? && ops[o].phase.Finished? && ops[o].grant.token in grants
  }

  predicate Enabled(w: World, e: Event) { Possible(w.ops, w.locks.clock, w.locks.grants, e) }

  /** What a handler makes of the registry's answer. */
  function Started(kind: Kind, answer: Acquired, now: int): Op {
    match answer
    case InvalidArguments => Invalid
    case Held => Refused
    case Granted(g) => Active(kind, g, FirstPhase(kind), now, now + Interval(g.ttlMs), 0, true)
  }

  /** The operations after an event; `answer` is what the registry says if the event is a start. */
  function OpsAfter(ops: map<nat, Op>, now: int, grants: map<Uuid, Grant>, answer: Acquired, e: Event): map<nat, Op>
    requires Possible(ops, now, grants, e)
  {
    match e
    case Pass(_) => ops
    case Start(o, kind, _, _, _, _) => ops[o := Started(kind, answer, now)]
    case Tick(o, delivered) =>
      var op := ops[o];
      var due := now + Interval(op.grant.ttlMs);
      ops[o := if delivered then op.(refreshedAt := now, due := due, lost := 0)
               else op.(due := due, lost := op.lost + 1)]
    case GatewayReplies(o, reply) => ops[o := ops[o].(phase := AfterGateway(ops[o].kind, reply))]
    case WriteEnds(o, ok) =>
      ops[o := ops[o].(phase := AfterWrite(ops[o].phase.status, ok), clean := ops[o].clean && ok)]
    case Release(o) => ops[o := Ended(ops[o].kind, ops[o].grant, ops[o].phase.returned, ops[o].clean)]
  }

  function LogAfter(ops: map<nat, Op>, now: int, grants: map<Uuid, Grant>, log: seq<Entry>, e: Event): seq<Entry>
    requires Possible(ops, now, grants, e)
  {
    if e.WriteEnds? && e.ok then log + [Entry(ops[e.op].grant.accountId, e.op, ops[e.op].phase.status)] else log
  }

  /** The lock call an event makes, if any. */
  function CallOf(ops: map<nat, Op>, e: Event): Option<LockCall>
    requires e.Tick? || e.Release? ==> e.op in ops && ops[e.op].HasLease()
  {
    match e
    case Pass(ms) => Some(Advance(ms))
    case Start(_, _, a, k, ttl, token) => Some(AcquireCall(a, k, ttl, token))
    case Tick(o, delivered) => if delivered then Some(RenewCall(ops[o].grant.token, 0)) else None
    case Release(o) => Some(ReleaseCall(ops[o].grant.token))
    case _ => None
  }

  /** The registry's answer to a start. */
  function AnswerTo(w: World, e: Event): Acquired {
    if e.Start? then AcquireOutcome(w.locks.locks, e.accountId, e.workerId, e.ttlMs, e.token, w.locks.clock) else Held
  }

  function Step(w: World, e: Event): World
    requires Enabled(w, e)
  {
    var call := CallOf(w.ops, e);
    World(if call.Some? then Next(w.locks, call.value) else w.locks,
          OpsAfter(w.ops, w.locks.clock, w.locks.grants, AnswerTo(w, e), e),
          LogAfter(w.ops, w.locks.clock, w.locks.grants, w.log, e))
  }

  predicate Runs(w: World, events: seq<Event>)
    decreases events
  {
    events == [] || (Enabled(w, events[0]) && Runs(Step(w, events[0]), events[1..]))
  }

  function End(w: World, events: seq<Event>): World
    requires Runs(w, events)
    decreases events
  {
    if events == [] then w else End(Step(w, events[0]), events[1..])
  }

  // ---------- The timing promise ----------

  /** The promise for one operation at one moment. */
  predicate OnTime(tm: Timing, o: Op, now: int)
    requires o.Active?
  {
    if o.kind.Plain? then now < o.refreshedAt + o.grant.ttlMs else now <= o.due + tm.jitter
  }

  /** Time passes only as far as the promise lets it, and no more ticks are lost than it allows. */
  ghost predicate Punctual(tm: Timing, ops: map<nat, Op>, now: int, e: Event) {
    match e
    case Pass(ms) => forall o :: o in ops && ops[o].Running() ==> OnTime(tm, ops[o], now + ms)
    case Tick(o, delivered) => !delivered && o in ops && ops[o].Active? ==> ops[o].lost < tm.tolerated
    case _ => true
  }

  ghost predicate Timely(tm: Timing, w: World, e: Event) { Punctual(tm, w.ops, w.locks.clock, e) }

  /** The run keeps the timing promise throughout. */
  ghost predicate KeepsTime(tm: Timing, w: World, events: seq<Event>)
    requires Runs(w, events)
    decreases events
  {
    events == [] || (Timely(tm, w, events[0]) && KeepsTime(tm, Step(w, events[0]), events[1..]))
  }

  /** Every handler that renews was configured with a time limit its timer can keep up with. */
  predicate Tolerable(tm: Timing, e: Event) {
    e.Start? && !e.kind.Plain? ==> Tolerates(tm, e.ttlMs)
  }

  predicate AllTolerable(tm: Timing, events: seq<Event>) {
    forall i :: 0 <= i < |events| ==> Tolerable(tm, events[i])
  }

  // ---------- Tokens, whatever the timing ----------

  /** Each operation with a lease has its own token, granted to it and not yet flagged as released. */
  ghost predicate Identified(w: World) {
    && (forall o :: o in w.ops && w.ops[o].HasLease() ==>
          w.ops[o].grant.token in w.locks.grants && w.locks.grants[w.ops[o].grant.token] == w.ops[o].grant)
    && (forall o, p :: o in w.ops && p in w.ops && o != p && w.ops[o].HasLease() && w.ops[p].HasLease() ==>
          w.ops[o].grant.token != w.ops[p].grant.token)
    && (forall o :: o in w.ops && w.ops[o].Active? ==> w.ops[o].grant.token !in w.locks.released)
  }

  /** An ended operation's token is not in the lock table. */
  ghost predicate EndedGone(w: World) {
    forall o :: o in w.ops && w.ops[o].Ended? ==> !Recorded(w.locks.locks, w.ops[o].grant)
  }

  ghost predicate TokenInv(w: World) { Consistent(w.locks) && Identified(w) && EndedGone(w) }

  lemma StepIdentified(w: World, e: Event)
    requires Consistent(w.locks) && Identified(w) && Enabled(w, e)
    ensures Consistent(Step(w, e).locks) && Identified(Step(w, e))
  {
    var call := CallOf(w.ops, e);
    if call.Some? { StepConsistent(w.locks, call.value); }
  }

  lemma StepEndedGone(w: World, e: Event)
    requires TokenInv(w) && Enabled(w, e)
    ensures EndedGone(Step(w, e))
  {
    var w' := Step(w, e);
    forall p | p in w'.ops && w'.ops[p].Ended? ensures !Recorded(w'.locks.locks, w'.ops[p].grant) {
      if e.Pass? || p != e.op { assert w.ops[p].Ended?; }
    }
  }

  lemma StepKeepsTokens(w: World, e: Event)
    requires TokenInv(w) && Enabled(w, e)
    ensures TokenInv(Step(w, e))
  {
    StepIdentified(w, e);
    StepEndedGone(w, e);
  }

  // ---------- Leases outlive their operations ----------

  lemma GapGrows(tm: Timing, ttlMs: int, lost: nat, more: nat)
    requires lost <= more
    ensures Gap(tm, ttlMs, lost) <= Gap(tm, ttlMs, more)
    ensures Gap(tm, ttlMs, lost + 1) == Gap(tm, ttlMs, lost) + Interval(ttlMs) + tm.jitter
  {
    var step := Interval(ttlMs) + tm.jitter;
    assert (more + 1) * step == (lost + 1) * step + (more - lost) * step;
    assert (more - lost) * step >= 0;
    assert (lost + 2) * step == (lost + 1) * step + step;
  }

  /** A running operation's record is stored and its deadline is still ahead. */
  ghost predicate Covered(tm: Timing, w: World, op: Op)
    requires op.Active?
  {
    var g := op.grant;
    && g.ttlMs > 0
    && Recorded(w.locks.locks, g)
    && w.locks.locks[g.accountId].expiresAt == op.refreshedAt + g.ttlMs
    && OnTime(tm, op, w.locks.clock)
    && (!op.kind.Plain? ==>
          && op.lost <= tm.tolerated && Tolerates(tm, g.ttlMs)
          && op.due + tm.jitter <= op.refreshedAt + Gap(tm, g.ttlMs, op.lost))
  }

  ghost predicate AllCovered(tm: Timing, w: World) {
    forall o :: o in w.ops && w.ops[o].Running() ==> Covered(tm, w, w.ops[o])
  }

  ghost predicate LeaseInv(tm: Timing, w: World) { TokenInv(w) && AllCovered(tm, w) }

  lemma CoveredIsLive(tm: Timing, w: World, o: nat)
    requires LeaseInv(tm, w) && o in w.ops && w.ops[o].Running()
    ensures Live(w.locks, w.ops[o].grant.token)
  {
    var op := w.ops[o];
    assert Covered(tm, w, op);
    if !op.kind.Plain? { GapGrows(tm, op.grant.ttlMs, op.lost, tm.tolerated); }
  }

  /** An operation the event is not about keeps its cover. */
  lemma OthersStayCovered(tm: Timing, w: World, e: Event, p: nat)
    requires LeaseInv(tm, w) && Enabled(w, e) && Timely(tm, w, e) && p in w.ops && w.ops[p].Running()
    requires e.Pass? || p != e.op
    ensures Covered(tm, Step(w, e), w.ops[p])
  {
    CoveredIsLive(tm, w, p);
    assert Covered(tm, w, w.ops[p]);
    var call := CallOf(w.ops, e);
    if call.Some? { OnlyTimeOrReleaseEnds(w.locks, call.value, w.ops[p].grant.token); }
  }

  lemma StartCovered(tm: Timing, w: World, e: Event)
    requires LeaseInv(tm, w) && Enabled(w, e) && Tolerable(tm, e) && e.Start?
    requires Step(w, e).ops[e.op].Active?
    ensures Covered(tm, Step(w, e), Step(w, e).ops[e.op])
  {
    GapGrows(tm, e.ttlMs, 0, tm.tolerated);
  }

  lemma TickCovered(tm: Timing, w: World, e: Event)
    requires LeaseInv(tm, w) && Enabled(w, e) && Timely(tm, w, e) && e.Tick?
    ensures Covered(tm, Step(w, e), Step(w, e).ops[e.op])
  {
    var op := w.ops[e.op];
    CoveredIsLive(tm, w, e.op);
    assert Covered(tm, w, op);
    GapGrows(tm, op.grant.ttlMs, 0, op.lost);
    GapGrows(tm, op.grant.ttlMs, op.lost, op.lost);
  }

  lemma StepAllCovered(tm: Timing, w: World, e: Event)
    requires LeaseInv(tm, w) && Enabled(w, e) && Timely(tm, w, e) && Tolerable(tm, e)
    ensures AllCovered(tm, Step(w, e))
  {
    var w' := Step(w, e);
    forall p | p in w'.ops && w'.ops[p].Running() ensures Covered(tm, w', w'.ops[p]) {
      if e.Pass? || p != e.op {
        assert w'.ops[p] == w.ops[p];
        OthersStayCovered(tm, w, e, p);
      } else if e.Start? {
        StartCovered(tm, w, e);
      } else if e.Tick? {
        TickCovered(tm, w, e);
      } else {
        assert Covered(tm, w, w.ops[p]);
      }
    }
  }

  lemma StepKeepsLeases(tm: Timing, w: World, e: Event)
    requires LeaseInv(tm, w) && Enabled(w, e) && Timely(tm, w, e) && Tolerable(tm, e)
    ensures LeaseInv(tm, Step(w, e))
  {
    StepKeepsTokens(w, e);
    StepAllCovered(tm, w, e);
  }

  // ---------- What the statuses written look like ----------

  /** The statuses one operation has written, in order. */
  function Trace(log: seq<Entry>, o: nat): seq<Status> {
    if log == [] then []
    else Trace(log[..|log| - 1], o) + (if log[|log| - 1].op == o then [log[|log| - 1].status] else [])
  }

  /** The status blocks an operation may leave behind; `clean` when none of its status writes failed. */
  function Blocks(kind: Kind, returned: bool, clean: bool): set<seq<Status>> {
    match kind
    case Connect =>
      if returned then (if clean then {[CONNECTING], [CONNECTING, ONLINE]} else {})
      else {[CONNECTING, TELEGRAM_ERROR]} + (if clean then {} else {[], [CONNECTING]})
    case Disconnect =>
      if returned then (if clean then {[OFFLINE]} else {})
      else {[TELEGRAM_ERROR]} + (if clean then {} else {[]})
    case Plain => if clean then {[]} else {}
  }

  /** What an operation has written by the time it reaches a phase. */
  predicate TraceFits(kind: Kind, phase: Phase, clean: bool, trace: seq<Status>) {
    match phase
    case Finished(returned) => trace in Blocks(kind, returned, clean)
    case AtGateway => clean && trace == (if kind.Connect? then [CONNECTING] else [])
    case Writing(status) =>
      && (status != TELEGRAM_ERROR ==> clean)
      && match kind
         case Connect => status != OFFLINE && trace == (if status == CONNECTING then [] else [CONNECTING])
         case Disconnect => (status == OFFLINE || status == TELEGRAM_ERROR) && trace == []
         case Plain => false
  }

  predicate OpFits(op: Op, trace: seq<Status>) {
    && (op.Active? ==> TraceFits(op.kind, op.phase, op.clean, trace))
    && (op.Ended? ==> trace in Blocks(op.kind, op.returned, op.clean))
  }

  ghost predicate TracesFit(w: World) { forall o :: o in w.ops ==> OpFits(w.ops[o], Trace(w.log, o)) }

  /** Entries belong to operations holding a lease on the entry's account. */
  ghost predicate Attributed(w: World) {
    forall i :: 0 <= i < |w.log| ==>
      w.log[i].op in w.ops && w.ops[w.log[i].op].HasLease() && w.ops[w.log[i].op].grant.accountId == w.log[i].accountId
  }

  /** What holds of the operations and the log whatever the timing. */
  ghost predicate Sound(w: World) { TokenInv(w) && TracesFit(w) && Attributed(w) }

  lemma TraceAppend(log: seq<Entry>, e: Entry, o: nat)
    ensures Trace(log + [e], o) == Trace(log, o) + (if e.op == o then [e.status] else [])
  {
    assert (log + [e])[..|log|] == log;
  }

  lemma {:induction false} NoEntriesNoTrace(log: seq<Entry>, o: nat)
    requires forall i :: 0 <= i < |log| ==> log[i].op != o
    ensures Trace(log, o) == []
    decreases |log|
  {
    if log != [] { NoEntriesNoTrace(log[..|log| - 1], o); }
  }

  lemma StepTraces(w: World, e: Event, o: nat)
    requires Enabled(w, e)
    ensures Trace(Step(w, e).log, o) ==
            if e.WriteEnds? && e.ok && e.op == o then Trace(w.log, o) + [w.ops[o].phase.status] else Trace(w.log, o)
  {
    if e.WriteEnds? && e.ok {
      TraceAppend(w.log, Entry(w.ops[e.op].grant.accountId, e.op, w.ops[e.op].phase.status), o);
      assert Trace(w.log, o) + [] == Trace(w.log, o);
    }
  }

  /** A reply from Telegram leads from a fitting trace to a fitting phase. */
  lemma GatewayFits(kind: Kind, reply: Reply, clean: bool, trace: seq<Status>)
    requires TraceFits(kind, AtGateway, clean, trace)
    ensures TraceFits(kind, AfterGateway(kind, reply), clean, trace)
  {
  }

  /** One status write, or its failure, leads from a fitting trace to a fitting trace. */
  lemma WriteFits(kind: Kind, status: Status, ok: bool, clean: bool, trace: seq<Status>)
    requires TraceFits(kind, Writing(status), clean, trace)
    ensures TraceFits(kind, AfterWrite(status, ok), clean && ok, trace + (if ok then [status] else []))
  {
    assert [] + [status] == [status] && [CONNECTING] + [status] == [CONNECTING, status];
    assert trace + [] == trace;
  }

  lemma StepTraceFits(w: World, e: Event, o: nat)
    requires TracesFit(w) && Attributed(w) && Enabled(w, e) && o in Step(w, e).ops
    ensures OpFits(Step(w, e).ops[o], Trace(Step(w, e).log, o))
  {
    StepTraces(w, e, o);
    if e.Pass? || e.op != o {
      assert Step(w, e).ops[o] == w.ops[o];
    } else if e.Start? {
      NoEntriesNoTrace(w.log, o);
      assert Step(w, e).ops[o].Active? ==> Step(w, e).ops[o].phase == FirstPhase(e.kind);
    } else {
      var op := w.ops[o];
      assert OpFits(op, Trace(w.log, o));
      if e.WriteEnds? {
        WriteFits(op.kind, op.phase.status, e.ok, op.clean, Trace(w.log, o));
        assert Trace(w.log, o) + [] == Trace(w.log, o);
      } else if e.GatewayReplies? {
        GatewayFits(op.kind, e.reply, op.clean, Trace(w.log, o));
      }
    }
  }

  lemma StepAttributed(w: World, e: Event)
    requires Attributed(w) && Enabled(w, e)
    ensures Attributed(Step(w, e))
  {
  }

  lemma StepSound(w: World, e: Event)
    requires Sound(w) && Enabled(w, e)
    ensures Sound(Step(w, e))
  {
    var w' := Step(w, e);
    StepKeepsTokens(w, e);
    forall o | o in w'.ops ensures OpFits(w'.ops[o], Trace(w'.log, o)) { StepTraceFits(w, e, o); }
    StepAttributed(w, e);
  }

  lemma {:induction false} RunSound(w: World, events: seq<Event>)
    requires Sound(w) && Runs(w, events)
    ensures Sound(End(w, events))
    decreases events
  {
    if events != [] {
      StepSound(w, events[0]);
      RunSound(Step(w, events[0]), events[1..]);
    }
  }

  // ---------- The order of the writes ----------

  /** No other operation writes to an account between two writes of one operation on it. */
  ghost predicate Uninterleaved(log: seq<Entry>) {
    forall i, j, k ::
      0 <= i < j < k < |log| && log[i].op == log[k].op && log[j].accountId == log[i].accountId ==>
        log[j].op == log[i].op
  }

  /** Once a running operation has written, every later write on its account is its own. */
  ghost predicate RunningWritesLast(w: World) {
    forall i, j ::
      && 0 <= i < j < |w.log| && w.log[i].op in w.ops && w.ops[w.log[i].op].Running()
      && w.log[j].accountId == w.log[i].accountId
      ==> w.log[j].op == w.log[i].op
  }

  ghost predicate InTurn(w: World) { Uninterleaved(w.log) && RunningWritesLast(w) }

  /** Two running operations are never on the same account. */
  lemma RunningApart(tm: Timing, w: World, o: nat, p: nat)
    requires LeaseInv(tm, w) && o in w.ops && p in w.ops && w.ops[o].Running() && w.ops[p].Running()
    requires w.ops[o].grant.accountId == w.ops[p].grant.accountId
    ensures o == p
  {
    CoveredIsLive(tm, w, o);
    CoveredIsLive(tm, w, p);
  }

  /** A status is only appended by a running operation, the only one running on its account. */
  lemma StepWritesLast(tm: Timing, w: World, e: Event)
    requires LeaseInv(tm, w) && Sound(w) && InTurn(w) && Enabled(w, e) && e.WriteEnds? && e.ok
    ensures RunningWritesLast(Step(w, e))
  {
    var w' := Step(w, e);
    forall i, j |
      && 0 <= i < j < |w'.log| && w'.log[i].op in w'.ops && w'.ops[w'.log[i].op].Running()
      && w'.log[j].accountId == w'.log[i].accountId
      ensures w'.log[j].op == w'.log[i].op
    {
      assert w.log[i] == w'.log[i];
      if j == |w.log| {
        if w.log[i].op != e.op { RunningApart(tm, w, w.log[i].op, e.op); }
      } else {
        assert w.log[j] == w'.log[j];
      }
    }
  }

  lemma StepUninterleaved(w: World, e: Event)
    requires InTurn(w) && Enabled(w, e) && e.WriteEnds? && e.ok
    ensures Uninterleaved(Step(w, e).log)
  {
    var log' := Step(w, e).log;
    forall i, j, k |
      0 <= i < j < k < |log'| && log'[i].op == log'[k].op && log'[j].accountId == log'[i].accountId
      ensures log'[j].op == log'[i].op
    {
      assert w.log[i] == log'[i] && w.log[j] == log'[j];
      if k < |w.log| { assert w.log[k] == log'[k]; }
    }
  }

  lemma StepInTurn(tm: Timing, w: World, e: Event)
    requires LeaseInv(tm, w) && Sound(w) && InTurn(w) && Enabled(w, e)
    ensures InTurn(Step(w, e))
  {
    if e.WriteEnds? && e.ok {
      StepWritesLast(tm, w, e);
      StepUninterleaved(w, e);
    }
  }

  ghost predicate Inv(tm: Timing, w: World) { Sound(w) && AllCovered(tm, w) && InTurn(w) }

  lemma {:induction false} RunKeepsInv(tm: Timing, w: World, events: seq<Event>)
    requires Inv(tm, w) && Runs(w, events) && KeepsTime(tm, w, events) && AllTolerable(tm, events)
    ensures Inv(tm, End(w, events))
    decreases events
  {
    if events != [] {
      StepSound(w, events[0]);
      StepAllCovered(tm, w, events[0]);
      StepInTurn(tm, w, events[0]);
      RunKeepsInv(tm, Step(w, events[0]), events[1..]);
    }
  }
}
