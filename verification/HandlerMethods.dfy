/**
 The handlers as the program writes them, one call at a time: acquire, run the operation, release
 in `finally`. What the outside world answers (Telegram, the status table, the clock) is passed in.
 Each method is proved against the phase functions that the interleaved runs of module Handlers use.
 */
module HandlerMethods {
  import opened Common
  import opened AccountLock
  import opened Handlers

  /** How each write and the Telegram call of one operation come out. */
  datatype Answers = Answers(connecting: bool, final: bool, error: bool, reply: Reply)
  {
    predicate Accepts(status: Status) {
      match status
      case CONNECTING => connecting
      case ONLINE => final
      case OFFLINE => final
      case TELEGRAM_ERROR => error
    }
  }

  function Rank(phase: Phase): nat {
    match phase
    case Writing(status) => if status == CONNECTING then 4 else if status == TELEGRAM_ERROR then 1 else 2
    case AtGateway => 3
    case Finished(_) => 0
  }

  datatype Outcome = Outcome(written: seq<Status>, returned: bool, clean: bool)

  /** The phases of module Handlers, followed to the end. */
  function Play(kind: Kind, phase: Phase, a: Answers): Outcome
    decreases Rank(phase)
  {
    match phase
    case Finished(returned) => Outcome([], returned, true)
    case AtGateway => Play(kind, AfterGateway(kind, a.reply), a)
    case Writing(status) =>
      var rest := Play(kind, AfterWrite(status, a.Accepts(status)), a);
      if a.Accepts(status) then rest.(written := [status] + rest.written) else rest.(clean := false)
  }

  function Whole(kind: Kind, a: Answers): Outcome { Play(kind, FirstPhase(kind), a) }

  /** Played to the end, an operation leaves one of the blocks of its kind. */
  lemma WholeIsBlock(kind: Kind, a: Answers)
    ensures Whole(kind, a).written in Blocks(kind, Whole(kind, a).returned, Whole(kind, a).clean)
  {
    PlayFits(kind, FirstPhase(kind), a, [], true);
    assert [] + Whole(kind, a).written == Whole(kind, a).written;
  }

  /** A connect, by what is answered: the statuses it writes, whether it returns, whether a write failed. */
  lemma ConnectTable(a: Answers)
    ensures var o := Whole(Kind.Connect, a);
            && (!a.connecting ==> o == Outcome([], false, false))
            && (a.connecting && a.reply == CodeSent ==> o == Outcome([CONNECTING], true, true))
            && (a.connecting && a.reply == Done && a.final ==> o == Outcome([CONNECTING, ONLINE], true, true))
            && (a.connecting && a.reply == Done && !a.final ==>
                  o == Outcome([CONNECTING] + (if a.error then [TELEGRAM_ERROR] else []), false, false))
            && (a.connecting && a.reply == Threw ==>
                  o == Outcome([CONNECTING] + (if a.error then [TELEGRAM_ERROR] else []), false, a.error))
  {
  }

  /** A disconnect, likewise. */
  lemma DisconnectTable(a: Answers)
    ensures var o := Whole(Kind.Disconnect, a);
            && (a.reply != Threw && a.final ==> o == Outcome([OFFLINE], true, true))
            && (a.reply != Threw && !a.final ==> o == Outcome(if a.error then [TELEGRAM_ERROR] else [], false, false))
            && (a.reply == Threw ==> o == Outcome(if a.error then [TELEGRAM_ERROR] else [], false, a.error))
  {
  }

  /** Each outcome of a kind of operation, with the answers that bring it about. */
  function AnswersFor(kind: Kind, block: seq<Status>, returned: bool, clean: bool): Answers {
    if returned then Answers(true, true, true, if kind.Connect? && |block| == 1 then CodeSent else Done)
    else if clean then Answers(true, true, true, Threw)
    else if kind.Connect? then Answers(block != [], false, |block| == 2, Done)
    else Answers(true, false, block != [], Done)
  }

  /**
   The blocks are exactly what operations leave behind: each is the whole writing of some operation
   of its kind and outcome.
   */
  lemma BlocksAreExact(kind: Kind, block: seq<Status>, returned: bool, clean: bool)
    ensures block in Blocks(kind, returned, clean) <==> exists a :: Whole(kind, a) == Outcome(block, returned, clean)
  {
    if block in Blocks(kind, returned, clean) {
      var a := AnswersFor(kind, block, returned, clean);
      assert Whole(kind, a) == Outcome(block, returned, clean);
    }
    forall a | Whole(kind, a) == Outcome(block, returned, clean) ensures block in Blocks(kind, returned, clean) {
      WholeIsBlock(kind, a);
    }
  }

  lemma {:induction false} PlayFits(kind: Kind, phase: Phase, a: Answers, before: seq<Status>, clean: bool)
    requires TraceFits(kind, phase, clean, before)
    ensures var o := Play(kind, phase, a); before + o.written in Blocks(kind, o.returned, clean && o.clean)
    decreases Rank(phase)
  {
    match phase
    case Finished(_) => assert before + [] == before;
    case AtGateway =>
      GatewayFits(kind, a.reply, clean, before);
      PlayFits(kind, AfterGateway(kind, a.reply), a, before, clean);
    case Writing(status) =>
      var ok := a.Accepts(status);
      WriteFits(kind, status, ok, clean, before);
      var now := before + (if ok then [status] else []);
      PlayFits(kind, AfterWrite(status, ok), a, now, clean && ok);
      var rest := Play(kind, AfterWrite(status, ok), a);
      assert ok ==> now + rest.written == before + ([status] + rest.written);
      assert !ok ==> now == before;
  }

  /** The lease is recorded for this account and has not been released. */
  ghost predicate Holds(lease: Lease, accountId: string)
    reads lease, lease.registry
  {
    !lease.released && lease.grant.accountId == accountId && Recorded(lease.registry.locks, lease.grant)
  }

  /** The status table, as the statuses written to it, each of them under a lease. */
  class AccountState {
    var written: seq<(string, Status)>

    method SetStatus(accountId: string, status: Status, accepts: bool, ghost lease: Lease) returns (ok: bool)
      requires Holds(lease, accountId)
      modifies this
      ensures ok == accepts
      ensures written == if ok then old(written) + [(accountId, status)] else old(written)
    {
      ok := accepts;
      if ok { written := written + [(accountId, status)]; }
    }
  }

  function Tagged(accountId: string, statuses: seq<Status>): (r: seq<(string, Status)>)
    ensures |r| == |statuses|
  {
    seq(|statuses|, i requires 0 <= i < |statuses| => (accountId, statuses[i]))
  }

  datatype Result = Completed | Deferred | Failed

  /** The lock table after the timer fired at these moments. */
  function Renewed(locks: Locks, g: Grant, ticks: seq<int>): Locks {
    if ticks == [] then locks
    else
      var last := ticks[|ticks| - 1];
      AfterRenew(Renewed(locks, g, ticks[..|ticks| - 1]), g, false, last, last)
  }

  /** Renewing neither loses the record nor touches another account. */
  lemma {:induction false} RenewedKeepsRecord(locks: Locks, g: Grant, ticks: seq<int>)
    requires Recorded(locks, g)
    ensures Recorded(Renewed(locks, g, ticks), g) && Renewed(locks, g, ticks) - {g.accountId} == locks - {g.accountId}
    decreases |ticks|
  {
    if ticks != [] { RenewedKeepsRecord(locks, g, ticks[..|ticks| - 1]); }
  }

  /** The record reaches `ttlMs` past the last tick if every tick found it unexpired. */
  lemma {:induction false} RenewedExpiry(locks: Locks, g: Grant, ticks: seq<int>)
    requires Recorded(locks, g) && ticks != [] && ticks[0] < locks[g.accountId].expiresAt
    requires forall i :: 0 < i < |ticks| ==> ticks[i] < ticks[i - 1] + g.ttlMs
    ensures g.accountId in Renewed(locks, g, ticks)
    ensures Renewed(locks, g, ticks)[g.accountId].expiresAt == ticks[|ticks| - 1] + g.ttlMs
    decreases |ticks|
  {
    var front := ticks[..|ticks| - 1];
    RenewedKeepsRecord(locks, g, front);
    if front != [] { RenewedExpiry(locks, g, front); }
  }

  /** The timer fires at the given moments while the operation runs; a failing renewal is swallowed. */
  method FireTimer(lease: Lease, ticks: seq<int>)
    requires !lease.released
    modifies lease.registry
    ensures lease.registry.locks == Renewed(old(lease.registry.locks), lease.grant, ticks)
  {
    for i := 0 to |ticks|
      invariant lease.registry.locks == Renewed(old(lease.registry.locks), lease.grant, ticks[..i])
    {
      var _ := lease.Renew(ticks[i], ticks[i]);
      assert ticks[..i + 1][..i] == ticks[..i];
    }
    assert ticks[..|ticks|] == ticks;
  }

  /** The CONNECT_ACCOUNT operation body. */
  method Connect(state: AccountState, accountId: string, a: Answers, ghost lease: Lease) returns (returned: bool)
    requires Holds(lease, accountId)
    modifies state
    ensures state.written == old(state.written) + Tagged(accountId, Whole(Kind.Connect, a).written)
    ensures returned == Whole(Kind.Connect, a).returned
    ensures var wrote := state.written[|old(state.written)|..];
            && (!a.connecting ==> !returned && wrote == [])
            && (a.connecting && a.reply == CodeSent ==> returned && wrote == [(accountId, CONNECTING)])
            && (a.connecting && a.reply == Done && a.final ==>
                  returned && wrote == [(accountId, CONNECTING), (accountId, ONLINE)])
            && (a.connecting && (a.reply == Threw || (a.reply == Done && !a.final)) ==>
                  && !returned
                  && wrote == [(accountId, CONNECTING)] + (if a.error then [(accountId, TELEGRAM_ERROR)] else []))
  {
    ghost var w0 := state.written;
    var ok := state.SetStatus(accountId, CONNECTING, a.connecting, lease);
    if !ok {
      assert state.written == w0 + Tagged(accountId, []);
      return false;
    }
    if a.reply == CodeSent { return true; }
    var online := false;
    if a.reply == Done {
      online := state.SetStatus(accountId, ONLINE, a.final, lease);
    }
    if online { return true; }
    var _ := state.SetStatus(accountId, TELEGRAM_ERROR, a.error, lease);
    return false;
  }

  /** The DISCONNECT_ACCOUNT operation body. */
  method Disconnect(state: AccountState, accountId: string, a: Answers, ghost lease: Lease) returns (returned: bool)
    requires Holds(lease, accountId)
    modifies state
    ensures state.written == old(state.written) + Tagged(accountId, Whole(Kind.Disconnect, a).written)
    ensures returned == Whole(Kind.Disconnect, a).returned
    ensures var wrote := state.written[|old(state.written)|..];
            && (a.reply != Threw && a.final ==> returned && wrote == [(accountId, OFFLINE)])
            && (a.reply == Threw || !a.final ==>
                  !returned && wrote == if a.error then [(accountId, TELEGRAM_ERROR)] else [])
  {
    ghost var w0 := state.written;
    if a.reply != Threw {
      var ok := state.SetStatus(accountId, OFFLINE, a.final, lease);
      if ok { return true; }
    }
    var _ := state.SetStatus(accountId, TELEGRAM_ERROR, a.error, lease);
    assert state.written == w0 + Tagged(accountId, Whole(Kind.Disconnect, a).written);
    return false;
  }

  /**
   withAccountLock around either lifecycle operation. With nobody else at work, a granted handler
   holds the account (`held` is the table before the release) and leaves the table as it was
   without the account, whatever the operation did; a refused one touches nothing.
   */
  method WithAccountLock(registry: InMemoryAccountLockRegistry, state: AccountState, kind: Kind,
                         accountId: string, workerId: string, ttlMs: int, now: int, token: Uuid,
                         ticks: seq<int>, a: Answers)
    returns (result: Result, ghost held: Locks)
    requires !kind.Plain?
    modifies registry, state
    ensures var outcome := AcquireOutcome(old(registry.locks), accountId, workerId, ttlMs, token, now);
            if outcome.Granted? then
              && held == Renewed(AfterAcquire(old(registry.locks), accountId, workerId, ttlMs, token, now),
                   outcome.grant, ticks)
              && registry.locks == AfterRelease(held, outcome.grant, false) == old(registry.locks) - {accountId}
              && state.written == old(state.written) + Tagged(accountId, Whole(kind, a).written)
              && result == (if Whole(kind, a).returned then Completed else Failed)
            else
              && registry.locks == old(registry.locks) && state.written == old(state.written)
              && result == (if outcome.Held? then Deferred else Failed)
  {
    held := registry.locks;
    if accountId == "" { return Failed, held; }
    var lease, invalid := registry.Acquire(accountId, workerId, ttlMs, now, token);
    if invalid { return Failed, held; }
    if lease.None? { return Deferred, held; }
    RenewedKeepsRecord(registry.locks, lease.value.grant, ticks);
    FireTimer(lease.value, ticks);
    held := registry.locks;
    var returned;
    if kind.Connect? {
      returned := Connect(state, accountId, a, lease.value);
    } else {
      returned := Disconnect(state, accountId, a, lease.value);
    }
    var _ := lease.value.Release();
    return if returned then Completed else Failed, held;
  }

  /** Calls made on the Telegram gateway, by account, each of them under a lease. */
  class Gateway {
    var calls: seq<string>

    method Call(accountId: string, ghost lease: Lease)
      requires Holds(lease, accountId)
      modifies this
      ensures calls == old(calls) + [accountId]
    {
      calls := calls + [accountId];
    }
  }

  /** withLock of the message handlers; `ready` says the gateway and the payload pass their checks. */
  method WithLock(registry: InMemoryAccountLockRegistry, gateway: Gateway, accountId: string, workerId: string,
                  ttlMs: int, now: int, token: Uuid, ready: bool, reply: Reply)
    returns (result: Result)
    modifies registry, gateway
    ensures var outcome := AcquireOutcome(old(registry.locks), accountId, workerId, ttlMs, token, now);
            && registry.locks == (if outcome.Granted? then old(registry.locks) - {accountId} else old(registry.locks))
            && gateway.calls == old(gateway.calls) + (if outcome.Granted? && ready then [accountId] else [])
            && result == (if outcome.Held? then Deferred
                          else if outcome.Granted? && ready && reply != Threw then Completed else Failed)
  {
    if accountId == "" { return Failed; }
    var lease, invalid := registry.Acquire(accountId, workerId, ttlMs, now, token);
    if invalid { return Failed; }
    if lease.None? { return Deferred; }
    if ready { gateway.Call(accountId, lease.value); }
    var _ := lease.value.Release();
    return if ready && reply != Threw then Completed else Failed;
  }

  /** LOAD_DIALOGS and LOAD_CONTACTS: the gateway is checked before the lock is taken. */
  method LoadUnderLease(registry: InMemoryAccountLockRegistry, gateway: Gateway, accountId: string, workerId: string,
                        ttlMs: int, now: int, token: Uuid, configured: bool, reply: Reply)
    returns (result: Result)
    modifies registry, gateway
    ensures var outcome := AcquireOutcome(old(registry.locks), accountId, workerId, ttlMs, token, now);
            if configured then
              && registry.locks == (if outcome.Granted? then old(registry.locks) - {accountId} else old(registry.locks))
              && gateway.calls == (if outcome.Granted? then old(gateway.calls) + [accountId] else old(gateway.calls))
              && result == (if outcome.Held? then Deferred
                            else if outcome.Granted? && reply != Threw then Completed else Failed)
            else registry.locks == old(registry.locks) && gateway.calls == old(gateway.calls) && result == Failed
  {
    if accountId == "" || !configured { return Failed; }
    var lease, invalid := registry.Acquire(accountId, workerId, ttlMs, now, token);
    if invalid { return Failed; }
    if lease.None? { return Deferred; }
    gateway.Call(accountId, lease.value);
    var _ := lease.value.Release();
    return if reply != Threw then Completed else Failed;
  }
}
