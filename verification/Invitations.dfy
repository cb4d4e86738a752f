/**
 Invitation tasks: their creation through the API (controller.ts), one run of
 PROCESS_INVITATION_ITEM over the task's accounts and users (invitations.ts), and sequences of
 runs with imports in between.
 */
module Invitations {
  import opened Common
  import opened Text

  // ---------- Creating a task ----------

  datatype ChatType = PRIVATE | GROUP | SUPERGROUP | CHANNEL
  datatype Chat = Chat(accountId: string, chatType: ChatType)

  /** `Conflict` is the database's refusal of a repeated (task, account) pair, answered as an internal error. */
  datatype CreateReply =
    | ValidationError
    | TargetChatNotAllowed
    | AccountNotAvailable
    | Conflict
    | Created(accounts: seq<string>)

  predicate Usable(owners: map<string, string>, user: string, chat: Chat, accountId: string) {
    accountId in owners && owners[accountId] == user && accountId == chat.accountId
  }

  predicate Distinct<T(==)>(s: seq<T>) { forall i, j :: 0 <= i < j < |s| ==> s[i] != s[j] }

  lemma SameAndDistinct<T>(s: seq<T>, x: T)
    requires s != [] && Distinct(s) && forall i :: 0 <= i < |s| ==> s[i] == x
    ensures s == [x]
  {
    assert s[0] == s[|s| - 1];
  }

  /** The requests that create a task. */
  predicate Creatable(user: string, chat: Option<Chat>, accountIds: seq<string>, owners: map<string, string>) {
    && 1 <= |accountIds| <= 100 && chat.Some? && !chat.value.chatType.PRIVATE?
    && (forall i :: 0 <= i < |accountIds| ==> Usable(owners, user, chat.value, accountIds[i]))
    && Distinct(accountIds)
  }

  /** Whatever list is asked for, a task is created only with the target chat's own account. */
  lemma CreatedHasOneAccount(user: string, chat: Option<Chat>, accountIds: seq<string>, owners: map<string, string>)
    requires Creatable(user, chat, accountIds, owners)
    ensures accountIds == [chat.value.accountId]
  {
    assert forall i :: 0 <= i < |accountIds| ==> Usable(owners, user, chat.value, accountIds[i]);
    SameAndDistinct(accountIds, chat.value.accountId);
  }

  /** POST /api/invitations/tasks, stored under the unique constraint on (invitationTaskId, telegramAccountId). */
  method CreateInvitationTask(user: string, chat: Option<Chat>, accountIds: seq<string>, owners: map<string, string>)
    returns (reply: CreateReply)
    ensures reply == ValidationError <==> !(1 <= |accountIds| <= 100)
    ensures reply.Created? <==> Creatable(user, chat, accountIds, owners)
    ensures reply.Created? ==> reply.accounts == accountIds == [chat.value.accountId]
    ensures 1 <= |accountIds| <= 100 ==>
              (reply == TargetChatNotAllowed <==> chat.None? || chat.value.chatType == PRIVATE)
    ensures 1 <= |accountIds| <= 100 && chat.Some? && chat.value.chatType != PRIVATE ==>
              && (reply == AccountNotAvailable <==>
                    exists id :: id in accountIds &&
                        !(id in owners && owners[id] == user && id == chat.value.accountId))
              && (reply == Created(accountIds) <==>
                    accountIds == [chat.value.accountId] && accountIds[0] in owners && owners[accountIds[0]] == user)
  {
    if !(1 <= |accountIds| <= 100) { return ValidationError; }
    if chat.None? || chat.value.chatType.PRIVATE? { return TargetChatNotAllowed; }
    for i := 0 to |accountIds|
      invariant forall k :: 0 <= k < i ==> Usable(owners, user, chat.value, accountIds[k])
    {
      var id := accountIds[i];
      if id !in owners || owners[id] != user || id != chat.value.accountId {
        assert id in accountIds;
        return AccountNotAvailable;
      }
    }
    if !Distinct(accountIds) { return Conflict; }
    CreatedHasOneAccount(user, chat, accountIds, owners);
    return Created(accountIds);
  }

  // ---------- One run ----------

  datatype ItemStatus =
    PENDING | PROCESSING | INVITED | ALREADY_MEMBER | PRIVACY_RESTRICTED | NOT_FOUND | FLOOD_WAIT | FAILED | SKIPPED

  /** What an invite call does: it returns, or throws an error with this name and message. */
  datatype Outcome = Joined | Threw(text: string)

  /** `classifyInvitationError` */
  function Classify(text: string): (status: ItemStatus)
    ensures status in {FLOOD_WAIT, PRIVACY_RESTRICTED, NOT_FOUND, ALREADY_MEMBER, FAILED}
    ensures status == FLOOD_WAIT <==> Contains(Upper(text), "FLOOD_WAIT")
  {
    var value := Upper(text);
    if Contains(value, "FLOOD_WAIT") then FLOOD_WAIT
    else if Contains(value, "PRIVACY") || Contains(value, "USER_PRIVACY_RESTRICTED") then PRIVACY_RESTRICTED
    else if Contains(value, "USER_NOT_FOUND") || Contains(value, "USERNAME_INVALID") then NOT_FOUND
    else if Contains(value, "ALREADY") || Contains(value, "USER_ALREADY_PARTICIPANT") then ALREADY_MEMBER
    else FAILED
  }

  lemma ContainsPart(s: string, whole: string, k: nat, part: string)
    requires PartAt(whole, k, part) && Contains(s, whole)
    ensures Contains(s, part)
  {
    var i :| 0 <= i <= |s| && PartAt(s, i, whole);
    forall j | 0 <= j < |part| ensures s[i + k + j] == part[j] {
      assert whole[k..k + |part|][j] == whole[k + j] && s[i..i + |whole|][k + j] == s[i + k + j];
    }
    assert PartAt(s, i + k, part);
  }

  lemma LongerMarks(s: string)
    ensures Contains(s, "USER_PRIVACY_RESTRICTED") ==> Contains(s, "PRIVACY")
    ensures Contains(s, "USER_ALREADY_PARTICIPANT") ==> Contains(s, "ALREADY")
  {
    assert "USER_PRIVACY_RESTRICTED"[5..12] == "PRIVACY" && "USER_ALREADY_PARTICIPANT"[5..12] == "ALREADY";
    if Contains(s, "USER_PRIVACY_RESTRICTED") { ContainsPart(s, "USER_PRIVACY_RESTRICTED", 5, "PRIVACY"); }
    if Contains(s, "USER_ALREADY_PARTICIPANT") { ContainsPart(s, "USER_ALREADY_PARTICIPANT", 5, "ALREADY"); }
  }

  /** Each status by the marks in the text: five marks decide, the two longer ones the code looks for add nothing. */
  lemma ClassifyByMarks(text: string)
    ensures var s := Upper(text); var status := Classify(text);
            var flood, privacy, already := Contains(s, "FLOOD_WAIT"), Contains(s, "PRIVACY"), Contains(s, "ALREADY");
            var missing := Contains(s, "USER_NOT_FOUND") || Contains(s, "USERNAME_INVALID");
            && (status == FLOOD_WAIT <==> flood)
            && (status == PRIVACY_RESTRICTED <==> !flood && privacy)
            && (status == NOT_FOUND <==> !flood && !privacy && missing)
            && (status == ALREADY_MEMBER <==> !flood && !privacy && !missing && already)
            && (status == FAILED <==> !flood && !privacy && !missing && !already)
  {
    LongerMarks(Upper(text));
  }

  /** The status an attempt leaves on the user's row. */
  function Final(o: Outcome): ItemStatus { if o.Joined? then INVITED else Classify(o.text) }

  type UserId = string
  type Rows = map<UserId, ItemStatus>

  /** How Telegram answers account number `a` inviting a user. */
  type Telegram = (nat, UserId) -> Outcome

  datatype Tally = Tally(rows: Rows, processed: nat, failed: nat, attempts: seq<(nat, UserId)>)

  function Attempt(t: Tally, a: nat, u: UserId, telegram: Telegram): Tally {
    Tally(t.rows[u := Final(telegram(a, u))],
          if telegram(a, u).Joined? then t.processed + 1 else t.processed,
          if telegram(a, u).Joined? then t.failed else t.failed + 1,
          t.attempts + [(a, u)])
  }

  /** One account's pass over the pending users, up to the first FLOOD_WAIT. */
  function Pass(t: Tally, a: nat, pending: seq<UserId>, telegram: Telegram): Tally
    decreases |pending|
  {
    if pending == [] then t
    else
      var t' := Attempt(t, a, pending[0], telegram);
      if Final(telegram(a, pending[0])) == FLOOD_WAIT then t' else Pass(t', a, pending[1..], telegram)
  }

  lemma PassNext(t: Tally, a: nat, users: seq<UserId>, i: nat, telegram: Telegram)
    requires i < |users|
    ensures var t' := Attempt(t, a, users[i], telegram);
            Pass(t, a, users[i..], telegram) ==
            if Final(telegram(a, users[i])) == FLOOD_WAIT then t' else Pass(t', a, users[i + 1..], telegram)
  {
    assert users[i..][1..] == users[i + 1..];
  }

  /** Every account that gets its lock makes a pass over the same list. */
  function Passes(t: Tally, a: nat, granted: seq<bool>, pending: seq<UserId>, telegram: Telegram): Tally
    requires a <= |granted|
    decreases |granted| - a
  {
    if a == |granted| then t
    else Passes(if granted[a] then Pass(t, a, pending, telegram) else t, a + 1, granted, pending, telegram)
  }

  /** The snapshot's PENDING users, in its order. */
  function PendingOf(order: seq<UserId>, rows: Rows): (r: seq<UserId>)
    requires forall u :: u in order ==> u in rows
    ensures forall u :: u in r <==> u in order && rows[u] == PENDING
    ensures Distinct(order) ==> Distinct(r)
  {
    if order == [] then []
    else (if rows[order[0]] == PENDING then [order[0]] else []) + PendingOf(order[1..], rows)
  }

  /** `x` comes before `y`. */
  predicate Precedes(order: seq<UserId>, x: UserId, y: UserId) {
    exists k, l :: 0 <= k < l < |order| && order[k] == x && order[l] == y
  }

  lemma PrecedesInTail(order: seq<UserId>, x: UserId, y: UserId)
    requires order != [] && Precedes(order[1..], x, y)
    ensures Precedes(order, x, y)
  {
    var k, l :| 0 <= k < l < |order[1..]| && order[1..][k] == x && order[1..][l] == y;
    assert order[k + 1] == x && order[l + 1] == y;
  }

  lemma FirstPrecedes(order: seq<UserId>, y: UserId)
    requires order != [] && y in order[1..]
    ensures Precedes(order, order[0], y)
  {
    var l :| 0 <= l < |order[1..]| && order[1..][l] == y;
    assert order[l + 1] == y;
  }

  /** The attempted order is the snapshot's: who comes earlier in the one comes earlier in the other. */
  lemma {:induction false} PendingKeepsOrder(order: seq<UserId>, rows: Rows, i: nat, j: nat)
    requires (forall u :: u in order ==> u in rows) && i < j < |PendingOf(order, rows)|
    ensures Precedes(order, PendingOf(order, rows)[i], PendingOf(order, rows)[j])
    decreases |order|
  {
    var rest := PendingOf(order[1..], rows);
    if rows[order[0]] != PENDING {
      PendingKeepsOrder(order[1..], rows, i, j);
      PrecedesInTail(order, rest[i], rest[j]);
    } else if i > 0 {
      PendingKeepsOrder(order[1..], rows, i - 1, j - 1);
      PrecedesInTail(order, rest[i - 1], rest[j - 1]);
    } else {
      FirstPrecedes(order, rest[j - 1]);
    }
  }

  /** The status writes of these attempts: PROCESSING before each call, the answer's status after it. */
  function WritesOf(attempts: seq<(nat, UserId)>, telegram: Telegram): seq<(UserId, ItemStatus)> {
    if attempts == [] then []
    else
      var (a, u) := attempts[|attempts| - 1];
      WritesOf(attempts[..|attempts| - 1], telegram) +
      [(u, PROCESSING), (u, if telegram(a, u).Joined? then INVITED else Classify(telegram(a, u).text))]
  }

  lemma WritesAppend(attempts: seq<(nat, UserId)>, a: nat, u: UserId, telegram: Telegram)
    ensures WritesOf(attempts + [(a, u)], telegram) ==
            WritesOf(attempts, telegram) +
            [(u, PROCESSING), (u, if telegram(a, u).Joined? then INVITED else Classify(telegram(a, u).text))]
  {
    assert (attempts + [(a, u)])[..|attempts|] == attempts;
  }

  /** The run of a task with these accounts. */
  function TaskRun(accounts: seq<string>, rows: Rows, order: seq<UserId>, granted: seq<bool>, telegram: Telegram): Tally
    requires |granted| == |accounts| && forall u :: u in order ==> u in rows
  {
    Passes(Tally(rows, 0, 0, []), 0, granted, PendingOf(order, rows), telegram)
  }

  class InvitationDb {
    var rows: Rows
    var taskFailed: Option<bool>                // the task's final status: FAILED, or COMPLETED
    ghost var writes: seq<(UserId, ItemStatus)>  // every status written to a row

    /** One status write. */
    method SetStatus(user: UserId, status: ItemStatus)
      modifies this`rows, this`writes
      ensures rows == old(rows)[user := status] && writes == old(writes) + [(user, status)]
    {
      rows := rows[user := status];
      writes := writes + [(user, status)];
    }

    /** One user: PROCESSING, the call, and the status its answer calls for. */
    method InviteUser(a: nat, user: UserId, telegram: Telegram, processed0: nat, failed0: nat,
        attempts0: seq<(nat, UserId)>)
      returns (processed: nat, failed: nat, attempts: seq<(nat, UserId)>, flooded: bool)
      modifies this`rows, this`writes
      ensures Tally(rows, processed, failed, attempts) ==
              Attempt(Tally(old(rows), processed0, failed0, attempts0), a, user, telegram)
      ensures flooded <==> Final(telegram(a, user)) == FLOOD_WAIT
      ensures writes == old(writes) + [(user, PROCESSING), (user, Final(telegram(a, user)))]
    {
      processed, failed, flooded := processed0, failed0, false;
      SetStatus(user, PROCESSING);
      attempts := attempts0 + [(a, user)];
      match telegram(a, user) {
        case Joined =>
          SetStatus(user, INVITED);
          processed := processed + 1;
        case Threw(text) =>
          var status := Classify(text);
          SetStatus(user, status);
          failed := failed + 1;
          flooded := status == FLOOD_WAIT;
      }
      assert rows == old(rows)[user := Final(telegram(a, user))];
    }

    /** The inner loop: account `a` holds its lock and works through the pending users. */
    method InvitePending(a: nat, users: seq<UserId>, telegram: Telegram, processed0: nat, failed0: nat,
                         attempts0: seq<(nat, UserId)>, ghost base: seq<(UserId, ItemStatus)>)
      returns (processed: nat, failed: nat, attempts: seq<(nat, UserId)>)
      requires writes == base + WritesOf(attempts0, telegram)
      modifies this`rows, this`writes
      ensures Tally(rows, processed, failed, attempts) ==
              Pass(Tally(old(rows), processed0, failed0, attempts0), a, users, telegram)
      ensures writes == base + WritesOf(attempts, telegram)
    {
      processed, failed, attempts := processed0, failed0, attempts0;
      ghost var pass := Pass(Tally(rows, processed, failed, attempts), a, users, telegram);
      var i := 0;
      assert users[0..] == users;
      while i < |users|
        invariant i <= |users|
        invariant Pass(Tally(rows, processed, failed, attempts), a, users[i..], telegram) == pass
        invariant writes == base + WritesOf(attempts, telegram)
      {
        var user, flooded := users[i], false;
        PassNext(Tally(rows, processed, failed, attempts), a, users, i, telegram);
        WritesAppend(attempts, a, user, telegram);
        processed, failed, attempts, flooded := InviteUser(a, user, telegram, processed, failed, attempts);
        if flooded { break; }
        i := i + 1;
      }
    }

    /**
     The outer loop over the task's accounts. `order` is the snapshot of its users, `granted[a]`
     whether account number `a` got its lock. Every account filters the same snapshot.
     */
    method ProcessInvitations(accounts: seq<string>, order: seq<UserId>, granted: seq<bool>, telegram: Telegram)
      returns (processed: nat, failed: nat, attempts: seq<(nat, UserId)>)
      requires |granted| == |accounts| && forall u :: u in order ==> u in rows
      modifies this
      ensures var run := TaskRun(accounts, old(rows), order, granted, telegram);
              && rows == run.rows && processed == run.processed && failed == run.failed && attempts == run.attempts
      ensures taskFailed == Some(failed > 0)
      ensures writes == old(writes) + WritesOf(attempts, telegram)
    {
      var users := PendingOf(order, rows);
      processed, failed, attempts := 0, 0, [];
      ghost var base := writes;
      assert base + [] == base;
      ghost var run := Passes(Tally(rows, 0, 0, []), 0, granted, users, telegram);
      for a := 0 to |accounts|
        invariant Passes(Tally(rows, processed, failed, attempts), a, granted, users, telegram) == run
        invariant writes == base + WritesOf(attempts, telegram)
      {
        if granted[a] {
          processed, failed, attempts := InvitePending(a, users, telegram, processed, failed, attempts, base);
        }
      }
      taskFailed := Some(failed > 0);
    }
  }

  // ---------- What one run does ----------

  /** How many of the pending users one pass attempts: all, or up to and including the first FLOOD_WAIT. */
  function Reach(a: nat, pending: seq<UserId>, telegram: Telegram): (n: nat)
    ensures n <= |pending|
    decreases |pending|
  {
    if pending == [] then 0
    else if Final(telegram(a, pending[0])) == FLOOD_WAIT then 1
    else 1 + Reach(a, pending[1..], telegram)
  }

  lemma {:induction false} ReachStopsAtFlood(a: nat, pending: seq<UserId>, telegram: Telegram)
    ensures var n := Reach(a, pending, telegram);
            && (forall i :: 0 <= i < n - 1 ==> Final(telegram(a, pending[i])) != FLOOD_WAIT)
            && (n == |pending| || (n > 0 && Final(telegram(a, pending[n - 1])) == FLOOD_WAIT))
    decreases |pending|
  {
    if pending != [] && Final(telegram(a, pending[0])) != FLOOD_WAIT {
      ReachStopsAtFlood(a, pending[1..], telegram);
      var n := Reach(a, pending, telegram);
      forall i | 0 <= i < n - 1 ensures Final(telegram(a, pending[i])) != FLOOD_WAIT {
        if i > 0 { assert pending[i] == pending[1..][i - 1]; }
      }
    }
  }

  /**
   Of all answers only FLOOD_WAIT stops a pass: behind an attempted user the next one is attempted
   unless an error was thrown whose text contains it.
   */
  lemma OnlyFloodWaitStops(a: nat, pending: seq<UserId>, telegram: Telegram, i: nat)
    requires i + 1 < |pending| && i < Reach(a, pending, telegram)
    ensures var answer := telegram(a, pending[i]);
            i + 1 < Reach(a, pending, telegram) <==> !(answer.Threw? && Contains(Upper(answer.text), "FLOOD_WAIT"))
  {
    ReachStopsAtFlood(a, pending, telegram);
  }

  /** So Telegram's PEER_FLOOD, classified as a plain failure, does not stop it. */
  lemma PeerFloodDoesNotStop(a: nat, pending: seq<UserId>, telegram: Telegram, i: nat)
    requires i + 1 < |pending| && i < Reach(a, pending, telegram)
    requires telegram(a, pending[i]) == Threw("RPCError PEER_FLOOD")
    ensures i + 1 < Reach(a, pending, telegram) && Final(telegram(a, pending[i])) == FAILED
  {
    PeerFloodIsFailed();
    ReachStopsAtFlood(a, pending, telegram);
  }

  lemma PeerFloodIsFailed()
    ensures Classify("RPCError PEER_FLOOD") == FAILED
  {
    assert Upper("RPCError PEER_FLOOD") == "RPCERROR PEER_FLOOD";
    UnknownIsFailed("RPCError PEER_FLOOD");
  }

  lemma UnknownIsFailed(text: string)
    requires 'W' !in Upper(text) && 'V' !in Upper(text) && 'U' !in Upper(text) && 'A' !in Upper(text)
    ensures Classify(text) == FAILED
  {
    var value := Upper(text);
    LetterOf(value, "FLOOD_WAIT", 6);
    LetterOf(value, "PRIVACY", 3);
    LetterOf(value, "USER_PRIVACY_RESTRICTED", 0);
    LetterOf(value, "USER_NOT_FOUND", 0);
    LetterOf(value, "USERNAME_INVALID", 0);
    LetterOf(value, "ALREADY", 0);
    LetterOf(value, "USER_ALREADY_PARTICIPANT", 0);
  }

  lemma LetterOf(s: string, part: string, k: nat)
    requires k < |part|
    ensures Contains(s, part) ==> part[k] in s
  {
    if i :| 0 <= i <= |s| && PartAt(s, i, part) { assert s[i..i + |part|][k] == s[i + k]; }
  }

  function Failures(a: nat, users: seq<UserId>, telegram: Telegram): nat {
    if users == [] then 0
    else (if telegram(a, users[0]).Joined? then 0 else 1) + Failures(a, users[1..], telegram)
  }

  function Numbered(a: nat, users: seq<UserId>): (r: seq<(nat, UserId)>)
    ensures |r| == |users|
  {
    if users == [] then [] else [(a, users[0])] + Numbered(a, users[1..])
  }

  /** Each attempted row has the final status of its answer, every other row its old one. */
  predicate RowsAfter(before: Rows, done: seq<UserId>, telegram: Telegram, a: nat, after: Rows) {
    && after.Keys == before.Keys
    && (forall u :: u in done ==> u in after && after[u] == Final(telegram(a, u)))
    && (forall u :: u in before && u !in done ==> after[u] == before[u])
  }

  /** Everybody a pass over a non-empty list attempts. */
  lemma ReachNext(a: nat, pending: seq<UserId>, telegram: Telegram)
    requires pending != []
    ensures var done := pending[..Reach(a, pending, telegram)];
            && done != [] && done[0] == pending[0]
            && done[1..] == if Final(telegram(a, pending[0])) == FLOOD_WAIT then []
                            else pending[1..][..Reach(a, pending[1..], telegram)]
  {
  }

  lemma {:induction false} PassRows(t: Tally, a: nat, pending: seq<UserId>, telegram: Telegram)
    requires Distinct(pending) && forall u :: u in pending ==> u in t.rows
    ensures RowsAfter(t.rows, pending[..Reach(a, pending, telegram)], telegram, a, Pass(t, a, pending, telegram).rows)
    decreases |pending|
  {
    if pending != [] {
      ReachNext(a, pending, telegram);
      var done := pending[..Reach(a, pending, telegram)];
      assert done == [pending[0]] + done[1..];
      if Final(telegram(a, pending[0])) != FLOOD_WAIT {
        PassRows(Attempt(t, a, pending[0], telegram), a, pending[1..], telegram);
        assert pending[0] !in done[1..];
      }
    }
  }

  lemma {:induction false} PassCounts(t: Tally, a: nat, pending: seq<UserId>, telegram: Telegram)
    ensures var t' := Pass(t, a, pending, telegram); var done := pending[..Reach(a, pending, telegram)];
            && t'.attempts == t.attempts + Numbered(a, done)
            && t'.failed == t.failed + Failures(a, done, telegram)
            && t'.processed + t'.failed == t.processed + t.failed + |done|
    decreases |pending|
  {
    if pending != [] {
      ReachNext(a, pending, telegram);
      var done := pending[..Reach(a, pending, telegram)];
      var t1 := Attempt(t, a, pending[0], telegram);
      if Final(telegram(a, pending[0])) != FLOOD_WAIT { PassCounts(t1, a, pending[1..], telegram); }
      assert t1.attempts + Numbered(a, done[1..]) == t.attempts + ([(a, done[0])] + Numbered(a, done[1..]));
    }
  }

  /** A pass in closed form: who is attempted, what each row becomes, and the counters. */
  lemma PassEffect(t: Tally, a: nat, pending: seq<UserId>, telegram: Telegram)
    requires Distinct(pending) && forall u :: u in pending ==> u in t.rows
    ensures var t' := Pass(t, a, pending, telegram); var done := pending[..Reach(a, pending, telegram)];
            && RowsAfter(t.rows, done, telegram, a, t'.rows)
            && t'.attempts == t.attempts + Numbered(a, done)
            && t'.failed == t.failed + Failures(a, done, telegram)
            && t'.processed + t'.failed == t.processed + t.failed + |done|
  {
    PassRows(t, a, pending, telegram);
    PassCounts(t, a, pending, telegram);
  }

  /** A task with one account makes one pass, if that account gets its lock. */
  lemma OneAccountOnePass(accounts: seq<string>, rows: Rows, order: seq<UserId>, granted: seq<bool>, telegram: Telegram)
    requires |granted| == |accounts| == 1 && forall u :: u in order ==> u in rows
    ensures var t := Tally(rows, 0, 0, []);
            TaskRun(accounts, rows, order, granted, telegram) ==
            if granted[0] then Pass(t, 0, PendingOf(order, rows), telegram) else t
  {
    var t, pending := Tally(rows, 0, 0, []), PendingOf(order, rows);
    if granted[0] { OneGrantOnePass(t, 0, granted, pending, telegram, 0); }
    else { NoGrantNoPass(t, 0, granted, pending, telegram); }
  }

  /** The users attempted by one run of a task with one account. */
  function Attempted(rows: Rows, order: seq<UserId>, granted: bool, telegram: Telegram): (r: seq<UserId>)
    requires forall u :: u in order ==> u in rows
  {
    var pending := PendingOf(order, rows);
    if granted then pending[..Reach(0, pending, telegram)] else []
  }

  /** Who is attempted: the PENDING users up to and including the first FLOOD_WAIT; nobody without the lock. */
  lemma AttemptedUsers(rows: Rows, order: seq<UserId>, granted: bool, telegram: Telegram)
    requires Distinct(order) && forall u :: u in order ==> u in rows
    ensures var pending := PendingOf(order, rows);
            var done := Attempted(rows, order, granted, telegram);
            && done <= pending && Distinct(done) && (!granted ==> done == [])
            && (forall i :: 0 <= i < |done| - 1 ==> Final(telegram(0, done[i])) != FLOOD_WAIT)
            && (granted ==> done == pending || (done != [] && Final(telegram(0, done[|done| - 1])) == FLOOD_WAIT))
  {
    var pending := PendingOf(order, rows);
    ReachStopsAtFlood(0, pending, telegram);
    PrefixDistinct(pending, Reach(0, pending, telegram));
  }

  lemma PrefixDistinct<T>(xs: seq<T>, n: nat)
    requires Distinct(xs) && n <= |xs|
    ensures xs[..n] <= xs && Distinct(xs[..n])
  {
  }

  lemma OneAccountRun(accounts: seq<string>, rows: Rows, order: seq<UserId>, granted: seq<bool>, telegram: Telegram)
    requires |granted| == |accounts| == 1 && Distinct(order) && forall u :: u in order ==> u in rows
    ensures var run := TaskRun(accounts, rows, order, granted, telegram);
            var done := Attempted(rows, order, granted[0], telegram);
            && run.attempts == Numbered(0, done)
            && RowsAfter(rows, done, telegram, 0, run.rows)
            && run.processed + run.failed == |done|
            && run.failed == Failures(0, done, telegram)
  {
    OneAccountOnePass(accounts, rows, order, granted, telegram);
    if granted[0] {
      PassEffect(Tally(rows, 0, 0, []), 0, PendingOf(order, rows), telegram);
    }
  }

  /**
   One run of a task as the API creates it, end to end: the attempts are those of `AttemptedUsers`,
   each once and in order; each attempted row gets the final status of its answer and every other row
   keeps its status, so the users behind a FLOOD_WAIT stay PENDING; `processed` and `failed` add up
   to the attempts.
   */
  lemma RunEndToEnd(user: string, chat: Option<Chat>, accounts: seq<string>, owners: map<string, string>,
                    rows: Rows, order: seq<UserId>, granted: seq<bool>, telegram: Telegram)
    requires Creatable(user, chat, accounts, owners) && |granted| == |accounts|
    requires Distinct(order) && forall u :: u in order ==> u in rows
    ensures var run := TaskRun(accounts, rows, order, granted, telegram);
            var done := Attempted(rows, order, granted[0], telegram);
            && run.attempts == Numbered(0, done)
            && RowsAfter(rows, done, telegram, 0, run.rows)
            && run.processed + run.failed == |done|
            && run.failed == Failures(0, done, telegram)
  {
    CreatedHasOneAccount(user, chat, accounts, owners);
    OneAccountRun(accounts, rows, order, granted, telegram);
  }

  /** What an answer makes of a user's row: INVITED if the call returned, else by the marks in the error's text. */
  predicate RowSays(status: ItemStatus, answer: Outcome) {
    match answer
    case Joined => status == INVITED
    case Threw(text) =>
      var s := Upper(text);
      if Contains(s, "FLOOD_WAIT") then status == FLOOD_WAIT
      else if Contains(s, "PRIVACY") then status == PRIVACY_RESTRICTED
      else if Contains(s, "USER_NOT_FOUND") || Contains(s, "USERNAME_INVALID") then status == NOT_FOUND
      else if Contains(s, "ALREADY") then status == ALREADY_MEMBER
      else status == ItemStatus.FAILED
  }

  lemma FinalSays(o: Outcome)
    ensures RowSays(Final(o), o) && (Final(o) == INVITED <==> o.Joined?)
  {
    if o.Threw? { ClassifyByMarks(o.text); }
  }

  /** How many of the attempted users have this status afterwards. */
  function CountStatus(attempts: seq<(nat, UserId)>, rows: Rows, status: ItemStatus): nat {
    if attempts == [] then 0
    else
      (if attempts[0].1 in rows && rows[attempts[0].1] == status then 1 else 0) +
          CountStatus(attempts[1..], rows, status)
  }

  lemma {:induction false} InvitedCount(done: seq<UserId>, rows: Rows, telegram: Telegram)
    requires forall u :: u in done ==> u in rows && rows[u] == Final(telegram(0, u))
    ensures CountStatus(Numbered(0, done), rows, INVITED) + Failures(0, done, telegram) == |done|
    decreases |done|
  {
    if done != [] {
      FinalSays(telegram(0, done[0]));
      assert Numbered(0, done)[1..] == Numbered(0, done[1..]);
      InvitedCount(done[1..], rows, telegram);
    }
  }

  lemma RowSaysAnswer(done: seq<UserId>, before: Rows, after: Rows, telegram: Telegram, i: nat)
    requires RowsAfter(before, done, telegram, 0, after) && i < |done|
    ensures Numbered(0, done)[i] == (0, done[i])
    ensures done[i] in after && RowSays(after[done[i]], telegram(0, done[i]))
    ensures after[done[i]] == INVITED <==> telegram(0, done[i]).Joined?
  {
    NumberedAt(0, done, i);
    FinalSays(telegram(0, done[i]));
  }

  /**
   What a run of a task as the API creates it records. A user it attempted is INVITED exactly if the
   call returned, and otherwise has the status the error's text calls for; `processed` is the number
   of attempted users that are INVITED now, `failed` the number of the others attempted.
   */
  lemma RowsSayAnswers(user: string, chat: Option<Chat>, accounts: seq<string>, owners: map<string, string>,
                       rows: Rows, order: seq<UserId>, granted: seq<bool>, telegram: Telegram)
    requires Creatable(user, chat, accounts, owners) && |granted| == |accounts|
    requires Distinct(order) && forall u :: u in order ==> u in rows
    ensures var run := TaskRun(accounts, rows, order, granted, telegram);
            && (forall i :: 0 <= i < |run.attempts| ==>
                  var u := run.attempts[i].1;
                  && u in run.rows && RowSays(run.rows[u], telegram(0, u))
                  && (run.rows[u] == INVITED <==> telegram(0, u).Joined?))
            && run.processed == CountStatus(run.attempts, run.rows, INVITED)
            && run.failed == |run.attempts| - CountStatus(run.attempts, run.rows, INVITED)
  {
    RunEndToEnd(user, chat, accounts, owners, rows, order, granted, telegram);
    var run := TaskRun(accounts, rows, order, granted, telegram);
    var done := Attempted(rows, order, granted[0], telegram);
    forall i | 0 <= i < |run.attempts|
      ensures var u := run.attempts[i].1;
              && u in run.rows && RowSays(run.rows[u], telegram(0, u))
              && (run.rows[u] == INVITED <==> telegram(0, u).Joined?)
    {
      RowSaysAnswer(done, rows, run.rows, telegram, i);
    }
    InvitedCount(done, run.rows, telegram);
  }

  /** A FLOOD_WAIT stops the pass, not the run: a second account starts over with the same users. */
  lemma {:induction false} EveryGrantedAccountAttempts(t: Tally, a: nat, granted: seq<bool>, pending: seq<UserId>,
      telegram: Telegram, b: nat)
    requires a <= b < |granted| && granted[b] && pending != []
    requires Distinct(pending) && forall u :: u in pending ==> u in t.rows
    ensures (b, pending[0]) in Passes(t, a, granted, pending, telegram).attempts
    ensures forall x :: x in t.attempts ==> x in Passes(t, a, granted, pending, telegram).attempts
    decreases |granted| - a
  {
    PassEffect(t, a, pending, telegram);
    var t' := if granted[a] then Pass(t, a, pending, telegram) else t;
    if a == b {
      assert t'.attempts[|t.attempts|] == (a, pending[0]);
      PassesKeepAttempts(t', a + 1, granted, pending, telegram);
    } else {
      EveryGrantedAccountAttempts(t', a + 1, granted, pending, telegram, b);
    }
  }

  lemma {:induction false} PassesKeepAttempts(t: Tally, a: nat, granted: seq<bool>, pending: seq<UserId>,
      telegram: Telegram)
    requires a <= |granted|
    requires Distinct(pending) && forall u :: u in pending ==> u in t.rows
    ensures forall x :: x in t.attempts ==> x in Passes(t, a, granted, pending, telegram).attempts
    decreases |granted| - a
  {
    if a < |granted| {
      PassEffect(t, a, pending, telegram);
      PassesKeepAttempts(if granted[a] then Pass(t, a, pending, telegram) else t, a + 1, granted, pending, telegram);
    }
  }

  lemma {:induction false} NoGrantNoPass(t: Tally, a: nat, granted: seq<bool>, pending: seq<UserId>, telegram: Telegram)
    requires a <= |granted| && forall b :: a <= b < |granted| ==> !granted[b]
    ensures Passes(t, a, granted, pending, telegram) == t
    decreases |granted| - a
  {
    if a < |granted| { NoGrantNoPass(t, a + 1, granted, pending, telegram); }
  }

  lemma {:induction false} OneGrantOnePass(t: Tally, a: nat, granted: seq<bool>, pending: seq<UserId>,
      telegram: Telegram, b: nat)
    requires a <= b < |granted| && granted[b] && forall c :: a <= c < |granted| && c != b ==> !granted[c]
    ensures Passes(t, a, granted, pending, telegram) == Pass(t, b, pending, telegram)
    decreases |granted| - a
  {
    if a < b {
      OneGrantOnePass(t, a + 1, granted, pending, telegram, b);
    } else {
      NoGrantNoPass(Pass(t, b, pending, telegram), a + 1, granted, pending, telegram);
    }
  }

  lemma {:induction false} NumberedAt(a: nat, users: seq<UserId>, i: nat)
    requires i < |users|
    ensures Numbered(a, users)[i] == (a, users[i])
    decreases |users|
  {
    if i > 0 { NumberedAt(a, users[1..], i - 1); }
  }

  /** No user is attempted by two entries of a run's log. */
  predicate EachUserOnce(attempts: seq<(nat, UserId)>) {
    forall i, j :: 0 <= i < j < |attempts| ==> attempts[i].1 != attempts[j].1
  }

  /**
   A FLOOD_WAIT ends one account's pass, not the run. So with some user PENDING, a run attempts
   each user at most once exactly when at most one account gets its lock: that a task made through
   the API has a single account is what the at-most-once rule rests on.
   */
  lemma AtMostOnceIffOneAccount(rows: Rows, granted: seq<bool>, pending: seq<UserId>, telegram: Telegram)
    requires pending != [] && Distinct(pending) && forall u :: u in pending ==> u in rows
    ensures EachUserOnce(Passes(Tally(rows, 0, 0, []), 0, granted, pending, telegram).attempts) <==>
            forall b, c :: 0 <= b < c < |granted| ==> !(granted[b] && granted[c])
  {
    var t := Tally(rows, 0, 0, []);
    var attempts := Passes(t, 0, granted, pending, telegram).attempts;
    if b, c :| 0 <= b < c < |granted| && granted[b] && granted[c] {
      EveryGrantedAccountAttempts(t, 0, granted, pending, telegram, b);
      EveryGrantedAccountAttempts(t, 0, granted, pending, telegram, c);
      var i :| 0 <= i < |attempts| && attempts[i] == (b, pending[0]);
      var j :| 0 <= j < |attempts| && attempts[j] == (c, pending[0]);
      assert !EachUserOnce(attempts) by {
        assert attempts[i].1 == attempts[j].1 && i != j;
      }
    } else if b :| 0 <= b < |granted| && granted[b] {
      OneGrantOnePass(t, 0, granted, pending, telegram, b);
      PassEffect(t, b, pending, telegram);
      var done := pending[..Reach(b, pending, telegram)];
      assert attempts == Numbered(b, done);
      forall i, j | 0 <= i < j < |attempts| ensures attempts[i].1 != attempts[j].1 {
        NumberedAt(b, done, i);
        NumberedAt(b, done, j);
      }
    } else {
      NoGrantNoPass(t, 0, granted, pending, telegram);
    }
  }

  // ---------- Sequences of runs and imports ----------

  /** `order` is the order in which the database lists the rows; `granted` which accounts' locks were free. */
  datatype Event =
    | Import(users: seq<UserId>)
    | Run(order: seq<UserId>, granted: seq<bool>, telegram: Telegram)

  /** One task: its accounts, its users' rows, and the users attempted so far. */
  datatype History = History(accounts: seq<string>, rows: Rows, attempts: seq<UserId>)

  ghost predicate Allowed(h: History, e: Event) {
    match e
    case Import(users) => Distinct(users) && forall u :: u in users ==> u !in h.rows
    case Run(order, granted, _) =>
      Distinct(order) && |granted| == |h.accounts| && forall u :: u in order <==> u in h.rows
  }

  function UsersOf(attempts: seq<(nat, UserId)>): seq<UserId> {
    if attempts == [] then [] else [attempts[0].1] + UsersOf(attempts[1..])
  }

  lemma {:induction false} UsersOfNumbered(a: nat, users: seq<UserId>)
    ensures UsersOf(Numbered(a, users)) == users
    decreases |users|
  {
    if users != [] {
      UsersOfNumbered(a, users[1..]);
      assert Numbered(a, users)[1..] == Numbered(a, users[1..]);
    }
  }

  ghost function Next(h: History, e: Event): History
    requires Allowed(h, e)
  {
    match e
    case Import(users) => h.(rows := h.rows + map u | u in users :: PENDING)
    case Run(order, granted, telegram) =>
      var run := TaskRun(h.accounts, h.rows, order, granted, telegram);
      h.(rows := run.rows, attempts := h.attempts + UsersOf(run.attempts))
  }

  ghost predicate Valid(h: History, events: seq<Event>)
    decreases |events|
  {
    |events| == 0 || (Allowed(h, events[0]) && Valid(Next(h, events[0]), events[1..]))
  }

  ghost function End(h: History, events: seq<Event>): History
    requires Valid(h, events)
    decreases |events|
  {
    if |events| == 0 then h else End(Next(h, events[0]), events[1..])
  }

  /**
   One account; a row has been attempted exactly when it is no longer PENDING, and never twice; none
   is left PROCESSING.
   */
  ghost predicate Settled(h: History) {
    && |h.accounts| == 1
    && Distinct(h.attempts)
    && (forall u :: u in h.attempts <==> u in h.rows && h.rows[u] != PENDING)
    && (forall u :: u in h.rows ==> h.rows[u] != PROCESSING)
  }

  /** A task as the API creates it, without users. */
  lemma CreatedIsSettled(user: string, chat: Option<Chat>, accounts: seq<string>, owners: map<string, string>)
    requires Creatable(user, chat, accounts, owners)
    ensures Settled(History(accounts, map[], []))
  {
    CreatedHasOneAccount(user, chat, accounts, owners);
  }

  function PendingSet(rows: Rows): set<UserId> { set u | u in rows && rows[u] == PENDING }

  /** What a run does to the rows, in terms of who is attempted. */
  lemma RunRows(h: History, order: seq<UserId>, granted: seq<bool>, telegram: Telegram)
    requires Allowed(h, Run(order, granted, telegram)) && |h.accounts| == 1
    ensures var h' := Next(h, Run(order, granted, telegram));
            var done := Attempted(h.rows, order, granted[0], telegram);
            && h'.accounts == h.accounts && h'.attempts == h.attempts + done
            && RowsAfter(h.rows, done, telegram, 0, h'.rows)
  {
    OneAccountRun(h.accounts, h.rows, order, granted, telegram);
    UsersOfNumbered(0, Attempted(h.rows, order, granted[0], telegram));
  }

  /** Whom a run attempts: users that are PENDING, each once. */
  lemma RunUsers(h: History, order: seq<UserId>, granted: seq<bool>, telegram: Telegram)
    requires Allowed(h, Run(order, granted, telegram)) && |h.accounts| == 1
    ensures var done := Attempted(h.rows, order, granted[0], telegram);
            Distinct(done) && forall u :: u in done ==> u in h.rows && h.rows[u] == PENDING
  {
    var done := Attempted(h.rows, order, granted[0], telegram);
    AttemptedUsers(h.rows, order, granted[0], telegram);
    forall u | u in done ensures u in h.rows && h.rows[u] == PENDING {
      PrefixMember(done, PendingOf(order, h.rows), u);
    }
  }

  /** With the lock and somebody PENDING, a run attempts somebody. */
  lemma RunAttemptsSomebody(h: History, order: seq<UserId>, granted: seq<bool>, telegram: Telegram, u: UserId)
    requires Allowed(h, Run(order, granted, telegram)) && granted == [true] && u in h.rows && h.rows[u] == PENDING
    ensures Attempted(h.rows, order, true, telegram) != []
  {
    AttemptedUsers(h.rows, order, true, telegram);
    assert u in PendingOf(order, h.rows);
  }

  lemma PrefixMember<T>(xs: seq<T>, ys: seq<T>, x: T)
    requires xs <= ys && x in xs
    ensures x in ys
  {
  }

  lemma DistinctConcat<T>(xs: seq<T>, ys: seq<T>)
    requires Distinct(xs) && Distinct(ys) && forall y :: y in ys ==> y !in xs
    ensures Distinct(xs + ys)
  {
    forall i, j | 0 <= i < j < |xs + ys| ensures (xs + ys)[i] != (xs + ys)[j] {
      if j >= |xs| { assert (xs + ys)[j] in ys; }
    }
  }

  /** An attempted row is terminal afterwards. */
  lemma FinalIsTerminal(o: Outcome)
    ensures Final(o) != PENDING && Final(o) != PROCESSING
  {
  }

  /** Who has been attempted after a run: those whose rows are not PENDING. */
  lemma RunAccounts(before: History, done: seq<UserId>, telegram: Telegram, after: History)
    requires Settled(before) && RowsAfter(before.rows, done, telegram, 0, after.rows)
    requires after.attempts == before.attempts + done && forall u :: u in done ==> u in before.rows
    ensures forall u :: u in after.attempts <==> u in after.rows && after.rows[u] != PENDING
    ensures forall u :: u in after.rows ==> after.rows[u] != PROCESSING
  {
    forall u ensures u in after.attempts <==> u in after.rows && after.rows[u] != PENDING {
      assert u in after.attempts <==> u in before.attempts || u in done;
      if u in done { FinalIsTerminal(telegram(0, u)); }
    }
    forall u | u in after.rows ensures after.rows[u] != PROCESSING {
      if u in done { FinalIsTerminal(telegram(0, u)); }
    }
  }

  lemma RunSettles(h: History, order: seq<UserId>, granted: seq<bool>, telegram: Telegram)
    requires Settled(h) && Allowed(h, Run(order, granted, telegram))
    ensures var h' := Next(h, Run(order, granted, telegram));
            && Settled(h')
            && forall u :: u in h.rows ==> u in h'.rows && (h.rows[u] != PENDING ==> h'.rows[u] == h.rows[u])
  {
    RunRows(h, order, granted, telegram);
    RunUsers(h, order, granted, telegram);
    var done := Attempted(h.rows, order, granted[0], telegram);
    DistinctConcat(h.attempts, done);
    RunAccounts(h, done, telegram, Next(h, Run(order, granted, telegram)));
  }

  /** A run keeps a task settled, changes no terminal status, and with the lock and somebody PENDING leaves fewer so. */
  lemma RunStep(h: History, order: seq<UserId>, granted: seq<bool>, telegram: Telegram)
    requires Settled(h) && Allowed(h, Run(order, granted, telegram))
    ensures var h' := Next(h, Run(order, granted, telegram));
            && Settled(h')
            && (forall u :: u in h.rows ==> u in h'.rows && (h.rows[u] != PENDING ==> h'.rows[u] == h.rows[u]))
            && PendingSet(h'.rows) <= PendingSet(h.rows)
            && (granted == [true] && PendingSet(h.rows) != {} ==> PendingSet(h'.rows) != PendingSet(h.rows))
  {
    RunSettles(h, order, granted, telegram);
    RunRows(h, order, granted, telegram);
    RunUsers(h, order, granted, telegram);
    var done := Attempted(h.rows, order, granted[0], telegram);
    if granted == [true] && PendingSet(h.rows) != {} {
      var u :| u in PendingSet(h.rows);
      RunAttemptsSomebody(h, order, granted, telegram, u);
      assert done[0] in done;
      FinalIsTerminal(telegram(0, done[0]));
      assert done[0] in PendingSet(h.rows);
    }
  }

  lemma StepSettled(h: History, e: Event)
    requires Settled(h) && Allowed(h, e)
    ensures Settled(Next(h, e))
    ensures forall u :: u in h.rows ==>
              u in Next(h, e).rows && (h.rows[u] != PENDING ==> Next(h, e).rows[u] == h.rows[u])
  {
    match e
    case Import(_) =>
    case Run(order, granted, telegram) => RunStep(h, order, granted, telegram);
  }

  /**
   Over any sequence of runs that do not overlap, with imports in between: no row is attempted
   twice in total, and a row's terminal status never changes.
   */
  lemma {:induction false} AttemptedOnceForever(h: History, events: seq<Event>)
    requires Settled(h) && Valid(h, events)
    ensures Settled(End(h, events))
    ensures forall u :: u in h.rows && h.rows[u] != PENDING ==>
              u in End(h, events).rows && End(h, events).rows[u] == h.rows[u]
    decreases |events|
  {
    if |events| > 0 {
      StepSettled(h, events[0]);
      AttemptedOnceForever(Next(h, events[0]), events[1..]);
    }
  }

  /** How many of the events are runs that get the lock. */
  function GrantedRuns(events: seq<Event>): nat {
    if |events| == 0 then 0
    else (if events[0].Run? && events[0].granted == [true] then 1 else 0) + GrantedRuns(events[1..])
  }

  /** Without imports, as many runs holding the lock as there are PENDING rows leave no row PENDING. */
  lemma {:induction false} EveryoneIsReached(h: History, events: seq<Event>)
    requires Settled(h) && Valid(h, events)
    requires (forall i :: 0 <= i < |events| ==> events[i].Run?) && GrantedRuns(events) >= |PendingSet(h.rows)|
    ensures PendingSet(End(h, events).rows) == {}
    decreases |events|
  {
    if |events| > 0 {
      var e := events[0];
      RunStep(h, e.order, e.granted, e.telegram);
      var h' := Next(h, e);
      if PendingSet(h'.rows) != PendingSet(h.rows) { SmallerSet(PendingSet(h'.rows), PendingSet(h.rows)); }
      EveryoneIsReached(h', events[1..]);
    }
  }

  lemma SmallerSet<T>(a: set<T>, b: set<T>)
    requires a < b
    ensures |a| < |b|
  {
    assert b == a + (b - a);
  }
}
