/**
 How long tokens work. Module Sessions says when a token is refused for good; here is the other half:
 an issued token works in exactly those continuations in which nothing has ended it and its time is
 not up, with the lifetimes in milliseconds from the request that issued it.
 */
module SessionLife {
  import opened Common
  import opened Sessions

  // ---------- Refresh tokens ----------

  /** An accepted request that ends the session of this token: its rotation, or the user's logout, reset or deletion. */
  predicate Ends(s: State, e: Event, u: UserId, token: Token) {
    && Accepted(s, e)
    && match e
       case Refresh(t, _, _) => t == token
       case Logout(t) => t in s.access && s.access[t].sub == u
       case ResetPassword(t, _) => t in s.resets && s.resets[t].userId == u
       case DeleteUser(v) => v == u
       case _ => false
  }

  /** Nothing in the run ends the session of this token. */
  predicate Untouched(cfg: Config, s: State, events: seq<Event>, u: UserId, token: Token)
    decreases events
  {
    events == [] || (!Ends(s, events[0], u, token) && Untouched(cfg, Step(cfg, s, events[0]), events[1..], u, token))
  }

  /**
   The token is the user's, its claim runs out at second `exp`, its session is stored unrevoked and
   runs out at `until`.
   */
  ghost predicate Issued(s: State, u: UserId, token: Token, until: int, exp: int) {
    && u in s.users && token in s.refresh && s.refresh[token] == Claim(u, exp)
    && exists i :: 0 <= i < |s.sessions| && s.sessions[i] == Session(u, token, until, None)
  }

  /** The token's user does not exist any more. */
  predicate Gone(s: State, u: UserId, token: Token) {
    token in s.refresh && s.refresh[token].sub == u && u !in s.users
  }

  lemma IssuedIsAccepted(s: State, u: UserId, token: Token, until: int, exp: int, a: Token, r: Token)
    requires Inv(s) && Issued(s, u, token, until, exp)
    ensures Accepted(s, Refresh(token, a, r)) <==> s.clock < until && s.clock < exp * 1000
  {
    var i :| 0 <= i < |s.sessions| && s.sessions[i] == Session(u, token, until, None);
    assert FindSession(s.sessions, token).Some?;
    assert FindSession(s.sessions, token).value == i;
  }

  lemma StepIssued(cfg: Config, s: State, e: Event, u: UserId, token: Token, until: int, exp: int)
    requires Inv(s) && Fresh(s, e) && Issued(s, u, token, until, exp) && !Ends(s, e, u, token)
    ensures Issued(Step(cfg, s, e), u, token, until, exp)
  {
    var i :| 0 <= i < |s.sessions| && s.sessions[i] == Session(u, token, until, None);
    if e.Refresh? && e.token == token { IssuedIsAccepted(s, u, token, until, exp, e.access, e.refresh); }
    assert Step(cfg, s, e).sessions[i] == s.sessions[i];
  }

  lemma StepEnds(cfg: Config, s: State, e: Event, u: UserId, token: Token, until: int, exp: int)
    requires Inv(s) && Fresh(s, e) && Issued(s, u, token, until, exp) && Ends(s, e, u, token)
    ensures Spent(Step(cfg, s, e), token) || Gone(Step(cfg, s, e), u, token)
  {
  }

  lemma {:induction false} GoneForever(cfg: Config, s: State, events: seq<Event>, u: UserId, token: Token, a: Token,
      r: Token)
    requires Runs(cfg, s, events) && Gone(s, u, token)
    ensures !Accepted(End(cfg, s, events), Refresh(token, a, r))
    decreases events
  {
    if events != [] { GoneForever(cfg, Step(cfg, s, events[0]), events[1..], u, token, a, r); }
  }

  /**
   A refresh token is accepted in exactly those continuations that have not ended its session, while
   its time lasts.
   */
  lemma {:induction false} RefreshLife(cfg: Config, s: State, events: seq<Event>, u: UserId, token: Token,
      until: int, exp: int,
                                       a: Token, r: Token)
    requires Inv(s) && Runs(cfg, s, events) && Issued(s, u, token, until, exp)
    ensures var now := End(cfg, s, events);
            Accepted(now, Refresh(token, a, r)) <==>
            Untouched(cfg, s, events, u, token) && now.clock < until && now.clock < exp * 1000
    decreases events
  {
    if events == [] {
      IssuedIsAccepted(s, u, token, until, exp, a, r);
    } else {
      var s' := Step(cfg, s, events[0]);
      StepInv(cfg, s, events[0]);
      if Ends(s, events[0], u, token) {
        StepEnds(cfg, s, events[0], u, token, until, exp);
        if Spent(s', token) { SpentForever(cfg, s', events[1..], token, a, r); }
        else { GoneForever(cfg, s', events[1..], u, token, a, r); }
      } else {
        StepIssued(cfg, s, events[0], u, token, until, exp);
        RefreshLife(cfg, s', events[1..], u, token, until, exp, a, r);
      }
    }
  }

  /** A refresh for a user that is gone is refused, and still uses up the token's session. */
  lemma DeletedUserSpends(cfg: Config, s: State, i: nat, e: Event)
    requires Inv(s) && e.Refresh? && Fresh(s, e) && i < |s.sessions|
    requires s.sessions[i].token == e.token && s.sessions[i].userId !in s.users
    requires s.clock < s.sessions[i].expiresAt && s.clock < s.refresh[e.token].exp * 1000
    ensures !Accepted(s, e) && Spent(Step(cfg, s, e), e.token)
    ensures Step(cfg, s, e).sessions[i].revokedAt == if s.sessions[i].revokedAt == None then Some(s.clock)
            else s.sessions[i].revokedAt
  {
    assert FindSession(s.sessions, e.token).Some?;
    assert FindSession(s.sessions, e.token).value == i;
  }

  lemma TokensIssue(cfg: Config, s: State, u: UserId, access: Token, refresh: Token)
    requires u in s.users
    ensures Issued(Tokens(cfg, s, u, access, refresh), u, refresh, s.clock + 86_400_000, s.clock / 1000 +
            cfg.refreshTtl)
  {
    var s' := Tokens(cfg, s, u, access, refresh);
    assert s'.sessions[|s.sessions|] == Session(u, refresh, s.clock + 86_400_000, None);
  }

  lemma RotationIssues(cfg: Config, s: State, e: Event)
    requires e.Refresh? && Accepted(s, e)
    ensures var u := s.refresh[e.token].sub;
            Issued(Step(cfg, s, e), u, e.refresh, s.clock + cfg.refreshTtl * 1000, s.clock / 1000 + cfg.refreshTtl)
  {
    var s', u := Step(cfg, s, e), s.refresh[e.token].sub;
    assert s'.sessions[|s.sessions|] == Session(u, e.refresh, s.clock + cfg.refreshTtl * 1000, None);
  }

  /**
   The refresh token of a login is accepted, in any continuation, exactly while less than a day and less
   than the configured lifetime (from the login's full second) has passed and it has not been rotated,
   nor its user logged out, been reset or deleted.
   */
  lemma LoginTokenLife(cfg: Config, s: State, e: Event, events: seq<Event>, a: Token, r: Token)
    requires Inv(s) && e.Login? && Fresh(s, e) && Accepted(s, e) && Runs(cfg, Step(cfg, s, e), events)
    ensures var now := End(cfg, Step(cfg, s, e), events);
            Accepted(now, Refresh(e.refresh, a, r)) <==>
            && Untouched(cfg, Step(cfg, s, e), events, e.userId, e.refresh)
            && now.clock < s.clock + 86_400_000 && now.clock < (s.clock / 1000 + cfg.refreshTtl) * 1000
  {
    StepInv(cfg, s, e);
    TokensIssue(cfg, s, e.userId, e.access, e.refresh);
    RefreshLife(cfg, Step(cfg, s, e), events, e.userId, e.refresh, s.clock + 86_400_000, s.clock / 1000 +
        cfg.refreshTtl, a, r);
  }

  /** The refresh token of a refresh likewise, its session lasting the configured lifetime instead of a day. */
  lemma RotatedTokenLife(cfg: Config, s: State, e: Event, events: seq<Event>, a: Token, r: Token)
    requires Inv(s) && e.Refresh? && Fresh(s, e) && Accepted(s, e) && Runs(cfg, Step(cfg, s, e), events)
    ensures var now := End(cfg, Step(cfg, s, e), events);
            Accepted(now, Refresh(e.refresh, a, r)) <==>
            && Untouched(cfg, Step(cfg, s, e), events, s.refresh[e.token].sub, e.refresh)
            && now.clock < s.clock + cfg.refreshTtl * 1000 && now.clock < (s.clock / 1000 + cfg.refreshTtl) * 1000
  {
    var u := s.refresh[e.token].sub;
    StepInv(cfg, s, e);
    RotationIssues(cfg, s, e);
    RefreshLife(cfg, Step(cfg, s, e), events, u, e.refresh, s.clock + cfg.refreshTtl * 1000,
                s.clock / 1000 + cfg.refreshTtl, a, r);
  }

  // ---------- Access tokens ----------

  /** Whether the user's last accepted logout in the run came after the last login; `out` says how it was before. */
  predicate LoggedOut(cfg: Config, s: State, events: seq<Event>, u: UserId, out: bool)
    decreases events
  {
    if events == [] then out
    else
      var e := events[0];
      var next :=
        if e.Logout? && Accepted(s, e) && e.token in s.access && s.access[e.token].sub == u then true
        else if e.Login? && Accepted(s, e) && e.userId == u then false
        else out;
      LoggedOut(cfg, Step(cfg, s, e), events[1..], u, next)
  }

  lemma StepKeepsClaim(cfg: Config, s: State, e: Event, a: Token)
    requires Fresh(s, e) && a in s.access
    ensures a in Step(cfg, s, e).access && Step(cfg, s, e).access[a] == s.access[a]
  {
  }

  lemma {:induction false} AccessTokenLife(cfg: Config, s: State, events: seq<Event>, u: UserId, a: Token, exp: int)
    requires Runs(cfg, s, events) && a in s.access && s.access[a] == Claim(u, exp)
    ensures var now := End(cfg, s, events);
            Authenticated(now, a) ==
            if u in now.users && !LoggedOut(cfg, s, events, u, u in s.invalidated) && now.clock < exp * 1000
            then Some(u) else None
    decreases events
  {
    if events != [] {
      var e, s' := events[0], Step(cfg, s, events[0]);
      StepKeepsClaim(cfg, s, e, a);
      AccessTokenLife(cfg, s', events[1..], u, a, exp);
      InvalidatedBy(cfg, s, e, u, a);
    }
  }

  /** Only an accepted logout invalidates a user who holds a token, and only a login lifts it. */
  lemma InvalidatedBy(cfg: Config, s: State, e: Event, u: UserId, a: Token)
    requires Fresh(s, e) && a in s.access && s.access[a].sub == u
    ensures u in Step(cfg, s, e).invalidated <==>
            if e.Logout? && Accepted(s, e) && e.token in s.access && s.access[e.token].sub == u then true
            else if e.Login? && Accepted(s, e) && e.userId == u then false
            else u in s.invalidated
  {
  }

  /**
   The access token of a login authenticates its user, and nobody else, in exactly those continuations
   in which the user exists, has not logged out since the last login, and the configured lifetime (from
   the login's full second) has not passed.
   */
  lemma LoginAccessLife(cfg: Config, s: State, e: Event, events: seq<Event>)
    requires e.Login? && Accepted(s, e) && Runs(cfg, Step(cfg, s, e), events)
    ensures var now := End(cfg, Step(cfg, s, e), events);
            Authenticated(now, e.access) ==
            if && e.userId in now.users && !LoggedOut(cfg, Step(cfg, s, e), events, e.userId, false)
               && now.clock < (s.clock / 1000 + cfg.accessTtl) * 1000
            then Some(e.userId) else None
  {
    AccessTokenLife(cfg, Step(cfg, s, e), events, e.userId, e.access, s.clock / 1000 + cfg.accessTtl);
  }

  /** That of a refresh likewise. */
  lemma RotatedAccessLife(cfg: Config, s: State, e: Event, events: seq<Event>)
    requires e.Refresh? && Accepted(s, e) && Runs(cfg, Step(cfg, s, e), events)
    ensures var now, u := End(cfg, Step(cfg, s, e), events), s.refresh[e.token].sub;
            Authenticated(now, e.access) ==
            if && u in now.users && !LoggedOut(cfg, Step(cfg, s, e), events, u, u in s.invalidated)
               && now.clock < (s.clock / 1000 + cfg.accessTtl) * 1000
            then Some(u) else None
  {
    AccessTokenLife(cfg, Step(cfg, s, e), events, s.refresh[e.token].sub, e.access, s.clock / 1000 + cfg.accessTtl);
  }

  // ---------- Password resets ----------

  /** No request of the run is an accepted use of the reset token. */
  predicate Unused(cfg: Config, s: State, events: seq<Event>, token: Token)
    decreases events
  {
    events == [] ||
    (!(events[0].ResetPassword? && events[0].token == token && Accepted(s, events[0]))
     && Unused(cfg, Step(cfg, s, events[0]), events[1..], token))
  }

  lemma {:induction false} UsedForever(cfg: Config, s: State, events: seq<Event>, token: Token, password: string)
    requires Runs(cfg, s, events) && token in s.resets && s.resets[token].usedAt.Some?
    ensures !Accepted(End(cfg, s, events), ResetPassword(token, password))
    decreases events
  {
    if events != [] { UsedForever(cfg, Step(cfg, s, events[0]), events[1..], token, password); }
  }

  lemma {:induction false} ResetLife(cfg: Config, s: State, events: seq<Event>, u: UserId, token: Token, until: int,
      password: string)
    requires Runs(cfg, s, events) && token in s.resets && s.resets[token] == ResetToken(u, until, None)
    ensures var now := End(cfg, s, events);
            Accepted(now, ResetPassword(token, password)) <==> Unused(cfg, s, events, token) && now.clock < until
    decreases events
  {
    if events != [] {
      var e, s' := events[0], Step(cfg, s, events[0]);
      if e.ResetPassword? && e.token == token && Accepted(s, e) {
        UsedForever(cfg, s', events[1..], token, password);
      } else {
        ResetLife(cfg, s', events[1..], u, token, until, password);
      }
    }
  }

  /**
   A reset token is accepted once, in exactly the continuations that have not used it, within its
   configured lifetime.
   */
  lemma ResetTokenLife(cfg: Config, s: State, e: Event, events: seq<Event>, password: string)
    requires e.Forgot? && Accepted(s, e) && Runs(cfg, Step(cfg, s, e), events)
    ensures var now := End(cfg, Step(cfg, s, e), events);
            Accepted(now, ResetPassword(e.reset, password)) <==>
            Unused(cfg, Step(cfg, s, e), events, e.reset) && now.clock < s.clock + cfg.resetTtl * 1000
  {
    ResetLife(cfg, Step(cfg, s, e), events, e.userId, e.reset, s.clock + cfg.resetTtl * 1000, password);
  }

  /** After a reset its user logs in with the new password and with no other, and everybody else as before. */
  lemma ResetChangesPassword(cfg: Config, s: State, e: Event, v: UserId, email: string, password: string, a: Token,
      r: Token)
    requires e.ResetPassword? && Accepted(s, e)
    ensures var u := s.resets[e.token].userId;
            Accepted(Step(cfg, s, e), Login(v, email, password, a, r)) <==>
            if v == u then u in s.users && email == s.users[u].email && password == e.password
            else Accepted(s, Login(v, email, password, a, r))
  {
  }

  // ---------- Users ----------

  /**
   Registration is open only while there is no user; whoever registers, or is added, logs in with
   these credentials only.
   */
  lemma NewUserLogsIn(cfg: Config, s: State, e: Event, email: string, password: string, a: Token, r: Token)
    requires (e.Register? || e.AddUser?) && Fresh(s, e)
    ensures e.Register? ==> (Accepted(s, e) <==> s.users == map[])
    ensures e.AddUser? ==> (Accepted(s, e) <==> forall u :: u in s.users ==> s.users[u].email != e.email)
    ensures Accepted(s, e) ==>
              (Accepted(Step(cfg, s, e), Login(e.userId, email, password, a, r)) <==>
                  email == e.email && password == e.password)
  {
    if e.Register? && |s.users| == 0 { assert s.users.Keys == {}; }
  }

  ghost predicate DistinctEmails(s: State) {
    forall u, v :: u in s.users && v in s.users && u != v ==> s.users[u].email != s.users[v].email
  }

  /** No two users share an e-mail address, in any reachable state: a login names one user at most. */
  lemma {:induction false} EmailsStayDistinct(cfg: Config, s: State, events: seq<Event>)
    requires DistinctEmails(s) && Runs(cfg, s, events)
    ensures DistinctEmails(End(cfg, s, events))
    decreases events
  {
    if events != [] {
      StepEmails(cfg, s, events[0]);
      EmailsStayDistinct(cfg, Step(cfg, s, events[0]), events[1..]);
    }
  }

  lemma StepEmails(cfg: Config, s: State, e: Event)
    requires DistinctEmails(s) && Fresh(s, e)
    ensures DistinctEmails(Step(cfg, s, e))
  {
    if e.Register? && Accepted(s, e) { assert s.users.Keys == {}; }
  }
}
