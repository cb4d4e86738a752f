/**
 Access tokens, refresh sessions and password resets (security.ts, the auth routes of
 controller.ts, and the session methods of store.ts).

 Tokens are opaque values that only the server issues; hashing a token keeps tokens apart. Each
 request is one step.
 */
module Sessions {
  import opened Common

  type Token = nat
  type UserId = string

  datatype User = User(email: string, password: string)
  datatype Session = Session(userId: UserId, token: Token, expiresAt: int, revokedAt: Option<int>)
  datatype ResetToken = ResetToken(userId: UserId, expiresAt: int, usedAt: Option<int>)

  /** The signed payload of a token; `exp` is in seconds. */
  datatype Claim = Claim(sub: UserId, exp: int)

  /** Token lifetimes in seconds. */
  datatype Config = Config(accessTtl: nat, refreshTtl: nat, resetTtl: nat)

  const LOGIN_SESSION_MS := 86_400_000

  datatype State = State(clock: int, users: map<UserId, User>, sessions: seq<Session>, resets: map<Token, ResetToken>,
                         invalidated: set<UserId>, access: map<Token, Claim>, refresh: map<Token, Claim>)

  function Start(clock: int): State { State(clock, map[], [], map[], {}, map[], map[]) }

  function NewClaim(userId: UserId, now: int, ttl: nat): Claim { Claim(userId, now / 1000 + ttl) }

  /** `subject`: the user of an issued token that has not expired. */
  function Subject(claims: map<Token, Claim>, token: Token, now: int): Option<UserId> {
    if token in claims && claims[token].exp * 1000 > now then Some(claims[token].sub) else None
  }

  /** `findSession`: the first session stored for this token. */
  function FindSession(sessions: seq<Session>, token: Token): (r: Option<nat>)
    ensures r.Some? ==> r.value < |sessions| && sessions[r.value].token == token
    ensures r.None? ==> forall i :: 0 <= i < |sessions| ==> sessions[i].token != token
  {
    if sessions == [] then None
    else if sessions[0].token == token then Some(0)
    else match FindSession(sessions[1..], token)
      case None => None
      case Some(i) => Some(i + 1)
  }

  function Revoked(s: Session, now: int): Session { s.(revokedAt := Some(now)) }

  /** `revokeSessionsForUser` */
  function RevokeAll(sessions: seq<Session>, userId: UserId, now: int): (r: seq<Session>)
    ensures |r| == |sessions|
  {
    seq(|sessions|, i requires 0 <= i < |sessions| =>
      if sessions[i].userId == userId && sessions[i].revokedAt.None? then Revoked(sessions[i], now) else sessions[i])
  }

  /** The session a refresh token may rotate. */
  function Rotatable(s: State, token: Token): Option<nat> {
    var user := Subject(s.refresh, token, s.clock);
    var i := FindSession(s.sessions, token);
    if user.Some? && i.Some? && s.sessions[i.value].userId == user.value
       && s.sessions[i.value].revokedAt.None? && s.sessions[i.value].expiresAt > s.clock
    then i else None
  }

  /** `authenticateAccess` */
  function Authenticated(s: State, token: Token): Option<UserId> {
    var user := Subject(s.access, token, s.clock);
    if user.Some? && user.value !in s.invalidated && user.value in s.users then user else None
  }

  predicate EmailFree(s: State, email: string) { forall u :: u in s.users ==> s.users[u].email != email }

  datatype Event =
    | Wait(ms: nat)
    | Register(userId: UserId, email: string, password: string, access: Token, refresh: Token)
    | Login(userId: UserId, email: string, password: string, access: Token, refresh: Token)
    | Refresh(token: Token, access: Token, refresh: Token)
    | Logout(token: Token)
    | Forgot(userId: UserId, reset: Token)
    | ResetPassword(token: Token, password: string)
    | AddUser(userId: UserId, email: string, password: string)
    | DeleteUser(userId: UserId)

  /**
   Ids and tokens the server generates are new. `Login` and `Forgot` name the user their e-mail
   address belongs to.
   */
  predicate Fresh(s: State, e: Event) {
    match e
    case Register(u, _, _, a, r) =>
      u !in s.users && u !in s.invalidated && a !in s.access && r !in s.refresh && NeverHeld(s, u)
    case Login(_, _, _, a, r) => a !in s.access && r !in s.refresh
    case Refresh(_, a, r) => a !in s.access && r !in s.refresh
    case Forgot(_, t) => t !in s.resets
    case AddUser(u, _, _) => u !in s.users && u !in s.invalidated && NeverHeld(s, u)
    case _ => true
  }

  /** No token was ever issued to this user id. */
  predicate NeverHeld(s: State, u: UserId) {
    (forall t :: t in s.access ==> s.access[t].sub != u) && (forall t :: t in s.refresh ==> s.refresh[t].sub != u)
  }

  /** Is the request answered with success? */
  predicate Accepted(s: State, e: Event) {
    match e
    case Wait(_) => true
    case Register(_, _, _, _, _) => |s.users| == 0
    case Login(u, email, password, _, _) => u in s.users && s.users[u] == User(email, password)
    case Refresh(t, _, _) => Rotatable(s, t).Some? && s.refresh[t].sub in s.users
    case Logout(t) => Authenticated(s, t).Some?
    case Forgot(u, _) => u in s.users
    case ResetPassword(t, _) => t in s.resets && s.resets[t].usedAt.None? && s.resets[t].expiresAt > s.clock
    case AddUser(_, email, _) => EmailFree(s, email)
    case DeleteUser(u) => u in s.users
  }

  /** `tokens` of the controller: a login clears the invalidation and opens a session of one day. */
  function Tokens(cfg: Config, s: State, u: UserId, access: Token, refresh: Token): State {
    s.(invalidated := s.invalidated - {u},
       access := s.access[access := NewClaim(u, s.clock, cfg.accessTtl)],
       refresh := s.refresh[refresh := NewClaim(u, s.clock, cfg.refreshTtl)],
       sessions := s.sessions + [Session(u, refresh, s.clock + LOGIN_SESSION_MS, None)])
  }

  /** `rotateRefresh`: the old session is revoked before the user is looked up. */
  function Rotate(cfg: Config, s: State, i: nat, access: Token, refresh: Token): State
    requires i < |s.sessions|
  {
    var u := s.sessions[i].userId;
    var s1 := s.(sessions := s.sessions[i := Revoked(s.sessions[i], s.clock)]);
    if u !in s.users then s1
    else s1.(sessions := s1.sessions + [Session(u, refresh, s.clock + cfg.refreshTtl * 1000, None)],
             access := s.access[access := NewClaim(u, s.clock, cfg.accessTtl)],
             refresh := s.refresh[refresh := NewClaim(u, s.clock, cfg.refreshTtl)])
  }

  function Step(cfg: Config, s: State, e: Event): State {
    match e
    case Wait(ms) => s.(clock := s.clock + ms)
    case Register(u, email, password, a, r) =>
      if Accepted(s, e) then Tokens(cfg, s.(users := s.users[u := User(email, password)]), u, a, r) else s
    case Login(u, _, _, a, r) => if Accepted(s, e) then Tokens(cfg, s, u, a, r) else s
    case Refresh(t, a, r) => if Rotatable(s, t).Some? then Rotate(cfg, s, Rotatable(s, t).value, a, r) else s
    case Logout(t) =>
      if Accepted(s, e) then
        var u := s.access[t].sub;
        s.(sessions := RevokeAll(s.sessions, u, s.clock), invalidated := s.invalidated + {u})
      else s
    case Forgot(u, t) =>
      if Accepted(s, e) then s.(resets := s.resets[t := ResetToken(u, s.clock + cfg.resetTtl * 1000, None)]) else s
    case ResetPassword(t, password) =>
      if Accepted(s, e) then
        var u := s.resets[t].userId;
        s.(users := if u in s.users then s.users[u := s.users[u].(password := password)] else s.users,
           resets := s.resets[t := s.resets[t].(usedAt := Some(s.clock))],
           sessions := RevokeAll(s.sessions, u, s.clock))
      else s
    case AddUser(u, email, password) => if Accepted(s, e) then s.(users := s.users[u := User(email, password)]) else s
    case DeleteUser(u) => s.(users := s.users - {u})
  }

  predicate Runs(cfg: Config, s: State, events: seq<Event>)
    decreases events
  {
    events == [] || (Fresh(s, events[0]) && Runs(cfg, Step(cfg, s, events[0]), events[1..]))
  }

  function End(cfg: Config, s: State, events: seq<Event>): State
    requires Runs(cfg, s, events)
    decreases events
  {
    if events == [] then s else End(cfg, Step(cfg, s, events[0]), events[1..])
  }

  // ---------- The class ----------

  /** `ApiSecurity` and the session part of the store, as the auth routes use them. */
  class AuthServer {
    const cfg: Config
    var users: map<UserId, User>
    var sessions: seq<Session>
    var resets: map<Token, ResetToken>
    var invalidatedUsers: set<UserId>
    ghost var access: map<Token, Claim>   // what the signatures vouch for
    ghost var refresh: map<Token, Claim>

    ghost function View(now: int): State
      reads this
    {
      State(now, users, sessions, resets, invalidatedUsers, access, refresh)
    }

    constructor (cfg: Config)
      ensures this.cfg == cfg && forall now :: View(now) == Start(now)
    {
      this.cfg := cfg;
      users, sessions, resets, invalidatedUsers := map[], [], map[], {};
      access, refresh := map[], map[];
    }

    /** Sessions are revoked one by one. */
    method RevokeSessionsForUser(userId: UserId, now: int)
      modifies this`sessions
      ensures sessions == RevokeAll(old(sessions), userId, now)
      ensures |sessions| == |old(sessions)|
      ensures forall k :: 0 <= k < |sessions| ==>
                sessions[k] ==
                if old(sessions)[k].userId == userId && old(sessions)[k].revokedAt == None
                then old(sessions)[k].(revokedAt := Some(now)) else old(sessions)[k]
    {
      for i := 0 to |sessions|
        invariant |sessions| == |old(sessions)|
        invariant forall k :: 0 <= k < i ==> sessions[k] == RevokeAll(old(sessions), userId, now)[k]
        invariant forall k :: i <= k < |sessions| ==> sessions[k] == old(sessions)[k]
      {
        if sessions[i].userId == userId && sessions[i].revokedAt.None? {
          sessions := sessions[i := sessions[i].(revokedAt := Some(now))];
        }
      }
    }

    /** The answer of `subject` is the signature check; here it is a parameter that must agree with the claims. */
    method RotateRefresh(token: Token, id: Option<UserId>, now: int, newAccess: Token, newRefresh: Token)
        returns (ok: bool)
      requires id == Subject(refresh, token, now)
      modifies this
      ensures ok == Accepted(old(View(now)), Refresh(token, newAccess, newRefresh))
      ensures View(now) == Step(cfg, old(View(now)), Refresh(token, newAccess, newRefresh))
    {
      if id.None? { return false; }
      var i := FindSession(sessions, token);
      if i.None? { return false; }
      var session := sessions[i.value];
      if session.userId != id.value || session.revokedAt.Some? || session.expiresAt <= now { return false; }
      sessions := sessions[i.value := session.(revokedAt := Some(now))];
      if id.value !in users { return false; }
      sessions := sessions + [Session(id.value, newRefresh, now + cfg.refreshTtl * 1000, None)];
      access := access[newAccess := NewClaim(id.value, now, cfg.accessTtl)];
      refresh := refresh[newRefresh := NewClaim(id.value, now, cfg.refreshTtl)];
      return true;
    }

    method LoginUser(userId: UserId, email: string, password: string, now: int, newAccess: Token, newRefresh: Token)
        returns (ok: bool)
      modifies this
      ensures ok == Accepted(old(View(now)), Login(userId, email, password, newAccess, newRefresh))
      ensures View(now) == Step(cfg, old(View(now)), Login(userId, email, password, newAccess, newRefresh))
    {
      if userId !in users || users[userId].email != email || users[userId].password != password { return false; }
      invalidatedUsers := invalidatedUsers - {userId};
      access := access[newAccess := NewClaim(userId, now, cfg.accessTtl)];
      refresh := refresh[newRefresh := NewClaim(userId, now, cfg.refreshTtl)];
      sessions := sessions + [Session(userId, newRefresh, now + 86_400_000, None)];
      return true;
    }

    method LogoutUser(token: Token, id: Option<UserId>, now: int) returns (ok: bool)
      requires id == Subject(access, token, now)
      modifies this
      ensures ok == Accepted(old(View(now)), Logout(token))
      ensures View(now) == Step(cfg, old(View(now)), Logout(token))
    {
      if id.None? || id.value in invalidatedUsers || id.value !in users { return false; }
      RevokeSessionsForUser(id.value, now);
      invalidatedUsers := invalidatedUsers + {id.value};
      return true;
    }

    method ApplyReset(token: Token, password: string, now: int) returns (ok: bool)
      modifies this
      ensures ok == Accepted(old(View(now)), ResetPassword(token, password))
      ensures View(now) == Step(cfg, old(View(now)), ResetPassword(token, password))
    {
      if token !in resets || resets[token].usedAt.Some? || resets[token].expiresAt <= now { return false; }
      var userId := resets[token].userId;
      if userId in users { users := users[userId := users[userId].(password := password)]; }
      resets := resets[token := resets[token].(usedAt := Some(now))];
      RevokeSessionsForUser(userId, now);
      return true;
    }
  }

  // ---------- Invariant ----------

  /** Sessions are stored for issued tokens, under the user the token names, and each token has one session. */
  ghost predicate Inv(s: State) {
    && (forall i :: 0 <= i < |s.sessions| ==>
         s.sessions[i].token in s.refresh && s.refresh[s.sessions[i].token].sub == s.sessions[i].userId)
    && (forall i, j :: 0 <= i < j < |s.sessions| ==> s.sessions[i].token != s.sessions[j].token)
  }

  lemma RotateInv(cfg: Config, s: State, i: nat, access: Token, refresh: Token)
    requires Inv(s) && i < |s.sessions| && refresh !in s.refresh
    ensures Inv(Rotate(cfg, s, i, access, refresh))
  {
  }

  lemma TokensInv(cfg: Config, s: State, u: UserId, access: Token, refresh: Token)
    requires Inv(s) && refresh !in s.refresh
    ensures Inv(Tokens(cfg, s, u, access, refresh))
  {
  }

  lemma StepInv(cfg: Config, s: State, e: Event)
    requires Inv(s) && Fresh(s, e)
    ensures Inv(Step(cfg, s, e))
  {
    match e
    case Register(u, email, password, a, r) =>
      TokensInv(cfg, s.(users := s.users[u := User(email, password)]), u, a, r);
    case Login(u, _, _, a, r) => TokensInv(cfg, s, u, a, r);
    case Refresh(t, a, r) => if Rotatable(s, t).Some? { RotateInv(cfg, s, Rotatable(s, t).value, a, r); }
    case _ =>
  }

  /** Every state reached from the start keeps the invariant the theorems ask for. */
  lemma {:induction false} RunInv(cfg: Config, s: State, events: seq<Event>)
    requires Inv(s) && Runs(cfg, s, events)
    ensures Inv(End(cfg, s, events))
    decreases events
  {
    if events != [] {
      StepInv(cfg, s, events[0]);
      RunInv(cfg, Step(cfg, s, events[0]), events[1..]);
    }
  }

  /** An issued refresh token without an unrevoked session. */
  predicate Spent(s: State, t: Token) {
    t in s.refresh && forall i :: 0 <= i < |s.sessions| && s.sessions[i].token == t ==> s.sessions[i].revokedAt.Some?
  }

  lemma StepSpent(cfg: Config, s: State, e: Event, t: Token)
    requires Inv(s) && Fresh(s, e) && Spent(s, t)
    ensures Spent(Step(cfg, s, e), t)
  {
  }

  /** A spent refresh token is refused in every continuation. */
  lemma {:induction false} SpentForever(cfg: Config, s: State, events: seq<Event>, t: Token, a: Token, r: Token)
    requires Inv(s) && Runs(cfg, s, events) && Spent(s, t)
    ensures Spent(End(cfg, s, events), t) && !Accepted(End(cfg, s, events), Refresh(t, a, r))
    decreases events
  {
    if events != [] {
      StepInv(cfg, s, events[0]);
      StepSpent(cfg, s, events[0], t);
      SpentForever(cfg, Step(cfg, s, events[0]), events[1..], t, a, r);
    }
  }

  // ---------- Main theorems ----------

  /** A refresh token is accepted at most once: after it was, it is refused in every continuation. */
  lemma RefreshAcceptedOnce(cfg: Config, s: State, t: Token, a: Token, r: Token, events: seq<Event>,
                            a': Token, r': Token)
    requires Inv(s) && Fresh(s, Refresh(t, a, r)) && Accepted(s, Refresh(t, a, r))
    requires Runs(cfg, Step(cfg, s, Refresh(t, a, r)), events)
    ensures !Accepted(End(cfg, Step(cfg, s, Refresh(t, a, r)), events), Refresh(t, a', r'))
  {
    var s' := Step(cfg, s, Refresh(t, a, r));
    StepInv(cfg, s, Refresh(t, a, r));
    assert Spent(s', t);
    SpentForever(cfg, s', events, t, a', r');
  }

  function Unrevoked(sessions: seq<Session>, u: UserId): nat {
    if sessions == [] then 0
    else (if sessions[0].userId == u && sessions[0].revokedAt.None? then 1 else 0) + Unrevoked(sessions[1..], u)
  }

  lemma {:induction false} UnrevokedAppend(xs: seq<Session>, x: Session, u: UserId)
    ensures Unrevoked(xs + [x], u) == Unrevoked(xs, u) + (if x.userId == u && x.revokedAt.None? then 1 else 0)
    decreases |xs|
  {
    if xs == [] {
      assert [] + [x] == [x];
    } else {
      assert (xs + [x])[1..] == xs[1..] + [x];
      UnrevokedAppend(xs[1..], x, u);
    }
  }

  lemma {:induction false} UnrevokedUpdate(xs: seq<Session>, i: nat, now: int, u: UserId)
    requires i < |xs| && xs[i].revokedAt.None?
    ensures Unrevoked(xs[i := Revoked(xs[i], now)], u) == Unrevoked(xs, u) - (if xs[i].userId == u then 1 else 0)
    decreases |xs|
  {
    if i > 0 {
      assert xs[i := Revoked(xs[i], now)][1..] == xs[1..][i - 1 := Revoked(xs[i], now)];
      UnrevokedUpdate(xs[1..], i - 1, now, u);
    } else {
      assert xs[0 := Revoked(xs[0], now)][1..] == xs[1..];
    }
  }

  /** A successful rotation leaves every user with as many unrevoked sessions as before. */
  lemma RotationKeepsCount(cfg: Config, s: State, t: Token, a: Token, r: Token, u: UserId)
    requires Accepted(s, Refresh(t, a, r))
    ensures Unrevoked(Step(cfg, s, Refresh(t, a, r)).sessions, u) == Unrevoked(s.sessions, u)
  {
    var i := Rotatable(s, t).value;
    UnrevokedUpdate(s.sessions, i, s.clock, u);
    UnrevokedAppend(s.sessions[i := Revoked(s.sessions[i], s.clock)],
                    Session(s.sessions[i].userId, r, s.clock + cfg.refreshTtl * 1000, None), u);
  }

  /** The user whose sessions an accepted logout or password reset ends. */
  function Ended(s: State, e: Event): Option<UserId> {
    if !Accepted(s, e) then None
    else if e.Logout? then Some(s.access[e.token].sub)
    else if e.ResetPassword? then Some(s.resets[e.token].userId)
    else None
  }

  /** After a logout or a password reset, every refresh token issued to the user before it is refused for good. */
  lemma EndedSessionsStayEnded(cfg: Config, s: State, e: Event, t: Token, events: seq<Event>, a: Token, r: Token)
    requires Inv(s) && Ended(s, e).Some? && t in s.refresh && s.refresh[t].sub == Ended(s, e).value
    requires Runs(cfg, Step(cfg, s, e), events)
    ensures !Accepted(End(cfg, Step(cfg, s, e), events), Refresh(t, a, r))
  {
    StepInv(cfg, s, e);
    assert Spent(Step(cfg, s, e), t);
    SpentForever(cfg, Step(cfg, s, e), events, t, a, r);
  }

  /** A successful login of this user. */
  predicate LogsIn(s: State, e: Event, u: UserId) { e.Login? && e.userId == u && Accepted(s, e) }

  /** No step of the run is a successful login of this user. */
  predicate NoLogin(cfg: Config, s: State, events: seq<Event>, u: UserId)
    decreases events
  {
    events == [] || (!LogsIn(s, events[0], u) && NoLogin(cfg, Step(cfg, s, events[0]), events[1..], u))
  }

  lemma {:induction false} InvalidatedUntilLogin(cfg: Config, s: State, events: seq<Event>, u: UserId)
    requires Runs(cfg, s, events) && u in s.invalidated && NoLogin(cfg, s, events, u)
    ensures u in End(cfg, s, events).invalidated
    decreases events
  {
    if events != [] {
      InvalidatedUntilLogin(cfg, Step(cfg, s, events[0]), events[1..], u);
    }
  }

  lemma {:induction false} ClaimsStay(cfg: Config, s: State, events: seq<Event>, a: Token)
    requires Runs(cfg, s, events) && a in s.access
    ensures a in End(cfg, s, events).access && End(cfg, s, events).access[a] == s.access[a]
    decreases events
  {
    if events != [] { ClaimsStay(cfg, Step(cfg, s, events[0]), events[1..], a); }
  }

  /** After a logout, access tokens issued to the user before it authenticate nobody until the user logs in again. */
  lemma AccessEndsAtLogout(cfg: Config, s: State, t: Token, a: Token, events: seq<Event>)
    requires Accepted(s, Logout(t)) && a in s.access && s.access[a].sub == s.access[t].sub
    requires Runs(cfg, Step(cfg, s, Logout(t)), events) &&
             NoLogin(cfg, Step(cfg, s, Logout(t)), events, s.access[t].sub)
    ensures Authenticated(End(cfg, Step(cfg, s, Logout(t)), events), a) == None
  {
    var s' := Step(cfg, s, Logout(t));
    InvalidatedUntilLogin(cfg, s', events, s.access[t].sub);
    ClaimsStay(cfg, s', events, a);
  }

  /** The login is the end of it: from then on an older access token of the user works exactly while it is unexpired. */
  lemma LoginLiftsInvalidation(cfg: Config, s: State, e: Event, a: Token)
    requires e.Login? && Accepted(s, e) && Fresh(s, e) && a in s.access && s.access[a].sub == e.userId
    ensures Authenticated(Step(cfg, s, e), a) == (if s.access[a].exp * 1000 > s.clock then Some(e.userId) else None)
  {
  }
}
