/** Who may do what to an account, told by the database and not by the token;
    what a request carried out does; and what a sign-in or a renewal grants
    (apps/snx-edge-server/src/api/auth.rs, api/users.rs, db.rs). */
module Authority {
  import opened Text
  import opened Permissions
  import opened AuthStore
  import opened AuthProofs
  import opened Revocation

  predicate IsAdmin(users: map<nat, User>, id: nat) {
    id in users && users[id].role.Admin? && users[id].enabled
  }

  predicate AnotherAdmin(users: map<nat, User>, id: nat) {
    exists a :: a in users && a != id && IsAdmin(users, a)
  }

  // --- Who may do what ---

  /** The row after an update would no longer be an enabled administrator's, and
      there is no other. */
  predicate LosesLastAdmin(users: map<nat, User>, id: nat, role: Option<Role>, enabled: Option<bool>)
    requires id in users
  {
    && users[id].role.Admin? && !AnotherAdmin(users, id)
    && ((role.Some? && role.value != Admin) || enabled == Some(false) || (enabled.None? && !users[id].enabled))
  }

  /** Accounts are an enabled administrator's business, except one's own password,
      which takes the current one; nobody deletes themselves, and the last
      administrator stays. */
  predicate Entitled(users: map<nat, User>, caller: nat, req: Request) {
    match req
    case Visit => true
    case CreateUser(role, longEnough, taken) => IsAdmin(users, caller) && !role.Unknown? && longEnough && !taken
    case UpdateUser(id, role, enabled) =>
      && IsAdmin(users, caller) && (role.Some? ==> !role.value.Unknown?)
      && id in users && !LosesLastAdmin(users, id, role, enabled)
    case DeleteUser(id) => IsAdmin(users, caller) && id in users && id != caller
    case ChangePassword(id, current, longEnough) =>
      && id in users && longEnough
      && if id == caller then current == Some(true) else IsAdmin(users, caller)
    case ChangeMyPassword(current, longEnough) => current == Some(true) && longEnough
    case RevokeSession(_) => IsAdmin(users, caller)
    case RevokeTokens(id) => IsAdmin(users, caller) && id in users
  }

  /** With the check enforced, what an accepted token may do is decided by its
      user's row. */
  lemma TokenSpeaksForRow(cfg: Config, s: Store, c: Claims)
    requires Inv(s) && cfg.enforce && Accepts(cfg, s, c)
    ensures c.sub in s.users && (c.role.Admin? <==> IsAdmin(s.users, c.sub))
    ensures RoleLevel(c.role) == RoleLevel(s.users[c.sub].role)
    ensures May(c, "create") <==> IsAdmin(s.users, c.sub)
    ensures May(c, "update") <==> IsAdmin(s.users, c.sub)
    ensures May(c, "delete") <==> IsAdmin(s.users, c.sub)
    ensures May(c, "sessions") <==> IsAdmin(s.users, c.sub)
  {
    assert Tracks(s.users, c);
    OnlyAdminsManageUsers(c.role, "create");
    OnlyAdminsManageUsers(c.role, "update");
    OnlyAdminsManageUsers(c.role, "delete");
    OnlyAdminsManageUsers(c.role, "sessions");
    hide RoleLevel, HasPermission, PermissionsFor;
  }

  lemma SameOthers(users: map<nat, User>, id: nat)
    ensures OtherAdmin(users, id) <==> AnotherAdmin(users, id)
  {
  }

  lemma ServeDone(s: Store, c: Claims, req: Request)
    requires c.sub in s.users && RoleLevel(c.role) == RoleLevel(s.users[c.sub].role)
    requires c.role.Admin? <==> IsAdmin(s.users, c.sub)
    requires May(c, "create") <==> IsAdmin(s.users, c.sub)
    requires May(c, "update") <==> IsAdmin(s.users, c.sub)
    requires May(c, "delete") <==> IsAdmin(s.users, c.sub)
    requires May(c, "sessions") <==> IsAdmin(s.users, c.sub)
    ensures Serve(s, c, req).1.Done? <==> Entitled(s.users, c.sub, req)
  {
    hide May, Revoke, SessionsOfOthers, Remember;
    match req
    case UpdateUser(id, role, enabled) => SameOthers(s.users, id); hide OtherAdmin, AnotherAdmin;
    case DeleteUser(id) =>
      SameOthers(s.users, id);
      if IsAdmin(s.users, c.sub) && c.sub != id { assert AnotherAdmin(s.users, id); }
      hide OtherAdmin, AnotherAdmin;
    case _ => hide OtherAdmin, AnotherAdmin;
  }

  /** After every run, with the check enforced: a request is carried out exactly
      if its token is accepted and its user, as the database has it, is entitled. */
  lemma DoneWhen(cfg: Config, s0: Store, steps: seq<Step>, c: Claims, req: Request)
    requires Inv(s0) && cfg.enforce
    ensures var s := Run(cfg, s0, steps);
      Handle(cfg, s, Call(c, req)).1.Done? <==> Accepts(cfg, s, c) && Entitled(s.users, c.sub, req)
  {
    RunKeeps(cfg, s0, steps);
    CacheIsTransparent(cfg, s0, steps, c);
    var s := Run(cfg, s0, steps);
    AuthorizeKeeps(cfg, s, c);
    if Accepts(cfg, s, c) {
      TokenSpeaksForRow(cfg, s, c);
      ServeDone(Authorize(cfg, s, c).0, c, req);
    }
    hide Inv, Serve, Authorize, Accepts, Entitled, May, RoleLevel, IsAdmin;
  }

  /** Requests only an administrator may make. */
  predicate NeedsAdmin(caller: nat, req: Request) {
    match req
    case Visit => false
    case ChangeMyPassword(_, _) => false
    case ChangePassword(id, _, _) => id != caller
    case _ => true
  }

  /** The current password was needed and wrong. */
  predicate WrongPassword(users: map<nat, User>, caller: nat, req: Request) {
    match req
    case ChangePassword(id, current, _) => id == caller && current == Some(false)
    case ChangeMyPassword(current, _) => current == Some(false)
    case _ => false
  }

  /** The request would break what has to stay: two users of one name, an account
      deleting itself, or no administrator. */
  predicate Clashes(users: map<nat, User>, caller: nat, req: Request) {
    match req
    case CreateUser(role, longEnough, taken) => !role.Unknown? && longEnough && taken
    case UpdateUser(id, role, enabled) =>
      (role.Some? ==> !role.value.Unknown?) && id in users && LosesLastAdmin(users, id, role, enabled)
    case DeleteUser(id) => id == caller
    case _ => false
  }

  lemma ServeRefuses(s: Store, c: Claims, req: Request)
    requires c.sub in s.users && RoleLevel(c.role) == RoleLevel(s.users[c.sub].role)
    requires c.role.Admin? <==> IsAdmin(s.users, c.sub)
    requires May(c, "create") <==> IsAdmin(s.users, c.sub)
    requires May(c, "update") <==> IsAdmin(s.users, c.sub)
    requires May(c, "delete") <==> IsAdmin(s.users, c.sub)
    requires May(c, "sessions") <==> IsAdmin(s.users, c.sub)
    ensures var r := Serve(s, c, req).1;
      && (r.Forbidden? <==> NeedsAdmin(c.sub, req) && !IsAdmin(s.users, c.sub))
      && (r.Unauthorized? <==> WrongPassword(s.users, c.sub, req))
      && (r.Conflict? <==> IsAdmin(s.users, c.sub) && Clashes(s.users, c.sub, req))
  {
    hide May, Revoke, SessionsOfOthers, Remember;
    match req
    case UpdateUser(id, role, enabled) => SameOthers(s.users, id); hide OtherAdmin, AnotherAdmin;
    case DeleteUser(id) =>
      SameOthers(s.users, id);
      if IsAdmin(s.users, c.sub) && c.sub != id { assert AnotherAdmin(s.users, id); }
      hide OtherAdmin, AnotherAdmin;
    case _ => hide OtherAdmin, AnotherAdmin;
  }

  /** And why it is refused: unauthorized if the token is not accepted or the
      current password wrong, forbidden if it takes an administrator and the
      caller is none, a conflict if it would break what has to stay. */
  lemma RefusedWhen(cfg: Config, s0: Store, steps: seq<Step>, c: Claims, req: Request)
    requires Inv(s0) && cfg.enforce
    ensures var s := Run(cfg, s0, steps);
      var r := Handle(cfg, s, Call(c, req)).1;
      var accepted := Accepts(cfg, s, c);
      && (r.Unauthorized? <==> !accepted || WrongPassword(s.users, c.sub, req))
      && (r.Forbidden? <==> accepted && NeedsAdmin(c.sub, req) && !IsAdmin(s.users, c.sub))
      && (r.Conflict? <==> accepted && IsAdmin(s.users, c.sub) && Clashes(s.users, c.sub, req))
  {
    RunKeeps(cfg, s0, steps);
    CacheIsTransparent(cfg, s0, steps, c);
    var s := Run(cfg, s0, steps);
    AuthorizeKeeps(cfg, s, c);
    if Accepts(cfg, s, c) {
      TokenSpeaksForRow(cfg, s, c);
      ServeRefuses(Authorize(cfg, s, c).0, c, req);
    }
    hide Inv, Serve, Authorize, Accepts, NeedsAdmin, WrongPassword, Clashes, May, RoleLevel, IsAdmin;
  }

  /** A password changes only at the hands of its owner, who knows the current
      one, or of an enabled administrator who is somebody else. */
  lemma PasswordIsOnesOwn(
    cfg: Config, s0: Store, steps: seq<Step>, c: Claims, id: nat, current: Option<bool>, longEnough: bool)
    requires Inv(s0) && cfg.enforce
    requires Handle(cfg, Run(cfg, s0, steps), Call(c, ChangePassword(id, current, longEnough))).1.Done?
    ensures var users := Run(cfg, s0, steps).users;
      if c.sub == id then current == Some(true) else IsAdmin(users, c.sub)
  {
    DoneWhen(cfg, s0, steps, c, ChangePassword(id, current, longEnough));
  }

  /** The database itself keeps the last administrator, whoever asks: a row is
      deleted exactly if it exists and is not the last administrator's. */
  lemma RowDeletedWhen(s: Store, id: nat)
    ensures var r := DeleteRow(s, id).1;
      && (r.Done? <==> id in s.users && (s.users[id].role.Admin? ==> AnotherAdmin(s.users, id)))
      && (r.NotFound? <==> id !in s.users)
      && (r.Conflict? <==> id in s.users && s.users[id].role.Admin? && !AnotherAdmin(s.users, id))
  {
    SameOthers(s.users, id);
    hide OtherAdmin, AnotherAdmin;
  }

  lemma RowUpdatedWhen(s: Store, id: nat, role: Option<Role>, enabled: Option<bool>)
    ensures var r := UpdateRow(s, id, role, enabled).1;
      && (r.Done? <==> id in s.users && !LosesLastAdmin(s.users, id, role, enabled))
      && (r.NotFound? <==> id !in s.users)
      && (r.Conflict? <==> id in s.users && LosesLastAdmin(s.users, id, role, enabled))
  {
    SameOthers(s.users, id);
    hide OtherAdmin, AnotherAdmin;
  }

  // --- What a request does ---

  /** Only this row differs. */
  predicate OnlyRow(users: map<nat, User>, users': map<nat, User>, id: nat) {
    users'.Keys == users.Keys && forall x :: x in users && x != id ==> users'[x] == users[x]
  }

  ghost predicate SessionsWithout(sessions: map<nat, Session>, sessions': map<nat, Session>, user: nat) {
    forall j :: j in sessions' <==> j in sessions && sessions[j].user != user
  }

  ghost predicate SessionsKept(sessions: map<nat, Session>, sessions': map<nat, Session>) {
    forall j :: j in sessions' ==> j in sessions && sessions'[j] == sessions[j]
  }

  /** The effect of a request that is carried out: a new user has the role asked
      for and nothing on record; an update writes what was asked and keeps the
      lock; a password change or a revocation raises the generation by one; and
      sessions end as the request says, those of other users never. */
  ghost predicate Effect(s: Store, t: Store, c: Claims, req: Request) {
    match req
    case Visit => t.users == s.users && t.sessions == s.sessions
    case CreateUser(role, _, _) =>
      t.users == s.users[s.next := User(role, true, 0, None, 0)] && t.sessions == s.sessions
    case UpdateUser(id, role, enabled) =>
      && id in s.users && OnlyRow(s.users, t.users, id) && t.sessions == s.sessions
      && t.users[id].role == (if role.Some? then role.value else s.users[id].role)
      && t.users[id].enabled == (if enabled.Some? then enabled.value else s.users[id].enabled)
      && t.users[id].failed == s.users[id].failed && t.users[id].lockedUntil == s.users[id].lockedUntil
    case DeleteUser(id) => t.users == s.users - {id} && SessionsWithout(s.sessions, t.sessions, id)
    case ChangePassword(id, _, _) =>
      && id in s.users && t.users == s.users[id := s.users[id].(gen := s.users[id].gen + 1)]
      && SessionsWithout(s.sessions, t.sessions, id)
    case ChangeMyPassword(_, _) =>
      && c.sub in s.users && t.users == s.users[c.sub := s.users[c.sub].(gen := s.users[c.sub].gen + 1)]
      && SessionsWithout(s.sessions, t.sessions, c.sub)
    case RevokeSession(jti) =>
      && t.sessions == s.sessions - {jti}
      && t.users == (
           if jti in s.sessions && s.sessions[jti].user in s.users
           then s.users[s.sessions[jti].user := s.users[s.sessions[jti].user].(gen := s.users[s.sessions[jti].user].gen + 1)]
           else s.users)
    case RevokeTokens(id) =>
      id in s.users && t.users == s.users[id := s.users[id].(gen := s.users[id].gen + 1)] && t.sessions == s.sessions
  }

  lemma ServeEffect(s: Store, c: Claims, req: Request)
    ensures var (t, r) := Serve(s, c, req);
      && SessionsKept(s.sessions, t.sessions)
      && (if r.Done? then Effect(s, t, c, req) else t.users == s.users && t.sessions == s.sessions)
  {
    hide May, RoleLevel, OtherAdmin;
    match req
    case RevokeSession(jti) => assert jti !in s.sessions ==> s.sessions - {jti} == s.sessions;
    case ChangePassword(id, _, longEnough) => PasswordEffect(s, id, longEnough); hide SetPassword;
    case ChangeMyPassword(_, longEnough) => PasswordEffect(s, c.sub, longEnough); hide SetPassword;
    case UpdateUser(id, role, enabled) => UpdateEffect(s, c, id, role, enabled); hide Update;
    case _ =>
  }

  lemma PasswordEffect(s: Store, id: nat, longEnough: bool)
    ensures var (t, r) := SetPassword(s, id, longEnough);
      && SessionsKept(s.sessions, t.sessions)
      && (if r.Done? then
            && id in s.users && t.users == s.users[id := s.users[id].(gen := s.users[id].gen + 1)]
            && SessionsWithout(s.sessions, t.sessions, id)
          else t.users == s.users && t.sessions == s.sessions)
  {
  }

  lemma UpdateEffect(s: Store, c: Claims, id: nat, role: Option<Role>, enabled: Option<bool>)
    ensures var (t, r) := Update(s, c, id, role, enabled);
      && t.sessions == s.sessions
      && (if r.Done? then Effect(s, t, c, UpdateUser(id, role, enabled)) else t.users == s.users)
  {
    hide May, RoleLevel, OtherAdmin;
  }

  /** A request that is not carried out changes no account and no session; one
      that is has its effect. */
  lemma RequestDoes(cfg: Config, s: Store, c: Claims, req: Request)
    requires Inv(s)
    ensures var (t, r) := Handle(cfg, s, Call(c, req));
      && SessionsKept(s.sessions, t.sessions)
      && (if r.Done? then Effect(s, t, c, req) else t.users == s.users && t.sessions == s.sessions)
  {
    AuthorizeKeeps(cfg, s, c);
    var s1 := Authorize(cfg, s, c).0;
    ServeEffect(s1, c, req);
    SameEffect(s, s1, Serve(s1, c, req).0, c, req);
    hide Inv, Serve, Authorize, Effect;
  }

  lemma SameEffect(s: Store, s1: Store, t: Store, c: Claims, req: Request)
    requires s1 == s.(cache := s1.cache)
    ensures Effect(s1, t, c, req) == Effect(s, t, c, req)
  {
  }

  // --- Whose tokens and sessions end ---

  /** With the check enforced, a user's tokens are revoked only, and a user's
      session ends only, by the user's own request or an enabled administrator's;
      a session also by its own renewal, or when it has run out. */
  lemma EndedBySelfOrAdmin(cfg: Config, s0: Store, steps: seq<Step>, step: Step, id: nat, j: nat)
    requires Inv(s0) && cfg.enforce && id in Run(cfg, s0, steps).users
    ensures var s := Run(cfg, s0, steps);
      var t := Handle(cfg, s, step).0;
      && (Moved(s, t, id) ==> step.Call? && (step.c.sub == id || IsAdmin(s.users, step.c.sub)))
      && (j in s.sessions && s.sessions[j].user == id && j !in t.sessions ==>
            || (step.Call? && (step.c.sub == id || IsAdmin(s.users, step.c.sub)))
            || (step.Renewal? && step.c in s.issued && step.c.jti == j && step.c.sub == id)
            || (step.Cleanup? && s.sessions[j].expires < s.now))
  {
    var s := Run(cfg, s0, steps);
    RunKeeps(cfg, s0, steps);
    match step
    case Call(c, req) =>
      DoneWhen(cfg, s0, steps, c, req);
      hide Handle, Run, Inv, Accepts, Entitled, IsAdmin, Moved;
      CallEndedBy(cfg, s, c, req, id, j);
    case SignIn(x, valid) =>
      hide Run, Inv, Moved;
      StepMoves(cfg, s, step, id);
      SignInEndsNothing(cfg, s, x, valid);
    case Renewal(c) =>
      hide Run, Inv, Moved;
      StepMoves(cfg, s, step, id);
      RenewalEndsOwn(cfg, s, c, j);
    case _ =>
  }

  lemma CallEndedBy(cfg: Config, s: Store, c: Claims, req: Request, id: nat, j: nat)
    requires Inv(s) && id in s.users
    requires Handle(cfg, s, Call(c, req)).1.Done? ==> Entitled(s.users, c.sub, req)
    ensures var t := Handle(cfg, s, Call(c, req)).0;
      && (Moved(s, t, id) ==> c.sub == id || IsAdmin(s.users, c.sub))
      && (j in s.sessions && s.sessions[j].user == id && j !in t.sessions ==> c.sub == id || IsAdmin(s.users, c.sub))
  {
    StepMoves(cfg, s, Call(c, req), id);
    RequestDoes(cfg, s, c, req);
    hide Handle, Inv, Entitled, Effect, Targets, IsAdmin, SessionsKept;
    if Handle(cfg, s, Call(c, req)).1.Done? {
      CallEnds(s, Handle(cfg, s, Call(c, req)).0, c, req, id, j);
    }
  }

  lemma CallEnds(s: Store, t: Store, c: Claims, req: Request, id: nat, j: nat)
    requires Inv(s) && id in s.users && SessionsKept(s.sessions, t.sessions)
    requires Effect(s, t, c, req) && Entitled(s.users, c.sub, req)
    ensures Targets(s, c, req, id) ==> c.sub == id || IsAdmin(s.users, c.sub)
    ensures j in s.sessions && s.sessions[j].user == id && j !in t.sessions ==> c.sub == id || IsAdmin(s.users, c.sub)
  {
  }

  lemma SignInEndsNothing(cfg: Config, s: Store, id: nat, valid: bool)
    requires Inv(s)
    ensures forall j :: j in s.sessions ==> j in Login(cfg, s, id, valid).0.sessions
  {
  }

  lemma RenewalEndsOwn(cfg: Config, s: Store, c: Claims, j: nat)
    requires Inv(s)
    ensures j in s.sessions && j !in Renew(cfg, s, c).0.sessions ==>
      c in s.issued && c.jti == j && c.sub == s.sessions[j].user
  {
  }

  /** Ending a session ends its renewal for good: whoever presents its refresh
      token is refused, whatever happens in between. */
  lemma EndedSessionNeverRenews(
    cfg: Config, s0: Store, steps: seq<Step>, c: Claims, jti: nat, more: seq<Step>, token: Claims)
    requires Inv(s0) && jti in Run(cfg, s0, steps).sessions && token.jti == jti
    requires Handle(cfg, Run(cfg, s0, steps), Call(c, RevokeSession(jti))).1.Done?
    ensures var t := Run(cfg, Handle(cfg, Run(cfg, s0, steps), Call(c, RevokeSession(jti))).0, more);
      Renew(cfg, t, token) == (t, Unauthorized)
  {
    var s := Run(cfg, s0, steps);
    RunKeeps(cfg, s0, steps);
    RequestDoes(cfg, s, c, RevokeSession(jti));
    HandleKeeps(cfg, s, Call(c, RevokeSession(jti)));
    var s1 := Handle(cfg, s, Call(c, RevokeSession(jti))).0;
    RunSessions(cfg, s1, more);
    KnownSession(s, jti);
    hide Handle, Run, Inv;
  }

  lemma KnownSession(s: Store, jti: nat)
    requires Inv(s) && jti in s.sessions
    ensures jti < s.next
  {
  }

  // --- What signing in grants ---

  predicate LockedNow(s: Store, u: User) {
    u.lockedUntil.Some? && s.now < u.lockedUntil.value
  }

  /** A sign-in succeeds exactly for an enabled user who is not locked and gives
      the right password. Success clears the failures; a wrong password counts
      one more, from none if a lock has run out, and locks the account at the
      configured number; in any other case nothing changes but an expired lock. */
  lemma SignInWhen(cfg: Config, s: Store, id: nat, valid: bool)
    ensures var (t, r) := Login(cfg, s, id, valid);
      && (r.Done? <==> id in s.users && s.users[id].enabled && !LockedNow(s, s.users[id]) && valid)
      && (r.Done? || (r.Unauthorized? && t.sessions == s.sessions && t.issued == s.issued && t.next == s.next))
      && (id !in s.users ==> t == s)
      && (id in s.users ==>
            var (u, v) := (s.users[id], t.users[id]);
            && OnlyRow(s.users, t.users, id)
            && v.role == u.role && v.enabled == u.enabled && v.gen == u.gen
            && (LockedNow(s, u) ==> t == s)
            && (r.Done? ==> v.failed == 0 && v.lockedUntil == None)
            && (!LockedNow(s, u) && u.enabled && !valid ==>
                  && v.failed == (if u.lockedUntil.Some? then 0 else u.failed) + 1
                  && v.lockedUntil == if v.failed >= cfg.maxAttempts then Some(s.now + cfg.lockout) else None))
  {
  }

  function Later(t: Store, d: nat): Store {
    t.(now := t.now + d)
  }

  /** The two tokens handed out: an access token that is let in at once and says
      what the user is, and a refresh token of the user's that renews until its
      lifetime is over. */
  ghost predicate Grants(cfg: Config, t: Store, id: nat, access: Claims, refresh: Claims) {
    && id in t.users && access.sub == id && refresh.sub == id
    && Accepts(cfg, t, access) && Current(t.users, access)
    && refresh.kind.Refresh? && refresh.gen == t.users[id].gen && access.jti != refresh.jti
    && forall d: nat :: Renew(cfg, Later(t, d), refresh).1.Done? <==> d < cfg.refreshTtl
  }

  lemma IssueGrants(cfg: Config, s: Store, id: nat)
    requires id in s.users && s.users[id].enabled
    ensures var t := Issue(cfg, s, id);
      var (access, refresh) := (TokenFor(s, id, s.next, Access), TokenFor(s, id, s.next + 1, TokenType.Refresh));
      && t.issued == s.issued + {access, refresh} && Grants(cfg, t, id, access, refresh)
      && t.users == s.users && t.sessions.Keys == s.sessions.Keys + {refresh.jti}
  {
    var t, refresh := Issue(cfg, s, id), TokenFor(s, id, s.next + 1, TokenType.Refresh);
    forall d: nat ensures Renew(cfg, Later(t, d), refresh).1.Done? <==> d < cfg.refreshTtl {
      assert refresh in Later(t, d).issued && refresh.jti in Later(t, d).sessions;
    }
  }

  /** A successful sign-in grants exactly that, and so does a renewal, in place of
      the session it used up. */
  lemma SuccessGrants(cfg: Config, s: Store, id: nat, c: Claims)
    requires Inv(s)
    ensures Login(cfg, s, id, true).1.Done? ==>
      var t := Login(cfg, s, id, true).0;
      exists access, refresh ::
        && t.issued == s.issued + {access, refresh} && Grants(cfg, t, id, access, refresh)
        && t.sessions.Keys == s.sessions.Keys + {refresh.jti}
    ensures Renew(cfg, s, c).1.Done? ==>
      var t := Renew(cfg, s, c).0;
      exists access, refresh ::
        && t.issued == s.issued + {access, refresh} && Grants(cfg, t, c.sub, access, refresh)
        && t.sessions.Keys == s.sessions.Keys - {c.jti} + {refresh.jti}
  {
    hide Issue, Grants, TokenFor;
    if Login(cfg, s, id, true).1.Done? {
      var s1 := ResetFailures(if s.users[id].lockedUntil.Some? then ResetFailures(s, id) else s, id);
      IssueGrants(cfg, s1, id);
    }
    if Renew(cfg, s, c).1.Done? {
      IssueGrants(cfg, s.(sessions := s.sessions - {c.jti}), c.sub);
    }
  }
}
