/** What the authentication state guarantees to the outside: who is let in,
    what revokes a token and for how long, and who may manage accounts
    (apps/snx-edge-server/src/api/auth.rs, api/users.rs, db.rs). */
module Revocation {
  import opened Text
  import opened Permissions
  import opened AuthStore
  import opened AuthProofs

  /** The check without a cache: the generation in the database decides. */
  predicate Accepts(cfg: Config, s: Store, c: Claims) {
    && c in s.issued && c.kind.Access?
    && (cfg.enforce ==> c.sub in s.users && s.users[c.sub].gen == c.gen)
  }

  /** In every reachable state the cached check lets in exactly what the
      database would. */
  lemma CacheIsTransparent(cfg: Config, s0: Store, steps: seq<Step>, c: Claims)
    requires Inv(s0)
    ensures var s := Run(cfg, s0, steps); Authorize(cfg, s, c).1 <==> Accepts(cfg, s, c)
  {
    RunKeeps(cfg, s0, steps);
  }

  /** With the check enforced, whoever is let in is an existing, enabled user
      with exactly the role and permissions the token names. */
  lemma AcceptedIsCurrent(cfg: Config, s0: Store, steps: seq<Step>, c: Claims)
    requires Inv(s0) && cfg.enforce
    requires Authorize(cfg, Run(cfg, s0, steps), c).1
    ensures Current(Run(cfg, s0, steps).users, c)
  {
    RunKeeps(cfg, s0, steps);
    CacheIsTransparent(cfg, s0, steps, c);
    assert Tracks(Run(cfg, s0, steps).users, c);
  }

  /** A cached generation is used for less than thirty seconds and then read
      again. */
  lemma ReadAgainAfter(s: Store, id: nat)
    requires id in s.users
    ensures var recent := id in s.cache && s.now - s.cache[id].fetched < 30;
      Lookup(s, id) ==
        if recent then (s, Some(s.cache[id].gen))
        else (s.(cache := s.cache[id := Entry(s.users[id].gen, s.now)]), Some(s.users[id].gen))
  {
  }

  // --- Revocation is final ---

  lemma StepIssued(cfg: Config, s: Store, step: Step)
    ensures s.issued <= Handle(cfg, s, step).0.issued
  {
    hide OtherAdmin, May, TokenFor, RoleLevel;
    if step.Call? {
      ServeIssued(Authorize(cfg, s, step.c).0, step.c, step.req);
    }
  }

  lemma ServeIssued(s: Store, c: Claims, req: Request)
    ensures Serve(s, c, req).0.issued == s.issued
  {
    hide OtherAdmin, May, RoleLevel;
  }

  /** A signed token that is refused once is refused in every later state. */
  lemma RefusedForGood(cfg: Config, s0: Store, steps: seq<Step>, more: seq<Step>, c: Claims)
    requires Inv(s0)
    requires var s := Run(cfg, s0, steps); c in s.issued && !Authorize(cfg, s, c).1
    ensures !Authorize(cfg, Run(cfg, Run(cfg, s0, steps), more), c).1
  {
    var s := Run(cfg, s0, steps);
    RunKeeps(cfg, s0, steps);
    RunKeeps(cfg, s, more);
    hide Authorize, Run;
    CacheIsTransparent(cfg, s0, steps, c);
    CachedAtEnd(cfg, s, more, c);
    BehindStaysBehind(cfg, s, Run(cfg, s, more), c);
  }

  lemma CachedAtEnd(cfg: Config, s: Store, more: seq<Step>, c: Claims)
    requires Inv(s)
    ensures Authorize(cfg, Run(cfg, s, more), c).1 <==> Accepts(cfg, Run(cfg, s, more), c)
  {
    CacheIsTransparent(cfg, s, more, c);
  }

  lemma BehindStaysBehind(cfg: Config, s: Store, t: Store, c: Claims)
    requires Inv(s) && UsersMove(s, t) && c in s.issued && !Accepts(cfg, s, c)
    ensures !Accepts(cfg, t, c)
  {
    if c.sub in t.users && c.sub in s.users {
      assert RowMoves(s.users[c.sub], t.users[c.sub]);
      assert Tracks(s.users, c);
    }
  }

  // --- What revokes ---

  /** The request, once allowed, is one of those that revoke `id`'s tokens. */
  predicate Targets(s: Store, c: Claims, req: Request, id: nat)
    requires id in s.users
  {
    match req
    case Visit | CreateUser(_, _, _) => false
    case UpdateUser(x, role, enabled) =>
      x == id && ((role.Some? && role.value != s.users[id].role) || (enabled == Some(false) && s.users[id].enabled))
    case DeleteUser(x) => x == id
    case ChangePassword(x, _, _) => x == id
    case ChangeMyPassword(_, _) => c.sub == id
    case RevokeSession(jti) => jti in s.sessions && s.sessions[jti].user == id
    case RevokeTokens(x) => x == id
  }

  predicate Revokes(cfg: Config, s: Store, step: Step, id: nat)
    requires id in s.users
  {
    step.Call? && Handle(cfg, s, step).1.Done? && Targets(s, step.c, step.req, id)
  }

  predicate Moved(s: Store, t: Store, id: nat)
    requires id in s.users
  {
    id !in t.users || t.users[id].gen != s.users[id].gen
  }

  lemma ServeMoves(s: Store, c: Claims, req: Request, id: nat)
    requires id in s.users && id < s.next
    ensures var (t, r) := Serve(s, c, req);
      Moved(s, t, id) <==> r.Done? && Targets(s, c, req, id)
  {
    hide May, OtherAdmin, RoleLevel, SessionsOfOthers;
  }

  /** A user's outstanding tokens die in exactly these steps: an allowed role
      change or disabling, deletion, either password change, the end of one of
      the user's sessions, or an explicit revocation. Signing in, renewing,
      cosmetic edits, clean-up and restarts revoke nothing. */
  lemma RevokedExactlyBy(cfg: Config, s0: Store, steps: seq<Step>, step: Step, id: nat)
    requires Inv(s0) && id in Run(cfg, s0, steps).users
    ensures var s := Run(cfg, s0, steps);
      Moved(s, Handle(cfg, s, step).0, id) <==> Revokes(cfg, s, step, id)
  {
    RunKeeps(cfg, s0, steps);
    StepMoves(cfg, Run(cfg, s0, steps), step, id);
  }

  lemma StepMoves(cfg: Config, s: Store, step: Step, id: nat)
    requires Inv(s) && id in s.users
    ensures Moved(s, Handle(cfg, s, step).0, id) <==> Revokes(cfg, s, step, id)
  {
    hide Inv, Serve, Authorize, Targets, Login, Renew;
    match step
    case SignIn(x, valid) => LoginMovesNothing(cfg, s, x, valid, id);
    case Renewal(c) => RenewUsers(cfg, s, c);
    case Call(c, req) =>
      AuthorizeKeeps(cfg, s, c);
      var s1 := Authorize(cfg, s, c).0;
      IdBelowNext(s, id);
      ServeMoves(s1, c, req, id);
      SameTargets(s, s1, c, req, id);
    case _ =>
  }

  lemma IdBelowNext(s: Store, id: nat)
    requires Inv(s) && id in s.users
    ensures id < s.next
  {
  }

  lemma LoginMovesNothing(cfg: Config, s: Store, x: nat, valid: bool, id: nat)
    requires id in s.users
    ensures !Moved(s, Login(cfg, s, x, valid).0, id)
  {
  }

  lemma SameTargets(s: Store, s1: Store, c: Claims, req: Request, id: nat)
    requires id in s.users && s1 == s.(cache := s1.cache)
    ensures Targets(s, c, req, id) == Targets(s1, c, req, id)
  {
  }

  /** After such a step no access token signed for the user before it is ever
      let in again. */
  lemma RevokedForGood(cfg: Config, s0: Store, steps: seq<Step>, step: Step, id: nat, more: seq<Step>, c: Claims)
    requires Inv(s0) && cfg.enforce && id in Run(cfg, s0, steps).users
    requires Revokes(cfg, Run(cfg, s0, steps), step, id)
    requires c in Run(cfg, s0, steps).issued && c.sub == id
    ensures !Authorize(cfg, Run(cfg, Handle(cfg, Run(cfg, s0, steps), step).0, more), c).1
  {
    RunKeeps(cfg, s0, steps);
    var s := Run(cfg, s0, steps);
    hide Run, Authorize;
    RevokedNow(cfg, s, step, id, c);
    var t := Handle(cfg, s, step).0;
    HandleKeeps(cfg, s, step);
    RunKeeps(cfg, t, more);
    CachedAtEnd(cfg, t, more, c);
    BehindStaysBehind(cfg, t, Run(cfg, t, more), c);
  }

  lemma RevokedNow(cfg: Config, s: Store, step: Step, id: nat, c: Claims)
    requires Inv(s) && cfg.enforce && id in s.users && Revokes(cfg, s, step, id)
    requires c in s.issued && c.sub == id
    ensures var t := Handle(cfg, s, step).0; c in t.issued && !Accepts(cfg, t, c)
  {
    hide Handle, Revokes;
    var t := Handle(cfg, s, step).0;
    StepIssued(cfg, s, step);
    StepMoves(cfg, s, step, id);
    HandleKeeps(cfg, s, step);
    assert Tracks(s.users, c);
    if id in t.users { assert RowMoves(s.users[id], t.users[id]); }
  }

  // --- Who manages accounts ---

  /** Which accounts exist, with what role, and which are enabled. */
  function Standing(users: map<nat, User>): map<nat, (Role, bool)> {
    map id | id in users :: (users[id].role, users[id].enabled)
  }

  lemma SameStanding(s: Store, id: nat, u: User)
    requires id in s.users && u.role == s.users[id].role && u.enabled == s.users[id].enabled
    ensures Standing(s.users[id := u]) == Standing(s.users)
  {
  }

  lemma RevokeStanding(s: Store, id: nat)
    ensures Standing(Revoke(s, id).users) == Standing(s.users)
  {
    if id in s.users { SameStanding(s, id, Bump(s, id).users[id]); }
  }

  lemma LoginStanding(cfg: Config, s: Store, id: nat, valid: bool)
    ensures Standing(Login(cfg, s, id, valid).0.users) == Standing(s.users)
  {
    if id in s.users {
      var s1 := ResetFailures(s, id);
      SameStanding(s, id, s1.users[id]);
      SameStanding(s1, id, ResetFailures(s1, id).users[id]);
      SameStanding(s1, id, RecordFailure(cfg, s1, id).users[id]);
      SameStanding(s, id, RecordFailure(cfg, s, id).users[id]);
    }
  }

  lemma ServeStanding(s: Store, c: Claims, req: Request)
    ensures Standing(Serve(s, c, req).0.users) != Standing(s.users) ==>
      May(c, "create") || May(c, "update") || May(c, "delete")
  {
    hide Standing, Revoke, UpdateRow, DeleteRow, May, SessionsOfOthers;
    match req
    case ChangePassword(id, _, _) => RevokeStanding(s.(sessions := SessionsOfOthers(s.sessions, id)), id);
    case ChangeMyPassword(_, _) => RevokeStanding(s.(sessions := SessionsOfOthers(s.sessions, c.sub)), c.sub);
    case RevokeSession(jti) =>
      if jti in s.sessions {
        RevokeStanding(s.(sessions := s.sessions - {jti}), s.sessions[jti].user);
      }
    case RevokeTokens(id) => RevokeStanding(s, id);
    case _ =>
  }

  /** No escalation. With the check enforced, accounts are created, deleted,
      enabled, disabled or given a role only at the request of someone who is an
      enabled administrator in the database at that moment. */
  lemma OnlyAdminsChangeAccounts(cfg: Config, s0: Store, steps: seq<Step>, step: Step)
    requires Inv(s0) && cfg.enforce
    requires var s := Run(cfg, s0, steps); Standing(Handle(cfg, s, step).0.users) != Standing(s.users)
    ensures var s := Run(cfg, s0, steps);
      step.Call? && step.c.sub in s.users && ActiveAdmin(s.users[step.c.sub])
  {
    RunKeeps(cfg, s0, steps);
    var s := Run(cfg, s0, steps);
    ChangerIsCaller(cfg, s, step);
    AcceptedIsCurrent(cfg, s0, steps, step.c);
    ManagerIsAdmin(step.c);
  }

  lemma ChangerIsCaller(cfg: Config, s: Store, step: Step)
    requires Inv(s) && Standing(Handle(cfg, s, step).0.users) != Standing(s.users)
    ensures step.Call? && Authorize(cfg, s, step.c).1
    ensures May(step.c, "create") || May(step.c, "update") || May(step.c, "delete")
  {
    hide Standing, Login, Renew, Serve, Authorize, May;
    match step
    case SignIn(id, valid) => LoginStanding(cfg, s, id, valid);
    case Renewal(c) => RenewUsers(cfg, s, c);
    case Call(c, req) =>
      AuthorizeKeeps(cfg, s, c);
      ServeStanding(Authorize(cfg, s, c).0, c, req);
    case _ =>
  }

  lemma RenewUsers(cfg: Config, s: Store, c: Claims)
    ensures Renew(cfg, s, c).0.users == s.users
  {
  }

  lemma ManagerIsAdmin(c: Claims)
    requires c.permissions == PermissionsFor(c.role)
    requires May(c, "create") || May(c, "update") || May(c, "delete")
    ensures c.role.Admin?
  {
    OnlyAdminsManageUsers(c.role, "create");
    OnlyAdminsManageUsers(c.role, "update");
    OnlyAdminsManageUsers(c.role, "delete");
  }

  // --- The last administrator, sessions and renewal ---

  /** After every run an enabled administrator remains and every session
      belongs to an existing user. */
  lemma AnAdminRemains(cfg: Config, s0: Store, steps: seq<Step>)
    requires Inv(s0)
    ensures var s := Run(cfg, s0, steps);
      && (exists a :: a in s.users && ActiveAdmin(s.users[a]))
      && (forall j :: j in s.sessions ==> s.sessions[j].user in s.users)
  {
    RunKeeps(cfg, s0, steps);
  }

  /** A used-up or revoked session identifier does not come back. */
  predicate SessionsMove(s: Store, t: Store) {
    s.next <= t.next && forall j :: j in t.sessions ==> (j in s.sessions && t.sessions[j] == s.sessions[j]) || s.next <= j
  }

  lemma StepSessions(cfg: Config, s: Store, step: Step)
    requires Inv(s)
    ensures SessionsMove(s, Handle(cfg, s, step).0)
  {
    hide Inv, OtherAdmin, May, TokenFor;
    if step.Call? {
      AuthorizeKeeps(cfg, s, step.c);
      ServeSessions(Authorize(cfg, s, step.c).0, step.c, step.req);
    }
  }

  lemma ServeSessions(s: Store, c: Claims, req: Request)
    ensures SessionsMove(s, Serve(s, c, req).0)
  {
    hide OtherAdmin, May, RoleLevel;
  }

  lemma {:induction false} RunSessions(cfg: Config, s: Store, steps: seq<Step>)
    requires Inv(s)
    ensures SessionsMove(s, Run(cfg, s, steps))
  {
    if steps == [] {
    } else {
      var n := |steps| - 1;
      RunSessions(cfg, s, steps[..n]);
      RunKeeps(cfg, s, steps[..n]);
      hide Handle, Inv;
      StepSessions(cfg, Run(cfg, s, steps[..n]), steps[n]);
    }
  }

  /** A refresh token is good for one renewal: whatever came of it, and whatever
      happens next, renewing with it again is refused and changes nothing. */
  lemma RenewedOnce(cfg: Config, s0: Store, steps: seq<Step>, c: Claims, more: seq<Step>)
    requires Inv(s0)
    requires var s := Run(cfg, s0, steps); Renew(cfg, s, c).0 != s
    ensures var t := Run(cfg, Renew(cfg, Run(cfg, s0, steps), c).0, more);
      Renew(cfg, t, c) == (t, Unauthorized)
  {
    RunKeeps(cfg, s0, steps);
    var s := Run(cfg, s0, steps);
    var s1 := Renew(cfg, s, c).0;
    RenewKeeps(cfg, s, c);
    assert c.jti !in s1.sessions && c.jti < s1.next;
    RunSessions(cfg, s1, more);
  }

  /** Renewal succeeds exactly for a signed refresh token whose session is live
      and whose user is enabled; the user is never missing. */
  lemma RenewalSucceedsWhen(cfg: Config, s0: Store, steps: seq<Step>, c: Claims)
    requires Inv(s0)
    ensures var s := Run(cfg, s0, steps);
      var r := Renew(cfg, s, c).1;
      && (r.Done? <==>
            && c in s.issued && c.kind.Refresh? && c.jti in s.sessions && s.now < s.sessions[c.jti].expires
            && c.sub in s.users && s.users[c.sub].enabled)
      && (r.Done? || r.Unauthorized?)
  {
    RunKeeps(cfg, s0, steps);
  }

  /** An allowed password change ends the user's refresh tokens as well, for
      good. */
  lemma PasswordChangeEndsRenewal(cfg: Config, s0: Store, steps: seq<Step>, step: Step, id: nat, more: seq<Step>, c: Claims)
    requires Inv(s0) && id in Run(cfg, s0, steps).users
    requires step.Call? && (step.req.ChangePassword? || step.req.ChangeMyPassword?)
    requires Revokes(cfg, Run(cfg, s0, steps), step, id)
    requires c in Run(cfg, s0, steps).issued && c.sub == id
    ensures var t := Run(cfg, Handle(cfg, Run(cfg, s0, steps), step).0, more);
      Renew(cfg, t, c) == (t, Unauthorized)
  {
    RunKeeps(cfg, s0, steps);
    var s := Run(cfg, s0, steps);
    var s1 := Handle(cfg, s, step).0;
    PasswordDropsSessions(cfg, s, step, id, c);
    HandleKeeps(cfg, s, step);
    RunSessions(cfg, s1, more);
  }

  lemma PasswordDropsSessions(cfg: Config, s: Store, step: Step, id: nat, c: Claims)
    requires Inv(s) && id in s.users && step.Call? && (step.req.ChangePassword? || step.req.ChangeMyPassword?)
    requires Revokes(cfg, s, step, id) && c in s.issued && c.sub == id
    ensures var t := Handle(cfg, s, step).0; c.jti < t.next && (c.kind.Refresh? ==> c.jti !in t.sessions)
  {
    AuthorizeKeeps(cfg, s, step.c);
  }

  /** Revoking tokens does not: every renewal goes as it would have without, and
      its new tokens are let in again. */
  lemma RevokeLeavesRenewal(cfg: Config, s: Store, id: nat, c: Claims)
    ensures Renew(cfg, Revoke(s, id), c).1 == Renew(cfg, s, c).1
    ensures Renew(cfg, s, c).1.Done? ==>
      var t := Renew(cfg, Revoke(s, id), c).0;
      Accepts(cfg, t, TokenFor(Revoke(s, id), c.sub, s.next, Access))
  {
  }

  /** Clean-up takes no session a renewal would accept, now or later, and leaves
      none whose time is over. */
  lemma CleanupRevokesNothing(cfg: Config, s: Store, c: Claims, d: nat)
    ensures var late := s.(now := s.now + d);
      var cleaned := Handle(cfg, s, Cleanup).0;
      && Renew(cfg, cleaned.(now := s.now + d), c).1 == Renew(cfg, late, c).1
      && forall j :: j in cleaned.sessions ==> s.now <= cleaned.sessions[j].expires
  {
    var kept := Handle(cfg, s, Cleanup).0.sessions;
    assert c.jti in s.sessions && c.jti !in kept ==> s.sessions[c.jti].expires < s.now;
  }
}
