/** The database handle and the request handlers as they run: tables, cache and
    clock are fields, edited step by step (apps/snx-edge-server/src/db.rs,
    api/auth.rs, api/users.rs, state.rs). Every request keeps the invariant, moves
    the users forward only, and does what the theorems say of it. */
module AuthServer {
  import opened Text
  import opened Permissions
  import opened AuthStore
  import opened AuthProofs
  import opened Revocation
  import opened Authority

  /** What any request behind the middleware does to the state. */
  lemma CallIs(cfg: Config, s: Store, c: Claims, req: Request)
    requires Inv(s)
    ensures var (t, r) := Handle(cfg, s, Call(c, req));
      && Inv(t) && UsersMove(s, t) && HasAdmin(t.users) && CacheExact(t)
      && (cfg.enforce && Standing(t.users) != Standing(s.users) ==> c.sub in s.users && ActiveAdmin(s.users[c.sub]))
      && (forall id :: id in s.users ==> (Moved(s, t, id) <==> r.Done? && Targets(s, c, req, id)))
      && (cfg.enforce ==> (r.Done? <==> Accepts(cfg, s, c) && Entitled(s.users, c.sub, req)))
      && (if r.Done? then Effect(s, t, c, req) else t.users == s.users && t.sessions == s.sessions)
  {
    HandleKeeps(cfg, s, Call(c, req));
    RequestDoes(cfg, s, c, req);
    assert Run(cfg, s, []) == s;
    hide Entitled, Effect, Accepts;
    if cfg.enforce { DoneWhen(cfg, s, [], c, req); }
    hide Handle, UsersMove, Standing, Moved, Targets, ActiveAdmin, HasAdmin, CacheExact, Run;
    var t := Handle(cfg, s, Call(c, req)).0;
    if cfg.enforce && Standing(t.users) != Standing(s.users) {
      OnlyAdminsChangeAccounts(cfg, s, [], Call(c, req));
    }
    forall id | id in s.users
      ensures Moved(s, t, id) <==> Handle(cfg, s, Call(c, req)).1.Done? && Targets(s, c, req, id)
    {
      StepMoves(cfg, s, Call(c, req), id);
    }
  }

  lemma HandleIs(cfg: Config, s: Store, c: Claims, req: Request)
    ensures var (s1, ok) := Authorize(cfg, s, c);
      Handle(cfg, s, Call(c, req)) == if ok then Serve(s1, c, req) else (s1, Unauthorized)
  {
  }

  /** A cache hit answers as the database would. */
  lemma LookupIs(s: Store, id: nat)
    requires Inv(s)
    ensures var (t, gen) := Lookup(s, id);
      Inv(t) && gen == if id in s.users then Some(s.users[id].gen) else None
  {
    if id in s.users { RememberKeeps(s, id); }
  }

  /** What the middleware lets in. */
  lemma AuthorizeIs(cfg: Config, s: Store, c: Claims)
    requires Inv(s)
    ensures var (t, ok) := Authorize(cfg, s, c);
      && Inv(t) && t.users == s.users
      && (ok <==> Accepts(cfg, s, c))
      && (ok && cfg.enforce ==> Current(s.users, c))
  {
    AuthorizeKeeps(cfg, s, c);
    assert Run(cfg, s, []) == s;
    hide Authorize, Accepts, Current, Inv, Run;
    CacheIsTransparent(cfg, s, [], c);
    if cfg.enforce && Authorize(cfg, s, c).1 {
      AcceptedIsCurrent(cfg, s, [], c);
    }
  }

  /** When a renewal succeeds, and what it keeps. */
  lemma RenewalIs(cfg: Config, s: Store, c: Claims)
    requires Inv(s)
    ensures var (t, r) := Renew(cfg, s, c);
      && Inv(t) && UsersMove(s, t)
      && (r.Done? <==>
            && c in s.issued && c.kind.Refresh? && c.jti in s.sessions && s.now < s.sessions[c.jti].expires
            && c.sub in s.users && s.users[c.sub].enabled)
      && (r.Done? || r.Unauthorized?)
  {
    RenewKeeps(cfg, s, c);
    assert Run(cfg, s, []) == s;
    hide Run, Renew, Inv;
    RenewalSucceedsWhen(cfg, s, [], c);
  }

  class AuthServer {
    const cfg: Config
    var users: map<nat, User>
    var sessions: map<nat, Session>
    var cache: map<nat, Entry>
    var signed: set<Claims>
    var now: nat
    var next: nat

    /** A first start: `ensure_admin_exists` finds no users and creates one. */
    constructor (cfg: Config)
      ensures this.cfg == cfg && Now() == FIRST && Valid()
    {
      FirstStart();
      this.cfg := cfg;
      users := map[0 := User(Admin, true, 0, None, 0)];
      sessions, cache, signed, now, next := map[], map[], {}, 0, 1;
    }

    function Now(): Store
      reads this
    {
      Store(users, sessions, cache, signed, now, next)
    }

    /** An administrator remains, the cache agrees with the database, and tokens
        at their user's generation are current. */
    ghost predicate Valid()
      reads this
    {
      Inv(Now())
    }

    // --- Database ---

    method UpdateRow(id: nat, role: Option<Role>, enabled: Option<bool>) returns (r: Reply)
      modifies this`users
      ensures (Now(), r) == AuthStore.UpdateRow(old(Now()), id, role, enabled)
    {
      if id !in users { return NotFound; }
      var u := users[id];
      var newRole := if role.Some? then role.value else u.role;
      var newEnabled := if enabled.Some? then enabled.value else u.enabled;
      var demoting := u.role.Admin? && !newRole.Admin?;
      var disabling := u.role.Admin? && !newEnabled;
      if demoting || disabling {
        if !OtherAdmin(users, id) { return Conflict; }
      }
      var reduced := newRole != u.role || (u.enabled && !newEnabled);
      users := users[id := u.(role := newRole, enabled := newEnabled, gen := u.gen + if reduced then 1 else 0)];
      r := Done;
    }

    /** Deleting a user deletes the user's sessions by foreign key. */
    method DeleteRow(id: nat) returns (r: Reply)
      modifies this`users, this`sessions
      ensures (Now(), r) == AuthStore.DeleteRow(old(Now()), id)
    {
      if !OtherAdmin(users, id) {
        if id !in users { return NotFound; }
        if users[id].role.Admin? { return Conflict; }
      }
      if id !in users { return NotFound; }
      users := users - {id};
      sessions := SessionsOfOthers(sessions, id);
      r := Done;
    }

    method BumpTokenGeneration(id: nat) returns (gen: Option<nat>)
      modifies this`users
      ensures Now() == Bump(old(Now()), id)
      ensures gen == if id in users then Some(users[id].gen) else None
    {
      if id !in users { return None; }
      users := users[id := users[id].(gen := users[id].gen + 1)];
      gen := Some(users[id].gen);
    }

    method ResetFailedLogins(id: nat)
      modifies this`users
      ensures Now() == ResetFailures(old(Now()), id)
    {
      if id in users {
        users := users[id := users[id].(failed := 0, lockedUntil := None)];
      }
    }

    method RecordFailedLogin(id: nat)
      modifies this`users
      ensures Now() == RecordFailure(cfg, old(Now()), id)
    {
      if id in users {
        users := users[id := users[id].(failed := users[id].failed + 1)];
        if users[id].failed >= cfg.maxAttempts {
          users := users[id := users[id].(lockedUntil := Some(now + cfg.lockout))];
        }
      }
    }

    method RefreshCache(id: nat, gen: Option<nat>)
      modifies this`cache
      ensures gen.None? ==> cache == old(cache) - {id}
      ensures gen.Some? ==> cache == old(cache)[id := Entry(gen.value, now)]
    {
      match gen
      case Some(g) => cache := cache[id := Entry(g, now)];
      case None => cache := cache - {id};
    }

    // --- Tokens ---

    method IssueTokens(id: nat) returns (access: Claims, refresh: Claims)
      requires id in users
      modifies this
      ensures Now() == Issue(cfg, old(Now()), id)
      ensures access == TokenFor(old(Now()), id, old(next), Access) && access in signed
      ensures refresh == TokenFor(old(Now()), id, old(next) + 1, TokenType.Refresh) && refresh in signed
      ensures refresh.jti in sessions
    {
      var u := users[id];
      access := Claims(id, u.role, PermissionsFor(u.role), next, Access, u.gen);
      next := next + 1;
      refresh := Claims(id, u.role, PermissionsFor(u.role), next, TokenType.Refresh, u.gen);
      next := next + 1;
      signed := signed + {access, refresh};
      sessions := sessions[refresh.jti := Session(id, now + cfg.refreshTtl)];
    }

    method Login(id: nat, valid: bool) returns (r: Reply)
      requires Valid()
      modifies this
      ensures (Now(), r) == AuthStore.Login(cfg, old(Now()), id, valid)
      ensures Valid() && UsersMove(old(Now()), Now())
      ensures r.Done? <==> old(id in users && users[id].enabled && !LockedNow(Now(), users[id])) && valid
      ensures r.Done? ==> id in users && users[id].failed == 0 && users[id].lockedUntil == None
    {
      LoginKeeps(cfg, Now(), id, valid);
      SignInWhen(cfg, Now(), id, valid);
      hide Issue, RecordFailure, Inv, UsersMove;
      if id !in users { return Unauthorized; }
      var user := users[id];
      if user.lockedUntil.Some? {
        if now < user.lockedUntil.value { return Unauthorized; }
        ResetFailedLogins(id);
      }
      if !user.enabled { return Unauthorized; }
      if !valid {
        RecordFailedLogin(id);
        return Unauthorized;
      }
      ResetFailedLogins(id);
      var _, _ := IssueTokens(id);
      r := Done;
    }

    method Refresh(c: Claims) returns (r: Reply)
      requires Valid()
      modifies this
      ensures (Now(), r) == Renew(cfg, old(Now()), c)
      ensures Valid() && UsersMove(old(Now()), Now())
      ensures r.Done? <==> old(c in signed && c.kind.Refresh? && c.jti in sessions && now < sessions[c.jti].expires
                               && c.sub in users && users[c.sub].enabled)
      ensures r.Done? || r.Unauthorized?
    {
      RenewalIs(cfg, Now(), c);
      hide Issue, Inv, UsersMove;
      if c !in signed || c.kind.Access? { return Unauthorized; }
      if c.jti !in sessions || sessions[c.jti].expires <= now { return Unauthorized; }
      sessions := sessions - {c.jti};
      if c.sub !in users { return NotFound; }
      if !users[c.sub].enabled { return Unauthorized; }
      var _, _ := IssueTokens(c.sub);
      r := Done;
    }

    /** Cached or not, the answer is the generation in the database. */
    method LookupTokenGeneration(id: nat) returns (gen: Option<nat>)
      requires Valid()
      modifies this`cache
      ensures (Now(), gen) == Lookup(old(Now()), id)
      ensures Valid() && gen == if id in users then Some(users[id].gen) else None
    {
      LookupIs(Now(), id);
      hide Inv;
      if id in cache && now - cache[id].fetched < CACHE_TTL { return Some(cache[id].gen); }
      if id !in users { return None; }
      gen := Some(users[id].gen);
      RefreshCache(id, gen);
    }

    /** The cache changes no verdict: the generation in the database decides, and
        with the check enforced whoever passes is who the token says. */
    method RequireAuth(c: Claims) returns (ok: bool)
      requires Valid()
      modifies this`cache
      ensures (Now(), ok) == Authorize(cfg, old(Now()), c)
      ensures Valid() && (ok <==> Accepts(cfg, old(Now()), c))
      ensures ok && cfg.enforce ==> Current(users, c)
    {
      AuthorizeIs(cfg, Now(), c);
      hide Inv, Accepts, Current;
      if c !in signed || !c.kind.Access? { return false; }
      if cfg.enforce {
        var current := LookupTokenGeneration(c.sub);
        if current != Some(c.gen) { return false; }
      }
      ok := true;
    }

    // --- User management ---

    method CreateUser(c: Claims, role: Role, longEnough: bool, taken: bool) returns (r: Reply)
      requires Valid()
      modifies this
      ensures (Now(), r) == Create(old(Now()), c, role, longEnough, taken)
      ensures Valid() && UsersMove(old(Now()), Now())
    {
      CreateKeeps(Now(), c, role, longEnough, taken);
      hide Inv, UsersMove;
      if !May(c, "create") { return Forbidden; }
      if !ValidRole(role) { return BadRequest; }
      if RoleLevel(role) > RoleLevel(c.role) { return Forbidden; }
      if !longEnough { return BadRequest; }
      if taken { return Conflict; }
      users := users[next := User(role, true, 0, None, 0)];
      next := next + 1;
      r := Done;
    }

    method UpdateUser(c: Claims, id: nat, role: Option<Role>, enabled: Option<bool>) returns (r: Reply)
      requires Valid()
      modifies this
      ensures (Now(), r) == Update(old(Now()), c, id, role, enabled)
      ensures Valid() && UsersMove(old(Now()), Now())
    {
      UpdateKeeps(Now(), c, id, role, enabled);
      hide Inv, UsersMove;
      if !May(c, "update") { return Forbidden; }
      if role.Some? {
        if !ValidRole(role.value) { return BadRequest; }
        if RoleLevel(role.value) > RoleLevel(c.role) { return Forbidden; }
      }
      r := UpdateRow(id, role, enabled);
      if !r.Done? { return; }
      if id in users {
        RefreshCache(id, Some(users[id].gen));
      }
    }

    method DeleteUser(c: Claims, id: nat) returns (r: Reply)
      requires Valid()
      modifies this
      ensures (Now(), r) == Delete(old(Now()), c, id)
      ensures Valid() && UsersMove(old(Now()), Now())
    {
      DeleteKeeps(Now(), c, id);
      hide Inv, UsersMove;
      if !May(c, "delete") { return Forbidden; }
      if c.sub == id { return Conflict; }
      r := DeleteRow(id);
      if r.Done? {
        RefreshCache(id, None);
      }
    }

    /** Database change first, then the sessions, then the cache. */
    method ChangePassword(id: nat, longEnough: bool) returns (r: Reply)
      requires Valid()
      modifies this
      ensures (Now(), r) == SetPassword(old(Now()), id, longEnough)
      ensures Valid() && UsersMove(old(Now()), Now())
    {
      SetPasswordKeeps(Now(), id, longEnough);
      hide SessionsOfOthers, Inv, UsersMove;
      if !longEnough { return BadRequest; }
      if id !in users { return NotFound; }
      var gen := BumpTokenGeneration(id);
      sessions := SessionsOfOthers(sessions, id);
      RefreshCache(id, Some(users[id].gen));
      r := Done;
    }

    method ChangeMyPassword(id: nat, current: Option<bool>, longEnough: bool) returns (r: Reply)
      requires Valid()
      modifies this
      ensures (Now(), r) == OwnPassword(old(Now()), id, current, longEnough)
      ensures Valid() && UsersMove(old(Now()), Now())
    {
      Motionless(Now(), Now());
      hide Inv, UsersMove;
      if current.None? { return BadRequest; }
      if id !in users { return NotFound; }
      if !current.value { return Unauthorized; }
      r := ChangePassword(id, longEnough);
    }

    /** The owner is read before the session goes, and bumped after. */
    method RevokeSession(c: Claims, jti: nat) returns (r: Reply)
      requires Valid()
      modifies this
      ensures (Now(), r) == EndSession(old(Now()), c, jti)
      ensures Valid() && UsersMove(old(Now()), Now())
    {
      EndSessionKeeps(Now(), c, jti);
      hide Inv, UsersMove;
      if !May(c, "sessions") { return Forbidden; }
      var owner := if jti in sessions then Some(sessions[jti].user) else None;
      assert owner.None? ==> sessions - {jti} == sessions;
      sessions := sessions - {jti};
      if owner.Some? {
        var gen := BumpTokenGeneration(owner.value);
        if gen.Some? {
          RefreshCache(owner.value, gen);
        }
      }
      r := Done;
    }

    method RevokeUserTokens(c: Claims, id: nat) returns (r: Reply)
      requires Valid()
      modifies this
      ensures (Now(), r) == Serve(old(Now()), c, RevokeTokens(id))
      ensures Valid() && UsersMove(old(Now()), Now())
    {
      ServeKeeps(Now(), c, RevokeTokens(id));
      hide Inv, UsersMove;
      if !c.role.Admin? { return Forbidden; }
      var gen := BumpTokenGeneration(id);
      if gen.None? { return NotFound; }
      RefreshCache(id, gen);
      r := Done;
    }

    method ChangeUserPassword(c: Claims, id: nat, current: Option<bool>, longEnough: bool) returns (r: Reply)
      requires Valid()
      modifies this
      ensures (Now(), r) == Serve(old(Now()), c, AuthStore.ChangePassword(id, current, longEnough))
      ensures Valid() && UsersMove(old(Now()), Now())
      ensures r.Done? ==> if c.sub == id then current == Some(true) else c.role.Admin?
      ensures c.sub != id && !c.role.Admin? ==> r == Forbidden && Now() == old(Now())
    {
      Motionless(Now(), Now());
      hide Inv, UsersMove;
      if c.sub == id {
        r := ChangeMyPassword(id, current, longEnough);
      } else if !c.role.Admin? {
        r := Forbidden;
      } else {
        r := ChangePassword(id, longEnough);
      }
    }

    /** The handler of a request the middleware let through. */
    method Dispatch(c: Claims, req: Request) returns (r: Reply)
      requires Valid()
      modifies this
      ensures (Now(), r) == Serve(old(Now()), c, req)
      ensures Valid() && UsersMove(old(Now()), Now())
    {
      Motionless(Now(), Now());
      hide Create, Update, Delete, OwnPassword, EndSession, SetPassword, Revoke, Inv, UsersMove;
      match req
      case Visit => r := Done;
      case CreateUser(role, longEnough, taken) => r := CreateUser(c, role, longEnough, taken);
      case UpdateUser(id, role, enabled) => r := UpdateUser(c, id, role, enabled);
      case DeleteUser(id) => r := DeleteUser(c, id);
      case ChangePassword(id, current, longEnough) => r := ChangeUserPassword(c, id, current, longEnough);
      case ChangeMyPassword(current, longEnough) => r := ChangeMyPassword(c.sub, current, longEnough);
      case RevokeSession(jti) => r := RevokeSession(c, jti);
      case RevokeTokens(id) => r := RevokeUserTokens(c, id);
    }

    /** One request: the middleware, then its handler. An administrator and an
        exact cache remain; the request is carried out exactly if the token is
        accepted and its user entitled, with exactly its effect; only an enabled
        administrator changes who has an account and with what standing; and a
        user's tokens are revoked exactly if the request names that user. */
    method Handle(c: Claims, req: Request) returns (r: Reply)
      requires Valid()
      modifies this
      ensures (Now(), r) == AuthStore.Handle(cfg, old(Now()), Call(c, req))
      ensures Valid() && UsersMove(old(Now()), Now())
      ensures HasAdmin(users) && CacheExact(Now())
      ensures cfg.enforce && Standing(users) != old(Standing(users)) ==>
        c.sub in old(users) && old(ActiveAdmin(users[c.sub]))
      ensures forall id :: id in old(users) ==>
        (Moved(old(Now()), Now(), id) <==> r.Done? && Targets(old(Now()), c, req, id))
      ensures cfg.enforce ==> (r.Done? <==> Accepts(cfg, old(Now()), c) && Entitled(old(users), c.sub, req))
      ensures if r.Done? then Effect(old(Now()), Now(), c, req) else users == old(users) && sessions == old(sessions)
    {
      CallIs(cfg, Now(), c, req);
      hide Authorize, Serve, AuthStore.Handle;
      hide Inv, UsersMove, HasAdmin, CacheExact, Standing, Moved, Targets, Accepts, Current, Entitled, Effect;
      HandleIs(cfg, Now(), c, req);
      var ok := RequireAuth(c);
      if !ok { return Unauthorized; }
      r := Dispatch(c, req);
    }
  }
}
