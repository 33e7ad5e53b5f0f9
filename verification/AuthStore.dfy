/** Users, sessions, tokens and the generation cache, and what each request
    does to them (apps/snx-edge-server/src/db.rs, api/auth.rs, api/users.rs,
    state.rs). Every request is one step; password checks are inputs. */
module AuthStore {
  import opened Text
  import opened Permissions

  datatype Config = Config(refreshTtl: nat, maxAttempts: nat, lockout: nat, enforce: bool)

  datatype User = User(role: Role, enabled: bool, failed: nat, lockedUntil: Option<nat>, gen: nat)

  datatype Session = Session(user: nat, expires: nat)

  /** A cached generation and when it was fetched. */
  datatype Entry = Entry(gen: nat, fetched: nat)

  datatype TokenType = Access | Refresh

  datatype Claims = Claims(sub: nat, role: Role, permissions: seq<string>, jti: nat, kind: TokenType, gen: nat)

  /** `issued` is every token ever signed, and `next` the next identifier. */
  datatype Store = Store(
    users: map<nat, User>, sessions: map<nat, Session>, cache: map<nat, Entry>,
    issued: set<Claims>, now: nat, next: nat)

  datatype Reply = Done | BadRequest | Unauthorized | Forbidden | NotFound | Conflict

  const CACHE_TTL: nat := 30

  // --- Reading and refreshing the cache ---

  function Remember(s: Store, id: nat): Store {
    if id in s.users then s.(cache := s.cache[id := Entry(s.users[id].gen, s.now)]) else s
  }

  predicate CacheHit(s: Store, id: nat) {
    id in s.cache && s.now - s.cache[id].fetched < CACHE_TTL
  }

  /** The generation the middleware compares with, and the cache afterwards. */
  function Lookup(s: Store, id: nat): (Store, Option<nat>) {
    if CacheHit(s, id) then (s, Some(s.cache[id].gen))
    else if id in s.users then (Remember(s, id), Some(s.users[id].gen))
    else (s, None)
  }

  /** The middleware; a token that was never signed does not decode. */
  function Authorize(cfg: Config, s: Store, c: Claims): (Store, bool) {
    if c !in s.issued || c.kind.Refresh? then (s, false)
    else if !cfg.enforce then (s, true)
    else
      var (s1, gen) := Lookup(s, c.sub);
      (s1, gen == Some(c.gen))
  }

  // --- Tables ---

  predicate ActiveAdmin(u: User) {
    u.role.Admin? && u.enabled
  }

  predicate OtherAdmin(users: map<nat, User>, id: nat) {
    exists a :: a in users && a != id && ActiveAdmin(users[a])
  }

  function UpdateRow(s: Store, id: nat, role: Option<Role>, enabled: Option<bool>): (Store, Reply) {
    if id !in s.users then (s, NotFound)
    else
      var u := s.users[id];
      var newRole := if role.Some? then role.value else u.role;
      var newEnabled := if enabled.Some? then enabled.value else u.enabled;
      if u.role.Admin? && (!newRole.Admin? || !newEnabled) && !OtherAdmin(s.users, id) then (s, Conflict)
      else
        var reduced := newRole != u.role || (u.enabled && !newEnabled);
        (s.(users := s.users[id := u.(role := newRole, enabled := newEnabled,
                                      gen := u.gen + if reduced then 1 else 0)]), Done)
  }

  function SessionsOfOthers(sessions: map<nat, Session>, id: nat): map<nat, Session> {
    map j | j in sessions && sessions[j].user != id :: sessions[j]
  }

  function DeleteRow(s: Store, id: nat): (Store, Reply) {
    if !OtherAdmin(s.users, id) && id !in s.users then (s, NotFound)
    else if !OtherAdmin(s.users, id) && s.users[id].role.Admin? then (s, Conflict)
    else if id !in s.users then (s, NotFound)
    else (s.(users := s.users - {id}, sessions := SessionsOfOthers(s.sessions, id)), Done)
  }

  function Bump(s: Store, id: nat): Store {
    if id in s.users then s.(users := s.users[id := s.users[id].(gen := s.users[id].gen + 1)]) else s
  }

  function ResetFailures(s: Store, id: nat): Store {
    if id in s.users then s.(users := s.users[id := s.users[id].(failed := 0, lockedUntil := None)]) else s
  }

  function RecordFailure(cfg: Config, s: Store, id: nat): Store {
    if id !in s.users then s
    else
      var u := s.users[id].(failed := s.users[id].failed + 1);
      var u1 := if u.failed >= cfg.maxAttempts then u.(lockedUntil := Some(s.now + cfg.lockout)) else u;
      s.(users := s.users[id := u1])
  }

  // --- Signing in ---

  function TokenFor(s: Store, id: nat, jti: nat, kind: TokenType): Claims
    requires id in s.users
  {
    Claims(id, s.users[id].role, PermissionsFor(s.users[id].role), jti, kind, s.users[id].gen)
  }

  /** Signs an access and a refresh token and stores the refresh session. */
  function Issue(cfg: Config, s: Store, id: nat): Store
    requires id in s.users
  {
    s.(issued := s.issued + {TokenFor(s, id, s.next, Access), TokenFor(s, id, s.next + 1, Refresh)},
       sessions := s.sessions[s.next + 1 := Session(id, s.now + cfg.refreshTtl)],
       next := s.next + 2)
  }

  function Login(cfg: Config, s: Store, id: nat, valid: bool): (Store, Reply) {
    if id !in s.users then (s, Unauthorized)
    else if s.users[id].lockedUntil.Some? && s.now < s.users[id].lockedUntil.value then (s, Unauthorized)
    else
      var s1 := if s.users[id].lockedUntil.Some? then ResetFailures(s, id) else s;
      if !s1.users[id].enabled then (s1, Unauthorized)
      else if !valid then (RecordFailure(cfg, s1, id), Unauthorized)
      else (Issue(cfg, ResetFailures(s1, id), id), Done)
  }

  function Renew(cfg: Config, s: Store, c: Claims): (Store, Reply) {
    if c !in s.issued || c.kind.Access? then (s, Unauthorized)
    else if c.jti !in s.sessions || s.sessions[c.jti].expires <= s.now then (s, Unauthorized)
    else
      var s1 := s.(sessions := s.sessions - {c.jti});
      if c.sub !in s1.users then (s1, NotFound)
      else if !s1.users[c.sub].enabled then (s1, Unauthorized)
      else (Issue(cfg, s1, c.sub), Done)
  }

  // --- Requests behind the middleware ---

  /** `current` is whether the current password was given and whether it was
      right, `taken` whether the user name is in use. */
  datatype Request =
    | Visit
    | CreateUser(role: Role, longEnough: bool, taken: bool)
    | UpdateUser(id: nat, newRole: Option<Role>, enabled: Option<bool>)
    | DeleteUser(id: nat)
    | ChangePassword(id: nat, current: Option<bool>, longEnough: bool)
    | ChangeMyPassword(current: Option<bool>, longEnough: bool)
    | RevokeSession(jti: nat)
    | RevokeTokens(id: nat)

  predicate May(c: Claims, action: string) {
    HasPermission(c.permissions, "users." + action)
  }

  function Create(s: Store, c: Claims, role: Role, longEnough: bool, taken: bool): (Store, Reply) {
    if !May(c, "create") then (s, Forbidden)
    else if !ValidRole(role) then (s, BadRequest)
    else if RoleLevel(role) > RoleLevel(c.role) then (s, Forbidden)
    else if !longEnough then (s, BadRequest)
    else if taken then (s, Conflict)
    else (s.(users := s.users[s.next := User(role, true, 0, None, 0)], next := s.next + 1), Done)
  }

  function Update(s: Store, c: Claims, id: nat, role: Option<Role>, enabled: Option<bool>): (Store, Reply) {
    if !May(c, "update") then (s, Forbidden)
    else if role.Some? && !ValidRole(role.value) then (s, BadRequest)
    else if role.Some? && RoleLevel(role.value) > RoleLevel(c.role) then (s, Forbidden)
    else
      var (s1, r) := UpdateRow(s, id, role, enabled);
      if r.Done? then (Remember(s1, id), Done) else (s1, r)
  }

  function Delete(s: Store, c: Claims, id: nat): (Store, Reply) {
    if !May(c, "delete") then (s, Forbidden)
    else if c.sub == id then (s, Conflict)
    else
      var (s1, r) := DeleteRow(s, id);
      if r.Done? then (s1.(cache := s1.cache - {id}), Done) else (s1, r)
  }

  /** Raises the generation and shows it to the cache. */
  function Revoke(s: Store, id: nat): Store {
    if id in s.users then Remember(Bump(s, id), id) else s
  }

  function SetPassword(s: Store, id: nat, longEnough: bool): (Store, Reply) {
    if !longEnough then (s, BadRequest)
    else if id !in s.users then (s, NotFound)
    else (Revoke(s.(sessions := SessionsOfOthers(s.sessions, id)), id), Done)
  }

  function OwnPassword(s: Store, id: nat, current: Option<bool>, longEnough: bool): (Store, Reply) {
    if current.None? then (s, BadRequest)
    else if id !in s.users then (s, NotFound)
    else if !current.value then (s, Unauthorized)
    else SetPassword(s, id, longEnough)
  }

  function EndSession(s: Store, c: Claims, jti: nat): (Store, Reply) {
    if !May(c, "sessions") then (s, Forbidden)
    else if jti !in s.sessions then (s, Done)
    else (Revoke(s.(sessions := s.sessions - {jti}), s.sessions[jti].user), Done)
  }

  function Serve(s: Store, c: Claims, req: Request): (Store, Reply) {
    match req
    case Visit => (s, Done)
    case CreateUser(role, longEnough, taken) => Create(s, c, role, longEnough, taken)
    case UpdateUser(id, role, enabled) => Update(s, c, id, role, enabled)
    case DeleteUser(id) => Delete(s, c, id)
    case ChangePassword(id, current, longEnough) =>
      if c.sub == id then OwnPassword(s, id, current, longEnough)
      else if !c.role.Admin? then (s, Forbidden)
      else SetPassword(s, id, longEnough)
    case ChangeMyPassword(current, longEnough) => OwnPassword(s, c.sub, current, longEnough)
    case RevokeSession(jti) => EndSession(s, c, jti)
    case RevokeTokens(id) =>
      if !c.role.Admin? then (s, Forbidden)
      else if id !in s.users then (s, NotFound)
      else (Revoke(s, id), Done)
  }

  // --- Runs ---

  datatype Step =
    | SignIn(id: nat, valid: bool)
    | Renewal(c: Claims)
    | Call(c: Claims, req: Request)
    | Elapse(d: nat)
    | Cleanup
    | Restart

  function Handle(cfg: Config, s: Store, step: Step): (Store, Reply) {
    match step
    case SignIn(id, valid) => Login(cfg, s, id, valid)
    case Renewal(c) => Renew(cfg, s, c)
    case Call(c, req) =>
      var (s1, ok) := Authorize(cfg, s, c);
      if ok then Serve(s1, c, req) else (s1, Unauthorized)
    case Elapse(d) => (s.(now := s.now + d), Done)
    case Cleanup => (s.(sessions := map j | j in s.sessions && s.sessions[j].expires >= s.now :: s.sessions[j]), Done)
    case Restart => (s.(cache := map[]), Done)
  }

  /** The store `ensure_admin_exists` leaves on first start. */
  const FIRST: Store := Store(map[0 := User(Admin, true, 0, None, 0)], map[], map[], {}, 0, 1)

  function Run(cfg: Config, s: Store, steps: seq<Step>): Store {
    if steps == [] then s
    else
      var n := |steps| - 1;
      Handle(cfg, Run(cfg, s, steps[..n]), steps[n]).0
  }
}
