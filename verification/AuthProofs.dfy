/** What the authentication state keeps over every run: privileges named by a
    live token are current, the cache never disagrees with the database, an
    administrator always remains, and revocation is final
    (apps/snx-edge-server/src/db.rs, api/auth.rs, api/users.rs). */
module AuthProofs {
  import opened Text
  import opened Permissions
  import opened AuthStore

  // --- The invariant ---

  predicate Known(s: Store) {
    && (forall id :: id in s.users ==> id < s.next)
    && (forall j :: j in s.sessions ==> j < s.next && s.sessions[j].user in s.users)
    && (forall c :: c in s.issued ==> c.jti < s.next && c.sub < s.next)
    && (forall c :: c in s.issued && c.kind.Refresh? && c.jti in s.sessions ==> s.sessions[c.jti].user == c.sub)
  }

  predicate HasAdmin(users: map<nat, User>) {
    exists a :: a in users && ActiveAdmin(users[a])
  }

  predicate CacheExact(s: Store) {
    forall id :: id in s.cache ==> id in s.users && s.cache[id].gen == s.users[id].gen
  }

  /** The token speaks for the user as the user is now. */
  predicate Current(users: map<nat, User>, c: Claims) {
    && c.sub in users && users[c.sub].enabled
    && c.role == users[c.sub].role && c.permissions == PermissionsFor(users[c.sub].role)
  }

  /** A token is not ahead of its user's generation, and current if level with it. */
  predicate Tracks(users: map<nat, User>, c: Claims) {
    c.sub in users ==> c.gen <= users[c.sub].gen && (c.gen == users[c.sub].gen ==> Current(users, c))
  }

  predicate TokensTrack(s: Store) {
    forall c :: c in s.issued ==> Tracks(s.users, c)
  }

  predicate Inv(s: Store) {
    Known(s) && HasAdmin(s.users) && CacheExact(s) && TokensTrack(s)
  }

  // --- How a row may change ---

  /** Generations never fall, and a row whose generation stays keeps the role
      and stays enabled if it was. */
  predicate RowMoves(u: User, v: User) {
    && u.gen <= v.gen
    && (u.gen == v.gen ==> u.role == v.role && (u.enabled ==> v.enabled))
  }

  /** Rows move as above, and an identifier gone or not yet used is not reused:
      every new row is numbered from `s.next` on. */
  predicate UsersMove(s: Store, t: Store) {
    && s.next <= t.next
    && forall id :: id in t.users ==> if id in s.users then RowMoves(s.users[id], t.users[id]) else s.next <= id
  }

  lemma MoveTwice(s: Store, t: Store, v: Store)
    requires UsersMove(s, t) && UsersMove(t, v) && Known(s) && Known(t)
    ensures UsersMove(s, v)
  {
    forall id | id in v.users
      ensures if id in s.users then RowMoves(s.users[id], v.users[id]) else s.next <= id
    {
      if id in t.users { assert id in s.users || s.next <= id; }
    }
  }

  lemma TracksStill(s: Store, t: Store)
    requires Known(s) && TokensTrack(s) && UsersMove(s, t)
    ensures forall c :: c in s.issued ==> Tracks(t.users, c)
  {
    forall c | c in s.issued ensures Tracks(t.users, c) {
      if c.sub in t.users && c.sub in s.users {
        assert RowMoves(s.users[c.sub], t.users[c.sub]);
      }
    }
  }

  // --- One lemma for each way the tables change ---

  lemma RememberKeeps(s: Store, id: nat)
    requires Known(s) && HasAdmin(s.users) && TokensTrack(s)
    requires forall x :: x in s.cache && x != id ==> x in s.users && s.cache[x].gen == s.users[x].gen
    requires id in s.users
    ensures Inv(Remember(s, id)) && Remember(s, id).users == s.users
  {
  }

  lemma AuthorizeKeeps(cfg: Config, s: Store, c: Claims)
    requires Inv(s)
    ensures var (s1, ok) := Authorize(cfg, s, c); Inv(s1) && s1 == s.(cache := s1.cache)
  {
    if c.sub in s.users { RememberKeeps(s, c.sub); }
  }

  /** Writing one row: the parts of the invariant that survive, except the
      cache entry for that row. */
  lemma RowKeeps(s: Store, id: nat, u: User)
    requires Inv(s) && id in s.users && RowMoves(s.users[id], u)
    requires ActiveAdmin(s.users[id]) && !ActiveAdmin(u) ==> OtherAdmin(s.users, id)
    ensures var t := s.(users := s.users[id := u]);
      && Known(t) && HasAdmin(t.users) && TokensTrack(t) && UsersMove(s, t)
      && (forall x :: x in t.cache && x != id ==> x in t.users && t.cache[x].gen == t.users[x].gen)
      && (u.gen == s.users[id].gen ==> Inv(t))
  {
    hide Tracks, ActiveAdmin, HasAdmin, OtherAdmin;
    var t := s.(users := s.users[id := u]);
    assert UsersMove(s, t) by {
      hide Known;
      assert RowMoves(u, u);
    }
    TracksStill(s, t);
    AdminAfterWrite(s.users, id, u);
  }

  lemma AdminAfterWrite(users: map<nat, User>, id: nat, u: User)
    requires HasAdmin(users) && id in users
    requires ActiveAdmin(users[id]) && !ActiveAdmin(u) ==> OtherAdmin(users, id)
    ensures HasAdmin(users[id := u])
  {
    hide ActiveAdmin;
    var a :| a in users && ActiveAdmin(users[a]);
    if OtherAdmin(users, id) {
      var b :| b in users && b != id && ActiveAdmin(users[b]);
      assert b in users[id := u] && ActiveAdmin(users[id := u][b]);
    } else {
      assert a in users[id := u] && ActiveAdmin(users[id := u][a]);
    }
  }

  lemma AdminAfterDelete(users: map<nat, User>, id: nat)
    requires OtherAdmin(users, id)
    ensures HasAdmin(users - {id})
  {
    hide ActiveAdmin;
    var b :| b in users && b != id && ActiveAdmin(users[b]);
    assert b in users - {id} && ActiveAdmin((users - {id})[b]);
  }

  /** With an administrator about, only that administrator's row can leave no
      other. */
  lemma AdminElsewhere(users: map<nat, User>, id: nat)
    requires HasAdmin(users) && (id in users ==> !users[id].role.Admin?)
    ensures OtherAdmin(users, id)
  {
    var a :| a in users && ActiveAdmin(users[a]);
    assert a != id;
  }

  lemma ResetKeeps(s: Store, id: nat)
    requires Inv(s)
    ensures Inv(ResetFailures(s, id)) && UsersMove(s, ResetFailures(s, id))
  {
    if id in s.users { RowKeeps(s, id, s.users[id].(failed := 0, lockedUntil := None)); }
  }

  lemma RecordKeeps(cfg: Config, s: Store, id: nat)
    requires Inv(s)
    ensures Inv(RecordFailure(cfg, s, id)) && UsersMove(s, RecordFailure(cfg, s, id))
  {
    if id in s.users { RowKeeps(s, id, RecordFailure(cfg, s, id).users[id]); }
  }

  lemma FewerSessionsKeep(s: Store, sessions: map<nat, Session>)
    requires Inv(s) && sessions.Keys <= s.sessions.Keys
    requires forall j :: j in sessions ==> sessions[j] == s.sessions[j]
    ensures Inv(s.(sessions := sessions))
  {
  }

  lemma IssueKeeps(cfg: Config, s: Store, id: nat)
    requires Inv(s) && id in s.users && s.users[id].enabled
    ensures Inv(Issue(cfg, s, id)) && UsersMove(s, Issue(cfg, s, id))
  {
    var t := Issue(cfg, s, id);
    var (a, r) := (TokenFor(s, id, s.next, Access), TokenFor(s, id, s.next + 1, Refresh));
    assert Tracks(t.users, a) && Tracks(t.users, r);
    hide TokenFor, Tracks;
    assert t.issued == s.issued + {a, r};
  }

  lemma LoginKeeps(cfg: Config, s: Store, id: nat, valid: bool)
    requires Inv(s)
    ensures Inv(Login(cfg, s, id, valid).0) && UsersMove(s, Login(cfg, s, id, valid).0)
  {
    hide Inv, UsersMove, Issue, RecordFailure;
    ResetKeeps(s, id);
    var s1 := ResetFailures(s, id);
    ResetKeeps(s1, id);
    Motionless(s, s);
    var from := if id in s.users && s.users[id].lockedUntil.Some? then s1 else s;
    RecordKeeps(cfg, from, id);
    if id in s.users && s.users[id].enabled {
      ResetKeeps(from, id);
      IssueKeeps(cfg, ResetFailures(from, id), id);
      MoveTwiceInv(s, from, ResetFailures(from, id));
      MoveTwiceInv(s, ResetFailures(from, id), Issue(cfg, ResetFailures(from, id), id));
    }
    MoveTwiceInv(s, from, RecordFailure(cfg, from, id));
  }

  lemma MoveTwiceInv(s: Store, t: Store, v: Store)
    requires Inv(s) && Inv(t) && UsersMove(s, t) && UsersMove(t, v)
    ensures UsersMove(s, v)
  {
    MoveTwice(s, t, v);
  }

  lemma Motionless(s: Store, t: Store)
    requires Inv(s) && t.users == s.users && t.next == s.next
    ensures UsersMove(s, t)
  {
  }

  lemma RenewKeeps(cfg: Config, s: Store, c: Claims)
    requires Inv(s)
    ensures Inv(Renew(cfg, s, c).0) && UsersMove(s, Renew(cfg, s, c).0)
  {
    hide UsersMove, Issue;
    var s1 := s.(sessions := s.sessions - {c.jti});
    FewerSessionsKeep(s, s1.sessions);
    Motionless(s, s);
    Motionless(s, s1);
    if c.sub in s1.users && s1.users[c.sub].enabled {
      IssueKeeps(cfg, s1, c.sub);
      MoveTwiceInv(s, s1, Issue(cfg, s1, c.sub));
    }
  }

  lemma CreateKeeps(s: Store, c: Claims, role: Role, longEnough: bool, taken: bool)
    requires Inv(s)
    ensures var t := Create(s, c, role, longEnough, taken).0; Inv(t) && UsersMove(s, t)
  {
    hide May, RoleLevel, Tracks, ActiveAdmin, HasAdmin;
    var t := Create(s, c, role, longEnough, taken).0;
    if t == s {
      Motionless(s, t);
    } else {
      assert UsersMove(s, t);
      TracksStill(s, t);
      AdminAfterCreate(s.users, s.next, t.users[s.next]);
    }
  }

  lemma AdminAfterCreate(users: map<nat, User>, id: nat, u: User)
    requires HasAdmin(users) && id !in users
    ensures HasAdmin(users[id := u])
  {
    hide ActiveAdmin;
    var a :| a in users && ActiveAdmin(users[a]);
    assert a in users[id := u] && ActiveAdmin(users[id := u][a]);
  }

  /** Writing one row and then refreshing its cache entry. */
  lemma WriteKeeps(s: Store, id: nat, u: User)
    requires Inv(s) && id in s.users && RowMoves(s.users[id], u)
    requires ActiveAdmin(s.users[id]) && !ActiveAdmin(u) ==> OtherAdmin(s.users, id)
    ensures var t := Remember(s.(users := s.users[id := u]), id); Inv(t) && UsersMove(s, t)
  {
    RowKeeps(s, id, u);
    RememberKeeps(s.(users := s.users[id := u]), id);
  }

  lemma UpdateKeeps(s: Store, c: Claims, id: nat, role: Option<Role>, enabled: Option<bool>)
    requires Inv(s)
    ensures var t := Update(s, c, id, role, enabled).0; Inv(t) && UsersMove(s, t)
  {
    hide May, RoleLevel, Inv, UsersMove, OtherAdmin;
    Motionless(s, s);
    var (s1, r) := UpdateRow(s, id, role, enabled);
    if r.Done? {
      WriteKeeps(s, id, s1.users[id]);
    }
  }

  lemma DeleteKeeps(s: Store, c: Claims, id: nat)
    requires Inv(s)
    ensures var t := Delete(s, c, id).0; Inv(t) && UsersMove(s, t)
  {
    hide May, Tracks, ActiveAdmin, HasAdmin, OtherAdmin;
    var t := Delete(s, c, id).0;
    if id !in s.users || !s.users[id].role.Admin? { AdminElsewhere(s.users, id); }
    if t == s {
      Motionless(s, t);
    } else {
      assert UsersMove(s, t);
      TracksStill(s, t);
      AdminAfterDelete(s.users, id);
    }
  }

  lemma RevokeKeeps(s: Store, id: nat)
    requires Inv(s)
    ensures Inv(Revoke(s, id)) && UsersMove(s, Revoke(s, id))
  {
    hide Inv, UsersMove, OtherAdmin;
    Motionless(s, s);
    if id in s.users { WriteKeeps(s, id, s.users[id].(gen := s.users[id].gen + 1)); }
  }

  lemma SetPasswordKeeps(s: Store, id: nat, longEnough: bool)
    requires Inv(s)
    ensures var t := SetPassword(s, id, longEnough).0; Inv(t) && UsersMove(s, t)
  {
    hide Inv, UsersMove, Revoke, SessionsOfOthers;
    Motionless(s, s);
    var s1 := s.(sessions := SessionsOfOthers(s.sessions, id));
    OthersAreSome(s, id);
    RevokeKeeps(s1, id);
    Motionless(s, s1);
    MoveTwiceInv(s, s1, Revoke(s1, id));
  }

  lemma OthersAreSome(s: Store, id: nat)
    requires Inv(s)
    ensures Inv(s.(sessions := SessionsOfOthers(s.sessions, id)))
  {
    FewerSessionsKeep(s, SessionsOfOthers(s.sessions, id));
  }

  lemma EndSessionKeeps(s: Store, c: Claims, jti: nat)
    requires Inv(s)
    ensures var t := EndSession(s, c, jti).0; Inv(t) && UsersMove(s, t)
  {
    hide UsersMove, May, Revoke;
    Motionless(s, s);
    if jti in s.sessions {
      var s1 := s.(sessions := s.sessions - {jti});
      FewerSessionsKeep(s, s1.sessions);
      RevokeKeeps(s1, s.sessions[jti].user);
      Motionless(s, s1);
      MoveTwiceInv(s, s1, Revoke(s1, s.sessions[jti].user));
    }
  }

  lemma ServeKeeps(s: Store, c: Claims, req: Request)
    requires Inv(s)
    ensures Inv(Serve(s, c, req).0) && UsersMove(s, Serve(s, c, req).0)
  {
    hide Inv, UsersMove, Create, Update, Delete, SetPassword, Revoke, EndSession;
    Motionless(s, s);
    match req
    case Visit =>
    case CreateUser(role, longEnough, taken) => CreateKeeps(s, c, role, longEnough, taken);
    case UpdateUser(id, role, enabled) => UpdateKeeps(s, c, id, role, enabled);
    case DeleteUser(id) => DeleteKeeps(s, c, id);
    case ChangePassword(id, current, longEnough) => SetPasswordKeeps(s, id, longEnough);
    case ChangeMyPassword(current, longEnough) => SetPasswordKeeps(s, c.sub, longEnough);
    case RevokeSession(jti) => EndSessionKeeps(s, c, jti);
    case RevokeTokens(id) => RevokeKeeps(s, id);
  }

  lemma HandleKeeps(cfg: Config, s: Store, step: Step)
    requires Inv(s)
    ensures Inv(Handle(cfg, s, step).0) && UsersMove(s, Handle(cfg, s, step).0)
  {
    hide UsersMove, Login, Renew, Serve, Authorize;
    match step
    case SignIn(id, valid) => LoginKeeps(cfg, s, id, valid);
    case Renewal(c) => RenewKeeps(cfg, s, c);
    case Call(c, req) =>
      AuthorizeKeeps(cfg, s, c);
      var s1 := Authorize(cfg, s, c).0;
      Motionless(s, s1);
      ServeKeeps(s1, c, req);
      MoveTwiceInv(s, s1, Serve(s1, c, req).0);
    case _ => Motionless(s, Handle(cfg, s, step).0);
  }

  // --- Over whole runs ---

  /** The invariant holds after every run from a state that has it, and users
      only ever move forward: no generation falls and no identifier returns. */
  lemma {:induction false} RunKeeps(cfg: Config, s: Store, steps: seq<Step>)
    requires Inv(s)
    ensures Inv(Run(cfg, s, steps)) && UsersMove(s, Run(cfg, s, steps))
  {
    hide Inv, UsersMove, Handle;
    if steps == [] {
      Motionless(s, s);
    } else {
      var n := |steps| - 1;
      RunKeeps(cfg, s, steps[..n]);
      var t := Run(cfg, s, steps[..n]);
      HandleKeeps(cfg, t, steps[n]);
      MoveTwiceInv(s, t, Handle(cfg, t, steps[n]).0);
    }
  }

  /** A first start satisfies the invariant. */
  lemma FirstStart()
    ensures Inv(FIRST)
  {
    assert 0 in FIRST.users && ActiveAdmin(FIRST.users[0]);
  }
}
