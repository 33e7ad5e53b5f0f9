/** Sign-ins and renewals of one user among concurrent requests: the steps
    between reading the session or the user and handing out tokens
    (apps/snx-edge-server/src/api/auth.rs, db.rs). */
module IssueRace {
  import opened Text
  import opened Permissions

  datatype Row = Row(role: Role, enabled: bool, gen: nat)

  /** What a pair of tokens says, and the session of its refresh token. */
  datatype Token = Token(role: Role, gen: nat, jti: nat)

  /** A renewal that found its session, one that has deleted it, a request that
      has read the user, and one that has signed and is to store its session. */
  datatype Pc = Idle | Checked(jti: nat) | Consumed | Vouched(role: Role) | Stamped(token: Token)

  /** `live` are the user's sessions, `issued` the tokens handed out. */
  datatype System = System(row: Option<Row>, live: set<nat>, tasks: seq<Pc>, next: nat, issued: seq<Token>)

  datatype Move =
    | SignIn(t: nat)
    | Check(t: nat, jti: nat)
    | Consume(t: nat)
    | ReadUser(t: nat)
    | Stamp(t: nat)
    | Create(t: nat)
    | Write(role: Role, enabled: bool)
    | Raise
    | DropAll
    | Drop(jti: nat)
    | Remove

  predicate Enabled(c: System, move: Move) {
    match move
    case SignIn(t) => t < |c.tasks| && c.tasks[t].Idle?
    case Check(t, _) => t < |c.tasks| && c.tasks[t].Idle?
    case Consume(t) => t < |c.tasks| && c.tasks[t].Checked?
    case ReadUser(t) => t < |c.tasks| && c.tasks[t].Consumed?
    case Stamp(t) => t < |c.tasks| && c.tasks[t].Vouched?
    case Create(t) => t < |c.tasks| && c.tasks[t].Stamped?
    case Write(_, _) | Raise => c.row.Some?
    case DropAll | Drop(_) | Remove => true
  }

  function At(c: System, t: nat, pc: Pc): System
    requires t < |c.tasks|
  {
    c.(tasks := c.tasks[t := pc])
  }

  /** An enabled user vouches for the role the row has now. */
  function Vouch(row: Option<Row>): Pc {
    if row.Some? && row.value.enabled then Vouched(row.value.role) else Idle
  }

  /** A change of role or a disabling raises the generation. */
  function Written(r: Row, role: Role, enabled: bool): Row {
    Row(role, enabled, if role != r.role || (r.enabled && !enabled) then r.gen + 1 else r.gen)
  }

  /** Deleting a session that is gone is no error; storing one for a user who is
      gone is, and then nothing is handed out. */
  function Step(c: System, move: Move): System
    requires Enabled(c, move)
  {
    match move
    case SignIn(t) => At(c, t, Vouch(c.row))
    case Check(t, jti) => At(c, t, if jti in c.live then Checked(jti) else Idle)
    case Consume(t) => At(c, t, Consumed).(live := c.live - {c.tasks[t].jti})
    case ReadUser(t) => At(c, t, Vouch(c.row))
    case Stamp(t) =>
      if c.row.None? then At(c, t, Idle)
      else At(c, t, Stamped(Token(c.tasks[t].role, c.row.value.gen, c.next))).(next := c.next + 1)
    case Create(t) =>
      var token := c.tasks[t].token;
      if c.row.None? then At(c, t, Idle)
      else At(c, t, Idle).(live := c.live + {token.jti}, issued := c.issued + [token])
    case Write(role, enabled) => c.(row := Some(Written(c.row.value, role, enabled)))
    case Raise => c.(row := Some(c.row.value.(gen := c.row.value.gen + 1)))
    case DropAll => c.(live := {})
    case Drop(jti) => c.(live := c.live - {jti})
    case Remove => c.(row := None, live := {})
  }

  /** The generation moves exactly with the privileges: another role, or the user
      disabled. */
  lemma RaisedWhen(c: System, role: Role, enabled: bool)
    requires c.row.Some?
    ensures var (r, row) := (c.row.value, Step(c, Write(role, enabled)).row);
      && row.Some? && row.value.role == role && row.value.enabled == enabled
      && row.value.gen == if role != r.role || (r.enabled && !enabled) then r.gen + 1 else r.gen
  {
  }

  ghost predicate Possible(c: System, moves: seq<Move>)
    decreases |moves|, 0
  {
    moves == [] ||
      var n := |moves| - 1;
      Possible(c, moves[..n]) && Enabled(After(c, moves[..n]), moves[n])
  }

  ghost function After(c: System, moves: seq<Move>): System
    requires Possible(c, moves)
    decreases |moves|, 1
  {
    if moves == [] then c
    else
      var n := |moves| - 1;
      Step(After(c, moves[..n]), moves[n])
  }

  lemma Begin(c: System)
    ensures Possible(c, []) && After(c, []) == c
  {
  }

  lemma LastMove(c: System, moves: seq<Move>, move: Move)
    requires Possible(c, moves + [move])
    ensures Possible(c, moves) && Enabled(After(c, moves), move)
    ensures After(c, moves + [move]) == Step(After(c, moves), move)
  {
    assert (moves + [move])[..|moves|] == moves;
  }

  lemma Extend(c: System, moves: seq<Move>, move: Move) returns (longer: seq<Move>)
    requires Possible(c, moves) && Enabled(After(c, moves), move)
    ensures Possible(c, longer) && After(c, longer) == Step(After(c, moves), move)
  {
    longer := moves + [move];
    assert longer[..|moves|] == moves;
  }

  // --- How long a session lives ---

  /** The identifier is in use and nobody is about to store it. */
  ghost predicate Known(c: System, jti: nat) {
    jti < c.next && forall t :: 0 <= t < |c.tasks| && c.tasks[t].Stamped? ==> c.tasks[t].token.jti != jti
  }

  predicate Removes(c: System, move: Move, jti: nat)
    requires Enabled(c, move)
  {
    match move
    case Consume(t) => c.tasks[t].jti == jti
    case DropAll | Remove => true
    case Drop(x) => x == jti
    case _ => false
  }

  ghost predicate NoRemoval(c: System, moves: seq<Move>, jti: nat)
    requires Possible(c, moves)
    decreases |moves|
  {
    moves == [] ||
      var n := |moves| - 1;
      NoRemoval(c, moves[..n], jti) && !Removes(After(c, moves[..n]), moves[n], jti)
  }

  lemma StepLives(c: System, move: Move, jti: nat)
    requires Enabled(c, move) && Known(c, jti)
    ensures Known(Step(c, move), jti)
    ensures jti in Step(c, move).live <==> jti in c.live && !Removes(c, move, jti)
  {
  }

  /** A session is there until it is first removed, and does not come back. */
  lemma {:induction false} LivesWhile(c: System, moves: seq<Move>, jti: nat)
    requires Known(c, jti) && jti in c.live && Possible(c, moves)
    ensures Known(After(c, moves), jti)
    ensures jti in After(c, moves).live <==> NoRemoval(c, moves, jti)
  {
    if moves == [] {
    } else {
      var n := |moves| - 1;
      LivesWhile(c, moves[..n], jti);
      hide Known, Step, Removes;
      StepLives(After(c, moves[..n]), moves[n], jti);
    }
  }

  /** A deleted user has no session, gets none and is handed nothing, whatever was
      under way. */
  lemma {:induction false} RemovedForGood(c: System, moves: seq<Move>)
    requires Possible(Step(c, Remove), moves)
    ensures var c' := After(Step(c, Remove), moves); c'.row == None && c'.live == {} && c'.issued == c.issued
  {
    if moves == [] {
    } else {
      RemovedForGood(c, moves[..|moves| - 1]);
      hide Vouch, Written;
    }
  }

  // --- One refresh token, two renewals ---

  /** Two renewals with the same refresh token both get past the session check
      exactly if nothing has removed the session when the second one checks, so
      that both checks come before the first deletion. */
  lemma BothRenewWhen(c: System, a: seq<Move>, t: nat, b: seq<Move>, u: nat, jti: nat)
    requires Known(c, jti) && jti in c.live
    requires Possible(c, a + [Check(t, jti)] + b + [Check(u, jti)])
    ensures Possible(c, a + [Check(t, jti)]) && Possible(c, a + [Check(t, jti)] + b)
    ensures var first := After(c, a + [Check(t, jti)]);
      var second := After(c, a + [Check(t, jti)] + b + [Check(u, jti)]);
      first.tasks[t] == Checked(jti) && second.tasks[u] == Checked(jti) <==> NoRemoval(c, a + [Check(t, jti)] + b, jti)
  {
    var first := a + [Check(t, jti)];
    hide After, Possible, NoRemoval, Known;
    LastMove(c, first + b, Check(u, jti));
    LivesWhile(c, first + b, jti);
    PrefixLives(c, first, b, jti);
    LastMove(c, a, Check(t, jti));
    LivesWhile(c, first, jti);
  }

  lemma {:induction false} PrefixLives(c: System, a: seq<Move>, b: seq<Move>, jti: nat)
    requires Possible(c, a + b)
    ensures Possible(c, a) && (NoRemoval(c, a + b, jti) ==> NoRemoval(c, a, jti))
    decreases |b|
  {
    if b == [] {
      assert a + b == a;
    } else {
      var n := |b| - 1;
      assert (a + b)[..|a| + n] == a + b[..n];
      PrefixLives(c, a, b[..n], jti);
    }
  }

  /** A renewal that deletes its session before anyone else moves is the only one. */
  lemma AtOnceRenewsOnce(c: System, a: seq<Move>, t: nat, b: seq<Move>, u: nat, jti: nat)
    requires Known(c, jti) && jti in c.live
    requires Possible(c, a + [Check(t, jti)] + ([Consume(t)] + b) + [Check(u, jti)])
    ensures After(c, a + [Check(t, jti)] + ([Consume(t)] + b) + [Check(u, jti)]).tasks[u] != Checked(jti)
  {
    BothRenewWhen(c, a, t, [Consume(t)] + b, u, jti);
    var first := a + [Check(t, jti)];
    assert first + ([Consume(t)] + b) == (first + [Consume(t)]) + b;
    hide After, Possible, NoRemoval, Known;
    LastMove(c, first + ([Consume(t)] + b), Check(u, jti));
    PrefixLives(c, first + [Consume(t)], b, jti);
    LastMove(c, first, Consume(t));
    LastMove(c, a, Check(t, jti));
    LivesWhile(c, first + [Consume(t)], jti);
    LivesWhile(c, first + ([Consume(t)] + b), jti);
  }

  const ONE := System(Some(Row(Admin, true, 0)), {0}, [Idle, Idle], 1, [])

  /** One refresh token renewed by two requests at once: two pairs of tokens and
      two sessions come of it. */
  lemma RenewedTwice() returns (moves: seq<Move>)
    ensures Possible(ONE, moves)
    ensures After(ONE, moves).issued == [Token(Admin, 0, 1), Token(Admin, 0, 2)] && After(ONE, moves).live == {1, 2}
  {
    Begin(ONE);
    hide Possible, After;
    moves := Extend(ONE, [], Check(0, 0));
    moves := Extend(ONE, moves, Check(1, 0));
    moves := Extend(ONE, moves, Consume(0));
    moves := Extend(ONE, moves, Consume(1));
    moves := Extend(ONE, moves, ReadUser(0));
    moves := Extend(ONE, moves, ReadUser(1));
    moves := Extend(ONE, moves, Stamp(0));
    moves := Extend(ONE, moves, Stamp(1));
    moves := Extend(ONE, moves, Create(0));
    moves := Extend(ONE, moves, Create(1));
  }

  // --- A role read before it is stamped ---

  /** How a row may change: the generation does not fall, and while it stays the
      role stays and an enabled user stays enabled. */
  predicate RowMoves(r: Option<Row>, s: Option<Row>) {
    s.Some? ==>
      && r.Some? && r.value.gen <= s.value.gen
      && (r.value.gen == s.value.gen ==> r.value.role == s.value.role && (r.value.enabled ==> s.value.enabled))
  }

  lemma {:induction false} RowOnlyMoves(c: System, moves: seq<Move>)
    requires Possible(c, moves)
    ensures RowMoves(c.row, After(c, moves).row)
  {
    if moves == [] {
    } else {
      RowOnlyMoves(c, moves[..|moves| - 1]);
    }
  }

  predicate By(move: Move, t: nat) {
    match move
    case SignIn(u) => u == t
    case Check(u, _) => u == t
    case Consume(u) => u == t
    case ReadUser(u) => u == t
    case Stamp(u) => u == t
    case Create(u) => u == t
    case _ => false
  }

  ghost predicate Leaves(moves: seq<Move>, t: nat) {
    forall m :: m in moves ==> !By(m, t)
  }

  lemma {:induction false} TaskStays(c: System, moves: seq<Move>, t: nat)
    requires Possible(c, moves) && t < |c.tasks| && Leaves(moves, t)
    ensures |After(c, moves).tasks| == |c.tasks| && After(c, moves).tasks[t] == c.tasks[t]
  {
    if moves == [] {
    } else {
      var n := |moves| - 1;
      assert moves[n] in moves;
      TaskStays(c, moves[..n], t);
      hide Vouch, Written;
    }
  }

  /** The middleware lets the token in, though the user is disabled or has
      another role than it says. */
  predicate Outdated(row: Option<Row>, token: Token) {
    row.Some? && row.value.gen == token.gen && !(row.value.enabled && row.value.role == token.role)
  }

  /** A request vouches for the user's role at `c`, others move, it signs, and
      anything follows. Its tokens are let in without being true exactly while the
      generation is the one they were signed with, and the role was changed
      between vouching and signing, or the user disabled and not enabled again. */
  lemma OutdatedWhen(c: System, t: nat, between: seq<Move>, later: seq<Move>)
    requires t < |c.tasks| && c.row.Some? && c.row.value.enabled && c.tasks[t] == Vouched(c.row.value.role)
    requires Possible(c, between) && Leaves(between, t) && After(c, between).row.Some?
    ensures Enabled(After(c, between), Stamp(t))
    ensures var c1 := After(c, between);
      var signed := Step(c1, Stamp(t));
      && signed.tasks[t].Stamped?
      && (Possible(signed, later) ==>
            var row := After(signed, later).row;
            Outdated(row, signed.tasks[t].token) <==>
              && row.Some? && row.value.gen == c1.row.value.gen
              && (c1.row.value.role != c.row.value.role || !row.value.enabled))
  {
    var c1 := After(c, between);
    TaskStays(c, between, t);
    var signed := Step(c1, Stamp(t));
    if Possible(signed, later) { RowOnlyMoves(signed, later); }
    hide After, Possible, Leaves;
  }

  /** So a request during which the generation stayed hands out true tokens. */
  lemma UndisturbedIsTrue(c: System, t: nat, between: seq<Move>, later: seq<Move>)
    requires t < |c.tasks| && c.row.Some? && c.row.value.enabled && c.tasks[t] == Vouched(c.row.value.role)
    requires Possible(c, between) && Leaves(between, t) && After(c, between).row.Some?
    requires After(c, between).row.value.gen == c.row.value.gen
    ensures Enabled(After(c, between), Stamp(t))
    ensures var signed := Step(After(c, between), Stamp(t));
      signed.tasks[t].Stamped? && (Possible(signed, later) ==> !Outdated(After(signed, later).row, signed.tasks[t].token))
  {
    OutdatedWhen(c, t, between, later);
    RowOnlyMoves(c, between);
    var signed := Step(After(c, between), Stamp(t));
    if Possible(signed, later) { RowOnlyMoves(signed, later); }
    hide After, Possible, Leaves;
  }

  /** An administrator demoted while the password is being compared is handed
      tokens of an administrator that are let in. */
  lemma DemotedStaysAdmin() returns (moves: seq<Move>)
    ensures Possible(ONE, moves)
    ensures var c := After(ONE, moves);
      && c.row == Some(Row(Viewer, true, 1)) && c.issued == [Token(Admin, 1, 1)]
      && Outdated(c.row, c.issued[0])
  {
    Begin(ONE);
    hide Possible, After;
    moves := Extend(ONE, [], SignIn(0));
    moves := Extend(ONE, moves, Write(Viewer, true));
    moves := Extend(ONE, moves, Stamp(0));
    moves := Extend(ONE, moves, Create(0));
  }

  /** A password change ends the sessions that are stored by then. A sign-in with
      the old password under way stores its own afterwards, and renews with it. */
  lemma LateSessionRenews() returns (moves: seq<Move>)
    ensures Possible(ONE, moves)
    ensures var c := After(ONE, moves);
      c.row == Some(Row(Admin, true, 1)) && c.live == {2} && c.issued == [Token(Admin, 0, 1), Token(Admin, 1, 2)]
  {
    Begin(ONE);
    hide Possible, After;
    moves := Extend(ONE, [], SignIn(0));
    moves := Extend(ONE, moves, Stamp(0));
    moves := Extend(ONE, moves, Raise);
    moves := Extend(ONE, moves, DropAll);
    moves := Extend(ONE, moves, Create(0));
    moves := Extend(ONE, moves, Check(0, 1));
    moves := Extend(ONE, moves, Consume(0));
    moves := Extend(ONE, moves, ReadUser(0));
    moves := Extend(ONE, moves, Stamp(0));
    moves := Extend(ONE, moves, Create(0));
  }
}
