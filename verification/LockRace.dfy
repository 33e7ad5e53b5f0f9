/** The account lock of one user among concurrent sign-ins: reading the lock,
    lifting an expired one, comparing the password and counting the failure are
    separate steps (apps/snx-edge-server/src/api/auth.rs, db.rs). */
module LockRace {
  import opened Text
  import AuthStore

  /** A sign-in that has read an expired lock and is to reset it, one comparing
      the password, and one whose password was right. */
  datatype Pc = Idle | Resetting | Comparing | Right

  /** `compared` holds the times at which comparisons began. */
  datatype System = System(
    failed: nat, until: Option<nat>, now: nat, tasks: seq<Pc>, maxAttempts: nat, lockout: nat, compared: seq<nat>)
  {
    predicate Locked() { until.Some? && now < until.value }
  }

  /** `Quit` is a sign-in that stops half-way. */
  datatype Move =
    | Begin(t: nat)
    | Reset(t: nat)
    | Wrong(t: nat)
    | Match(t: nat)
    | Admit(t: nat)
    | Quit(t: nat)
    | Elapse(d: nat)

  predicate Enabled(c: System, move: Move) {
    match move
    case Begin(t) => t < |c.tasks| && c.tasks[t].Idle?
    case Reset(t) => t < |c.tasks| && c.tasks[t].Resetting?
    case Wrong(t) => t < |c.tasks| && c.tasks[t].Comparing?
    case Match(t) => t < |c.tasks| && c.tasks[t].Comparing?
    case Admit(t) => t < |c.tasks| && c.tasks[t].Right?
    case Quit(t) => t < |c.tasks|
    case Elapse(_) => true
  }

  function At(c: System, t: nat, pc: Pc): System
    requires t < |c.tasks|
  {
    c.(tasks := c.tasks[t := pc])
  }

  function Compare(c: System, t: nat): System
    requires t < |c.tasks|
  {
    At(c, t, Comparing).(compared := c.compared + [c.now])
  }

  function Step(c: System, move: Move): System
    requires Enabled(c, move)
  {
    match move
    case Begin(t) =>
      if c.until.None? then Compare(c, t)
      else if c.Locked() then c
      else At(c, t, Resetting)
    case Reset(t) => Compare(c, t).(failed := 0, until := None)
    case Wrong(t) =>
      At(c, t, Idle).(
        failed := c.failed + 1,
        until := if c.failed + 1 >= c.maxAttempts then Some(c.now + c.lockout) else c.until)
    case Match(t) => At(c, t, Right)
    case Admit(t) => At(c, t, Idle).(failed := 0, until := None)
    case Quit(t) => At(c, t, Idle)
    case Elapse(d) => c.(now := c.now + d)
  }

  ghost predicate Possible(c: System, moves: seq<Move>)
    decreases |moves|, 0
  {
    moves == [] ||
      var n := |moves| - 1;
      Possible(c, moves[..n]) && Enabled(After(c, moves[..n]), moves[n])
  }

  ghost function After(c: System, moves: seq<Move>): System
    requires Possible(c, moves)
    decreases |moves|, 1
  {
    if moves == [] then c
    else
      var n := |moves| - 1;
      Step(After(c, moves[..n]), moves[n])
  }

  lemma Begins(c: System)
    ensures Possible(c, []) && After(c, []) == c
  {
  }

  lemma Extend(c: System, moves: seq<Move>, move: Move) returns (longer: seq<Move>)
    requires Possible(c, moves) && Enabled(After(c, moves), move)
    ensures longer == moves + [move]
    ensures Possible(c, longer) && After(c, longer) == Step(After(c, moves), move)
  {
    longer := moves + [move];
    assert longer[..|moves|] == moves;
  }

  // --- When a lock does not hold ---

  /** No lock outlasts one set now. */
  predicate Recent(c: System) {
    c.until.Some? ==> c.until.value <= c.now + c.lockout
  }

  lemma {:induction false} LocksAreRecent(c: System, moves: seq<Move>)
    requires Recent(c) && Possible(c, moves)
    ensures Recent(After(c, moves))
  {
    if moves == [] {
    } else {
      LocksAreRecent(c, moves[..|moves| - 1]);
    }
  }

  predicate Fails(moves: seq<Move>) {
    forall m :: m in moves ==> !m.Match? && !m.Admit?
  }

  /** Without anyone signing in successfully, a comparison begins before the lock
      in force runs out. */
  ghost predicate Breached(c: System, moves: seq<Move>)
    requires c.until.Some?
  {
    && Possible(c, moves) && Fails(moves)
    && exists i :: |c.compared| <= i < |After(c, moves).compared| && After(c, moves).compared[i] < c.until.value
  }

  predicate Holds(c: System, until: nat, since: nat) {
    && Recent(c)
    && (c.now < until ==>
          c.until.Some? && until <= c.until.value && forall t :: 0 <= t < |c.tasks| ==> !c.tasks[t].Resetting?)
    && since <= |c.compared| && forall i :: since <= i < |c.compared| ==> until <= c.compared[i]
  }

  lemma StepHolds(c: System, move: Move, until: nat, since: nat)
    requires Enabled(c, move) && !move.Match? && !move.Admit? && Holds(c, until, since)
    ensures Holds(Step(c, move), until, since)
  {
  }

  lemma {:induction false} RunHolds(c: System, moves: seq<Move>, until: nat, since: nat)
    requires Possible(c, moves) && Fails(moves) && Holds(c, until, since)
    ensures Holds(After(c, moves), until, since)
  {
    if moves == [] {
    } else {
      var n := |moves| - 1;
      assert moves[n] in moves;
      RunHolds(c, moves[..n], until, since);
      hide Holds, Step;
      StepHolds(After(c, moves[..n]), moves[n], until, since);
    }
  }

  /** A lock in force fails to hold, without a success, exactly if a sign-in that
      read the lock before it, then expired, is still to reset it: the reset
      takes away whatever lock there is. */
  lemma BreachedWhen(c: System)
    requires c.Locked() && Recent(c)
    ensures (exists moves :: Breached(c, moves)) <==> exists t :: 0 <= t < |c.tasks| && c.tasks[t].Resetting?
  {
    if moves :| Breached(c, moves) {
      if forall t :: 0 <= t < |c.tasks| ==> !c.tasks[t].Resetting? {
        RunHolds(c, moves, c.until.value, |c.compared|);
        assert false;
      }
    }
    if t :| 0 <= t < |c.tasks| && c.tasks[t].Resetting? {
      Begins(c);
      var moves := Extend(c, [], Reset(t));
      assert After(c, moves).compared[|c.compared|] == c.now;
      assert Breached(c, moves);
    }
  }

  /** A reset and a success both clear the record; a success also ends the
      sign-in, a reset goes on to the comparison. */
  lemma RecordCleared(c: System, move: Move)
    requires Enabled(c, move) && (move.Reset? || move.Admit?)
    ensures var c' := Step(c, move);
      && c'.failed == 0 && c'.until == None
      && c'.tasks[move.t] == (if move.Reset? then Comparing else Idle)
  {
  }

  // --- How many comparisons fit in ---

  function Underway(tasks: seq<Pc>): nat {
    if tasks == [] then 0
    else
      var n := |tasks| - 1;
      Underway(tasks[..n]) + if tasks[n].Comparing? then 1 else 0
  }

  lemma {:induction false} UnderwayAfter(tasks: seq<Pc>, t: nat, pc: Pc)
    requires t < |tasks|
    ensures Underway(tasks) <= |tasks|
    ensures Underway(tasks[t := pc]) + (if tasks[t].Comparing? then 1 else 0)
         == Underway(tasks) + (if pc.Comparing? then 1 else 0)
  {
    var n := |tasks| - 1;
    if t == n {
      assert tasks[t := pc][..n] == tasks[..n];
      UnderwayAtMost(tasks);
    } else {
      UnderwayAfter(tasks[..n], t, pc);
      assert tasks[t := pc][..n] == tasks[..n][t := pc];
    }
  }

  lemma {:induction false} UnderwayAtMost(tasks: seq<Pc>)
    ensures Underway(tasks) <= |tasks|
  {
    if tasks == [] {
    } else {
      UnderwayAtMost(tasks[..|tasks| - 1]);
    }
  }

  function Allowed(c: System): nat {
    if c.maxAttempts == 0 then 1 else c.maxAttempts
  }

  /** Comparisons whose outcome was never counted. */
  ghost function Dropped(c: System, moves: seq<Move>): nat
    requires Possible(c, moves)
    decreases |moves|
  {
    if moves == [] then 0
    else
      var n := |moves| - 1;
      Dropped(c, moves[..n]) +
      if moves[n].Quit? && After(c, moves[..n]).tasks[moves[n].t].Comparing? then 1 else 0
  }

  predicate NoResets(moves: seq<Move>) {
    forall m :: m in moves ==> !m.Match? && !m.Admit? && !m.Reset?
  }

  /** The ledger: every comparison begun is a counted failure, was dropped, or is
      under way. */
  ghost predicate Ledger(c: System, c': System, dropped: nat) {
    && |c'.compared| + c.failed + Underway(c.tasks) == |c.compared| + c'.failed + Underway(c'.tasks) + dropped
    && c'.maxAttempts == c.maxAttempts && |c'.tasks| == |c.tasks|
  }

  lemma StepLedger(c: System, c': System, dropped: nat, move: Move)
    requires Ledger(c, c', dropped) && Enabled(c', move) && !move.Match? && !move.Admit? && !move.Reset?
    ensures Ledger(c, Step(c', move), dropped + if move.Quit? && c'.tasks[move.t].Comparing? then 1 else 0)
  {
    if !move.Elapse? {
      var (t, c'') := (move.t, Step(c', move));
      UnderwayAfter(c'.tasks, t, c''.tasks[t]);
      assert c''.tasks == c'.tasks[t := c''.tasks[t]];
    }
    hide Underway;
  }

  lemma {:induction false} RunLedger(c: System, moves: seq<Move>)
    requires Possible(c, moves) && NoResets(moves)
    ensures Ledger(c, After(c, moves), Dropped(c, moves))
  {
    if moves == [] {
    } else {
      var n := |moves| - 1;
      assert moves[n] in moves;
      RunLedger(c, moves[..n]);
      hide Ledger, Step;
      StepLedger(c, After(c, moves[..n]), Dropped(c, moves[..n]), moves[n]);
    }
  }

  /** Between two resets, with any number of sign-ins at once, no more comparisons
      begin than there are failures left before the lock, one less than there are
      sign-ins, and those dropped half-way. */
  lemma {:induction false} OneAllowance(c: System, moves: seq<Move>)
    requires Possible(c, moves) && NoResets(moves) && c.until.None? && c.failed < Allowed(c) && c.tasks != []
    ensures var c' := After(c, moves);
      && (c'.until.None? ==> c'.failed < Allowed(c))
      && |c'.compared| - |c.compared| <= (Allowed(c) - c.failed) + (|c.tasks| - 1) + Dropped(c, moves)
  {
    RunLedger(c, moves);
    if moves == [] {
    } else {
      var n := |moves| - 1;
      assert moves[n] in moves;
      OneAllowance(c, moves[..n]);
      RunLedger(c, moves[..n]);
      UnderwayAtMost(After(c, moves).tasks);
      hide Underway;
    }
  }

  // --- Within one lock duration ---

  function Waited(moves: seq<Move>): nat {
    if moves == [] then 0
    else
      var n := |moves| - 1;
      Waited(moves[..n]) + if moves[n].Elapse? then moves[n].d else 0
  }

  /** No reset is due, and a lock, if any, was set at `start` or later. */
  predicate Fresh(c: System, start: nat) {
    && (forall t :: 0 <= t < |c.tasks| ==> !c.tasks[t].Resetting?)
    && (c.until.Some? ==> start + c.lockout <= c.until.value)
  }

  lemma StepStaysFresh(c: System, move: Move, start: nat)
    requires Enabled(c, move) && Fresh(c, start) && start <= c.now < start + c.lockout
    ensures !move.Reset? && Fresh(Step(c, move), start)
  {
  }

  lemma {:induction false} StaysFresh(c: System, moves: seq<Move>)
    requires Possible(c, moves) && Fails(moves) && Fresh(c, c.now) && Waited(moves) < c.lockout
    ensures var c' := After(c, moves);
      && NoResets(moves) && Fresh(c', c.now) && c'.now == c.now + Waited(moves) && c'.lockout == c.lockout
  {
    if moves == [] {
    } else {
      var n := |moves| - 1;
      assert moves[n] in moves;
      StaysFresh(c, moves[..n]);
      hide Fresh;
      StepStaysFresh(After(c, moves[..n]), moves[n], c.now);
    }
  }

  /** Within one lock duration, with any number of sign-ins at once and none of
      them successful: the lock, once set, is never lifted, so that the bound on
      comparisons holds for the whole of it. */
  lemma OneDuration(c: System, moves: seq<Move>)
    requires Possible(c, moves) && Fails(moves) && Waited(moves) < c.lockout
    requires c.until.None? && c.failed < Allowed(c) && c.tasks != []
    requires forall t :: 0 <= t < |c.tasks| ==> !c.tasks[t].Resetting?
    ensures var c' := After(c, moves);
      && c'.now == c.now + Waited(moves)
      && (c'.until.Some? ==> c'.Locked())
      && |c'.compared| - |c.compared| <= (Allowed(c) - c.failed) + (|c.tasks| - 1) + Dropped(c, moves)
  {
    StaysFresh(c, moves);
    OneAllowance(c, moves);
  }

  // --- A sign-in by itself ---

  /** The lock fields of the user's row are those of the race. */
  predicate SameRecord(c: System, cfg: AuthStore.Config, s: AuthStore.Store, id: nat) {
    && id in s.users && s.users[id].failed == c.failed && s.users[id].lockedUntil == c.until
    && s.now == c.now && cfg.maxAttempts == c.maxAttempts && cfg.lockout == c.lockout
  }

  lemma LoginRecord(cfg: AuthStore.Config, s: AuthStore.Store, id: nat, valid: bool)
    requires id in s.users && s.users[id].enabled
    ensures var t := AuthStore.Login(cfg, s, id, valid).0;
      && id in t.users && t.now == s.now
      && var (u, v) := (s.users[id], t.users[id]);
        var n := (if u.lockedUntil.Some? then 0 else u.failed) + 1;
        (v.failed, v.lockedUntil) ==
          if u.lockedUntil.Some? && s.now < u.lockedUntil.value then (u.failed, u.lockedUntil)
          else if valid then (0, None)
          else (n, if n >= cfg.maxAttempts then Some(s.now + cfg.lockout) else None)
  {
  }

  /** The system after one uninterrupted sign-in. */
  function Alone(c: System, valid: bool): System {
    var n := (if c.until.Some? then 0 else c.failed) + 1;
    if c.Locked() then c
    else if valid then c.(failed := 0, until := None, compared := c.compared + [c.now])
    else c.(failed := n, until := if n >= c.maxAttempts then Some(c.now + c.lockout) else None,
            compared := c.compared + [c.now])
  }

  /** Where a sign-in that is not locked out begins to compare. */
  function Entered(c: System, t: nat): System
    requires t < |c.tasks|
  {
    Compare(if c.until.Some? then c.(failed := 0, until := None) else c, t)
  }

  lemma Enters(c: System, t: nat) returns (moves: seq<Move>)
    requires t < |c.tasks| && c.tasks[t].Idle? && !c.Locked()
    ensures Possible(c, moves) && After(c, moves) == Entered(c, t)
  {
    Begins(c);
    hide Possible, After;
    moves := Extend(c, [], Begin(t));
    if c.until.Some? {
      assert After(c, moves) == At(c, t, Resetting);
      moves := Extend(c, moves, Reset(t));
      assert c.tasks[t := Resetting][t := Comparing] == c.tasks[t := Comparing];
    }
  }

  lemma Judged(c: System, t: nat, valid: bool)
    requires t < |c.tasks| && c.tasks[t].Idle? && !c.Locked()
    ensures var c1 := Entered(c, t);
      if valid then
        && Enabled(c1, Match(t)) && Enabled(Step(c1, Match(t)), Admit(t))
        && Step(Step(c1, Match(t)), Admit(t)) == Alone(c, valid)
      else
        Enabled(c1, Wrong(t)) && Step(c1, Wrong(t)) == Alone(c, valid)
  {
    assert c.tasks[t := Comparing][t := Idle] == c.tasks;
    assert c.tasks[t := Comparing][t := Right][t := Idle] == c.tasks;
  }

  lemma RunsAlone(c: System, t: nat, valid: bool) returns (moves: seq<Move>)
    requires t < |c.tasks| && c.tasks[t].Idle?
    ensures Possible(c, moves) && After(c, moves) == Alone(c, valid)
  {
    if c.Locked() {
      Begins(c);
      moves := Extend(c, [], Begin(t));
    } else {
      moves := Enters(c, t);
      Judged(c, t, valid);
      hide *;
      if valid {
        moves := Extend(c, moves, Match(t));
        moves := Extend(c, moves, Admit(t));
      } else {
        moves := Extend(c, moves, Wrong(t));
      }
    }
  }

  /** The steps of one sign-in, uninterrupted, leave the record an undivided
      sign-in of an enabled user leaves, with one comparison unless locked. */
  lemma AloneLikeLogin(c: System, t: nat, cfg: AuthStore.Config, s: AuthStore.Store, id: nat, valid: bool)
    returns (moves: seq<Move>)
    requires t < |c.tasks| && c.tasks[t].Idle? && SameRecord(c, cfg, s, id) && s.users[id].enabled
    ensures Possible(c, moves)
    ensures var c' := After(c, moves);
      && SameRecord(c', cfg, AuthStore.Login(cfg, s, id, valid).0, id)
      && c'.tasks == c.tasks
      && c'.compared == c.compared + if c.Locked() then [] else [c.now]
  {
    LoginRecord(cfg, s, id, valid);
    moves := RunsAlone(c, t, valid);
    hide Possible, After, AuthStore.Login;
  }

  const PAIR := System(1, Some(0), 0, [Idle, Idle], 1, 15, [])

  /** Two sign-ins read the same expired lock. The first fails and locks the
      account again; the reset of the second lifts that lock at once. */
  lemma FreshLockLifted() returns (moves: seq<Move>)
    ensures Possible(PAIR, moves) && Fails(moves)
    ensures |moves| == 5 && Possible(PAIR, moves[..4]) && After(PAIR, moves[..4]).until == Some(15)
    ensures After(PAIR, moves).until == None && After(PAIR, moves).compared == [0, 0] && After(PAIR, moves).now == 0
  {
    Begins(PAIR);
    hide Possible, After;
    moves := Extend(PAIR, [], Begin(0));
    moves := Extend(PAIR, moves, Begin(1));
    moves := Extend(PAIR, moves, Reset(0));
    moves := Extend(PAIR, moves, Wrong(0));
    var four := moves;
    moves := Extend(PAIR, moves, Reset(1));
    assert moves[..4] == four;
  }
}
