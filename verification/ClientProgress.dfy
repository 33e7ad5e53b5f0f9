/** Token renewal in the client comes to an end: every request takes at most nine
    moves, nobody waits for ever, and a revoked session stays dead
    (apps/snx-edge-client/src/api.rs). */
module ClientProgress {
  import opened Text
  import opened ClientRefresh

  /** The most moves a task can still make before it is idle again. */
  function Rank(pc: Pc): nat {
    match pc
    case Idle => 0
    case Leaving => 1
    case Stored(_) => 2
    case Answered(_, _) => 3
    case Asking(_, _, _) => 4
    case Locked(_, _) => 5
    case Rejected(_, _) => 6
    case Sent(_, _) => 7
    case Built(_) => 8
  }

  function Work(tasks: seq<Pc>): nat {
    if tasks == [] then 0
    else
      var n := |tasks| - 1;
      Work(tasks[..n]) + Rank(tasks[n])
  }

  lemma {:induction false} WorkAfter(tasks: seq<Pc>, t: nat, pc: Pc)
    requires t < |tasks|
    ensures Work(tasks[t := pc]) + Rank(tasks[t]) == Work(tasks) + Rank(pc)
  {
    var n := |tasks| - 1;
    if t == n {
      assert tasks[t := pc][..n] == tasks[..n];
    } else {
      WorkAfter(tasks[..n], t, pc);
      assert tasks[t := pc][..n] == tasks[..n][t := pc];
    }
  }

  lemma {:induction false} NoWork(tasks: seq<Pc>)
    requires forall t :: 0 <= t < |tasks| ==> tasks[t].Idle?
    ensures Work(tasks) == 0
  {
    if tasks == [] {
    } else {
      NoWork(tasks[..|tasks| - 1]);
    }
  }

  /** Nine moves for each request built, one for each revocation. */
  function Budget(moves: seq<Move>): nat {
    if moves == [] then 0
    else
      var n := |moves| - 1;
      Budget(moves[..n]) + if moves[n].Build? then 9 else if moves[n].Revoke? then 1 else 0
  }

  lemma StepRanks(c: System, move: Move)
    requires Enabled(c, move) && !move.Revoke?
    ensures var (tasks, tasks') := (c.tasks, Step(c, move).tasks);
      && |tasks'| == |tasks| && tasks' == tasks[move.t := tasks'[move.t]]
      && 1 + Rank(tasks'[move.t]) <= Rank(tasks[move.t]) + if move.Build? then 9 else 0
  {
  }

  lemma StepSpends(c: System, move: Move)
    requires Enabled(c, move)
    ensures 1 + Work(Step(c, move).tasks) <=
      Work(c.tasks) + if move.Build? then 9 else if move.Revoke? then 1 else 0
  {
    hide Work;
    if !move.Revoke? {
      StepRanks(c, move);
      hide Step, Rank;
      WorkAfter(c.tasks, move.t, Step(c, move).tasks[move.t]);
    }
  }

  lemma {:induction false} RunSpends(c: System, moves: seq<Move>)
    requires Possible(c, moves)
    ensures |moves| + Work(After(c, moves).tasks) <= Work(c.tasks) + Budget(moves)
  {
    if moves == [] {
    } else {
      var n := |moves| - 1;
      RunSpends(c, moves[..n]);
      hide Step, Work;
      StepSpends(After(c, moves[..n]), moves[n]);
    }
  }

  /** No run goes on without new requests: it has at most nine moves for each
      request built, and one for each revocation. */
  lemma RunsAreBounded(c: System, moves: seq<Move>)
    requires Start(c) && Possible(c, moves)
    ensures |moves| <= Budget(moves)
  {
    NoWork(c.tasks);
    RunSpends(c, moves);
  }

  predicate AllRest(c: System) {
    c.lock.None? && forall t :: 0 <= t < |c.tasks| ==> c.tasks[t].Idle?
  }

  /** The move a task can make next, if it can make one. */
  function Own(pc: Pc, t: nat): Move {
    match pc
    case Idle => Build(t)
    case Built(_) => Send(t)
    case Sent(_, _) => Accept(t)
    case Rejected(_, _) => Lock(t)
    case Locked(_, _) => Compare(t)
    case Asking(_, _, _) => Fail(t)
    case Answered(_, _) => StoreAccess(t)
    case Stored(_) => StoreRefresh(t)
    case Leaving => Unlock(t)
  }

  lemma SomeoneMoves(c: System) returns (move: Move)
    requires Inv(c) && !AllRest(c)
    ensures Enabled(c, move) && !move.Build? && !move.Revoke?
  {
    hide NeverTwice, Chained;
    var t: nat;
    if c.lock.Some? {
      t := c.lock.value;
    } else {
      t :| t < |c.tasks| && !c.tasks[t].Idle?;
    }
    move := Own(c.tasks[t], t);
  }

  /** No deadlock: from any point of any run the tasks can all finish without a
      new request, and the lock ends free. */
  lemma {:induction false} AllCanFinish(c: System, moves: seq<Move>) returns (longer: seq<Move>)
    requires Start(c) && Possible(c, moves)
    ensures moves <= longer && Possible(c, longer) && AllRest(After(c, longer))
    ensures Budget(longer) == Budget(moves)
    decreases Work(After(c, moves).tasks)
  {
    RunKeeps(c, moves);
    hide Inv, Step, Possible, After, AllRest, Start, Work;
    var s := After(c, moves);
    if AllRest(s) {
      longer := moves;
    } else {
      var move := SomeoneMoves(s);
      longer := Extend(c, moves, move);
      assert longer[..|moves|] == moves;
      StepSpends(s, move);
      longer := AllCanFinish(c, longer);
    }
  }

  // --- Revoked sessions ---

  lemma StepStaysDead(c: System, move: Move, session: nat)
    requires Enabled(c, move) && session < c.next && session !in c.live
    ensures var c' := Step(c, move); session < c'.next && session !in c'.live
  {
  }

  lemma {:induction false} StaysDead(c: System, moves: seq<Move>, session: nat)
    requires Possible(c, moves) && session < c.next && session !in c.live
    ensures var c' := After(c, moves); session < c'.next && session !in c'.live
  {
    if moves == [] {
    } else {
      var n := |moves| - 1;
      StaysDead(c, moves[..n], session);
      hide Step;
      StepStaysDead(After(c, moves[..n]), moves[n], session);
    }
  }

  /** A revoked session is never live again, and no task presenting it is ever
      given a token. */
  lemma RevokedStaysDead(c: System, session: nat, moves: seq<Move>, t: nat)
    requires session < c.next && Possible(Step(c, Revoke(session)), moves)
    ensures var c' := After(Step(c, Revoke(session)), moves);
      && session !in c'.live
      && (t < |c'.tasks| && c'.tasks[t].Asking? && c'.tasks[t].rt == session ==>
            Step(c', Exchange(t)) == Step(c', Fail(t)) && Step(c', Exchange(t)).tasks[t] == Leaving)
  {
    StaysDead(Step(c, Revoke(session)), moves, session);
  }
}
