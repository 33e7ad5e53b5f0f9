/** The tunnel manager as the writer of the reconciler's protocol: what its runs
    do to the shared status, and what the data plane is like once the reconciler
    has caught up (apps/snx-edge-server/src/tunnel.rs, reconciler.rs). */
module Following {
  import opened Text
  import opened Tunnel
  import opened Reconciler

  /** The status writes of one manager step, as moves of the protocol. */
  function Writes(m: State, step: Step): seq<Move> {
    var m' := Next(m, step);
    match step
    case DoConnect(dial) => if m.status.Busy() then [] else [Claim, Write(m'.status)]
    case DoReconnect(dial) =>
      (if m.status == Disconnected then [] else [Write(Disconnected)]) + [Claim, Write(m'.status)]
    case DoEvent(h, Rekeyed(ip), fault) =>
      if |m'.sent| > |m.sent| then [Write(m'.status)] else if m'.status == m.status then [] else [Rekey(ip)]
    case _ => if |m'.sent| > |m.sent| then [Write(m'.status)] else []
  }

  function WriteAll(s: Status, moves: seq<Move>): Status
    decreases |moves|
  {
    if moves == [] then s else WriteAll(Written(s, moves[0]), moves[1..])
  }

  function Announced(moves: seq<Move>): nat {
    if moves == [] then 0 else (if moves[0].Write? then 1 else 0) + Announced(moves[1..])
  }

  predicate ClaimsAllowed(s: Status, moves: seq<Move>)
    decreases |moves|
  {
    moves != [] ==> (moves[0].Claim? ==> !s.Busy()) && ClaimsAllowed(Written(s, moves[0]), moves[1..])
  }

  /** The moves turn one status into the other, are all allowed, and announce as
      many writes as labels were sent. */
  predicate Follows(m: State, m': State, moves: seq<Move>) {
    && WriteAll(m.status, moves) == m'.status
    && |m'.sent| == |m.sent| + Announced(moves)
    && ClaimsAllowed(m.status, moves)
  }

  /** In every reachable state, what a manager step does to the shared status is
      a sequence of moves the protocol allows, and it sends one event per
      announced write. */
  lemma ManagerFollowsProtocol(steps: seq<Step>, step: Step)
    ensures Follows(Run(steps), Next(Run(steps), step), Writes(Run(steps), step))
  {
    Tunnel.RunKeeps(steps);
    StepFollowsProtocol(Run(steps), step);
  }

  lemma StepFollowsProtocol(m: State, step: Step)
    requires Tunnel.Inv(m)
    ensures Follows(m, Next(m, step), Writes(m, step))
  {
    hide WriteAll, Announced, ClaimsAllowed, Tunnel.Inv;
    match step
    case DoReconnect(dial) => ReconnectFollowsProtocol(m, dial);
    case DoConnect(dial) => ConnectFollowsProtocol(m, dial);
    case DoEvent(h, event, fault) => EventFollowsProtocol(m, h, event, fault);
    case _ => NoWrite(m.status); OneWrite(m.status, Next(m, step).status);
  }

  lemma ConnectFollowsProtocol(m: State, dial: Dial)
    ensures Follows(m, Next(m, DoConnect(dial)), Writes(m, DoConnect(dial)))
  {
    hide WriteAll, Announced, ClaimsAllowed;
    NoWrite(m.status);
    ClaimAndWrite(m.status, Next(m, DoConnect(dial)).status);
  }

  lemma EventFollowsProtocol(m: State, h: nat, event: Event, fault: Option<string>)
    ensures var step := DoEvent(h, event, fault); Follows(m, Next(m, step), Writes(m, step))
  {
    hide WriteAll, Announced, ClaimsAllowed;
    NoWrite(m.status);
    OneWrite(m.status, Handle(m, h, event, fault).status);
    if event.Rekeyed? { OneRekey(m.status, event.ip); }
  }

  lemma NoWrite(s: Status)
    ensures WriteAll(s, []) == s && Announced([]) == 0 && ClaimsAllowed(s, [])
  {
  }

  lemma ReconnectFollowsProtocol(m: State, dial: Dial)
    requires Tunnel.Inv(m)
    ensures Follows(m, Next(m, DoReconnect(dial)), Writes(m, DoReconnect(dial)))
  {
    var s := Next(m, DoReconnect(dial)).status;
    var tail := [Claim, Write(s)];
    Tunnel.DisconnectKeeps(m);
    ClaimAndWrite(Disconnected, s);
    if m.status == Disconnected {
      assert [] + tail == tail;
    } else {
      assert ([Write(Disconnected)] + tail)[1..] == tail;
    }
  }

  lemma OneWrite(s: Status, s': Status)
    ensures WriteAll(s, [Write(s')]) == s' && Announced([Write(s')]) == 1 && ClaimsAllowed(s, [Write(s')])
  {
  }

  lemma OneRekey(s: Status, ip: string)
    ensures WriteAll(s, [Rekey(ip)]) == Written(s, Rekey(ip))
    ensures Announced([Rekey(ip)]) == 0 && ClaimsAllowed(s, [Rekey(ip)])
  {
  }

  lemma ClaimAndWrite(s: Status, s': Status)
    ensures WriteAll(s, [Claim, Write(s')]) == s' && Announced([Claim, Write(s')]) == 1
    ensures ClaimsAllowed(s, [Claim, Write(s')]) <==> !s.Busy()
  {
    assert [Claim, Write(s')][1..] == [Write(s')];
    OneWrite(Connecting, s');
  }

  // --- Manager and reconciler together ---

  /** The status writes of a whole manager run. */
  function AllWrites(steps: seq<Step>): seq<Move> {
    if steps == [] then []
    else
      var n := |steps| - 1;
      AllWrites(steps[..n]) + Writes(Run(steps[..n]), steps[n])
  }

  predicate WritesStatus(move: Move) {
    move.Write? || move.Claim? || move.Rekey?
  }

  /** The status writes among the moves of a run; what is left out is the work
      of the channel and of the reconciler. */
  function StatusMoves(moves: seq<Move>): seq<Move> {
    if moves == [] then []
    else
      var n := |moves| - 1;
      var last := if WritesStatus(moves[n]) then [moves[n]] else [];
      StatusMoves(moves[..n]) + last
  }

  function Delivered(moves: seq<Move>): nat {
    if moves == [] then 0
    else
      var n := |moves| - 1;
      Delivered(moves[..n]) + if moves[n].Send? then 1 else 0
  }

  /** A run of the protocol whose writer is the tunnel manager going through
      `steps`: its writes come in the manager's order, with anything between. */
  ghost predicate Drives(steps: seq<Step>, c: System, moves: seq<Move>) {
    Start(c) && Possible(c, moves) && StatusMoves(moves) == AllWrites(steps)
  }

  lemma {:induction false} WriteAllJoin(s: Status, a: seq<Move>, b: seq<Move>)
    ensures WriteAll(s, a + b) == WriteAll(WriteAll(s, a), b)
    ensures Announced(a + b) == Announced(a) + Announced(b)
    ensures ClaimsAllowed(s, a + b) <==> ClaimsAllowed(s, a) && ClaimsAllowed(WriteAll(s, a), b)
    decreases |a|
  {
    if a == [] {
      assert a + b == b;
    } else {
      WriteAllJoin(Written(s, a[0]), a[1..], b);
      assert (a + b)[1..] == a[1..] + b;
    }
  }

  lemma {:induction false} ManagerWrites(steps: seq<Step>)
    ensures WriteAll(Disconnected, AllWrites(steps)) == Run(steps).status
    ensures Announced(AllWrites(steps)) == |Run(steps).sent|
    ensures ClaimsAllowed(Disconnected, AllWrites(steps))
  {
    hide WriteAll, Announced, ClaimsAllowed, Writes, Next;
    if steps == [] {
      NoWrite(Disconnected);
    } else {
      var n := |steps| - 1;
      ManagerWrites(steps[..n]);
      ManagerFollowsProtocol(steps[..n], steps[n]);
      WriteAllJoin(Disconnected, AllWrites(steps[..n]), Writes(Run(steps[..n]), steps[n]));
    }
  }

  lemma {:induction false} StatusIsWritten(c: System, moves: seq<Move>)
    requires Possible(c, moves)
    ensures After(c, moves).status == WriteAll(c.status, StatusMoves(moves))
    ensures After(c, moves).unsent + Delivered(moves) == c.unsent + Announced(StatusMoves(moves))
  {
    if moves == [] {
      NoWrite(c.status);
    } else {
      var n := |moves| - 1;
      StatusIsWritten(c, moves[..n]);
      LastMoveWrites(After(c, moves[..n]), moves[n]);
      WriteAllJoin(c.status, StatusMoves(moves[..n]), StatusMoves([moves[n]]));
      assert [moves[n]][..0] == [];
      assert StatusMoves([moves[n]]) == [] + if WritesStatus(moves[n]) then [moves[n]] else [];
      assert StatusMoves(moves) == StatusMoves(moves[..n]) + StatusMoves([moves[n]]);
      hide Reconciler.Step, WriteAll, Announced;
    }
  }

  lemma LastMoveWrites(c: System, move: Move)
    requires Enabled(c, move)
    ensures Reconciler.Step(c, move).status == WriteAll(c.status, StatusMoves([move]))
    ensures Reconciler.Step(c, move).unsent + (if move.Send? then 1 else 0) == c.unsent + Announced(StatusMoves([move]))
  {
    assert [move][..0] == [];
    NoWrite(c.status);
    NoWrite(Written(c.status, move));
    assert StatusMoves([move]) == if WritesStatus(move) then [move] else [];
  }

  /** Agreement for the tunnel manager. However its status writes interleave
      with the channel and the reconciler, and whichever edits fail, the shared
      status is the manager's, each label it broadcast is delivered or still to
      be sent, and once all are delivered and worked off, with none lost, the data
      plane is as the manager's status demands, but for edits that failed. Without
      a live event handler, and unless a code is awaited, that is disengaged
      entirely; engaged it is for the one live handler's connection. */
  lemma ManagerAgreement(steps: seq<Step>, c: System, moves: seq<Move>)
    requires Drives(steps, c, moves)
    ensures var (m, c') := (Run(steps), After(c, moves));
      && c'.status == m.status
      && c'.unsent + Delivered(moves) == |m.sent|
      && (Settled(c') && Lag !in moves ==> !c'.stale)
      && (Settled(c') && !c'.stale ==>
            && AsDemanded(m.status, c'.plane, c'.done)
            && (Advance(false) !in moves ==> c'.done == EDITS)
            && (m.live == {} && !m.status.Mfa? && Advance(false) !in moves ==>
                  Masqueraded(c'.plane.rules) == {} && !c'.plane.route && c'.plane.dns == None)
            && (m.status.Connected? && m.status.info.iface != "" ==> |m.live| == 1))
  {
    ManagerWrites(steps);
    StatusIsWritten(c, moves);
    Agreement(c, moves);
    Tunnel.RunKeeps(steps);
    hide After, Possible, Run, StatusMoves, AllWrites, WriteAll, Announced, Masqueraded;
  }

  // --- The reconciler can always catch up ---

  function Rank(p: Phase): nat {
    match p
    case Idle => 0
    case Woken => 4
    case Applying(n) => if n < 3 then 3 - n else 1
  }

  /** From any point of any run the channel and the reconciler alone can settle. */
  lemma {:induction false} CatchesUp(c: System, moves: seq<Move>) returns (more: seq<Move>)
    requires Possible(c, moves)
    ensures Possible(c, more) && Settled(After(c, more)) && StatusMoves(more) == StatusMoves(moves)
    ensures Heard(After(c, moves)) ==> Heard(After(c, more))
    decreases After(c, moves).unsent, After(c, moves).queue, Rank(After(c, moves).phase)
  {
    hide After, Possible, Edit;
    var now := After(c, moves);
    if Settled(now) {
      more := moves;
    } else {
      var move :=
        if now.phase.Applying? then Advance(true)
        else if now.phase.Woken? then Read
        else if now.unsent > 0 then Send
        else Receive;
      var next := moves + [move];
      ExtendedBy(c, moves, move);
      NotAWrite(moves, move);
      more := CatchesUp(c, next);
    }
  }

  lemma NotAWrite(moves: seq<Move>, move: Move)
    requires !WritesStatus(move)
    ensures StatusMoves(moves + [move]) == StatusMoves(moves)
  {
    assert (moves + [move])[..|moves|] == moves;
  }

  lemma {:induction false} WriteEach(c: System, moves: seq<Move>, writes: seq<Move>) returns (more: seq<Move>)
    requires Possible(c, moves) && ClaimsAllowed(After(c, moves).status, writes)
    requires forall w :: w in writes ==> WritesStatus(w)
    ensures Possible(c, more) && StatusMoves(more) == StatusMoves(moves) + writes
    ensures Heard(After(c, moves)) ==> Heard(After(c, more))
    decreases |writes|
  {
    hide After, Possible;
    if writes == [] {
      more := moves;
      assert StatusMoves(moves) + [] == StatusMoves(moves);
    } else {
      var w := writes[0];
      var next := moves + [w];
      assert w in writes;
      ExtendedBy(c, moves, w);
      assert next[..|moves|] == moves;
      more := WriteEach(c, next, writes[1..]);
      assert StatusMoves(moves) + [w] + writes[1..] == StatusMoves(moves) + writes;
    }
  }

  lemma {:induction false} OnlyWrites(steps: seq<Step>)
    ensures forall w :: w in AllWrites(steps) ==> WritesStatus(w)
  {
    hide Next;
    if steps == [] {
    } else {
      OnlyWrites(steps[..|steps| - 1]);
    }
  }

  /** Every manager run drives the protocol to a settled end with nothing unread. */
  lemma ManagerSettles(steps: seq<Step>, c: System) returns (moves: seq<Move>)
    requires Start(c)
    ensures Drives(steps, c, moves) && Settled(After(c, moves)) && !After(c, moves).stale
  {
    ManagerWrites(steps);
    OnlyWrites(steps);
    assert Possible(c, []) && After(c, []) == c && StatusMoves([]) == [];
    hide After, Possible, AllWrites, StatusMoves, ClaimsAllowed, WriteAll, WritesStatus;
    moves := WriteEach(c, [], AllWrites(steps));
    assert [] + AllWrites(steps) == AllWrites(steps);
    moves := CatchesUp(c, moves);
  }
}
