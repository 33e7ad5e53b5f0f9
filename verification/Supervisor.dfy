/** The supervisor: when a dropped tunnel is dialled again, how long a burst of
    attempts may last, and the latch that ends it
    (apps/snx-edge-server/src/supervisor.rs, api/tunnel.rs). */
module Supervisor {
  import opened Tunnel

  datatype Plan = Redial | Hold | Idle

  function Decide(status: Status, desired: bool): Plan {
    match status
    case Connected(_) | Connecting | Mfa(_) => Hold
    case Error(_) | Disconnected => if desired then Redial else Idle
  }

  /** The tunnel is down, in whichever way. */
  predicate IsDown(s: Status) {
    s.Disconnected? || s.Error?
  }

  /** What is worth another attempt: a tunnel that is down while a profile is
      desired. */
  lemma DecideIs(status: Status, desired: bool)
    ensures Decide(status, desired).Redial? <==> IsDown(status) && desired
  {
  }

  const MAX_ATTEMPTS: nat := 10

  predicate ShouldGiveUp(failures: nat) {
    failures >= MAX_ATTEMPTS
  }

  function Doubled(n: nat): nat {
    if n == 0 then 1 else 2 * Doubled(n - 1)
  }

  /** Seconds slept after the attempt with this zero-based number; the source
      shifts 2 left by it. */
  function BackoffDelay(attempt: nat): nat {
    if attempt >= 5 then 60 else 2 * Doubled(attempt)
  }

  /** Seconds slept after the first `n` attempts of a burst. */
  function Slept(n: nat): nat {
    if n == 0 then 0 else Slept(n - 1) + BackoffDelay(n - 1)
  }

  lemma NothingSlept()
    ensures Slept(0) == 0
  {
  }

  lemma SleptOneMore(n: nat)
    ensures Slept(n + 1) == Slept(n) + BackoffDelay(n)
  {
  }

  lemma {:induction false} DoubledGrows(n: nat)
    requires n >= 5
    ensures Doubled(n) >= 32
  {
    if n == 5 {
      assert Doubled(2) == 4;
      assert Doubled(4) == 16;
    } else {
      DoubledGrows(n - 1);
    }
  }

  /** The delay is the doubling sequence cut off at a minute, so cutting at the
      fifth attempt loses nothing. */
  lemma DelayIsCappedDoubling(attempt: nat)
    ensures BackoffDelay(attempt) == var d := Doubled(attempt + 1); if d < 60 then d else 60
  {
    if attempt >= 5 {
      DoubledGrows(attempt);
    } else {
      assert Doubled(1) == 2;
      assert Doubled(3) == 8;
      assert Doubled(5) == 32;
    }
  }

  /** A burst capped at `n` attempts sleeps after all but the last of them. */
  lemma {:induction false} SleptInAll(n: nat)
    requires n >= 6
    ensures Slept(n - 1) == 62 + 60 * (n - 6)
  {
    if n == 6 {
      assert Slept(2) == 6;
      assert Doubled(2) == 4 && Doubled(3) == 8 && Doubled(4) == 16;
      assert Slept(4) == 30;
    } else {
      SleptInAll(n - 1);
    }
  }

  lemma {:induction false} SleptGrows(a: nat, b: nat)
    requires a <= b
    ensures Slept(a) <= Slept(b)
  {
    if a == b {
    } else {
      SleptGrows(a, b - 1);
    }
  }

  // --- The supervisor among the operator's calls ---

  datatype Phase = Resting | Dialing(failures: nat) | Sleeping(failures: nat) | Stopped

  /** `tries` and `slept` describe the latest burst. */
  datatype Watch = Watch(phase: Phase, suspended: bool, desired: bool, tries: nat, slept: nat)
  {
    predicate InBurst() { phase.Dialing? || phase.Sleeping? }
  }

  datatype Move =
    | StatusEvent(read: Status)
    | Attempt(after: Status)
    | Wake
    | ApiConnect
    | ApiReconnect
    | ApiDisconnect
    | Shutdown

  predicate Enabled(w: Watch, move: Move) {
    match move
    case StatusEvent(_) => w.phase.Resting?
    case Attempt(_) => w.phase.Dialing?
    case Wake => w.phase.Sleeping?
    case _ => true
  }

  function Step(w: Watch, move: Move): Watch
    requires Enabled(w, move)
  {
    match move
    case StatusEvent(read) =>
      var w1 := if read.Connected? then w.(suspended := false) else w;
      if w1.desired && Decide(read, true).Redial? && !w1.suspended
      then w1.(phase := Dialing(0), tries := 0, slept := 0)
      else w1
    case Attempt(after) =>
      var (n, w1) := (w.phase.failures, w.(tries := w.tries + 1));
      if !Decide(after, true).Redial? then w1.(phase := Resting)
      else if ShouldGiveUp(n + 1) then w1.(phase := Resting, suspended := true)
      else w1.(phase := Sleeping(n + 1))
    case Wake =>
      var n := w.phase.failures;
      w.(phase := Dialing(n), slept := w.slept + if n == 0 then 0 else BackoffDelay(n - 1))
    case ApiConnect => w.(desired := true, suspended := false)
    case ApiReconnect => w
    case ApiDisconnect => w.(desired := false)
    case Shutdown => w.(phase := Stopped)
  }

  /** After boot: dialling at once if a profile is desired. */
  function Boot(desired: bool): Watch {
    Watch(if desired then Dialing(0) else Resting, false, desired, 0, 0)
  }

  /** Boot dials exactly if a profile is desired, with the latch open. */
  lemma BootDials(desired: bool)
    ensures var w := Boot(desired); w.desired == desired && !w.suspended && (w.InBurst() <==> desired)
  {
  }

  ghost predicate Possible(w: Watch, moves: seq<Move>)
    decreases |moves|, 0
  {
    moves == [] ||
      var n := |moves| - 1;
      Possible(w, moves[..n]) && Enabled(After(w, moves[..n]), moves[n])
  }

  ghost function After(w: Watch, moves: seq<Move>): Watch
    requires Possible(w, moves)
    decreases |moves|, 1
  {
    if moves == [] then w
    else
      var n := |moves| - 1;
      Step(After(w, moves[..n]), moves[n])
  }

  predicate Inv(w: Watch) {
    && (w.phase.Dialing? ==> w.phase.failures < MAX_ATTEMPTS && w.tries == w.phase.failures && w.slept == Slept(w.tries))
    && (w.phase.Sleeping? ==>
          0 < w.phase.failures < MAX_ATTEMPTS && w.tries == w.phase.failures && w.slept == Slept(w.tries - 1))
    && w.tries <= MAX_ATTEMPTS && w.slept <= Slept(MAX_ATTEMPTS - 1)
  }

  lemma StepKeeps(w: Watch, move: Move)
    requires Inv(w) && Enabled(w, move)
    ensures Inv(Step(w, move))
  {
    hide Slept, BackoffDelay, Decide;
    NothingSlept();
    if w.phase.Sleeping? {
      SleptOneMore(w.phase.failures - 1);
      SleptGrows(w.phase.failures, MAX_ATTEMPTS - 1);
    }
  }

  /** Every burst of every run makes at most ten attempts and sleeps at most
      302 seconds. */
  lemma {:induction false} BurstsAreBounded(desired: bool, moves: seq<Move>)
    requires Possible(Boot(desired), moves)
    ensures Inv(After(Boot(desired), moves))
    ensures var w := After(Boot(desired), moves); w.tries <= 10 && w.slept <= 302
  {
    SleptInAll(MAX_ATTEMPTS);
    if moves == [] {
    } else {
      var n := |moves| - 1;
      BurstsAreBounded(desired, moves[..n]);
      StepKeeps(After(Boot(desired), moves[..n]), moves[n]);
    }
  }

  predicate Rearms(move: Move) {
    move.ApiConnect? || (move.StatusEvent? && move.read.Connected?)
  }

  predicate GivesUp(w: Watch, move: Move) {
    w.phase.Dialing? && move.Attempt? && IsDown(move.after) && w.phase.failures + 1 >= 10
  }

  lemma PrefixPossible(w: Watch, moves: seq<Move>, n: nat)
    requires Possible(w, moves) && n <= |moves|
    ensures Possible(w, moves[..n])
    decreases |moves| - n
  {
    if n == |moves| {
      assert moves[..n] == moves;
    } else {
      PrefixPossible(w, moves, n + 1);
      assert moves[..n + 1][..n] == moves[..n];
    }
  }

  lemma StepOfRun(w: Watch, moves: seq<Move>, n: nat)
    requires Possible(w, moves) && n < |moves|
    ensures Possible(w, moves[..n]) && Possible(w, moves[..n + 1])
    ensures Enabled(After(w, moves[..n]), moves[n])
    ensures After(w, moves[..n + 1]) == Step(After(w, moves[..n]), moves[n])
  {
    PrefixPossible(w, moves, n);
    PrefixPossible(w, moves, n + 1);
    assert moves[..n + 1][..n] == moves[..n];
  }

  /** Once a burst has given up, the supervisor dials again only after an API
      connect or a status read as connected; the API's reconnect is neither. */
  lemma LatchHolds(w: Watch, moves: seq<Move>, i: nat, j: nat)
    requires Possible(w, moves) && i < j < |moves| && Possible(w, moves[..i])
    requires GivesUp(After(w, moves[..i]), moves[i]) && moves[j].Attempt?
    ensures exists k :: i < k < j && Rearms(moves[k])
  {
    if forall k :: i < k < j ==> !Rearms(moves[k]) {
      StaysLatched(w, moves, i, j);
      StepOfRun(w, moves, j);
      assert false;
    }
  }

  lemma {:induction false} StaysLatched(w: Watch, moves: seq<Move>, i: nat, j: nat)
    requires Possible(w, moves) && i < j <= |moves| && Possible(w, moves[..i])
    requires GivesUp(After(w, moves[..i]), moves[i])
    requires forall k :: i < k < j ==> !Rearms(moves[k])
    ensures Possible(w, moves[..j])
    ensures var c := After(w, moves[..j]); c.suspended && !c.InBurst()
    decreases j
  {
    hide Step, After, Possible, Rearms, GivesUp;
    StepOfRun(w, moves, j - 1);
    var c := After(w, moves[..j - 1]);
    if i < j - 1 {
      StaysLatched(w, moves, i, j - 1);
      QuietStep(c, moves[j - 1]);
    } else {
      LatchingStep(c, moves[i]);
    }
  }

  lemma LatchingStep(w: Watch, move: Move)
    requires GivesUp(w, move)
    ensures Enabled(w, move) && Step(w, move).suspended && !Step(w, move).InBurst()
  {
  }

  lemma QuietStep(w: Watch, move: Move)
    requires w.suspended && !w.InBurst() && Enabled(w, move) && !Rearms(move)
    ensures Step(w, move).suspended && !Step(w, move).InBurst()
  {
  }

  /** A status read while resting starts a burst exactly if the tunnel is down, a
      profile is desired and the latch is open; read as connected it opens the
      latch; any other read changes nothing. */
  lemma ReadStarts(w: Watch, read: Status)
    requires w.phase.Resting?
    ensures var w' := Step(w, StatusEvent(read));
      if IsDown(read) && w.desired && !w.suspended then w' == Watch(Dialing(0), false, true, 0, 0)
      else w' == w.(suspended := w.suspended && !read.Connected?)
  {
  }

  /** After an attempt a burst goes on exactly if the tunnel is down and the
      attempt was not its tenth, and latches exactly if it was. */
  lemma AttemptGoesOn(w: Watch, after: Status)
    requires w.phase.Dialing?
    ensures var w' := Step(w, Attempt(after));
      && w'.tries == w.tries + 1 && w'.desired == w.desired
      && (w'.InBurst() <==> IsDown(after) && w.phase.failures + 1 < 10)
      && (w'.InBurst() ==> w'.phase == Sleeping(w.phase.failures + 1))
      && (w'.suspended <==> w.suspended || (IsDown(after) && w.phase.failures + 1 >= 10))
  {
  }

  /** Re-arming works, and nothing else does: after any move that leaves the
      supervisor resting, a drop starts a burst exactly if a profile is desired
      by then and the latch was open before or the move re-arms. */
  lemma RearmedDials(w: Watch, move: Move, drop: Status)
    requires Enabled(w, move) && Step(w, move).phase.Resting? && !GivesUp(w, move) && IsDown(drop)
    ensures Enabled(Step(w, move), StatusEvent(drop))
    ensures Step(Step(w, move), StatusEvent(drop)).phase == Dialing(0) <==>
      && (move.ApiConnect? || (w.desired && !move.ApiDisconnect?))
      && (!w.suspended || Rearms(move))
  {
  }

  /** After a shutdown nothing is ever dialled again. */
  lemma {:induction false} ShutdownIsFinal(w: Watch, moves: seq<Move>, after: Status)
    ensures var w' := Step(w, Shutdown);
      && !Possible(w', moves + [Attempt(after)])
      && (Possible(w', moves) ==> After(w', moves).phase.Stopped?)
  {
    assert (moves + [Attempt(after)])[..|moves|] == moves;
    if moves == [] {
    } else {
      var n := |moves| - 1;
      ShutdownIsFinal(w, moves[..n], after);
    }
  }

  // --- The operator's disconnect ---

  /** An operator's disconnect keeps the supervisor from dialling until the next
      API connect exactly when no burst is under way: a running burst never
      looks at the intent again. */
  lemma DisconnectSilences(w: Watch)
    ensures var w' := Step(w, ApiDisconnect);
      (exists moves, after ::
        (forall m: Move :: m in moves ==> !m.ApiConnect?) && Possible(w', moves + [Attempt(after)]))
      <==> w.InBurst()
  {
    var w' := Step(w, ApiDisconnect);
    hide Possible, Step;
    if w.InBurst() {
      var moves := BurstGoesOn(w');
      assert forall m: Move :: m in moves ==> !m.ApiConnect?;
    }
    if moves: seq<Move>, after: Status :|
      (forall m: Move :: m in moves ==> !m.ApiConnect?) && Possible(w', moves + [Attempt(after)]) && !w.InBurst()
    {
      NoAttempt(w', moves, after);
      assert false;
    }
  }

  lemma BurstGoesOn(w: Watch) returns (moves: seq<Move>)
    requires w.InBurst()
    ensures moves == [] || moves == [Wake]
    ensures Possible(w, moves + [Attempt(Disconnected)])
  {
    moves := if w.phase.Dialing? then [] else [Wake];
    assert Possible(w, []);
    assert [Wake][..0] == [];
    assert Possible(w, moves);
    assert (moves + [Attempt(Disconnected)])[..|moves|] == moves;
  }

  lemma NoAttempt(w: Watch, moves: seq<Move>, after: Status)
    requires !w.desired && !w.InBurst() && forall m: Move :: m in moves ==> !m.ApiConnect?
    ensures !Possible(w, moves + [Attempt(after)])
  {
    if Possible(w, moves + [Attempt(after)]) {
      assert (moves + [Attempt(after)])[..|moves|] == moves;
      StaysIdle(w, moves);
      assert false;
    }
  }

  lemma {:induction false} StaysIdle(w: Watch, moves: seq<Move>)
    requires Possible(w, moves) && !w.desired && !w.InBurst() && forall m: Move :: m in moves ==> !m.ApiConnect?
    ensures var c := After(w, moves); !c.desired && !c.InBurst()
  {
    if moves == [] {
    } else {
      StaysIdle(w, moves[..|moves| - 1]);
    }
  }

  // --- One burst ---

  /** The status the tunnel shows after attempt `k`, and whether shutdown comes
      before attempt `k` or in the sleep after it. */
  datatype Surroundings = Surroundings(after: nat -> Status, stopBefore: nat -> bool, stopAsleep: nat -> bool)
  {
    predicate Failed(k: nat) {
      IsDown(after(k))
    }
  }

  /** The supervisor as a burst begins: only a desired profile starts one. */
  function BurstStart(suspended: bool): Watch {
    Watch(Dialing(0), suspended, true, 0, 0)
  }

  lemma NoMoves(w: Watch)
    ensures Possible(w, []) && After(w, []) == w
  {
  }

  lemma OneMore(w: Watch, moves: seq<Move>, move: Move) returns (longer: seq<Move>)
    requires Possible(w, moves) && Enabled(After(w, moves), move)
    ensures Possible(w, longer) && After(w, longer) == Step(After(w, moves), move)
  {
    longer := moves + [move];
    assert longer[..|moves|] == moves;
  }

  /** A burst among the calls begins exactly as the loop does. */
  lemma BurstsStartSo(w: Watch, move: Move)
    requires w.phase.Resting? && Enabled(w, move) && Step(w, move).InBurst()
    ensures Step(w, move) == BurstStart(false) && w.desired
  {
  }

  class Supervisor {
    var suspended: bool

    constructor ()
      ensures !suspended
    {
      suspended := false;
    }

    /** A burst dials until an attempt holds, shutdown, or the cap. It latches
        exactly when the first ten attempts all failed and nothing stopped it
        in between. It is a run of the supervisor above, one move for each
        attempt, each sleep and the shutdown. */
    method InitiateWithBackoff(s: Surroundings) returns (attempts: nat, slept: nat, ghost moves: seq<Move>)
      modifies this
      ensures Possible(BurstStart(old(suspended)), moves)
      ensures var w := After(BurstStart(old(suspended)), moves);
        !w.InBurst() && w.tries == attempts && w.slept == slept && w.suspended == suspended
      ensures attempts <= 10 && slept <= 302 && (attempts == 10 ==> slept == 302)
      ensures forall k :: 0 <= k < attempts - 1 ==> s.Failed(k) && !s.stopAsleep(k)
      ensures forall k :: 0 <= k < attempts ==> !s.stopBefore(k)
      ensures slept == Slept(attempts) || (attempts > 0 && slept == Slept(attempts - 1))
      ensures attempts == 0 ==> s.stopBefore(0)
      ensures 0 < attempts < 10 ==>
        !s.Failed(attempts - 1) || s.stopAsleep(attempts - 1) || s.stopBefore(attempts)
      ensures suspended <==>
        old(suspended) || (forall k :: 0 <= k < 10 ==>
          s.Failed(k) && !s.stopBefore(k) && (k < 9 ==> !s.stopAsleep(k)))
    {
      hide Slept, BackoffDelay, Decide, Possible, After;
      SleptInAll(MAX_ATTEMPTS);
      NothingSlept();
      NoMoves(BurstStart(suspended));
      var failures := 0;
      attempts, slept, moves := 0, 0, [];
      while true
        invariant attempts == failures < MAX_ATTEMPTS && slept == Slept(failures)
        invariant suspended == old(suspended)
        invariant forall k :: 0 <= k < failures ==> s.Failed(k) && !s.stopBefore(k) && !s.stopAsleep(k)
        invariant Possible(BurstStart(suspended), moves)
        invariant After(BurstStart(suspended), moves) == Watch(Dialing(failures), suspended, true, attempts, slept)
        decreases MAX_ATTEMPTS - failures
      {
        SleptGrows(failures, MAX_ATTEMPTS - 1);
        SleptOneMore(failures);
        ghost var start := BurstStart(suspended);
        if s.stopBefore(failures) {
          moves := OneMore(start, moves, Shutdown);
          return;
        }
        attempts := attempts + 1;
        DecideIs(s.after(failures), true);
        moves := OneMore(start, moves, Attempt(s.after(failures)));
        if !Decide(s.after(failures), true).Redial? { return; }
        var d := BackoffDelay(failures);
        failures := failures + 1;
        if ShouldGiveUp(failures) {
          suspended := true;
          return;
        }
        if s.stopAsleep(failures - 1) {
          moves := OneMore(start, moves, Shutdown);
          return;
        }
        slept := slept + d;
        moves := OneMore(start, moves, Wake);
      }
    }
  }
}
