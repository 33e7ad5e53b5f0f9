/** Token renewal in the client: any number of tasks share an access token, a
    refresh token and one lock, against a server whose refresh sessions are good
    for one exchange (apps/snx-edge-client/src/api.rs,
    apps/snx-edge-server/src/api/auth.rs). */
module ClientRefresh {
  import opened Text

  /** Where a task stands. `header` is the token its request carries, `stale`
      the token it read afterwards. */
  datatype Pc =
    | Idle
    | Built(header: Option<nat>)
    | Sent(header: Option<nat>, stale: Option<nat>)
    | Rejected(header: Option<nat>, stale: Option<nat>)
    | Locked(header: Option<nat>, stale: Option<nat>)
    | Asking(header: Option<nat>, stale: Option<nat>, rt: nat)
    | Answered(access: nat, rotated: nat)
    | Stored(rotated: nat)
    | Leaving
  {
    predicate Critical() {
      Locked? || Asking? || Answered? || Stored? || Leaving?
    }
  }

  /** The shared cells, the tasks, and the server's live sessions for this
      login. `spent` lists the access tokens for which the server has carried out
      an exchange; `broken` says that an answer was lost or the login revoked. */
  datatype System = System(
    token: Option<nat>, refresh: Option<nat>, lock: Option<nat>, tasks: seq<Pc>,
    live: set<nat>, next: nat, spent: seq<Option<nat>>, broken: bool)

  datatype Move =
    | Build(t: nat)
    | Send(t: nat)
    | Accept(t: nat)
    | Reject(t: nat)
    | Lock(t: nat)
    | Compare(t: nat)
    | Exchange(t: nat)
    | Lose(t: nat)
    | Fail(t: nat)
    | StoreAccess(t: nat)
    | StoreRefresh(t: nat)
    | Unlock(t: nat)
    | Revoke(session: nat)

  predicate Enabled(c: System, move: Move) {
    if move.Revoke? then true
    else
      move.t < |c.tasks| &&
      var pc := c.tasks[move.t];
      match move
      case Build(_) => pc.Idle?
      case Send(_) => pc.Built?
      case Accept(_) | Reject(_) => pc.Sent?
      case Lock(_) => pc.Rejected? && c.lock.None?
      case Compare(_) => pc.Locked?
      case Exchange(_) | Lose(_) | Fail(_) => pc.Asking?
      case StoreAccess(_) => pc.Answered?
      case StoreRefresh(_) => pc.Stored?
      case Unlock(_) => pc.Leaving?
  }

  function At(c: System, t: nat, pc: Pc): System
    requires t < |c.tasks|
  {
    c.(tasks := c.tasks[t := pc])
  }

  /** The server trades a live session for a new one and a new access token, in
      place of the token the task found stale. */
  function Trade(c: System, pc: Pc): System
    requires pc.Asking?
  {
    c.(live := c.live - {pc.rt} + {c.next + 1}, next := c.next + 2, spent := c.spent + [pc.stale])
  }

  function Step(c: System, move: Move): System
    requires Enabled(c, move)
  {
    match move
    case Build(t) => At(c, t, Built(c.token))
    case Send(t) => At(c, t, Sent(c.tasks[t].header, c.token))
    case Accept(t) => At(c, t, Idle)
    case Reject(t) => At(c, t, Rejected(c.tasks[t].header, c.tasks[t].stale))
    case Lock(t) => At(c, t, Locked(c.tasks[t].header, c.tasks[t].stale)).(lock := Some(t))
    case Compare(t) =>
      if c.token != c.tasks[t].stale || c.refresh.None? then At(c, t, Leaving)
      else At(c, t, Asking(c.tasks[t].header, c.tasks[t].stale, c.refresh.value))
    case Exchange(t) =>
      var pc := c.tasks[t];
      if pc.rt in c.live then At(Trade(c, pc), t, Answered(c.next, c.next + 1)) else At(c, t, Leaving)
    case Lose(t) =>
      var pc := c.tasks[t];
      if pc.rt in c.live then At(Trade(c, pc), t, Leaving).(broken := true) else At(c, t, Leaving)
    case Fail(t) => At(c, t, Leaving)
    case StoreAccess(t) =>
      At(c, t, Stored(c.tasks[t].rotated)).(token := Some(c.tasks[t].access))
    case StoreRefresh(t) => At(c, t, Leaving).(refresh := Some(c.tasks[t].rotated))
    case Unlock(t) => At(c, t, Idle).(lock := None)
    case Revoke(session) => c.(live := c.live - {session}, broken := c.broken || session in c.live)
  }

  /** A client just signed in, or one without tokens; no task under way. */
  predicate Start(c: System) {
    && c.lock.None? && c.spent == [] && !c.broken
    && (forall t :: 0 <= t < |c.tasks| ==> c.tasks[t].Idle?)
    && (c.token.Some? ==> c.token.value < c.next)
    && (c.refresh.Some? ==> c.refresh.value < c.next)
    && c.live == Only(c.refresh)
  }

  function Only(x: Option<nat>): set<nat> {
    if x.Some? then {x.value} else {}
  }

  ghost predicate Possible(c: System, moves: seq<Move>)
    decreases |moves|, 0
  {
    moves == [] ||
      var n := |moves| - 1;
      Possible(c, moves[..n]) && Enabled(After(c, moves[..n]), moves[n])
  }

  ghost function After(c: System, moves: seq<Move>): System
    requires Possible(c, moves)
    decreases |moves|, 1
  {
    if moves == [] then c
    else
      var n := |moves| - 1;
      Step(After(c, moves[..n]), moves[n])
  }

  // --- Invariants ---

  /** Exactly the lock's holder is past the lock. */
  predicate Exclusive(c: System) {
    && (forall t :: 0 <= t < |c.tasks| ==> (c.tasks[t].Critical() <==> c.lock == Some(t)))
    && (c.lock.Some? ==> c.lock.value < |c.tasks|)
  }

  function Holder(c: System): Pc {
    if c.lock.Some? && c.lock.value < |c.tasks| then c.tasks[c.lock.value] else Idle
  }

  /** The refresh token of the newest session the client has heard of, `pc`
      being where the lock's holder stands. */
  function Newest(c: System, pc: Pc): Option<nat> {
    if pc.Answered? || pc.Stored? then Some(pc.rotated) else c.refresh
  }

  predicate Distinct(spent: seq<Option<nat>>) {
    forall i, j :: 0 <= i < j < |spent| ==> spent[i] != spent[j]
  }

  lemma DistinctGrows(spent: seq<Option<nat>>, x: Option<nat>)
    requires Distinct(spent) && x !in spent
    ensures Distinct(spent + [x])
  {
  }

  function Age(token: Option<nat>): int {
    if token.None? then -1 else token.value
  }

  /** No access token was spent twice; the holder asks for the token in use,
      which is unspent while the login holds; and an answered one is newer than
      all before. */
  predicate NeverTwice(c: System, pc: Pc) {
    && Distinct(c.spent)
    && (forall x :: x in c.spent ==> Age(x) < c.next)
    && Age(c.token) < c.next
    && (pc.Asking? ==> pc.stale == c.token)
    && (!c.broken && !pc.Answered? ==> c.token !in c.spent)
    && (pc.Answered? ==> pc.access < c.next && Age(c.token) < pc.access && Some(pc.access) !in c.spent)
  }

  /** The newest session is the live one, or dead once the login is broken. */
  predicate Chained(c: System, pc: Pc) {
    && (pc.Asking? ==> c.refresh == Some(pc.rt))
    && (if c.broken then Newest(c, pc).Some? ==> Newest(c, pc).value !in c.live else c.live == Only(Newest(c, pc)))
    && (Newest(c, pc).Some? ==> Newest(c, pc).value < c.next)
  }

  predicate Inv(c: System) {
    Exclusive(c) && NeverTwice(c, Holder(c)) && Chained(c, Holder(c))
  }

  /** Where the holder stands after a move, `pc` being where it stood. */
  function HolderAfter(c: System, pc: Pc, move: Move): Pc
    requires Enabled(c, move)
  {
    match move
    case Build(_) | Send(_) | Accept(_) | Reject(_) | Revoke(_) => pc
    case Unlock(_) => Idle
    case _ => Step(c, move).tasks[move.t]
  }

  lemma StepExclusive(c: System, move: Move)
    requires Exclusive(c) && Enabled(c, move)
    ensures Exclusive(Step(c, move))
    ensures Holder(Step(c, move)) == HolderAfter(c, Holder(c), move)
    ensures !move.Revoke? && c.tasks[move.t].Critical() ==> Holder(c) == c.tasks[move.t]
    ensures move.Lock? ==> Holder(c) == Idle
  {
    if !move.Revoke? {
      hide Exclusive;
      OneTaskMoves(c, Step(c, move), move.t);
    }
  }

  /** One task moves on, and takes or frees the lock if it crosses it. */
  lemma OneTaskMoves(c: System, c': System, t: nat)
    requires Exclusive(c) && t < |c.tasks| && |c'.tasks| == |c.tasks| && c'.tasks == c.tasks[t := c'.tasks[t]]
    requires c'.tasks[t].Critical() && !c.tasks[t].Critical() ==> c.lock.None?
    requires c'.lock ==
      if c'.tasks[t].Critical() == c.tasks[t].Critical() then c.lock
      else if c'.tasks[t].Critical() then Some(t) else None
    ensures Exclusive(c')
    ensures c.tasks[t].Critical() <==> c.lock == Some(t)
    ensures c.lock.Some? ==> c.lock.value < |c.tasks|
  {
  }

  lemma StepNeverTwice(c: System, pc: Pc, move: Move)
    requires Enabled(c, move) && NeverTwice(c, pc) && Chained(c, pc)
    requires !move.Revoke? && c.tasks[move.t].Critical() ==> pc == c.tasks[move.t]
    requires move.Lock? ==> pc == Idle
    ensures NeverTwice(Step(c, move), HolderAfter(c, pc, move))
  {
    hide Distinct;
    if move.Exchange? || move.Lose? {
      if pc.rt in c.live { DistinctGrows(c.spent, c.token); }
    }
  }

  lemma StepChained(c: System, pc: Pc, move: Move)
    requires Enabled(c, move) && Chained(c, pc)
    requires !move.Revoke? && c.tasks[move.t].Critical() ==> pc == c.tasks[move.t]
    requires move.Lock? ==> pc == Idle
    ensures Chained(Step(c, move), HolderAfter(c, pc, move))
  {
  }

  lemma StepKeeps(c: System, move: Move)
    requires Inv(c) && Enabled(c, move)
    ensures Inv(Step(c, move))
  {
    hide Exclusive, Holder, Step, HolderAfter, NeverTwice, Chained;
    StepExclusive(c, move);
    StepNeverTwice(c, Holder(c), move);
    StepChained(c, Holder(c), move);
  }

  lemma {:induction false} RunKeeps(c: System, moves: seq<Move>)
    requires Start(c) && Possible(c, moves)
    ensures Inv(After(c, moves))
  {
    if moves == [] {
    } else {
      var n := |moves| - 1;
      RunKeeps(c, moves[..n]);
      hide Inv, Step;
      StepKeeps(After(c, moves[..n]), moves[n]);
    }
  }

  // --- One exchange a token ---

  /** However the tasks interleave, whatever fails and whichever answers are
      lost, the server carries out at most one exchange for any access token
      found stale. This rests on the lock, on the comparison made under it, and
      on the server taking a session only once. */
  lemma NoTokenSpentTwice(c: System, moves: seq<Move>, i: nat, j: nat)
    requires Start(c) && Possible(c, moves)
    requires var spent := After(c, moves).spent; i < j < |spent|
    ensures After(c, moves).spent[i] != After(c, moves).spent[j]
  {
    RunKeeps(c, moves);
  }

  /** Every exchange presents a live session exactly as long as no answer was
      lost and nothing revoked; and while the lock is free the stored refresh
      token is live under the same condition. */
  lemma PresentsLiveSessions(c: System, moves: seq<Move>, t: nat)
    requires Start(c) && Possible(c, moves)
    ensures var c' := After(c, moves);
      && (t < |c'.tasks| && c'.tasks[t].Asking? ==> (c'.tasks[t].rt in c'.live <==> !c'.broken))
      && (c'.lock.None? && c'.refresh.Some? ==> (c'.refresh.value in c'.live <==> !c'.broken))
  {
    RunKeeps(c, moves);
  }

  /** Two tasks are never exchanging at the same time. */
  lemma OneExchangeAtATime(c: System, moves: seq<Move>, t: nat, u: nat)
    requires Start(c) && Possible(c, moves)
    requires var tasks := After(c, moves).tasks; t < |tasks| && u < |tasks| && tasks[t].Critical() && tasks[u].Critical()
    ensures t == u
  {
    RunKeeps(c, moves);
  }

  /** Once broken, the login cannot be renewed: the access token in use never
      changes again, except by an exchange that was already answered. */
  lemma {:induction false} BrokenForGood(c: System, moves: seq<Move>, more: seq<Move>)
    requires Start(c) && Possible(c, moves) && After(c, moves).broken && !Holder(After(c, moves)).Answered?
    requires Possible(After(c, moves), more)
    ensures var (s, s') := (After(c, moves), After(After(c, moves), more));
      s'.broken && s'.token == s.token
    ensures Inv(After(After(c, moves), more)) && !Holder(After(After(c, moves), more)).Answered?
  {
    RunKeeps(c, moves);
    var s := After(c, moves);
    if more == [] {
    } else {
      hide Inv, Exclusive, Holder, Step;
      var n := |more| - 1;
      BrokenForGood(c, moves, more[..n]);
      BrokenStep(After(s, more[..n]), more[n]);
    }
  }

  lemma BrokenStep(c: System, move: Move)
    requires Inv(c) && Enabled(c, move) && c.broken && !Holder(c).Answered?
    ensures var c' := Step(c, move); Inv(c') && c'.broken && c'.token == c.token && !Holder(c').Answered?
  {
    hide Exclusive, Holder, NeverTwice;
    StepKeeps(c, move);
    StepExclusive(c, move);
  }

  lemma Begin(c: System)
    ensures Possible(c, []) && After(c, []) == c && Refused(c, []) == {}
  {
  }

  lemma Extend(c: System, moves: seq<Move>, move: Move) returns (longer: seq<Move>)
    requires Possible(c, moves) && Enabled(After(c, moves), move)
    ensures longer == moves + [move]
    ensures Possible(c, longer) && After(c, longer) == Step(After(c, moves), move)
    ensures Refused(c, longer) ==
      Refused(c, moves) + if move.Reject? then {After(c, moves).tasks[move.t].header} else {}
  {
    longer := moves + [move];
    assert longer[..|moves|] == moves;
  }

  predicate MayRenew(c: System, t: nat) {
    && t < |c.tasks| && c.tasks[t].Rejected? && c.lock.None?
    && c.token == c.tasks[t].stale && c.refresh.Some? && c.refresh.value in c.live
  }

  function Renewed(c: System, t: nat): System
    requires MayRenew(c, t)
  {
    At(Trade(c, Asking(c.tasks[t].header, c.token, c.refresh.value)), t, Idle)
    .(token := Some(c.next), refresh := Some(c.next + 1))
  }

  /** A task that runs from lock to unlock with no other move in between. */
  lemma RenewsAlone(c: System, moves: seq<Move>, t: nat) returns (longer: seq<Move>)
    requires Possible(c, moves) && MayRenew(After(c, moves), t)
    ensures Possible(c, longer) && After(c, longer) == Renewed(After(c, moves), t)
    ensures Refused(c, longer) == Refused(c, moves)
  {
    hide Possible, After, Refused;
    longer := Extend(c, moves, Lock(t));
    longer := Extend(c, longer, Compare(t));
    longer := Extend(c, longer, Exchange(t));
    longer := Extend(c, longer, StoreAccess(t));
    longer := Extend(c, longer, StoreRefresh(t));
    longer := Extend(c, longer, Unlock(t));
    var tasks := After(c, moves).tasks;
    assert After(c, longer).tasks == tasks[t := Idle];
  }

  const PAIR: System := System(Some(0), Some(1), None, [Idle, Idle], {1}, 2, [], false)

  lemma SecondTaskRenews() returns (moves: seq<Move>)
    ensures Possible(PAIR, moves)
    ensures After(PAIR, moves) == System(Some(2), Some(3), None, [Built(Some(0)), Idle], {3}, 4, [Some(0)], false)
    ensures Refused(PAIR, moves) == {Some(0)}
  {
    hide Possible, After, Refused;
    Begin(PAIR);
    moves := Extend(PAIR, [], Build(0));
    moves := Extend(PAIR, moves, Build(1));
    moves := Extend(PAIR, moves, Send(1));
    moves := Extend(PAIR, moves, Reject(1));
    assert After(PAIR, moves) ==
      PAIR.(tasks := [Built(Some(0)), Rejected(Some(0), Some(0))]);
    moves := RenewsAlone(PAIR, moves, 1);
  }

  /** The tokens carried by requests the server refused. */
  ghost function Refused(c: System, moves: seq<Move>): set<Option<nat>>
    requires Possible(c, moves)
  {
    if moves == [] then {}
    else
      var n := |moves| - 1;
      Refused(c, moves[..n])
      + if moves[n].Reject? then {After(c, moves[..n]).tasks[moves[n].t].header} else {}
  }

  /** The token spent need not be one the server refused: a request built before
      another task's renewal, and sent after it, spends the new token. */
  lemma RefusesOneSpendsAnother() returns (moves: seq<Move>)
    ensures Start(PAIR) && Possible(PAIR, moves)
    ensures After(PAIR, moves).token == Some(4) && After(PAIR, moves).spent == [Some(0), Some(2)]
    ensures Refused(PAIR, moves) == {Some(0)}
  {
    hide Possible, After, Refused;
    moves := SecondTaskRenews();
    moves := Extend(PAIR, moves, Send(0));
    moves := Extend(PAIR, moves, Reject(0));
    moves := Extend(PAIR, moves, Lock(0));
    moves := Extend(PAIR, moves, Compare(0));
    moves := Extend(PAIR, moves, Exchange(0));
    moves := Extend(PAIR, moves, StoreAccess(0));
  }

  // --- When the spent token is the refused one ---

  lemma PrefixPossible(c: System, moves: seq<Move>, n: nat)
    requires Possible(c, moves) && n <= |moves|
    ensures Possible(c, moves[..n])
    decreases |moves| - n
  {
    if n == |moves| {
      assert moves[..n] == moves;
    } else {
      PrefixPossible(c, moves, n + 1);
      assert moves[..n + 1][..n] == moves[..n];
    }
  }

  lemma LastStep(c: System, moves: seq<Move>, n: nat)
    requires Possible(c, moves) && n < |moves|
    ensures Possible(c, moves[..n]) && Possible(c, moves[..n + 1]) && Enabled(After(c, moves[..n]), moves[n])
    ensures After(c, moves[..n + 1]) == Step(After(c, moves[..n]), moves[n])
  {
    PrefixPossible(c, moves, n);
    PrefixPossible(c, moves, n + 1);
    assert moves[..n + 1][..n] == moves[..n];
  }

  lemma StepAges(c: System, move: Move)
    requires Inv(c) && Enabled(c, move)
    ensures var c' := Step(c, move);
      if move.StoreAccess? then Age(c.token) < Age(c'.token) else c'.token == c.token
  {
    StepExclusive(c, move);
  }

  ghost predicate NoStore(moves: seq<Move>, i: nat, j: nat) {
    forall k :: i <= k < j && k < |moves| ==> !moves[k].StoreAccess?
  }

  /** The token in use only gets newer, at each store; so it is the same at two
      moments exactly when no store lies between. */
  lemma {:induction false} TokenAges(c: System, moves: seq<Move>, i: nat, j: nat)
    requires Start(c) && Possible(c, moves) && i <= j <= |moves|
    ensures Possible(c, moves[..i]) && Possible(c, moves[..j])
    ensures var (a, b) := (After(c, moves[..i]).token, After(c, moves[..j]).token);
      && Age(a) <= Age(b)
      && (a == b <==> NoStore(moves, i, j))
    decreases j
  {
    hide Inv, Possible, Step, After, Start, Enabled, Age;
    PrefixPossible(c, moves, i);
    PrefixPossible(c, moves, j);
    if i == j {
    } else {
      hide NoStore;
      TokenAges(c, moves, i, j - 1);
      TokenAgesOnce(c, moves, j - 1);
      OneMoreStore(moves, i, j - 1);
      AgeTells(After(c, moves[..i]).token, After(c, moves[..j]).token);
      AgeTells(After(c, moves[..i]).token, After(c, moves[..j - 1]).token);
    }
  }

  lemma TokenAgesOnce(c: System, moves: seq<Move>, n: nat)
    requires Start(c) && Possible(c, moves) && n < |moves|
    ensures Possible(c, moves[..n]) && Possible(c, moves[..n + 1])
    ensures var (a, b) := (After(c, moves[..n]).token, After(c, moves[..n + 1]).token);
      if moves[n].StoreAccess? then Age(a) < Age(b) else a == b
  {
    hide Inv, After, Possible, Step;
    LastStep(c, moves, n);
    RunKeeps(c, moves[..n]);
    StepAges(After(c, moves[..n]), moves[n]);
  }

  lemma AgeTells(a: Option<nat>, b: Option<nat>)
    ensures a == b <==> Age(a) == Age(b)
  {
  }

  lemma OneMoreStore(moves: seq<Move>, i: nat, j: nat)
    requires i <= j < |moves|
    ensures NoStore(moves, i, j + 1) <==> NoStore(moves, i, j) && !moves[j].StoreAccess?
  {
  }

  predicate HasRead(pc: Pc) {
    pc.Sent? || pc.Rejected? || pc.Locked? || pc.Asking?
  }

  /** How one task comes to stand where it stands. */
  lemma TaskStep(c: System, move: Move, t: nat)
    requires Enabled(c, move) && t < |c.tasks|
    ensures |Step(c, move).tasks| == |c.tasks|
    ensures var (pc, pc') := (c.tasks[t], Step(c, move).tasks[t]);
      && (pc'.Built? ==>
            if move == Build(t) then pc'.header == c.token
            else move != Send(t) && pc.Built? && pc'.header == pc.header)
      && (HasRead(pc') ==>
            if move == Send(t) then pc.Built? && pc'.header == pc.header && pc'.stale == c.token
            else move != Build(t) && HasRead(pc) && pc'.header == pc.header && pc'.stale == pc.stale)
  {
  }

  ghost predicate IsLast(moves: seq<Move>, move: Move, i: nat) {
    i < |moves| && moves[i] == move && forall k :: i < k < |moves| ==> moves[k] != move
  }

  lemma LastGrows(moves: seq<Move>, move: Move, i: nat)
    requires moves != []
    ensures var n := |moves| - 1;
      && (moves[n] == move ==> IsLast(moves, move, n))
      && (moves[n] != move && IsLast(moves[..n], move, i) ==> IsLast(moves, move, i) && moves[..n][..i] == moves[..i])
  {
  }

  lemma LastIsBefore(moves: seq<Move>, move: Move, i: nat)
    requires IsLast(moves, move, i)
    ensures i < |moves|
  {
  }

  /** A task that has built its request did so at its last Build, with the token
      in use then. */
  lemma {:induction false} BuiltAt(c: System, moves: seq<Move>, t: nat) returns (b: nat)
    requires AllIdle(c) && Possible(c, moves) && t < |After(c, moves).tasks|
    requires After(c, moves).tasks[t].Built?
    ensures IsLast(moves, Build(t), b) && Possible(c, moves[..b])
    ensures After(c, moves).tasks[t].header == After(c, moves[..b]).token
  {
    var n := |moves| - 1;
    if moves == [] {
      assert false;
    } else {
      LastStep(c, moves, n);
      assert moves[..n + 1] == moves;
      hide Step, Possible, After, AllIdle, IsLast;
      TasksStay(c, moves[..n], moves[n]);
      TaskStep(After(c, moves[..n]), moves[n], t);
      if moves[n] == Build(t) {
        b := n;
      } else {
        b := BuiltAt(c, moves[..n], t);
      }
      LastGrows(moves, Build(t), b);
    }
  }

  ghost predicate AllIdle(c: System) {
    forall t :: 0 <= t < |c.tasks| ==> c.tasks[t].Idle?
  }

  lemma TasksStay(c: System, moves: seq<Move>, move: Move)
    requires Possible(c, moves) && Enabled(After(c, moves), move)
    ensures |Step(After(c, moves), move).tasks| == |After(c, moves).tasks|
  {
    hide After, Possible;
  }

  /** One that has sent it read the token again at its last Send. */
  lemma {:induction false} ReadAt(c: System, moves: seq<Move>, t: nat) returns (b: nat, s: nat)
    requires AllIdle(c) && Possible(c, moves) && t < |After(c, moves).tasks|
    requires HasRead(After(c, moves).tasks[t])
    ensures b < s && IsLast(moves, Build(t), b) && IsLast(moves, Send(t), s)
    ensures Possible(c, moves[..b]) && Possible(c, moves[..s])
    ensures After(c, moves).tasks[t].header == After(c, moves[..b]).token
    ensures After(c, moves).tasks[t].stale == After(c, moves[..s]).token
  {
    var n := |moves| - 1;
    if moves == [] {
      assert false;
    } else {
      LastStep(c, moves, n);
      assert moves[..n + 1] == moves;
      hide Step, Possible, After, AllIdle, IsLast;
      TasksStay(c, moves[..n], moves[n]);
      TaskStep(After(c, moves[..n]), moves[n], t);
      if moves[n] == Send(t) {
        b := BuiltAt(c, moves[..n], t);
        s := n;
        LastIsBefore(moves[..n], Build(t), b);
      } else {
        b, s := ReadAt(c, moves[..n], t);
      }
      LastGrows(moves, Build(t), b);
      LastGrows(moves, Send(t), s);
    }
  }

  /** A task about to exchange, or asking for the exchange, spends the very token
      its refused request carried exactly when no other renewal was stored
      between building the request and sending it. */
  lemma SpendsRefusedWhen(c: System, moves: seq<Move>, t: nat) returns (b: nat, s: nat)
    requires Start(c) && Possible(c, moves) && t < |After(c, moves).tasks|
    requires HasRead(After(c, moves).tasks[t])
    ensures b < s && IsLast(moves, Build(t), b) && IsLast(moves, Send(t), s)
    ensures var pc := After(c, moves).tasks[t]; pc.header == pc.stale <==> NoStore(moves, b, s)
  {
    assert AllIdle(c);
    hide After, Possible, NoStore, Start;
    b, s := ReadAt(c, moves, t);
    TokenAges(c, moves, b, s);
  }

  // --- One renewal, uninterrupted ---

  /** What the server's answer does to the client: an access and a rotated
      refresh token, or nothing. */
  class ApiClient {
    var token: Option<nat>
    var refreshToken: Option<nat>
    /** Tokens handed to the owner's hook to be persisted. */
    var persisted: seq<nat>

    constructor (token: Option<nat>, refreshToken: Option<nat>)
      ensures this.token == token && this.refreshToken == refreshToken && persisted == []
    {
      this.token, this.refreshToken, persisted := token, refreshToken, [];
    }

    /** `answer` is what an exchange would return. The result is the token to
        replay with; it is the token now in use whenever there is one, and the
        stored refresh token changes only together with what is persisted. */
    method RenewAccessToken(stale: Option<nat>, answer: Option<(nat, Option<nat>)>) returns (renewed: Option<nat>)
      modifies this
      ensures renewed.Some? ==> renewed == token
      ensures old(token) != stale ==>
        renewed == old(token) && token == old(token) && refreshToken == old(refreshToken) && persisted == old(persisted)
      ensures old(token) == stale && (old(refreshToken).None? || answer.None?) ==>
        renewed.None? && token == old(token) && refreshToken == old(refreshToken) && persisted == old(persisted)
      ensures old(token) == stale && old(refreshToken).Some? && answer.Some? ==>
        && token == Some(answer.value.0)
        && renewed == token
        && (answer.value.1.Some? ==> refreshToken == answer.value.1 && persisted == old(persisted) + [answer.value.1.value])
        && (answer.value.1.None? ==> refreshToken == old(refreshToken) && persisted == old(persisted))
    {
      var current := token;
      if current != stale { return current; }
      if refreshToken.None? || answer.None? { return None; }
      token := Some(answer.value.0);
      if answer.value.1.Some? {
        var rotated := answer.value.1.value;
        refreshToken := Some(rotated);
        persisted := persisted + [rotated];
      }
      renewed := Some(answer.value.0);
    }
  }

  /** The protocol's cells after a task has renewed alone are the client's after
      one call that got the server's answer. */
  method RenewLikeProtocol(c: System, t: nat) returns (client: ApiClient, renewed: Option<nat>)
    requires MayRenew(c, t)
    ensures fresh(client)
    ensures client.token == renewed == Renewed(c, t).token
    ensures client.refreshToken == Renewed(c, t).refresh
    ensures client.persisted == [Renewed(c, t).refresh.value]
  {
    client := new ApiClient(c.token, c.refresh);
    renewed := client.RenewAccessToken(c.tasks[t].stale, Some((c.next, Some(c.next + 1))));
  }
}
