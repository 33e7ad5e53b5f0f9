/** The reconciler as a concurrent protocol: status writers, their broadcast
    events, one reader that re-reads the status and edits the data plane step
    by step (apps/snx-edge-server/src/reconciler.rs, net.rs, tunnel.rs). */
module Reconciler {
  import opened Text
  import opened Tunnel

  datatype Action = Engage(iface: string) | Disengage

  function Decide(s: Status): Option<Action> {
    match s
    case Connected(info) => if info.iface != "" then Some(Engage(info.iface)) else None
    case Disconnected | Error(_) => Some(Disengage)
    case _ => None
  }

  // --- The data plane ---

  /** A POSTROUTING rule: our tagged MASQUERADE on an interface, another rule
      whose listed line carries the tag somewhere, or one that does not. */
  datatype NatRule = Masquerade(iface: string) | Carrying(text: string) | Other(text: string)

  /** The servers and domains behind the split-DNS file. */
  datatype Dns = Dns(servers: seq<string>, domains: seq<string>)

  /** `router` is whether a router client is configured; without one the route
      step is skipped. */
  datatype Plane = Plane(rules: seq<NatRule>, route: bool, dns: Option<Dns>, router: bool)

  function WithMasquerade(rules: seq<NatRule>, iface: string): seq<NatRule> {
    if iface == "" || Masquerade(iface) in rules then rules else rules + [Masquerade(iface)]
  }

  /** Rules without the tag on their line. */
  function Untagged(rules: seq<NatRule>): seq<NatRule> {
    if rules == [] then []
    else
      var n := |rules| - 1;
      Untagged(rules[..n]) + if rules[n].Other? then [rules[n]] else []
  }

  function Masqueraded(rules: seq<NatRule>): set<string> {
    set i | 0 <= i < |rules| && rules[i].Masquerade? :: rules[i].iface
  }

  function CorpDns(s: Status, before: Option<Dns>): Option<Dns> {
    if s.Connected? then Some(Dns(s.info.dns, s.info.domains)) else before
  }

  /** The `n`-th of the three edits an action makes; the DNS edit re-reads the
      status. */
  function Edit(p: Plane, a: Action, n: nat, s: Status): Plane {
    if a.Engage? then
      if n == 0 then p.(rules := WithMasquerade(p.rules, a.iface))
      else if n == 1 then p.(route := p.route || p.router)
      else p.(dns := CorpDns(s, p.dns))
    else
      if n == 0 then p.(rules := Untagged(p.rules))
      else if n == 1 then p.(route := p.route && !p.router)
      else p.(dns := None)
  }

  /** Whether the edit after the `n`-th is reached: a failed clean-up of the rules
      does not keep the route from being removed, any other failure ends the
      action. */
  predicate GoesOn(a: Action, n: nat, ok: bool) {
    n < 2 && (ok || (n == 0 && a.Disengage?))
  }

  // --- The protocol ---

  const EDITS: set<nat> := {0, 1, 2}

  datatype Phase = Idle | Woken | Applying(n: nat)

  /** `unsent` counts status writes whose event is still to be sent, `queue`
      the events not yet received. `last` is the last action decided, `seen`
      the status it was decided on, `tried` and `done` which of its edits were
      reached and which of them worked, `ups` the interfaces engaged since the
      rules were last cleared, and `stale` whether a status was announced since
      the last read. */
  datatype System = System(
    status: Status, unsent: nat, queue: nat, phase: Phase, plane: Plane,
    last: Action, seen: Status, tried: set<nat>, done: set<nat>, ups: set<string>, stale: bool)

  /** `Lag` is a status event lost to a reader that fell behind: the channel is
      bounded and carries the log lines as well. */
  datatype Move =
    | Write(s: Status)
    | Claim
    | Rekey(ip: string)
    | Send
    | Lag
    | Receive
    | Read
    | Advance(ok: bool)

  predicate Enabled(c: System, move: Move) {
    match move
    case Write(_) | Rekey(_) => true
    case Claim => !c.status.Busy()
    case Send => c.unsent > 0
    case Lag => c.queue > 0
    case Receive => c.queue > 0 && c.phase.Idle?
    case Read => c.phase.Woken?
    case Advance(ok) => c.phase.Applying? && (!ok && c.phase.n == 1 ==> c.plane.router)
  }

  /** The status after a write by the tunnel manager: announced, claimed by
      `connect` without an event, or a new address inside `Connected`. */
  function Written(s: Status, move: Move): Status {
    match move
    case Write(s') => s'
    case Claim => Connecting
    case Rekey(ip) => if s.Connected? then Connected(s.info.(ip := ip)) else s
    case _ => s
  }

  function Step(c: System, move: Move): System
    requires Enabled(c, move)
  {
    match move
    case Write(_) => c.(status := Written(c.status, move), unsent := c.unsent + 1, stale := true)
    case Claim | Rekey(_) => c.(status := Written(c.status, move))
    case Send => c.(unsent := c.unsent - 1, queue := c.queue + 1)
    case Lag => c.(queue := c.queue - 1)
    case Receive => c.(queue := c.queue - 1, phase := Woken)
    case Read =>
      (match Decide(c.status)
       case None => c.(phase := Idle, stale := false)
       case Some(a) =>
         c.(phase := Applying(0), last := a, seen := c.status, tried := {}, done := {}, stale := false))
    case Advance(ok) =>
      var (n, c1) := (c.phase.n, if ok then Edited(c) else c);
      c1.(tried := c.tried + {n}, phase := if GoesOn(c.last, n, ok) then Applying(n + 1) else Idle)
  }

  function Edited(c: System): System
    requires c.phase.Applying?
  {
    var n := c.phase.n;
    c.(plane := Edit(c.plane, c.last, n, c.status), done := c.done + {n},
       ups := if n != 0 then c.ups else if c.last.Engage? then c.ups + {c.last.iface} else {})
  }

  predicate Start(c: System) {
    && c.status == Disconnected && c.unsent == 0 && c.queue == 0 && c.phase == Idle
    && Masqueraded(c.plane.rules) == {} && !c.plane.route && c.plane.dns == None
    && c.last == Disengage && c.seen == Disconnected && c.tried == EDITS && c.done == EDITS && c.ups == {} && !c.stale
  }

  ghost predicate Possible(c: System, moves: seq<Move>)
    decreases |moves|, 0
  {
    moves == [] ||
      var n := |moves| - 1;
      Possible(c, moves[..n]) && Enabled(After(c, moves[..n]), moves[n])
  }

  ghost function After(c: System, moves: seq<Move>): System
    requires Possible(c, moves)
    decreases |moves|, 1
  {
    if moves == [] then c
    else
      var n := |moves| - 1;
      Step(After(c, moves[..n]), moves[n])
  }

  // --- Invariants ---

  /** Which edits of the last action were reached and which worked: engaging
      goes up to the first failure, disengaging up to a failed route. */
  ghost predicate Progress(c: System) {
    && c.done <= c.tried
    && (forall n: nat :: n in c.tried <==> n < Reached(c))
    && Reached(c) <= 3
    && (c.phase.Applying? ==> c.phase.n <= 2)
    && (c.last.Engage? && Reached(c) + (if c.phase.Applying? then 1 else 0) >= 2 ==> 0 in c.done)
    && (Reached(c) + (if c.phase.Applying? then 1 else 0) >= 3 ==> 1 in c.done)
  }

  /** How many edits of the last action have been reached. */
  function Reached(c: System): nat {
    if c.phase.Applying? then c.phase.n
    else if 0 !in c.done && c.last.Engage? then 1
    else if 1 !in c.done then 2
    else 3
  }

  /** What the edits that worked have achieved. */
  ghost predicate Achieved(c: System) {
    && Masqueraded(c.plane.rules) == c.ups
    && (c.plane.route ==> c.plane.router)
    && Some(c.last) == Decide(c.seen)
    && (0 in c.done && c.last.Engage? ==> c.last.iface in c.ups)
    && (0 in c.done && c.last.Disengage? ==> c.ups == {})
    && (1 in c.done ==> c.plane.route == (c.plane.router && c.last.Engage?))
    && (2 in c.done && c.last.Disengage? ==> c.plane.dns == None)
  }

  /** What the decision and the DNS edit can tell of a status. */
  predicate SameView(a: Status, b: Status) {
    || (a.Connected? && b.Connected? && a.info.(ip := b.info.ip) == b.info)
    || (!a.Connected? && LabelOf(a) == LabelOf(b))
  }

  /** An announced status that was not read yet will be. */
  predicate Heard(c: System) {
    c.stale ==> c.unsent > 0 || c.queue > 0 || c.phase.Woken?
  }

  /** With no announcement unread, a status that calls for action is the one last
      read, and its DNS settings are in place once that edit has worked. */
  ghost predicate Fresh(c: System) {
    !c.stale && Decide(c.status).Some? ==>
      && SameView(c.seen, c.status)
      && (2 in c.done && c.status.Connected? ==> c.plane.dns == Some(Dns(c.status.info.dns, c.status.info.domains)))
  }

  ghost predicate Inv(c: System) {
    Progress(c) && Achieved(c) && Fresh(c)
  }

  lemma MasqueradeAdds(rules: seq<NatRule>, iface: string)
    requires iface != ""
    ensures Masqueraded(WithMasquerade(rules, iface)) == Masqueraded(rules) + {iface}
    ensures Untagged(WithMasquerade(rules, iface)) == Untagged(rules)
  {
    var all := WithMasquerade(rules, iface);
    if Masquerade(iface) !in rules {
      assert all[..|rules|] == rules;
      assert all[|rules|] == Masquerade(iface);
      forall x ensures x in Masqueraded(all) <==> x in Masqueraded(rules) + {iface} {
        if x in Masqueraded(rules) {
          var i :| 0 <= i < |rules| && rules[i] == Masquerade(x);
          assert all[i] == Masquerade(x);
        }
      }
    }
  }

  lemma {:induction false} UntaggedAre(rules: seq<NatRule>)
    ensures forall r :: r in Untagged(rules) <==> r in rules && r.Other?
  {
    if rules == [] {
    } else {
      var n := |rules| - 1;
      UntaggedAre(rules[..n]);
      assert rules == rules[..n] + [rules[n]];
    }
  }

  lemma {:induction false} AllUntagged(rules: seq<NatRule>)
    requires forall r :: r in rules ==> r.Other?
    ensures Untagged(rules) == rules
  {
    if rules == [] {
    } else {
      var n := |rules| - 1;
      AllUntagged(rules[..n]);
      assert rules == rules[..n] + [rules[n]];
    }
  }

  lemma UntaggedClears(rules: seq<NatRule>)
    ensures forall r :: r in Untagged(rules) <==> r in rules && r.Other?
    ensures Masqueraded(Untagged(rules)) == {}
    ensures Untagged(Untagged(rules)) == Untagged(rules)
  {
    hide Untagged;
    UntaggedAre(rules);
    AllUntagged(Untagged(rules));
    var left := Untagged(rules);
    forall i | 0 <= i < |left|
      ensures !left[i].Masquerade?
    {
      assert left[i] in left;
    }
  }

  lemma ProgressKeeps(c: System, move: Move)
    requires Progress(c) && Enabled(c, move)
    ensures Progress(Step(c, move))
  {
    hide Edit, Decide, Written;
  }

  lemma AchievedKeeps(c: System, move: Move)
    requires Progress(c) && Achieved(c) && Enabled(c, move)
    ensures Achieved(Step(c, move))
    ensures Untagged(Step(c, move).plane.rules) == Untagged(c.plane.rules)
    ensures Step(c, move).plane.router == c.plane.router
  {
    if move == Advance(true) {
      EditKeeps(c);
    }
    hide Masqueraded, Untagged, WithMasquerade, Written, CorpDns, Edit, Edited;
  }

  lemma EditKeeps(c: System)
    requires c.phase.Applying? && c.phase.n <= 2 && Achieved(c)
    ensures Achieved(Edited(c))
    ensures Untagged(Edited(c).plane.rules) == Untagged(c.plane.rules) && Edited(c).plane.router == c.plane.router
  {
    if c.phase.n == 0 {
      if c.last.Engage? {
        MasqueradeAdds(c.plane.rules, c.last.iface);
      } else {
        UntaggedClears(c.plane.rules);
      }
    }
    hide Masqueraded, Untagged, WithMasquerade;
  }

  lemma FreshKeeps(c: System, move: Move)
    requires Progress(c) && Fresh(c) && Some(c.last) == Decide(c.seen) && Enabled(c, move)
    ensures Fresh(Step(c, move))
  {
    hide Masqueraded, Untagged, WithMasquerade;
  }

  lemma StepKeeps(c: System, move: Move)
    requires Inv(c) && Enabled(c, move)
    ensures Inv(Step(c, move))
    ensures Untagged(Step(c, move).plane.rules) == Untagged(c.plane.rules)
    ensures Step(c, move).plane.router == c.plane.router
  {
    ProgressKeeps(c, move);
    AchievedKeeps(c, move);
    FreshKeeps(c, move);
    hide Progress, Fresh, Step, Untagged;
  }

  lemma {:induction false} RunKeeps(c: System, moves: seq<Move>)
    requires Start(c) && Possible(c, moves)
    ensures Inv(After(c, moves))
    ensures Untagged(After(c, moves).plane.rules) == Untagged(c.plane.rules)
    ensures After(c, moves).plane.router == c.plane.router
  {
    if moves == [] {
    } else {
      var n := |moves| - 1;
      RunKeeps(c, moves[..n]);
      StepKeeps(After(c, moves[..n]), moves[n]);
    }
  }

  // --- What the reconciler achieves ---

  lemma ExtendedBy(c: System, moves: seq<Move>, move: Move)
    requires Possible(c, moves) && Enabled(After(c, moves), move)
    ensures Possible(c, moves + [move]) && After(c, moves + [move]) == Step(After(c, moves), move)
  {
    assert (moves + [move])[..|moves|] == moves;
  }

  predicate Settled(c: System) {
    c.unsent == 0 && c.queue == 0 && c.phase.Idle?
  }

  /** The data plane is as the status demands, as far as the edits that worked
      go. A tunnel that is down, for whatever reason, demands no masqueraded
      interface, no route and no split DNS; a connection with a named interface
      demands the rule for it, the route if there is a router to hold it, and
      exactly its own DNS settings; any other status demands nothing. */
  predicate AsDemanded(s: Status, p: Plane, done: set<nat>) {
    match s
    case Disconnected | Error(_) =>
      && (0 in done ==> Masqueraded(p.rules) == {})
      && (1 in done ==> !p.route)
      && (2 in done ==> p.dns == None)
    case Connected(info) => info.iface != "" ==>
      && (0 in done ==> info.iface in Masqueraded(p.rules))
      && (1 in done ==> p.route == p.router)
      && (2 in done ==> p.dns == Some(Dns(info.dns, info.domains)))
    case Connecting | Mfa(_) => true
  }

  /** Agreement. In every interleaving, whenever no write awaits its event, the
      queue is empty and the reconciler idle, the data plane is as the status
      demands, but for edits that failed; when nothing failed, entirely. This
      needs that the last announced status was read, which is so unless an event
      was lost. Rules without our tag are never touched. */
  lemma Agreement(c: System, moves: seq<Move>)
    requires Start(c) && Possible(c, moves)
    ensures var c' := After(c, moves);
      && (Settled(c') && !c'.stale ==> AsDemanded(c'.status, c'.plane, c'.done))
      && (Settled(c') && Lag !in moves ==> !c'.stale)
      && (c'.phase.Idle? && Advance(false) !in moves ==> c'.done == EDITS)
      && Untagged(c'.plane.rules) == Untagged(c.plane.rules)
  {
    RunKeeps(c, moves);
    var c' := After(c, moves);
    if c'.phase.Idle? && Advance(false) !in moves {
      AllWork(c, moves);
      AllReached(c');
    }
    if Lag !in moves { NoneLost(c, moves); }
    hide Progress, After, Possible;
  }

  lemma {:induction false} NoneLost(c: System, moves: seq<Move>)
    requires Start(c) && Possible(c, moves) && Lag !in moves
    ensures Heard(After(c, moves))
  {
    if moves == [] {
    } else {
      var n := |moves| - 1;
      assert moves[n] in moves;
      NoneLost(c, moves[..n]);
      StaysHeard(After(c, moves[..n]), moves[n]);
      hide Step, Start;
    }
  }

  lemma StaysHeard(c: System, move: Move)
    requires Enabled(c, move) && !move.Lag? && Heard(c)
    ensures Heard(Step(c, move))
  {
    hide Edit, Decide, Written;
  }

  /** The tunnel is down and the last decision was to disengage, or connected over
      an interface engaged since the rules were last cleared, with the DNS
      settings the plane has; any other status suits. */
  predicate Suits(c: System, s: Status) {
    match s
    case Disconnected | Error(_) => c.last.Disengage?
    case Connected(info) => info.iface != "" ==>
      c.last.Engage? && info.iface in c.ups && c.plane.dns == Some(Dns(info.dns, info.domains))
    case Connecting | Mfa(_) => true
  }

  /** Exact agreement. In every interleaving, however many events were lost and
      however stale the last decision, a settled plane whose last edits all worked
      is as the status demands exactly if the status suits the last decision. */
  lemma AgreementWhen(c: System, moves: seq<Move>)
    requires Start(c) && Possible(c, moves)
    ensures var c' := After(c, moves);
      Settled(c') && c'.done == EDITS ==> (AsDemanded(c'.status, c'.plane, c'.done) <==> Suits(c', c'.status))
  {
    RunKeeps(c, moves);
    hide After, Possible, Masqueraded;
  }

  /** When a lost event does harm: after any run, the status changes and its event
      is lost; the settled plane, left as it was, is as the new status demands
      exactly if that suits the last decision. */
  lemma LostEventHarmsWhen(c: System, moves: seq<Move>, s: Status)
    requires Start(c) && Possible(c, moves)
    requires var c0 := After(c, moves); Settled(c0) && c0.done == EDITS
    ensures var (c0, more) := (After(c, moves), moves + [Write(s)] + [Send] + [Lag]);
      && Possible(c, more)
      && var c' := After(c, more);
      && Settled(c') && c'.status == s && c'.plane == c0.plane && c'.done == EDITS
      && (AsDemanded(s, c'.plane, c'.done) <==> Suits(c0, s))
  {
    hide After, Possible;
    ExtendedBy(c, moves, Write(s));
    ExtendedBy(c, moves + [Write(s)], Send);
    ExtendedBy(c, moves + [Write(s)] + [Send], Lag);
    hide AsDemanded, Start;
    AgreementWhen(c, moves + [Write(s)] + [Send] + [Lag]);
  }

  lemma {:induction false} AllWork(c: System, moves: seq<Move>)
    requires Start(c) && Possible(c, moves) && Advance(false) !in moves
    ensures var c' := After(c, moves); c'.done == c'.tried
  {
    if moves == [] {
    } else {
      var n := |moves| - 1;
      assert moves[n] in moves;
      AllWork(c, moves[..n]);
      DoneAsTried(After(c, moves[..n]), moves[n]);
      hide Step, Start;
    }
  }

  lemma DoneAsTried(c: System, move: Move)
    requires Enabled(c, move) && move != Advance(false) && c.done == c.tried
    ensures Step(c, move).done == Step(c, move).tried
  {
    hide Edit, Decide, Written;
  }

  lemma AllReached(c: System)
    requires Progress(c) && c.phase.Idle? && c.done == c.tried
    ensures c.done == EDITS
  {
  }

  /** Reading a status makes the reconciler act exactly if the tunnel is down or
      connected over a named interface; otherwise everything stays as it is. */
  lemma ReadActsOn(c: System)
    requires c.phase.Woken?
    ensures var c' := Step(c, Read);
      var acts := c.status.Disconnected? || c.status.Error? || (c.status.Connected? && c.status.info.iface != "");
      && c'.plane == c.plane && c'.status == c.status && c'.unsent == c.unsent && c'.queue == c.queue && c'.ups == c.ups
      && (if acts then c'.phase == Applying(0) && c'.last.Engage? == c.status.Connected?
          else c'.phase == Idle && c'.last == c.last && c'.done == c.done && c'.tried == c.tried)
  {
  }

  /** Engaging goes no further than its first failing edit: no route without the
      rule, no DNS without the route. */
  lemma EngagingStops(c: System, moves: seq<Move>)
    requires Start(c) && Possible(c, moves)
    ensures var c' := After(c, moves);
      c'.last.Engage? ==> (1 in c'.tried ==> 0 in c'.done) && (2 in c'.tried ==> 1 in c'.done)
  {
    RunKeeps(c, moves);
  }

  /** Fail closed. Whatever fails, a reconciler that has dealt with its last
      decision to disengage has asked the router to drop the default route: a
      failing clean-up of the rules cannot keep it from that, so the route is
      there only if the router failed. The DNS settings are cleared only after
      the route. */
  lemma RouteRemovalIsTried(c: System, moves: seq<Move>)
    requires Start(c) && Possible(c, moves)
    ensures var c' := After(c, moves);
      c'.phase.Idle? && c'.last.Disengage? ==>
        && 1 in c'.tried
        && (c'.plane.route ==> 1 !in c'.done)
        && (2 in c'.tried <==> 1 in c'.done)
  {
    RunKeeps(c, moves);
  }

  /** Whatever the status and whatever failed, the plane masquerades exactly the
      interfaces engaged since the rules were last cleared; idle, it matches the
      last decision as far as that decision's edits worked, so it has the rule
      for that interface alone exactly when the interface did not change in
      between. */
  lemma MatchesLastDecision(c: System, moves: seq<Move>)
    requires Start(c) && Possible(c, moves)
    ensures var c' := After(c, moves);
      && Masqueraded(c'.plane.rules) == c'.ups
      && (c'.phase.Idle? ==>
            && (1 in c'.done ==> c'.plane.route == (c.plane.router && c'.last.Engage?))
            && (c'.last.Disengage? && 0 in c'.done ==> c'.ups == {})
            && (c'.last.Disengage? && 2 in c'.done ==> c'.plane.dns == None)
            && (c'.last.Engage? && 0 in c'.done ==>
                  (Masqueraded(c'.plane.rules) == {c'.last.iface} <==> forall i :: i in c'.ups ==> i == c'.last.iface)))
  {
    RunKeeps(c, moves);
    var c' := After(c, moves);
    if c'.phase.Idle? && c'.last.Engage? && 0 in c'.done && forall i :: i in c'.ups ==> i == c'.last.iface {
      assert c'.ups == {c'.last.iface};
    }
  }

  // --- Runs that show the limits ---

  const EMPTY := System(
    Disconnected, 0, 0, Idle, Plane([], false, None, true), Disengage, Disconnected, EDITS, EDITS, {}, false)

  const TUN0 := Connected(Info("tun0", "", [], []))
  const TUN1 := Connected(Info("tun1", "", [], []))

  lemma Extend(c: System, moves: seq<Move>, move: Move) returns (longer: seq<Move>)
    requires Possible(c, moves) && Enabled(After(c, moves), move)
    ensures Possible(c, longer) && After(c, longer) == Step(After(c, moves), move)
  {
    ExtendedBy(c, moves, move);
    longer := moves + [move];
  }

  /** A status write followed by everything it triggers. */
  lemma ServeOne(c: System, moves: seq<Move>) returns (longer: seq<Move>)
    requires Possible(c, moves)
    requires var c' := After(c, moves); c'.queue > 0 && c'.phase.Idle? && Decide(c'.status).Some?
    ensures Possible(c, longer)
    ensures var (c', a) := (After(c, moves), Decide(After(c, moves).status).value);
      After(c, longer) == c'.(
        queue := c'.queue - 1, last := a, seen := c'.status, tried := EDITS, done := EDITS, stale := false,
        ups := if a.Engage? then c'.ups + {a.iface} else {},
        plane := Edit(Edit(Edit(c'.plane, a, 0, c'.status), a, 1, c'.status), a, 2, c'.status))
  {
    hide Edit, After, Possible;
    longer := Extend(c, moves, Receive);
    longer := Extend(c, longer, Read);
    longer := Extend(c, longer, Advance(true));
    longer := Extend(c, longer, Advance(true));
    longer := Extend(c, longer, Advance(true));
  }

  lemma EngageFirst() returns (moves: seq<Move>)
    ensures Possible(EMPTY, moves)
    ensures After(EMPTY, moves) ==
      System(
        TUN0, 0, 0, Idle, Plane([Masquerade("tun0")], true, Some(Dns([], [])), true), Engage("tun0"),
        TUN0, EDITS, EDITS, {"tun0"}, false)
  {
    moves := Extend(EMPTY, [], Write(TUN0));
    moves := Extend(EMPTY, moves, Send);
    moves := ServeOne(EMPTY, moves);
    assert [] + [Masquerade("tun0")] == [Masquerade("tun0")];
  }

  /** A settled system can masquerade an interface that is gone: the tunnel
      drops and comes back elsewhere before the reader looks. */
  lemma StaleRuleSurvives() returns (moves: seq<Move>)
    ensures Start(EMPTY) && Possible(EMPTY, moves)
    ensures var c := After(EMPTY, moves);
      Settled(c) && c.status == TUN1 && c.plane.rules == [Masquerade("tun0"), Masquerade("tun1")]
  {
    hide After, Possible;
    assert "tun0"[3] != "tun1"[3];
    moves := EngageFirst();
    moves := Extend(EMPTY, moves, Write(Disconnected));
    moves := Extend(EMPTY, moves, Write(TUN1));
    moves := Extend(EMPTY, moves, Send);
    moves := Extend(EMPTY, moves, Send);
    moves := ServeOne(EMPTY, moves);
    assert After(EMPTY, moves).plane.rules == [Masquerade("tun0"), Masquerade("tun1")];
    moves := ServeOne(EMPTY, moves);
  }

  /** A settled system can be engaged while the status is not `Connected`: the
      drop is announced, but a new connect claims the status before the reader
      looks. */
  lemma EngagedWhileConnecting() returns (moves: seq<Move>)
    ensures Start(EMPTY) && Possible(EMPTY, moves)
    ensures var c := After(EMPTY, moves);
      Settled(c) && c.status == Connecting && c.plane.route && c.plane.rules == [Masquerade("tun0")]
  {
    hide After, Possible;
    moves := EngageFirst();
    moves := Extend(EMPTY, moves, Write(Error("down")));
    moves := Extend(EMPTY, moves, Send);
    moves := Extend(EMPTY, moves, Claim);
    moves := Extend(EMPTY, moves, Receive);
    moves := Extend(EMPTY, moves, Read);
  }

  lemma NoneUntagged(iface: string)
    ensures Untagged([Masquerade(iface)]) == []
  {
    assert [Masquerade(iface)][..0] == [];
  }

  /** The split-DNS settings of a dropped tunnel stay if the router refuses to
      drop the route, and nothing tries again until the next event. */
  lemma DnsOutlivesFailedRoute() returns (moves: seq<Move>)
    ensures Start(EMPTY) && Possible(EMPTY, moves)
    ensures var c := After(EMPTY, moves);
      Settled(c) && c.status == Disconnected && c.plane.rules == [] && c.plane.route && c.plane.dns == Some(Dns([], []))
  {
    hide After, Possible;
    moves := EngageFirst();
    moves := Extend(EMPTY, moves, Write(Disconnected));
    moves := Extend(EMPTY, moves, Send);
    moves := Extend(EMPTY, moves, Receive);
    moves := Extend(EMPTY, moves, Read);
    NoneUntagged("tun0");
    hide Untagged, Masqueraded, WithMasquerade;
    moves := Extend(EMPTY, moves, Advance(true));
    moves := Extend(EMPTY, moves, Advance(false));
  }
}
