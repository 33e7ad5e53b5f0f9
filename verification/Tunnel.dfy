/** The tunnel manager: connect, challenge, disconnect, and the event handler
    each started tunnel spawns (apps/snx-edge-server/src/tunnel.rs). The VPN
    library's answers are inputs. */
module Tunnel {
  import opened Text

  datatype Info = Info(iface: string, ip: string, dns: seq<string>, domains: seq<string>)

  datatype Status =
    | Disconnected
    | Connecting
    | Connected(info: Info)
    | Mfa(prompt: string)
    | Error(message: string)
  {
    predicate Busy() { Connecting? || Connected? }
  }

  datatype Label = LDisconnected | LConnecting | LConnected | LMfa | LError

  function LabelOf(s: Status): Label {
    match s
    case Disconnected => LDisconnected
    case Connecting => LConnecting
    case Connected(_) => LConnected
    case Mfa(_) => LMfa
    case Error(_) => LError
  }

  /** The label tells exactly which status it is, up to what the status carries. */
  lemma LabelTells(s: Status)
    ensures LabelOf(s) == LDisconnected <==> s.Disconnected?
    ensures LabelOf(s) == LConnecting <==> s.Connecting?
    ensures LabelOf(s) == LConnected <==> s.Connected?
    ensures LabelOf(s) == LMfa <==> s.Mfa?
    ensures LabelOf(s) == LError <==> s.Error?
  {
  }

  datatype Session = Pending(prompt: string) | Ready

  /** How a dial ends: in `create`, in `authenticate`, with a challenge, in
      `create_tunnel`, or with a running tunnel. */
  datatype Dial =
    | CreateFails(why: string)
    | AuthFails(why: string)
    | Challenged(prompt: string)
    | TunnelFails(why: string)
    | Started

  /** What the gateway answers to a challenge code. */
  datatype Answer =
    | Rejected(why: string)
    | AskedAgain(prompt: string)
    | AcceptedNoTunnel(why: string)
    | AcceptedStarted

  datatype Event =
    | Up(info: Info)
    | Down
    | Rekeyed(ip: string)
    | Other

  /** `tasks` is what the manager remembers to abort; `live` is which event
      handlers are actually still running. */
  datatype State = State(
    status: Status, connector: bool, session: Option<Session>,
    tasks: set<nat>, live: set<nat>, next: nat,
    disconnecting: bool, sent: seq<Label>)
  {
    /** Writes the status and broadcasts its label. */
    function Announce(s: Status): State {
      this.(status := s, sent := sent + [LabelOf(s)])
    }
  }

  const INITIAL := State(Disconnected, false, None, {}, {}, 0, false, [])

  /** `start_tunnel` once the tunnel exists: spawn its two tasks, then announce
      `Connecting`. The higher handle is the event handler. */
  function StartTunnel(m: State): State {
    m.(tasks := m.tasks + {m.next, m.next + 1}, live := m.live + {m.next + 1}, next := m.next + 2)
     .Announce(Connecting)
  }

  function Connect(m: State, dial: Dial): (State, bool) {
    if m.status.Busy() then (m, false)
    else
      var m1 := m.(status := Connecting, disconnecting := false);
      match dial
      case CreateFails(why) => (m1.Announce(Error(why)), false)
      case AuthFails(why) => (m1.Announce(Error(why)), false)
      case Challenged(prompt) =>
        (m1.(session := Some(Pending(prompt)), connector := true).Announce(Mfa(prompt)), true)
      case TunnelFails(why) =>
        (m1.(session := Some(Ready), connector := true).Announce(Error(why)), false)
      case Started =>
        (StartTunnel(m1.(session := Some(Ready), connector := true)), true)
  }

  function Challenge(m: State, answer: Answer): (State, bool) {
    if m.session.None? || m.session.value.Ready? || !m.connector then (m, false)
    else
      match answer
      case Rejected(_) => (m, false)
      case AskedAgain(prompt) => (m.(session := Some(Pending(prompt))).Announce(Mfa(prompt)), true)
      case AcceptedNoTunnel(_) => (m.(session := Some(Ready)), false)
      case AcceptedStarted => (StartTunnel(m.(session := Some(Ready))), true)
  }

  function Disconnect(m: State): (State, bool) {
    if m.status.Disconnected? then (m, false)
    else
      (m.(disconnecting := true, connector := false, session := None,
          tasks := {}, live := m.live - m.tasks).Announce(Disconnected), true)
  }

  /** The handler stops without touching the status: the operator's disconnect
      owns it. */
  function Stop(m: State, h: nat): State {
    m.(live := m.live - {h})
  }

  /** One event at handler `h`; `fault` is the connector's own error on it. */
  function Handle(m: State, h: nat, event: Event, fault: Option<string>): State {
    if h !in m.live then m
    else if m.disconnecting then Stop(m, h)
    else if m.connector && fault.Some? then Stop(m, h).Announce(Error(fault.value))
    else
      match event
      case Up(info) => m.Announce(Connected(info))
      case Down => Stop(m, h).(connector := false, session := None).Announce(Disconnected)
      case Rekeyed(ip) =>
        if m.status.Connected? then m.(status := Connected(m.status.info.(ip := ip))) else m
      case Other => m
  }

  /** The event channel of handler `h` closes. */
  function Close(m: State, h: nat): State {
    if h !in m.live then m
    else if m.disconnecting then Stop(m, h)
    else Stop(m, h).(connector := false, session := None).Announce(Error("tunnel ended unexpectedly"))
  }

  // --- Sequences of steps ---

  datatype Step =
    | DoConnect(dial: Dial)
    | DoChallenge(answer: Answer)
    | DoDisconnect
    | DoReconnect(dial: Dial)
    | DoEvent(h: nat, event: Event, fault: Option<string>)
    | DoClose(h: nat)

  function Next(m: State, step: Step): State {
    match step
    case DoConnect(dial) => Connect(m, dial).0
    case DoChallenge(answer) => Challenge(m, answer).0
    case DoDisconnect => Disconnect(m).0
    case DoReconnect(dial) => Connect(Disconnect(m).0, dial).0
    case DoEvent(h, event, fault) => Handle(m, h, event, fault)
    case DoClose(h) => Close(m, h)
  }

  function Run(steps: seq<Step>): State {
    if steps == [] then INITIAL
    else
      var n := |steps| - 1;
      Next(Run(steps[..n]), steps[n])
  }

  /** Connecting or connected exactly while one event handler is live; a live
      handler is remembered and has an authenticated session; a session and its
      connector come and go together, and there is none while a disconnect is in
      force; and the last label sent names the status. */
  predicate Inv(m: State) {
    && (if m.status.Busy() then |m.live| == 1 else m.live == {})
    && m.live <= m.tasks
    && (forall t :: t in m.tasks ==> t < m.next)
    && (m.live != {} ==> m.connector && m.session == Some(Ready) && !m.disconnecting)
    && (m.session.Some? <==> m.connector) && (m.session.Some? ==> !m.disconnecting)
    && (m.status.Mfa? ==> m.session.Some?)
    && LabelOf(m.status) == (if m.sent == [] then LDisconnected else m.sent[|m.sent| - 1])
  }

  lemma ConnectKeeps(m: State, dial: Dial)
    requires Inv(m)
    ensures Inv(Connect(m, dial).0)
  {
    assert {m.next + 1} == {} + {m.next + 1};
  }

  lemma ChallengeKeeps(m: State, answer: Answer)
    requires Inv(m)
    ensures Inv(Challenge(m, answer).0)
  {
    if m.session == Some(Ready) || m.session == None {
    } else {
      assert m.live == {};
      assert !m.status.Busy();
      assert m.live + {m.next + 1} == {m.next + 1};
    }
  }

  lemma DisconnectKeeps(m: State)
    requires Inv(m)
    ensures Inv(Disconnect(m).0)
    ensures var (m', ok) := Disconnect(m);
      && m'.live == {} && m'.status == Disconnected
      && (ok <==> m.status != Disconnected)
      && (ok ==> m'.tasks == {} && m'.session == None && !m'.connector && m'.disconnecting)
  {
  }

  lemma SingletonIs(s: set<nat>, h: nat)
    requires |s| == 1 && h in s
    ensures s - {h} == {}
  {
    assert |s - {h}| == 0;
  }

  lemma EventKeeps(m: State, h: nat, event: Event, fault: Option<string>)
    requires Inv(m)
    ensures Inv(Handle(m, h, event, fault)) && Inv(Close(m, h))
  {
    if h in m.live {
      SingletonIs(m.live, h);
    }
  }

  lemma NextKeeps(m: State, step: Step)
    requires Inv(m)
    ensures Inv(Next(m, step))
  {
    match step
    case DoConnect(dial) => ConnectKeeps(m, dial);
    case DoChallenge(answer) => ChallengeKeeps(m, answer);
    case DoDisconnect => DisconnectKeeps(m);
    case DoReconnect(dial) => DisconnectKeeps(m); ConnectKeeps(Disconnect(m).0, dial);
    case DoEvent(h, event, fault) => EventKeeps(m, h, event, fault);
    case DoClose(h) => EventKeeps(m, h, Other, None);
  }

  /** The invariant holds after every sequence of steps. */
  lemma {:induction false} RunKeeps(steps: seq<Step>)
    ensures Inv(Run(steps))
  {
    if steps == [] {
    } else {
      var n := |steps| - 1;
      RunKeeps(steps[..n]);
      NextKeeps(Run(steps[..n]), steps[n]);
    }
  }

  /** Waiting for a code that will be taken. */
  predicate AtGate(m: State) {
    m.status.Mfa? && m.session.Some? && m.session.value.Pending?
  }

  /** In every reachable state: a connect that is let in either fails into
      `Error` with nothing running, or ends at the MFA gate, or leaves exactly
      one handler running; so no failure strands `Connecting`. It is let in
      whenever nothing runs. */
  lemma ConnectOutcome(steps: seq<Step>, dial: Dial)
    ensures var m := Run(steps);
      var (m', ok) := Connect(m, dial);
      if m.live != {} then m' == m && !ok
      else
        && (!ok <==> dial.CreateFails? || dial.AuthFails? || dial.TunnelFails?)
        && (!ok ==> m'.status == Error(dial.why) && m'.live == {})
        && (ok && dial.Challenged? ==> m'.status == Mfa(dial.prompt) && m'.live == {} && AtGate(m'))
        && (ok && dial.Started? ==> m'.status == Connecting && |m'.live| == 1 && m'.live !! m.tasks)
  {
    RunKeeps(steps);
    var m := Run(steps);
    assert m.live == {} ==> m.live + {m.next + 1} == {m.next + 1};
  }

  /** What becomes of a code, in every reachable state: it is looked at exactly at
      the gate, and then refused, answered with another question, or accepted,
      with one new handler if the tunnel could be created. */
  lemma ChallengeOutcome(steps: seq<Step>, answer: Answer)
    ensures var m := Run(steps);
      var (m', ok) := Challenge(m, answer);
      && (ok <==> m.session.Some? && m.session.value.Pending? && (answer.AskedAgain? || answer.AcceptedStarted?))
      && (ok ==> m.live == {} && m'.sent == m.sent + [LabelOf(m'.status)])
      && (ok && answer.AskedAgain? ==> m'.status == Mfa(answer.prompt) && AtGate(m') && m'.live == {})
      && (ok && answer.AcceptedStarted? ==> m'.status == Connecting && |m'.live| == 1 && m'.live !! m.tasks)
      && (!ok ==> m'.status == m.status && m'.live == m.live && m'.sent == m.sent)
      && (answer.Rejected? ==> m' == m)
  {
    RunKeeps(steps);
    ChallengeKeeps(Run(steps), answer);
    assert {} + {Run(steps).next + 1} == {Run(steps).next + 1};
  }

  // --- What the events do ---

  /** What one event does at the live handler, after any run: a fault of the
      connector ends the tunnel in that error, `Up` shows the connection, `Down`
      ends it, and a rekey changes the address shown, if any. */
  lemma EventOutcome(steps: seq<Step>, h: nat, event: Event, fault: Option<string>)
    requires h in Run(steps).live
    ensures var (m, m') := (Run(steps), Run(steps + [DoEvent(h, event, fault)]));
      if fault.Some? then
        m'.status == Error(fault.value) && m'.sent == m.sent + [LError] && m'.live == {}
      else
        match event
        case Up(info) =>
          m'.status == Connected(info) && m'.sent == m.sent + [LConnected] && m'.live == {h}
        case Down =>
          && m'.status == Disconnected && m'.sent == m.sent + [LDisconnected]
          && m'.live == {} && m'.session == None && !m'.connector
        case Rekeyed(ip) =>
          && m'.sent == m.sent && m'.live == {h}
          && m'.status == if m.status.Connected? then Connected(m.status.info.(ip := ip)) else m.status
        case Other => m' == m
  {
    RunKeeps(steps);
    var all := steps + [DoEvent(h, event, fault)];
    assert all[..|steps|] == steps && all[|steps|] == DoEvent(h, event, fault);
    SingletonIs(Run(steps).live, h);
    assert Run(steps).live == {h};
  }

  /** The end of the event channel at the live handler is an error. */
  lemma CloseOutcome(steps: seq<Step>, h: nat)
    requires h in Run(steps).live
    ensures var (m, m') := (Run(steps), Run(steps + [DoClose(h)]));
      && m'.status == Error("tunnel ended unexpectedly") && m'.sent == m.sent + [LError]
      && m'.live == {} && m'.session == None && !m'.connector
  {
    RunKeeps(steps);
    var all := steps + [DoClose(h)];
    assert all[..|steps|] == steps && all[|steps|] == DoClose(h);
    SingletonIs(Run(steps).live, h);
  }

  /** The events a handler has seen while live. */
  function EventsOf(steps: seq<Step>, h: nat): seq<Event> {
    if steps == [] then []
    else
      var n := |steps| - 1;
      var before := EventsOf(steps[..n], h);
      if steps[n].DoEvent? && steps[n].h == h && h in Run(steps[..n]).live then before + [steps[n].event] else before
  }

  /** The last connection these events announce, with the address of the last
      rekey since. */
  function Announced(events: seq<Event>): Option<Info> {
    if events == [] then None
    else
      var n := |events| - 1;
      match events[n]
      case Up(info) => Some(info)
      case Rekeyed(ip) =>
        var before := Announced(events[..n]);
        if before.Some? then Some(before.value.(ip := ip)) else None
      case _ => Announced(events[..n])
  }

  lemma {:induction false} FreshHandle(steps: seq<Step>, h: nat)
    requires h >= Run(steps).next
    ensures EventsOf(steps, h) == []
  {
    if steps == [] {
    } else {
      var n := |steps| - 1;
      RunKeeps(steps[..n]);
      NextGrows(Run(steps[..n]), steps[n]);
      FreshHandle(steps[..n], h);
    }
  }

  lemma NextGrows(m: State, step: Step)
    ensures m.next <= Next(m, step).next
  {
  }

  /** After every run the status of a running tunnel is what its handler has seen:
      `Connected` with the last connection announced to it and its current
      address, `Connecting` before the first. Without a running tunnel it is
      neither. */
  lemma {:induction false} StatusIsSeen(steps: seq<Step>)
    ensures var m := Run(steps);
      && (forall h :: h in m.live ==>
            var seen := Announced(EventsOf(steps, h));
            m.status == if seen.Some? then Connected(seen.value) else Connecting)
      && (m.live == {} ==> !m.status.Connected? && !m.status.Connecting?)
  {
    RunKeeps(steps);
    if steps == [] {
    } else {
      var n := |steps| - 1;
      var m := Run(steps[..n]);
      RunKeeps(steps[..n]);
      StatusIsSeen(steps[..n]);
      forall h | h in Run(steps).live
        ensures var seen := Announced(EventsOf(steps, h));
          Run(steps).status == if seen.Some? then Connected(seen.value) else Connecting
      {
        assert steps == steps[..n] + [steps[n]];
        if h in m.live {
          StillSeen(steps[..n], steps[n], h);
        } else {
          NewHandler(steps[..n], steps[n], h);
        }
      }
    }
  }

  lemma ConnectStarts(m: State, dial: Dial, h: nat)
    requires Inv(m) && h !in m.live && h in Connect(m, dial).0.live
    ensures Connect(m, dial).0.status == Connecting && h == m.next + 1
  {
  }

  /** Nothing but its own events changes the status of a handler that stays. */
  lemma Undisturbed(m: State, step: Step, h: nat)
    requires Inv(m) && h in m.live && h in Next(m, step).live && !(step.DoEvent? && step.h == h)
    ensures Next(m, step).status == m.status
  {
    SingletonIs(m.live, h);
    DisconnectKeeps(m);
    match step
    case DoReconnect(dial) =>
      ReplacedByNew(m, dial, h);
    case _ =>
  }

  /** No handler survives a reconnect. */
  lemma ReplacedByNew(m: State, dial: Dial, h: nat)
    requires Inv(m) && h in m.live
    ensures h !in Next(m, DoReconnect(dial)).live
  {
    DisconnectKeeps(m);
    if h in Connect(Disconnect(m).0, dial).0.live {
      ConnectStarts(Disconnect(m).0, dial, h);
    }
  }

  lemma StillSeen(steps: seq<Step>, step: Step, h: nat)
    requires h in Run(steps).live && h in Run(steps + [step]).live
    requires var seen := Announced(EventsOf(steps, h));
      Run(steps).status == if seen.Some? then Connected(seen.value) else Connecting
    ensures var seen := Announced(EventsOf(steps + [step], h));
      Run(steps + [step]).status == if seen.Some? then Connected(seen.value) else Connecting
  {
    RunKeeps(steps);
    var all := steps + [step];
    assert all[..|steps|] == steps && all[|steps|] == step;
    var before := EventsOf(steps, h);
    if step.DoEvent? && step.h == h {
      assert (before + [step.event])[..|before|] == before;
      EventOutcome(steps, h, step.event, step.fault);
      hide EventsOf, Handle, Inv;
    } else {
      hide Inv, Next;
      Undisturbed(Run(steps), step, h);
    }
  }

  lemma StepStarts(m: State, step: Step, h: nat)
    requires Inv(m) && h !in m.live && h in Next(m, step).live
    ensures Next(m, step).status == Connecting && h >= m.next && !step.DoEvent?
  {
    DisconnectKeeps(m);
    match step
    case DoConnect(dial) => ConnectStarts(m, dial, h);
    case DoReconnect(dial) =>
      hide Connect;
      ConnectStarts(Disconnect(m).0, dial, h);
    case _ =>
  }

  /** A handler starts with `Connecting`, having seen nothing. */
  lemma NewHandler(steps: seq<Step>, step: Step, h: nat)
    requires h !in Run(steps).live && h in Run(steps + [step]).live
    ensures Run(steps + [step]).status == Connecting && EventsOf(steps + [step], h) == []
  {
    RunKeeps(steps);
    var all := steps + [step];
    assert all[..|steps|] == steps && all[|steps|] == step;
    hide Inv, Next;
    StepStarts(Run(steps), step, h);
    FreshHandle(steps, h);
  }

  // --- Stuck at the challenge ---

  /** Still asking for a code, and taking none. */
  ghost predicate Stranded(m: State) {
    m.status.Mfa? && forall a :: !Challenge(m, a).1
  }

  lemma StrandedIs(m: State)
    requires Inv(m)
    ensures Stranded(m) <==> m.status.Mfa? && m.session == Some(Ready)
  {
    if m.status.Mfa? && m.session != Some(Ready) { assert Challenge(m, AcceptedStarted).1; }
  }

  /** How the manager comes to be stranded, and how it stays so: in every
      reachable state a step leaves it stranded exactly if it is a code accepted
      without a tunnel at the gate, or if the manager was stranded and the step
      is neither a connect, a disconnect nor a reconnect. So at the gate no other
      answer strands it. */
  lemma StrandedExactly(steps: seq<Step>, step: Step)
    ensures var m := Run(steps);
      Stranded(Run(steps + [step])) <==>
        || (AtGate(m) && step.DoChallenge? && step.answer.AcceptedNoTunnel?)
        || (Stranded(m) && (step.DoChallenge? || step.DoEvent? || step.DoClose?))
  {
    RunKeeps(steps);
    assert (steps + [step])[..|steps|] == steps;
    var m := Run(steps);
    NextKeeps(m, step);
    StrandedIs(m);
    StrandedIs(Next(m, step));
    hide Stranded;
  }

  /** At the gate exactly the code accepted without a tunnel strands the manager;
      nobody is told, for the status stays and no label is sent. */
  lemma AcceptedCodeWithoutTunnel(steps: seq<Step>, answer: Answer)
    requires AtGate(Run(steps))
    ensures var (m, m') := (Run(steps), Run(steps + [DoChallenge(answer)]));
      && (Stranded(m') <==> answer.AcceptedNoTunnel?)
      && (Stranded(m') ==> m'.status == m.status && m'.sent == m.sent)
  {
    RunKeeps(steps);
    StrandedIs(Run(steps));
    StrandedExactly(steps, DoChallenge(answer));
    assert (steps + [DoChallenge(answer)])[..|steps|] == steps;
    hide Stranded;
  }

  /** A stranded manager answers every further code with a refusal that changes
      nothing, and lets a connect in: it goes as from a manager at rest. */
  lemma StrandedUntilConnect(steps: seq<Step>, answers: seq<Answer>, dial: Dial)
    requires Stranded(Run(steps))
    ensures var m := Run(steps);
      && Challenges(m, answers) == m
      && var (m', ok) := Connect(m, dial);
      && (ok <==> dial.Challenged? || dial.Started?)
      && !Stranded(m')
      && (if dial.Challenged? then AtGate(m') else if ok then m'.status == Connecting else m'.status == Error(dial.why))
  {
    RunKeeps(steps);
    StrandedIs(Run(steps));
    RefusesCodes(Run(steps), answers);
    ConnectKeeps(Run(steps), dial);
    StrandedIs(Connect(Run(steps), dial).0);
  }

  function Challenges(m: State, answers: seq<Answer>): State
    decreases |answers|
  {
    if answers == [] then m else Challenges(Challenge(m, answers[0]).0, answers[1..])
  }

  lemma {:induction false} RefusesCodes(m: State, answers: seq<Answer>)
    requires m.session == Some(Ready)
    ensures Challenges(m, answers) == m
  {
    if answers == [] {
    } else {
      RefusesCodes(m, answers[1..]);
    }
  }
}
