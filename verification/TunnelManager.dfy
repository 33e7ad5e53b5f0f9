/** The tunnel manager as an object: its methods and the body of its event
    handler, field by field (apps/snx-edge-server/src/tunnel.rs). */
module TunnelManager {
  import opened Text
  import opened Tunnel

  /** A connect is let in exactly when no handler is live. */
  lemma ConnectIs(m: State, dial: Dial)
    requires Inv(m)
    ensures var (m', ok) := Tunnel.Connect(m, dial);
      && Inv(m')
      && (m.status.Busy() <==> m.live != {})
      && (m.live != {} ==> !ok && m' == m)
      && (m.live == {} && !ok ==> m'.status.Error? && m'.live == {})
      && (ok && m'.status.Connecting? ==> |m'.live| == 1 && m'.live !! m.tasks)
  {
    ConnectKeeps(m, dial);
    assert {} + {m.next + 1} == {m.next + 1};
  }

  lemma OnlyOneLive(m: State, h: nat)
    requires Inv(m) && h in m.live
    ensures m.live == {h}
  {
    SingletonIs(m.live, h);
  }

  /** A code is taken only while nothing runs. */
  lemma ChallengeIs(m: State, answer: Answer)
    requires Inv(m)
    ensures var (m', ok) := Challenge(m, answer);
      && Inv(m')
      && (ok ==> m.live == {})
      && (ok && !m'.status.Mfa? ==> m'.status == Connecting && |m'.live| == 1 && m'.live !! m.tasks)
      && (!ok ==> m'.status == m.status && m'.live == m.live)
  {
    ChallengeKeeps(m, answer);
    assert {} + {m.next + 1} == {m.next + 1};
  }

  class TunnelManager {
    var status: Status
    var connector: bool
    var session: Option<Session>
    var tasks: set<nat>
    var live: set<nat>
    var next: nat
    var disconnecting: bool
    var sent: seq<Label>

    constructor ()
      ensures Now() == INITIAL && Valid()
    {
      status, connector, session := Disconnected, false, None;
      tasks, live, next := {}, {}, 0;
      disconnecting, sent := false, [];
    }

    function Now(): State
      reads this
    {
      State(status, connector, session, tasks, live, next, disconnecting, sent)
    }

    /** Busy exactly while one event handler is live, and that handler is
        remembered; a new tunnel is started only when none runs. */
    ghost predicate Valid()
      reads this
    {
      Inv(Now())
    }

    method SetStatus(s: Status)
      modifies this`status, this`sent
      ensures Now() == old(Now()).Announce(s)
    {
      status := s;
      sent := sent + [LabelOf(s)];
    }

    method StartTunnelTasks()
      modifies this
      ensures Now() == StartTunnel(old(Now()))
    {
      tasks := tasks + {next, next + 1};
      live := live + {next + 1};
      next := next + 2;
      SetStatus(Connecting);
    }

    method Connect(dial: Dial) returns (ok: bool)
      requires Valid()
      modifies this
      ensures (Now(), ok) == Tunnel.Connect(old(Now()), dial)
      ensures Valid()
      ensures old(status.Busy()) <==> old(live) != {}
      ensures old(live) != {} ==> !ok && Now() == old(Now())
      ensures old(live) == {} && !ok ==> status.Error? && live == {}
      ensures ok && status.Connecting? ==> |live| == 1 && live !! old(tasks)
    {
      ConnectIs(Now(), dial);
      hide Inv;
      if status.Busy() { return false; }
      status := Connecting;
      disconnecting := false;
      if dial.CreateFails? || dial.AuthFails? {
        SetStatus(Error(dial.why));
        return false;
      }
      session := Some(if dial.Challenged? then Pending(dial.prompt) else Ready);
      connector := true;
      if dial.Challenged? {
        SetStatus(Mfa(dial.prompt));
        return true;
      }
      if dial.TunnelFails? {
        SetStatus(Error(dial.why));
        return false;
      }
      StartTunnelTasks();
      ok := true;
    }

    method ChallengeCode(answer: Answer) returns (ok: bool)
      requires Valid()
      modifies this
      ensures (Now(), ok) == Challenge(old(Now()), answer)
      ensures Valid()
      ensures ok ==> old(live) == {}
      ensures ok && !status.Mfa? ==> status == Connecting && |live| == 1 && live !! old(tasks)
      ensures !ok ==> status == old(status) && live == old(live)
    {
      ChallengeIs(Now(), answer);
      if session.None? || session.value.Ready? || !connector || answer.Rejected? { return false; }
      if answer.AskedAgain? {
        session := Some(Pending(answer.prompt));
        SetStatus(Mfa(answer.prompt));
        return true;
      }
      session := Some(Ready);
      if answer.AcceptedNoTunnel? { return false; }
      StartTunnelTasks();
      ok := true;
    }

    method Disconnect() returns (ok: bool)
      requires Valid()
      modifies this
      ensures (Now(), ok) == Tunnel.Disconnect(old(Now()))
      ensures Valid() && live == {} && status == Disconnected
      ensures ok ==> disconnecting && tasks == {} && session == None && !connector
    {
      DisconnectKeeps(Now());
      if status.Disconnected? { return false; }
      disconnecting := true;
      connector := false;
      session := None;
      live := live - tasks;
      tasks := {};
      SetStatus(Disconnected);
      ok := true;
    }

    method Reconnect(dial: Dial) returns (ok: bool)
      requires Valid()
      modifies this
      ensures (Now(), ok) == Tunnel.Connect(Tunnel.Disconnect(old(Now())).0, dial)
      ensures Valid()
      ensures ok && status.Connecting? ==> |live| == 1 && live !! old(live)
      ensures !ok ==> status.Error? && live == {}
    {
      var _ := Disconnect();
      ok := Connect(dial);
    }

    /** One event, whatever the state of the manager: in a valid one no handler is
        live while a disconnect is in progress. At its live handler a fault ends in
        that error, `Up` shows the connection, `Down` ends it, and a rekey changes
        the address shown. */
    method HandleEvent(h: nat, event: Event, fault: Option<string>)
      modifies this
      ensures Now() == Handle(old(Now()), h, event, fault)
      ensures old(Valid()) ==> Valid()
      ensures live <= old(live) && live >= old(live) - {h}
      ensures old(disconnecting) ==> status == old(status)
      ensures h !in old(live) ==> Now() == old(Now())
      ensures old(Valid()) && h in old(live) && fault.Some? ==>
        status == Error(fault.value) && live == {} && sent == old(sent) + [LError]
      ensures old(Valid()) && h in old(live) && fault.None? ==>
        match event
        case Up(info) => status == Connected(info) && live == {h} && sent == old(sent) + [LConnected]
        case Down => status == Disconnected && live == {} && session == None && !connector
        case Rekeyed(ip) =>
          && live == {h} && sent == old(sent)
          && status == if old(status.Connected?) then Connected(old(status).info.(ip := ip)) else old(status)
        case Other => Now() == old(Now())
    {
      if Inv(Now()) {
        EventKeeps(Now(), h, event, fault);
        if h in live { OnlyOneLive(Now(), h); }
      }
      if h !in live { return; }
      if disconnecting {
        live := live - {h};
      } else if connector && fault.Some? {
        live := live - {h};
        SetStatus(Error(fault.value));
      } else {
        match event
        case Up(info) =>
          SetStatus(Connected(info));
        case Down =>
          live := live - {h};
          connector := false;
          session := None;
          SetStatus(Disconnected);
        case Rekeyed(ip) =>
          if status.Connected? { status := Connected(status.info.(ip := ip)); }
        case Other =>
      }
    }

    method ChannelClosed(h: nat)
      modifies this
      ensures Now() == Close(old(Now()), h)
      ensures old(Valid()) ==> Valid() && (h in old(live) ==> status == Error("tunnel ended unexpectedly"))
      ensures live == old(live) - {h}
    {
      if Inv(Now()) { EventKeeps(Now(), h, Other, None); }
      if h !in live { return; }
      live := live - {h};
      if !disconnecting {
        connector := false;
        session := None;
        SetStatus(Error("tunnel ended unexpectedly"));
      }
    }
  }
}
