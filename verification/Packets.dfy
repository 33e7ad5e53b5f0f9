/** What the firewall rules `setup` leaves do to packets: which connections are
    marked for the tunnel, which packets are clamped, redirected, dropped or
    fast-tracked (apps/snx-edge-server/src/routeros/provisioner.rs). The rules
    are read from their stored attributes, as the router reads them. */
module Packets {
  import opened Text
  import opened Router
  import opened PolicyRouting
  import opened Sweeping
  import opened Building
  import opened Settling
  import opened FailClosed

  // --- RouterOS firewall rules ---

  /** `from` and `to` are the address lists that contain the source and the
      destination; `state` and `mark` are those of the packet's connection, the
      mark "no-mark" if it has none. */
  datatype Packet = Packet(
    from: set<string>, to: set<string>, protocol: string, port: string, syn: bool, state: string, mark: string)

  predicate Is(s: Spec, name: string, value: string) {
    s.Attr(name).Some? ==> s.Attr(name).value == value
  }

  predicate IsIn(s: Spec, name: string, values: set<string>) {
    s.Attr(name).Some? ==> s.Attr(name).value in values
  }

  /** A rule of the chain applies if each matcher it has fits the packet. */
  predicate Matches(s: Spec, chain: string, p: Packet) {
    && s.Attr("chain") == Some(chain)
    && IsIn(s, "src-address-list", p.from) && IsIn(s, "dst-address-list", p.to)
    && Is(s, "protocol", p.protocol) && Is(s, "dst-port", p.port)
    && Is(s, "connection-mark", p.mark)
    && (s.Attr("tcp-flags").Some? ==> s.Attr("tcp-flags").value == "syn" && p.syn)
    && (s.Attr("connection-state").Some? ==> p.state in Split(s.Attr("connection-state").value, ','))
  }

  function Or(value: Option<string>, other: string): string {
    if value.Some? then value.value else other
  }

  /** The prerouting chain: the packet with its connection's mark afterwards, and
      its routing mark. Rules apply in order, up to one without passthrough. */
  function Marked(rules: seq<Spec>, p: Packet, route: string): (Packet, string) {
    if rules == [] then (p, route)
    else
      var r := rules[0];
      if !Matches(r, "prerouting", p) then Marked(rules[1..], p, route)
      else
        var p1 := if r.Attr("action") != Some("mark-connection") then p
                  else p.(mark := Or(r.Attr("new-connection-mark"), p.mark));
        var route1 := if r.Attr("action") == Some("mark-routing") then Or(r.Attr("new-routing-mark"), route) else route;
        if r.Attr("passthrough") == Some("no") then (p1, route1) else Marked(rules[1..], p1, route1)
  }

  /** The forward chain of the mangle table: the new segment size, if any. */
  function Clamped(rules: seq<Spec>, p: Packet): Option<string> {
    if rules == [] then None
    else
      var r := rules[0];
      if !Matches(r, "forward", p) || r.Attr("action") != Some("change-mss") then Clamped(rules[1..], p)
      else if r.Attr("passthrough") == Some("no") || Clamped(rules[1..], p).None? then r.Attr("new-mss")
      else Clamped(rules[1..], p)
  }

  /** Where the destination is rewritten to, by the first rule that applies. */
  function Redirected(rules: seq<Spec>, p: Packet): Option<string> {
    if rules == [] then None
    else if Matches(rules[0], "dstnat", p) && rules[0].Attr("action") == Some("dst-nat") then rules[0].Attr("to-addresses")
    else Redirected(rules[1..], p)
  }

  datatype Passage = Passes | Blocked | FastTracked

  /** The forward chain of the filter table: the first rule that applies. */
  function Through(rules: seq<Spec>, p: Packet): Passage {
    if rules == [] then Passes
    else if Matches(rules[0], "forward", p) && rules[0].Attr("action") == Some("drop") then Blocked
    else if Matches(rules[0], "forward", p) && rules[0].Attr("action") == Some("fasttrack-connection") then FastTracked
    else Through(rules[1..], p)
  }

  // --- The rules in place ---

  function Specs(objs: seq<Obj>): seq<Spec> {
    seq(|objs|, i requires 0 <= i < |objs| => objs[i].spec)
  }

  /** The rules under one path, in list order. */
  function RulesOn(objs: seq<Obj>, p: Path): seq<Spec> {
    Specs(On(objs, p))
  }

  ghost predicate SpellsNothing(cfg: Config) {
    forall k: Kind :: !Spells(cfg, k)
  }

  ghost predicate NoRules(objs: seq<Obj>) {
    forall o :: o in objs ==> o.spec.path != Mangle && o.spec.path != Nat && o.spec.path != Filter
  }

  function TargetsFrom(cfg: Config, ip: string, k: Kind, i: nat): seq<Spec>
    requires i <= Wanted(k)
    decreases Wanted(k) - i
  {
    if i == Wanted(k) then [] else [Target(cfg, ip, k, i)] + TargetsFrom(cfg, ip, k, i + 1)
  }

  /** What the first `n` steps put under a path. */
  function Placed(cfg: Config, ip: string, steps: seq<Kind>, n: nat, p: Path): seq<Spec>
    requires n <= |steps|
  {
    if n == 0 then []
    else
      Placed(cfg, ip, steps, n - 1, p) + if PathOf(steps[n - 1]) == p then TargetsFrom(cfg, ip, steps[n - 1], 0) else []
  }

  lemma {:induction false} TargetsAre(cfg: Config, ip: string, k: Kind, i: nat, s: Spec)
    requires i <= Wanted(k) && s in TargetsFrom(cfg, ip, k, i)
    ensures exists m :: i <= m < Wanted(k) && s == Target(cfg, ip, k, m)
    decreases Wanted(k) - i
  {
    hide Target;
    if i == Wanted(k) {
    } else if s != Target(cfg, ip, k, i) {
      TargetsAre(cfg, ip, k, i + 1, s);
    }
  }

  lemma {:induction false} PlacedAre(cfg: Config, ip: string, steps: seq<Kind>, n: nat, p: Path, s: Spec)
    requires n <= |steps| && s in Placed(cfg, ip, steps, n, p)
    ensures exists k, m :: k in steps[..n] && 0 <= m < Wanted(k) && s == Target(cfg, ip, k, m)
  {
    hide Target, TargetsFrom;
    if n == 0 {
    } else {
      var k := steps[n - 1];
      assert steps[..n] == steps[..n - 1] + [k];
      if s in Placed(cfg, ip, steps, n - 1, p) {
        PlacedAre(cfg, ip, steps, n - 1, p, s);
      } else {
        TargetsAre(cfg, ip, k, 0, s);
      }
    }
  }

  lemma SpecsAppend(objs: seq<Obj>, o: Obj)
    ensures Specs(objs + [o]) == Specs(objs) + [o.spec]
  {
  }

  lemma SpecsHas(objs: seq<Obj>, o: Obj)
    requires o in objs
    ensures o.spec in Specs(objs)
  {
    var i :| 0 <= i < |objs| && objs[i] == o;
    assert Specs(objs)[i] == o.spec;
  }

  lemma CreatePlaces(cfg: Config, ip: string, k: Kind, i: nat, w: World)
    requires i < Wanted(k) && CreateCall(w, Target(cfg, ip, k, i)).1
    ensures RulesOn(CreateCall(w, Target(cfg, ip, k, i)).0.objs, PathOf(k))
         == RulesOn(w.objs, PathOf(k)) + [Target(cfg, ip, k, i)]
  {
    hide Target, On, Specs;
    var o := Obj(w.nextId, Target(cfg, ip, k, i));
    TargetOwned(cfg, ip, k, i);
    OnAppend(w.objs, o, PathOf(k));
    SpecsAppend(On(w.objs, PathOf(k)), o);
  }

  lemma CreatesOne(cfg: Config, ip: string, k: Kind, i: nat, listing: seq<Obj>, w: World)
    requires i < Wanted(k) && !Covered(cfg, k, i, listing) && CreateMissing(cfg, ip, k, i, listing, w).1
    ensures var (w1, ok) := CreateCall(w, Target(cfg, ip, k, i));
      ok && CreateMissing(cfg, ip, k, i, listing, w) == CreateMissing(cfg, ip, k, i + 1, listing, w1)
  {
    hide Target, Covered;
  }

  lemma {:induction false} CreatesAll(cfg: Config, ip: string, k: Kind, i: nat, listing: seq<Obj>, w: World)
    requires i <= Wanted(k) && CreateMissing(cfg, ip, k, i, listing, w).1
    requires forall m :: i <= m < Wanted(k) ==> !Covered(cfg, k, m, listing)
    ensures RulesOn(CreateMissing(cfg, ip, k, i, listing, w).0.objs, PathOf(k))
         == RulesOn(w.objs, PathOf(k)) + TargetsFrom(cfg, ip, k, i)
    decreases Wanted(k) - i
  {
    hide Target, Covered, RulesOn, CreateCall;
    var rules := RulesOn(w.objs, PathOf(k));
    if i == Wanted(k) {
      assert rules + [] == rules;
    } else {
      CreatesOne(cfg, ip, k, i, listing, w);
      hide CreateMissing;
      CreatePlaces(cfg, ip, k, i, w);
      CreatesAll(cfg, ip, k, i + 1, listing, CreateCall(w, Target(cfg, ip, k, i)).0);
      Shift(rules, Target(cfg, ip, k, i), TargetsFrom(cfg, ip, k, i + 1));
    }
  }

  lemma Shift<T>(a: seq<T>, x: T, b: seq<T>)
    ensures a + [x] + b == a + ([x] + b)
  {
  }

  lemma StepPlaces(cfg: Config, ip: string, steps: seq<Kind>, n: nat, w: World, p: Path)
    requires SpellsNothing(cfg) && n < |steps| && steps[n] !in steps[..n]
    requires RulesOn(w.objs, p) == Placed(cfg, ip, steps, n, p) && Ensure(cfg, ip, steps[n], w).1
    ensures RulesOn(Ensure(cfg, ip, steps[n], w).0.objs, p) == Placed(cfg, ip, steps, n + 1, p)
  {
    var k := steps[n];
    var listing := On(w.objs, PathOf(k));
    hide On, Specs, TargetsFrom, CreateMissing, Covers, Spells;
    if PathOf(k) == p {
      forall m | 0 <= m < Wanted(k) ensures !Covered(cfg, k, m, listing) {
        forall o | o in listing ensures !Covers(cfg, k, m, o.spec) {
          SpecsHas(listing, o);
          PlacedAre(cfg, ip, steps, n, p, o.spec);
          NotTaken(cfg, ip, steps[..n], k, m, o.spec);
        }
      }
      CreatesAll(cfg, ip, k, 0, listing, w.Later());
    } else {
      CreatesElsewhere(cfg, ip, k, 0, listing, w.Later(), p);
      assert Placed(cfg, ip, steps, n, p) + [] == Placed(cfg, ip, steps, n, p);
    }
  }

  lemma NotTaken(cfg: Config, ip: string, kinds: seq<Kind>, k: Kind, m: nat, s: Spec)
    requires SpellsNothing(cfg) && k !in kinds && m < Wanted(k)
    requires exists j, i :: j in kinds && 0 <= i < Wanted(j) && s == Target(cfg, ip, j, i)
    ensures !Covers(cfg, k, m, s)
  {
    hide Target, Covers, Spells;
    var j, i :| j in kinds && 0 <= i < Wanted(j) && s == Target(cfg, ip, j, i);
    TargetCovers(cfg, ip, j, i, k, m);
  }

  lemma {:induction false} RunPlaces(cfg: Config, ip: string, steps: seq<Kind>, n: nat, w: World, p: Path)
    requires SpellsNothing(cfg) && n <= |steps| && forall i :: 0 <= i < |steps| ==> steps[i] !in steps[..i]
    requires RulesOn(w.objs, p) == Placed(cfg, ip, steps, n, p)
    requires RunSteps(cfg, ip, steps[n..], steps[..n], w).1.failed.None?
    ensures RulesOn(RunSteps(cfg, ip, steps[n..], steps[..n], w).0.objs, p) == Placed(cfg, ip, steps, |steps|, p)
    decreases |steps| - n
  {
    if n == |steps| {
    } else {
      hide SpellsNothing, RulesOn, Placed, Ensure, RunSteps;
      NextStep(cfg, ip, steps, n, w);
      var (w1, ok) := Ensure(cfg, ip, steps[n], w);
      StepPlaces(cfg, ip, steps, n, w, p);
      RunPlaces(cfg, ip, steps, n + 1, w1, p);
    }
  }

  /** Runs that go through leave exactly the steps' targets there. */
  lemma SetupPlaces(cfg: Config, ip: string, w: World, p: Path)
    requires w.Valid() && SpellsNothing(cfg) && Setup(cfg, ip, w).1.failed.None?
    requires forall o :: o in w.objs ==> o.spec.path != p
    ensures RulesOn(Setup(cfg, ip, w).0.objs, p) == Placed(cfg, ip, STEPS, |STEPS|, p)
  {
    forall i | 0 <= i < |STEPS| ensures STEPS[i] !in STEPS[..i] { StepsDistinct(i); }
    assert STEPS[0..] == STEPS && STEPS[..0] == [];
    hide Sweep, RunSteps, STEPS, SWEEP, Distinct, SpellsNothing, TargetsFrom;
    SweepLeaves(cfg, Legacy, w);
    var w0 := Migrate(cfg, w);
    NothingOn(w0.objs, p);
    RunPlaces(cfg, ip, STEPS, 0, w0, p);
  }

  lemma StepsDistinct(n: nat)
    requires n < |STEPS|
    ensures STEPS[n] !in STEPS[..n]
  {
    StepsInOrder();
    forall i | 0 <= i < n ensures STEPS[..n][i] != STEPS[n] {
      assert STEPS[..n][i] == STEPS[i];
    }
  }

  lemma {:induction false} NothingOn(objs: seq<Obj>, p: Path)
    requires forall o :: o in objs ==> o.spec.path != p
    ensures On(objs, p) == []
  {
    if objs == [] {
    } else {
      NothingOn(objs[..|objs| - 1], p);
    }
  }

  lemma PlacedNone(cfg: Config, ip: string, steps: seq<Kind>, p: Path)
    ensures Placed(cfg, ip, steps, 0, p) == []
  {
  }

  lemma PlacedElsewhere(cfg: Config, ip: string, steps: seq<Kind>, n: nat, p: Path)
    requires n < |steps| && PathOf(steps[n]) != p
    ensures Placed(cfg, ip, steps, n + 1, p) == Placed(cfg, ip, steps, n, p)
  {
    assert Placed(cfg, ip, steps, n, p) + [] == Placed(cfg, ip, steps, n, p);
  }

  lemma PlacedOne(cfg: Config, ip: string, steps: seq<Kind>, n: nat, p: Path, k: Kind)
    requires n < |steps| && steps[n] == k && PathOf(k) == p && Wanted(k) == 1
    ensures Placed(cfg, ip, steps, n + 1, p) == Placed(cfg, ip, steps, n, p) + [Target(cfg, ip, k, 0)]
  {
    hide Target;
    assert TargetsFrom(cfg, ip, k, 1) == [];
    assert TargetsFrom(cfg, ip, k, 0) == [Target(cfg, ip, k, 0)];
  }

  lemma PlacedTwo(cfg: Config, ip: string, steps: seq<Kind>, n: nat, p: Path, k: Kind)
    requires n < |steps| && steps[n] == k && PathOf(k) == p && Wanted(k) == 2
    ensures Placed(cfg, ip, steps, n + 1, p) ==
      Placed(cfg, ip, steps, n, p) + [Target(cfg, ip, k, 0), Target(cfg, ip, k, 1)]
  {
    hide Target;
    assert TargetsFrom(cfg, ip, k, 2) == [];
    assert TargetsFrom(cfg, ip, k, 1) == [Target(cfg, ip, k, 1)];
    assert TargetsFrom(cfg, ip, k, 0) == [Target(cfg, ip, k, 0), Target(cfg, ip, k, 1)];
  }

  /** The steps in their order, and how many objects each wants. */
  predicate InOrder(steps: seq<Kind>) {
    && |steps| == 10
    && steps[0] == RoutingTable && steps[1] == ConnMark && steps[2] == RoutingMark && steps[3] == MssClamp
    && steps[4] == DefaultRoute && steps[5] == KillSwitch && steps[6] == DnsDstNat && steps[7] == DotBlock
    && steps[8] == Fasttrack && steps[9] == Rfc1918
    && Wanted(ConnMark) == 1 && Wanted(RoutingMark) == 1 && Wanted(MssClamp) == 1 && Wanted(Fasttrack) == 1
    && Wanted(DnsDstNat) == 2 && Wanted(DotBlock) == 2
  }

  lemma StepsAre()
    ensures InOrder(STEPS)
  {
    StepsInOrder();
  }

  lemma {:induction false} PlacedOnlyThere(cfg: Config, ip: string, steps: seq<Kind>, m: nat, n: nat, p: Path)
    requires m <= n <= |steps| && forall i :: m <= i < n ==> PathOf(steps[i]) != p
    ensures Placed(cfg, ip, steps, n, p) == Placed(cfg, ip, steps, m, p)
  {
    hide Placed;
    if m == n {
    } else {
      PlacedOnlyThere(cfg, ip, steps, m, n - 1, p);
      PlacedElsewhere(cfg, ip, steps, n - 1, p);
    }
  }

  lemma Paths(steps: seq<Kind>)
    requires InOrder(steps)
    ensures |steps| == 10
    ensures PathOf(steps[0]) == Table && PathOf(steps[1]) == Mangle && PathOf(steps[2]) == Mangle
    ensures PathOf(steps[3]) == Mangle && PathOf(steps[4]) == Route && PathOf(steps[5]) == Route
    ensures PathOf(steps[6]) == Nat && PathOf(steps[7]) == Filter && PathOf(steps[8]) == Filter
    ensures PathOf(steps[9]) == AddressList
    ensures Wanted(ConnMark) == 1 && Wanted(RoutingMark) == 1 && Wanted(MssClamp) == 1 && Wanted(Fasttrack) == 1
    ensures Wanted(DnsDstNat) == 2 && Wanted(DotBlock) == 2
    ensures steps[1] == ConnMark && steps[2] == RoutingMark && steps[3] == MssClamp
    ensures steps[6] == DnsDstNat && steps[7] == DotBlock && steps[8] == Fasttrack
  {
  }

  lemma Three<T>(a: T, b: T, c: T)
    ensures [] + [a] + [b] + [c] == [a, b, c] && [] + [a, b] == [a, b] && [a, b] + [c] == [a, b, c]
  {
  }

  lemma MangleRules(cfg: Config, ip: string, steps: seq<Kind>)
    requires InOrder(steps)
    ensures Wanted(ConnMark) == 1 && Wanted(RoutingMark) == 1 && Wanted(MssClamp) == 1
    ensures |steps| == 10 && Placed(cfg, ip, steps, 10, Mangle) ==
      [Target(cfg, ip, ConnMark, 0), Target(cfg, ip, RoutingMark, 0), Target(cfg, ip, MssClamp, 0)]
  {
    hide *;
    Paths(steps);
    PlacedNone(cfg, ip, steps, Mangle);
    PlacedOnlyThere(cfg, ip, steps, 0, 1, Mangle);
    PlacedOne(cfg, ip, steps, 1, Mangle, ConnMark);
    PlacedOne(cfg, ip, steps, 2, Mangle, RoutingMark);
    PlacedOne(cfg, ip, steps, 3, Mangle, MssClamp);
    PlacedOnlyThere(cfg, ip, steps, 4, 10, Mangle);
    Three(Target(cfg, ip, ConnMark, 0), Target(cfg, ip, RoutingMark, 0), Target(cfg, ip, MssClamp, 0));
  }

  lemma NatRules(cfg: Config, ip: string, steps: seq<Kind>)
    requires InOrder(steps)
    ensures Wanted(DnsDstNat) == 2
    ensures |steps| == 10 && Placed(cfg, ip, steps, 10, Nat) ==
      [Target(cfg, ip, DnsDstNat, 0), Target(cfg, ip, DnsDstNat, 1)]
  {
    hide *;
    Paths(steps);
    PlacedNone(cfg, ip, steps, Nat);
    PlacedOnlyThere(cfg, ip, steps, 0, 6, Nat);
    PlacedTwo(cfg, ip, steps, 6, Nat, DnsDstNat);
    PlacedOnlyThere(cfg, ip, steps, 7, 10, Nat);
  }

  lemma FilterRules(cfg: Config, ip: string, steps: seq<Kind>)
    requires InOrder(steps)
    ensures Wanted(DotBlock) == 2 && Wanted(Fasttrack) == 1
    ensures |steps| == 10 && Placed(cfg, ip, steps, 10, Filter) ==
      [Target(cfg, ip, DotBlock, 0), Target(cfg, ip, DotBlock, 1), Target(cfg, ip, Fasttrack, 0)]
  {
    hide *;
    Paths(steps);
    PlacedNone(cfg, ip, steps, Filter);
    PlacedOnlyThere(cfg, ip, steps, 0, 7, Filter);
    PlacedTwo(cfg, ip, steps, 7, Filter, DotBlock);
    PlacedOne(cfg, ip, steps, 8, Filter, Fasttrack);
    PlacedOnlyThere(cfg, ip, steps, 9, 10, Filter);
    Three(Target(cfg, ip, DotBlock, 0), Target(cfg, ip, DotBlock, 1), Target(cfg, ip, Fasttrack, 0));
  }

  // --- The reconciler's calls touch routes only ---

  lemma CallElsewhere(cfg: Config, w: World, c: RouteCall, p: Path)
    requires p != Route
    ensures On(Call(cfg, w, c).objs, p) == On(w.objs, p)
  {
    hide CreateMissing, DeleteSelected, On;
    match c
    case Engage(gateway, script) =>
      CreatesElsewhere(cfg, gateway, DefaultRoute, 0, On(w.objs, Route), w.(script := script).Later(), p);
    case Release(script) =>
      DeletesElsewhere(cfg, Applied([DefaultRoute]), On(w.objs, Route), w.(script := script).Later(), p);
  }

  lemma {:induction false} CallsElsewhere(cfg: Config, w: World, calls: seq<RouteCall>, p: Path)
    requires p != Route
    ensures On(CallAll(cfg, w, calls).objs, p) == On(w.objs, p)
  {
    hide Call, On;
    if calls == [] {
    } else {
      var n := |calls| - 1;
      CallsElsewhere(cfg, w, calls[..n], p);
      CallElsewhere(cfg, CallAll(cfg, w, calls[..n]), calls[n], p);
    }
  }

  /** The router after a successful `setup` and any route calls, if it had no
      firewall rules of its own. */
  ghost predicate InPlace(cfg: Config, ip: string, objs: seq<Obj>) {
    && RulesOn(objs, Mangle) == [Target(cfg, ip, ConnMark, 0), Target(cfg, ip, RoutingMark, 0), Target(cfg, ip, MssClamp, 0)]
    && RulesOn(objs, Nat) == [Target(cfg, ip, DnsDstNat, 0), Target(cfg, ip, DnsDstNat, 1)]
    && RulesOn(objs, Filter) ==
       [Target(cfg, ip, DotBlock, 0), Target(cfg, ip, DotBlock, 1), Target(cfg, ip, Fasttrack, 0)]
  }

  lemma RulesInPlace(cfg: Config, ip: string, w: World, calls: seq<RouteCall>)
    requires w.Valid() && SpellsNothing(cfg) && NoRules(w.objs) && Setup(cfg, ip, w).1.failed.None?
    ensures InPlace(cfg, ip, CallAll(cfg, Setup(cfg, ip, w).0, calls).objs)
  {
    hide Setup, CallAll, On, Specs, Target, SpellsNothing, Placed, STEPS;
    var w' := Setup(cfg, ip, w).0;
    SetupPlaces(cfg, ip, w, Mangle);
    SetupPlaces(cfg, ip, w, Nat);
    SetupPlaces(cfg, ip, w, Filter);
    CallsElsewhere(cfg, w', calls, Mangle);
    CallsElsewhere(cfg, w', calls, Nat);
    CallsElsewhere(cfg, w', calls, Filter);
    StepsAre();
    MangleRules(cfg, ip, STEPS);
    NatRules(cfg, ip, STEPS);
    FilterRules(cfg, ip, STEPS);
  }

  // --- What each rule matches ---

  lemma StateNew(state: string)
    ensures state in Split("new", ',') <==> state == "new"
  {
    hide Split;
    SplitNoSep("new", ',');
  }

  lemma StateKnown(state: string)
    ensures state in Split("established,related", ',') <==> state == "established" || state == "related"
  {
    hide Split;
    assert "established" + [','] + "related" == "established,related";
    SplitJoin("established", ',', "related");
    SplitNoSep("established", ',');
    SplitNoSep("related", ',');
  }

  lemma ConnMarkMatches(cfg: Config, ip: string, p: Packet)
    ensures Wanted(ConnMark) == 1
    ensures var r := Target(cfg, ip, ConnMark, 0);
      && !Matches(r, "forward", p)
      && (Matches(r, "prerouting", p) <==> cfg.listVpn in p.from && cfg.listCorp in p.to && p.state == "new")
      && r.Attr("action") == Some("mark-connection") && r.Attr("new-connection-mark") == Some(cfg.connMark)
      && r.Attr("passthrough") == Some("yes")
  {
    StateNew(p.state);
    hide Split;
  }

  lemma RoutingMarkMatches(cfg: Config, ip: string, p: Packet)
    ensures Wanted(RoutingMark) == 1
    ensures var r := Target(cfg, ip, RoutingMark, 0);
      && !Matches(r, "forward", p)
      && (Matches(r, "prerouting", p) <==> p.mark == cfg.connMark)
      && r.Attr("action") == Some("mark-routing") && r.Attr("new-routing-mark") == Some(cfg.routingMark)
      && r.Attr("passthrough") == Some("no")
  {
  }

  lemma MssClampMatches(cfg: Config, ip: string, p: Packet)
    ensures Wanted(MssClamp) == 1
    ensures var r := Target(cfg, ip, MssClamp, 0);
      && !Matches(r, "prerouting", p)
      && (Matches(r, "forward", p) <==> p.mark == cfg.connMark && p.protocol == "tcp" && p.syn)
      && r.Attr("action") == Some("change-mss") && r.Attr("new-mss") == Some("clamp-to-pmtu")
      && r.Attr("passthrough") == Some("yes")
  {
  }

  lemma DnsMatches(cfg: Config, ip: string, i: nat, p: Packet)
    requires i < 2
    ensures Wanted(DnsDstNat) == 2
    ensures var r := Target(cfg, ip, DnsDstNat, i);
      && (Matches(r, "dstnat", p) <==>
            cfg.listVpn in p.from && p.port == "53" && p.protocol == if i == 0 then "udp" else "tcp")
      && r.Attr("action") == Some("dst-nat") && r.Attr("to-addresses") == Some(ip)
  {
  }

  lemma DotMatches(cfg: Config, ip: string, i: nat, p: Packet)
    requires i < 2
    ensures Wanted(DotBlock) == 2
    ensures var r := Target(cfg, ip, DotBlock, i);
      && (Matches(r, "forward", p) <==>
            cfg.listVpn in p.from && p.port == "853" && p.protocol == if i == 0 then "tcp" else "udp")
      && r.Attr("action") == Some("drop")
  {
  }

  lemma FasttrackMatches(cfg: Config, ip: string, p: Packet)
    ensures Wanted(Fasttrack) == 1
    ensures var r := Target(cfg, ip, Fasttrack, 0);
      && (Matches(r, "forward", p) <==> (p.state == "established" || p.state == "related") && p.mark == "no-mark")
      && r.Attr("action") == Some("fasttrack-connection")
  {
    StateKnown(p.state);
    hide Split;
  }

  // --- What becomes of a packet ---

  /** A new connection from a client to a corporate address. */
  predicate ToCorp(cfg: Config, p: Packet) {
    cfg.listVpn in p.from && cfg.listCorp in p.to && p.state == "new"
  }

  lemma MarkedNext(r: Spec, rules: seq<Spec>, p: Packet, route: string)
    ensures Marked([r] + rules, p, route) ==
      if !Matches(r, "prerouting", p) then Marked(rules, p, route)
      else
        var p1 := if r.Attr("action") != Some("mark-connection") then p
                  else p.(mark := Or(r.Attr("new-connection-mark"), p.mark));
        var route1 := if r.Attr("action") == Some("mark-routing") then Or(r.Attr("new-routing-mark"), route) else route;
        if r.Attr("passthrough") == Some("no") then (p1, route1) else Marked(rules, p1, route1)
  {
    assert ([r] + rules)[1..] == rules;
  }

  /** In prerouting exactly the new connections from a client to a corporate
      address get the connection mark, and exactly the packets of connections so
      marked, the first one included, get the routing mark. Rules the operator
      adds behind ours do not change what a marked packet gets. */
  lemma PreroutingOf(cfg: Config, ip: string, p: Packet, route: string, later: seq<Spec>)
    ensures Wanted(ConnMark) == 1 && Wanted(RoutingMark) == 1 && Wanted(MssClamp) == 1
    ensures var ours := [Target(cfg, ip, ConnMark, 0), Target(cfg, ip, RoutingMark, 0), Target(cfg, ip, MssClamp, 0)];
      var p' := p.(mark := if ToCorp(cfg, p) then cfg.connMark else p.mark);
      Marked(ours + later, p, route) == if p'.mark == cfg.connMark then (p', cfg.routingMark) else Marked(later, p', route)
  {
    var p' := p.(mark := if ToCorp(cfg, p) then cfg.connMark else p.mark);
    ConnMarkMatches(cfg, ip, p);
    RoutingMarkMatches(cfg, ip, p');
    MssClampMatches(cfg, ip, p');
    hide Target, Matches, Marked;
    var (a, b, c) := (Target(cfg, ip, ConnMark, 0), Target(cfg, ip, RoutingMark, 0), Target(cfg, ip, MssClamp, 0));
    MarkedNext(a, [b, c] + later, p, route);
    MarkedNext(b, [c] + later, p', route);
    MarkedNext(c, later, p', route);
    assert [a, b, c] + later == [a] + ([b, c] + later) && [b, c] + later == [b] + ([c] + later);
  }

  lemma ClampedNext(r: Spec, rules: seq<Spec>, p: Packet)
    ensures Clamped([r] + rules, p) ==
      if !Matches(r, "forward", p) || r.Attr("action") != Some("change-mss") then Clamped(rules, p)
      else if r.Attr("passthrough") == Some("no") || Clamped(rules, p).None? then r.Attr("new-mss")
      else Clamped(rules, p)
  {
    assert ([r] + rules)[1..] == rules;
  }

  lemma ForwardOf(cfg: Config, ip: string, p: Packet)
    ensures Wanted(ConnMark) == 1 && Wanted(RoutingMark) == 1 && Wanted(MssClamp) == 1
    ensures Clamped([Target(cfg, ip, ConnMark, 0), Target(cfg, ip, RoutingMark, 0), Target(cfg, ip, MssClamp, 0)], p) ==
      if p.mark == cfg.connMark && p.protocol == "tcp" && p.syn then Some("clamp-to-pmtu") else None
  {
    ConnMarkMatches(cfg, ip, p);
    RoutingMarkMatches(cfg, ip, p);
    MssClampMatches(cfg, ip, p);
    assert Clamped([], p) == None;
    hide Target, Matches, Clamped;
    var (a, b, c) := (Target(cfg, ip, ConnMark, 0), Target(cfg, ip, RoutingMark, 0), Target(cfg, ip, MssClamp, 0));
    ClampedNext(a, [b, c], p);
    ClampedNext(b, [c], p);
    ClampedNext(c, [], p);
    assert [a, b, c] == [a] + [b, c] && [b, c] == [b] + [c] && [c] == [c] + [];
  }

  lemma RedirectedNext(r: Spec, rules: seq<Spec>, p: Packet)
    ensures Redirected([r] + rules, p) ==
      if Matches(r, "dstnat", p) && r.Attr("action") == Some("dst-nat") then r.Attr("to-addresses") else Redirected(rules, p)
  {
    assert ([r] + rules)[1..] == rules;
  }

  lemma ThroughNext(r: Spec, rules: seq<Spec>, p: Packet)
    ensures Through([r] + rules, p) ==
      if Matches(r, "forward", p) && r.Attr("action") == Some("drop") then Blocked
      else if Matches(r, "forward", p) && r.Attr("action") == Some("fasttrack-connection") then FastTracked
      else Through(rules, p)
  {
    assert ([r] + rules)[1..] == rules;
  }

  lemma NatOf(cfg: Config, ip: string, p: Packet)
    ensures Wanted(DnsDstNat) == 2
    ensures Redirected([Target(cfg, ip, DnsDstNat, 0), Target(cfg, ip, DnsDstNat, 1)], p) ==
      if cfg.listVpn in p.from && p.port == "53" && (p.protocol == "udp" || p.protocol == "tcp") then Some(ip) else None
  {
    DnsMatches(cfg, ip, 0, p);
    DnsMatches(cfg, ip, 1, p);
    assert Redirected([], p) == None;
    hide Target, Matches, Redirected;
    var (a, b) := (Target(cfg, ip, DnsDstNat, 0), Target(cfg, ip, DnsDstNat, 1));
    RedirectedNext(a, [b], p);
    RedirectedNext(b, [], p);
    assert [a, b] == [a] + [b] && [b] == [b] + [];
  }

  lemma FilterOf(cfg: Config, ip: string, p: Packet)
    ensures Wanted(DotBlock) == 2 && Wanted(Fasttrack) == 1
    ensures Through([Target(cfg, ip, DotBlock, 0), Target(cfg, ip, DotBlock, 1), Target(cfg, ip, Fasttrack, 0)], p) ==
      if cfg.listVpn in p.from && p.port == "853" && (p.protocol == "udp" || p.protocol == "tcp") then Blocked
      else if p.mark == "no-mark" && (p.state == "established" || p.state == "related") then FastTracked
      else Passes
  {
    DotMatches(cfg, ip, 0, p);
    DotMatches(cfg, ip, 1, p);
    FasttrackMatches(cfg, ip, p);
    assert Through([], p) == Passes;
    assert "drop" != "fasttrack-connection";
    hide Target, Matches, Through;
    var (a, b, c) := (Target(cfg, ip, DotBlock, 0), Target(cfg, ip, DotBlock, 1), Target(cfg, ip, Fasttrack, 0));
    ThroughNext(a, [b, c], p);
    ThroughNext(b, [c], p);
    ThroughNext(c, [], p);
    assert [a, b, c] == [a] + [b, c] && [b, c] == [b] + [c] && [c] == [c] + [];
  }

  /** What the router does with any packet after a successful `setup` on a router
      without firewall rules of its own, and after any route calls since: the
      marks, the segment size, the redirection of DNS to the container, the block
      on DNS over TLS, and what is fast-tracked. */
  lemma PacketsAfterSetup(cfg: Config, ip: string, w: World, calls: seq<RouteCall>, p: Packet, route: string)
    requires w.Valid() && SpellsNothing(cfg) && NoRules(w.objs) && Setup(cfg, ip, w).1.failed.None?
    ensures var objs := CallAll(cfg, Setup(cfg, ip, w).0, calls).objs;
      var (p', route') := Marked(RulesOn(objs, Mangle), p, route);
      && p' == p.(mark := if ToCorp(cfg, p) then cfg.connMark else p.mark)
      && route' == (if p'.mark == cfg.connMark then cfg.routingMark else route)
      && Clamped(RulesOn(objs, Mangle), p) == (
           if p.mark == cfg.connMark && p.protocol == "tcp" && p.syn then Some("clamp-to-pmtu") else None)
      && Redirected(RulesOn(objs, Nat), p) == (
           if cfg.listVpn in p.from && p.port == "53" && (p.protocol == "udp" || p.protocol == "tcp") then Some(ip) else None)
      && Through(RulesOn(objs, Filter), p) == (
           if cfg.listVpn in p.from && p.port == "853" && (p.protocol == "udp" || p.protocol == "tcp") then Blocked
           else if p.mark == "no-mark" && (p.state == "established" || p.state == "related") then FastTracked
           else Passes)
  {
    RulesInPlace(cfg, ip, w, calls);
    PreroutingOf(cfg, ip, p, route, []);
    ForwardOf(cfg, ip, p);
    NatOf(cfg, ip, p);
    FilterOf(cfg, ip, p);
    NoneMarked(p.(mark := if ToCorp(cfg, p) then cfg.connMark else p.mark), route);
    Append([Target(cfg, ip, ConnMark, 0), Target(cfg, ip, RoutingMark, 0), Target(cfg, ip, MssClamp, 0)]);
    hide Setup, CallAll, RulesOn, Target, Marked, Clamped, Redirected, Through, SpellsNothing, NoRules, Distinct;
  }

  lemma NoneMarked(p: Packet, route: string)
    ensures Marked([], p, route) == (p, route)
  {
  }

  lemma Append<T>(a: seq<T>)
    ensures a + [] == a
  {
  }

  /** The whole way. With one name for mark and table, every packet of a client's
      connection to a corporate address, from the first one on, is looked up in our
      table and never leaves by the main one, whatever the tunnel and the route
      calls do; and none of its later packets is fast-tracked past the marking,
      unless the connection mark is itself called "no-mark". Packets of other
      connections keep the table they had. */
  lemma CorpTrafficStaysIn(cfg: Config, ip: string, w: World, calls: seq<RouteCall>, p: Packet, up: bool)
    requires w.Valid() && NoStepKind(cfg, w.objs) && SpellsNothing(cfg) && NoRules(w.objs)
    requires Setup(cfg, ip, w).1.failed.None? && cfg.routingMark == cfg.table
    ensures var objs := CallAll(cfg, Setup(cfg, ip, w).0, calls).objs;
      var (p', route) := Marked(RulesOn(objs, Mangle), p, "main");
      if ToCorp(cfg, p) || p.mark == cfg.connMark then
        && p'.mark == cfg.connMark && route == cfg.table && Resolve(objs, route, up) != MainTable
        && (cfg.connMark != "no-mark" ==> Through(RulesOn(objs, Filter), p') != FastTracked)
      else p' == p && route == "main"
  {
    PacketsAfterSetup(cfg, ip, w, calls, p, "main");
    var p' := p.(mark := if ToCorp(cfg, p) then cfg.connMark else p.mark);
    PacketsAfterSetup(cfg, ip, w, calls, p', "main");
    assert RouteTag(cfg);
    FailsClosed(cfg, ip, w, calls, up);
    hide Setup, CallAll, RulesOn, Marked, Through, Resolve, SpellsNothing;
    hide NoRules, NoStepKind, Distinct, NoRoutesIn, HasDefaultRoute;
  }

  // --- The table and the bypass list ---

  /** After every successful `setup`, for every tag and whatever the router held:
      the table is there, and each of the three private ranges is in the bypass
      list itself; entries of other lists do not stand in. A table it makes is a
      forwarding table of that name. */
  lemma TableAndBypass(cfg: Config, ip: string, w: World)
    requires w.Valid() && Setup(cfg, ip, w).1.failed.None?
    ensures var objs := Setup(cfg, ip, w).0.objs;
      && (exists o :: o in objs && o.spec.path == Table && o.spec.Attr("name") == Some(cfg.table))
      && forall range :: range in {"192.168.0.0/16", "172.16.0.0/12", "10.0.0.0/8"} ==>
           exists o :: o in objs && o.spec.path == AddressList
                       && o.spec.Attr("list") == Some(cfg.listBypass) && o.spec.Attr("address") == Some(range)
    ensures forall o :: o in Setup(cfg, ip, w).0.objs && o !in w.objs && o.spec.path == Table ==>
      o.spec.Attr("name") == Some(cfg.table) && o.spec.Attr("fib") == Some("")
  {
    hide RunSteps, Sweep, Distinct, STEPS, SWEEP, Keep, NewOnly, OfKind;
    var w0 := Migrate(cfg, w);
    SweepLeaves(cfg, Legacy, w);
    RunStepsSettle(cfg, ip, STEPS, [], w0);
    RunStepsOrder(cfg, ip, STEPS, [], w0);
    assert [] + STEPS == STEPS;
    EveryKindStepped(RoutingTable);
    EveryKindStepped(Rfc1918);
    var objs := Setup(cfg, ip, w).0.objs;
    SetupSucceeds(cfg, ip, w);
    forall o | o in objs && o !in w.objs && o.spec.path == Table
      ensures o.spec.Attr("name") == Some(cfg.table) && o.spec.Attr("fib") == Some("")
    {
      NewTable(cfg, ip, STEPS, o.spec);
    }
    assert Settled(cfg, RoutingTable, objs) && Settled(cfg, Rfc1918, objs);
    assert Covered(cfg, RoutingTable, 0, objs);
    assert Covered(cfg, Rfc1918, 0, objs) && Covered(cfg, Rfc1918, 1, objs) && Covered(cfg, Rfc1918, 2, objs);
  }

  lemma NewTable(cfg: Config, ip: string, kinds: seq<Kind>, s: Spec)
    requires IsTarget(cfg, ip, kinds, [], s) && s.path == Table
    ensures s.Attr("name") == Some(cfg.table) && s.Attr("fib") == Some("")
  {
    hide OfKind, Covered;
    var k, i :| k in kinds && 0 <= i < Wanted(k) && s == Target(cfg, ip, k, i);
    assert k.RoutingTable?;
  }
}
