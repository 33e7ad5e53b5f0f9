/** Where a marked packet goes, after `setup` and any number of route changes
    by the reconciler, each of which may fail
    (apps/snx-edge-server/src/routeros/provisioner.rs). */
module FailClosed {
  import opened Text
  import opened Router
  import opened PolicyRouting
  import opened Sweeping
  import opened Building
  import opened Settling
  import opened Scripting

  // --- RouterOS route lookup ---

  function Decimal(s: string): nat {
    if s == "" then 0
    else
      var n := |s| - 1;
      10 * Decimal(s[..n]) + if '0' <= s[n] <= '9' then s[n] as int - '0' as int else 0
  }

  function Distance(s: Spec): nat {
    if s.Attr("distance").Some? then Decimal(s.Attr("distance").value) else 1
  }

  predicate InTable(s: Spec, table: string) {
    s.path == Route && s.Attr("routing-table") == Some(table)
  }

  predicate IsBlackhole(s: Spec) {
    s.Attr("type") == Some("blackhole")
  }

  /** A default route of the table; one whose gateway is pinged counts only while
      the gateway answers. */
  predicate Usable(s: Spec, table: string, up: bool) {
    && InTable(s, table) && s.Attr("dst-address") == Some("0.0.0.0/0")
    && (up || s.Attr("check-gateway") != Some("ping"))
  }

  /** The usable route with the smallest distance. */
  function Best(objs: seq<Obj>, table: string, up: bool): (r: Option<Spec>)
    ensures r.None? <==> forall o :: o in objs ==> !Usable(o.spec, table, up)
    ensures r.Some? ==>
      && (exists o :: o in objs && o.spec == r.value && Usable(o.spec, table, up))
      && forall o :: o in objs && Usable(o.spec, table, up) ==> Distance(r.value) <= Distance(o.spec)
  {
    if objs == [] then None
    else
      var n := |objs| - 1;
      assert objs == objs[..n] + [objs[n]];
      var rest := Best(objs[..n], table, up);
      if Usable(objs[n].spec, table, up)
         && (rest.None? || Distance(objs[n].spec) < Distance(rest.value))
      then Some(objs[n].spec)
      else rest
  }

  datatype Verdict = MainTable | Dropped | Via(gateway: Option<string>)

  /** A packet carrying a routing mark is looked up in the table of that name,
      and in the main table if nothing there applies. */
  function Resolve(objs: seq<Obj>, mark: string, up: bool): Verdict {
    var best := Best(objs, mark, up);
    if best.None? then MainTable
    else if IsBlackhole(best.value) then Dropped
    else Via(best.value.Attr("gateway"))
  }

  // --- Runs of the reconciler's two calls ---

  datatype RouteCall = Engage(gateway: string, script: seq<Fault>) | Release(script: seq<Fault>)

  function Call(cfg: Config, w: World, c: RouteCall): World {
    match c
    case Engage(gateway, script) => SetDefaultRoutePresent(cfg, gateway, w.(script := script)).0
    case Release(script) => ClearDefaultRoute(cfg, w.(script := script)).0
  }

  function CallAll(cfg: Config, w: World, calls: seq<RouteCall>): World {
    if calls == [] then w
    else
      var n := |calls| - 1;
      Call(cfg, CallAll(cfg, w, calls[..n]), calls[n])
  }

  /** The tag spells neither of the two kinds of route. */
  predicate RouteTag(cfg: Config) {
    !Spells(cfg, DefaultRoute) && !Spells(cfg, KillSwitch)
  }

  ghost predicate HasKillSwitch(cfg: Config, objs: seq<Obj>) {
    exists o :: o in objs && o.spec == Target(cfg, "", KillSwitch, 0)
  }

  ghost predicate IsOurRoute(cfg: Config, s: Spec) {
    s == Target(cfg, "", KillSwitch, 0) || exists gateway :: s == Target(cfg, gateway, DefaultRoute, 0)
  }

  /** Nothing in the table but our two kinds of route, and no default-route
      object elsewhere. */
  ghost predicate OnlyOurRoutes(cfg: Config, objs: seq<Obj>) {
    forall o :: o in objs && (InTable(o.spec, cfg.table) || OfKind(cfg, o.spec, DefaultRoute)) ==>
      IsOurRoute(cfg, o.spec)
  }

  ghost predicate NoRoutesIn(table: string, objs: seq<Obj>) {
    forall o :: o in objs ==> !InTable(o.spec, table)
  }

  predicate HasDefaultRoute(cfg: Config, objs: seq<Obj>) {
    exists o :: o in objs && OfKind(cfg, o.spec, DefaultRoute)
  }

  lemma KillSwitchTarget(cfg: Config, ip: string, up: bool)
    ensures var t := Target(cfg, ip, KillSwitch, 0);
      && t == Target(cfg, "", KillSwitch, 0)
      && Usable(t, cfg.table, up) && IsBlackhole(t) && Distance(t) == 254
      && forall table :: InTable(t, table) <==> table == cfg.table
  {
    var d := "254";
    assert d[..2] == "25" && d[..2][..1] == "2" && d[..2][..1][..0] == "";
    assert Decimal("2") == 2 && Decimal("25") == 25;
  }

  lemma DefaultRouteTarget(cfg: Config, gateway: string, up: bool)
    ensures var t := Target(cfg, gateway, DefaultRoute, 0);
      && (Usable(t, cfg.table, up) <==> up) && !IsBlackhole(t) && Distance(t) == 1
      && t.Attr("gateway") == Some(gateway)
      && forall table :: InTable(t, table) <==> table == cfg.table
  {
    var d := "1";
    assert d[..0] == "";
  }

  // --- What one call keeps ---

  lemma EngageAdds(cfg: Config, gateway: string, w: World)
    ensures var w' := SetDefaultRoutePresent(cfg, gateway, w).0;
      || w'.objs == w.objs
      || w'.objs == w.objs + [Obj(w.nextId, Target(cfg, gateway, DefaultRoute, 0))]
  {
    hide Target, Covered;
    var listing := On(w.objs, Route);
    assert CreateMissing(cfg, gateway, DefaultRoute, 1, listing, w.Later()) == (w.Later(), true);
  }

  lemma CallKeeps(cfg: Config, w: World, c: RouteCall)
    requires RouteTag(cfg) && w.Valid()
    ensures var w' := Call(cfg, w, c);
      && w'.Valid()
      && (HasKillSwitch(cfg, w.objs) ==> HasKillSwitch(cfg, w'.objs))
      && (OnlyOurRoutes(cfg, w.objs) ==> OnlyOurRoutes(cfg, w'.objs))
  {
    hide Target, InTable, Distinct, SetDefaultRoutePresent, ClearDefaultRoute, Keep;
    match c
    case Engage(gateway, script) =>
      var start := w.(script := script);
      EngageAdds(cfg, gateway, start);
      EngageValid(cfg, gateway, start);
      DefaultRouteTarget(cfg, gateway, true);
    case Release(script) =>
      var start := w.(script := script);
      ReleaseLeaves(cfg, start);
      TargetKind(cfg, "", KillSwitch, 0, DefaultRoute);
  }

  lemma EngageValid(cfg: Config, gateway: string, w: World)
    requires w.Valid()
    ensures SetDefaultRoutePresent(cfg, gateway, w).0.Valid()
  {
    EnsureGrows(cfg, gateway, DefaultRoute, w);
  }

  lemma ReleaseLeaves(cfg: Config, w: World)
    requires w.Valid()
    ensures var w' := ClearDefaultRoute(cfg, w).0;
      && w'.Valid()
      && (forall o :: o in w'.objs ==> o in w.objs)
      && (forall o :: o in w.objs && !OfKind(cfg, o.spec, DefaultRoute) ==> o in w'.objs)
  {
    hide OfKind, Keep, Distinct;
    var sel := Applied([DefaultRoute]);
    SweepsPath(cfg, Unmanaged, sel, Route, w);
    ListingSameRef(w.objs, Route);
    DeleteSelectedSubset(cfg, sel, On(w.objs, Route), w.Later());
  }

  lemma ListingSameRef(objs: seq<Obj>, p: Path)
    requires Distinct(objs)
    ensures forall l, o :: l in On(objs, p) && o in objs ==> SameRef(l, o) ==> l == o
  {
    forall l, o | l in On(objs, p) && o in objs && SameRef(l, o) ensures l == o {
      SameRefSame(objs, l, o);
    }
  }

  lemma {:induction false} CallsKeep(cfg: Config, w: World, calls: seq<RouteCall>)
    requires RouteTag(cfg) && w.Valid()
    ensures var w' := CallAll(cfg, w, calls);
      && w'.Valid()
      && (HasKillSwitch(cfg, w.objs) ==> HasKillSwitch(cfg, w'.objs))
      && (OnlyOurRoutes(cfg, w.objs) ==> OnlyOurRoutes(cfg, w'.objs))
  {
    hide HasKillSwitch, OnlyOurRoutes, Call, NoRoutesIn, Distinct;
    if calls == [] {
    } else {
      var n := |calls| - 1;
      CallsKeep(cfg, w, calls[..n]);
      CallKeeps(cfg, CallAll(cfg, w, calls[..n]), calls[n]);
    }
  }

  /** Whatever the tag, the calls put routes into our table only. */
  lemma {:induction false} CallsStayOut(cfg: Config, w: World, calls: seq<RouteCall>, table: string)
    requires w.Valid() && table != cfg.table && NoRoutesIn(table, w.objs)
    ensures CallAll(cfg, w, calls).Valid() && NoRoutesIn(table, CallAll(cfg, w, calls).objs)
  {
    if calls == [] {
    } else {
      hide Target, InTable, Distinct, SetDefaultRoutePresent, ClearDefaultRoute;
      var n := |calls| - 1;
      CallsStayOut(cfg, w, calls[..n], table);
      var v := CallAll(cfg, w, calls[..n]);
      match calls[n]
      case Engage(gateway, script) =>
        EngageAdds(cfg, gateway, v.(script := script));
        EngageValid(cfg, gateway, v.(script := script));
        DefaultRouteTarget(cfg, gateway, true);
      case Release(script) =>
        ReleaseLeaves(cfg, v.(script := script));
    }
  }

  // --- What setup establishes ---

  /** A reported success, whatever the migration did: the route steps are
      settled, and what is new is a target. */
  lemma SetupSucceeds(cfg: Config, ip: string, w: World)
    requires w.Valid() && Setup(cfg, ip, w).1.failed.None?
    ensures var w' := Setup(cfg, ip, w).0;
      && w'.Valid()
      && Settled(cfg, DefaultRoute, w'.objs) && Settled(cfg, KillSwitch, w'.objs)
      && (forall o :: o in w'.objs && o !in w.objs ==> IsTarget(cfg, ip, STEPS, [], o.spec))
  {
    hide RunSteps, Sweep, Keep, Distinct, OfKind, Settled, IsTarget, STEPS, NewOnly, Selects;
    var w0 := Migrate(cfg, w);
    var (w', report) := RunSteps(cfg, ip, STEPS, [], w0);
    SweepsAll(cfg, Foreign, Legacy, w);
    SweepLeaves(cfg, Legacy, w);
    StopsAt(cfg, ip, w0);
    assert AllSettled(cfg, [], w0.objs);
    RunStepsSettle(cfg, ip, STEPS, [], w0);
    RunStepsAdd(cfg, ip, STEPS, [], w0);
    RunStepsGrow(cfg, ip, STEPS, [], w0);
    EveryKindStepped(DefaultRoute);
    EveryKindStepped(KillSwitch);
    assert Ran(report) == STEPS;
    forall o | o in w'.objs && o !in w.objs ensures IsTarget(cfg, ip, STEPS, [], o.spec) {
      StillTarget(cfg, ip, STEPS, [], STEPS, w0.objs, o.spec);
    }
  }

  /** A target that is a route is one of our two. */
  lemma RouteTargets(cfg: Config, ip: string, s: Spec)
    requires IsTarget(cfg, ip, STEPS, [], s) && s.path == Route
    ensures s == Target(cfg, "", KillSwitch, 0) || s == Target(cfg, ip, DefaultRoute, 0)
    ensures IsOurRoute(cfg, s) && forall table :: InTable(s, table) ==> table == cfg.table
  {
    KillSwitchTarget(cfg, ip, true);
    DefaultRouteTarget(cfg, ip, true);
    OneRoute(cfg, ip, STEPS, s);
    hide Target, STEPS, Covered, IsTarget, InTable, Usable, IsBlackhole, Distance, OfKind;
  }

  lemma OneRoute(cfg: Config, ip: string, kinds: seq<Kind>, s: Spec)
    requires IsTarget(cfg, ip, kinds, [], s) && s.path == Route
    ensures s == Target(cfg, ip, KillSwitch, 0) || s == Target(cfg, ip, DefaultRoute, 0)
  {
    hide Target, Covered, OfKind;
    var k, i :| k in kinds && 0 <= i < Wanted(k) && s == Target(cfg, ip, k, i);
    TargetOwned(cfg, ip, k, i);
    assert k == KillSwitch || k == DefaultRoute;
    assert i == 0;
  }

  /** With such a tag, a target of the default route's kind is its own. */
  lemma DefaultRouteKind(cfg: Config, ip: string, s: Spec)
    requires IsTarget(cfg, ip, STEPS, [], s) && OfKind(cfg, s, DefaultRoute) && !Spells(cfg, DefaultRoute)
    ensures IsOurRoute(cfg, s)
  {
    hide Target, STEPS, Covered, OfKind, Spells;
    var k, i :| k in STEPS && 0 <= i < Wanted(k) && s == Target(cfg, ip, k, i);
    TargetKind(cfg, ip, k, i, DefaultRoute);
    assert i == 0;
  }

  lemma CoveredByKind(cfg: Config, k: Kind, objs: seq<Obj>) returns (o: Obj)
    requires Plain(k) && Settled(cfg, k, objs)
    ensures o in objs && o.spec.path == PathOf(k) && OfKind(cfg, o.spec, k)
  {
    hide OfKind;
    assert Covered(cfg, k, 0, objs);
    o :| o in objs && Covers(cfg, k, 0, o.spec);
  }

  lemma SetupRoutes(cfg: Config, ip: string, w: World)
    requires RouteTag(cfg) && w.Valid() && NoStepKind(cfg, w.objs)
    requires Setup(cfg, ip, w).1.failed.None?
    ensures var w' := Setup(cfg, ip, w).0;
      && w'.Valid() && HasKillSwitch(cfg, w'.objs)
      && (NoRoutesIn(cfg.table, w.objs) ==> OnlyOurRoutes(cfg, w'.objs))
  {
    hide Setup, Target, Settled, Distinct, OfKind, Spells, IsTarget, IsOurRoute;
    var w' := Setup(cfg, ip, w).0;
    SetupSucceeds(cfg, ip, w);
    var o := CoveredByKind(cfg, KillSwitch, w'.objs);
    assert OfStepKind(cfg, o.spec);
    RouteTargets(cfg, ip, o.spec);
    TargetKind(cfg, ip, DefaultRoute, 0, KillSwitch);
    forall o | o in w'.objs && o !in w.objs && InTable(o.spec, cfg.table) ensures IsOurRoute(cfg, o.spec) {
      RouteTargets(cfg, ip, o.spec);
    }
    forall o | o in w'.objs && OfKind(cfg, o.spec, DefaultRoute) ensures IsOurRoute(cfg, o.spec) {
      assert OfStepKind(cfg, o.spec);
      DefaultRouteKind(cfg, ip, o.spec);
    }
  }

  lemma SetupStaysOut(cfg: Config, ip: string, w: World, table: string)
    requires w.Valid() && Setup(cfg, ip, w).1.failed.None?
    requires table != cfg.table && NoRoutesIn(table, w.objs)
    ensures Setup(cfg, ip, w).0.Valid() && NoRoutesIn(table, Setup(cfg, ip, w).0.objs)
  {
    hide Setup, Target, Settled, Distinct, IsTarget, IsOurRoute, InTable;
    var w' := Setup(cfg, ip, w).0;
    SetupSucceeds(cfg, ip, w);
    forall o | o in w'.objs ensures !InTable(o.spec, table) {
      if o !in w.objs && InTable(o.spec, table) { NewInTable(cfg, ip, o.spec, table); }
    }
  }

  lemma NewInTable(cfg: Config, ip: string, s: Spec, table: string)
    requires IsTarget(cfg, ip, STEPS, [], s) && InTable(s, table)
    ensures table == cfg.table
  {
    hide Target, IsTarget;
    RouteTargets(cfg, ip, s);
  }

  // --- The verdict ---

  lemma VerdictNotMain(cfg: Config, objs: seq<Obj>, up: bool)
    requires HasKillSwitch(cfg, objs)
    ensures Resolve(objs, cfg.table, up) != MainTable
  {
    hide Target;
    var k :| k in objs && k.spec == Target(cfg, "", KillSwitch, 0);
    KillSwitchTarget(cfg, "", up);
  }

  lemma VerdictExact(cfg: Config, objs: seq<Obj>, up: bool)
    requires RouteTag(cfg) && HasKillSwitch(cfg, objs) && OnlyOurRoutes(cfg, objs)
    ensures var verdict := Resolve(objs, cfg.table, up);
      if up && HasDefaultRoute(cfg, objs)
      then exists o, gateway :: o in objs && o.spec == Target(cfg, gateway, DefaultRoute, 0)
                                && verdict == Via(Some(gateway))
      else verdict == Dropped
  {
    hide Target, OfKind, InTable, IsBlackhole, Distance, Usable, HasDefaultRoute;
    var k :| k in objs && k.spec == Target(cfg, "", KillSwitch, 0);
    KillSwitchTarget(cfg, "", up);
    var best := Best(objs, cfg.table, up).value;
    var b :| b in objs && b.spec == best && Usable(b.spec, cfg.table, up);
    UsableIsInTable(best, cfg.table, up);
    assert IsOurRoute(cfg, best);
    if best != Target(cfg, "", KillSwitch, 0) {
      var gateway :| best == Target(cfg, gateway, DefaultRoute, 0);
      DefaultRouteTarget(cfg, gateway, up);
      DefaultRouteThere(cfg, objs, b, gateway);
    } else if up && HasDefaultRoute(cfg, objs) {
      var o, gateway := SomeDefaultRoute(cfg, objs);
      DefaultRouteTarget(cfg, gateway, up);
      assert false;
    }
  }

  lemma UsableIsInTable(s: Spec, table: string, up: bool)
    requires Usable(s, table, up)
    ensures InTable(s, table)
  {
  }

  lemma DefaultRouteThere(cfg: Config, objs: seq<Obj>, o: Obj, gateway: string)
    requires o in objs && o.spec == Target(cfg, gateway, DefaultRoute, 0)
    ensures HasDefaultRoute(cfg, objs)
  {
    TargetOwned(cfg, gateway, DefaultRoute, 0);
  }

  lemma SomeDefaultRoute(cfg: Config, objs: seq<Obj>) returns (o: Obj, gateway: string)
    requires RouteTag(cfg) && OnlyOurRoutes(cfg, objs) && HasDefaultRoute(cfg, objs)
    ensures o in objs && o.spec == Target(cfg, gateway, DefaultRoute, 0)
  {
    hide Target, OfKind;
    o :| o in objs && OfKind(cfg, o.spec, DefaultRoute);
    TargetKind(cfg, "", KillSwitch, 0, DefaultRoute);
    gateway :| o.spec == Target(cfg, gateway, DefaultRoute, 0);
  }

  /** Fail closed. After a `setup` that reported success from a store with no
      step-kind objects, under every sequence of possibly failing route calls,
      a packet marked for our table never falls through to the main table. If
      the table held no other routes to begin with, the packet goes to the
      container exactly while a default-route object exists and its gateway
      answers, and to the blackhole otherwise. */
  lemma FailsClosed(cfg: Config, ip: string, w: World, calls: seq<RouteCall>, up: bool)
    requires RouteTag(cfg) && w.Valid() && NoStepKind(cfg, w.objs)
    requires Setup(cfg, ip, w).1.failed.None?
    requires cfg.routingMark == cfg.table
    ensures var objs := CallAll(cfg, Setup(cfg, ip, w).0, calls).objs;
      var verdict := Resolve(objs, cfg.routingMark, up);
      && verdict != MainTable
      && (NoRoutesIn(cfg.table, w.objs) ==>
            if up && HasDefaultRoute(cfg, objs)
            then exists o, gateway :: o in objs && o.spec == Target(cfg, gateway, DefaultRoute, 0)
                                      && verdict == Via(Some(gateway))
            else verdict == Dropped)
  {
    hide Setup, Target, HasKillSwitch, OnlyOurRoutes, Resolve, HasDefaultRoute, NoRoutesIn, Distinct;
    var w' := Setup(cfg, ip, w).0;
    SetupRoutes(cfg, ip, w);
    CallsKeep(cfg, w', calls);
    var objs := CallAll(cfg, w', calls).objs;
    VerdictNotMain(cfg, objs, up);
    if NoRoutesIn(cfg.table, w.objs) { VerdictExact(cfg, objs, up); }
  }

  /** The two names in the configuration have to agree: with another mark, and
      no routes in that other table, every marked packet leaves by the main
      table at all times. */
  lemma OpenWhenNamesDiffer(cfg: Config, ip: string, w: World, calls: seq<RouteCall>, up: bool)
    requires w.Valid() && Setup(cfg, ip, w).1.failed.None?
    requires cfg.routingMark != cfg.table && NoRoutesIn(cfg.routingMark, w.objs)
    ensures Resolve(CallAll(cfg, Setup(cfg, ip, w).0, calls).objs, cfg.routingMark, up) == MainTable
  {
    hide Setup, InTable, Distinct;
    SetupStaysOut(cfg, ip, w, cfg.routingMark);
    CallsStayOut(cfg, Setup(cfg, ip, w).0, calls, cfg.routingMark);
    var objs := CallAll(cfg, Setup(cfg, ip, w).0, calls).objs;
    forall o | o in objs ensures !Usable(o.spec, cfg.routingMark, up) {
    }
  }

  // --- The exact condition on the tag ---

  /** With a tag that spells only the kill switch's kind, the default route
      passes for it and it is never created. */
  lemma SwitchShadowed(cfg: Config, ip: string, w: World, o: Obj)
    requires w.Valid() && Setup(cfg, ip, w).1.failed.None? && Spells(cfg, KillSwitch)
    requires o in Setup(cfg, ip, w).0.objs && o !in w.objs
    ensures o.spec != Target(cfg, "", KillSwitch, 0)
  {
    hide Setup, RunSteps, Migrate, Target, Distinct, Spells;
    NotMigrated(cfg, ip, w, o);
    SwitchNotMade(cfg, ip, Migrate(cfg, w), o);
  }

  lemma NotMigrated(cfg: Config, ip: string, w: World, o: Obj)
    requires w.Valid() && Setup(cfg, ip, w).1.failed.None? && o in Setup(cfg, ip, w).0.objs && o !in w.objs
    ensures var w0 := Migrate(cfg, w);
      w0.Valid() && RunSteps(cfg, ip, STEPS, [], w0).1.failed.None?
      && o in RunSteps(cfg, ip, STEPS, [], w0).0.objs && o !in w0.objs
  {
    hide RunSteps, Sweep, Distinct, STEPS, SWEEP;
    SweepLeaves(cfg, Legacy, w);
  }

  lemma BeforeSwitch()
    ensures |STEPS| == 10 && DefaultRoute in STEPS[..5] && KillSwitch !in STEPS[..5]
  {
    StepsInOrder();
    assert STEPS[..5][4] == DefaultRoute;
    forall i | 0 <= i < 5 ensures STEPS[..5][i] != KillSwitch { assert STEPS[..5][i] == STEPS[i]; }
  }

  lemma SwitchNotMade(cfg: Config, ip: string, w: World, o: Obj)
    requires w.Valid() && RunSteps(cfg, ip, STEPS, [], w).1.failed.None? && Spells(cfg, KillSwitch)
    requires o in RunSteps(cfg, ip, STEPS, [], w).0.objs && o !in w.objs
    ensures o.spec != Target(cfg, "", KillSwitch, 0)
  {
    BeforeSwitch();
    assert AllSettled(cfg, [], w.objs);
    hide RunSteps, Target, Distinct, Settled, Spells, STEPS, IsTarget, Covered;
    PartOfRun(cfg, ip, STEPS, 5, w);
    var (v, before) := RunSteps(cfg, ip, STEPS[..5], [], w);
    assert Ran(before) == STEPS[..5];
    RunStepsSettle(cfg, ip, STEPS[..5], [], w);
    RunStepsAdd(cfg, ip, STEPS[..5], [], w);
    RouteCoversSwitch(cfg, v.objs);
    RunStepsAdd(cfg, ip, STEPS[5..], STEPS[..5], v);
    if o in v.objs {
      NoSwitchAmong(cfg, ip, STEPS[..5], w.objs, o.spec);
    } else {
      NoSwitchAmong(cfg, ip, Ran(RunSteps(cfg, ip, STEPS[5..], STEPS[..5], v).1), v.objs, o.spec);
    }
  }

  lemma RouteCoversSwitch(cfg: Config, objs: seq<Obj>)
    requires Settled(cfg, DefaultRoute, objs) && Spells(cfg, KillSwitch)
    ensures Covered(cfg, KillSwitch, 0, objs)
  {
    hide Covered, Spells;
    CoveredTogether(cfg, DefaultRoute, 0, KillSwitch, objs);
  }

  lemma NoSwitchAmong(cfg: Config, ip: string, kinds: seq<Kind>, objs: seq<Obj>, s: Spec)
    requires IsTarget(cfg, ip, kinds, objs, s) && (KillSwitch !in kinds || Covered(cfg, KillSwitch, 0, objs))
    ensures s != Target(cfg, "", KillSwitch, 0)
  {
    KillSwitchTarget(cfg, ip, true);
    hide Target, Covered;
    var k, i :| k in kinds && 0 <= i < Wanted(k) && s == Target(cfg, ip, k, i) && !Covered(cfg, k, i, objs);
    if k != KillSwitch { TargetsDiffer(cfg, ip, k, i, ip, KillSwitch, 0); }
  }

  lemma ReleaseClears(cfg: Config, w: World)
    requires w.Valid() && w.script == []
    ensures forall o :: o in ClearDefaultRoute(cfg, w).0.objs ==>
      o in w.objs && !(o.spec.path == Route && OfKind(cfg, o.spec, DefaultRoute))
  {
    hide OfKind, Keep, Distinct, SweepPath;
    SweepsPath(cfg, Unmanaged, Applied([DefaultRoute]), Route, w);
    forall o | o in w.objs && o.spec.path == Route && OfKind(cfg, o.spec, DefaultRoute)
      ensures Gone(cfg, Applied([DefaultRoute]), [Route], o)
    {
      assert DefaultRoute in [DefaultRoute];
    }
  }

  /** With any other tag one route call is enough to open the table. */
  lemma OneReleaseOpens(cfg: Config, ip: string, w: World, up: bool)
    requires !RouteTag(cfg) && w.Valid() && Setup(cfg, ip, w).1.failed.None? && NoRoutesIn(cfg.table, w.objs)
    ensures Resolve(CallAll(cfg, Setup(cfg, ip, w).0, [Release([])]).objs, cfg.table, up) == MainTable
  {
    hide Setup, Target, Settled, Distinct, OfKind, Spells, IsTarget, InTable, ClearDefaultRoute;
    var w' := Setup(cfg, ip, w).0;
    SetupSucceeds(cfg, ip, w);
    OneCall(cfg, w', Release([]));
    var v := w'.(script := []);
    ReleaseClears(cfg, v);
    var objs := ClearDefaultRoute(cfg, v).0.objs;
    forall o | o in objs ensures !Usable(o.spec, cfg.table, up) {
      if InTable(o.spec, cfg.table) {
        RouteIsCleared(cfg, ip, w, o);
      }
      if Usable(o.spec, cfg.table, up) { UsableIsInTable(o.spec, cfg.table, up); }
    }
  }

  lemma RouteIsCleared(cfg: Config, ip: string, w: World, o: Obj)
    requires !RouteTag(cfg) && w.Valid() && Setup(cfg, ip, w).1.failed.None? && NoRoutesIn(cfg.table, w.objs)
    requires o in Setup(cfg, ip, w).0.objs && InTable(o.spec, cfg.table)
    ensures o.spec.path == Route && OfKind(cfg, o.spec, DefaultRoute)
  {
    hide Setup, Target, Settled, Distinct, OfKind, Spells, IsTarget;
    SetupSucceeds(cfg, ip, w);
    RouteTargets(cfg, ip, o.spec);
    TargetKind(cfg, ip, DefaultRoute, 0, DefaultRoute);
    TargetKind(cfg, "", KillSwitch, 0, DefaultRoute);
    if !Spells(cfg, DefaultRoute) { SwitchShadowed(cfg, ip, w, o); }
  }

  lemma OneCall(cfg: Config, w: World, c: RouteCall)
    ensures CallAll(cfg, w, [c]) == Call(cfg, w, c)
  {
    hide Call;
    assert [c][..0] == [];
  }

  /** After a `setup` that reported success, from a store with no step-kind
      objects and no routes in the table of the mark, no sequence of route calls
      ever lets a marked packet out by the main table exactly when mark and table
      have the same name and the tag spells neither route's kind. */
  lemma FailsClosedExactly(cfg: Config, ip: string, w: World)
    requires w.Valid() && NoStepKind(cfg, w.objs) && NoRoutesIn(cfg.routingMark, w.objs)
    requires Setup(cfg, ip, w).1.failed.None?
    ensures (forall calls, up :: Resolve(CallAll(cfg, Setup(cfg, ip, w).0, calls).objs, cfg.routingMark, up) != MainTable)
       <==> cfg.routingMark == cfg.table && RouteTag(cfg)
  {
    hide Setup, Resolve, RouteTag, NoRoutesIn, NoStepKind, Distinct, HasDefaultRoute, Target, CallAll;
    if cfg.routingMark != cfg.table {
      OpenWhenNamesDiffer(cfg, ip, w, [], true);
    } else if RouteTag(cfg) {
      forall calls, up
        ensures Resolve(CallAll(cfg, Setup(cfg, ip, w).0, calls).objs, cfg.routingMark, up) != MainTable
      {
        FailsClosed(cfg, ip, w, calls, up);
      }
    } else {
      OneReleaseOpens(cfg, ip, w, true);
    }
  }

  // --- A container that moved ---

  lemma RouteUncovered(cfg: Config, w: World)
    requires w.Valid()
    ensures Covered(cfg, DefaultRoute, 0, Migrate(cfg, w).objs) <==> Covered(cfg, DefaultRoute, 0, w.objs)
  {
    hide Sweep, OfKind, IsOld, Distinct, SWEEP;
    SweepLeaves(cfg, Legacy, w);
    forall o | o in w.objs && Covers(cfg, DefaultRoute, 0, o.spec) ensures o in Migrate(cfg, w).objs {
      KindIsNotOld(cfg, o.spec, DefaultRoute);
    }
  }

  /** `setup` never compares gateways: after a successful run there is a default
      route to the container's address exactly if there was one before, or there
      was no default-route object at all. So a run after the address changed
      keeps an old route. */
  lemma RouteToContainerWhen(cfg: Config, ip: string, w: World)
    requires w.Valid() && Setup(cfg, ip, w).1.failed.None?
    ensures var t := Target(cfg, ip, DefaultRoute, 0);
      (exists o :: o in Setup(cfg, ip, w).0.objs && o.spec == t) <==>
        (exists o :: o in w.objs && o.spec == t) || !Covered(cfg, DefaultRoute, 0, w.objs)
  {
    hide RunSteps, Sweep, Target, Distinct, Keep, OfKind, IsOld, STEPS, SWEEP, IsTarget, NewOnly, Covered;
    var t := Target(cfg, ip, DefaultRoute, 0);
    var w0, w' := Migrate(cfg, w), Setup(cfg, ip, w).0;
    SweepsAll(cfg, Unmanaged, Legacy, w);
    SweepLeaves(cfg, Legacy, w);
    RunStepsGrow(cfg, ip, STEPS, [], w0);
    RunStepsAdd(cfg, ip, STEPS, [], w0);
    RouteUncovered(cfg, w);
    TargetOwned(cfg, ip, DefaultRoute, 0);
    if o :| o in w'.objs && o.spec == t && o !in w.objs {
      MadeUncovered(cfg, ip, Ran(RunSteps(cfg, ip, STEPS, [], w0).1), w0.objs, o.spec);
    }
    if !Covered(cfg, DefaultRoute, 0, w.objs) {
      var o := RouteIsMade(cfg, ip, w0);
    }
  }

  lemma MadeUncovered(cfg: Config, ip: string, kinds: seq<Kind>, objs: seq<Obj>, s: Spec)
    requires IsTarget(cfg, ip, kinds, objs, s) && s == Target(cfg, ip, DefaultRoute, 0)
    ensures !Covered(cfg, DefaultRoute, 0, objs)
  {
    hide Target, Covered;
    var k, i :| k in kinds && 0 <= i < Wanted(k) && s == Target(cfg, ip, k, i) && !Covered(cfg, k, i, objs);
    if k != DefaultRoute { TargetsDiffer(cfg, ip, k, i, ip, DefaultRoute, 0); }
  }

  lemma RouteIsMade(cfg: Config, ip: string, w: World) returns (o: Obj)
    requires w.Valid() && RunSteps(cfg, ip, STEPS, [], w).1.failed.None? && !Covered(cfg, DefaultRoute, 0, w.objs)
    ensures o in RunSteps(cfg, ip, STEPS, [], w).0.objs && o.spec == Target(cfg, ip, DefaultRoute, 0)
  {
    BeforeRoute();
    hide *;
    PartOfRun(cfg, ip, STEPS, 4, w);
    var v := RunSteps(cfg, ip, STEPS[..4], [], w).0;
    StillUncovered(cfg, ip, STEPS[..4], w);
    NextStep(cfg, ip, STEPS, 4, v);
    EngageMakes(cfg, ip, v);
    o := Obj(v.nextId, Target(cfg, ip, DefaultRoute, 0));
    GoesOn(cfg, ip, STEPS[5..], STEPS[..5], v, o);
  }

  lemma BeforeRoute()
    ensures |STEPS| == 10 && STEPS[4] == DefaultRoute && Wanted(DefaultRoute) == 1
    ensures forall k :: k in STEPS[..4] ==> PathOf(k) != Route
  {
    StepsInOrder();
    forall k | k in STEPS[..4] ensures PathOf(k) != Route {
      var i :| 0 <= i < 4 && STEPS[..4][i] == k;
      assert k == STEPS[i];
    }
  }

  lemma StillUncovered(cfg: Config, ip: string, steps: seq<Kind>, w: World)
    requires w.Valid() && !Covered(cfg, DefaultRoute, 0, w.objs) && forall k :: k in steps ==> PathOf(k) != Route
    ensures var v := RunSteps(cfg, ip, steps, [], w).0; v.Valid() && !Covered(cfg, DefaultRoute, 0, v.objs)
  {
    hide RunSteps, Covered, On, Distinct, Keep, NewOnly;
    RunStepsElsewhere(cfg, ip, steps, [], w, Route);
    RunStepsGrow(cfg, ip, steps, [], w);
    CoveredOnPath(cfg, DefaultRoute, 0, w.objs);
    CoveredOnPath(cfg, DefaultRoute, 0, RunSteps(cfg, ip, steps, [], w).0.objs);
  }

  /** What the default route's step made is there at the end. */
  lemma GoesOn(cfg: Config, ip: string, todo: seq<Kind>, done: seq<Kind>, v: World, o: Obj)
    requires v.Valid() && o in Ensure(cfg, ip, DefaultRoute, v).0.objs
    ensures o in RunSteps(cfg, ip, todo, done, Ensure(cfg, ip, DefaultRoute, v).0).0.objs
  {
    hide RunSteps, Distinct, Keep, NewOnly, Ensure;
    EnsureGrows(cfg, ip, DefaultRoute, v);
    RunStepsGrow(cfg, ip, todo, done, Ensure(cfg, ip, DefaultRoute, v).0);
  }

  lemma EngageMakes(cfg: Config, gateway: string, w: World)
    requires !Covered(cfg, DefaultRoute, 0, w.objs)
    ensures var (w', ok) := Ensure(cfg, gateway, DefaultRoute, w);
      ok ==> Obj(w.nextId, Target(cfg, gateway, DefaultRoute, 0)) in w'.objs
  {
    hide Target, Covers;
    CoveredOnPath(cfg, DefaultRoute, 0, w.objs);
    var listing := On(w.objs, Route);
    assert CreateMissing(
      cfg, gateway, DefaultRoute, 1, listing, CreateCall(w.Later(), Target(cfg, gateway, DefaultRoute, 0)).0).1;
  }
}
