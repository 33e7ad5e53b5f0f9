/** In what order objects that refer to one another come and go: a sweep takes
    the referring ones first, a build makes the table first
    (apps/snx-edge-server/src/routeros/provisioner.rs). */
module Ordering {
  import opened Text
  import opened Router
  import opened PolicyRouting
  import opened Sweeping
  import opened Building
  import opened Settling
  import opened Scripting

  /** Objects under `p` name ones under `q`: mangle rules and routes a table,
      firewall rules address lists. */
  predicate RefersTo(p: Path, q: Path) {
    || ((p == Mangle || p == Route) && q == Table)
    || ((p == Filter || p == Nat || p == Mangle) && q == AddressList)
  }

  lemma PathSpares(cfg: Config, sel: Selector, p: Path, w: World, o: Obj)
    requires o in w.objs && o !in SweepPath(cfg, sel, p, w).0.objs
    ensures o.spec.path == p
  {
    assert o in On(w.objs, o.spec.path);
    if o.spec.path != p { DeletesElsewhere(cfg, sel, On(w.objs, p), w.Later(), o.spec.path); }
  }

  /** If a swept object is gone, everything selected under the paths before its
      own is gone. */
  lemma {:induction false} EarlierPathsDone(
    cfg: Config, sel: Selector, paths: seq<Path>, w: World, o: Obj, d: Obj, i: nat, j: nat)
    requires w.Valid() && i < j < |paths| && paths[j] == o.spec.path && paths[i] == d.spec.path
    requires forall m :: 0 <= m < j ==> paths[m] != o.spec.path
    requires o in w.objs && o !in Sweep(cfg, sel, paths, w).0.objs && Selects(cfg, sel, d.spec)
    ensures d !in Sweep(cfg, sel, paths, w).0.objs
  {
    hide Selects, Keep, SweepPath, Distinct;
    var (w1, n) := SweepPath(cfg, sel, paths[0], w);
    SweepsPath(cfg, Unmanaged, sel, paths[0], w);
    if o !in w1.objs { PathSpares(cfg, sel, paths[0], w, o); }
    if n.Some? {
      Sweeps(cfg, Unmanaged, sel, paths[1..], w1);
      if i > 0 { EarlierPathsDone(cfg, sel, paths[1..], w1, o, d, i - 1, j - 1); }
    }
  }

  lemma SwepInOrder(p: Path, q: Path) returns (i: nat, j: nat)
    requires RefersTo(p, q)
    ensures i < j < |SWEEP| && SWEEP[i] == p && SWEEP[j] == q && forall m :: 0 <= m < j ==> SWEEP[m] != q
  {
    assert SWEEP[0] == Filter && SWEEP[1] == Nat && SWEEP[2] == Mangle && SWEEP[3] == Route;
    assert SWEEP[4] == AddressList && SWEEP[5] == Table && |SWEEP| == 6;
    i := if p == Filter then 0 else if p == Nat then 1 else if p == Mangle then 2 else 3;
    j := if q == AddressList then 4 else 5;
  }

  /** Dependents first. Wherever a sweep stops, if it has removed an object, none
      of those it was to remove and that may refer to it is left: a rollback or
      teardown cut short leaves no rule of ours without its table or list. */
  lemma NothingDangles(cfg: Config, sel: Selector, w: World, o: Obj, d: Obj)
    requires w.Valid() && o in w.objs && Selects(cfg, sel, d.spec)
    requires var w' := Sweep(cfg, sel, SWEEP, w).0; o !in w'.objs && d in w'.objs
    ensures !RefersTo(d.spec.path, o.spec.path)
  {
    if RefersTo(d.spec.path, o.spec.path) {
      var i, j := SwepInOrder(d.spec.path, o.spec.path);
      hide *;
      EarlierPathsDone(cfg, sel, SWEEP, w, o, d, i, j);
      assert false;
    }
  }

  lemma OnlyTheFirst(report: Report)
    requires report.applied == [] && report.failed == Some(RoutingTable)
    ensures forall k :: k in Ran(report) ==> k == RoutingTable
  {
  }

  /** The table first. However far a run of the steps gets, whatever it has
      created under another path, the table is there. */
  lemma TableFirst(cfg: Config, ip: string, w: World, o: Obj)
    requires w.Valid()
    requires var w' := RunSteps(cfg, ip, STEPS, [], w).0; o in w'.objs && o !in w.objs && o.spec.path != Table
    ensures exists t :: t in RunSteps(cfg, ip, STEPS, [], w).0.objs
                        && t.spec.path == Table && t.spec.Attr("name") == Some(cfg.table)
  {
    StepsInOrder();
    hide RunSteps, STEPS, Target, Distinct, Keep, NewOnly, OfKind, Settled;
    var (w', report) := RunSteps(cfg, ip, STEPS, [], w);
    RunStepsAdd(cfg, ip, STEPS, [], w);
    RunStepsSettle(cfg, ip, STEPS, [], w);
    StopsAt(cfg, ip, w);
    var k, i :| k in Ran(report) && 0 <= i < Wanted(k) && o.spec == Target(cfg, ip, k, i);
    TargetOwned(cfg, ip, k, i);
    if report.applied == [] { OnlyTheFirst(report); }
    assert report.applied[0] == RoutingTable;
    TableIsSettled(cfg, w'.objs);
  }

  lemma TableIsSettled(cfg: Config, objs: seq<Obj>)
    requires Settled(cfg, RoutingTable, objs)
    ensures exists t :: t in objs && t.spec.path == Table && t.spec.Attr("name") == Some(cfg.table)
  {
    assert Covered(cfg, RoutingTable, 0, objs);
  }
}
