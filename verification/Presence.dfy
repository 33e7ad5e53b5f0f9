/** What `presence_snapshot` reports after a good `setup`, for every tag
    (apps/snx-edge-server/src/routeros/provisioner.rs). */
module Presence {
  import opened Text
  import opened Router
  import opened PolicyRouting
  import opened Sweeping
  import opened Building
  import opened Settling

  /** The end of a run without failures: every step is settled, nothing is
      legacy, and what is new is a target the operator does not cover. */
  lemma GoodSetup(cfg: Config, ip: string, w: World)
    requires w.Valid() && w.script == []
    ensures var objs := Setup(cfg, ip, w).0.objs;
      && AllSettled(cfg, STEPS, objs) && NoLegacy(cfg, objs)
      && (forall o :: o in objs && o !in w.objs ==> IsTarget(cfg, ip, STEPS, Keep(cfg, Foreign, w.objs), o.spec))
  {
    hide RunSteps, Sweep, Keep, Distinct, NewOnly, IsOld, IsTarget, AllSettled, Selects, STEPS;
    var w0 := Migrate(cfg, w);
    var (w1, report) := RunSteps(cfg, ip, STEPS, [], w0);
    SweepsAll(cfg, Foreign, Legacy, w);
    RunStepsGrow(cfg, ip, STEPS, [], w0);
    StopsAt(cfg, ip, w0);
    NoneDone(cfg, w0.objs);
    RunStepsSettle(cfg, ip, STEPS, [], w0);
    RunStepsAdd(cfg, ip, STEPS, [], w0);
    StartsClean(cfg, w0.objs);
    StepsAddNoLegacy(cfg, ip, w0);
    assert Ran(report) == STEPS;
    forall o | o in w1.objs && o !in w.objs
      ensures IsTarget(cfg, ip, STEPS, Keep(cfg, Foreign, w.objs), o.spec)
    {
      forall x | x in Keep(cfg, Foreign, w.objs) ensures x in w0.objs { KeepHas(cfg, Foreign, w0.objs, x); }
      StillTarget(cfg, ip, STEPS, Keep(cfg, Foreign, w.objs), STEPS, w0.objs, o.spec);
    }
  }

  lemma NoneDone(cfg: Config, objs: seq<Obj>)
    ensures AllSettled(cfg, [], objs)
  {
  }

  lemma StartsClean(cfg: Config, objs: seq<Obj>)
    requires forall o :: o in objs ==> !Selects(cfg, Legacy, o.spec)
    ensures NoLegacy(cfg, objs)
  {
    hide IsOld;
  }

  /** The path of a kind tells it from every other where the check is by
      attribute. */
  lemma AloneOnPath(k: Kind, j: Kind)
    requires (k == RoutingTable || k == Rfc1918) && PathOf(j) == PathOf(k)
    ensures j == k
  {
  }

  lemma TargetShows(cfg: Config, ip: string, k: Kind, i: nat)
    requires i < Wanted(k)
    ensures Shows(cfg, k, Target(cfg, ip, k, i))
  {
    TargetOwned(cfg, ip, k, i);
    TargetAttrs(cfg, ip, k, i);
    hide Target, OfKind;
  }

  lemma PresentByKind(cfg: Config, objs: seq<Obj>, k: Kind)
    requires k != RoutingTable && k != Rfc1918 && Settled(cfg, k, objs)
    ensures Present(cfg, k, objs)
  {
    hide OfKind;
    assert Covered(cfg, k, 0, objs);
  }

  /** A table or a private range shows exactly if the operator left one of its
      targets to be created. */
  lemma PresentByAttribute(cfg: Config, ip: string, w: World, objs: seq<Obj>, k: Kind)
    requires (k == RoutingTable || k == Rfc1918) && NoStepKind(cfg, w.objs) && NoLegacy(cfg, objs) && Settled(cfg, k, objs)
    requires forall o :: o in objs && o !in w.objs ==> IsTarget(cfg, ip, STEPS, Keep(cfg, Foreign, w.objs), o.spec)
    ensures Present(cfg, k, objs) <==> exists i :: 0 <= i < Wanted(k) && !Covered(cfg, k, i, Keep(cfg, Foreign, w.objs))
  {
    hide Target, OfKind, IsOld, Keep, Covers;
    var foreign := Keep(cfg, Foreign, w.objs);
    if Present(cfg, k, objs) {
      var o :| o in objs && Shows(cfg, k, o.spec);
      assert OfStepKind(cfg, o.spec);
      var _ := NewOnItsPath(cfg, ip, foreign, k, o.spec);
    }
    if i :| 0 <= i < Wanted(k) && !Covered(cfg, k, i, foreign) {
      assert Covered(cfg, k, i, objs);
      var o :| o in objs && Covers(cfg, k, i, o.spec);
      KeepHas(cfg, Foreign, w.objs, o);
      assert o !in w.objs;
      CoversOnPath(cfg, k, i, o.spec);
      var m := NewOnItsPath(cfg, ip, foreign, k, o.spec);
      TargetShows(cfg, ip, k, m);
    }
  }

  lemma CoversOnPath(cfg: Config, k: Kind, i: nat, s: Spec)
    requires Covers(cfg, k, i, s)
    ensures s.path == PathOf(k)
  {
  }

  lemma NewOnItsPath(cfg: Config, ip: string, foreign: seq<Obj>, k: Kind, s: Spec) returns (m: nat)
    requires IsTarget(cfg, ip, STEPS, foreign, s) && s.path == PathOf(k) && (k == RoutingTable || k == Rfc1918)
    ensures m < Wanted(k) && s == Target(cfg, ip, k, m) && !Covered(cfg, k, m, foreign)
  {
    hide Target, Covered;
    var j, i :| j in STEPS && 0 <= i < Wanted(j) && s == Target(cfg, ip, j, i) && !Covered(cfg, j, i, foreign);
    TargetOwned(cfg, ip, j, i);
    AloneOnPath(k, j);
    m := i;
  }

  /** After a run without failures from a store with no step-kind objects, the
      status reads "configured" exactly when the operator has no table of that
      name and has not listed all three private ranges. */
  lemma ConfiguredWhen(cfg: Config, ip: string, w: World)
    requires w.Valid() && w.script == [] && NoStepKind(cfg, w.objs)
    ensures var foreign := Keep(cfg, Foreign, w.objs);
      LayoutState(cfg, Setup(cfg, ip, w).0.objs) == Configured <==>
        && !Covered(cfg, RoutingTable, 0, foreign)
        && exists i :: 0 <= i < 3 && !Covered(cfg, Rfc1918, i, foreign)
  {
    hide Setup, Keep, Covered, Present, LayoutState, Distinct, IsTarget, Settled, NoStepKind, NoLegacy;
    var foreign, objs := Keep(cfg, Foreign, w.objs), Setup(cfg, ip, w).0.objs;
    GoodSetup(cfg, ip, w);
    LayoutReads(cfg, objs);
    forall k: Kind
      ensures Settled(cfg, k, objs)
      ensures k != RoutingTable && k != Rfc1918 ==> Present(cfg, k, objs)
    {
      EveryKindStepped(k);
      if k != RoutingTable && k != Rfc1918 { PresentByKind(cfg, objs, k); }
    }
    PresentByAttribute(cfg, ip, w, objs, RoutingTable);
    PresentByAttribute(cfg, ip, w, objs, Rfc1918);
    assert Wanted(RoutingTable) == 1 && Wanted(Rfc1918) == 3;
  }
}
