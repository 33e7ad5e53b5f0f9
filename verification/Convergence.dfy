/** Re-running `setup` after any history of failures. */
module Convergence {
  import opened Text
  import opened Comments
  import opened Router
  import opened PolicyRouting
  import opened Sweeping
  import opened Building
  import opened Settling

  /** With such a tag the step finds what an earlier step made, and never
      creates anything. */
  predicate Shadowed(cfg: Config, k: Kind) {
    (k == RoutingMark || k == MssClamp || k == KillSwitch || k == Fasttrack) && Spells(cfg, k)
  }

  /** The earlier step a shadowed one is covered by. */
  function Leader(k: Kind): Kind {
    match k
    case RoutingMark | MssClamp => ConnMark
    case KillSwitch => DefaultRoute
    case Fasttrack => DotBlock
    case _ => k
  }

  /** The tag may spell the kind of the first step of a path only with those of
      all later steps there. */
  predicate Harmless(cfg: Config) {
    && (Spells(cfg, ConnMark) ==> Spells(cfg, RoutingMark) && Spells(cfg, MssClamp))
    && (Spells(cfg, DefaultRoute) ==> Spells(cfg, KillSwitch))
  }

  /** A target of a step that is not shadowed, and that the operator's own
      objects do not already cover. */
  ghost predicate Missing(cfg: Config, ip: string, foreign: seq<Obj>, s: Spec) {
    exists k, i :: 0 <= i < Wanted(k) && s == Target(cfg, ip, k, i)
                   && !Shadowed(cfg, k) && !Covered(cfg, k, i, foreign)
  }

  /** Every step-kind object is a missing target, and none is there twice. */
  ghost predicate Consistent(cfg: Config, ip: string, objs: seq<Obj>) {
    forall s: Spec :: OfStepKind(cfg, s) ==>
      Bag(objs)[s] <= if Missing(cfg, ip, Keep(cfg, Foreign, objs), s) then 1 else 0
  }

  lemma FreshIsConsistent(cfg: Config, ip: string, objs: seq<Obj>)
    requires NoStepKind(cfg, objs)
    ensures Consistent(cfg, ip, objs)
  {
    forall s: Spec | OfStepKind(cfg, s) ensures Bag(objs)[s] == 0 { BagHas(objs, s); }
  }

  lemma ShrinkConsistent(cfg: Config, ip: string, w: World, w': World)
    requires Consistent(cfg, ip, w.objs) && Shrinks(cfg, Foreign, w, w')
    ensures Consistent(cfg, ip, w'.objs)
  {
    forall s: Spec | OfStepKind(cfg, s) ensures Bag(w'.objs)[s] <= Bag(w.objs)[s] {
    }
  }

  lemma UncoveredIsMissing(cfg: Config, ip: string, k: Kind, i: nat, objs: seq<Obj>)
    requires i < Wanted(k) && !Covered(cfg, k, i, objs) && !Shadowed(cfg, k)
    ensures Missing(cfg, ip, Keep(cfg, Foreign, objs), Target(cfg, ip, k, i))
    ensures Bag(objs)[Target(cfg, ip, k, i)] == 0
  {
    hide Target, Covers, Shadowed;
    UncoveredIsNotThere(cfg, ip, k, i, objs);
    forall x | x in Keep(cfg, Foreign, objs) ensures x in objs { KeepHas(cfg, Foreign, objs, x); }
    assert !Covered(cfg, k, i, Keep(cfg, Foreign, objs));
  }

  lemma CreateConsistent(cfg: Config, ip: string, k: Kind, i: nat, w: World)
    requires i < Wanted(k) && !Shadowed(cfg, k)
    requires Consistent(cfg, ip, w.objs) && !Covered(cfg, k, i, w.objs)
    ensures Consistent(cfg, ip, CreateCall(w, Target(cfg, ip, k, i)).0.objs)
  {
    hide Consistent, Covered, Target, Bag, Missing;
    var t := Target(cfg, ip, k, i);
    UncoveredIsMissing(cfg, ip, k, i, w.objs);
    TargetOwned(cfg, ip, k, i);
    AddMissing(cfg, ip, w.objs, Obj(w.nextId, t));
  }

  lemma AddMissing(cfg: Config, ip: string, objs: seq<Obj>, o: Obj)
    requires Consistent(cfg, ip, objs) && !Guards(cfg, Foreign, o.spec)
    requires Missing(cfg, ip, Keep(cfg, Foreign, objs), o.spec) && Bag(objs)[o.spec] == 0
    ensures Consistent(cfg, ip, objs + [o])
  {
    KeepAppend(cfg, Foreign, objs, o);
    assert Keep(cfg, Foreign, objs + [o]) == Keep(cfg, Foreign, objs);
    BagAppend(objs, o);
  }

  lemma {:induction false} CreateMissingConsistent(
      cfg: Config, ip: string, k: Kind, i: nat, listing: seq<Obj>, w: World)
    requires i <= Wanted(k) && Consistent(cfg, ip, w.objs) && !Shadowed(cfg, k)
    requires ListingCurrent(cfg, k, i, listing, w.objs)
    ensures Consistent(cfg, ip, CreateMissing(cfg, ip, k, i, listing, w).0.objs)
    decreases Wanted(k) - i
  {
    hide Target, Covered, CreateCall, Consistent, Shadowed;
    if i == Wanted(k) {
    } else if Covered(cfg, k, i, listing) {
      CreateMissingConsistent(cfg, ip, k, i + 1, listing, w);
    } else {
      var (w1, ok) := CreateCall(w, Target(cfg, ip, k, i));
      CreateConsistent(cfg, ip, k, i, w);
      CreateKeepsListing(cfg, ip, k, i, listing, w);
      if ok { CreateMissingConsistent(cfg, ip, k, i + 1, listing, w1); }
    }
  }

  /** A shadowed step's leader comes earlier. */
  lemma LeaderIsEarlier(cfg: Config, n: nat)
    requires n < |STEPS| && Shadowed(cfg, STEPS[n])
    ensures Leader(STEPS[n]) in STEPS[..n]
  {
    hide Spells;
    StepsInOrder();
    InPrefix(STEPS, if n == 5 then 4 else if n == 8 then 7 else 1, n);
  }

  lemma InPrefix<T>(s: seq<T>, m: nat, n: nat)
    requires m < n <= |s|
    ensures s[m] in s[..n]
  {
    assert s[..n][m] == s[m];
  }

  lemma LeaderCovers(cfg: Config, k: Kind, objs: seq<Obj>)
    requires Shadowed(cfg, k) && Settled(cfg, Leader(k), objs)
    ensures Settled(cfg, k, objs)
  {
    hide Covers, Spells;
    assert Covered(cfg, Leader(k), 0, objs);
    CoveredTogether(cfg, Leader(k), 0, k, objs);
  }

  lemma EnsureConsistent(cfg: Config, ip: string, done: seq<Kind>, k: Kind, w: World)
    requires w.Valid() && Consistent(cfg, ip, w.objs) && AllSettled(cfg, done, w.objs)
    requires Shadowed(cfg, k) ==> Leader(k) in done
    ensures Consistent(cfg, ip, Ensure(cfg, ip, k, w).0.objs)
  {
    hide Consistent, Covered, Settled, Shadowed, CreateMissing, ListingCurrent;
    if Shadowed(cfg, k) {
      LeaderCovers(cfg, k, w.objs);
      EnsureNothing(cfg, ip, k, w);
    } else {
      FreshListing(cfg, k, w.objs);
      CreateMissingConsistent(cfg, ip, k, 0, On(w.objs, PathOf(k)), w.Later());
    }
  }

  ghost predicate LeadersFirst(cfg: Config, steps: seq<Kind>) {
    forall n :: 0 <= n < |steps| && Shadowed(cfg, steps[n]) ==> Leader(steps[n]) in steps[..n]
  }

  lemma {:induction false} RunStepsConsistent(cfg: Config, ip: string, steps: seq<Kind>, n: nat, w: World)
    requires LeadersFirst(cfg, steps) && n <= |steps|
    requires w.Valid() && Consistent(cfg, ip, w.objs) && AllSettled(cfg, steps[..n], w.objs)
    ensures Consistent(cfg, ip, RunSteps(cfg, ip, steps[n..], steps[..n], w).0.objs)
    decreases |steps| - n
  {
    if n == |steps| {
    } else {
      hide RunSteps, Ensure, Consistent, AllSettled, LeadersFirst, Distinct;
      NextStep(cfg, ip, steps, n, w);
      OneStepConsistent(cfg, ip, steps, n, w);
      var (w1, ok) := Ensure(cfg, ip, steps[n], w);
      if ok { RunStepsConsistent(cfg, ip, steps, n + 1, w1); }
    }
  }

  lemma OneStepConsistent(cfg: Config, ip: string, steps: seq<Kind>, n: nat, w: World)
    requires LeadersFirst(cfg, steps) && n < |steps|
    requires w.Valid() && Consistent(cfg, ip, w.objs) && AllSettled(cfg, steps[..n], w.objs)
    ensures var (w1, ok) := Ensure(cfg, ip, steps[n], w);
      w1.Valid() && Consistent(cfg, ip, w1.objs) && (ok ==> AllSettled(cfg, steps[..n + 1], w1.objs))
  {
    hide Ensure, Consistent, AllSettled, Settled, Shadowed, Leader, Distinct;
    var k := steps[n];
    assert Shadowed(cfg, k) ==> Leader(k) in steps[..n];
    EnsureConsistent(cfg, ip, steps[..n], k, w);
    EnsureGrowsOn(cfg, ip, k, w);
    EnsureSettles(cfg, ip, k, w);
    var (w1, ok) := Ensure(cfg, ip, k, w);
    if ok {
      AllSettledMore(cfg, steps[..n], w.objs, w1.objs);
      OneMoreSettled(cfg, steps, n, w1.objs);
    }
  }

  lemma OneMoreSettled(cfg: Config, steps: seq<Kind>, n: nat, objs: seq<Obj>)
    requires n < |steps| && AllSettled(cfg, steps[..n], objs) && Settled(cfg, steps[n], objs)
    ensures AllSettled(cfg, steps[..n + 1], objs)
  {
    hide Settled;
    assert steps[..n + 1] == steps[..n] + [steps[n]];
  }

  lemma EnsureGrowsOn(cfg: Config, ip: string, k: Kind, w: World)
    requires w.Valid()
    ensures var w' := Ensure(cfg, ip, k, w).0; w'.Valid() && forall o :: o in w.objs ==> o in w'.objs
  {
    hide Ensure, Keep, Distinct, NewOnly;
    EnsureGrows(cfg, ip, k, w);
  }

  lemma StepsConsistent(cfg: Config, ip: string, w: World)
    requires w.Valid() && Consistent(cfg, ip, w.objs)
    ensures var (w', report) := RunSteps(cfg, ip, STEPS, [], w);
      && Consistent(cfg, ip, w'.objs)
      && (report.failed.None? ==> AllSettled(cfg, STEPS, w'.objs))
  {
    assert STEPS[0..] == STEPS && STEPS[..0] == [];
    forall n | 0 <= n < |STEPS| && Shadowed(cfg, STEPS[n]) ensures Leader(STEPS[n]) in STEPS[..n] {
      LeaderIsEarlier(cfg, n);
    }
    hide STEPS, Consistent, RunSteps;
    RunStepsConsistent(cfg, ip, STEPS, 0, w);
    RunStepsSettle(cfg, ip, STEPS, [], w);
    RunStepsOrder(cfg, ip, STEPS, [], w);
  }

  /** Whatever fails in a run, a consistent store stays consistent. */
  lemma SetupConsistent(cfg: Config, ip: string, w: World)
    requires w.Valid() && Consistent(cfg, ip, w.objs)
    ensures Consistent(cfg, ip, Setup(cfg, ip, w).0.objs)
  {
    hide RunSteps, Sweep, Consistent, Keep, Distinct, NewOnly;
    var w0 := Migrate(cfg, w);
    var (w1, report) := RunSteps(cfg, ip, STEPS, [], w0);
    SweepsAll(cfg, Foreign, Legacy, w);
    ShrinkConsistent(cfg, ip, w, w0);
    StepsConsistent(cfg, ip, w0);
    RunStepsGrow(cfg, ip, STEPS, [], w0);
    if report.failed.Some? {
      var w2 := Sweep(cfg, Applied(report.applied), SWEEP, w1).0;
      SweepsAll(cfg, Foreign, Applied(report.applied), w1);
      ShrinkConsistent(cfg, ip, w1, w2);
    }
  }

  // --- Runs ---

  /** One run of `setup` with its own failures. */
  function Run(cfg: Config, ip: string, w: World, script: seq<Fault>): World {
    Setup(cfg, ip, w.(script := script)).0
  }

  function Runs(cfg: Config, ip: string, w: World, scripts: seq<seq<Fault>>): World {
    if scripts == [] then w else Run(cfg, ip, Runs(cfg, ip, w, scripts[..|scripts| - 1]), scripts[|scripts| - 1])
  }

  /** The end of a run in which nothing fails. */
  ghost predicate Complete(cfg: Config, ip: string, objs: seq<Obj>) {
    Consistent(cfg, ip, objs) && NoLegacy(cfg, objs) && AllSettled(cfg, STEPS, objs)
  }

  lemma GoodRun(cfg: Config, ip: string, w: World)
    requires w.Valid() && w.script == [] && Consistent(cfg, ip, w.objs)
    ensures var (w', report, _) := Setup(cfg, ip, w);
      && report == Report(STEPS, None)
      && Complete(cfg, ip, w'.objs)
      && (Complete(cfg, ip, w.objs) ==> w'.objs == w.objs)
  {
    hide RunSteps, Sweep, Consistent, Keep, Distinct, NewOnly, AllSettled;
    var w0 := Migrate(cfg, w);
    SweepsAll(cfg, Foreign, Legacy, w);
    ShrinkConsistent(cfg, ip, w, w0);
    StepsConsistent(cfg, ip, w0);
    RunStepsGrow(cfg, ip, STEPS, [], w0);
    RunStepsOrder(cfg, ip, STEPS, [], w0);
    assert [] + STEPS == STEPS;
    StepsAddNoLegacy(cfg, ip, w0);
    if Complete(cfg, ip, w.objs) {
      SweepNothing(cfg, Legacy, w);
      RunStepsNothing(cfg, ip, STEPS, [], w0);
    }
  }

  lemma {:induction false} RunsKeep(cfg: Config, ip: string, w: World, scripts: seq<seq<Fault>>)
    requires w.Valid() && Consistent(cfg, ip, w.objs)
    ensures var w' := Runs(cfg, ip, w, scripts);
      && w'.Valid() && Consistent(cfg, ip, w'.objs)
      && Keep(cfg, Foreign, w'.objs) == Keep(cfg, Foreign, w.objs)
  {
    if scripts == [] {
    } else {
      var n := |scripts| - 1;
      var w1 := Runs(cfg, ip, w, scripts[..n]);
      RunsKeep(cfg, ip, w, scripts[..n]);
      SetupSparesOperatorData(cfg, ip, w1.(script := scripts[n]));
      SetupConsistent(cfg, ip, w1.(script := scripts[n]));
    }
  }

  /** Two targets that steps really create, under a harmless tag, do not cover
      one another. */
  lemma CoversItself(cfg: Config, ip: string, k: Kind, i: nat, j: Kind, m: nat)
    requires Harmless(cfg) && !Shadowed(cfg, k) && !Shadowed(cfg, j) && i < Wanted(k) && m < Wanted(j)
    requires Covers(cfg, k, i, Target(cfg, ip, j, m))
    ensures j == k && m == i
  {
    hide Covers, Target, Spells;
    TargetCovers(cfg, ip, j, m, k, i);
  }

  /** In a consistent store, what covers a missing target is that target. */
  lemma CoveringObject(cfg: Config, ip: string, objs: seq<Obj>, k: Kind, i: nat, o: Obj)
    requires Harmless(cfg) && Consistent(cfg, ip, objs) && NoLegacy(cfg, objs)
    requires i < Wanted(k) && !Shadowed(cfg, k) && !Covered(cfg, k, i, Keep(cfg, Foreign, objs))
    requires o in objs && Covers(cfg, k, i, o.spec)
    ensures o.spec == Target(cfg, ip, k, i)
  {
    hide Covers, Target, Keep, Bag, Harmless, Shadowed, OfKind, IsOld;
    var foreign := Keep(cfg, Foreign, objs);
    KeepHas(cfg, Foreign, objs, o);
    assert !Guards(cfg, Foreign, o.spec) && OfStepKind(cfg, o.spec);
    BagHas(objs, o.spec);
    assert Missing(cfg, ip, foreign, o.spec);
    var j, m :| 0 <= m < Wanted(j) && o.spec == Target(cfg, ip, j, m)
      && !Shadowed(cfg, j) && !Covered(cfg, j, m, foreign);
    CoversItself(cfg, ip, k, i, j, m);
  }

  lemma SettledIsThere(cfg: Config, ip: string, objs: seq<Obj>, k: Kind, i: nat)
    requires Harmless(cfg) && Consistent(cfg, ip, objs) && NoLegacy(cfg, objs) && Settled(cfg, k, objs)
    requires i < Wanted(k) && !Shadowed(cfg, k) && !Covered(cfg, k, i, Keep(cfg, Foreign, objs))
    ensures exists o :: o in objs && o.spec == Target(cfg, ip, k, i)
  {
    hide Covers, Target, Keep, Consistent, Harmless, Shadowed;
    assert Covered(cfg, k, i, objs);
    var o :| o in objs && Covers(cfg, k, i, o.spec);
    CoveringObject(cfg, ip, objs, k, i, o);
  }

  lemma CompleteSettled(cfg: Config, ip: string, objs: seq<Obj>, k: Kind)
    requires Complete(cfg, ip, objs)
    ensures Settled(cfg, k, objs)
  {
    EveryKindStepped(k);
  }

  lemma MissingIsThere(cfg: Config, ip: string, objs: seq<Obj>, s: Spec)
    requires Harmless(cfg) && Complete(cfg, ip, objs)
    requires Missing(cfg, ip, Keep(cfg, Foreign, objs), s)
    ensures s in Bag(objs)
  {
    var foreign := Keep(cfg, Foreign, objs);
    var k, i :| 0 <= i < Wanted(k) && s == Target(cfg, ip, k, i)
      && !Shadowed(cfg, k) && !Covered(cfg, k, i, foreign);
    CompleteSettled(cfg, ip, objs, k);
    SettledIsThere(cfg, ip, objs, k, i);
    BagHas(objs, s);
  }

  /** A complete store is the operator's objects plus each missing target once. */
  lemma CompleteBag(cfg: Config, ip: string, objs: seq<Obj>, s: Spec)
    requires Harmless(cfg) && Complete(cfg, ip, objs)
    ensures var foreign := Keep(cfg, Foreign, objs);
      Bag(objs)[s] ==
        if OfStepKind(cfg, s) then if Missing(cfg, ip, foreign, s) then 1 else 0 else Bag(foreign)[s]
  {
    if OfStepKind(cfg, s) {
      if Missing(cfg, ip, Keep(cfg, Foreign, objs), s) { MissingIsThere(cfg, ip, objs, s); }
    } else {
      KeepBag(cfg, objs, s);
      if IsOld(cfg, s) && s in Bag(objs) { BagHas(objs, s); }
    }
  }

  lemma {:induction false} KeepBag(cfg: Config, objs: seq<Obj>, s: Spec)
    ensures Bag(Keep(cfg, Foreign, objs))[s] == if Guards(cfg, Foreign, s) then Bag(objs)[s] else 0
  {
    hide Guards;
    if objs == [] {
    } else {
      var n := |objs| - 1;
      KeepBag(cfg, objs[..n], s);
      if Guards(cfg, Foreign, objs[n].spec) {
        BagAppend(Keep(cfg, Foreign, objs[..n]), objs[n]);
      } else {
        assert Keep(cfg, Foreign, objs) == Keep(cfg, Foreign, objs[..n]);
      }
    }
  }

  /** Convergence. From a store with no step-kind objects, after any number of
      runs with any failures, one run without failures ends in the same bag of
      objects, ids aside, as if it had been the only one; and running again
      changes nothing at all. */
  lemma Converges(cfg: Config, ip: string, w: World, scripts: seq<seq<Fault>>)
    requires Harmless(cfg) && w.Valid() && NoStepKind(cfg, w.objs)
    ensures var last := Run(cfg, ip, Runs(cfg, ip, w, scripts), []);
      && Bag(last.objs) == Bag(Run(cfg, ip, w, []).objs)
      && Run(cfg, ip, last, []).objs == last.objs
  {
    var before := Runs(cfg, ip, w, scripts).(script := []);
    var start := w.(script := []);
    var last, once := Setup(cfg, ip, before).0, Setup(cfg, ip, start).0;
    FreshIsConsistent(cfg, ip, w.objs);
    RunsKeep(cfg, ip, w, scripts);
    GoodRun(cfg, ip, before);
    GoodRun(cfg, ip, start);
    SetupSparesOperatorData(cfg, ip, before);
    SetupSparesOperatorData(cfg, ip, start);
    SameCompleteBag(cfg, ip, last.objs, once.objs);
    GoodRun(cfg, ip, last.(script := []));
  }

  lemma SameCompleteBag(cfg: Config, ip: string, a: seq<Obj>, b: seq<Obj>)
    requires Harmless(cfg) && Complete(cfg, ip, a) && Complete(cfg, ip, b)
    requires Keep(cfg, Foreign, a) == Keep(cfg, Foreign, b)
    ensures Bag(a) == Bag(b)
  {
    forall s: Spec ensures Bag(a)[s] == Bag(b)[s] {
      CompleteBag(cfg, ip, a, s);
      CompleteBag(cfg, ip, b, s);
    }
  }
}
