/** What of a failed `setup` outlives its rollback: exactly what the failing step
    created, and so exactly which targets some failure leaves behind
    (apps/snx-edge-server/src/routeros/provisioner.rs). */
module Leftovers {
  import opened Text
  import opened Comments
  import opened Router
  import opened PolicyRouting
  import opened Sweeping
  import opened Building
  import opened Settling
  import opened Scripting
  import opened Convergence
  import opened Rollback

  // --- The failing step ---

  /** A failed run got through the steps before the one that failed. */
  lemma SplitAtFailure(cfg: Config, ip: string, steps: seq<Kind>, w: World)
    requires RunSteps(cfg, ip, steps, [], w).1.failed.Some?
    ensures var (w', report) := RunSteps(cfg, ip, steps, [], w);
      var n := |report.applied|;
      && n < |steps| && report == Report(steps[..n], Some(steps[n]))
      && var (v, before) := RunSteps(cfg, ip, steps[..n], [], w);
      && before == Report(steps[..n], None)
      && Ensure(cfg, ip, steps[n], v) == (w', false)
  {
    hide RunSteps, Ensure;
    RunStepsOrder(cfg, ip, steps, [], w);
    assert [] + steps == steps;
    var report := RunSteps(cfg, ip, steps, [], w).1;
    PrefixStops(report, steps);
    var n := |report.applied|;
    PartBefore(cfg, ip, steps, n, w);
    FailsThere(cfg, ip, steps, n, RunSteps(cfg, ip, steps[..n], [], w).0);
  }

  lemma PartBefore(cfg: Config, ip: string, steps: seq<Kind>, n: nat, w: World)
    requires n <= |steps| && |RunSteps(cfg, ip, steps, [], w).1.applied| == n
    ensures var (v, before) := RunSteps(cfg, ip, steps[..n], [], w);
      before == Report(steps[..n], None) && RunSteps(cfg, ip, steps, [], w) == RunSteps(cfg, ip, steps[n..], steps[..n], v)
  {
    hide RunSteps;
    assert steps == steps[..n] + steps[n..] && [] + steps[..n] == steps[..n];
    var before := RunSteps(cfg, ip, steps[..n], [], w).1;
    RunStepsOrder(cfg, ip, steps[..n], [], w);
    if before.failed.Some? { PrefixStops(before, steps[..n]); }
    RunStepsSplit(cfg, ip, steps[..n], steps[n..], [], w);
  }

  lemma FailsThere(cfg: Config, ip: string, steps: seq<Kind>, n: nat, v: World)
    requires n < |steps| && |RunSteps(cfg, ip, steps[n..], steps[..n], v).1.applied| == n
    ensures Ensure(cfg, ip, steps[n], v) == (RunSteps(cfg, ip, steps[n..], steps[..n], v).0, false)
  {
    hide RunSteps, Ensure, AddsTargets;
    NextStep(cfg, ip, steps, n, v);
    RunStepsAdd(cfg, ip, steps[n + 1..], steps[..n + 1], Ensure(cfg, ip, steps[n], v).0);
  }

  /** A step creates something exactly if its listing works, a target is missing,
      and the creation of the first missing one is not refused. */
  predicate Creates(cfg: Config, k: Kind, v: World) {
    v.Fate() == Works && (exists m :: 0 <= m < Wanted(k) && !Covered(cfg, k, m, v.objs)) && v.Later().Fate() != Refused
  }

  lemma {:induction false} FirstCreation(cfg: Config, ip: string, k: Kind, i: nat, listing: seq<Obj>, w: World)
    requires w.Valid() && i <= Wanted(k)
    ensures var objs := CreateMissing(cfg, ip, k, i, listing, w).0.objs;
      (exists o :: o in objs && o !in w.objs) <==>
        (exists m :: i <= m < Wanted(k) && !Covered(cfg, k, m, listing)) && w.Fate() != Refused
    decreases Wanted(k) - i
  {
    hide Target, Covered, Distinct, Keep, NewOnly;
    if i == Wanted(k) {
    } else if Covered(cfg, k, i, listing) {
      FirstCreation(cfg, ip, k, i + 1, listing, w);
    } else {
      var (w1, ok) := CreateCall(w, Target(cfg, ip, k, i));
      CreateGrows(cfg, ip, k, i, w);
      if ok { CreateMissingGrows(cfg, ip, k, i + 1, listing, w1); }
      var o := Obj(w.nextId, Target(cfg, ip, k, i));
      assert w.Fate() != Refused ==> o in w1.objs && o !in w.objs;
    }
  }

  lemma CreatesWhen(cfg: Config, ip: string, k: Kind, v: World)
    requires v.Valid()
    ensures (exists o :: o in Ensure(cfg, ip, k, v).0.objs && o !in v.objs) <==> Creates(cfg, k, v)
  {
    hide CreateMissing, Covered, Distinct;
    FreshListing(cfg, k, v.objs);
    FirstCreation(cfg, ip, k, 0, On(v.objs, PathOf(k)), v.Later());
  }

  // --- What a rolled-back run leaves ---

  lemma FailedAt(cfg: Config, ip: string, w: World) returns (n: nat, v: World, w1: World)
    requires w.Valid() && RolledBack(cfg, ip, w)
    ensures n < |STEPS| && Setup(cfg, ip, w).1 == Report(STEPS[..n], Some(STEPS[n]))
    ensures v == Built(cfg, ip, n, w) && v.Valid()
    ensures Ensure(cfg, ip, STEPS[n], v) == (w1, false) && w1.Valid()
    ensures var (w', count) := Sweep(cfg, Applied(STEPS[..n]), SWEEP, w1); w' == Setup(cfg, ip, w).0 && count.Some?
  {
    hide Sweep, RunSteps, Ensure, STEPS, SWEEP, Distinct, Keep, NewOnly;
    var w0 := Migrate(cfg, w);
    SweepLeaves(cfg, Legacy, w);
    SplitAtFailure(cfg, ip, STEPS, w0);
    n := |Setup(cfg, ip, w).1.applied|;
    v := Built(cfg, ip, n, w);
    w1 := Ensure(cfg, ip, STEPS[n], v).0;
    RunStepsGrow(cfg, ip, STEPS[..n], [], w0);
    RunStepsGrow(cfg, ip, STEPS, [], w0);
  }

  lemma StepsDiffer(n: nat)
    requires n < |STEPS|
    ensures STEPS[n] !in STEPS[..n]
  {
    StepsInOrder();
    forall i | 0 <= i < n ensures STEPS[..n][i] != STEPS[n] {
      assert STEPS[..n][i] == STEPS[i];
    }
  }

  /** An object of a step kind the earlier steps left is not the failing one's. */
  lemma NotFromEarlier(cfg: Config, ip: string, kinds: seq<Kind>, k: Kind, w0: World, o: Obj)
    requires NoStepKind(cfg, w0.objs) && k !in kinds && RunSteps(cfg, ip, kinds, [], w0).1 == Report(kinds, None)
    requires IsTarget(cfg, ip, [k], [], o.spec) && OfStepKind(cfg, o.spec)
    ensures o !in RunSteps(cfg, ip, kinds, [], w0).0.objs
  {
    hide RunSteps, Target, OfKind, Covered;
    RunStepsAdd(cfg, ip, kinds, [], w0);
    if o in RunSteps(cfg, ip, kinds, [], w0).0.objs {
      var j, i :| j in kinds && 0 <= i < Wanted(j) && o.spec == Target(cfg, ip, j, i);
      var m :| 0 <= m < Wanted(k) && o.spec == Target(cfg, ip, k, m);
      TargetsDiffer(cfg, ip, j, i, ip, k, m);
      assert false;
    }
  }

  lemma SurvivorIsNew(cfg: Config, ip: string, w: World, o: Obj, n: nat, v: World, w1: World)
    requires w.Valid() && NoStepKind(cfg, w.objs) && RolledBack(cfg, ip, w)
    requires n < |STEPS| && Setup(cfg, ip, w).1 == Report(STEPS[..n], Some(STEPS[n]))
    requires v == Built(cfg, ip, n, w) && Ensure(cfg, ip, STEPS[n], v) == (w1, false) && w1.Valid()
    requires Sweep(cfg, Applied(STEPS[..n]), SWEEP, w1).0 == Setup(cfg, ip, w).0
    requires o in Setup(cfg, ip, w).0.objs && OfStepKind(cfg, o.spec)
    ensures o in w1.objs && o !in v.objs && forall k :: k in STEPS[..n] ==> !Spells(cfg, k)
    ensures IsTarget(cfg, ip, [STEPS[n]], [], o.spec)
  {
    hide Sweep, RunSteps, Ensure, STEPS, SWEEP, Distinct, Keep, NewOnly, Spells, OfKind, IsTarget, AtMostOnce;
    var w0 := Migrate(cfg, w);
    SweepLeaves(cfg, Applied(STEPS[..n]), w1);
    OnlyFailingStepAdds(cfg, ip, w);
    SweepLeaves(cfg, Legacy, w);
    SplitAtFailure(cfg, ip, STEPS, w0);
    StepsDiffer(n);
    NotFromEarlier(cfg, ip, STEPS[..n], STEPS[n], w0, o);
    forall k | k in STEPS[..n] ensures !Spells(cfg, k) {
      SpelledIsGone(cfg, ip, w, o, STEPS[n], k);
    }
  }

  lemma SpelledIsGone(cfg: Config, ip: string, w: World, o: Obj, k: Kind, j: Kind)
    requires w.Valid() && RolledBack(cfg, ip, w) && j in Setup(cfg, ip, w).1.applied
    requires o in Setup(cfg, ip, w).0.objs && IsTarget(cfg, ip, [k], [], o.spec)
    ensures !Spells(cfg, j)
  {
    hide Setup, RolledBack, Target, Covered, OfKind, Spells, Distinct;
    var m :| 0 <= m < Wanted(k) && o.spec == Target(cfg, ip, k, m);
    TargetKind(cfg, ip, k, m, j);
    if Spells(cfg, j) { OfAppliedKindIsGone(cfg, ip, w, j, o); }
  }

  lemma NewSurvives(cfg: Config, ip: string, k: Kind, kinds: seq<Kind>, v: World, w1: World, o: Obj)
    requires v.Valid() && w1 == Ensure(cfg, ip, k, v).0 && w1.Valid() && o in w1.objs && o !in v.objs
    requires k !in kinds && forall j :: j in kinds ==> !Spells(cfg, j)
    ensures o in Sweep(cfg, Applied(kinds), SWEEP, w1).0.objs && OfStepKind(cfg, o.spec)
  {
    hide Sweep, Ensure, SWEEP, Distinct, Target, OfKind, Spells, Covered;
    EnsureAdds(cfg, ip, k, v);
    var m :| 0 <= m < Wanted(k) && o.spec == Target(cfg, ip, k, m);
    TargetOwned(cfg, ip, k, m);
    forall j | j in kinds ensures !OfKind(cfg, o.spec, j) { TargetKind(cfg, ip, k, m, j); }
    SweepLeaves(cfg, Applied(kinds), w1);
  }

  /** From a store with no step-kind objects: of a step kind, a rolled-back run
      leaves exactly the objects its failing step created; none at all if the tag
      spells the kind of a completed step, for then the rollback takes them. */
  lemma LeftExactly(cfg: Config, ip: string, w: World, o: Obj)
    requires w.Valid() && NoStepKind(cfg, w.objs) && RolledBack(cfg, ip, w)
    ensures var (w', report, _) := Setup(cfg, ip, w);
      var n := |report.applied|;
      && n < |STEPS| && report == Report(STEPS[..n], Some(STEPS[n]))
      && var v := Built(cfg, ip, n, w);
      (o in w'.objs && OfStepKind(cfg, o.spec)) <==>
        && o in Ensure(cfg, ip, STEPS[n], v).0.objs && o !in v.objs
        && forall k :: k in STEPS[..n] ==> !Spells(cfg, k)
  {
    hide Setup, Sweep, Ensure, STEPS, SWEEP, Distinct, Spells, OfStepKind, Built, RolledBack, NoStepKind, IsTarget;
    var n, v, w1 := FailedAt(cfg, ip, w);
    if o in Setup(cfg, ip, w).0.objs && OfStepKind(cfg, o.spec) {
      SurvivorIsNew(cfg, ip, w, o, n, v, w1);
    }
    if o in w1.objs && o !in v.objs && forall k :: k in STEPS[..n] ==> !Spells(cfg, k) {
      StepsDiffer(n);
      NewSurvives(cfg, ip, STEPS[n], STEPS[..n], v, w1, o);
    }
  }

  /** So something is left exactly if the failing step created anything, and the
      tag spells no completed step's kind. */
  lemma LeftWhen(cfg: Config, ip: string, w: World)
    requires w.Valid() && NoStepKind(cfg, w.objs) && RolledBack(cfg, ip, w)
    ensures var (w', report, _) := Setup(cfg, ip, w);
      var n := |report.applied|;
      && n < |STEPS|
      && ((exists o :: o in w'.objs && OfStepKind(cfg, o.spec)) <==>
            Creates(cfg, STEPS[n], Built(cfg, ip, n, w)) && forall k :: k in STEPS[..n] ==> !Spells(cfg, k))
  {
    hide Setup, Ensure, STEPS, SWEEP, Distinct, Spells, OfStepKind, Built, RolledBack, NoStepKind, Creates, Sweep;
    var n, v, w1 := FailedAt(cfg, ip, w);
    CreatesWhen(cfg, ip, STEPS[n], v);
    forall o
      ensures (o in Setup(cfg, ip, w).0.objs && OfStepKind(cfg, o.spec)) <==>
        o in w1.objs && o !in v.objs && forall k :: k in STEPS[..n] ==> !Spells(cfg, k)
    {
      LeftExactly(cfg, ip, w, o);
    }
  }

  // --- Which targets some failure leaves behind ---

  lemma {:induction false} CreatesLost(
      cfg: Config, ip: string, k: Kind, i: nat, m: nat, listing: seq<Obj>, w: World)
    returns (script: seq<Fault>, w': World)
    requires i <= m < Wanted(k) && !Covered(cfg, k, m, listing) && w.script == []
    ensures CreateMissing(cfg, ip, k, i, listing, With(w, script)) == (w', false) && w'.script == []
    ensures exists o :: o in w'.objs && o.spec == Target(cfg, ip, k, m)
    decreases m - i
  {
    hide Target, Covered;
    if Covered(cfg, k, i, listing) {
      script, w' := CreatesLost(cfg, ip, k, i + 1, m, listing, w);
    } else if i == m {
      script := [AnswerLost];
      assert [AnswerLost][1..] == [];
      w' := CreateCall(w, Target(cfg, ip, k, m)).0;
      assert Obj(w.nextId, Target(cfg, ip, k, m)) in w'.objs;
    } else {
      var rest;
      rest, w' := CreatesLost(cfg, ip, k, i + 1, m, listing, CreateCall(w, Target(cfg, ip, k, i)).0);
      script := [Works] + rest;
      WorksFirst(w, rest);
    }
  }

  lemma EnsureLost(cfg: Config, ip: string, k: Kind, m: nat, w: World) returns (script: seq<Fault>, w': World)
    requires m < Wanted(k) && !Covered(cfg, k, m, w.objs) && w.script == []
    ensures Ensure(cfg, ip, k, With(w, script)) == (w', false) && w'.script == []
    ensures exists o :: o in w'.objs && o.spec == Target(cfg, ip, k, m)
  {
    hide CreateMissing, On, Covered, Target;
    CoveredOnPath(cfg, k, m, w.objs);
    var rest;
    rest, w' := CreatesLost(cfg, ip, k, 0, m, On(w.objs, PathOf(k)), w);
    script := [Works] + rest;
    WorksFirst(w, rest);
  }

  /** Everything works up to the creation of that target, whose answer is lost. */
  lemma StepsThenLost(cfg: Config, ip: string, steps: seq<Kind>, n: nat, m: nat, w: World)
    returns (script: seq<Fault>, w': World)
    requires w.script == [] && n < |steps| && m < Wanted(steps[n])
    requires !Covered(cfg, steps[n], m, RunSteps(cfg, ip, steps[..n], [], w).0.objs)
    ensures RunSteps(cfg, ip, steps, [], With(w, script)) == (w', Report(steps[..n], Some(steps[n]))) && w'.script == []
    ensures exists o :: o in w'.objs && o.spec == Target(cfg, ip, steps[n], m)
  {
    hide Ensure, Covered, Target;
    var none := StepsWith(cfg, ip, steps[..n], [], w, []);
    var v := RunSteps(cfg, ip, steps[..n], [], w).0;
    var lost;
    lost, w' := EnsureLost(cfg, ip, steps[n], m, v);
    script := StepsWith(cfg, ip, steps[..n], [], w, lost);
    assert [] + steps[..n] == steps[..n] && steps == steps[..n] + steps[n..];
    RunStepsSplit(cfg, ip, steps[..n], steps[n..], [], With(w, script));
    NextStep(cfg, ip, steps, n, With(v, lost));
  }

  /** A later step of a path that looks for its kind alone is one the tag can
      shadow. */
  lemma LaterOnPath(cfg: Config, n: nat, j: Kind)
    requires n < |STEPS| && j in STEPS[..n] && PathOf(j) == PathOf(STEPS[n]) && Plain(STEPS[n]) && Spells(cfg, STEPS[n])
    ensures Shadowed(cfg, STEPS[n])
  {
    hide Spells;
    StepsInOrder();
    var i :| 0 <= i < n && STEPS[..n][i] == j;
    assert STEPS[i] == j;
  }

  /** The operator's objects are still there when the listing of a step comes. */
  lemma ForeignStays(cfg: Config, ip: string, w: World, n: nat, o: Obj)
    requires w.Valid() && n <= |STEPS| && o in w.objs && Guards(cfg, Foreign, o.spec)
    ensures o in Built(cfg, ip, n, w).objs
  {
    hide Sweep, RunSteps, STEPS, SWEEP, Distinct, Keep, NewOnly, OfKind, IsOld;
    SweepLeaves(cfg, Legacy, w);
    RunStepsGrow(cfg, ip, STEPS[..n], [], Migrate(cfg, w));
  }

  /** A target that is neither shadowed nor covered by the operator's objects is
      missing when its step comes. */
  lemma StillMissing(cfg: Config, ip: string, w: World, n: nat, m: nat)
    requires w.Valid() && w.script == [] && NoStepKind(cfg, w.objs) && n < |STEPS| && m < Wanted(STEPS[n])
    requires !Shadowed(cfg, STEPS[n]) && !Covered(cfg, STEPS[n], m, Keep(cfg, Foreign, w.objs))
    ensures !Covered(cfg, STEPS[n], m, Built(cfg, ip, n, w).objs)
  {
    hide Sweep, RunSteps, STEPS, SWEEP, Distinct, Keep, NewOnly, OfKind, IsOld, Covers, IsTarget, Shadowed;
    var w0 := Migrate(cfg, w);
    SweepsAll(cfg, Unmanaged, Legacy, w);
    RunStepsAdd(cfg, ip, STEPS[..n], [], w0);
    RunStepsOrder(cfg, ip, STEPS[..n], [], w0);
    assert [] + STEPS[..n] == STEPS[..n];
    forall o | o in Built(cfg, ip, n, w).objs ensures !Covers(cfg, STEPS[n], m, o.spec) {
      if o in w0.objs {
        assert Guards(cfg, Foreign, o.spec);
        KeepHas(cfg, Foreign, w.objs, o);
      } else {
        StillTarget(cfg, ip, Ran(RunSteps(cfg, ip, STEPS[..n], [], w0).1), [], STEPS[..n], w0.objs, o.spec);
        EarlierDoesNotCover(cfg, ip, n, m, o.spec);
      }
    }
  }

  lemma EarlierDoesNotCover(cfg: Config, ip: string, n: nat, m: nat, s: Spec)
    requires n < |STEPS| && m < Wanted(STEPS[n]) && !Shadowed(cfg, STEPS[n]) && IsTarget(cfg, ip, STEPS[..n], [], s)
    ensures !Covers(cfg, STEPS[n], m, s)
  {
    hide Target, Covers, Covered, STEPS, Spells, Shadowed;
    var j, i :| j in STEPS[..n] && 0 <= i < Wanted(j) && s == Target(cfg, ip, j, i);
    StepsDiffer(n);
    TargetCovers(cfg, ip, j, i, STEPS[n], m);
    if Covers(cfg, STEPS[n], m, s) { LaterOnPath(cfg, n, j); }
  }

  /** A store on which some failure leaves the target behind. */
  ghost predicate LeavesBehind(cfg: Config, ip: string, w: World, s: Spec) {
    RolledBack(cfg, ip, w) && exists o :: o in Setup(cfg, ip, w).0.objs && o.spec == s
  }

  lemma SomeFailureLeaves(cfg: Config, ip: string, w: World, n: nat, m: nat) returns (script: seq<Fault>)
    requires w.Valid() && NoStepKind(cfg, w.objs) && n < |STEPS| && m < Wanted(STEPS[n])
    requires !Shadowed(cfg, STEPS[n]) && !Covered(cfg, STEPS[n], m, Keep(cfg, Foreign, w.objs))
    requires forall k :: k in STEPS[..n] ==> !Spells(cfg, k)
    ensures LeavesBehind(cfg, ip, With(w, script), Target(cfg, ip, STEPS[n], m))
  {
    hide Sweep, RunSteps, Ensure, STEPS, SWEEP, Distinct, Keep, NewOnly, OfKind, IsOld, Covered, Shadowed, Target, Spells;
    hide Selects, NoStepKind;
    var w0 := With(w, []);
    StillMissing(cfg, ip, w0, n, m);
    SweepsAll(cfg, Unmanaged, Legacy, w0);
    var lost, w1 := StepsThenLost(cfg, ip, STEPS, n, m, Migrate(cfg, w0));
    script := SweepWith(cfg, Legacy, SWEEP, w0, lost);
    assert With(w0, script) == With(w, script);
    assert Migrate(cfg, With(w, script)) == With(Migrate(cfg, w0), lost);
    RunStepsGrow(cfg, ip, STEPS, [], With(Migrate(cfg, w0), lost));
    SweepsAll(cfg, Unmanaged, Applied(STEPS[..n]), w1);
    var o :| o in w1.objs && o.spec == Target(cfg, ip, STEPS[n], m);
    StepsDiffer(n);
    TargetSurvives(cfg, ip, STEPS[n], m, STEPS[..n], w1, o);
  }

  lemma TargetSurvives(cfg: Config, ip: string, k: Kind, m: nat, kinds: seq<Kind>, w1: World, o: Obj)
    requires w1.Valid() && o in w1.objs && m < Wanted(k) && o.spec == Target(cfg, ip, k, m)
    requires k !in kinds && forall j :: j in kinds ==> !Spells(cfg, j)
    ensures o in Sweep(cfg, Applied(kinds), SWEEP, w1).0.objs
  {
    hide Sweep, SWEEP, Distinct, Target, OfKind, Spells;
    forall j | j in kinds ensures !OfKind(cfg, o.spec, j) { TargetKind(cfg, ip, k, m, j); }
    SweepLeaves(cfg, Applied(kinds), w1);
  }

  /** What is left behind was missing when the failing step came. */
  lemma LeftWasMissing(cfg: Config, ip: string, w: World, n: nat, m: nat)
    requires w.Valid() && NoStepKind(cfg, w.objs) && n < |STEPS| && m < Wanted(STEPS[n])
    requires LeavesBehind(cfg, ip, w, Target(cfg, ip, STEPS[n], m))
    ensures Setup(cfg, ip, w).1 == Report(STEPS[..n], Some(STEPS[n]))
    ensures RunSteps(cfg, ip, STEPS[..n], [], Migrate(cfg, w)).1 == Report(STEPS[..n], None)
    ensures !Covered(cfg, STEPS[n], m, Built(cfg, ip, n, w).objs)
    ensures forall k :: k in STEPS[..n] ==> !Spells(cfg, k)
  {
    hide Setup, Sweep, RunSteps, Ensure, STEPS, SWEEP, Distinct, Spells, RolledBack, NoStepKind, Target, Covered, OfKind;
    var o :| o in Setup(cfg, ip, w).0.objs && o.spec == Target(cfg, ip, STEPS[n], m);
    TargetOwned(cfg, ip, STEPS[n], m);
    var n', v, w1 := FailedAt(cfg, ip, w);
    SurvivorIsNew(cfg, ip, w, o, n', v, w1);
    SameStep(cfg, ip, n, m, n', o.spec);
    EnsureAdds(cfg, ip, STEPS[n], v);
    MissingTarget(cfg, ip, STEPS[n], m, v.objs);
    BuiltReport(cfg, ip, w, n);
  }

  lemma BuiltReport(cfg: Config, ip: string, w: World, n: nat)
    requires RolledBack(cfg, ip, w) && |Setup(cfg, ip, w).1.applied| == n && n <= |STEPS|
    ensures RunSteps(cfg, ip, STEPS[..n], [], Migrate(cfg, w)).1 == Report(STEPS[..n], None)
  {
    hide Sweep, RunSteps, STEPS, SWEEP;
    SplitAtFailure(cfg, ip, STEPS, Migrate(cfg, w));
  }

  lemma SameStep(cfg: Config, ip: string, n: nat, m: nat, n': nat, s: Spec)
    requires n < |STEPS| && n' < |STEPS| && m < Wanted(STEPS[n]) && s == Target(cfg, ip, STEPS[n], m)
    requires IsTarget(cfg, ip, [STEPS[n']], [], s)
    ensures n == n'
  {
    hide Target, Covered, STEPS;
    var j, i :| j in [STEPS[n']] && 0 <= i < Wanted(j) && s == Target(cfg, ip, j, i);
    if STEPS[n'] != STEPS[n] { TargetsDiffer(cfg, ip, j, i, ip, STEPS[n], m); }
    StepsDiffer(n);
    StepsDiffer(n');
    if n < n' { InPrefix(STEPS, n, n'); }
    if n' < n { InPrefix(STEPS, n', n); }
  }

  lemma MissingTarget(cfg: Config, ip: string, k: Kind, m: nat, objs: seq<Obj>)
    requires m < Wanted(k) && IsTarget(cfg, ip, [k], objs, Target(cfg, ip, k, m))
    ensures !Covered(cfg, k, m, objs)
  {
    hide Target, Covered;
    var j, i :| j in [k] && 0 <= i < Wanted(j)
      && Target(cfg, ip, k, m) == Target(cfg, ip, j, i) && !Covered(cfg, j, i, objs);
    if i != m { TargetsDiffer(cfg, ip, k, m, ip, j, i); }
  }

  /** Before the call: on a store with no step-kind objects some failed and fully
      rolled back run leaves that target behind exactly if the operator's objects
      do not cover it, the tag spells no earlier step's kind, and an earlier step
      does not take its place. */
  lemma TargetIsLeftWhen(cfg: Config, ip: string, w: World, n: nat, m: nat)
    requires w.Valid() && NoStepKind(cfg, w.objs) && n < |STEPS| && m < Wanted(STEPS[n])
    ensures (exists script :: LeavesBehind(cfg, ip, With(w, script), Target(cfg, ip, STEPS[n], m))) <==>
      && !Shadowed(cfg, STEPS[n]) && !Covered(cfg, STEPS[n], m, Keep(cfg, Foreign, w.objs))
      && forall k :: k in STEPS[..n] ==> !Spells(cfg, k)
  {
    hide LeavesBehind, STEPS, Distinct, Spells, Shadowed, Target, Covered, NoStepKind, Keep;
    if script :| LeavesBehind(cfg, ip, With(w, script), Target(cfg, ip, STEPS[n], m)) {
      LeftMeansMissing(cfg, ip, With(w, script), n, m);
    }
    if !Shadowed(cfg, STEPS[n]) && !Covered(cfg, STEPS[n], m, Keep(cfg, Foreign, w.objs))
       && forall k :: k in STEPS[..n] ==> !Spells(cfg, k)
    {
      var script := SomeFailureLeaves(cfg, ip, w, n, m);
    }
  }

  lemma LeftMeansMissing(cfg: Config, ip: string, w: World, n: nat, m: nat)
    requires w.Valid() && NoStepKind(cfg, w.objs) && n < |STEPS| && m < Wanted(STEPS[n])
    requires LeavesBehind(cfg, ip, w, Target(cfg, ip, STEPS[n], m))
    ensures !Shadowed(cfg, STEPS[n]) && !Covered(cfg, STEPS[n], m, Keep(cfg, Foreign, w.objs))
    ensures forall k :: k in STEPS[..n] ==> !Spells(cfg, k)
  {
    LeftWasMissing(cfg, ip, w, n, m);
    var v := Built(cfg, ip, n, w);
    assert Shadowed(cfg, STEPS[n]) ==> Leader(STEPS[n]) in STEPS[..n] by {
      if Shadowed(cfg, STEPS[n]) { LeaderIsEarlier(cfg, n); }
    }
    hide LeavesBehind, STEPS, Distinct, Spells, Shadowed, Leader, Target, Covers, NoStepKind, Sweep, RunSteps, Keep;
    SweepLeaves(cfg, Legacy, w);
    RunStepsSettle(cfg, ip, STEPS[..n], [], Migrate(cfg, w));
    if Shadowed(cfg, STEPS[n]) {
      LeaderCovers(cfg, STEPS[n], v.objs);
    }
    forall o | o in Keep(cfg, Foreign, w.objs) ensures o in v.objs {
      KeepHas(cfg, Foreign, w.objs, o);
      ForeignStays(cfg, ip, w, n, o);
    }
  }
}
