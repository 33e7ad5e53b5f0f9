/** The blackhole route under a failing `setup`: when it outlives the rollback
    (apps/snx-edge-server/src/routeros/provisioner.rs). */
module KillSwitchLoss {
  import opened Text
  import opened Router
  import opened PolicyRouting
  import opened Sweeping
  import opened Building
  import opened Settling
  import opened Scripting
  import opened Rollback
  import opened Leftovers

  /** The run comes to the kill switch's step, finds none, and its creation is
      carried out with the answer lost. */
  predicate AnswerIsLost(cfg: Config, ip: string, w: World) {
    var (v, report) := RunSteps(cfg, ip, STEPS[..5], [], Migrate(cfg, w));
    && report.failed.None? && v.Fate() == Works
    && !Covered(cfg, KillSwitch, 0, v.objs) && v.Later().Fate() == AnswerLost
  }

  function Switch(cfg: Config, id: nat): Obj {
    assert Wanted(KillSwitch) == 1;
    Obj(id, Target(cfg, "", KillSwitch, 0))
  }

  lemma SameForAnyAddress(cfg: Config, ip: string)
    ensures Wanted(KillSwitch) == 1 && Target(cfg, ip, KillSwitch, 0) == Target(cfg, "", KillSwitch, 0)
  {
  }

  lemma OneStep(cfg: Config, ip: string, v: World)
    ensures var (v', ok) := Ensure(cfg, ip, KillSwitch, v);
      && (v'.objs == v.objs || v'.objs == v.objs + [Switch(cfg, v.nextId)])
      && (!ok && v'.objs != v.objs <==>
            v.Fate() == Works && !Covered(cfg, KillSwitch, 0, v.objs) && v.Later().Fate() == AnswerLost)
  {
    SameForAnyAddress(cfg, ip);
    hide Target, Covers;
    CoveredOnPath(cfg, KillSwitch, 0, v.objs);
  }

  /** The run fails there. */
  lemma FailsAtSwitch(cfg: Config, ip: string, steps: seq<Kind>, w: World)
    requires |steps| > 5 && steps[5] == KillSwitch
    requires RunSteps(cfg, ip, steps[..5], [], w).1.failed.None?
    requires !Ensure(cfg, ip, KillSwitch, RunSteps(cfg, ip, steps[..5], [], w).0).1
    ensures RunSteps(cfg, ip, steps, [], w).1 == Report(steps[..5], Some(KillSwitch))
  {
    assert steps == steps[..5] + steps[5..] && [] + steps[..5] == steps[..5];
    hide RunSteps, Ensure;
    RunStepsSplit(cfg, ip, steps[..5], steps[5..], [], w);
    RunStepsOrder(cfg, ip, steps[..5], [], w);
    NextStep(cfg, ip, steps, 5, RunSteps(cfg, ip, steps[..5], [], w).0);
  }

  lemma LeftMeansLost(cfg: Config, ip: string, w: World, o: Obj)
    requires w.Valid() && NoStepKind(cfg, w.objs) && RolledBack(cfg, ip, w)
    requires |STEPS| == 10 && STEPS[5] == KillSwitch
    requires o in Setup(cfg, ip, w).0.objs && o.spec == Switch(cfg, 0).spec
    ensures AnswerIsLost(cfg, ip, w) && forall k :: k in STEPS[..5] ==> !Spells(cfg, k)
  {
    SameForAnyAddress(cfg, ip);
    TargetOwned(cfg, ip, KillSwitch, 0);
    hide RunSteps, Setup, Ensure, Migrate, Target, OfKind, Distinct, NoStepKind, STEPS, Covered, RolledBack, Spells;
    LeftWasMissing(cfg, ip, w, 5, 0);
    LeftExactly(cfg, ip, w, o);
    var n, v, w1 := FailedAt(cfg, ip, w);
    OneStep(cfg, ip, v);
  }

  lemma LostMeansLeft(cfg: Config, ip: string, w: World)
    requires w.Valid() && NoStepKind(cfg, w.objs) && RolledBack(cfg, ip, w) && AnswerIsLost(cfg, ip, w)
    requires |STEPS| == 10 && STEPS[5] == KillSwitch && forall k :: k in STEPS[..5] ==> !Spells(cfg, k)
    ensures exists o :: o in Setup(cfg, ip, w).0.objs && o.spec == Switch(cfg, 0).spec
  {
    hide RunSteps, Sweep, Ensure, Target, OfKind, Distinct, NoStepKind, STEPS, SWEEP, Covered, Spells, OfStepKind;
    var v := Built(cfg, ip, 5, w);
    OneStep(cfg, ip, v);
    FailsAtSwitch(cfg, ip, STEPS, Migrate(cfg, w));
    var n, v', w1 := FailedAt(cfg, ip, w);
    var o := Switch(cfg, v.nextId);
    assert o !in v.objs;
    LeftExactly(cfg, ip, w, o);
    assert o.spec == Switch(cfg, 0).spec;
  }

  /** From a store with no step-kind objects, a blackhole route is left after a
      completed rollback exactly when the run failed in its step with the answer
      to the creation lost (and the tag spells none of the completed steps'
      kinds). So no failure of a later step leaves it. */
  lemma SwitchIsLeftWhen(cfg: Config, ip: string, w: World)
    requires w.Valid() && NoStepKind(cfg, w.objs) && RolledBack(cfg, ip, w)
    ensures |STEPS| == 10
    ensures (exists o :: o in Setup(cfg, ip, w).0.objs && o.spec == Switch(cfg, 0).spec)
       <==> AnswerIsLost(cfg, ip, w) && forall k :: k in STEPS[..5] ==> !Spells(cfg, k)
  {
    StepsInOrder();
    hide *;
    if o :| o in Setup(cfg, ip, w).0.objs && o.spec == Switch(cfg, 0).spec {
      LeftMeansLost(cfg, ip, w, o);
    }
    if AnswerIsLost(cfg, ip, w) && forall k :: k in STEPS[..5] ==> !Spells(cfg, k) {
      LostMeansLeft(cfg, ip, w);
    }
  }

  /** A run from the empty store that fails at the next step, the DNS rules,
      has the switch in place by then; its rollback removes it. */
  lemma LaterFailureRemovesSwitch(cfg: Config, ip: string) returns (script: seq<Fault>)
    ensures var w := World([], 0, script);
      var (w', report, rolledBack) := Setup(cfg, ip, w);
      && w.Valid() && report.failed == Some(DnsDstNat) && rolledBack && KillSwitch in report.applied
      && forall o :: o in w'.objs ==> !OfKind(cfg, o.spec, KillSwitch)
  {
    var w := World([], 0, []);
    StepsInOrder();
    assert STEPS[..6][5] == KillSwitch;
    hide *;
    EmptyIsValid([]);
    script := FailsAt(cfg, ip, w, 6, []);
    RollbackWorks(cfg, ip, w, 6);
    WithIs(w, script);
    EmptyIsValid(script);
    NoneOfKind(cfg, ip, World([], 0, script), KillSwitch);
  }

  lemma NoneOfKind(cfg: Config, ip: string, w: World, k: Kind)
    requires w.Valid()
    ensures var (w', report, rolledBack) := Setup(cfg, ip, w);
      report.failed.Some? && rolledBack && k in report.applied ==> forall o :: o in w'.objs ==> !OfKind(cfg, o.spec, k)
  {
    hide Setup, OfKind, Distinct;
    RollbackConfined(cfg, ip, w);
  }
}
