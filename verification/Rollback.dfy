/** What a failed and rolled back `setup` leaves behind, and what of the
    operator's it takes along (apps/snx-edge-server/src/routeros/provisioner.rs,
    api/routing.rs). */
module Rollback {
  import opened Text
  import opened Comments
  import opened Router
  import opened PolicyRouting
  import opened Sweeping
  import opened Building
  import opened Settling
  import opened Scripting

  ghost predicate RolledBack(cfg: Config, ip: string, w: World) {
    var (_, report, rolledBack) := Setup(cfg, ip, w);
    report.failed.Some? && rolledBack
  }

  /** What a rolled-back run adds to the store is left of the failing step. */
  lemma OnlyFailingStepAdds(cfg: Config, ip: string, w: World)
    requires w.Valid() && RolledBack(cfg, ip, w)
    ensures var (w', report, _) := Setup(cfg, ip, w);
      && (forall o :: o in w'.objs && o !in w.objs ==> IsTarget(cfg, ip, [report.failed.value], [], o.spec))
      && (AtMostOnce(cfg, ip, w.objs) ==> AtMostOnce(cfg, ip, w'.objs))
  {
    hide Sweep, RunSteps, Keep, Distinct, Target, OfKind, IsTarget, AtMostOnce, Covered;
    var w0 := Migrate(cfg, w);
    var (w1, report) := RunSteps(cfg, ip, STEPS, [], w0);
    var w' := Setup(cfg, ip, w).0;
    SweepsAll(cfg, Unmanaged, Legacy, w);
    SweepLeaves(cfg, Legacy, w);
    RunStepsGrow(cfg, ip, STEPS, [], w0);
    RunStepsAdd(cfg, ip, STEPS, [], w0);
    SweepsAll(cfg, Unmanaged, Applied(report.applied), w1);
    if AtMostOnce(cfg, ip, w.objs) {
      ShrinkOnce(cfg, ip, w, w0);
      RunStepsOnce(cfg, ip, STEPS, [], w0);
      ShrinkOnce(cfg, ip, w1, w');
    }
    forall o | o in w'.objs && o !in w.objs ensures IsTarget(cfg, ip, [report.failed.value], [], o.spec) {
      assert !Selects(cfg, Applied(report.applied), o.spec);
      OfFailingStep(cfg, ip, report, w0.objs, o.spec);
    }
  }

  lemma OfFailingStep(cfg: Config, ip: string, report: Report, objs: seq<Obj>, s: Spec)
    requires report.failed.Some? && IsTarget(cfg, ip, Ran(report), objs, s)
    requires !Selects(cfg, Applied(report.applied), s)
    ensures IsTarget(cfg, ip, [report.failed.value], [], s)
  {
    hide Target, OfKind;
    var k, i :| k in Ran(report) && 0 <= i < Wanted(k) && s == Target(cfg, ip, k, i);
    TargetOwned(cfg, ip, k, i);
    assert k == report.failed.value;
    assert !Covered(cfg, k, i, []);
  }

  /** From a store with no step-kind objects, whatever of a step kind survives
      a rolled-back failure is a target of the failing step, and is there once. */
  lemma LeftoversOfFailedStep(cfg: Config, ip: string, w: World, o: Obj)
    requires w.Valid() && NoStepKind(cfg, w.objs) && RolledBack(cfg, ip, w)
    requires o in Setup(cfg, ip, w).0.objs && OfStepKind(cfg, o.spec)
    ensures var (w', report, _) := Setup(cfg, ip, w);
      && Bag(w'.objs)[o.spec] == 1
      && exists i :: 0 <= i < Wanted(report.failed.value)
                     && o.spec == Target(cfg, ip, report.failed.value, i)
  {
    hide Sweep, RunSteps, Target, OfKind, Distinct, Covered;
    var (w', report, _) := Setup(cfg, ip, w);
    FreshOnce(cfg, ip, w.objs);
    OnlyFailingStepAdds(cfg, ip, w);
    assert OfStepKind(cfg, o.spec) && o !in w.objs;
    var i :| 0 <= i < Wanted(report.failed.value) && o.spec == Target(cfg, ip, report.failed.value, i);
    BagHas(w'.objs, o.spec);
  }

  // --- Rolling back by kind ---

  ghost predicate KeepsPriorObjects(cfg: Config, w: World, w': World) {
    forall o :: o in w.objs && !IsOld(cfg, o.spec) ==> o in w'.objs
  }

  lemma LastStepNotApplied(cfg: Config, ip: string, w: World)
    requires RunSteps(cfg, ip, STEPS, [], w).1.failed.Some?
    ensures Rfc1918 !in RunSteps(cfg, ip, STEPS, [], w).1.applied
  {
    StopsAt(cfg, ip, w);
    StepsInOrder();
    hide RunSteps;
    var applied := RunSteps(cfg, ip, STEPS, [], w).1.applied;
    forall i | 0 <= i < |applied| ensures applied[i] != Rfc1918 {
      assert applied[i] == STEPS[i];
    }
  }

  /** An object whose loss a caller can foresee. */
  ghost predicate AtRisk(cfg: Config, s: Spec) {
    !IsOld(cfg, s) && exists k: Kind :: k != Rfc1918 && OfKind(cfg, s, k)
  }

  /** Before the call: some failed and fully rolled back run loses the object,
      which it did not create, exactly when the object is of a step kind other
      than the last; the last step's kind is never rolled back. */
  lemma ObjectIsLostWhen(cfg: Config, ip: string, w: World, o: Obj)
    requires w.Valid() && o in w.objs && !IsOld(cfg, o.spec)
    ensures (exists script :: RolledBack(cfg, ip, With(w, script)) && o !in Setup(cfg, ip, With(w, script)).0.objs)
       <==> AtRisk(cfg, o.spec)
  {
    hide Setup, Distinct, RolledBack, AtRisk, IsOld;
    if script :| RolledBack(cfg, ip, With(w, script)) && o !in Setup(cfg, ip, With(w, script)).0.objs {
      LostWasAtRisk(cfg, ip, With(w, script), o);
    }
    if AtRisk(cfg, o.spec) {
      var script := LosesAll(cfg, ip, w);
      AtRiskIsLost(cfg, ip, w, o, script);
    }
  }

  /** The rollback is meant to remove only what the failed run created. It does
      on every run exactly when the store holds no object at risk. */
  lemma RollbackSparesPrior(cfg: Config, ip: string, w: World)
    requires w.Valid()
    ensures (forall script :: RolledBack(cfg, ip, With(w, script)) ==>
               KeepsPriorObjects(cfg, w, Setup(cfg, ip, With(w, script)).0))
       <==> forall o :: o in w.objs ==> !AtRisk(cfg, o.spec)
  {
    hide Setup, Distinct, RolledBack;
    forall o | o in w.objs && !IsOld(cfg, o.spec)
      ensures (exists script :: RolledBack(cfg, ip, With(w, script)) && o !in Setup(cfg, ip, With(w, script)).0.objs)
         <==> AtRisk(cfg, o.spec)
    {
      ObjectIsLostWhen(cfg, ip, w, o);
    }
    hide OfKind, IsOld;
  }

  lemma LostWasAtRisk(cfg: Config, ip: string, w: World, o: Obj)
    requires w.Valid() && RolledBack(cfg, ip, w)
    requires o in w.objs && !IsOld(cfg, o.spec) && o !in Setup(cfg, ip, w).0.objs
    ensures AtRisk(cfg, o.spec)
  {
    hide IsOld, OfKind, Distinct, Sweep, RunSteps;
    RollbackConfined(cfg, ip, w);
    LastStepNotApplied(cfg, ip, Migrate(cfg, w));
  }

  /** Every step works up to the last one's listing; the rollback works. */
  lemma LosesAll(cfg: Config, ip: string, w: World) returns (script: seq<Fault>)
    requires w.Valid()
    ensures With(w, script).Valid() && RolledBack(cfg, ip, With(w, script))
    ensures Setup(cfg, ip, With(w, script)).1 == Report(STEPS[..9], Some(Rfc1918))
  {
    hide RunSteps, Sweep, Distinct, Migrate;
    var v := With(w, []);
    StepsInOrder();
    script := FailsAt(cfg, ip, v, 9, []);
    assert With(v, script) == With(w, script);
    RollbackWorks(cfg, ip, v, 9);
  }

  lemma RollbackWorks(cfg: Config, ip: string, w: World, n: nat)
    requires w.Valid() && w.script == [] && n <= |STEPS|
    ensures Built(cfg, ip, n, w).Valid() && Built(cfg, ip, n, w).script == []
    ensures Sweep(cfg, Applied(STEPS[..n]), SWEEP, With(Built(cfg, ip, n, w), [])).1.Some?
  {
    hide RunSteps, Sweep, Distinct, STEPS, Selects, Keep, NewOnly;
    SweepsAll(cfg, Unmanaged, Legacy, w);
    RunStepsGrow(cfg, ip, STEPS[..n], [], Migrate(cfg, w));
    var built := Built(cfg, ip, n, w);
    assert With(built, []) == built;
    SweepsAll(cfg, Unmanaged, Applied(STEPS[..n]), built);
  }

  lemma AtRiskIsLost(cfg: Config, ip: string, w: World, o: Obj, script: seq<Fault>)
    requires With(w, script).Valid() && RolledBack(cfg, ip, With(w, script))
    requires Setup(cfg, ip, With(w, script)).1 == Report(STEPS[..9], Some(Rfc1918))
    requires o in w.objs && AtRisk(cfg, o.spec)
    ensures o !in Setup(cfg, ip, With(w, script)).0.objs
    ensures !KeepsPriorObjects(cfg, w, Setup(cfg, ip, With(w, script)).0)
  {
    hide Setup, IsOld, OfKind, Distinct;
    RollbackConfined(cfg, ip, With(w, script));
    var k :| k != Rfc1918 && OfKind(cfg, o.spec, k);
    EveryKindStepped(k);
    StepsInOrder();
    var i :| 0 <= i < |STEPS| && STEPS[i] == k;
    assert STEPS[..9][i] == k;
    assert Selects(cfg, Applied(STEPS[..9]), o.spec);
  }

  /** A routing table from an earlier run is gone after a later run fails at its
      second step, although the later run did not create it. */
  lemma RollbackRemovesEarlierTable(cfg: Config, ip: string) returns (script: seq<Fault>)
    ensures var table := Obj(0, Target(cfg, ip, RoutingTable, 0));
      var w := World([table], 1, script);
      var (w', report, rolledBack) := Setup(cfg, ip, w);
      && w.Valid() && report == Report([RoutingTable], Some(ConnMark)) && rolledBack
      && table !in w'.objs
  {
    var table := Obj(0, Target(cfg, ip, RoutingTable, 0));
    var v := World([table], 1, []);
    assert v.Valid();
    TargetOwned(cfg, ip, RoutingTable, 0);
    hide *;
    script := FailsAfterFirst(cfg, ip, v);
    assert With(v, script) == World([table], 1, script) by { WithIs(v, script); }
    OfAppliedKindIsGone(cfg, ip, World([table], 1, script), RoutingTable, table);
  }

  lemma WithIs(w: World, script: seq<Fault>)
    ensures With(w, script) == World(w.objs, w.nextId, script)
  {
  }

  lemma OfAppliedKindIsGone(cfg: Config, ip: string, w: World, k: Kind, o: Obj)
    requires w.Valid() && RolledBack(cfg, ip, w) && k in Setup(cfg, ip, w).1.applied && OfKind(cfg, o.spec, k)
    ensures o !in Setup(cfg, ip, w).0.objs
  {
    hide Setup, OfKind, Distinct;
    RollbackConfined(cfg, ip, w);
  }

  lemma FailsAfterFirst(cfg: Config, ip: string, w: World) returns (script: seq<Fault>)
    requires w.Valid() && w.script == []
    ensures With(w, script).Valid() && RolledBack(cfg, ip, With(w, script))
    ensures var (w', report, rolledBack) := Setup(cfg, ip, With(w, script));
      report == Report([RoutingTable], Some(ConnMark)) && rolledBack
  {
    hide RunSteps, Sweep, Migrate, Distinct;
    StepsInOrder();
    assert STEPS[..1] == [RoutingTable];
    script := FailsAt(cfg, ip, w, 1, []);
    RollbackWorks(cfg, ip, w, 1);
  }

  /** The object of a lost first creation outlives the rollback: the failing
      step's own kind is not among the applied ones. */
  lemma LostAnswerOutlivesRollback(cfg: Config, ip: string) returns (script: seq<Fault>)
    ensures var w := World([], 0, script);
      var (w', report, rolledBack) := Setup(cfg, ip, w);
      && w.Valid() && report == Report([], Some(RoutingTable)) && rolledBack
      && w'.objs == [Obj(0, Target(cfg, ip, RoutingTable, 0))]
  {
    var v := World([], 0, []);
    var table := Obj(0, Target(cfg, ip, RoutingTable, 0));
    assert v.Valid();
    StepsInOrder();
    assert STEPS != [] && STEPS[0] == RoutingTable;
    hide *;
    script := MigratesWith(cfg, v, [Works, AnswerLost]);
    WithIs(v, script);
    WithIs(v, [Works, AnswerLost]);
    TableCreationLost(cfg, ip);
    FirstStepFails(cfg, ip, STEPS, World([], 0, [Works, AnswerLost]), World([table], 1, []));
    SoleIsValid(table, []);
    RollsBackNothing(cfg, World([table], 1, []));
    SetupIs(cfg, ip, World([], 0, script), World([], 0, [Works, AnswerLost]));
    EmptyIsValid(script);
  }

  lemma EmptyIsValid(script: seq<Fault>)
    ensures World([], 0, script).Valid()
  {
  }

  lemma MigratesWith(cfg: Config, w: World, tail: seq<Fault>) returns (script: seq<Fault>)
    requires w.Valid() && w.script == [] && w.objs == []
    ensures Migrate(cfg, With(w, script)) == With(w, tail)
  {
    hide Sweep, Distinct, Keep;
    SweepsAll(cfg, Unmanaged, Legacy, w);
    SweepNothing(cfg, Legacy, w);
    script := SweepWith(cfg, Legacy, SWEEP, w, tail);
  }

  lemma RollsBackNothing(cfg: Config, w: World)
    requires w.Valid() && w.script == []
    ensures var (w', n) := Sweep(cfg, Applied([]), SWEEP, w); w'.objs == w.objs && n.Some?
  {
    hide Sweep, Distinct, Keep;
    SweepNothing(cfg, Applied([]), w);
    SweepsAll(cfg, Unmanaged, Applied([]), w);
  }

  lemma SetupIs(cfg: Config, ip: string, w: World, w0: World)
    requires Migrate(cfg, w) == w0 && RunSteps(cfg, ip, STEPS, [], w0).1.failed.Some?
    ensures var (w1, report) := RunSteps(cfg, ip, STEPS, [], w0);
      var (w2, n) := Sweep(cfg, Applied(report.applied), SWEEP, w1);
      Setup(cfg, ip, w) == (w2, report, n.Some?)
  {
    hide RunSteps, Sweep, Migrate;
  }

  lemma TableCreationLost(cfg: Config, ip: string)
    ensures Ensure(cfg, ip, RoutingTable, World([], 0, [Works, AnswerLost])) ==
      (World([Obj(0, Target(cfg, ip, RoutingTable, 0))], 1, []), false)
  {
    hide Target, Covers;
    assert [Works, AnswerLost][1..] == [AnswerLost] && [AnswerLost][1..] == [];
    assert !Covered(cfg, RoutingTable, 0, []);
    assert [] + [Obj(0, Target(cfg, ip, RoutingTable, 0))] == [Obj(0, Target(cfg, ip, RoutingTable, 0))];
  }

  lemma FirstStepFails(cfg: Config, ip: string, steps: seq<Kind>, w0: World, w1: World)
    requires steps != [] && Ensure(cfg, ip, steps[0], w0) == (w1, false)
    ensures RunSteps(cfg, ip, steps, [], w0) == (w1, Report([], Some(steps[0])))
  {
    hide Ensure;
  }

  // --- The operator's own entries ---

  /** An entry added through the API is left alone by setup and rollback unless
      its kind, its tag or a later field of its note spells a step's kind. */
  lemma EntryIsForeign(cfg: Config, kind: string, note: Option<string>, attrs: map<string, string>)
    requires IsLabel(kind)
    ensures var s := Spec(AddressList, Some(AddressComment(cfg.tag, kind, note)), attrs);
      Guards(cfg, Foreign, s) <==>
        forall k: Kind ::
          && Label(k) != kind && !Spells(cfg, k)
          && (note.Some? ==> "kind=" + Label(k) !in Fields(note.value)[1..])
  {
    hide Fields, IsLabel, Label, MatchesTag, IsLegacy, AddressComment, Spells, MatchesKind;
    var s := Spec(AddressList, Some(AddressComment(cfg.tag, kind, note)), attrs);
    forall k: Kind
      ensures !IsOld(cfg, s)
      ensures OfKind(cfg, s, k) <==>
        Label(k) == kind || Spells(cfg, k) || (note.Some? && "kind=" + Label(k) in Fields(note.value)[1..])
    {
      EntryOfKind(cfg, kind, note, attrs, k);
    }
    hide OfKind, IsOld;
    assert !IsOld(cfg, s) by { EntryOfKind(cfg, kind, note, attrs, RoutingTable); }
  }

  lemma EntryOfKind(cfg: Config, kind: string, note: Option<string>, attrs: map<string, string>, k: Kind)
    requires IsLabel(kind)
    ensures var s := Spec(AddressList, Some(AddressComment(cfg.tag, kind, note)), attrs);
      && !IsOld(cfg, s)
      && (OfKind(cfg, s, k) <==>
            Label(k) == kind || Spells(cfg, k) || (note.Some? && "kind=" + Label(k) in Fields(note.value)[1..]))
  {
    AddressEntry(cfg.tag, kind, note, Label(k));
    hide Fields, IsLabel, Label, MatchesTag, IsLegacy, AddressComment;
  }

  /** Notes of the form `x;kind=routing-table` do. */
  lemma NoteSpells(x: string, k: Kind)
    requires ';' !in x
    ensures "kind=" + Label(k) in Fields(x + ";" + ("kind=" + Label(k)))[1..]
  {
    LabelsAreLabels(k);
    assert !IsSpace("kind="[0]) && ';' !in "kind=";
    hide Fields, Trim, Label, IsLabel;
    var field := "kind=" + Label(k);
    HeadedLabel("kind=", Label(k));
    FieldsJoin(x, field);
    FieldsClean(x);
    assert Fields(x + ";" + field)[1..] == [field];
  }

  lemma EntryAtRisk(cfg: Config, kind: string, note: string, k: Kind, attrs: map<string, string>)
    requires IsLabel(kind) && k != Rfc1918 && "kind=" + Label(k) in Fields(note)[1..]
    ensures AtRisk(cfg, Spec(AddressList, Some(AddressComment(cfg.tag, kind, Some(note))), attrs))
  {
    hide AddressComment, OfKind, IsOld, Fields, Label, IsLabel;
    EntryOfKind(cfg, kind, Some(note), attrs, k);
  }

  lemma LosesSole(cfg: Config, ip: string, o: Obj) returns (script: seq<Fault>)
    requires o.id == 0 && AtRisk(cfg, o.spec)
    ensures var w := World([o], 1, script);
      w.Valid() && RolledBack(cfg, ip, w) && o !in Setup(cfg, ip, w).0.objs
  {
    hide *;
    var w := World([o], 1, []);
    SoleIsValid(o, []);
    script := LosesAll(cfg, ip, w);
    WithIs(w, script);
    SoleIsValid(o, script);
    AtRiskIsLost(cfg, ip, w, o, script);
  }

  lemma SoleIsValid(o: Obj, script: seq<Fault>)
    requires o.id == 0
    ensures World([o], 1, script).Valid()
  {
  }

  /** An operator's entry with this kind and note is deleted by the rollback of
      some failed run exactly when its kind, the tag or a later field of its note
      spells a step's kind other than the last. */
  lemma RollbackTakesEntry(
      cfg: Config, ip: string, w: World, kind: string, note: Option<string>, attrs: map<string, string>, id: nat)
    requires IsLabel(kind) && w.Valid()
    requires Obj(id, Spec(AddressList, Some(AddressComment(cfg.tag, kind, note)), attrs)) in w.objs
    ensures var entry := Obj(id, Spec(AddressList, Some(AddressComment(cfg.tag, kind, note)), attrs));
      (exists script :: RolledBack(cfg, ip, With(w, script)) && entry !in Setup(cfg, ip, With(w, script)).0.objs)
      <==> exists k: Kind :: k != Rfc1918 &&
             (Label(k) == kind || Spells(cfg, k) || (note.Some? && "kind=" + Label(k) in Fields(note.value)[1..]))
  {
    hide Setup, Distinct, RolledBack, OfKind, IsOld, Fields, Label, IsLabel, AddressComment, Spells;
    var entry := Obj(id, Spec(AddressList, Some(AddressComment(cfg.tag, kind, note)), attrs));
    forall k: Kind
      ensures !IsOld(cfg, entry.spec)
      ensures OfKind(cfg, entry.spec, k) <==>
        Label(k) == kind || Spells(cfg, k) || (note.Some? && "kind=" + Label(k) in Fields(note.value)[1..])
    {
      EntryOfKind(cfg, kind, note, attrs, k);
    }
    assert !IsOld(cfg, entry.spec) by { EntryOfKind(cfg, kind, note, attrs, RoutingTable); }
    ObjectIsLostWhen(cfg, ip, w, entry);
  }

  /** A run that loses an entry to its note, such as `x;kind=routing-table`. */
  lemma NoteLosesEntry(cfg: Config, ip: string, kind: string, x: string, k: Kind) returns (script: seq<Fault>)
    requires IsLabel(kind) && ';' !in x && k != Rfc1918
    ensures var note := x + ";" + ("kind=" + Label(k));
      var entry := Obj(0, Spec(AddressList, Some(AddressComment(cfg.tag, kind, Some(note))), map[]));
      var w := World([entry], 1, script);
      w.Valid() && RolledBack(cfg, ip, w) && entry !in Setup(cfg, ip, w).0.objs
  {
    hide *;
    var note := x + ";" + ("kind=" + Label(k));
    NoteSpells(x, k);
    EntryAtRisk(cfg, kind, note, k, map[]);
    script := LosesSole(cfg, ip, Obj(0, Spec(AddressList, Some(AddressComment(cfg.tag, kind, Some(note))), map[])));
  }
}
