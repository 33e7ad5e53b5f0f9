/** What a completed step has settled, what the steps create, and what they find
    already done; for every tag and every pattern of failures. */
module Settling {
  import opened Text
  import opened Comments
  import opened Router
  import opened PolicyRouting
  import opened Sweeping
  import opened Building

  ghost predicate NoStepKind(cfg: Config, objs: seq<Obj>) {
    forall o :: o in objs ==> !OfStepKind(cfg, o.spec)
  }

  ghost predicate NoLegacy(cfg: Config, objs: seq<Obj>) {
    forall o :: o in objs ==> !IsOld(cfg, o.spec)
  }

  ghost predicate SettledFrom(cfg: Config, k: Kind, i: nat, objs: seq<Obj>) {
    forall m :: i <= m < Wanted(k) ==> Covered(cfg, k, m, objs)
  }

  /** Everything step `k` wants is there. */
  ghost predicate Settled(cfg: Config, k: Kind, objs: seq<Obj>) {
    SettledFrom(cfg, k, 0, objs)
  }

  ghost predicate AllSettled(cfg: Config, kinds: seq<Kind>, objs: seq<Obj>) {
    forall k :: k in kinds ==> Settled(cfg, k, objs)
  }

  lemma CoveredMore(cfg: Config, k: Kind, i: nat, few: seq<Obj>, many: seq<Obj>)
    requires Covered(cfg, k, i, few) && forall o :: o in few ==> o in many
    ensures Covered(cfg, k, i, many)
  {
  }

  lemma CoveredOnPath(cfg: Config, k: Kind, i: nat, objs: seq<Obj>)
    ensures Covered(cfg, k, i, On(objs, PathOf(k))) <==> Covered(cfg, k, i, objs)
  {
  }

  lemma SettledMore(cfg: Config, k: Kind, few: seq<Obj>, many: seq<Obj>)
    requires Settled(cfg, k, few) && forall o :: o in few ==> o in many
    ensures Settled(cfg, k, many)
  {
    forall i | 0 <= i < Wanted(k) ensures Covered(cfg, k, i, many) { CoveredMore(cfg, k, i, few, many); }
  }

  lemma AllSettledMore(cfg: Config, kinds: seq<Kind>, few: seq<Obj>, many: seq<Obj>)
    requires AllSettled(cfg, kinds, few) && forall o :: o in few ==> o in many
    ensures AllSettled(cfg, kinds, many)
  {
    hide Settled;
    forall k | k in kinds ensures Settled(cfg, k, many) { SettledMore(cfg, k, few, many); }
  }

  // --- The listing a step works from ---

  ghost predicate ListingCurrent(cfg: Config, k: Kind, i: nat, listing: seq<Obj>, objs: seq<Obj>) {
    forall m :: i <= m < Wanted(k) ==> (Covered(cfg, k, m, listing) <==> Covered(cfg, k, m, objs))
  }

  lemma FreshListing(cfg: Config, k: Kind, objs: seq<Obj>)
    ensures ListingCurrent(cfg, k, 0, On(objs, PathOf(k)), objs)
  {
    forall m | 0 <= m < Wanted(k)
      ensures Covered(cfg, k, m, On(objs, PathOf(k))) <==> Covered(cfg, k, m, objs)
    {
      CoveredOnPath(cfg, k, m, objs);
    }
  }

  /** Creating one target of a step changes the check of none of its others. */
  lemma CreateCovers(cfg: Config, ip: string, k: Kind, i: nat, w: World, m: nat)
    requires i < Wanted(k) && m < Wanted(k)
    ensures var (w', ok) := CreateCall(w, Target(cfg, ip, k, i));
      && (i != m ==> (Covered(cfg, k, m, w'.objs) <==> Covered(cfg, k, m, w.objs)))
      && (ok ==> Covered(cfg, k, i, w'.objs))
  {
    hide Target, Covers, Spells;
    TargetCovers(cfg, ip, k, i, k, m);
    TargetCovers(cfg, ip, k, i, k, i);
    var o := Obj(w.nextId, Target(cfg, ip, k, i));
    assert o in w.objs + [o];
  }

  lemma CreateKeepsListing(cfg: Config, ip: string, k: Kind, i: nat, listing: seq<Obj>, w: World)
    requires i < Wanted(k) && ListingCurrent(cfg, k, i, listing, w.objs)
    ensures var (w', ok) := CreateCall(w, Target(cfg, ip, k, i));
      && ListingCurrent(cfg, k, i + 1, listing, w'.objs)
      && (ok ==> Covered(cfg, k, i, w'.objs))
  {
    hide Target, Covered;
    CreateCovers(cfg, ip, k, i, w, i);
    var w' := CreateCall(w, Target(cfg, ip, k, i)).0;
    forall m | i + 1 <= m < Wanted(k)
      ensures Covered(cfg, k, m, listing) <==> Covered(cfg, k, m, w'.objs)
    {
      CreateCovers(cfg, ip, k, i, w, m);
    }
  }

  // --- A completed step is settled ---

  lemma SettlesOneMore(cfg: Config, ip: string, k: Kind, i: nat, listing: seq<Obj>, w: World)
    requires w.Valid() && i < Wanted(k) && Covered(cfg, k, i, w.objs)
    ensures var objs' := CreateMissing(cfg, ip, k, i + 1, listing, w).0.objs;
      SettledFrom(cfg, k, i + 1, objs') ==> SettledFrom(cfg, k, i, objs')
  {
    CreateMissingGrows(cfg, ip, k, i + 1, listing, w);
    CoveredMore(cfg, k, i, w.objs, CreateMissing(cfg, ip, k, i + 1, listing, w).0.objs);
  }

  lemma {:induction false} CreateMissingSettles(
      cfg: Config, ip: string, k: Kind, i: nat, listing: seq<Obj>, w: World)
    requires w.Valid() && i <= Wanted(k) && ListingCurrent(cfg, k, i, listing, w.objs)
    ensures var (w', ok) := CreateMissing(cfg, ip, k, i, listing, w);
      ok ==> SettledFrom(cfg, k, i, w'.objs)
    decreases Wanted(k) - i
  {
    hide Target, Covered, CreateCall, Distinct, Keep, NewOnly;
    if i == Wanted(k) {
    } else if Covered(cfg, k, i, listing) {
      CreateMissingSettles(cfg, ip, k, i + 1, listing, w);
      SettlesOneMore(cfg, ip, k, i, listing, w);
    } else {
      var (w1, ok) := CreateCall(w, Target(cfg, ip, k, i));
      CreateGrows(cfg, ip, k, i, w);
      CreateKeepsListing(cfg, ip, k, i, listing, w);
      if ok {
        CreateMissingSettles(cfg, ip, k, i + 1, listing, w1);
        SettlesOneMore(cfg, ip, k, i, listing, w1);
      }
    }
  }

  lemma EnsureSettles(cfg: Config, ip: string, k: Kind, w: World)
    requires w.Valid()
    ensures var (w', ok) := Ensure(cfg, ip, k, w);
      ok ==> Settled(cfg, k, w'.objs)
  {
    hide CreateMissing, ListingCurrent, Covered, Distinct;
    FreshListing(cfg, k, w.objs);
    CreateMissingSettles(cfg, ip, k, 0, On(w.objs, PathOf(k)), w.Later());
  }

  /** Every step a run reports as applied is settled at its end. */
  lemma {:induction false} RunStepsSettle(cfg: Config, ip: string, todo: seq<Kind>, done: seq<Kind>, w: World)
    requires w.Valid() && AllSettled(cfg, done, w.objs)
    ensures var (w', report) := RunSteps(cfg, ip, todo, done, w);
      AllSettled(cfg, report.applied, w'.objs)
  {
    if todo == [] {
    } else {
      hide Settled, Ensure, Keep, Distinct, NewOnly;
      var (w1, ok) := Ensure(cfg, ip, todo[0], w);
      EnsureSettles(cfg, ip, todo[0], w);
      EnsureGrows(cfg, ip, todo[0], w);
      AllSettledMore(cfg, done, w.objs, w1.objs);
      if ok {
        RunStepsSettle(cfg, ip, todo[1..], done + [todo[0]], w1);
      }
    }
  }

  // --- A settled step creates nothing ---

  lemma {:induction false} CreateNothing(cfg: Config, ip: string, k: Kind, i: nat, listing: seq<Obj>, w: World)
    requires i <= Wanted(k) && SettledFrom(cfg, k, i, listing)
    ensures CreateMissing(cfg, ip, k, i, listing, w) == (w, true)
    decreases Wanted(k) - i
  {
    if i == Wanted(k) {
    } else {
      CreateNothing(cfg, ip, k, i + 1, listing, w);
    }
  }

  lemma EnsureNothing(cfg: Config, ip: string, k: Kind, w: World)
    requires Settled(cfg, k, w.objs)
    ensures Ensure(cfg, ip, k, w) == (w.Later(), w.Fate() == Works)
  {
    FreshListing(cfg, k, w.objs);
    CreateNothing(cfg, ip, k, 0, On(w.objs, PathOf(k)), w.Later());
  }

  lemma {:induction false} RunStepsNothing(cfg: Config, ip: string, todo: seq<Kind>, done: seq<Kind>, w: World)
    requires AllSettled(cfg, todo, w.objs)
    ensures RunSteps(cfg, ip, todo, done, w).0.objs == w.objs
  {
    if todo == [] {
    } else {
      hide Ensure, Settled;
      EnsureNothing(cfg, ip, todo[0], w);
      RunStepsNothing(cfg, ip, todo[1..], done + [todo[0]], Ensure(cfg, ip, todo[0], w).0);
    }
  }

  // --- Only targets are created ---

  /** A target of one of the kinds that these objects do not cover. */
  ghost predicate IsTarget(cfg: Config, ip: string, kinds: seq<Kind>, objs: seq<Obj>, s: Spec) {
    exists k, i :: k in kinds && 0 <= i < Wanted(k) && s == Target(cfg, ip, k, i) && !Covered(cfg, k, i, objs)
  }

  /** The second list has everything in the first, and whatever else it has is
      such a target. */
  ghost predicate AddsTargets(cfg: Config, ip: string, kinds: seq<Kind>, objs: seq<Obj>, objs': seq<Obj>) {
    && (forall o :: o in objs ==> o in objs')
    && forall o :: o in objs' && o !in objs ==> IsTarget(cfg, ip, kinds, objs, o.spec)
  }

  lemma StillTarget(cfg: Config, ip: string, few: seq<Kind>, a: seq<Obj>, all: seq<Kind>, b: seq<Obj>, s: Spec)
    requires IsTarget(cfg, ip, few, b, s) && (forall o :: o in a ==> o in b) && forall k :: k in few ==> k in all
    ensures IsTarget(cfg, ip, all, a, s)
  {
    hide Target, Covers;
    var k, i :| k in few && 0 <= i < Wanted(k) && s == Target(cfg, ip, k, i) && !Covered(cfg, k, i, b);
    assert !Covered(cfg, k, i, a);
  }

  lemma AddsMore(
      cfg: Config, ip: string, few: seq<Kind>, a: seq<Obj>, b: seq<Obj>, more: seq<Kind>, c: seq<Obj>, all: seq<Kind>)
    requires AddsTargets(cfg, ip, few, a, b) && AddsTargets(cfg, ip, more, b, c)
    requires forall k :: k in few || k in more ==> k in all
    ensures AddsTargets(cfg, ip, all, a, c)
  {
    hide IsTarget;
    forall o | o in c && o !in a ensures IsTarget(cfg, ip, all, a, o.spec) {
      if o in b {
        StillTarget(cfg, ip, few, a, all, a, o.spec);
      } else {
        StillTarget(cfg, ip, more, a, all, b, o.spec);
      }
    }
  }

  lemma CreateAdds(cfg: Config, ip: string, k: Kind, i: nat, w: World)
    requires i < Wanted(k) && !Covered(cfg, k, i, w.objs)
    ensures AddsTargets(cfg, ip, [k], w.objs, CreateCall(w, Target(cfg, ip, k, i)).0.objs)
  {
    hide Target, Covered;
    assert k in [k];
  }

  lemma {:induction false} CreateMissingAdds(cfg: Config, ip: string, k: Kind, i: nat, listing: seq<Obj>, w: World)
    requires i <= Wanted(k) && ListingCurrent(cfg, k, i, listing, w.objs)
    ensures AddsTargets(cfg, ip, [k], w.objs, CreateMissing(cfg, ip, k, i, listing, w).0.objs)
    decreases Wanted(k) - i
  {
    hide Target, Covered, AddsTargets, CreateCall;
    if i == Wanted(k) {
      AddsNothing(cfg, ip, [k], w.objs);
    } else if Covered(cfg, k, i, listing) {
      CreateMissingAdds(cfg, ip, k, i + 1, listing, w);
    } else {
      var (w1, ok) := CreateCall(w, Target(cfg, ip, k, i));
      CreateAdds(cfg, ip, k, i, w);
      CreateKeepsListing(cfg, ip, k, i, listing, w);
      if ok {
        CreateMissingAdds(cfg, ip, k, i + 1, listing, w1);
        AddsMore(cfg, ip, [k], w.objs, w1.objs, [k], CreateMissing(cfg, ip, k, i + 1, listing, w1).0.objs, [k]);
      }
    }
  }

  lemma EnsureAdds(cfg: Config, ip: string, k: Kind, w: World)
    ensures AddsTargets(cfg, ip, [k], w.objs, Ensure(cfg, ip, k, w).0.objs)
  {
    hide AddsTargets, CreateMissing, ListingCurrent;
    AddsNothing(cfg, ip, [k], w.objs);
    FreshListing(cfg, k, w.objs);
    CreateMissingAdds(cfg, ip, k, 0, On(w.objs, PathOf(k)), w.Later());
  }

  /** A run adds targets of the steps it came to, each missing at its start. */
  lemma {:induction false} RunStepsAdd(cfg: Config, ip: string, todo: seq<Kind>, done: seq<Kind>, w: World)
    ensures var (w', report) := RunSteps(cfg, ip, todo, done, w);
      AddsTargets(cfg, ip, Ran(report), w.objs, w'.objs) && done <= report.applied
  {
    hide AddsTargets, Ensure;
    if todo == [] {
      AddsNothing(cfg, ip, done, w.objs);
      assert done + [] == done;
    } else {
      var (w1, ok) := Ensure(cfg, ip, todo[0], w);
      EnsureAdds(cfg, ip, todo[0], w);
      var (w', report) := RunSteps(cfg, ip, todo, done, w);
      if ok {
        RunStepsAdd(cfg, ip, todo[1..], done + [todo[0]], w1);
        RanMore(todo[0], done, report);
        assert done <= done + [todo[0]];
        AddsMore(cfg, ip, [todo[0]], w.objs, w1.objs, Ran(report), w'.objs, Ran(report));
      } else {
        assert todo[0] in Ran(report);
        AddsNothing(cfg, ip, [], w1.objs);
        AddsMore(cfg, ip, [todo[0]], w.objs, w1.objs, [], w1.objs, Ran(report));
      }
    }
  }

  lemma AddsNothing(cfg: Config, ip: string, kinds: seq<Kind>, objs: seq<Obj>)
    ensures AddsTargets(cfg, ip, kinds, objs, objs)
  {
  }

  /** A failed run stops at the step after the applied ones. */
  lemma StopsAt(cfg: Config, ip: string, w: World)
    ensures var report := RunSteps(cfg, ip, STEPS, [], w).1;
      var n := |report.applied|;
      if report.failed.None? then report.applied == STEPS
      else n < |STEPS| && report.applied == STEPS[..n] && report.failed == Some(STEPS[n])
  {
    hide *;
    RunStepsOrder(cfg, ip, STEPS, [], w);
    assert [] + STEPS == STEPS;
    var report := RunSteps(cfg, ip, STEPS, [], w).1;
    if report.failed.Some? { PrefixStops(report, STEPS); }
  }

  lemma PrefixStops(report: Report, steps: seq<Kind>)
    requires Ran(report) <= steps && report.failed.Some?
    ensures var n := |report.applied|;
      n < |steps| && report.applied == steps[..n] && report.failed == Some(steps[n])
  {
    var n := |report.applied|;
    assert Ran(report)[n] == report.failed.value && Ran(report)[..n] == report.applied;
  }

  // --- And each at most once ---

  ghost predicate AtMostOnce(cfg: Config, ip: string, objs: seq<Obj>) {
    forall k: Kind, i :: 0 <= i < Wanted(k) ==> Bag(objs)[Target(cfg, ip, k, i)] <= 1
  }

  lemma UncoveredIsNotThere(cfg: Config, ip: string, k: Kind, i: nat, objs: seq<Obj>)
    requires i < Wanted(k) && !Covered(cfg, k, i, objs)
    ensures Bag(objs)[Target(cfg, ip, k, i)] == 0
  {
    hide Target, Covers;
    var t := Target(cfg, ip, k, i);
    if t in Bag(objs) {
      BagHas(objs, t);
      TargetCovers(cfg, ip, k, i, k, i);
    }
  }

  lemma {:induction false} CreateMissingOnce(cfg: Config, ip: string, k: Kind, i: nat, listing: seq<Obj>, w: World)
    requires i <= Wanted(k) && ListingCurrent(cfg, k, i, listing, w.objs) && AtMostOnce(cfg, ip, w.objs)
    ensures AtMostOnce(cfg, ip, CreateMissing(cfg, ip, k, i, listing, w).0.objs)
    decreases Wanted(k) - i
  {
    hide Target, Covered, Bag;
    if i == Wanted(k) {
    } else if Covered(cfg, k, i, listing) {
      CreateMissingOnce(cfg, ip, k, i + 1, listing, w);
    } else {
      var (w1, ok) := CreateCall(w, Target(cfg, ip, k, i));
      UncoveredIsNotThere(cfg, ip, k, i, w.objs);
      BagAppend(w.objs, Obj(w.nextId, Target(cfg, ip, k, i)));
      CreateKeepsListing(cfg, ip, k, i, listing, w);
      if ok { CreateMissingOnce(cfg, ip, k, i + 1, listing, w1); }
    }
  }

  lemma {:induction false} RunStepsOnce(cfg: Config, ip: string, todo: seq<Kind>, done: seq<Kind>, w: World)
    requires AtMostOnce(cfg, ip, w.objs)
    ensures AtMostOnce(cfg, ip, RunSteps(cfg, ip, todo, done, w).0.objs)
  {
    if todo == [] {
    } else {
      hide AtMostOnce, CreateMissing, ListingCurrent;
      FreshListing(cfg, todo[0], w.objs);
      CreateMissingOnce(cfg, ip, todo[0], 0, On(w.objs, PathOf(todo[0])), w.Later());
      var (w1, ok) := Ensure(cfg, ip, todo[0], w);
      if ok { RunStepsOnce(cfg, ip, todo[1..], done + [todo[0]], w1); }
    }
  }

  lemma ShrinkOnce(cfg: Config, ip: string, w: World, w': World)
    requires AtMostOnce(cfg, ip, w.objs) && Bag(w'.objs) <= Bag(w.objs)
    ensures AtMostOnce(cfg, ip, w'.objs)
  {
    hide Target, Bag;
    forall k: Kind, i | 0 <= i < Wanted(k) ensures Bag(w'.objs)[Target(cfg, ip, k, i)] <= 1 {
      assert Bag(w'.objs)[Target(cfg, ip, k, i)] <= Bag(w.objs)[Target(cfg, ip, k, i)];
    }
  }

  lemma FreshOnce(cfg: Config, ip: string, objs: seq<Obj>)
    requires NoStepKind(cfg, objs)
    ensures AtMostOnce(cfg, ip, objs)
  {
    hide Target, OfKind;
    forall k: Kind, i | 0 <= i < Wanted(k) ensures Bag(objs)[Target(cfg, ip, k, i)] <= 1 {
      var t := Target(cfg, ip, k, i);
      TargetOwned(cfg, ip, k, i);
      assert OfStepKind(cfg, t);
      BagHas(objs, t);
    }
  }

  // --- Nothing legacy is created ---

  lemma StepsAddNoLegacy(cfg: Config, ip: string, w: World)
    requires w.Valid() && NoLegacy(cfg, w.objs)
    ensures NoLegacy(cfg, RunSteps(cfg, ip, STEPS, [], w).0.objs)
  {
    hide RunSteps, IsOld, OfKind, Keep, Distinct;
    var (w', report) := RunSteps(cfg, ip, STEPS, [], w);
    RunStepsGrow(cfg, ip, STEPS, [], w);
    forall o | o in w'.objs && o !in w.objs ensures !IsOld(cfg, o.spec) {
      var k :| k in Ran(report) && OfKind(cfg, o.spec, k);
      KindIsNotOld(cfg, o.spec, k);
    }
  }

  lemma KindIsNotOld(cfg: Config, s: Spec, k: Kind)
    requires OfKind(cfg, s, k)
    ensures !IsOld(cfg, s)
  {
    KindIsNotLegacy(s.comment.value, cfg.tag, Label(k));
  }

  lemma KindIsNotLegacy(c: string, tag: string, kind: string)
    requires MatchesKind(c, tag, kind)
    ensures !IsLegacy(c, tag)
  {
    assert "kind=" <= "kind=" + kind;
  }

  // --- One step of a run ---

  lemma NextStep(cfg: Config, ip: string, steps: seq<Kind>, n: nat, w: World)
    requires n < |steps|
    ensures var (w1, ok) := Ensure(cfg, ip, steps[n], w);
      RunSteps(cfg, ip, steps[n..], steps[..n], w) ==
      if ok then RunSteps(cfg, ip, steps[n + 1..], steps[..n + 1], w1) else (w1, Report(steps[..n], Some(steps[n])))
  {
    hide Ensure;
    assert steps[n..][0] == steps[n] && steps[n..][1..] == steps[n + 1..] && steps[..n] + [steps[n]] == steps[..n + 1];
  }

  // --- Other paths ---

  lemma OnAppend(objs: seq<Obj>, o: Obj, p: Path)
    ensures On(objs + [o], p) == On(objs, p) + if o.spec.path == p then [o] else []
  {
    assert (objs + [o])[..|objs|] == objs;
  }

  lemma CreatedElsewhere(cfg: Config, ip: string, k: Kind, i: nat, w: World, p: Path)
    requires i < Wanted(k) && PathOf(k) != p
    ensures On(CreateCall(w, Target(cfg, ip, k, i)).0.objs, p) == On(w.objs, p)
  {
    hide Target, On;
    TargetOwned(cfg, ip, k, i);
    OnAppend(w.objs, Obj(w.nextId, Target(cfg, ip, k, i)), p);
  }

  lemma {:induction false} CreatesElsewhere(cfg: Config, ip: string, k: Kind, i: nat, listing: seq<Obj>, w: World, p: Path)
    requires i <= Wanted(k) && PathOf(k) != p
    ensures On(CreateMissing(cfg, ip, k, i, listing, w).0.objs, p) == On(w.objs, p)
    decreases Wanted(k) - i
  {
    hide Target, Covered, On, CreateCall;
    if i == Wanted(k) {
    } else if Covered(cfg, k, i, listing) {
      CreatesElsewhere(cfg, ip, k, i + 1, listing, w, p);
    } else {
      var (w1, ok) := CreateCall(w, Target(cfg, ip, k, i));
      CreatedElsewhere(cfg, ip, k, i, w, p);
      if ok { CreatesElsewhere(cfg, ip, k, i + 1, listing, w1, p); }
    }
  }

  lemma {:induction false} RunStepsElsewhere(cfg: Config, ip: string, todo: seq<Kind>, done: seq<Kind>, w: World, p: Path)
    requires forall k :: k in todo ==> PathOf(k) != p
    ensures On(RunSteps(cfg, ip, todo, done, w).0.objs, p) == On(w.objs, p)
  {
    hide CreateMissing;
    if todo == [] {
    } else {
      CreatesElsewhere(cfg, ip, todo[0], 0, On(w.objs, PathOf(todo[0])), w.Later(), p);
      RunStepsElsewhere(cfg, ip, todo[1..], done + [todo[0]], Ensure(cfg, ip, todo[0], w).0, p);
    }
  }

  lemma {:induction false} WithoutElsewhere(objs: seq<Obj>, q: Path, id: nat, p: Path)
    requires q != p
    ensures On(Without(objs, q, id), p) == On(objs, p)
  {
    if objs == [] {
    } else {
      var n := |objs| - 1;
      WithoutElsewhere(objs[..n], q, id, p);
      if !At(objs[n], q, id) {
        OnAppend(Without(objs[..n], q, id), objs[n], p);
      } else {
        assert Without(objs, q, id) == Without(objs[..n], q, id);
      }
    }
  }

  lemma {:induction false} DeletesElsewhere(cfg: Config, sel: Selector, listing: seq<Obj>, w: World, p: Path)
    requires forall o :: o in listing ==> o.spec.path != p
    ensures On(DeleteSelected(cfg, sel, listing, w).0.objs, p) == On(w.objs, p)
  {
    hide Selects, On, Without;
    if listing == [] {
    } else if !Selects(cfg, sel, listing[0].spec) {
      DeletesElsewhere(cfg, sel, listing[1..], w, p);
    } else {
      WithoutElsewhere(w.objs, listing[0].spec.path, listing[0].id, p);
      DeletesElsewhere(cfg, sel, listing[1..], DeleteCall(w, listing[0].spec.path, listing[0].id).0, p);
    }
  }

  lemma {:induction false} SweepsElsewhere(cfg: Config, sel: Selector, paths: seq<Path>, w: World, p: Path)
    requires p !in paths
    ensures On(Sweep(cfg, sel, paths, w).0.objs, p) == On(w.objs, p)
  {
    hide DeleteSelected;
    if paths == [] {
    } else {
      DeletesElsewhere(cfg, sel, On(w.objs, paths[0]), w.Later(), p);
      SweepsElsewhere(cfg, sel, paths[1..], SweepPath(cfg, sel, paths[0], w).0, p);
    }
  }
}
