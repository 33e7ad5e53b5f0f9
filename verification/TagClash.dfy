/** What the tag may spell: objects match exactly their own kind if it spells
    none, and re-running `setup` converges exactly for the harmless ones. */
module TagClash {
  import opened Text
  import opened Comments
  import opened Router
  import opened PolicyRouting
  import opened Sweeping
  import opened Building
  import opened Settling
  import opened Scripting
  import opened Convergence

  /** Every object the steps create matches its own kind and no other exactly
      when the tag spells none. */
  lemma OwnKindOnly(cfg: Config, ip: string)
    ensures (forall k: Kind :: !Spells(cfg, k)) <==>
      forall k: Kind, i, j: Kind :: 0 <= i < Wanted(k) ==> (OfKind(cfg, Target(cfg, ip, k, i), j) <==> j == k)
  {
    hide Target, OfKind, Spells;
    if j: Kind :| Spells(cfg, j) {
      var k := if j.ConnMark? then MssClamp else ConnMark;
      TargetKind(cfg, ip, k, 0, j);
      assert 0 < Wanted(k) && OfKind(cfg, Target(cfg, ip, k, 0), j) && j != k;
    } else {
      forall k: Kind, i, j: Kind | 0 <= i < Wanted(k)
        ensures OfKind(cfg, Target(cfg, ip, k, i), j) <==> j == k
      {
        TargetKind(cfg, ip, k, i, j);
      }
    }
  }

  // --- What the steps build on an empty router ---

  const NOTHING: World := World([], 0, [])

  function After(cfg: Config, ip: string, n: nat): World
    requires n <= |STEPS|
  {
    RunSteps(cfg, ip, STEPS[..n], [], NOTHING).0
  }

  lemma AfterIsFine(cfg: Config, ip: string, n: nat)
    requires n <= |STEPS|
    ensures After(cfg, ip, n).Valid() && After(cfg, ip, n).script == []
    ensures After(cfg, ip, 0) == NOTHING
    ensures n < |STEPS| ==> After(cfg, ip, n + 1) == Ensure(cfg, ip, STEPS[n], After(cfg, ip, n)).0
  {
    assert NOTHING.Valid() && STEPS[..0] == [];
    if n < |STEPS| { AfterNext(cfg, ip, STEPS, n, NOTHING); }
    hide Distinct, Ensure, STEPS, Keep, NewOnly;
    RunStepsGrow(cfg, ip, STEPS[..n], [], NOTHING);
  }

  lemma AfterNext(cfg: Config, ip: string, steps: seq<Kind>, n: nat, w: World)
    requires n < |steps| && w.script == []
    ensures RunSteps(cfg, ip, steps[..n + 1], [], w).0 == Ensure(cfg, ip, steps[n], RunSteps(cfg, ip, steps[..n], [], w).0).0
  {
    hide Ensure;
    assert steps[..n + 1] == steps[..n] + [steps[n]];
    var none := StepsWith(cfg, ip, steps[..n], [], w, []);
    RunStepsSplit(cfg, ip, steps[..n], [steps[n]], [], w);
  }

  lemma StepElsewhere(cfg: Config, ip: string, n: nat, k: Kind, p: Path)
    requires n < |STEPS| && STEPS[n] == k && PathOf(k) != p
    ensures On(After(cfg, ip, n + 1).objs, p) == On(After(cfg, ip, n).objs, p)
  {
    hide CreateMissing, On, After, STEPS;
    AfterIsFine(cfg, ip, n);
    var w := After(cfg, ip, n);
    CreatesElsewhere(cfg, ip, k, 0, On(w.objs, PathOf(k)), w.Later(), p);
  }

  /** A step that looks for its kind alone adds its object to the path unless
      the path already has one of the kind. */
  lemma StepHere(cfg: Config, ip: string, n: nat, k: Kind, here: seq<Obj>)
    requires n < |STEPS| && STEPS[n] == k && Plain(k) && here == On(After(cfg, ip, n).objs, PathOf(k))
    ensures Wanted(k) == 1
    ensures On(After(cfg, ip, n + 1).objs, PathOf(k)) ==
      if Covered(cfg, k, 0, here) then here else here + [Obj(After(cfg, ip, n).nextId, Target(cfg, ip, k, 0))]
  {
    hide Target, Covered, On, After, STEPS;
    AfterIsFine(cfg, ip, n);
    PlainStep(cfg, ip, k, After(cfg, ip, n));
  }

  lemma EnsurePlain(cfg: Config, ip: string, k: Kind, w: World)
    requires Plain(k) && w.script == []
    ensures Wanted(k) == 1
    ensures Ensure(cfg, ip, k, w).0.objs ==
      if Covered(cfg, k, 0, On(w.objs, PathOf(k))) then w.objs else w.objs + [Obj(w.nextId, Target(cfg, ip, k, 0))]
  {
    hide Target, Covers, On;
    var listing := On(w.objs, PathOf(k));
    assert CreateMissing(cfg, ip, k, 1, listing, CreateCall(w, Target(cfg, ip, k, 0)).0).1;
  }

  lemma PlainStep(cfg: Config, ip: string, k: Kind, w: World)
    requires Plain(k) && w.script == []
    ensures Wanted(k) == 1
    ensures var here := On(w.objs, PathOf(k));
      On(Ensure(cfg, ip, k, w).0.objs, PathOf(k)) ==
      if Covered(cfg, k, 0, here) then here else here + [Obj(w.nextId, Target(cfg, ip, k, 0))]
  {
    hide Target, Covered, On, Ensure;
    EnsurePlain(cfg, ip, k, w);
    TargetOwned(cfg, ip, k, 0);
    OnAppend(w.objs, Obj(w.nextId, Target(cfg, ip, k, 0)), PathOf(k));
  }

  lemma FirstHere(cfg: Config, ip: string, n: nat, k: Kind) returns (a: Obj)
    requires n < |STEPS| && STEPS[n] == k && Plain(k) && On(After(cfg, ip, n).objs, PathOf(k)) == []
    ensures Wanted(k) == 1 && a.spec == Target(cfg, ip, k, 0)
    ensures On(After(cfg, ip, n + 1).objs, PathOf(k)) == [a]
  {
    hide Target, Covers, On, After, STEPS;
    StepHere(cfg, ip, n, k, []);
    a := Obj(After(cfg, ip, n).nextId, Target(cfg, ip, k, 0));
    assert [] + [a] == [a];
  }

  /** What the next step of the path makes of the first object. */
  lemma NextHere(cfg: Config, ip: string, n: nat, k: Kind, a: Obj, j: Kind) returns (b: Obj)
    requires n < |STEPS| && STEPS[n] == j && Plain(k) && Plain(j) && PathOf(j) == PathOf(k) && j != k
    requires a.spec == Target(cfg, ip, k, 0) && On(After(cfg, ip, n).objs, PathOf(k)) == [a]
    ensures Wanted(j) == 1 && b.spec == Target(cfg, ip, j, 0) && b.id != a.id
    ensures On(After(cfg, ip, n + 1).objs, PathOf(k)) == if Spells(cfg, j) then [a] else [a, b]
  {
    hide Target, Covered, On, After, STEPS, Spells;
    StepHere(cfg, ip, n, j, [a]);
    OneCovers(cfg, ip, k, a, j);
    SecondIsNew(cfg, ip, n, a, PathOf(k));
    b := Obj(After(cfg, ip, n).nextId, Target(cfg, ip, j, 0));
    assert [a] + [b] == [a, b];
  }

  lemma OneCovers(cfg: Config, ip: string, k: Kind, o: Obj, j: Kind)
    requires Plain(k) && Plain(j) && PathOf(j) == PathOf(k) && j != k && o.spec == Target(cfg, ip, k, 0)
    ensures Covered(cfg, j, 0, [o]) <==> Spells(cfg, j)
  {
    hide Target, Covers, Spells;
    TargetCovers(cfg, ip, k, 0, j, 0);
    assert o in [o];
  }

  /** After `n` steps the path of `k` holds an object of `k` and then one of `j`. */
  ghost predicate Pair(cfg: Config, ip: string, k: Kind, j: Kind, n: nat) {
    n < |STEPS| && k in STEPS[..n] && j in STEPS[..n] &&
    Plain(k) && Plain(j) && PathOf(j) == PathOf(k) && j != k &&
    exists a, b ::
      && On(After(cfg, ip, n).objs, PathOf(k)) == [a, b] && a.id != b.id
      && a.spec == Target(cfg, ip, k, 0) && b.spec == Target(cfg, ip, j, 0)
  }

  lemma SecondIsNew(cfg: Config, ip: string, n: nat, a: Obj, p: Path)
    requires n <= |STEPS| && On(After(cfg, ip, n).objs, p) == [a]
    ensures a.id != After(cfg, ip, n).nextId
  {
    AfterIsFine(cfg, ip, n);
    hide After, STEPS;
    assert a in On(After(cfg, ip, n).objs, p);
  }

  lemma IsPair(cfg: Config, ip: string, k: Kind, j: Kind, m: nat, n: nat, a: Obj, b: Obj)
    requires m < n < |STEPS| && STEPS[m] == k && STEPS[n - 1] == j
    requires Plain(k) && Plain(j) && PathOf(j) == PathOf(k) && j != k
    requires On(After(cfg, ip, n).objs, PathOf(k)) == [a, b] && a.id != b.id
    requires a.spec == Target(cfg, ip, k, 0) && b.spec == Target(cfg, ip, j, 0)
    ensures Pair(cfg, ip, k, j, n)
  {
    hide On, After, STEPS, Target;
    assert STEPS[..n][m] == k && STEPS[..n][n - 1] == j;
  }

  lemma NothingAtFirst(cfg: Config, ip: string, p: Path)
    ensures On(After(cfg, ip, 0).objs, p) == []
  {
    AfterIsFine(cfg, ip, 0);
  }

  /** The second and, if it is not there, the third mangle step's object. */
  lemma PairMangle(cfg: Config, ip: string)
    requires !Spells(cfg, RoutingMark) || !Spells(cfg, MssClamp)
    ensures if !Spells(cfg, RoutingMark) then Pair(cfg, ip, ConnMark, RoutingMark, 3)
      else Pair(cfg, ip, ConnMark, MssClamp, 4)
  {
    StepsInOrder();
    hide RunSteps, Target, STEPS, Spells, After, On, Pair;
    NothingAtFirst(cfg, ip, Mangle);
    StepElsewhere(cfg, ip, 0, RoutingTable, Mangle);
    var a := FirstHere(cfg, ip, 1, ConnMark);
    var b := NextHere(cfg, ip, 2, ConnMark, a, RoutingMark);
    if !Spells(cfg, RoutingMark) {
      IsPair(cfg, ip, ConnMark, RoutingMark, 1, 3, a, b);
    } else {
      var c := NextHere(cfg, ip, 3, ConnMark, a, MssClamp);
      IsPair(cfg, ip, ConnMark, MssClamp, 1, 4, a, c);
    }
  }

  lemma PairRoutes(cfg: Config, ip: string)
    requires !Spells(cfg, KillSwitch)
    ensures Pair(cfg, ip, DefaultRoute, KillSwitch, 6)
  {
    StepsInOrder();
    hide RunSteps, Target, STEPS, Spells, After, On, Pair;
    NothingAtFirst(cfg, ip, Route);
    StepElsewhere(cfg, ip, 0, RoutingTable, Route);
    StepElsewhere(cfg, ip, 1, ConnMark, Route);
    StepElsewhere(cfg, ip, 2, RoutingMark, Route);
    StepElsewhere(cfg, ip, 3, MssClamp, Route);
    var a := FirstHere(cfg, ip, 4, DefaultRoute);
    var b := NextHere(cfg, ip, 5, DefaultRoute, a, KillSwitch);
    IsPair(cfg, ip, DefaultRoute, KillSwitch, 4, 6, a, b);
  }

  // --- A rollback that stops between the two ---

  lemma {:induction false} SweepSplit(cfg: Config, sel: Selector, a: seq<Path>, b: seq<Path>, w: World)
    requires Sweep(cfg, sel, a, w).1.Some? && Sweep(cfg, sel, b, Sweep(cfg, sel, a, w).0).1.None?
    ensures Sweep(cfg, sel, a + b, w) == Sweep(cfg, sel, b, Sweep(cfg, sel, a, w).0)
  {
    hide SweepPath;
    if a == [] {
      assert a + b == b;
    } else {
      assert (a + b)[0] == a[0] && (a + b)[1..] == a[1..] + b;
      SweepSplit(cfg, sel, a[1..], b, SweepPath(cfg, sel, a[0], w).0);
    }
  }

  /** One deletion, and then a refusal. */
  lemma DeletesOne(cfg: Config, sel: Selector, p: Path, w: World, a: Obj, b: Obj)
    requires a.spec.path == p && b.spec.path == p && a in w.objs
    requires Selects(cfg, sel, a.spec) && Selects(cfg, sel, b.spec)
    ensures DeleteSelected(cfg, sel, [a, b], With(w, [Works, Refused])) ==
      (World(Without(w.objs, p, a.id), w.nextId, []), None)
  {
    hide Selects, Without;
    assert [Works, Refused][1..] == [Refused] && [Refused][1..] == [];
    var w1, w2 := With(w, [Works, Refused]), World(Without(w.objs, p, a.id), w.nextId, [Refused]);
    assert At(a, p, a.id);
    assert DeleteCall(w1, p, a.id) == (w2, true);
    assert DeleteCall(w2, p, b.id) == (w2.(script := []), false);
    assert [a, b][1..] == [b] && [b][0] == b && [a, b][0] == a;
  }

  /** Listing, one deletion, and then a refusal. */
  lemma StopsBetween(cfg: Config, sel: Selector, p: Path, w: World, a: Obj, b: Obj)
    requires On(w.objs, p) == [a, b] && a.id != b.id && Selects(cfg, sel, a.spec) && Selects(cfg, sel, b.spec)
    ensures SweepPath(cfg, sel, p, With(w, [Works, Works, Refused])) ==
      (World(Without(w.objs, p, a.id), w.nextId, []), None)
    ensures forall o :: o in Without(w.objs, p, a.id) && o.spec.path == p <==> o == b
  {
    OnlyTwo(w.objs, p, a, b);
    hide Selects, On, Without, DeleteSelected;
    DeletesOne(cfg, sel, p, w, a, b);
    assert [Works, Works, Refused][1..] == [Works, Refused];
  }

  lemma OnlyTwo(objs: seq<Obj>, p: Path, a: Obj, b: Obj)
    requires On(objs, p) == [a, b] && a.id != b.id
    ensures a in objs && a.spec.path == p && b.spec.path == p
    ensures forall o :: o in Without(objs, p, a.id) && o.spec.path == p <==> o == b
  {
    hide On, Without;
    assert a in On(objs, p) && b in On(objs, p);
    forall o | o in objs && o.spec.path == p ensures o == a || o == b { assert o in On(objs, p); }
  }

  /** The paths swept before and after one. */
  lemma SweepAround(p: Path) returns (before: seq<Path>, after: seq<Path>)
    ensures SWEEP == before + ([p] + after) && p !in before
  {
    EveryPathSwept(p);
    var i := match p
      case Filter => 0 case Nat => 1 case Mangle => 2 case Route => 3 case AddressList => 4 case Table => 5;
    before, after := SWEEP[..i], SWEEP[i + 1..];
  }

  /** A rollback that deletes `k`'s object and is refused `j`'s. */
  lemma RollbackStops(cfg: Config, ip: string, k: Kind, j: Kind, n: nat)
    returns (script: seq<Fault>, a: Obj, b: Obj, w': World)
    requires Pair(cfg, ip, k, j, n)
    ensures Sweep(cfg, Applied(STEPS[..n]), SWEEP, With(After(cfg, ip, n), script)) == (w', None)
    ensures b.spec == Target(cfg, ip, j, 0) && forall o :: o in w'.objs && o.spec.path == PathOf(k) <==> o == b
    ensures w'.script == [] && w'.Valid() && forall o :: o in w'.objs ==> o in After(cfg, ip, n).objs
  {
    assert Respects(Unmanaged, Applied(STEPS[..n]));
    a, b := PairOf(cfg, ip, k, j, n);
    AfterIsFine(cfg, ip, n);
    BothApplied(cfg, ip, k, j, n, a, b);
    hide *;
    script, w' := StopsInPath(cfg, Applied(STEPS[..n]), PathOf(k), After(cfg, ip, n), a, b);
  }

  lemma PairOf(cfg: Config, ip: string, k: Kind, j: Kind, n: nat) returns (a: Obj, b: Obj)
    requires Pair(cfg, ip, k, j, n)
    ensures On(After(cfg, ip, n).objs, PathOf(k)) == [a, b] && a.id != b.id
    ensures a.spec == Target(cfg, ip, k, 0) && b.spec == Target(cfg, ip, j, 0)
  {
    hide After, On, Target, STEPS;
    a, b :| On(After(cfg, ip, n).objs, PathOf(k)) == [a, b] && a.id != b.id
      && a.spec == Target(cfg, ip, k, 0) && b.spec == Target(cfg, ip, j, 0);
  }

  lemma BothApplied(cfg: Config, ip: string, k: Kind, j: Kind, n: nat, a: Obj, b: Obj)
    requires Pair(cfg, ip, k, j, n) && a.spec == Target(cfg, ip, k, 0) && b.spec == Target(cfg, ip, j, 0)
    ensures Selects(cfg, Applied(STEPS[..n]), a.spec) && Selects(cfg, Applied(STEPS[..n]), b.spec)
  {
    assert k in STEPS[..n] && j in STEPS[..n];
    hide *;
    TargetApplied(cfg, ip, STEPS[..n], k);
    TargetApplied(cfg, ip, STEPS[..n], j);
  }

  lemma TargetApplied(cfg: Config, ip: string, kinds: seq<Kind>, k: Kind)
    requires k in kinds
    ensures 0 < Wanted(k) && Selects(cfg, Applied(kinds), Target(cfg, ip, k, 0))
  {
    hide OfKind, Target;
    TargetOwned(cfg, ip, k, 0);
  }

  lemma StopsInPath(cfg: Config, sel: Selector, p: Path, w: World, a: Obj, b: Obj) returns (script: seq<Fault>, w': World)
    requires w.Valid() && w.script == [] && Respects(Unmanaged, sel)
    requires On(w.objs, p) == [a, b] && a.id != b.id && Selects(cfg, sel, a.spec) && Selects(cfg, sel, b.spec)
    ensures Sweep(cfg, sel, SWEEP, With(w, script)) == (w', None)
    ensures forall o :: o in w'.objs && o.spec.path == p <==> o == b
    ensures w'.script == [] && w'.Valid() && forall o :: o in w'.objs ==> o in w.objs
  {
    hide SWEEP, On, Distinct, Sweep, Keep, SweepPath, Selects, Without, Respects;
    var before, after := SweepAround(p);
    Sweeps(cfg, Unmanaged, sel, before, w);
    SweepsElsewhere(cfg, sel, before, w, p);
    var w1 := Sweep(cfg, sel, before, w).0;
    script := SweepWith(cfg, sel, before, w, [Works, Works, Refused]);
    StopsBetween(cfg, sel, p, w1, a, b);
    w' := World(Without(w1.objs, p, a.id), w1.nextId, []);
    FirstPathFails(cfg, sel, p, after, With(w1, [Works, Works, Refused]));
    SweepSplit(cfg, sel, before, [p] + after, With(w, script));
    WithoutValid(w1, p, a.id);
  }

  lemma FirstPathFails(cfg: Config, sel: Selector, p: Path, after: seq<Path>, w: World)
    requires SweepPath(cfg, sel, p, w).1.None?
    ensures Sweep(cfg, sel, [p] + after, w) == SweepPath(cfg, sel, p, w)
  {
    hide SweepPath;
  }

  lemma WithoutValid(w: World, p: Path, id: nat)
    requires w.Valid()
    ensures World(Without(w.objs, p, id), w.nextId, []).Valid()
  {
    WithoutDistinct(w.objs, p, id);
  }

  // --- Running again does not help ---

  lemma OnlyTargetsThere(cfg: Config, ip: string, n: nat, o: Obj)
    requires n <= |STEPS| && o in After(cfg, ip, n).objs
    ensures IsTarget(cfg, ip, STEPS, [], o.spec) && !IsOld(cfg, o.spec)
  {
    hide RunSteps, Target, IsOld, STEPS, IsTarget;
    RunStepsAdd(cfg, ip, STEPS[..n], [], NOTHING);
    RunStepsOrder(cfg, ip, STEPS[..n], [], NOTHING);
    var ran := Ran(RunSteps(cfg, ip, STEPS[..n], [], NOTHING).1);
    assert [] + STEPS[..n] == STEPS[..n];
    PrefixMembers(ran, STEPS[..n], STEPS);
    StillTarget(cfg, ip, ran, [], STEPS, [], o.spec);
    TargetNotOld(cfg, ip, o.spec);
  }

  lemma PrefixMembers(a: seq<Kind>, b: seq<Kind>, c: seq<Kind>)
    requires a <= b && b <= c
    ensures forall k :: k in a ==> k in c
  {
    forall k | k in a ensures k in c {
      var i :| 0 <= i < |a| && a[i] == k;
      assert c[i] == k;
    }
  }

  lemma TargetNotOld(cfg: Config, ip: string, s: Spec)
    requires IsTarget(cfg, ip, STEPS, [], s)
    ensures !IsOld(cfg, s)
  {
    hide Target, IsOld, STEPS, Covered;
    var k, i :| k in STEPS && 0 <= i < Wanted(k) && s == Target(cfg, ip, k, i);
    TargetOwned(cfg, ip, k, i);
  }

  /** A store whose only object on the path of `k` is of a later step there
      never gets `k`'s own object. */
  lemma NeverCreated(cfg: Config, ip: string, k: Kind, j: Kind, w: World, b: Obj)
    requires w.Valid() && w.script == [] && NoLegacy(cfg, w.objs)
    requires Plain(k) && Plain(j) && PathOf(j) == PathOf(k) && j != k && Spells(cfg, k)
    requires b.spec == Target(cfg, ip, j, 0) && forall o :: o in w.objs && o.spec.path == PathOf(k) <==> o == b
    ensures Bag(Run(cfg, ip, w, []).objs)[Target(cfg, ip, k, 0)] == 0
  {
    hide RunSteps, Sweep, Target, IsOld, OfKind, Covers, Keep, Distinct, Bag, STEPS, SWEEP, Spells, IsTarget;
    var t := Target(cfg, ip, k, 0);
    assert w.(script := []) == w;
    SweepNothing(cfg, Legacy, w);
    SweepsAll(cfg, Unmanaged, Legacy, w);
    var w0 := Migrate(cfg, w);
    RunStepsGrow(cfg, ip, STEPS, [], w0);
    RunStepsAdd(cfg, ip, STEPS, [], w0);
    var (w', report) := RunSteps(cfg, ip, STEPS, [], w0);
    TargetOwned(cfg, ip, k, 0);
    TargetCovers(cfg, ip, j, 0, k, 0);
    TargetsDiffer(cfg, ip, k, 0, ip, j, 0);
    assert Covered(cfg, k, 0, w0.objs);
    forall o | o in w'.objs ensures o.spec != t {
      if o in w0.objs {
        assert o.spec == t ==> o == b;
      } else {
        NotThisTarget(cfg, ip, Ran(report), w0.objs, o.spec, k);
      }
    }
    BagHas(w'.objs, t);
  }

  lemma NotThisTarget(cfg: Config, ip: string, kinds: seq<Kind>, objs: seq<Obj>, s: Spec, k: Kind)
    requires IsTarget(cfg, ip, kinds, objs, s) && Plain(k) && Covered(cfg, k, 0, objs)
    ensures s != Target(cfg, ip, k, 0)
  {
    hide Target, Covers;
    var j, i :| j in kinds && 0 <= i < Wanted(j) && s == Target(cfg, ip, j, i) && !Covered(cfg, j, i, objs);
    if j != k { TargetsDiffer(cfg, ip, j, i, ip, k, 0); }
  }

  /** On an empty router a good run creates it. */
  lemma CreatedAtFirst(cfg: Config, ip: string, k: Kind, n: nat, a: Obj)
    requires n <= |STEPS| && a in After(cfg, ip, n).objs && a.spec == Target(cfg, ip, k, 0) && 0 < Wanted(k)
    ensures Bag(Run(cfg, ip, NOTHING, []).objs)[Target(cfg, ip, k, 0)] > 0
  {
    assert NOTHING.Valid() && NOTHING.(script := []) == NOTHING;
    hide RunSteps, Sweep, Target, IsOld, OfKind, Keep, Distinct, Bag, STEPS, SWEEP, NewOnly;
    SweepNothing(cfg, Legacy, NOTHING);
    SweepsAll(cfg, Unmanaged, Legacy, NOTHING);
    assert Migrate(cfg, NOTHING) == NOTHING;
    assert STEPS == STEPS[..n] + STEPS[n..];
    RunStepsSplit(cfg, ip, STEPS[..n], STEPS[n..], [], NOTHING);
    var none := StepsWith(cfg, ip, STEPS[..n], [], NOTHING, []);
    AfterIsFine(cfg, ip, n);
    var (w1, report) := RunSteps(cfg, ip, STEPS[..n], [], NOTHING);
    RunStepsGrow(cfg, ip, STEPS[n..], report.applied, w1);
    BagHas(Run(cfg, ip, NOTHING, []).objs, a.spec);
  }

  lemma Diverges(cfg: Config, ip: string, k: Kind, j: Kind, n: nat) returns (script: seq<Fault>)
    requires Pair(cfg, ip, k, j, n) && Spells(cfg, k)
    ensures Bag(Run(cfg, ip, Run(cfg, ip, NOTHING, script), []).objs) != Bag(Run(cfg, ip, NOTHING, []).objs)
  {
    hide Run, Sweep, After, Target, Spells, Bag, STEPS, SWEEP, On, IsOld, Distinct;
    var tail, a, b, w' := RollbackStops(cfg, ip, k, j, n);
    script := FailsFromNothing(cfg, ip, n, tail);
    assert Run(cfg, ip, NOTHING, script) == w';
    forall o | o in w'.objs ensures !IsOld(cfg, o.spec) { OnlyTargetsThere(cfg, ip, n, o); }
    NeverCreated(cfg, ip, k, j, w', b);
    var a', b' := PairOf(cfg, ip, k, j, n);
    assert a' in On(After(cfg, ip, n).objs, PathOf(k));
    CreatedAtFirst(cfg, ip, k, n, a');
  }

  lemma FailsFromNothing(cfg: Config, ip: string, n: nat, tail: seq<Fault>) returns (script: seq<Fault>)
    requires n < |STEPS|
    ensures Run(cfg, ip, NOTHING, script) == Sweep(cfg, Applied(STEPS[..n]), SWEEP, With(After(cfg, ip, n), tail)).0
  {
    assert NOTHING.Valid();
    hide RunSteps, Sweep, STEPS, SWEEP, Distinct, Keep, IsOld;
    SweepNothing(cfg, Legacy, NOTHING);
    SweepsAll(cfg, Unmanaged, Legacy, NOTHING);
    assert Migrate(cfg, NOTHING) == NOTHING;
    script := FailsAt(cfg, ip, NOTHING, n, tail);
  }

  // --- The exact condition ---

  /** After any failed runs from a store with no step-kind objects, a good run
      ends as the only run would have, and another changes nothing. */
  ghost predicate AlwaysConverges(cfg: Config, ip: string) {
    forall w: World, scripts :: w.Valid() && NoStepKind(cfg, w.objs) ==>
      var last := Run(cfg, ip, Runs(cfg, ip, w, scripts), []);
      && Bag(last.objs) == Bag(Run(cfg, ip, w, []).objs)
      && Run(cfg, ip, last, []).objs == last.objs
  }

  lemma OneRun(cfg: Config, ip: string, script: seq<Fault>)
    ensures NOTHING.Valid() && NoStepKind(cfg, NOTHING.objs)
    ensures Runs(cfg, ip, NOTHING, [script]) == Run(cfg, ip, NOTHING, script)
  {
    hide Run;
    assert [script][..0] == [];
  }

  // --- Never repaired ---

  function GoodRuns(cfg: Config, ip: string, w: World, n: nat): World {
    if n == 0 then w else Run(cfg, ip, GoodRuns(cfg, ip, w, n - 1), [])
  }

  lemma RunKeeps(cfg: Config, ip: string, w: World, script: seq<Fault>)
    requires w.Valid() && Consistent(cfg, ip, w.objs)
    ensures Run(cfg, ip, w, script).Valid() && Consistent(cfg, ip, Run(cfg, ip, w, script).objs)
  {
    hide Setup, Consistent, Distinct;
    SetupSparesOperatorData(cfg, ip, w.(script := script));
    SetupConsistent(cfg, ip, w.(script := script));
  }

  /** The first good run does all that good runs ever do, for every tag. */
  lemma {:induction false} GoodRunsStay(cfg: Config, ip: string, w: World, n: nat)
    requires w.Valid() && Consistent(cfg, ip, w.objs) && n > 0
    ensures var w' := GoodRuns(cfg, ip, w, n);
      && w'.Valid() && Complete(cfg, ip, w'.objs)
      && w'.objs == Run(cfg, ip, w, []).objs
  {
    hide Setup, Consistent, Distinct, AllSettled, NoLegacy;
    if n == 1 {
      assert GoodRuns(cfg, ip, w, 1) == Run(cfg, ip, GoodRuns(cfg, ip, w, 0), []);
      RunKeeps(cfg, ip, w, []);
      GoodRun(cfg, ip, w.(script := []));
    } else {
      GoodRunsStay(cfg, ip, w, n - 1);
      var before := GoodRuns(cfg, ip, w, n - 1);
      RunKeeps(cfg, ip, before, []);
      GoodRun(cfg, ip, before.(script := []));
    }
  }

  /** For every tag that is not harmless there is a failed run on an empty router
      that no number of good runs repairs. */
  lemma NeverRepaired(cfg: Config, ip: string) returns (script: seq<Fault>)
    requires !Harmless(cfg)
    ensures forall n :: n > 0 ==>
      Bag(GoodRuns(cfg, ip, Run(cfg, ip, NOTHING, script), n).objs) != Bag(Run(cfg, ip, NOTHING, []).objs)
  {
    hide Run, Bag, Spells, Pair, Consistent;
    if Spells(cfg, DefaultRoute) && !Spells(cfg, KillSwitch) {
      PairRoutes(cfg, ip);
      script := Diverges(cfg, ip, DefaultRoute, KillSwitch, 6);
    } else {
      PairMangle(cfg, ip);
      if Spells(cfg, RoutingMark) {
        script := Diverges(cfg, ip, ConnMark, MssClamp, 4);
      } else {
        script := Diverges(cfg, ip, ConnMark, RoutingMark, 3);
      }
    }
    OneRun(cfg, ip, script);
    FreshIsConsistent(cfg, ip, NOTHING.objs);
    RunKeeps(cfg, ip, NOTHING, script);
    forall n | n > 0
      ensures Bag(GoodRuns(cfg, ip, Run(cfg, ip, NOTHING, script), n).objs) != Bag(Run(cfg, ip, NOTHING, []).objs)
    {
      GoodRunsStay(cfg, ip, Run(cfg, ip, NOTHING, script), n);
    }
  }

  /** `setup` converges on every store and under every pattern of failures
      exactly when the tag is harmless. */
  lemma ConvergesExactly(cfg: Config, ip: string)
    ensures AlwaysConverges(cfg, ip) <==> Harmless(cfg)
  {
    hide Run, Bag, Spells, NoStepKind, Pair, Runs;
    if Harmless(cfg) {
      forall w: World, scripts | w.Valid() && NoStepKind(cfg, w.objs)
        ensures var last := Run(cfg, ip, Runs(cfg, ip, w, scripts), []);
          && Bag(last.objs) == Bag(Run(cfg, ip, w, []).objs)
          && Run(cfg, ip, last, []).objs == last.objs
      {
        Converges(cfg, ip, w, scripts);
      }
    } else {
      var script := NeverRepaired(cfg, ip);
      var failed := Run(cfg, ip, NOTHING, script);
      assert GoodRuns(cfg, ip, failed, 1) == Run(cfg, ip, GoodRuns(cfg, ip, failed, 0), []);
      OneRun(cfg, ip, script);
      assert Runs(cfg, ip, NOTHING, [script]) == Run(cfg, ip, NOTHING, script);
    }
  }
}
