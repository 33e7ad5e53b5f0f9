/** What the setup steps can and cannot do, under every pattern of failures. */
module Building {
  import opened Text
  import opened Comments
  import opened Router
  import opened PolicyRouting
  import opened Sweeping

  /** The tag itself has a field that reads as this kind. */
  predicate Spells(cfg: Config, k: Kind) {
    "kind=" + Label(k) in Fields(cfg.tag)
  }

  lemma PlainIsLabel(s: string)
    requires s != "" && !IsSpace(s[0]) && !IsSpace(s[|s| - 1])
    requires forall i :: 0 <= i < |s| ==> s[i] != ';'
    ensures IsLabel(s)
  {
    TrimFixed(s);
  }

  lemma LabelsAreLabels(k: Kind)
    ensures IsLabel(Label(k))
  {
    hide IsLabel;
    match k
    case RoutingTable => PlainIsLabel("routing-table");
    case ConnMark => PlainIsLabel("mangle-conn-mark");
    case RoutingMark => PlainIsLabel("mangle-routing-mark");
    case MssClamp => PlainIsLabel("mss-clamp");
    case DefaultRoute => PlainIsLabel("default-route");
    case KillSwitch => PlainIsLabel("kill-switch");
    case DnsDstNat => PlainIsLabel("dns-dst-nat");
    case DotBlock => PlainIsLabel("dot-block");
    case Fasttrack => PlainIsLabel("fasttrack-bypass");
    case Rfc1918 => PlainIsLabel("rfc1918-bypass");
  }

  lemma LabelsDiffer(j: Kind, k: Kind)
    ensures Label(j) == Label(k) <==> j == k
  {
    var a, b := Label(j), Label(k);
    assert j != k ==> |a| != |b| || a[..1] != b[..1] by {
      assert |a| == |b| && j != k ==> a[0] != b[0];
    }
  }

  /** A target is ours, is not legacy, and is of its own kind. */
  lemma TargetOwned(cfg: Config, ip: string, k: Kind, i: nat)
    requires i < Wanted(k)
    ensures var t := Target(cfg, ip, k, i);
      && t.path == PathOf(k) && t.comment == Some(CommentForKind(cfg.tag, Label(k)))
      && IsManaged(cfg, t) && !IsOld(cfg, t) && OfKind(cfg, t, k)
      && !Guards(cfg, Unmanaged, t) && !Guards(cfg, Foreign, t)
  {
    LabelsAreLabels(k);
    hide MatchesTag, MatchesKind, IsLegacy, Label;
    SetupComment(cfg.tag, Label(k), Label(k));
    assert OfKind(cfg, Target(cfg, ip, k, i), k);
  }

  /** Besides its own, a target is of exactly the kinds the tag spells. */
  lemma TargetKind(cfg: Config, ip: string, k: Kind, i: nat, j: Kind)
    requires i < Wanted(k)
    ensures OfKind(cfg, Target(cfg, ip, k, i), j) <==> j == k || Spells(cfg, j)
  {
    TargetOwned(cfg, ip, k, i);
    LabelsAreLabels(k);
    LabelsDiffer(j, k);
    SetupComment(cfg.tag, Label(k), Label(j));
    hide MatchesTag, MatchesKind, IsLegacy, Fields, Label, Target, IsLabel, CommentForKind;
  }

  /** So is every managed object. */
  lemma ManagedIsSpelled(cfg: Config, s: Spec, j: Kind)
    requires IsManaged(cfg, s) && Spells(cfg, j)
    ensures OfKind(cfg, s, j)
  {
    hide Fields, MatchesTag, MatchesKind, Label;
    SpelledByTag(s.comment.value, cfg.tag, Label(j));
  }

  lemma TargetAttrs(cfg: Config, ip: string, k: Kind, i: nat)
    requires i < Wanted(k)
    ensures var t := Target(cfg, ip, k, i);
      && (k.RoutingTable? ==> t.Attr("name") == Some(cfg.table))
      && (k.DnsDstNat? || k.DotBlock? ==> t.Attr("protocol") == Some(Protocol(k, i)))
      && (k.Rfc1918? ==> t.Attr("list") == Some(cfg.listBypass) && t.Attr("address") == Some(Rfc1918Range(i)))
      && (k.Fasttrack? ==> t.Attr("protocol") == None)
  {
  }

  /** Kinds whose step looks for any object of the kind. */
  predicate Plain(k: Kind) {
    k != RoutingTable && k != Rfc1918 && k != DnsDstNat && k != DotBlock
  }

  lemma PartsDiffer(k: Kind, i: nat, m: nat)
    requires i < Wanted(k) && m < Wanted(k)
    ensures k.DnsDstNat? || k.DotBlock? ==> (Protocol(k, i) == Protocol(k, m) <==> i == m)
    ensures k.Rfc1918? ==> (Rfc1918Range(i) == Rfc1918Range(m) <==> i == m)
  {
    if k.Rfc1918? {
      assert Rfc1918Range(0)[1] == '9' && Rfc1918Range(1)[1] == '7' && Rfc1918Range(2)[1] == '0';
    } else {
      assert "udp"[0] != "tcp"[0];
    }
  }

  /** A step's check accepts its own target; it takes another step's target
      for its own exactly when it looks for the kind alone, under the same path,
      and the tag spells that kind. */
  lemma TargetCovers(cfg: Config, ip: string, k: Kind, i: nat, j: Kind, m: nat)
    requires i < Wanted(k) && m < Wanted(j)
    ensures Covers(cfg, j, m, Target(cfg, ip, k, i)) <==>
      (j == k && i == m) || (Plain(j) && PathOf(j) == PathOf(k) && Spells(cfg, j))
  {
    hide Spells, OfKind, Target;
    TargetOwned(cfg, ip, k, i);
    TargetKind(cfg, ip, k, i, j);
    TargetAttrs(cfg, ip, k, i);
    CoversOwn(cfg, Target(cfg, ip, k, i), k, i, j, m, Spells(cfg, j));
  }

  lemma CoversOwn(cfg: Config, t: Spec, k: Kind, i: nat, j: Kind, m: nat, spelled: bool)
    requires i < Wanted(k) && m < Wanted(j)
    requires t.path == PathOf(k) && (OfKind(cfg, t, j) <==> j == k || spelled)
    requires k.RoutingTable? ==> t.Attr("name") == Some(cfg.table)
    requires k.DnsDstNat? || k.DotBlock? ==> t.Attr("protocol") == Some(Protocol(k, i))
    requires k.Rfc1918? ==> t.Attr("list") == Some(cfg.listBypass) && t.Attr("address") == Some(Rfc1918Range(i))
    requires k.Fasttrack? ==> t.Attr("protocol") == None
    ensures Covers(cfg, j, m, t) <==>
      (j == k && i == m) || (Plain(j) && PathOf(j) == PathOf(k) && spelled)
  {
    hide OfKind;
    if j == k { PartsDiffer(k, i, m); }
  }

  /** What covers a plain kind is of that kind, so anything managed beside it
      is covered with it when the tag spells another. */
  lemma CoveredTogether(cfg: Config, j: Kind, m: nat, k: Kind, objs: seq<Obj>)
    requires Covered(cfg, j, m, objs) && j != RoutingTable && j != Rfc1918
    requires Plain(k) && PathOf(k) == PathOf(j) && Spells(cfg, k)
    ensures Covered(cfg, k, 0, objs)
  {
    hide MatchesTag, Fields, Spells;
    var o :| o in objs && Covers(cfg, j, m, o.spec);
    ManagedIsSpelled(cfg, o.spec, k);
    assert Covers(cfg, k, 0, o.spec);
  }

  lemma TargetsDiffer(cfg: Config, ip: string, k: Kind, i: nat, ip': string, j: Kind, m: nat)
    requires i < Wanted(k) && m < Wanted(j) && (j != k || (ip == ip' && i != m))
    ensures Target(cfg, ip, k, i) != Target(cfg, ip', j, m)
  {
    TargetOwned(cfg, ip, k, i);
    TargetOwned(cfg, ip', j, m);
    TargetAttrs(cfg, ip, k, i);
    TargetAttrs(cfg, ip', j, m);
    hide Target, Label;
    if j == k {
      PartsDiffer(k, i, m);
    } else {
      LabelsDiffer(k, j);
      var head := cfg.tag + ";kind=";
      var (a, b) := (CommentForKind(cfg.tag, Label(k)), CommentForKind(cfg.tag, Label(j)));
      assert a[|head|..] == Label(k) && b[|head|..] == Label(j);
    }
  }

  // --- On any store ---

  ghost predicate NewOnly(cfg: Config, kinds: seq<Kind>, objs: seq<Obj>, objs': seq<Obj>) {
    forall o :: o in objs' ==> o in objs || Selects(cfg, Applied(kinds), o.spec)
  }

  /** The facts every building step keeps, from `w` to `w'`; whatever appears
      is of one of `kinds`. */
  ghost predicate Grows(cfg: Config, kinds: seq<Kind>, w: World, w': World) {
    && w'.Valid()
    && Keep(cfg, Unmanaged, w'.objs) == Keep(cfg, Unmanaged, w.objs)
    && Keep(cfg, Foreign, w'.objs) == Keep(cfg, Foreign, w.objs)
    && (forall o :: o in w.objs ==> o in w'.objs)
    && NewOnly(cfg, kinds, w.objs, w'.objs)
    && (w.script == [] ==> w'.script == [])
  }

  lemma SelectsMore(cfg: Config, few: seq<Kind>, many: seq<Kind>, s: Spec)
    requires Selects(cfg, Applied(few), s) && forall k :: k in few ==> k in many
    ensures Selects(cfg, Applied(many), s)
  {
    hide OfKind;
  }

  lemma GrowsNothing(cfg: Config, kinds: seq<Kind>, w: World)
    requires w.Valid()
    ensures Grows(cfg, kinds, w, w)
  {
  }

  lemma GrowsTransitive(cfg: Config, kinds: seq<Kind>, a: World, b: World, c: World, more: seq<Kind>, all: seq<Kind>)
    requires Grows(cfg, kinds, a, b) && Grows(cfg, more, b, c)
    requires forall k :: k in kinds || k in more ==> k in all
    ensures Grows(cfg, all, a, c)
  {
    hide Selects, Keep, Distinct;
    forall o | o in c.objs && o !in a.objs ensures Selects(cfg, Applied(all), o.spec) {
      if o in b.objs {
        SelectsMore(cfg, kinds, all, o.spec);
      } else {
        SelectsMore(cfg, more, all, o.spec);
      }
    }
  }

  lemma GrowsMore(cfg: Config, kinds: seq<Kind>, a: World, b: World, all: seq<Kind>)
    requires Grows(cfg, kinds, a, b)
    requires forall k :: k in kinds ==> k in all
    ensures Grows(cfg, all, a, b)
  {
    GrowsNothing(cfg, [], b);
    GrowsTransitive(cfg, kinds, a, b, b, [], all);
  }

  lemma CreateGrows(cfg: Config, ip: string, k: Kind, i: nat, w: World)
    requires w.Valid() && i < Wanted(k)
    ensures var (w', ok) := CreateCall(w, Target(cfg, ip, k, i));
      && Grows(cfg, [k], w, w')
      && (ok ==> Obj(w.nextId, Target(cfg, ip, k, i)) in w'.objs)
      && (w.script == [] ==> ok)
  {
    hide Target;
    TargetOwned(cfg, ip, k, i);
    AddOwned(cfg, k, w, Target(cfg, ip, k, i));
  }

  lemma AddOwned(cfg: Config, k: Kind, w: World, s: Spec)
    requires w.Valid() && OfKind(cfg, s, k)
    requires !Guards(cfg, Unmanaged, s) && !Guards(cfg, Foreign, s)
    ensures Grows(cfg, [k], w, CreateCall(w, s).0)
  {
    hide Guards, OfKind;
    var o := Obj(w.nextId, s);
    KeepAppend(cfg, Unmanaged, w.objs, o);
    KeepAppend(cfg, Foreign, w.objs, o);
    ValidAppend(w, s);
    assert k in [k];
  }

  lemma {:induction false} CreateMissingGrows(cfg: Config, ip: string, k: Kind, i: nat, listing: seq<Obj>, w: World)
    requires w.Valid() && i <= Wanted(k)
    ensures var (w', ok) := CreateMissing(cfg, ip, k, i, listing, w);
      && Grows(cfg, [k], w, w')
      && (w.script == [] ==> ok)
    decreases Wanted(k) - i
  {
    hide Target, Covered, CreateCall, Keep, Distinct, NewOnly;
    if i == Wanted(k) {
      GrowsNothing(cfg, [k], w);
    } else if Covered(cfg, k, i, listing) {
      CreateMissingGrows(cfg, ip, k, i + 1, listing, w);
    } else {
      var (w1, ok) := CreateCall(w, Target(cfg, ip, k, i));
      CreateGrows(cfg, ip, k, i, w);
      if ok {
        CreateMissingGrows(cfg, ip, k, i + 1, listing, w1);
        GrowsTransitive(cfg, [k], w, w1, CreateMissing(cfg, ip, k, i + 1, listing, w1).0, [k], [k]);
      }
    }
  }

  lemma EnsureGrows(cfg: Config, ip: string, k: Kind, w: World)
    requires w.Valid()
    ensures var (w', ok) := Ensure(cfg, ip, k, w);
      && Grows(cfg, [k], w, w')
      && (w.script == [] ==> ok)
  {
    hide CreateMissing, Distinct;
    CreateMissingGrows(cfg, ip, k, 0, On(w.objs, PathOf(k)), w.Later());
  }

  /** The steps that ran, the failing one included. */
  function Ran(report: Report): seq<Kind> {
    report.applied + if report.failed.Some? then [report.failed.value] else []
  }

  /** The report lists the steps in order, up to and including the failure. */
  lemma {:induction false} RunStepsOrder(cfg: Config, ip: string, todo: seq<Kind>, done: seq<Kind>, w: World)
    ensures var report := RunSteps(cfg, ip, todo, done, w).1;
      && Ran(report) <= done + todo
      && (report.failed.None? ==> report.applied == done + todo)
  {
    if todo == [] {
      assert done + todo == done;
    } else {
      var (w1, ok) := Ensure(cfg, ip, todo[0], w);
      assert done + [todo[0]] + todo[1..] == done + todo;
      if ok {
        RunStepsOrder(cfg, ip, todo[1..], done + [todo[0]], w1);
      }
    }
  }

  lemma RanMore(k: Kind, done: seq<Kind>, report: Report)
    requires done + [k] <= report.applied
    ensures k in Ran(report)
  {
    assert report.applied[|done|] == k;
  }

  lemma {:induction false} RunStepsGrow(cfg: Config, ip: string, todo: seq<Kind>, done: seq<Kind>, w: World)
    requires w.Valid()
    ensures var (w', report) := RunSteps(cfg, ip, todo, done, w);
      && Grows(cfg, Ran(report), w, w')
      && done <= report.applied
      && (w.script == [] ==> report.failed.None?)
  {
    hide Ensure, Selects, Keep;
    if todo == [] {
      GrowsNothing(cfg, done, w);
      GrowsMore(cfg, [], w, w, done);
    } else {
      var (w1, ok) := Ensure(cfg, ip, todo[0], w);
      EnsureGrows(cfg, ip, todo[0], w);
      if ok {
        var more := done + [todo[0]];
        var (w2, report) := RunSteps(cfg, ip, todo[1..], more, w1);
        RunStepsGrow(cfg, ip, todo[1..], more, w1);
        RanMore(todo[0], done, report);
        assert done <= more;
        GrowsTransitive(cfg, [todo[0]], w, w1, w2, Ran(report), Ran(report));
      } else {
        var report := Report(done, Some(todo[0]));
        assert todo[0] in Ran(report);
        GrowsMore(cfg, [todo[0]], w, w1, Ran(report));
      }
    }
  }

  /** Whatever fails, `setup` leaves every object without our tag, and every
      object that is neither legacy nor of a step kind, exactly as it was. */
  lemma SetupSparesOperatorData(cfg: Config, ip: string, w: World)
    requires w.Valid()
    ensures var w' := Setup(cfg, ip, w).0;
      && w'.Valid()
      && Keep(cfg, Unmanaged, w'.objs) == Keep(cfg, Unmanaged, w.objs)
      && Keep(cfg, Foreign, w'.objs) == Keep(cfg, Foreign, w.objs)
      && (w.script == [] ==> w'.script == [])
  {
    var w0 := Migrate(cfg, w);
    var (w1, report) := RunSteps(cfg, ip, STEPS, [], w0);
    forall g: Guard ensures Shrinks(cfg, g, w, w0) { SweepsAll(cfg, g, Legacy, w); }
    assert Shrinks(cfg, Unmanaged, w, w0) && Shrinks(cfg, Foreign, w, w0);
    RunStepsGrow(cfg, ip, STEPS, [], w0);
    SweepsAll(cfg, Unmanaged, Applied(report.applied), w1);
    SweepsAll(cfg, Foreign, Applied(report.applied), w1);
  }

  /** Tearing down after a `setup`, however that went, leaves the same store as
      tearing down without it. */
  lemma TeardownUndoesSetup(cfg: Config, ip: string, w: World)
    requires w.Valid()
    ensures Teardown(cfg, Setup(cfg, ip, w).0.(script := [])).0.objs
         == Teardown(cfg, w.(script := [])).0.objs
  {
    SetupSparesOperatorData(cfg, ip, w);
    TeardownExact(cfg, w.(script := []));
    TeardownExact(cfg, Setup(cfg, ip, w).0.(script := []));
  }

  /** If `setup` fails and its rollback goes through, nothing of an applied
      kind is left, and what it removed was legacy or of an applied kind. */
  lemma RollbackConfined(cfg: Config, ip: string, w: World)
    requires w.Valid()
    ensures var (w', report, rolledBack) := Setup(cfg, ip, w);
      report.failed.Some? && rolledBack ==>
        && (forall o :: o in w'.objs ==> !Selects(cfg, Applied(report.applied), o.spec))
        && (forall o :: o in w.objs && !IsOld(cfg, o.spec) ==>
              (o in w'.objs <==> !Selects(cfg, Applied(report.applied), o.spec)))
        && NewOnly(cfg, [report.failed.value], w.objs, w'.objs)
  {
    hide Sweep, RunSteps, Keep, Distinct, OfKind;
    var w0 := Migrate(cfg, w);
    var (w1, report) := RunSteps(cfg, ip, STEPS, [], w0);
    SweepLeaves(cfg, Legacy, w);
    RunStepsGrow(cfg, ip, STEPS, [], w0);
    SweepsAll(cfg, Foreign, Applied(report.applied), w1);
  }

  /** Even a sweep that stops half-way keeps every object it does not select. */
  lemma SweepLeaves(cfg: Config, sel: Selector, w: World)
    requires w.Valid()
    ensures var w' := Sweep(cfg, sel, SWEEP, w).0;
      && w'.Valid()
      && (forall o :: o in w'.objs ==> o in w.objs)
      && (forall o :: o in w.objs && !Selects(cfg, sel, o.spec) ==> o in w'.objs)
  {
    SweepsAll(cfg, Unmanaged, sel, w);
    SweepSubset(cfg, sel, SWEEP, w);
  }

  lemma {:induction false} SweepSubset(cfg: Config, sel: Selector, paths: seq<Path>, w: World)
    requires w.Valid()
    ensures forall o :: o in w.objs && !Selects(cfg, sel, o.spec) ==> o in Sweep(cfg, sel, paths, w).0.objs
  {
    if paths == [] {
    } else {
      var w1 := SweepPath(cfg, sel, paths[0], w).0;
      SweepsPath(cfg, Unmanaged, sel, paths[0], w);
      OnDistinct(w.objs, paths[0]);
      DeleteSelectedSubset(cfg, sel, On(w.objs, paths[0]), w.Later());
      SweepSubset(cfg, sel, paths[1..], w1);
    }
  }

  lemma {:induction false} DeleteSelectedSubset(cfg: Config, sel: Selector, listing: seq<Obj>, w: World)
    requires w.Valid()
    requires forall l, o :: l in listing && o in w.objs ==> SameRef(l, o) ==> l == o
    ensures forall o :: o in w.objs && !Selects(cfg, sel, o.spec) ==> o in DeleteSelected(cfg, sel, listing, w).0.objs
  {
    if listing == [] {
    } else {
      assert listing == [listing[0]] + listing[1..];
      if !Selects(cfg, sel, listing[0].spec) {
        DeleteSelectedSubset(cfg, sel, listing[1..], w);
      } else {
        var (w1, ok) := DeleteCall(w, listing[0].spec.path, listing[0].id);
        WithoutDistinct(w.objs, listing[0].spec.path, listing[0].id);
        forall o | o in w.objs && !Selects(cfg, sel, o.spec) ensures o in w1.objs {
          assert !SameRef(listing[0], o);
        }
        if ok {
          DeleteSelectedSubset(cfg, sel, listing[1..], w1);
        }
      }
    }
  }
}
