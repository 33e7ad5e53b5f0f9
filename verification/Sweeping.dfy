/** What a sweep can and cannot touch, under every pattern of failures. */
module Sweeping {
  import opened Text
  import opened Comments
  import opened Router
  import opened PolicyRouting

  /** Data a sweep must leave alone: objects without our tag, or, more
      generously, objects that are neither legacy nor of a step kind. */
  datatype Guard = Unmanaged | Foreign

  predicate Guards(cfg: Config, g: Guard, s: Spec) {
    match g
    case Unmanaged => !IsManaged(cfg, s)
    case Foreign => !IsOld(cfg, s) && !OfStepKind(cfg, s)
  }

  predicate Respects(g: Guard, sel: Selector) {
    g == Unmanaged || !sel.Managed?
  }

  lemma Apart(cfg: Config, g: Guard, sel: Selector, s: Spec)
    requires Respects(g, sel) && Selects(cfg, sel, s)
    ensures !Guards(cfg, g, s)
  {
  }

  /** The guarded objects, in order, ids included. */
  function Keep(cfg: Config, g: Guard, objs: seq<Obj>): seq<Obj> {
    if objs == [] then []
    else
      var n := |objs| - 1;
      Keep(cfg, g, objs[..n]) + (if Guards(cfg, g, objs[n].spec) then [objs[n]] else [])
  }

  lemma KeepAppend(cfg: Config, g: Guard, objs: seq<Obj>, o: Obj)
    ensures Keep(cfg, g, objs + [o]) == Keep(cfg, g, objs) + (if Guards(cfg, g, o.spec) then [o] else [])
  {
    assert (objs + [o])[..|objs|] == objs;
  }

  lemma {:induction false} KeepWithout(cfg: Config, g: Guard, objs: seq<Obj>, p: Path, id: nat)
    requires forall o :: o in objs && At(o, p, id) ==> !Guards(cfg, g, o.spec)
    ensures Keep(cfg, g, Without(objs, p, id)) == Keep(cfg, g, objs)
  {
    hide Guards;
    if objs == [] {
    } else {
      var n := |objs| - 1;
      KeepWithout(cfg, g, objs[..n], p, id);
      if At(objs[n], p, id) {
        assert Without(objs, p, id) == Without(objs[..n], p, id);
      } else {
        KeepAppend(cfg, g, Without(objs[..n], p, id), objs[n]);
      }
    }
  }

  lemma {:induction false} KeepHas(cfg: Config, g: Guard, objs: seq<Obj>, o: Obj)
    ensures o in Keep(cfg, g, objs) <==> o in objs && Guards(cfg, g, o.spec)
  {
    hide Guards;
    if objs == [] {
    } else {
      var n := |objs| - 1;
      KeepHas(cfg, g, objs[..n], o);
      assert objs == objs[..n] + [objs[n]];
    }
  }

  lemma {:induction false} KeepAll(cfg: Config, g: Guard, objs: seq<Obj>)
    requires forall o :: o in objs ==> Guards(cfg, g, o.spec)
    ensures Keep(cfg, g, objs) == objs
  {
    hide Guards;
    if objs == [] {
    } else {
      var n := |objs| - 1;
      KeepAll(cfg, g, objs[..n]);
      assert objs == objs[..n] + [objs[n]];
    }
  }

  lemma {:induction false} WithoutLength(objs: seq<Obj>, o: Obj)
    requires Distinct(objs) && o in objs
    ensures |Without(objs, o.spec.path, o.id)| == |objs| - 1
  {
    var p, id, n := o.spec.path, o.id, |objs| - 1;
    assert objs == objs[..n] + [objs[n]];
    if At(objs[n], p, id) {
      forall x | x in objs[..n] ensures !At(x, p, id) {
        var i :| 0 <= i < n && objs[..n][i] == x;
        assert !SameRef(objs[i], objs[n]);
      }
      WithoutNothing(objs[..n], p, id);
    } else {
      WithoutLength(objs[..n], o);
    }
  }

  lemma {:induction false} WithoutNothing(objs: seq<Obj>, p: Path, id: nat)
    requires forall o :: o in objs ==> !At(o, p, id)
    ensures Without(objs, p, id) == objs
  {
    hide At;
    if objs == [] {
    } else {
      var n := |objs| - 1;
      assert objs == objs[..n] + [objs[n]];
      assert objs[n] in objs;
      forall o | o in objs[..n] ensures o in objs {
      }
      WithoutNothing(objs[..n], p, id);
    }
  }

  // --- One deletion ---

  /** The facts every sweep keeps, from `w` to `w'`. */
  ghost predicate Shrinks(cfg: Config, g: Guard, w: World, w': World) {
    && w'.Valid() && w'.nextId == w.nextId
    && Keep(cfg, g, w'.objs) == Keep(cfg, g, w.objs)
    && (forall o :: o in w'.objs ==> o in w.objs)
    && Bag(w'.objs) <= Bag(w.objs)
    && (w.script == [] ==> w'.script == [])
  }

  lemma DeleteShrinks(cfg: Config, g: Guard, sel: Selector, w: World, o: Obj)
    requires w.Valid() && o in w.objs
    requires Respects(g, sel) && Selects(cfg, sel, o.spec)
    ensures var (w', ok) := DeleteCall(w, o.spec.path, o.id);
      && Shrinks(cfg, g, w, w')
      && (ok ==> |w'.objs| == |w.objs| - 1 && forall x :: x in w'.objs <==> x in w.objs && x != o)
      && (w.script == [] ==> ok)
  {
    var p, id := o.spec.path, o.id;
    assert At(o, p, id);
    forall x | x in w.objs && At(x, p, id) ensures x == o {
      SameRefSame(w.objs, x, o);
    }
    Apart(cfg, g, sel, o.spec);
    KeepWithout(cfg, g, w.objs, p, id);
    WithoutDistinct(w.objs, p, id);
    WithoutLength(w.objs, o);
    BagWithout(w.objs, p, id);
  }

  lemma SameRefSame(objs: seq<Obj>, a: Obj, b: Obj)
    requires Distinct(objs) && a in objs && b in objs && SameRef(a, b)
    ensures a == b
  {
    var i :| 0 <= i < |objs| && objs[i] == a;
    var j :| 0 <= j < |objs| && objs[j] == b;
    assert i == j;
  }

  lemma ShrinksTransitive(cfg: Config, g: Guard, a: World, b: World, c: World)
    requires Shrinks(cfg, g, a, b) && Shrinks(cfg, g, b, c)
    ensures Shrinks(cfg, g, a, c)
  {
  }

  // --- A listing, a path, a whole sweep ---

  ghost predicate Doomed(cfg: Config, sel: Selector, listing: seq<Obj>, o: Obj) {
    o in listing && Selects(cfg, sel, o.spec)
  }

  /** Whatever fails, a sweep only removes selected objects; if it reports a
      count it has removed exactly the selected ones and counted them. */
  lemma {:induction false} DeletesSelected(cfg: Config, g: Guard, sel: Selector, listing: seq<Obj>, w: World)
    requires w.Valid() && Respects(g, sel) && Distinct(listing)
    requires forall o :: o in listing ==> o in w.objs
    ensures var (w', n) := DeleteSelected(cfg, sel, listing, w);
      && Shrinks(cfg, g, w, w')
      && (n.Some? ==> n.value == |w.objs| - |w'.objs|
                      && forall o :: o in w'.objs <==> o in w.objs && !Doomed(cfg, sel, listing, o))
      && (w.script == [] ==> n.Some?)
  {
    hide Selects, Keep, DeleteCall, Respects;
    if listing == [] {
    } else {
      var o, rest := listing[0], listing[1..];
      assert listing == [o] + rest;
      assert Distinct(rest) && o !in rest by {
        forall i | 0 <= i < |rest| ensures rest[i] != o {
          assert !SameRef(listing[0], listing[i + 1]);
        }
      }
      if !Selects(cfg, sel, o.spec) {
        DeletesSelected(cfg, g, sel, rest, w);
      } else {
        var (w1, ok) := DeleteCall(w, o.spec.path, o.id);
        DeleteShrinks(cfg, g, sel, w, o);
        if ok {
          DeletesSelected(cfg, g, sel, rest, w1);
          ShrinksTransitive(cfg, g, w, w1, DeleteSelected(cfg, sel, rest, w1).0);
        }
      }
    }
  }

  ghost predicate Gone(cfg: Config, sel: Selector, paths: seq<Path>, o: Obj) {
    o.spec.path in paths && Selects(cfg, sel, o.spec)
  }

  lemma SweepsPath(cfg: Config, g: Guard, sel: Selector, p: Path, w: World)
    requires w.Valid() && Respects(g, sel)
    ensures var (w', n) := SweepPath(cfg, sel, p, w);
      && Shrinks(cfg, g, w, w')
      && (n.Some? ==> n.value == |w.objs| - |w'.objs|
                      && forall o :: o in w'.objs <==> o in w.objs && !Gone(cfg, sel, [p], o))
      && (w.script == [] ==> n.Some?)
  {
    hide Selects, Keep, DeleteSelected, Respects, Distinct;
    var listing := On(w.objs, p);
    OnDistinct(w.objs, p);
    DeletesSelected(cfg, g, sel, listing, w.Later());
    if w.Fate() == Works {
      forall o | o in w.objs ensures Doomed(cfg, sel, listing, o) <==> Gone(cfg, sel, [p], o) {
      }
    }
  }

  lemma {:induction false} Sweeps(cfg: Config, g: Guard, sel: Selector, paths: seq<Path>, w: World)
    requires w.Valid() && Respects(g, sel)
    ensures var (w', n) := Sweep(cfg, sel, paths, w);
      && Shrinks(cfg, g, w, w')
      && (n.Some? ==> n.value == |w.objs| - |w'.objs|
                      && forall o :: o in w'.objs <==> o in w.objs && !Gone(cfg, sel, paths, o))
      && (w.script == [] ==> n.Some?)
  {
    hide Selects, Keep, SweepPath, Respects, Distinct;
    if paths == [] {
    } else {
      var (w1, n) := SweepPath(cfg, sel, paths[0], w);
      SweepsPath(cfg, g, sel, paths[0], w);
      if n.Some? {
        var w2 := Sweep(cfg, sel, paths[1..], w1).0;
        Sweeps(cfg, g, sel, paths[1..], w1);
        ShrinksTransitive(cfg, g, w, w1, w2);
        assert paths == [paths[0]] + paths[1..];
        forall o ensures Gone(cfg, sel, paths, o) <==>
          Gone(cfg, sel, [paths[0]], o) || Gone(cfg, sel, paths[1..], o) {
        }
      }
    }
  }

  /** A sweep of every path. */
  lemma SweepsAll(cfg: Config, g: Guard, sel: Selector, w: World)
    requires w.Valid() && Respects(g, sel)
    ensures var (w', n) := Sweep(cfg, sel, SWEEP, w);
      && Shrinks(cfg, g, w, w')
      && (n.Some? ==> n.value == |w.objs| - |w'.objs|
                      && forall o :: o in w'.objs <==> o in w.objs && !Selects(cfg, sel, o.spec))
      && (w.script == [] ==> n.Some?)
  {
    hide Selects, Keep, Sweep, Respects, Distinct;
    Sweeps(cfg, g, sel, SWEEP, w);
    forall o ensures Gone(cfg, sel, SWEEP, o) <==> Selects(cfg, sel, o.spec) {
      EveryPathSwept(o.spec.path);
    }
  }

  lemma NothingOursIsAbsent(cfg: Config, objs: seq<Obj>)
    requires forall o :: o in objs ==> Guards(cfg, Unmanaged, o.spec)
    ensures LayoutState(cfg, objs) == Absent
  {
    LayoutReads(cfg, objs);
    forall k ensures !Present(cfg, k, objs) {
    }
  }

  /** If a shrunk state holds no unguarded object, it is the guarded part. */
  lemma OnlyKept(cfg: Config, g: Guard, w: World, w': World)
    requires Shrinks(cfg, g, w, w')
    requires forall o :: o in w'.objs ==> Guards(cfg, g, o.spec)
    ensures w'.objs == Keep(cfg, g, w.objs)
  {
    KeepAll(cfg, g, w'.objs);
  }

  /** Teardown on a reliable router leaves exactly the objects without our tag,
      in order, returns how many it removed, and presence reads "absent". */
  lemma TeardownExact(cfg: Config, w: World)
    requires w.Valid() && w.script == []
    ensures var (w', n) := Teardown(cfg, w);
      && w'.objs == Keep(cfg, Unmanaged, w.objs)
      && n == Some(|w.objs| - |w'.objs|)
      && LayoutState(cfg, w'.objs) == Absent
  {
    hide Sweep, Keep, IsManaged, Distinct, LayoutState;
    SweepsAll(cfg, Unmanaged, Managed, w);
    var w' := Teardown(cfg, w).0;
    assert forall o :: o in w'.objs ==> Guards(cfg, Unmanaged, o.spec);
    OnlyKept(cfg, Unmanaged, w, w');
    NothingOursIsAbsent(cfg, w'.objs);
  }

  /** A teardown that fails part-way has still only removed tagged objects, and
      running it again finishes the job. */
  lemma TeardownResumes(cfg: Config, w: World)
    requires w.Valid()
    ensures var w' := Teardown(cfg, w).0.(script := []);
      && w'.Valid()
      && Teardown(cfg, w').0.objs == Keep(cfg, Unmanaged, w.objs)
  {
    SweepsAll(cfg, Unmanaged, Managed, w);
    TeardownExact(cfg, Teardown(cfg, w).0.(script := []));
  }

  // --- A sweep with nothing to do ---

  lemma SweepNothing(cfg: Config, sel: Selector, w: World)
    requires w.Valid() && forall o :: o in w.objs ==> !Selects(cfg, sel, o.spec)
    ensures Sweep(cfg, sel, SWEEP, w).0.objs == w.objs
  {
    SweepPathsNothing(cfg, sel, SWEEP, w);
  }

  lemma {:induction false} SweepPathsNothing(cfg: Config, sel: Selector, paths: seq<Path>, w: World)
    requires forall o :: o in w.objs ==> !Selects(cfg, sel, o.spec)
    ensures Sweep(cfg, sel, paths, w).0.objs == w.objs
  {
    if paths == [] {
    } else {
      DeleteNothing(cfg, sel, On(w.objs, paths[0]), w.Later());
      SweepPathsNothing(cfg, sel, paths[1..], SweepPath(cfg, sel, paths[0], w).0);
    }
  }

  lemma {:induction false} DeleteNothing(cfg: Config, sel: Selector, listing: seq<Obj>, w: World)
    requires forall o :: o in listing ==> !Selects(cfg, sel, o.spec)
    ensures DeleteSelected(cfg, sel, listing, w) == (w, Some(0))
  {
    if listing == [] {
    } else {
      DeleteNothing(cfg, sel, listing[1..], w);
    }
  }
}
