/** A failure can be placed anywhere: for every operation that goes through on a
    reliable router there are answers under which it does the same and leaves
    the requests after it to any given fate. */
module Scripting {
  import opened Text
  import opened Router
  import opened PolicyRouting
  import opened Sweeping
  import opened Building

  function With(w: World, script: seq<Fault>): World {
    w.(script := script)
  }

  lemma WorksFirst(w: World, tail: seq<Fault>)
    ensures With(w, [Works] + tail).Fate() == Works
    ensures With(w, [Works] + tail).Later() == With(w, tail)
  {
    assert ([Works] + tail)[1..] == tail;
  }

  lemma {:induction false} DeletesWith(cfg: Config, sel: Selector, listing: seq<Obj>, w: World, tail: seq<Fault>)
    returns (script: seq<Fault>)
    requires w.script == [] && DeleteSelected(cfg, sel, listing, w).1.Some?
    ensures var (w', n) := DeleteSelected(cfg, sel, listing, w);
      DeleteSelected(cfg, sel, listing, With(w, script)) == (With(w', tail), n)
  {
    hide Selects;
    if listing == [] {
      script := tail;
    } else if !Selects(cfg, sel, listing[0].spec) {
      script := DeletesWith(cfg, sel, listing[1..], w, tail);
    } else {
      var w1 := DeleteCall(w, listing[0].spec.path, listing[0].id).0;
      var rest := DeletesWith(cfg, sel, listing[1..], w1, tail);
      script := [Works] + rest;
      WorksFirst(w, rest);
    }
  }

  lemma SweepPathWith(cfg: Config, sel: Selector, p: Path, w: World, tail: seq<Fault>) returns (script: seq<Fault>)
    requires w.script == [] && SweepPath(cfg, sel, p, w).1.Some?
    ensures var (w', n) := SweepPath(cfg, sel, p, w); SweepPath(cfg, sel, p, With(w, script)) == (With(w', tail), n)
  {
    hide DeleteSelected, On;
    var rest := DeletesWith(cfg, sel, On(w.objs, p), w, tail);
    script := [Works] + rest;
    WorksFirst(w, rest);
  }

  lemma SweepPathStays(cfg: Config, sel: Selector, p: Path, w: World)
    requires w.script == []
    ensures SweepPath(cfg, sel, p, w).0.script == []
  {
    DeletesStay(cfg, sel, On(w.objs, p), w);
  }

  lemma {:induction false} DeletesStay(cfg: Config, sel: Selector, listing: seq<Obj>, w: World)
    requires w.script == []
    ensures DeleteSelected(cfg, sel, listing, w).0.script == []
  {
    if listing == [] {
    } else if !Selects(cfg, sel, listing[0].spec) {
      DeletesStay(cfg, sel, listing[1..], w);
    } else {
      DeletesStay(cfg, sel, listing[1..], DeleteCall(w, listing[0].spec.path, listing[0].id).0);
    }
  }

  lemma {:induction false} SweepWith(cfg: Config, sel: Selector, paths: seq<Path>, w: World, tail: seq<Fault>)
    returns (script: seq<Fault>)
    requires w.script == [] && Sweep(cfg, sel, paths, w).1.Some?
    ensures var (w', n) := Sweep(cfg, sel, paths, w); Sweep(cfg, sel, paths, With(w, script)) == (With(w', tail), n)
  {
    hide SweepPath;
    if paths == [] {
      script := tail;
    } else {
      SweepPathStays(cfg, sel, paths[0], w);
      var rest := SweepWith(cfg, sel, paths[1..], SweepPath(cfg, sel, paths[0], w).0, tail);
      script := SweepPathWith(cfg, sel, paths[0], w, rest);
    }
  }

  lemma {:induction false} CreatesWith(
      cfg: Config, ip: string, k: Kind, i: nat, listing: seq<Obj>, w: World, tail: seq<Fault>)
    returns (script: seq<Fault>)
    requires i <= Wanted(k) && w.script == []
    ensures var (w', ok) := CreateMissing(cfg, ip, k, i, listing, w);
      && ok && w'.script == []
      && CreateMissing(cfg, ip, k, i, listing, With(w, script)) == (With(w', tail), true)
    decreases Wanted(k) - i
  {
    hide Target, Covered;
    if i == Wanted(k) {
      script := tail;
    } else if Covered(cfg, k, i, listing) {
      script := CreatesWith(cfg, ip, k, i + 1, listing, w, tail);
    } else {
      var w1 := CreateCall(w, Target(cfg, ip, k, i)).0;
      var rest := CreatesWith(cfg, ip, k, i + 1, listing, w1, tail);
      script := [Works] + rest;
      WorksFirst(w, rest);
    }
  }

  lemma EnsureWith(cfg: Config, ip: string, k: Kind, w: World, tail: seq<Fault>) returns (script: seq<Fault>)
    requires w.script == []
    ensures var (w', ok) := Ensure(cfg, ip, k, w);
      && ok && w'.script == [] && Ensure(cfg, ip, k, With(w, script)) == (With(w', tail), true)
  {
    hide CreateMissing, On;
    var rest := CreatesWith(cfg, ip, k, 0, On(w.objs, PathOf(k)), w, tail);
    script := [Works] + rest;
    WorksFirst(w, rest);
  }

  lemma {:induction false} StepsWith(cfg: Config, ip: string, todo: seq<Kind>, done: seq<Kind>, w: World, tail: seq<Fault>)
    returns (script: seq<Fault>)
    requires w.script == []
    ensures var (w', report) := RunSteps(cfg, ip, todo, done, w);
      && report == Report(done + todo, None) && w'.script == []
      && RunSteps(cfg, ip, todo, done, With(w, script)) == (With(w', tail), report)
  {
    hide Ensure;
    if todo == [] {
      script := tail;
      assert done + todo == done;
    } else {
      var more := done + [todo[0]];
      assert more + todo[1..] == done + todo;
      var none := EnsureWith(cfg, ip, todo[0], w, []);
      var rest := StepsWith(cfg, ip, todo[1..], more, Ensure(cfg, ip, todo[0], w).0, tail);
      script := EnsureWith(cfg, ip, todo[0], w, rest);
    }
  }

  /** Running the steps in two parts. */
  lemma {:induction false} RunStepsSplit(cfg: Config, ip: string, a: seq<Kind>, b: seq<Kind>, done: seq<Kind>, w: World)
    ensures var (w1, report) := RunSteps(cfg, ip, a, done, w);
      RunSteps(cfg, ip, a + b, done, w) ==
      if report.failed.Some? then (w1, report) else RunSteps(cfg, ip, b, report.applied, w1)
  {
    hide Ensure;
    if a == [] {
      assert a + b == b;
    } else {
      assert (a + b)[0] == a[0] && (a + b)[1..] == a[1..] + b;
      var (w1, ok) := Ensure(cfg, ip, a[0], w);
      if ok { RunStepsSplit(cfg, ip, a[1..], b, done + [a[0]], w1); }
    }
  }

  /** A run that went through, cut in two. */
  lemma PartOfRun(cfg: Config, ip: string, steps: seq<Kind>, n: nat, w: World)
    requires n <= |steps| && RunSteps(cfg, ip, steps, [], w).1.failed.None?
    ensures var (v, report) := RunSteps(cfg, ip, steps[..n], [], w);
      && report == Report(steps[..n], None)
      && RunSteps(cfg, ip, steps, [], w) == RunSteps(cfg, ip, steps[n..], steps[..n], v)
  {
    assert steps == steps[..n] + steps[n..] && [] + steps[..n] == steps[..n];
    hide RunSteps;
    RunStepsSplit(cfg, ip, steps[..n], steps[n..], [], w);
    RunStepsOrder(cfg, ip, steps[..n], [], w);
  }

  lemma RefusedListing(cfg: Config, ip: string, k: Kind, w: World, tail: seq<Fault>)
    ensures Ensure(cfg, ip, k, With(w, [Refused] + tail)) == (With(w, tail), false)
  {
    assert ([Refused] + tail)[1..] == tail;
  }

  /** Everything works up to the listing of step `n`, which is refused. */
  lemma StepsThenRefused(cfg: Config, ip: string, steps: seq<Kind>, n: nat, w: World, tail: seq<Fault>)
    returns (script: seq<Fault>)
    requires w.script == [] && n < |steps|
    ensures RunSteps(cfg, ip, steps, [], With(w, script)) ==
      (With(RunSteps(cfg, ip, steps[..n], [], w).0, tail), Report(steps[..n], Some(steps[n])))
  {
    hide Ensure;
    var w1 := RunSteps(cfg, ip, steps[..n], [], w).0;
    script := StepsWith(cfg, ip, steps[..n], [], w, [Refused] + tail);
    assert [] + steps[..n] == steps[..n];
    assert steps == steps[..n] + steps[n..] && steps[n..][0] == steps[n];
    RunStepsSplit(cfg, ip, steps[..n], steps[n..], [], With(w, script));
    RefusedListing(cfg, ip, steps[n], w1, tail);
  }

  /** What a run has built when the listing of step `n` comes. */
  function Built(cfg: Config, ip: string, n: nat, w: World): World
    requires n <= |STEPS|
  {
    RunSteps(cfg, ip, STEPS[..n], [], Migrate(cfg, w)).0
  }

  /** On a store of any kind a run can be made to fail at the listing of any step,
      with any fate for its rollback. */
  lemma FailsAt(cfg: Config, ip: string, w: World, n: nat, tail: seq<Fault>) returns (script: seq<Fault>)
    requires w.Valid() && w.script == [] && n < |STEPS|
    ensures var (w', report, rolledBack) := Setup(cfg, ip, With(w, script));
      var (undone, count) := Sweep(cfg, Applied(STEPS[..n]), SWEEP, With(Built(cfg, ip, n, w), tail));
      && report == Report(STEPS[..n], Some(STEPS[n]))
      && w' == undone && rolledBack == count.Some?
  {
    hide Sweep, RunSteps, STEPS, SWEEP, Distinct, Selects, Keep;
    SweepsAll(cfg, Unmanaged, Legacy, w);
    var w0 := Migrate(cfg, w);
    var rest := StepsThenRefused(cfg, ip, STEPS, n, w0, tail);
    script := SweepWith(cfg, Legacy, SWEEP, w, rest);
    assert Migrate(cfg, With(w, script)) == With(w0, rest);
  }
}
