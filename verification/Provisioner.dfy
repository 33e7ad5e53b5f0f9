/** The provisioner itself: every operation request by request against the
    router, with its loops and early exits
    (apps/snx-edge-server/src/routeros/provisioner.rs). */
module Provisioner {
  import opened Text
  import opened Router
  import opened PolicyRouting

  class Provisioner {
    const router: RouterOs
    const cfg: Config

    constructor (router: RouterOs, cfg: Config)
      ensures this.router == router && this.cfg == cfg
    {
      this.router, this.cfg := router, cfg;
    }

    method EnsureKind(ip: string, k: Kind) returns (ok: bool)
      modifies router
      ensures (router.State(), ok) == Ensure(cfg, ip, k, old(router.State()))
    {
      hide Target, Covered, CreateCall;
      var listing := router.List(PathOf(k));
      if listing.None? { return false; }
      ghost var start := router.State();
      var i := 0;
      while i < Wanted(k)
        invariant i <= Wanted(k)
        invariant CreateMissing(cfg, ip, k, i, listing.value, router.State())
               == CreateMissing(cfg, ip, k, 0, listing.value, start)
      {
        if !Covered(cfg, k, i, listing.value) {
          var created := router.Create(Target(cfg, ip, k, i));
          if !created { return false; }
        }
        i := i + 1;
      }
      ok := true;
    }

    method DeleteListed(sel: Selector, objs: seq<Obj>) returns (n: Option<nat>)
      modifies router
      ensures (router.State(), n) == DeleteSelected(cfg, sel, objs, old(router.State()))
    {
      hide Selects, DeleteCall;
      var i, count := 0, 0;
      ghost var whole := DeleteSelected(cfg, sel, objs, router.State());
      while i < |objs|
        invariant i <= |objs|
        invariant var rest := DeleteSelected(cfg, sel, objs[i..], router.State());
          whole == (rest.0, if rest.1.Some? then Some(count + rest.1.value) else None)
      {
        assert objs[i..][0] == objs[i] && objs[i..][1..] == objs[i + 1..];
        if Selects(cfg, sel, objs[i].spec) {
          var deleted := router.Delete(objs[i].spec.path, objs[i].id);
          if !deleted { return None; }
          count := count + 1;
        }
        i := i + 1;
      }
      n := Some(count);
    }

    method SweepOne(sel: Selector, p: Path) returns (n: Option<nat>)
      modifies router
      ensures (router.State(), n) == SweepPath(cfg, sel, p, old(router.State()))
    {
      var listing := router.List(p);
      if listing.None? { return None; }
      n := DeleteListed(sel, listing.value);
    }

    method SweepPaths(sel: Selector, paths: seq<Path>) returns (n: Option<nat>)
      modifies router
      ensures (router.State(), n) == Sweep(cfg, sel, paths, old(router.State()))
    {
      hide PolicyRouting.SweepPath;
      var i, total := 0, 0;
      ghost var whole := Sweep(cfg, sel, paths, router.State());
      while i < |paths|
        invariant i <= |paths|
        invariant var rest := Sweep(cfg, sel, paths[i..], router.State());
          whole == (rest.0, if rest.1.Some? then Some(total + rest.1.value) else None)
      {
        assert paths[i..][0] == paths[i] && paths[i..][1..] == paths[i + 1..];
        var count := SweepOne(sel, paths[i]);
        if count.None? { return None; }
        total, i := total + count.value, i + 1;
      }
      n := Some(total);
    }

    method RunAllSteps(ip: string, steps: seq<Kind>) returns (report: Report)
      modifies router
      ensures (router.State(), report) == RunSteps(cfg, ip, steps, [], old(router.State()))
    {
      var i, applied := 0, [];
      ghost var whole := RunSteps(cfg, ip, steps, [], router.State());
      while i < |steps|
        invariant i <= |steps|
        invariant whole == RunSteps(cfg, ip, steps[i..], applied, router.State())
      {
        assert steps[i..][0] == steps[i] && steps[i..][1..] == steps[i + 1..];
        var ok := EnsureKind(ip, steps[i]);
        if !ok { return Report(applied, Some(steps[i])); }
        applied, i := applied + [steps[i]], i + 1;
      }
      report := Report(applied, None);
    }

    method Setup(ip: string) returns (report: Report)
      modifies router
      ensures var after := PolicyRouting.Setup(cfg, ip, old(router.State()));
        router.State() == after.0 && report == after.1
    {
      var _ := SweepPaths(Legacy, SWEEP);
      report := RunAllSteps(ip, STEPS);
      if report.failed.Some? {
        var _ := SweepPaths(Applied(report.applied), SWEEP);
      }
    }

    method Teardown() returns (n: Option<nat>)
      modifies router
      ensures (router.State(), n) == PolicyRouting.Teardown(cfg, old(router.State()))
    {
      n := SweepPaths(Managed, SWEEP);
    }

    method SetDefaultRoutePresent(gateway: string) returns (ok: bool)
      modifies router
      ensures (router.State(), ok) == PolicyRouting.SetDefaultRoutePresent(cfg, gateway, old(router.State()))
    {
      ok := EnsureKind(gateway, DefaultRoute);
    }

    method ClearDefaultRoute() returns (n: Option<nat>)
      modifies router
      ensures (router.State(), n) == PolicyRouting.ClearDefaultRoute(cfg, old(router.State()))
    {
      n := SweepOne(Applied([DefaultRoute]), Route);
    }

    method CountPresent(kinds: seq<Kind>, objs: seq<Obj>) returns (n: nat)
      ensures n == PresentCount(cfg, kinds, objs)
    {
      n := 0;
      var i := 0;
      while i < |kinds|
        invariant i <= |kinds|
        invariant PresentCount(cfg, kinds, objs) == n + PresentCount(cfg, kinds[i..], objs)
      {
        assert kinds[i..][0] == kinds[i] && kinds[i..][1..] == kinds[i + 1..];
        if Present(cfg, kinds[i], objs) { n := n + 1; }
        i := i + 1;
      }
    }

    /** Six listings, then one flag per kind. */
    method PresenceSnapshot() returns (layout: Option<Layout>)
      modifies router
      ensures router.State().objs == old(router.State().objs)
      ensures router.State().nextId == old(router.State().nextId)
      ensures layout.Some? ==> layout.value == LayoutState(cfg, router.State().objs)
      ensures layout.None? ==> exists i :: 0 <= i < |old(router.script)| && old(router.script)[i] != Works
    {
      var i, seen := 0, [];
      ghost var before := router.State();
      while i < |SWEEP|
        invariant i <= |SWEEP|
        invariant router.objs == before.objs && router.nextId == before.nextId
        invariant router.script == before.script[if i <= |before.script| then i else |before.script|..]
        invariant forall o :: o in seen <==> o in before.objs && o.spec.path in SWEEP[..i]
      {
        var listing := router.List(SWEEP[i]);
        if listing.None? { return None; }
        seen, i := seen + listing.value, i + 1;
      }
      assert forall o :: o in seen <==> o in before.objs by {
        forall p: Path ensures p in SWEEP[..6] { EveryPathSwept(p); }
      }
      var n := CountPresent(STEPS, seen);
      SameObjectsSamePresence(cfg, STEPS, seen, before.objs);
      layout := Some(if n == |STEPS| then Configured else if n == 0 then Absent else Partial);
    }
  }

  lemma {:induction false} SameObjectsSamePresence(cfg: Config, kinds: seq<Kind>, a: seq<Obj>, b: seq<Obj>)
    requires forall o :: o in a <==> o in b
    ensures PresentCount(cfg, kinds, a) == PresentCount(cfg, kinds, b)
  {
    if kinds == [] {
    } else {
      SameObjectsSamePresence(cfg, kinds[1..], a, b);
    }
  }
}
