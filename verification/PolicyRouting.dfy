/** The policy-routing layout and the operations that build, sweep and unwind
    it (apps/snx-edge-server/src/routeros/provisioner.rs), as functions on the
    router's state. */
module PolicyRouting {
  import opened Text
  import opened Comments
  import opened Router

  datatype Config = Config(
    tag: string, listVpn: string, listBypass: string, listCorp: string,
    table: string, connMark: string, routingMark: string)

  datatype Kind =
    | RoutingTable | ConnMark | RoutingMark | MssClamp | DefaultRoute
    | KillSwitch | DnsDstNat | DotBlock | Fasttrack | Rfc1918

  function Label(k: Kind): string {
    match k
    case RoutingTable => "routing-table"
    case ConnMark => "mangle-conn-mark"
    case RoutingMark => "mangle-routing-mark"
    case MssClamp => "mss-clamp"
    case DefaultRoute => "default-route"
    case KillSwitch => "kill-switch"
    case DnsDstNat => "dns-dst-nat"
    case DotBlock => "dot-block"
    case Fasttrack => "fasttrack-bypass"
    case Rfc1918 => "rfc1918-bypass"
  }

  /** The order in which `setup` runs its steps. */
  const STEPS: seq<Kind> :=
    [RoutingTable, ConnMark, RoutingMark, MssClamp, DefaultRoute,
     KillSwitch, DnsDstNat, DotBlock, Fasttrack, Rfc1918]

  /** The order of every sweep: dependents first. */
  const SWEEP: seq<Path> := [Filter, Nat, Mangle, Route, AddressList, Table]

  function PathOf(k: Kind): Path {
    match k
    case RoutingTable => Table
    case ConnMark | RoutingMark | MssClamp => Mangle
    case DefaultRoute | KillSwitch => Route
    case DnsDstNat => Nat
    case DotBlock | Fasttrack => Filter
    case Rfc1918 => AddressList
  }

  // --- Ownership ---

  predicate IsManaged(cfg: Config, s: Spec) {
    s.comment.Some? && MatchesTag(s.comment.value, cfg.tag)
  }

  predicate IsOld(cfg: Config, s: Spec) {
    s.comment.Some? && IsLegacy(s.comment.value, cfg.tag)
  }

  predicate OfKind(cfg: Config, s: Spec, k: Kind) {
    s.comment.Some? && MatchesKind(s.comment.value, cfg.tag, Label(k))
  }

  predicate OfStepKind(cfg: Config, s: Spec) {
    exists k: Kind :: OfKind(cfg, s, k)
  }

  /** Which objects a sweep removes. */
  datatype Selector = Managed | Legacy | Applied(kinds: seq<Kind>)

  predicate Selects(cfg: Config, sel: Selector, s: Spec) {
    match sel
    case Managed => IsManaged(cfg, s)
    case Legacy => IsOld(cfg, s)
    case Applied(kinds) => exists k :: k in kinds && OfKind(cfg, s, k)
  }

  // --- The objects each step wants ---

  function Rule(cfg: Config, k: Kind, attrs: map<string, string>): Spec {
    Spec(PathOf(k), Some(CommentForKind(cfg.tag, Label(k))), attrs)
  }

  function Protocol(k: Kind, i: nat): string {
    if (k == DnsDstNat) == (i == 0) then "udp" else "tcp"
  }

  function Rfc1918Range(i: nat): string {
    if i == 0 then "192.168.0.0/16" else if i == 1 then "172.16.0.0/12" else "10.0.0.0/8"
  }

  function Wanted(k: Kind): nat {
    match k
    case DnsDstNat | DotBlock => 2
    case Rfc1918 => 3
    case _ => 1
  }

  function Target(cfg: Config, ip: string, k: Kind, i: nat): Spec
    requires i < Wanted(k)
  {
    match k
    case RoutingTable => Rule(cfg, k, map["name" := cfg.table, "fib" := ""])
    case ConnMark => Rule(cfg, k, map[
      "chain" := "prerouting", "src-address-list" := cfg.listVpn,
      "dst-address-list" := cfg.listCorp, "connection-state" := "new",
      "action" := "mark-connection", "new-connection-mark" := cfg.connMark, "passthrough" := "yes"])
    case RoutingMark => Rule(cfg, k, map[
      "chain" := "prerouting", "connection-mark" := cfg.connMark, "action" := "mark-routing",
      "new-routing-mark" := cfg.routingMark, "passthrough" := "no"])
    case MssClamp => Rule(cfg, k, map[
      "chain" := "forward", "connection-mark" := cfg.connMark, "protocol" := "tcp",
      "tcp-flags" := "syn", "action" := "change-mss", "new-mss" := "clamp-to-pmtu", "passthrough" := "yes"])
    case DefaultRoute => Rule(cfg, k, map[
      "dst-address" := "0.0.0.0/0", "gateway" := ip, "routing-table" := cfg.table,
      "check-gateway" := "ping", "distance" := "1"])
    case KillSwitch => Rule(cfg, k, map[
      "dst-address" := "0.0.0.0/0", "type" := "blackhole", "routing-table" := cfg.table,
      "distance" := "254"])
    case DnsDstNat => Rule(cfg, k, map[
      "chain" := "dstnat", "src-address-list" := cfg.listVpn, "dst-port" := "53",
      "protocol" := Protocol(k, i), "action" := "dst-nat", "to-addresses" := ip])
    case DotBlock => Rule(cfg, k, map[
      "chain" := "forward", "src-address-list" := cfg.listVpn, "dst-port" := "853",
      "protocol" := Protocol(k, i), "action" := "drop"])
    case Fasttrack => Rule(cfg, k, map[
      "chain" := "forward", "action" := "fasttrack-connection",
      "connection-state" := "established,related", "connection-mark" := "no-mark"])
    case Rfc1918 => Rule(cfg, k, map["list" := cfg.listBypass, "address" := Rfc1918Range(i)])
  }

  /** Whether an object already in the list makes a step skip its `i`-th
      target. A table counts by name and a bypass range by list and address,
      whoever owns them; the rest count by kind, and by protocol where the
      step wants one object per protocol. */
  predicate Covers(cfg: Config, k: Kind, i: nat, s: Spec) {
    s.path == PathOf(k) &&
    match k
    case RoutingTable => s.Attr("name") == Some(cfg.table)
    case DnsDstNat | DotBlock => s.Attr("protocol") == Some(Protocol(k, i)) && OfKind(cfg, s, k)
    case Rfc1918 => s.Attr("list") == Some(cfg.listBypass) && s.Attr("address") == Some(Rfc1918Range(i))
    case _ => OfKind(cfg, s, k)
  }

  predicate Covered(cfg: Config, k: Kind, i: nat, objs: seq<Obj>) {
    exists o :: o in objs && Covers(cfg, k, i, o.spec)
  }

  // --- The operations on the router's state ---

  /** Creates the targets from the `i`-th on that the listing does not cover. */
  function CreateMissing(cfg: Config, ip: string, k: Kind, i: nat, listing: seq<Obj>, w: World): (World, bool)
    requires i <= Wanted(k)
    decreases Wanted(k) - i
  {
    if i == Wanted(k) then (w, true)
    else if Covered(cfg, k, i, listing) then CreateMissing(cfg, ip, k, i + 1, listing, w)
    else
      var (w1, ok) := CreateCall(w, Target(cfg, ip, k, i));
      if ok then CreateMissing(cfg, ip, k, i + 1, listing, w1) else (w1, false)
  }

  function Ensure(cfg: Config, ip: string, k: Kind, w: World): (World, bool) {
    var (w1, listing) := ListCall(w, PathOf(k));
    if listing.None? then (w1, false) else CreateMissing(cfg, ip, k, 0, listing.value, w1)
  }

  /** Deletes the selected objects of a listing, in order, up to the first
      error; on success, how many there were. */
  function DeleteSelected(cfg: Config, sel: Selector, listing: seq<Obj>, w: World): (World, Option<nat>) {
    if listing == [] then (w, Some(0))
    else if !Selects(cfg, sel, listing[0].spec) then DeleteSelected(cfg, sel, listing[1..], w)
    else
      var (w1, ok) := DeleteCall(w, listing[0].spec.path, listing[0].id);
      if !ok then (w1, None)
      else
        var (w2, n) := DeleteSelected(cfg, sel, listing[1..], w1);
        (w2, if n.Some? then Some(n.value + 1) else None)
  }

  function SweepPath(cfg: Config, sel: Selector, p: Path, w: World): (World, Option<nat>) {
    var (w1, listing) := ListCall(w, p);
    if listing.None? then (w1, None) else DeleteSelected(cfg, sel, listing.value, w1)
  }

  function Sweep(cfg: Config, sel: Selector, paths: seq<Path>, w: World): (World, Option<nat>) {
    if paths == [] then (w, Some(0))
    else
      var (w1, n) := SweepPath(cfg, sel, paths[0], w);
      if n.None? then (w1, None)
      else
        var (w2, m) := Sweep(cfg, sel, paths[1..], w1);
        (w2, if m.Some? then Some(n.value + m.value) else None)
  }

  /** `applied` lists the steps that completed; `failed` is the step that
      stopped the run. */
  datatype Report = Report(applied: seq<Kind>, failed: Option<Kind>)

  function RunSteps(cfg: Config, ip: string, todo: seq<Kind>, done: seq<Kind>, w: World): (World, Report) {
    if todo == [] then (w, Report(done, None))
    else
      var (w1, ok) := Ensure(cfg, ip, todo[0], w);
      if ok then RunSteps(cfg, ip, todo[1..], done + [todo[0]], w1)
      else (w1, Report(done, Some(todo[0])))
  }

  function Migrate(cfg: Config, w: World): World {
    Sweep(cfg, Legacy, SWEEP, w).0
  }

  /** The whole of `setup`: sweep legacy objects as far as that goes, run the
      steps, and unwind the applied kinds if one failed. The last component
      says whether the unwinding, if any, went through. */
  function Setup(cfg: Config, ip: string, w: World): (World, Report, bool) {
    var (w1, report) := RunSteps(cfg, ip, STEPS, [], Migrate(cfg, w));
    if report.failed.None? then (w1, report, true)
    else
      var (w2, n) := Sweep(cfg, Applied(report.applied), SWEEP, w1);
      (w2, report, n.Some?)
  }

  function Teardown(cfg: Config, w: World): (World, Option<nat>) {
    Sweep(cfg, Managed, SWEEP, w)
  }

  function SetDefaultRoutePresent(cfg: Config, gateway: string, w: World): (World, bool) {
    Ensure(cfg, gateway, DefaultRoute, w)
  }

  function ClearDefaultRoute(cfg: Config, w: World): (World, Option<nat>) {
    SweepPath(cfg, Applied([DefaultRoute]), Route, w)
  }

  // --- Presence ---

  predicate Shows(cfg: Config, k: Kind, s: Spec) {
    s.path == PathOf(k) && OfKind(cfg, s, k) &&
    match k
    case RoutingTable => s.Attr("name") == Some(cfg.table)
    case Rfc1918 => s.Attr("list") == Some(cfg.listBypass)
    case _ => true
  }

  predicate Present(cfg: Config, k: Kind, objs: seq<Obj>) {
    exists o :: o in objs && Shows(cfg, k, o.spec)
  }

  function PresentCount(cfg: Config, kinds: seq<Kind>, objs: seq<Obj>): nat {
    if kinds == [] then 0
    else (if Present(cfg, kinds[0], objs) then 1 else 0) + PresentCount(cfg, kinds[1..], objs)
  }

  /** The count says "none" and "all" exactly when that is so. */
  lemma {:induction false} PresentExtremes(cfg: Config, kinds: seq<Kind>, objs: seq<Obj>)
    ensures PresentCount(cfg, kinds, objs) <= |kinds|
    ensures PresentCount(cfg, kinds, objs) == 0 <==> forall k :: k in kinds ==> !Present(cfg, k, objs)
    ensures PresentCount(cfg, kinds, objs) == |kinds| <==> forall k :: k in kinds ==> Present(cfg, k, objs)
  {
    hide Present;
    if kinds == [] {
    } else {
      PresentExtremes(cfg, kinds[1..], objs);
      assert kinds == [kinds[0]] + kinds[1..];
    }
  }

  datatype Layout = Configured | Partial | Absent

  function LayoutState(cfg: Config, objs: seq<Obj>): Layout {
    var n := PresentCount(cfg, STEPS, objs);
    if n == |STEPS| then Configured else if n == 0 then Absent else Partial
  }

  /** "Absent" means no kind is there, "configured" that every kind is. */
  lemma LayoutReads(cfg: Config, objs: seq<Obj>)
    ensures LayoutState(cfg, objs) == Absent <==> forall k: Kind :: !Present(cfg, k, objs)
    ensures LayoutState(cfg, objs) == Configured <==> forall k: Kind :: Present(cfg, k, objs)
  {
    PresentExtremes(cfg, STEPS, objs);
    forall k: Kind ensures k in STEPS { EveryKindStepped(k); }
  }

  lemma EveryPathSwept(p: Path)
    ensures p in SWEEP && SWEEP[..|SWEEP|] == SWEEP
  {
    assert SWEEP[0] == Filter && SWEEP[1] == Nat && SWEEP[2] == Mangle;
    assert SWEEP[3] == Route && SWEEP[4] == AddressList && SWEEP[5] == Table;
  }

  lemma EveryKindStepped(k: Kind)
    ensures k in STEPS
  {
    assert STEPS[0] == RoutingTable && STEPS[1] == ConnMark && STEPS[2] == RoutingMark;
    assert STEPS[3] == MssClamp && STEPS[4] == DefaultRoute && STEPS[5] == KillSwitch;
    assert STEPS[6] == DnsDstNat && STEPS[7] == DotBlock && STEPS[8] == Fasttrack;
    assert STEPS[9] == Rfc1918;
  }

  lemma StepsInOrder()
    ensures |STEPS| == 10
    ensures STEPS[0] == RoutingTable && STEPS[1] == ConnMark && STEPS[2] == RoutingMark && STEPS[3] == MssClamp
    ensures STEPS[4] == DefaultRoute && STEPS[5] == KillSwitch && STEPS[6] == DnsDstNat && STEPS[7] == DotBlock
    ensures STEPS[8] == Fasttrack && STEPS[9] == Rfc1918
  {
  }
}
