/** The container's side of the data plane: the NAT rule list with its three
    editing loops, and one uninterrupted `apply`
    (apps/snx-edge-server/src/net.rs, reconciler.rs). */
module DataPlane {
  import opened Text
  import opened Tunnel
  import opened Reconciler

  /** `iptables -D`: removes the first rule equal to `r`. */
  function DeleteFirst(rules: seq<NatRule>, r: NatRule): seq<NatRule> {
    if rules == [] then []
    else if rules[0] == r then rules[1..]
    else [rules[0]] + DeleteFirst(rules[1..], r)
  }

  function WithoutRule(rules: seq<NatRule>, r: NatRule): seq<NatRule> {
    if rules == [] then []
    else (if rules[0] == r then [] else [rules[0]]) + WithoutRule(rules[1..], r)
  }

  lemma {:induction false} DeleteFirstBag(rules: seq<NatRule>, r: NatRule)
    ensures multiset(DeleteFirst(rules, r)) == multiset(rules) - multiset{r}
  {
    if rules == [] {
    } else {
      assert rules == [rules[0]] + rules[1..];
      if rules[0] != r { DeleteFirstBag(rules[1..], r); }
    }
  }

  lemma {:induction false} DeleteFirstEffect(rules: seq<NatRule>, r: NatRule)
    ensures WithoutRule(DeleteFirst(rules, r), r) == WithoutRule(rules, r)
    ensures r in rules ==> |DeleteFirst(rules, r)| == |rules| - 1
  {
    if rules == [] || rules[0] == r {
    } else {
      DeleteFirstEffect(rules[1..], r);
      var rest := DeleteFirst(rules[1..], r);
      assert ([rules[0]] + rest)[1..] == rest;
    }
  }

  lemma {:induction false} DeleteFirstKeepsUntagged(rules: seq<NatRule>, r: NatRule)
    requires !r.Other?
    ensures Untagged(DeleteFirst(rules, r)) == Untagged(rules)
  {
    if rules == [] {
    } else {
      var tail := rules[1..];
      assert rules == [rules[0]] + tail;
      UntaggedJoin([rules[0]], tail);
      if rules[0] != r {
        DeleteFirstKeepsUntagged(tail, r);
        UntaggedJoin([rules[0]], DeleteFirst(tail, r));
      } else {
        assert Untagged([r]) == [];
      }
    }
  }

  lemma {:induction false} UntaggedJoin(a: seq<NatRule>, b: seq<NatRule>)
    ensures Untagged(a + b) == Untagged(a) + Untagged(b)
  {
    if b == [] {
      assert a + b == a;
    } else {
      var n := |b| - 1;
      UntaggedJoin(a, b[..n]);
      UntaggedLast(a + b);
      UntaggedLast(b);
      hide Untagged;
      assert (a + b)[..|a| + n] == a + b[..n];
    }
  }

  lemma UntaggedLast(rules: seq<NatRule>)
    requires rules != []
    ensures var n := |rules| - 1;
      Untagged(rules) == Untagged(rules[..n]) + if rules[n].Other? then [rules[n]] else []
  {
  }

  lemma {:induction false} NoRuleToRemove(rules: seq<NatRule>, r: NatRule)
    requires r !in rules
    ensures WithoutRule(rules, r) == rules
  {
    if rules == [] {
    } else {
      NoRuleToRemove(rules[1..], r);
      assert rules == [rules[0]] + rules[1..];
    }
  }

  /** The rules left once the first `i` lines of a listing have been walked. */
  ghost function Walked(lines: seq<NatRule>, i: nat): multiset<NatRule>
    requires i <= |lines|
  {
    multiset(Untagged(lines[..i])) + multiset(lines[i..])
  }

  lemma PullFirst<T>(all: multiset<T>, kept: seq<T>, lines: seq<T>, i: nat)
    requires i < |lines| && all == multiset(kept) + multiset(lines[i..])
    ensures all - multiset{lines[i]} == multiset(kept) + multiset(lines[i + 1..])
    ensures all == multiset(kept + [lines[i]]) + multiset(lines[i + 1..])
  {
    assert lines[i..] == [lines[i]] + lines[i + 1..];
  }

  lemma UntaggedOne(lines: seq<NatRule>, i: nat)
    requires i < |lines|
    ensures Untagged(lines[..i + 1]) == Untagged(lines[..i]) + if lines[i].Other? then [lines[i]] else []
  {
    assert lines[..i + 1][..i] == lines[..i];
  }

  lemma WalkOne(lines: seq<NatRule>, i: nat, rules: seq<NatRule>)
    requires i < |lines| && multiset(rules) == Walked(lines, i) && Untagged(rules) == Untagged(lines)
    ensures var rules' := if lines[i].Other? then rules else DeleteFirst(rules, lines[i]);
      multiset(rules') == Walked(lines, i + 1) && Untagged(rules') == Untagged(lines)
  {
    hide Untagged, DeleteFirst;
    PullFirst(multiset(rules), Untagged(lines[..i]), lines, i);
    UntaggedOne(lines, i);
    if !lines[i].Other? {
      DeleteFirstBag(rules, lines[i]);
      DeleteFirstKeepsUntagged(rules, lines[i]);
      assert Untagged(lines[..i]) + [] == Untagged(lines[..i]);
    }
  }

  lemma WalkStart(lines: seq<NatRule>)
    ensures Walked(lines, 0) == multiset(lines)
  {
    assert lines[..0] == [] && lines[0..] == lines;
  }

  lemma WalkedAll(lines: seq<NatRule>, rules: seq<NatRule>)
    requires multiset(rules) == Walked(lines, |lines|) && Untagged(rules) == Untagged(lines)
    ensures rules == Untagged(lines)
  {
    assert lines[..|lines|] == lines;
    UntaggedClears(lines);
    forall r | r in rules
      ensures r.Other?
    {
      assert r in multiset(rules);
    }
    AllUntagged(rules);
  }

  /** What an action from its `n`-th edit on makes of the plane. Without a router
      client the route step is skipped, which is no failure. */
  function Outcome(p: Plane, a: Action, n: nat, s: Status, works: nat -> bool): Plane
    requires n <= 2
    decreases 2 - n
  {
    var ok := works(n) || (n == 1 && !p.router);
    var p' := if ok then Edit(p, a, n, s) else p;
    if GoesOn(a, n, ok) then Outcome(p', a, n + 1, s, works) else p'
  }

  /** That is what the protocol arrives at if nobody interrupts. */
  lemma {:induction false} ActionRuns(c: System, moves: seq<Move>, works: nat -> bool) returns (more: seq<Move>)
    requires Possible(c, moves) && After(c, moves).phase.Applying? && After(c, moves).phase.n <= 2
    ensures Possible(c, more)
    ensures var (c0, c1) := (After(c, moves), After(c, more));
      && c1.phase.Idle? && c1.status == c0.status && c1.unsent == c0.unsent && c1.queue == c0.queue
      && c1.last == c0.last && c1.plane == Outcome(c0.plane, c0.last, c0.phase.n, c0.status, works)
    decreases 3 - After(c, moves).phase.n
  {
    hide After, Possible, Edit;
    var c0 := After(c, moves);
    var n := c0.phase.n;
    var ok := works(n) || (n == 1 && !c0.plane.router);
    more := Extend(c, moves, Advance(ok));
    EditKeepsRouter(c0.plane, c0.last, n, c0.status);
    if GoesOn(c0.last, n, ok) {
      more := ActionRuns(c, more, works);
    }
  }

  lemma EditKeepsRouter(p: Plane, a: Action, n: nat, s: Status)
    ensures Edit(p, a, n, s).router == p.router
  {
  }

  class DataPlane {
    var rules: seq<NatRule>
    var route: bool
    var dns: Option<Dns>
    const router: bool

    constructor (rules: seq<NatRule>, router: bool)
      ensures Now() == Plane(rules, false, None, router)
    {
      this.rules, route, dns, this.router := rules, false, None, router;
    }

    function Now(): Plane
      reads this
    {
      Plane(rules, route, dns, router)
    }

    method ApplyVpnMasquerade(iface: string) returns (ok: bool)
      modifies this`rules
      ensures ok == (iface != "") && rules == WithMasquerade(old(rules), iface)
    {
      if iface == "" { return false; }
      if Masquerade(iface) !in rules {
        rules := rules + [Masquerade(iface)];
      }
      ok := true;
    }

    /** Deletes until the check no longer finds the rule. */
    method ClearVpnMasquerade(iface: string)
      modifies this`rules
      ensures rules == WithoutRule(old(rules), Masquerade(iface))
    {
      var r := Masquerade(iface);
      while r in rules
        invariant WithoutRule(rules, r) == WithoutRule(old(rules), r)
        decreases |rules|
      {
        DeleteFirstEffect(rules, r);
        rules := DeleteFirst(rules, r);
      }
      NoRuleToRemove(rules, r);
    }

    /** Walks a listing taken at the start and deletes one rule per line that
        carries the tag, ours or not. */
    method CleanupManaged()
      modifies this`rules
      ensures rules == Untagged(old(rules))
    {
      hide Untagged, DeleteFirst;
      var lines, i := rules, 0;
      WalkStart(lines);
      while i < |lines|
        invariant i <= |lines|
        invariant Untagged(rules) == Untagged(lines)
        invariant multiset(rules) == Walked(lines, i)
      {
        WalkOne(lines, i, rules);
        if !lines[i].Other? {
          rules := DeleteFirst(rules, lines[i]);
        }
        i := i + 1;
      }
      WalkedAll(lines, rules);
    }

    /** One whole action on a steady status, with the failures `works` names.
        Engaging an empty interface name is refused before anything is done.
        A clean-up that fails does not keep the route from going. */
    method Apply(a: Action, status: Status, works: nat -> bool) returns (ok: bool)
      modifies this
      ensures Now() == if a == Engage("") then old(Now()) else Outcome(old(Now()), a, 0, status, works)
      ensures a.Engage? ==> (ok <==> a.iface != "" && works(0) && (works(1) || !router))
      ensures a.Disengage? ==> (ok <==> works(1) || !router) && (ok && router ==> !route)
    {
      match a
      case Engage(iface) =>
        if !works(0) { return false; }
        ok := ApplyVpnMasquerade(iface);
        if !ok { return; }
        if router {
          if !works(1) { return false; }
          route := true;
        }
        if works(2) && status.Connected? { dns := Some(Dns(status.info.dns, status.info.domains)); }
      case Disengage =>
        if works(0) { CleanupManaged(); }
        if router {
          if !works(1) { return false; }
          route := false;
        }
        if works(2) { dns := None; }
        ok := true;
    }
  }
}
