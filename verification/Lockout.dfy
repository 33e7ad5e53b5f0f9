/** How fast passwords can be guessed: the account lock as a bound on time
    (apps/snx-edge-server/src/api/auth.rs, db.rs). */
module Lockout {
  import opened Text
  import opened AuthStore
  import opened AuthProofs

  /** The attempt is compared with the password, and fails. */
  predicate Fails(s: Store, step: Step, u: nat) {
    && step == SignIn(u, false)
    && u in s.users && s.users[u].enabled
    && (s.users[u].lockedUntil.Some? ==> s.users[u].lockedUntil.value <= s.now)
  }

  predicate Succeeds(cfg: Config, s: Store, step: Step, u: nat) {
    step == SignIn(u, true) && Login(cfg, s, u, true).1.Done?
  }

  /** An attempt that finds an expired lock starts the count again. */
  predicate Unlocks(s: Store, step: Step, u: nat) {
    && step.SignIn? && step.id == u
    && u in s.users && s.users[u].lockedUntil.Some? && s.users[u].lockedUntil.value <= s.now
  }

  /** The times of the failures, how many locks earned by them have expired, and
      how many failures came since. */
  datatype Record = Record(times: seq<nat>, locks: nat, since: nat)

  function Note(r: Record, s: Store, step: Step, u: nat): Record {
    var r1 := if !Unlocks(s, step, u) then r else r.(locks := r.locks + if r.since > 0 then 1 else 0, since := 0);
    if Fails(s, step, u) then r1.(times := r1.times + [s.now], since := r1.since + 1) else r1
  }

  function History(cfg: Config, s: Store, steps: seq<Step>, u: nat): Record {
    if steps == [] then Record([], 0, 0)
    else
      var n := |steps| - 1;
      Note(History(cfg, s, steps[..n], u), Run(cfg, s, steps[..n]), steps[n], u)
  }

  predicate NoSuccess(cfg: Config, s: Store, steps: seq<Step>, u: nat)
    decreases |steps|
  {
    steps == [] ||
      var n := |steps| - 1;
      NoSuccess(cfg, s, steps[..n], u) && !Succeeds(cfg, Run(cfg, s, steps[..n]), steps[n], u)
  }

  /** Attempts allowed before a lock; zero locks at the first failure too. */
  function Allowed(cfg: Config): nat {
    if cfg.maxAttempts == 0 then 1 else cfg.maxAttempts
  }

  predicate Spaced(cfg: Config, times: seq<nat>) {
    times == [] ||
      times[|times| - 1] >= times[0] + ((|times| - 1) / Allowed(cfg)) * cfg.lockout
  }

  predicate Counted(cfg: Config, s: Store, u: nat, r: Record) {
    && Spaced(cfg, r.times)
    && |r.times| <= r.locks * Allowed(cfg) + r.since
    && r.since <= Allowed(cfg)
    && (r.times == [] ==> r.locks == 0 && r.since == 0)
    && (r.times != [] ==> u < s.next && s.now >= r.times[0] + r.locks * cfg.lockout)
    && (u in s.users ==>
          && r.since <= s.users[u].failed
          && (s.users[u].lockedUntil.None? ==> r.since < Allowed(cfg))
          && (s.users[u].lockedUntil.Some? && r.since > 0 ==>
                s.users[u].lockedUntil.value >= r.times[0] + (r.locks + 1) * cfg.lockout))
  }

  lemma {:induction false} TimesGrows(a: nat, b: nat, k: nat)
    ensures a <= b ==> a * k <= b * k
  {
    if a <= b {
      assert b * k == a * k + (b - a) * k;
    }
  }

  lemma DivideBound(n: nat, locks: nat, m: nat, c: nat, d: nat)
    requires n <= locks * m + c && c < m
    ensures (n / m) * d <= locks * d
  {
    var q := n / m;
    assert q * m <= n;
    TimesGrows(locks + 1, q, m);
    assert q <= locks;
    TimesGrows(q, locks, d);
  }

  /** The lock fields of a row change only when that user signs in. */
  lemma OthersLeaveLock(cfg: Config, s: Store, step: Step, u: nat)
    requires Inv(s) && !(step.SignIn? && step.id == u)
    ensures var t := Handle(cfg, s, step).0;
      && s.now <= t.now && s.next <= t.next
      && (u in t.users ==>
            if u in s.users then
              t.users[u].failed == s.users[u].failed && t.users[u].lockedUntil == s.users[u].lockedUntil
            else s.next <= u && t.users[u].failed == 0 && t.users[u].lockedUntil.None?)
  {
    hide Inv, UsersMove, OtherAdmin, May, TokenFor;
    if step.Call? {
      AuthorizeKeeps(cfg, s, step.c);
      ServeLeavesLock(Authorize(cfg, s, step.c).0, step.c, step.req, u);
    }
  }

  lemma ServeLeavesLock(s: Store, c: Claims, req: Request, u: nat)
    requires Inv(s)
    ensures var t := Serve(s, c, req).0;
      && s.now <= t.now && s.next <= t.next
      && (u in t.users ==>
            if u in s.users then
              t.users[u].failed == s.users[u].failed && t.users[u].lockedUntil == s.users[u].lockedUntil
            else s.next <= u && t.users[u].failed == 0 && t.users[u].lockedUntil.None?)
  {
    hide OtherAdmin, May, TokenFor, Inv;
    KnownIds(s, u);
  }

  lemma KnownIds(s: Store, u: nat)
    requires Inv(s)
    ensures u in s.users ==> u < s.next
  {
  }

  /** An expired lock was earned by at most the allowed number of failures. */
  lemma UnlockKeeps(cfg: Config, s: Store, u: nat, r: Record)
    requires Counted(cfg, s, u, r)
    requires u in s.users && s.users[u].lockedUntil.Some? && s.users[u].lockedUntil.value <= s.now
    ensures var locks := r.locks + if r.since > 0 then 1 else 0;
      Counted(cfg, ResetFailures(s, u), u, r.(locks := locks, since := 0))
  {
    hide Spaced;
    assert (r.locks + 1) * Allowed(cfg) == r.locks * Allowed(cfg) + Allowed(cfg);
  }

  lemma FailureKeeps(cfg: Config, s: Store, u: nat, r: Record)
    requires Counted(cfg, s, u, r) && u in s.users && s.users[u].lockedUntil.None? && u < s.next
    ensures Counted(cfg, RecordFailure(cfg, s, u), u, r.(times := r.times + [s.now], since := r.since + 1))
  {
    var times := r.times + [s.now];
    DivideBound(|r.times|, r.locks, Allowed(cfg), r.since, cfg.lockout);
    assert times[|times| - 1] == s.now && times[0] == if r.times == [] then s.now else r.times[0];
    assert (r.locks + 1) * cfg.lockout == r.locks * cfg.lockout + cfg.lockout;
  }

  lemma StepCounts(cfg: Config, s: Store, step: Step, u: nat, r: Record)
    requires Inv(s) && Counted(cfg, s, u, r) && !Succeeds(cfg, s, step, u)
    ensures Counted(cfg, Handle(cfg, s, step).0, u, Note(r, s, step, u))
  {
    hide Inv;
    if !(step.SignIn? && step.id == u) {
      hide Handle, Spaced, Fails;
      OthersLeaveLock(cfg, s, step, u);
    } else {
      KnownIds(s, u);
      SignInCounts(cfg, s, step.valid, u, r);
    }
  }

  lemma SignInCounts(cfg: Config, s: Store, valid: bool, u: nat, r: Record)
    requires Counted(cfg, s, u, r) && !Succeeds(cfg, s, SignIn(u, valid), u) && (u in s.users ==> u < s.next)
    ensures Counted(cfg, Login(cfg, s, u, valid).0, u, Note(r, s, SignIn(u, valid), u))
  {
    hide Counted, RecordFailure;
    var s1, r1 := s, r;
    if Unlocks(s, SignIn(u, valid), u) {
      UnlockKeeps(cfg, s, u, r);
      s1 := ResetFailures(s, u);
      r1 := r.(locks := r.locks + if r.since > 0 then 1 else 0, since := 0);
    }
    if Fails(s, SignIn(u, valid), u) {
      FailureKeeps(cfg, s1, u, r1);
    }
  }

  lemma {:induction false} RunCounts(cfg: Config, s: Store, steps: seq<Step>, u: nat)
    requires Inv(s) && NoSuccess(cfg, s, steps, u)
    ensures Counted(cfg, Run(cfg, s, steps), u, History(cfg, s, steps, u))
  {
    if steps == [] {
      assert Allowed(cfg) > 0;
    } else {
      hide Inv, Counted, Handle, Note;
      var n := |steps| - 1;
      RunCounts(cfg, s, steps[..n], u);
      RunKeeps(cfg, s, steps[..n]);
      StepCounts(cfg, Run(cfg, s, steps[..n]), steps[n], u, History(cfg, s, steps[..n], u));
    }
  }

  /** In any run without a successful sign-in of the user, `n` failed
      comparisons span at least one lock duration for every full allowance of
      attempts before the last. */
  lemma GuessingTakesTime(cfg: Config, s: Store, steps: seq<Step>, u: nat)
    requires Inv(s) && NoSuccess(cfg, s, steps, u)
    ensures var times := History(cfg, s, steps, u).times;
      times != [] ==>
        times[|times| - 1] - times[0] >= ((|times| - 1) / Allowed(cfg)) * cfg.lockout
  {
    RunCounts(cfg, s, steps, u);
  }

  // --- While locked ---

  predicate LockedUntil(s: Store, u: nat, until: nat) {
    u in s.users && s.users[u].lockedUntil == Some(until)
  }

  lemma StepKeepsLock(cfg: Config, s: Store, step: Step, u: nat, until: nat)
    requires Inv(s) && LockedUntil(s, u, until) && s.now < until
    ensures var t := Handle(cfg, s, step).0;
      && s.now <= t.now
      && (u in t.users ==> LockedUntil(t, u, until))
      && (u !in t.users ==> u < t.next)
  {
    hide Inv;
    KnownIds(s, u);
    if !(step.SignIn? && step.id == u) {
      hide Handle;
      OthersLeaveLock(cfg, s, step, u);
    }
  }

  /** A lock holds for its whole time: after any steps, until it runs out, every
      sign-in of the user is refused, whatever the password, and changes nothing. */
  lemma {:induction false} LockHolds(cfg: Config, s: Store, steps: seq<Step>, u: nat, until: nat, valid: bool)
    requires Inv(s) && LockedUntil(s, u, until)
    requires Run(cfg, s, steps).now < until
    ensures s.now < until && u < Run(cfg, s, steps).next
    ensures var t := Run(cfg, s, steps);
      && (u in t.users ==> LockedUntil(t, u, until))
      && Login(cfg, t, u, valid) == (t, Unauthorized)
  {
    KnownIds(s, u);
    if steps == [] {
    } else {
      hide Inv, Handle;
      var n := |steps| - 1;
      var t := Run(cfg, s, steps[..n]);
      RunKeeps(cfg, s, steps[..n]);
      ClockForward(cfg, t, steps[n]);
      LockHolds(cfg, s, steps[..n], u, until, valid);
      if u in t.users {
        StepKeepsLock(cfg, t, steps[n], u, until);
      }
      GoneStaysGone(cfg, t, steps[n], u);
    }
  }

  lemma ClockForward(cfg: Config, s: Store, step: Step)
    requires Inv(s)
    ensures s.now <= Handle(cfg, s, step).0.now
  {
    if step.SignIn? {
      assert Login(cfg, s, step.id, step.valid).0.now == s.now;
    } else {
      OthersLeaveLock(cfg, s, step, s.next);
    }
  }

  lemma GoneStaysGone(cfg: Config, s: Store, step: Step, u: nat)
    requires Inv(s) && u < s.next
    ensures var t := Handle(cfg, s, step).0; u < t.next && (u !in s.users ==> u !in t.users)
  {
    HandleKeeps(cfg, s, step);
  }

  // --- When the lock is over ---

  function Waited(steps: seq<Step>): nat {
    if steps == [] then 0
    else
      var n := |steps| - 1;
      Waited(steps[..n]) + if steps[n].Elapse? then steps[n].d else 0
  }

  lemma ServeTakesNone(s: Store, c: Claims, req: Request)
    ensures Serve(s, c, req).0.now == s.now
  {
    hide OtherAdmin, May, TokenFor;
  }

  lemma StepTakes(cfg: Config, s: Store, step: Step)
    ensures Handle(cfg, s, step).0.now == s.now + if step.Elapse? then step.d else 0
  {
    hide OtherAdmin, May, TokenFor;
    if step.Call? {
      var (s1, ok) := Authorize(cfg, s, step.c);
      ServeTakesNone(s1, step.c, step.req);
      hide Serve;
      assert s1.now == s.now;
    }
  }

  /** A lock is over exactly when its time has passed, whatever others do
      meanwhile: until then the right password is refused, from then on it gets an
      enabled user in. */
  lemma {:induction false} LockEndsWhen(cfg: Config, s: Store, steps: seq<Step>, u: nat, until: nat)
    requires Inv(s) && LockedUntil(s, u, until)
    requires forall step :: step in steps ==> !(step.SignIn? && step.id == u)
    ensures var t := Run(cfg, s, steps);
      && t.now == s.now + Waited(steps)
      && u < t.next && (u in t.users ==> LockedUntil(t, u, until))
      && (Login(cfg, t, u, true).1.Done? <==>
            u in t.users && t.users[u].enabled && until <= s.now + Waited(steps))
  {
    if steps == [] {
      KnownIds(s, u);
    } else {
      var n := |steps| - 1;
      var t := Run(cfg, s, steps[..n]);
      LockEndsWhen(cfg, s, steps[..n], u, until);
      hide Handle, Inv;
      RunKeeps(cfg, s, steps[..n]);
      StepTakes(cfg, t, steps[n]);
      OthersLeaveLock(cfg, t, steps[n], u);
      GoneStaysGone(cfg, t, steps[n], u);
    }
  }
}
