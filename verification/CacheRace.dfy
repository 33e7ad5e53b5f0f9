/** The generation cache of one user among concurrent requests: a lookup reads
    the database and writes the cache later, and a revocation raises the
    generation and shows it to the cache later (apps/snx-edge-server/src/state.rs,
    api/auth.rs, api/users.rs). How long a revoked token can live on. */
module CacheRace {
  import opened Text
  import AuthStore

  /** A generation, and when the database was seen to hold it. */
  datatype Value = Value(gen: nat, read: nat)

  datatype Entry = Entry(value: Value, fetched: nat)

  /** A lookup after its query, or a revocation after its bump: the cache is
      still to be written. */
  datatype Pc = Idle | Fetched(value: Value) | Raised(value: Value)

  /** `bumps[g]` is when generation `g` was superseded, so their number is the
      generation in the database; `slack` is the longest time between a database
      access and the cache write that follows; `admitted` lists the generation
      and the time of each request let in. */
  datatype System = System(
    bumps: seq<nat>, cache: Option<Entry>, now: nat, tasks: seq<Pc>, slack: nat, admitted: seq<(nat, nat)>)
  {
    function Gen(): nat { |bumps| }

    predicate Hit() { cache.Some? && now - cache.value.fetched < AuthStore.CACHE_TTL }
  }

  datatype Move =
    | Admit
    | Query(t: nat)
    | Store(t: nat)
    | Bump(t: nat)
    | Show(t: nat)
    | Fail(t: nat)
    | Evict
    | Elapse(d: nat)

  predicate Enabled(c: System, move: Move) {
    match move
    case Admit => c.Hit()
    case Query(t) => t < |c.tasks| && c.tasks[t].Idle? && !c.Hit()
    case Store(t) => t < |c.tasks| && c.tasks[t].Fetched?
    case Bump(t) => t < |c.tasks| && c.tasks[t].Idle?
    case Show(t) => t < |c.tasks| && c.tasks[t].Raised?
    case Fail(t) => t < |c.tasks|
    case Evict => true
    case Elapse(d) => forall t :: 0 <= t < |c.tasks| && !c.tasks[t].Idle? ==> c.now + d <= c.tasks[t].value.read + c.slack
  }

  function At(c: System, t: nat, pc: Pc): System
    requires t < |c.tasks|
  {
    c.(tasks := c.tasks[t := pc])
  }

  /** A request served from the cache lets in tokens of the cached generation; a
      lookup writes the cache before it compares. */
  function Step(c: System, move: Move): System
    requires Enabled(c, move)
  {
    match move
    case Admit => c.(admitted := c.admitted + [(c.cache.value.value.gen, c.now)])
    case Query(t) => At(c, t, Fetched(Value(c.Gen(), c.now)))
    case Store(t) =>
      var v := c.tasks[t].value;
      At(c, t, Idle).(cache := Some(Entry(v, c.now)), admitted := c.admitted + [(v.gen, c.now)])
    case Bump(t) => At(c, t, Raised(Value(c.Gen() + 1, c.now))).(bumps := c.bumps + [c.now])
    case Show(t) => At(c, t, Idle).(cache := Some(Entry(c.tasks[t].value, c.now)))
    case Fail(t) => At(c, t, Idle)
    case Evict => c.(cache := None)
    case Elapse(d) => c.(now := c.now + d)
  }

  predicate Start(c: System) {
    && c.bumps == [] && c.cache == None && c.admitted == []
    && forall t :: 0 <= t < |c.tasks| ==> c.tasks[t] == Idle
  }

  ghost predicate Possible(c: System, moves: seq<Move>)
    decreases |moves|, 0
  {
    moves == [] ||
      var n := |moves| - 1;
      Possible(c, moves[..n]) && Enabled(After(c, moves[..n]), moves[n])
  }

  ghost function After(c: System, moves: seq<Move>): System
    requires Possible(c, moves)
    decreases |moves|, 1
  {
    if moves == [] then c
    else
      var n := |moves| - 1;
      Step(After(c, moves[..n]), moves[n])
  }

  // --- How stale an answer can be ---

  /** The database held the generation when it was read. */
  predicate Held(c: System, v: Value) {
    && v.gen <= c.Gen() && v.read <= c.now
    && (v.gen < c.Gen() ==> v.read <= c.bumps[v.gen])
  }

  predicate Pending(c: System) {
    forall t :: 0 <= t < |c.tasks| && !c.tasks[t].Idle? ==>
      Held(c, c.tasks[t].value) && c.now <= c.tasks[t].value.read + c.slack
  }

  predicate Cached(c: System) {
    c.cache.Some? ==>
      var e := c.cache.value;
      Held(c, e.value) && e.fetched <= c.now && e.fetched <= e.value.read + c.slack
  }

  /** A request let in with a generation superseded since came before that, or
      less than a cache lifetime and the slack after. */
  predicate Timely(c: System) {
    forall i :: 0 <= i < |c.admitted| ==>
      var (g, at) := c.admitted[i];
      && g <= c.Gen() && at <= c.now
      && (g < c.Gen() ==> at < c.bumps[g] + AuthStore.CACHE_TTL + c.slack)
  }

  predicate Inv(c: System) {
    && Pending(c) && Cached(c) && Timely(c)
    && forall g :: 0 <= g < |c.bumps| ==> c.bumps[g] <= c.now
  }

  lemma StepKeeps(c: System, move: Move)
    requires Inv(c) && Enabled(c, move)
    ensures Inv(Step(c, move)) && Step(c, move).slack == c.slack
  {
    assert Pending(Step(c, move)) && Cached(Step(c, move)) by { hide Timely; }
    assert Timely(Step(c, move)) by { hide Pending; }
  }

  lemma {:induction false} RunKeeps(c: System, moves: seq<Move>)
    requires Start(c) && Possible(c, moves)
    ensures Inv(After(c, moves)) && After(c, moves).slack == c.slack
  {
    if moves == [] {
    } else {
      var n := |moves| - 1;
      RunKeeps(c, moves[..n]);
      hide Inv, Step;
      StepKeeps(After(c, moves[..n]), moves[n]);
    }
  }

  /** However lookups and revocations interleave, and whichever fail half-way,
      nobody is let in with a generation superseded thirty seconds and the slack
      ago or more. */
  lemma RevokedWithin(c: System, moves: seq<Move>, i: nat)
    requires Start(c) && Possible(c, moves) && i < |After(c, moves).admitted|
    ensures var c' := After(c, moves);
      var (g, at) := c'.admitted[i];
      g < c'.Gen() ==> at < c'.bumps[g] + 30 + c.slack
  {
    RunKeeps(c, moves);
  }

  // --- When a revoked token can come back ---

  /** Somebody still holds the generation: the cache, or a request that has yet
      to write it there. */
  predicate InHand(c: System, g: nat) {
    || (c.Hit() && c.cache.value.value.gen == g)
    || (exists t :: 0 <= t < |c.tasks| && !c.tasks[t].Idle? && c.tasks[t].value.gen == g)
  }

  ghost predicate LetInAgain(c: System, moves: seq<Move>, g: nat) {
    Possible(c, moves) && exists i :: |c.admitted| <= i < |After(c, moves).admitted| && After(c, moves).admitted[i].0 == g
  }

  lemma StaysOut(c: System, move: Move, g: nat)
    requires Enabled(c, move) && g < c.Gen() && !InHand(c, g)
    ensures var c' := Step(c, move);
      && g < c'.Gen() && !InHand(c', g) && |c.admitted| <= |c'.admitted|
      && (forall i :: 0 <= i < |c.admitted| ==> c'.admitted[i] == c.admitted[i])
      && (forall i :: |c.admitted| <= i < |c'.admitted| ==> c'.admitted[i].0 != g)
  {
  }

  lemma {:induction false} NeverAgain(c: System, moves: seq<Move>, g: nat)
    requires Possible(c, moves) && g < c.Gen() && !InHand(c, g)
    ensures var c' := After(c, moves);
      && g < c'.Gen() && !InHand(c', g) && |c.admitted| <= |c'.admitted|
      && (forall i :: |c.admitted| <= i < |c'.admitted| ==> c'.admitted[i].0 != g)
  {
    if moves == [] {
    } else {
      var n := |moves| - 1;
      NeverAgain(c, moves[..n], g);
      hide InHand, Step;
      StaysOut(After(c, moves[..n]), moves[n], g);
    }
  }

  lemma Begin(c: System)
    ensures Possible(c, []) && After(c, []) == c
  {
  }

  lemma Extend(c: System, moves: seq<Move>, move: Move) returns (longer: seq<Move>)
    requires Possible(c, moves) && Enabled(After(c, moves), move)
    ensures Possible(c, longer) && After(c, longer) == Step(After(c, moves), move)
  {
    longer := moves + [move];
    assert longer[..|moves|] == moves;
  }

  lemma ComesBack(c: System, g: nat) returns (moves: seq<Move>)
    requires InHand(c, g)
    ensures LetInAgain(c, moves, g)
  {
    Begin(c);
    hide Possible, After;
    if c.Hit() && c.cache.value.value.gen == g {
      moves := Extend(c, [], Admit);
    } else {
      var t :| 0 <= t < |c.tasks| && !c.tasks[t].Idle? && c.tasks[t].value.gen == g;
      if c.tasks[t].Fetched? {
        moves := Extend(c, [], Store(t));
      } else {
        moves := Extend(c, [], Show(t));
        moves := Extend(c, moves, Admit);
      }
    }
    assert After(c, moves).admitted[|c.admitted|].0 == g;
  }

  /** A superseded generation can be let in again exactly while the cache still
      serves it or a request under way still holds it. */
  lemma LetInAgainWhen(c: System, g: nat)
    requires g < c.Gen()
    ensures (exists moves :: LetInAgain(c, moves, g)) <==> InHand(c, g)
  {
    if moves :| LetInAgain(c, moves, g) {
      if !InHand(c, g) { NeverAgain(c, moves, g); }
    }
    if InHand(c, g) {
      var moves := ComesBack(c, g);
    }
  }

  /** A revocation lands at once if no other request is under way. */
  lemma AloneLandsAtOnce(c: System, t: nat, g: nat)
    requires t < |c.tasks| && g <= c.Gen() && forall u :: 0 <= u < |c.tasks| ==> c.tasks[u].Idle?
    ensures var c1 := Step(c, Bump(t));
      Enabled(c1, Show(t)) && var c2 := Step(c1, Show(t)); g < c2.Gen() && !exists moves :: LetInAgain(c2, moves, g)
  {
    var c2 := Step(Step(c, Bump(t)), Show(t));
    LetInAgainWhen(c2, g);
  }

  /** Whatever is dropped half-way or evicted is forgotten: with no other request
      under way, no superseded generation is let in again. */
  lemma DroppedAndEvicted(c: System, t: nat, g: nat)
    requires t < |c.tasks| && g < c.Gen() && forall u :: 0 <= u < |c.tasks| && u != t ==> c.tasks[u].Idle?
    ensures !exists moves :: LetInAgain(Step(Step(c, Fail(t)), Evict), moves, g)
  {
    LetInAgainWhen(Step(Step(c, Fail(t)), Evict), g);
  }

  const PAIR := System([], None, 0, [Idle, Idle], 0, [])

  /** It does not if a lookup has read the database before and writes the cache
      after: the revoked token is let in for another cache lifetime, though the
      revocation was complete and no step took any time. */
  lemma RevocationUndone() returns (moves: seq<Move>)
    ensures Start(PAIR) && Possible(PAIR, moves)
    ensures After(PAIR, moves) == System([0], Some(Entry(Value(0, 0), 0)), 29, [Idle, Idle], 0, [(0, 0), (0, 29)])
  {
    Begin(PAIR);
    hide Possible, After;
    moves := Extend(PAIR, [], Query(0));
    moves := Extend(PAIR, moves, Bump(1));
    moves := Extend(PAIR, moves, Show(1));
    moves := Extend(PAIR, moves, Store(0));
    moves := Extend(PAIR, moves, Elapse(29));
    moves := Extend(PAIR, moves, Admit);
    assert [(0, 0)] + [(0, 29)] == [(0, 0), (0, 29)];
  }
}
