/** The ring buffer behind the log history
    (apps/snx-edge-server/src/api/logs.rs). */
module LogBuffer {
  /** The last `n` entries of a history, oldest first. */
  function LastN<T>(history: seq<T>, n: nat): seq<T> {
    if n >= |history| then history else history[|history| - n..]
  }

  lemma LastNTwice<T>(history: seq<T>, kept: nat, n: nat)
    ensures var r := LastN(LastN(history, kept), n);
      && r == LastN(history, if n < kept then n else kept)
      && (kept >= |history| ==> r == LastN(history, if n < |history| then n else |history|))
      && |r| <= n && |r| <= kept && |r| <= |history|
      && (|r| < n && |r| < kept ==> r == history)
  {
  }

  lemma LastIsSuffix<T>(history: seq<T>, n: nat)
    ensures var take := if n < |history| then n else |history|;
      LastN(history, n) == history[|history| - take..] == history[|history| - take..|history|]
  {
  }

  function Slot(k: nat, c: nat): (slot: nat)
    requires c > 0
    ensures slot < c
  {
    k % c
  }

  lemma TimesAtLeast(x: int, c: int)
    requires c > 0
    ensures x >= 1 ==> x * c >= c
    ensures x <= -1 ==> x * c <= -c
  {
    assert x * c - c == (x - 1) * c;
    assert x * c + c == (x + 1) * c;
  }

  lemma QuotientIsUnique(c: int, q: int, r: int, p: int, t: int)
    requires c > 0 && q * c + r == p * c + t && 0 <= r < c && 0 <= t < c
    ensures q == p && r == t
  {
    assert (q - p) * c == t - r;
    TimesAtLeast(q - p, c);
  }

  lemma Division(k: nat, c: nat) returns (q: nat)
    requires c > 0
    ensures k == q * c + Slot(k, c)
  {
    q := k / c;
  }

  lemma SlotIs(k: nat, c: nat, q: nat, r: nat)
    requires c > 0 && k == q * c + r && r < c
    ensures Slot(k, c) == r
  {
    hide Slot;
    var p := Division(k, c);
    QuotientIsUnique(c, q, r, p, Slot(k, c));
  }

  lemma SmallSlot(k: nat, c: nat)
    requires k < c
    ensures Slot(k, c) == k
  {
    SlotIs(k, c, 0, k);
  }

  /** Fewer than `c` apart, two positions share a slot only if they are one. */
  lemma SlotIsUnique(k: nat, m: nat, c: nat)
    requires c > 0 && k <= m < k + c && Slot(k, c) == Slot(m, c)
    ensures k == m
  {
    hide Slot;
    var q := Division(k, c);
    var p := Division(m, c);
    assert (p - q) * c == m - k;
    TimesAtLeast(p - q, c);
  }

  /** Reducing early does not change the slot. */
  lemma SlotShift(a: nat, b: nat, c: nat)
    requires c > 0
    ensures Slot(Slot(a, c) + b, c) == Slot(a + b, c)
  {
    hide Slot;
    var q := Division(a, c);
    var p := Division(Slot(a, c) + b, c);
    assert a + b == (q + p) * c + Slot(Slot(a, c) + b, c);
    SlotIs(a + b, c, q + p, Slot(Slot(a, c) + b, c));
  }

  lemma SlotOfOlder(h: nat, take: nat, i: nat, c: nat)
    requires c > 0 && take <= c <= h
    ensures Slot(Slot(Slot(h, c) + c - take, c) + i, c) == Slot(h - take + i, c)
  {
    hide Slot;
    SlotShift(Slot(h, c) + c - take, i, c);
    SlotShift(h, c - take + i, c);
    SlotShift(c, h - take + i, c);
    SlotIs(c, c, 1, 0);
  }

  /** Entry `k` of the history sits in slot `k % c` while it is among the newest
      `c`. */
  ghost predicate Placed<T>(entries: seq<T>, history: seq<T>, c: nat)
    requires c > 0 && |entries| == if |history| < c then |history| else c
  {
    forall k: nat :: |history| - |entries| <= k < |history| ==>
      Slot(k, c) < |entries| && entries[Slot(k, c)] == history[k]
  }

  /** While nothing has been dropped the slots are in order. */
  lemma PlacedInOrder<T>(entries: seq<T>, history: seq<T>, c: nat)
    requires |history| < c && |entries| == |history| && Placed(entries, history, c)
    ensures entries == history
  {
    forall k | 0 <= k < |history| ensures entries[k] == history[k] { SmallSlot(k, c); }
  }

  lemma PlacedAt<T>(entries: seq<T>, history: seq<T>, c: nat, take: nat, i: nat)
    requires i < take <= c == |entries| <= |history| && Placed(entries, history, c)
    ensures |LastN(history, take)| == take
    ensures entries[Slot(Slot(Slot(|history|, c) + c - take, c) + i, c)] == LastN(history, take)[i]
  {
    hide Slot;
    SlotOfOlder(|history|, take, i, c);
  }

  lemma PlaceOne<T>(entries: seq<T>, history: seq<T>, c: nat, entry: T)
    requires c > 0 && |entries| == (if |history| < c then |history| else c) && Placed(entries, history, c)
    ensures |history| < c ==> Placed(entries + [entry], history + [entry], c)
    ensures |history| >= c ==> Placed(entries[Slot(|history|, c) := entry], history + [entry], c)
  {
    hide Slot;
    var h := |history|;
    if h < c { SmallSlot(h, c); }
    forall k: nat | h + 1 - c <= k < h
      ensures Slot(k, c) != Slot(h, c)
    {
      if Slot(k, c) == Slot(h, c) { SlotIsUnique(k, h, c); }
    }
  }

  class LogBuffer<T> {
    var entries: seq<T>
    const capacity: nat
    var writePos: nat
    var count: nat
    /** Everything ever pushed. */
    ghost var history: seq<T>

    ghost predicate Valid()
      reads this
    {
      && capacity > 0
      && count == |history|
      && writePos == Slot(|history|, capacity)
      && |entries| == (if |history| < capacity then |history| else capacity)
      && Placed(entries, history, capacity)
    }

    constructor (capacity: nat)
      requires capacity > 0
      ensures Valid() && history == [] && this.capacity == capacity
    {
      this.capacity := capacity;
      entries, writePos, count, history := [], 0, 0, [];
    }

    method Push(entry: T)
      requires Valid()
      modifies this
      ensures Valid() && history == old(history) + [entry]
    {
      hide Slot, Placed;
      PlaceOne(entries, history, capacity, entry);
      SlotShift(|history|, 1, capacity);
      if |entries| < capacity {
        entries := entries + [entry];
      } else {
        entries := entries[writePos := entry];
      }
      writePos := Slot(writePos + 1, capacity);
      count := count + 1;
      history := history + [entry];
    }

    /** The newest entries, in the order they were pushed: as many as asked for,
        kept, and pushed. */
    method LastEntries(n: nat) returns (result: seq<T>)
      requires Valid()
      ensures result == LastN(LastN(history, capacity), n)
      ensures |result| <= n && |result| <= capacity && |result| <= |history|
      ensures |result| < n && |result| < capacity ==> result == history
    {
      hide Slot, LastN, Placed;
      var len := |entries|;
      var take := if n < len then n else len;
      ghost var newest := LastN(LastN(history, capacity), n);
      LastNTwice(history, capacity, n);
      LastIsSuffix(history, take);
      if len < capacity {
        PlacedInOrder(entries, history, capacity);
        result := entries[len - take..];
      } else {
        result := [];
        var start := Slot(writePos + len - take, len);
        var i := 0;
        while i < take
          invariant i <= take && result == newest[..i]
        {
          PlacedAt(entries, history, len, take, i);
          result := result + [entries[Slot(start + i, len)]];
          i := i + 1;
        }
      }
    }
  }
}
