/** Option values, and the string operations the server's parsers rely on:
    splitting at a separator and trimming white space. */
module Text {

  datatype Option<+T> = None | Some(value: T)

  /** The Unicode White_Space characters, which is what `str::trim` removes. */
  predicate IsSpace(c: char) {
    var n := c as int;
    9 <= n <= 13 || n == 0x20 || n == 0x85 || n == 0xA0 || n == 0x1680 || 0x2000 <= n <= 0x200A
    || n == 0x2028 || n == 0x2029 || n == 0x202F || n == 0x205F || n == 0x3000
  }

  function TrimStart(s: string): (r: string)
    ensures r != "" ==> !IsSpace(r[0])
    ensures |r| <= |s| && r == s[|s| - |r|..]
  {
    if s != "" && IsSpace(s[0]) then TrimStart(s[1..]) else s
  }

  function TrimEnd(s: string): (r: string)
    ensures r != "" ==> !IsSpace(r[|r| - 1])
    ensures r <= s
  {
    if s != "" && IsSpace(s[|s| - 1]) then TrimEnd(s[..|s| - 1]) else s
  }

  function Trim(s: string): string {
    TrimEnd(TrimStart(s))
  }

  /** A string is trimmed exactly when neither end is white space. */
  lemma TrimFixed(s: string)
    ensures Trim(s) == s <==> (s == "" || (!IsSpace(s[0]) && !IsSpace(s[|s| - 1])))
  {
  }

  lemma TrimSubset(s: string, c: char)
    requires c !in s
    ensures c !in Trim(s)
  {
    var (t, r) := (TrimStart(s), Trim(s));
    assert r <= t && t == s[|s| - |t|..];
    hide TrimStart, TrimEnd, Trim, IsSpace;
    forall i | 0 <= i < |r| ensures r[i] != c {
      assert r[i] == t[i] && t[i] == s[|s| - |t| + i];
    }
  }

  /** The pieces of `s` between occurrences of `sep`; never empty. */
  function Split(s: string, sep: char): (r: seq<string>)
    ensures |r| > 0
  {
    if s == "" then [""]
    else
      var rest := Split(s[1..], sep);
      if s[0] == sep then [""] + rest else [[s[0]] + rest[0]] + rest[1..]
  }

  lemma {:induction false} SplitStep(s: string, sep: char)
    requires s != ""
    ensures var rest := Split(s[1..], sep);
      Split(s, sep) == if s[0] == sep then [""] + rest else [[s[0]] + rest[0]] + rest[1..]
  {
  }

  lemma {:induction false} SplitNoSep(s: string, sep: char)
    requires sep !in s
    ensures Split(s, sep) == [s]
  {
    if s == "" {
    } else {
      SplitNoSep(s[1..], sep);
      assert [s[0]] + s[1..] == s;
    }
  }

  /** Splitting distributes over joining with the separator. */
  lemma {:induction false} SplitJoin(a: string, sep: char, b: string)
    ensures Split(a + [sep] + b, sep) == Split(a, sep) + Split(b, sep)
  {
    hide Split;
    var whole := a + [sep] + b;
    SplitStep(whole, sep);
    if a == "" {
      SplitNoSep(a, sep);
      assert whole[0] == sep && whole[1..] == b;
    } else {
      SplitJoin(a[1..], sep, b);
      SplitStep(a, sep);
      assert whole[0] == a[0] && whole[1..] == a[1..] + [sep] + b;
      HeadOfJoin(a[0], Split(a[1..], sep), Split(b, sep));
    }
  }

  lemma HeadOfJoin(c: char, left: seq<string>, right: seq<string>)
    requires left != []
    ensures [""] + (left + right) == [""] + left + right
    ensures [[c] + (left + right)[0]] + (left + right)[1..] == [[c] + left[0]] + left[1..] + right
  {
    assert (left + right)[1..] == left[1..] + right;
  }

  lemma GlueOne(a: string, b: string)
    requires a != ""
    ensures [a[0]] + (a[1..] + b) == a + b
  {
  }

  /** A separator-free prefix is glued to the first piece. */
  lemma {:induction false} SplitPrefix(a: string, b: string, sep: char)
    requires sep !in a
    ensures Split(a + b, sep) == [a + Split(b, sep)[0]] + Split(b, sep)[1..]
  {
    if a == "" {
      assert a + b == b;
      assert a + Split(b, sep)[0] == Split(b, sep)[0];
    } else {
      var whole := a + b;
      assert whole[0] == a[0] && whole[1..] == a[1..] + b;
      SplitPrefix(a[1..], b, sep);
      SplitStep(whole, sep);
      hide Split;
      GlueOne(a, Split(b, sep)[0]);
    }
  }

  lemma {:induction false} SplitPiecesClean(s: string, sep: char, i: nat)
    requires i < |Split(s, sep)|
    ensures sep !in Split(s, sep)[i]
  {
    if s == "" {
    } else {
      var rest := Split(s[1..], sep);
      if s[0] == sep {
        if i > 0 { SplitPiecesClean(s[1..], sep, i - 1); }
      } else {
        SplitPiecesClean(s[1..], sep, i);
      }
    }
  }
}
