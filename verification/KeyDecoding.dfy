/** How the profile-encryption key is read from its environment variable
    (apps/snx-edge-server/src/db_secrets.rs; base64 as in section 4 of RFC 4648,
    with padding required and unused bits zero). */
module KeyDecoding {
  import opened Text

  type Byte = x: int | 0 <= x < 256
  type Digit = x: int | 0 <= x < 16
  type Sextet = x: int | 0 <= x < 64

  // --- Hexadecimal ---

  function HexNibble(c: char): Option<Digit> {
    if '0' <= c <= '9' then Some(c as int - '0' as int)
    else if 'a' <= c <= 'f' then Some(10 + (c as int - 'a' as int))
    else if 'A' <= c <= 'F' then Some(10 + (c as int - 'A' as int))
    else None
  }

  function HexSymbol(d: Digit): char {
    if d < 10 then ('0' as int + d) as char else ('a' as int + d - 10) as char
  }

  function Lowered(c: char): char {
    if 'A' <= c <= 'F' then (c as int + 32) as char else c
  }

  function ByteOf(hi: int, lo: int): Byte
    requires 0 <= hi < 16 && 0 <= lo < 16
  {
    hi * 16 + lo
  }

  function HexEncode(bytes: seq<Byte>): string {
    if bytes == [] then ""
    else
      var n := |bytes| - 1;
      HexEncode(bytes[..n]) + [HexSymbol(bytes[n] / 16), HexSymbol(bytes[n] % 16)]
  }

  /** The string is the bytes' hexadecimal form, in either case. */
  predicate IsHexOf(s: string, bytes: seq<Byte>) {
    |s| == |HexEncode(bytes)| && forall i :: 0 <= i < |s| ==> Lowered(s[i]) == HexEncode(bytes)[i]
  }

  lemma NibbleIs(c: char, d: Digit)
    ensures HexNibble(c) == Some(d) <==> Lowered(c) == HexSymbol(d)
  {
  }

  lemma {:induction false} HexLength(bytes: seq<Byte>)
    ensures |HexEncode(bytes)| == 2 * |bytes|
  {
    if bytes == [] {
    } else {
      HexLength(bytes[..|bytes| - 1]);
    }
  }

  lemma HexPrefix(s: string, bytes: seq<Byte>, hi: char, lo: char, b: Byte)
    ensures IsHexOf(s + [hi, lo], bytes + [b]) <==>
      IsHexOf(s, bytes) && HexNibble(hi) == Some(b / 16) && HexNibble(lo) == Some(b % 16)
  {
    NibbleIs(hi, b / 16);
    NibbleIs(lo, b % 16);
    assert (bytes + [b])[..|bytes|] == bytes;
    var t, h := s + [hi, lo], HexEncode(bytes);
    assert HexEncode(bytes + [b]) == h + [HexSymbol(b / 16), HexSymbol(b % 16)];
    if |s| == |h| {
      assert t[|s|] == hi && t[|s| + 1] == lo;
      assert forall i :: 0 <= i < |s| ==> t[i] == s[i];
    }
  }

  ghost predicate NotHex(s: string) {
    forall bytes :: !IsHexOf(s, bytes)
  }

  /** Decodes pair by pair, and fails on an odd length or the first character
      that is no digit. */
  method HexDecode(s: string) returns (r: Option<seq<Byte>>)
    ensures if r.Some? then IsHexOf(s, r.value) else NotHex(s)
  {
    hide IsHexOf, NotHex, HexNibble, ByteOf;
    if |s| % 2 != 0 {
      OddIsNotHex(s);
      return None;
    }
    var out: seq<Byte> := [];
    var i := 0;
    NothingIsHex(s);
    while i < |s|
      invariant i % 2 == 0 && i <= |s|
      invariant IsHexOf(s[..i], out)
    {
      var hi, lo := HexNibble(s[i]), HexNibble(s[i + 1]);
      if hi.None? || lo.None? {
        BadPair(s, i);
        return None;
      }
      OnePairMore(s, i, out, hi.value, lo.value);
      out := out + [ByteOf(hi.value, lo.value)];
      i := i + 2;
    }
    assert s[..i] == s;
    r := Some(out);
  }

  lemma OddIsNotHex(s: string)
    requires |s| % 2 != 0
    ensures NotHex(s)
  {
    hide IsHexOf;
    forall bytes ensures !IsHexOf(s, bytes) {
      if IsHexOf(s, bytes) { HexSize(s, bytes); }
    }
  }

  lemma NothingIsHex(s: string)
    ensures IsHexOf(s[..0], [])
  {
  }

  lemma OnePairMore(s: string, i: nat, out: seq<Byte>, hi: Digit, lo: Digit)
    requires i + 1 < |s| && IsHexOf(s[..i], out)
    requires HexNibble(s[i]) == Some(hi) && HexNibble(s[i + 1]) == Some(lo)
    ensures IsHexOf(s[..i + 2], out + [ByteOf(hi, lo)])
  {
    hide HexNibble, IsHexOf;
    var b := ByteOf(hi, lo);
    assert b / 16 == hi && b % 16 == lo;
    HexPrefix(s[..i], out, s[i], s[i + 1], b);
    assert s[..i + 2] == s[..i] + [s[i], s[i + 1]];
  }

  lemma {:induction false} DigitsThroughout(bytes: seq<Byte>, i: nat)
    requires i < |HexEncode(bytes)|
    ensures HexNibble(HexEncode(bytes)[i]).Some?
  {
    var n := |bytes| - 1;
    var h := HexEncode(bytes[..n]);
    if i < |h| {
      DigitsThroughout(bytes[..n], i);
    } else {
      NibbleIs(HexEncode(bytes)[i], if i == |h| then bytes[n] / 16 else bytes[n] % 16);
    }
  }

  lemma BadPair(s: string, i: nat)
    requires i + 1 < |s| && (HexNibble(s[i]).None? || HexNibble(s[i + 1]).None?)
    ensures NotHex(s)
  {
    hide HexNibble;
    forall bytes ensures !IsHexOf(s, bytes) {
      if IsHexOf(s, bytes) {
        DigitsThroughout(bytes, i);
        DigitsThroughout(bytes, i + 1);
        SameNibble(s[i]);
        SameNibble(s[i + 1]);
      }
    }
  }

  lemma SameNibble(c: char)
    ensures HexNibble(Lowered(c)) == HexNibble(c)
  {
  }

  lemma HexSize(s: string, bytes: seq<Byte>)
    requires IsHexOf(s, bytes)
    ensures |s| == 2 * |bytes|
  {
    HexLength(bytes);
  }

  lemma {:induction false} HexIsUnique(s: string, a: seq<Byte>, b: seq<Byte>)
    requires IsHexOf(s, a) && IsHexOf(s, b)
    ensures a == b
  {
    hide IsHexOf, HexNibble;
    HexSize(s, a);
    HexSize(s, b);
    if a == [] {
    } else {
      var n := |a| - 1;
      var t := s[..2 * n];
      assert s == t + [s[2 * n], s[2 * n + 1]] && a == a[..n] + [a[n]] && b == b[..n] + [b[n]];
      HexPrefix(t, a[..n], s[2 * n], s[2 * n + 1], a[n]);
      HexPrefix(t, b[..n], s[2 * n], s[2 * n + 1], b[n]);
      HexIsUnique(t, a[..n], b[..n]);
      SameDigits(a[n], b[n]);
    }
  }

  lemma SameDigits(a: Byte, b: Byte)
    ensures a / 16 == b / 16 && a % 16 == b % 16 ==> a == b
  {
  }

  // --- Base64 ---

  function SymbolValue(c: char): Option<Sextet> {
    if 'A' <= c <= 'Z' then Some(c as int - 'A' as int)
    else if 'a' <= c <= 'z' then Some(26 + (c as int - 'a' as int))
    else if '0' <= c <= '9' then Some(52 + (c as int - '0' as int))
    else if c == '+' then Some(62)
    else if c == '/' then Some(63)
    else None
  }

  function Symbol(v: Sextet): char {
    if v < 26 then ('A' as int + v) as char
    else if v < 52 then ('a' as int + v - 26) as char
    else if v < 62 then ('0' as int + v - 52) as char
    else if v == 62 then '+'
    else '/'
  }

  lemma SymbolIs(c: char, v: Sextet)
    ensures SymbolValue(c) == Some(v) <==> c == Symbol(v)
    ensures SymbolValue('=').None?
  {
  }

  // The four sextets of three bytes, and the three bytes of four sextets.

  function S0(a: Byte): Sextet { a / 4 }

  function S1(a: Byte, b: Byte): Sextet { (a % 4) * 16 + b / 16 }

  function S2(b: Byte, c: Byte): Sextet { (b % 16) * 4 + c / 64 }

  function S3(c: Byte): Sextet { c % 64 }

  function B0(p: Sextet, q: Sextet): Byte {
    var (x: int, y: int) := (p, q);
    x * 4 + y / 16
  }

  function B1(q: Sextet, r: Sextet): Byte {
    var (x: int, y: int) := (q, r);
    (x % 16) * 16 + y / 4
  }

  function B2(r: Sextet, t: Sextet): Byte {
    var (x: int, y: int) := (r, t);
    (x % 4) * 64 + y
  }

  lemma FirstByte(p: Sextet, q: Sextet, a: Byte)
    ensures B0(p, q) == a <==> p == S0(a) && q / 16 == a % 4
  {
  }

  lemma SecondByte(q: Sextet, r: Sextet, b: Byte)
    ensures B1(q, r) == b <==> q % 16 == b / 16 && r / 4 == b % 16
  {
  }

  lemma ThirdByte(r: Sextet, t: Sextet, c: Byte)
    ensures B2(r, t) == c <==> r % 4 == c / 64 && t == S3(c)
  {
  }

  lemma SecondSextet(q: Sextet, a: Byte, b: Byte)
    ensures q == S1(a, b) <==> q / 16 == a % 4 && q % 16 == b / 16
  {
  }

  lemma ThirdSextet(r: Sextet, b: Byte, c: Byte)
    ensures r == S2(b, c) <==> r / 4 == b % 16 && r % 4 == c / 64
  {
  }

  lemma Regroup(p: Sextet, q: Sextet, r: Sextet, t: Sextet, a: Byte, b: Byte, c: Byte)
    ensures B0(p, q) == a && B1(q, r) == b && B2(r, t) == c <==>
      p == S0(a) && q == S1(a, b) && r == S2(b, c) && t == S3(c)
    // With nothing after the second or third sextet.
    ensures B0(p, q) == a && q % 16 == 0 <==> p == S0(a) && q == S1(a, 0)
    ensures B0(p, q) == a && B1(q, r) == b && r % 4 == 0 <==> p == S0(a) && q == S1(a, b) && r == S2(b, 0)
  {
    hide B0, B1, B2, S0, S1, S2, S3;
    FirstByte(p, q, a);
    SecondByte(q, r, b);
    ThirdByte(r, t, c);
    SecondSextet(q, a, b);
    SecondSextet(q, a, 0);
    ThirdSextet(r, b, c);
    ThirdSextet(r, b, 0);
  }

  function Encode3(a: Byte, b: Byte, c: Byte): string {
    [Symbol(S0(a)), Symbol(S1(a, b)), Symbol(S2(b, c)), Symbol(S3(c))]
  }

  function Base64(bytes: seq<Byte>): string {
    if |bytes| == 0 then ""
    else if |bytes| == 1 then [Symbol(S0(bytes[0])), Symbol(S1(bytes[0], 0)), '=', '=']
    else if |bytes| == 2 then
      [Symbol(S0(bytes[0])), Symbol(S1(bytes[0], bytes[1])), Symbol(S2(bytes[1], 0)), '=']
    else Encode3(bytes[0], bytes[1], bytes[2]) + Base64(bytes[3..])
  }

  /** A group that must be full. */
  function DecodeFull(s: string): Option<seq<Byte>>
    requires |s| == 4
  {
    var (p, q, r, t) := (SymbolValue(s[0]), SymbolValue(s[1]), SymbolValue(s[2]), SymbolValue(s[3]));
    if p.None? || q.None? || r.None? || t.None? then None
    else Some([B0(p.value, q.value), B1(q.value, r.value), B2(r.value, t.value)])
  }

  /** The last group: full, or padded with the unused bits zero. */
  function DecodeLast(s: string): Option<seq<Byte>>
    requires |s| == 4
  {
    var (p, q, r) := (SymbolValue(s[0]), SymbolValue(s[1]), SymbolValue(s[2]));
    if s[3] != '=' then DecodeFull(s)
    else if p.None? || q.None? then None
    else if s[2] == '=' then
      if q.value % 16 != 0 then None else Some([B0(p.value, q.value)])
    else if r.None? || r.value % 4 != 0 then None
    else Some([B0(p.value, q.value), B1(q.value, r.value)])
  }

  function Base64Decode(s: string): Option<seq<Byte>> {
    if |s| == 0 then Some([])
    else if |s| < 4 then None
    else if |s| == 4 then DecodeLast(s)
    else
      var (first, rest) := (DecodeFull(s[..4]), Base64Decode(s[4..]));
      if first.None? || rest.None? then None else Some(first.value + rest.value)
  }

  lemma FullInverts(s: string, a: Byte, b: Byte, c: Byte)
    requires |s| == 4
    ensures DecodeFull(s) == Some([a, b, c]) <==> s == Encode3(a, b, c)
  {
    SymbolIs(s[0], S0(a));
    SymbolIs(s[1], S1(a, b));
    SymbolIs(s[2], S2(b, c));
    SymbolIs(s[3], S3(c));
    assert s == [s[0], s[1], s[2], s[3]];
    hide SymbolValue, Symbol, S0, S1, S2, S3, B0, B1, B2;
    var (p, q, r, t) := (SymbolValue(s[0]), SymbolValue(s[1]), SymbolValue(s[2]), SymbolValue(s[3]));
    if p.Some? && q.Some? && r.Some? && t.Some? {
      Regroup(p.value, q.value, r.value, t.value, a, b, c);
      var (x, y) := ([B0(p.value, q.value), B1(q.value, r.value), B2(r.value, t.value)], [a, b, c]);
      assert x == y <==> x[0] == y[0] && x[1] == y[1] && x[2] == y[2];
    }
  }

  lemma GroupSize(s: string)
    requires |s| == 4
    ensures DecodeFull(s).Some? ==> |DecodeFull(s).value| == 3
    ensures DecodeLast(s).Some? ==> 1 <= |DecodeLast(s).value| <= 3
  {
    hide SymbolValue, B0, B1, B2;
  }

  lemma NotOneByte(s: string)
    requires |s| == 4 && (s[3] != '=' || s[2] != '=')
    ensures DecodeLast(s).Some? ==> |DecodeLast(s).value| > 1
  {
    hide SymbolValue, DecodeFull, B0, B1;
    GroupSize(s);
  }

  lemma OneByteInverts(s: string, a: Byte)
    requires |s| == 4
    ensures DecodeLast(s) == Some([a]) <==> s == Base64([a])
  {
    SymbolIs(s[0], S0(a));
    SymbolIs(s[1], S1(a, 0));
    SymbolIs(s[2], 0);
    if s[3] != '=' || s[2] != '=' {
      NotOneByte(s);
      assert Base64([a])[2] == '=' && Base64([a])[3] == '=';
      return;
    }
    assert s == [s[0], s[1], '=', '='];
    assert Base64([a]) == [Symbol(S0(a)), Symbol(S1(a, 0)), '=', '='];
    var (p, q) := (SymbolValue(s[0]), SymbolValue(s[1]));
    assert DecodeLast(s) ==
      if p.None? || q.None? || q.value % 16 != 0 then None else Some([B0(p.value, q.value)]);
    hide *;
    if p.Some? && q.Some? {
      Regroup(p.value, q.value, 0, 0, a, 0, 0);
    }
  }

  lemma TwoBytesInvert(s: string, a: Byte, b: Byte)
    requires |s| == 4
    ensures DecodeLast(s) == Some([a, b]) <==> s == Base64([a, b])
  {
    SymbolIs(s[0], S0(a));
    SymbolIs(s[1], S1(a, b));
    SymbolIs(s[2], S2(b, 0));
    assert s == [s[0], s[1], s[2], s[3]];
    hide SymbolValue, Symbol, S0, S1, S2, S3, B0, B1, B2;
    var (p, q, r) := (SymbolValue(s[0]), SymbolValue(s[1]), SymbolValue(s[2]));
    if p.Some? && q.Some? && r.Some? {
      Regroup(p.value, q.value, r.value, 0, a, b, 0);
      var x, y := [B0(p.value, q.value), B1(q.value, r.value)], [a, b];
      assert x == y <==> x[0] == y[0] && x[1] == y[1];
    }
  }

  lemma ThreeBytesInvert(s: string, a: Byte, b: Byte, c: Byte)
    requires |s| == 4
    ensures DecodeLast(s) == Some([a, b, c]) <==> s == Base64([a, b, c])
  {
    FullInverts(s, a, b, c);
    SymbolIs(s[3], S3(c));
    UnrollEncode(a, b, c, []);
    assert [a, b, c] + [] == [a, b, c];
    assert Encode3(a, b, c) + Base64([]) == Encode3(a, b, c);
    assert Encode3(a, b, c)[3] == Symbol(S3(c));
    if s[3] == '=' {
      GroupSize(s);
      PaddedIsShort(s);
    } else {
      assert DecodeLast(s) == DecodeFull(s);
    }
  }

  lemma PaddedIsShort(s: string)
    requires |s| == 4 && s[3] == '='
    ensures DecodeLast(s).Some? ==> |DecodeLast(s).value| <= 2
  {
    hide SymbolValue, DecodeFull, B0, B1;
  }

  lemma {:induction false} Base64Length(bytes: seq<Byte>)
    ensures |Base64(bytes)| == 4 * ((|bytes| + 2) / 3)
  {
    hide Symbol, S0, S1, S2, S3;
    if |bytes| < 3 {
    } else {
      Base64Length(bytes[3..]);
    }
  }

  lemma UnrollEncode(a: Byte, b: Byte, c: Byte, tail: seq<Byte>)
    ensures Base64([a, b, c] + tail) == Encode3(a, b, c) + Base64(tail)
  {
    hide Encode3;
    assert ([a, b, c] + tail)[3..] == tail;
  }

  lemma UnrollDecode(first: string, rest: string)
    requires |first| == 4 && rest != ""
    ensures Base64Decode(first + rest) ==
      if DecodeFull(first).None? || Base64Decode(rest).None? then None
      else Some(DecodeFull(first).value + Base64Decode(rest).value)
  {
    hide DecodeFull;
    assert (first + rest)[..4] == first && (first + rest)[4..] == rest;
  }

  /** One whole group in front of the rest, on either side. */
  lemma GroupInverts(first: string, rest: string, a: Byte, b: Byte, c: Byte, tail: seq<Byte>)
    requires |first| == 4 && rest != ""
    requires Base64Decode(rest) == Some(tail) <==> rest == Base64(tail)
    ensures Base64Decode(first + rest) == Some([a, b, c] + tail) <==> first + rest == Base64([a, b, c] + tail)
  {
    UnrollEncode(a, b, c, tail);
    UnrollDecode(first, rest);
    FullInverts(first, a, b, c);
    GroupSize(first);
    SplitsAlike(first, rest, Encode3(a, b, c), Base64(tail));
    hide DecodeFull, Base64, Base64Decode, Encode3;
    var (front, back) := (DecodeFull(first), Base64Decode(rest));
    if front.Some? && back.Some? {
      SplitsAlike(front.value, back.value, [a, b, c], tail);
    }
  }

  lemma SplitsAlike<T>(a: seq<T>, b: seq<T>, c: seq<T>, d: seq<T>)
    requires |a| == |c|
    ensures a + b == c + d <==> a == c && b == d
  {
    if a + b == c + d {
      assert a == (a + b)[..|a|] && b == (a + b)[|a|..];
      assert c == (c + d)[..|c|] && d == (c + d)[|c|..];
    }
  }

  /** Decoding accepts exactly the strings encoding produces, and inverts it. */
  lemma {:induction false} Base64Inverts(s: string, bytes: seq<Byte>)
    ensures Base64Decode(s) == Some(bytes) <==> s == Base64(bytes)
    decreases |s|
  {
    Base64Length(bytes);
    hide DecodeFull, DecodeLast, Encode3;
    if |s| > 4 {
      GroupSize(s[..4]);
      if |bytes| >= 3 {
        Base64Inverts(s[4..], bytes[3..]);
        GroupInverts(s[..4], s[4..], bytes[0], bytes[1], bytes[2], bytes[3..]);
        assert s == s[..4] + s[4..] && bytes == [bytes[0], bytes[1], bytes[2]] + bytes[3..];
      }
    } else if |s| == 4 {
      GroupSize(s);
      LastGroupInverts(s, bytes);
    }
  }

  lemma LastGroupInverts(s: string, bytes: seq<Byte>)
    requires |s| == 4
    ensures 1 <= |bytes| <= 3 ==> (DecodeLast(s) == Some(bytes) <==> s == Base64(bytes))
  {
    hide *;
    if |bytes| == 1 {
      OneByteInverts(s, bytes[0]);
      assert bytes == [bytes[0]];
    } else if |bytes| == 2 {
      TwoBytesInvert(s, bytes[0], bytes[1]);
      assert bytes == [bytes[0], bytes[1]];
    } else if |bytes| == 3 {
      ThreeBytesInvert(s, bytes[0], bytes[1], bytes[2]);
      assert bytes == [bytes[0], bytes[1], bytes[2]];
    }
  }

  // --- The key ---

  datatype KeyResult = Key(bytes: seq<Byte>) | Neither | WrongLength(n: nat)

  /** A value that reads as 64 hexadecimal digits is taken as such; anything
      else as base64, and failing that as hexadecimal after all. A key is
      accepted exactly when the trimmed value is its hexadecimal form in either
      case or its base64 form, so the last resort never yields one. */
  method DecodeKey(raw: string) returns (r: KeyResult)
    ensures r.Key? ==> |r.bytes| == 32
    ensures forall k: seq<Byte> :: |k| == 32 ==>
      (r == Key(k) <==> IsHexOf(Trim(raw), k) || Trim(raw) == Base64(k))
    ensures r.Neither? <==> forall k: seq<Byte> :: !IsHexOf(Trim(raw), k) && Trim(raw) != Base64(k)
    ensures Base64Decode(Trim(raw)).None? && |Trim(raw)| != 64 ==> !r.Key?
  {
    hide Trim, IsHexOf, Base64, Base64Decode;
    var trimmed := Trim(raw);
    var hex := HexDecode(trimmed);
    var bytes: seq<Byte>;
    if |trimmed| == 64 && hex.Some? {
      bytes := hex.value;
    } else if Base64Decode(trimmed).Some? {
      bytes := Base64Decode(trimmed).value;
    } else if hex.Some? {
      bytes := hex.value;
    } else {
      r := Neither;
      KeyForms(trimmed, hex);
      return;
    }
    r := if |bytes| != 32 then WrongLength(|bytes|) else Key(bytes);
    KeyForms(trimmed, hex);
  }

  /** What reaches the last resort, hexadecimal that is neither 64 digits nor
      base64, is refused for its length. */
  lemma LastResortFails(s: string, bytes: seq<Byte>)
    requires |s| != 64 && Base64Decode(s).None? && IsHexOf(s, bytes)
    ensures |bytes| != 32 && s != Base64(bytes)
  {
    HexSize(s, bytes);
    Base64Inverts(s, bytes);
    hide Base64, Base64Decode, IsHexOf;
  }

  /** Which keys a value spells, given how it reads as hexadecimal. */
  lemma KeyForms(s: string, hex: Option<seq<Byte>>)
    requires if hex.Some? then IsHexOf(s, hex.value) else NotHex(s)
    ensures forall k: seq<Byte> :: IsHexOf(s, k) <==> hex == Some(k)
    ensures forall k: seq<Byte> :: s == Base64(k) <==> Base64Decode(s) == Some(k)
    ensures forall k: seq<Byte> :: |k| == 32 && IsHexOf(s, k) ==> |s| == 64
    ensures forall k: seq<Byte> :: |k| == 32 && s == Base64(k) ==> |s| == 44
  {
    hide IsHexOf, Base64, Base64Decode;
    forall k: seq<Byte>
      ensures IsHexOf(s, k) <==> hex == Some(k)
      ensures |k| == 32 && IsHexOf(s, k) ==> |s| == 64
    {
      if IsHexOf(s, k) {
        HexIsUnique(s, k, hex.value);
        HexSize(s, k);
      }
    }
    forall k: seq<Byte>
      ensures s == Base64(k) <==> Base64Decode(s) == Some(k)
      ensures |k| == 32 && s == Base64(k) ==> |s| == 44
    {
      Base64Inverts(s, k);
      Base64Length(k);
    }
  }

  lemma {:induction false} HexPrintable(bytes: seq<Byte>)
    ensures forall c :: c in HexEncode(bytes) ==> !IsSpace(c) && Lowered(c) == c
  {
    if bytes == [] {
    } else {
      HexPrintable(bytes[..|bytes| - 1]);
    }
  }

  lemma {:induction false} Base64Printable(bytes: seq<Byte>)
    ensures forall c :: c in Base64(bytes) ==> !IsSpace(c)
  {
    hide S0, S1, S2, S3;
    if |bytes| < 3 {
    } else {
      Base64Printable(bytes[3..]);
    }
  }

  /** Both encoders' output is taken for the bytes it encodes: trimming leaves
      it alone. */
  lemma EncodersAreRead(k: seq<Byte>)
    ensures IsHexOf(Trim(HexEncode(k)), k)
    ensures Trim(Base64(k)) == Base64(k)
  {
    HexPrintable(k);
    Base64Printable(k);
    TrimFixed(HexEncode(k));
    TrimFixed(Base64(k));
    hide Trim, HexEncode, Base64, IsSpace, Lowered;
  }
}
