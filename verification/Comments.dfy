/** Ownership of router objects, decided only by reading their comment strings
    (apps/snx-edge-server/src/routeros/client.rs). */
module Comments {
  import opened Text

  function TrimAll(parts: seq<string>): (r: seq<string>)
    ensures |r| == |parts|
    ensures forall i :: 0 <= i < |r| ==> r[i] == Trim(parts[i])
  {
    seq(|parts|, i requires 0 <= i < |parts| => Trim(parts[i]))
  }

  /** The trimmed `;`-separated fields of a comment. */
  function Fields(comment: string): (r: seq<string>)
    ensures |r| > 0
  {
    TrimAll(Split(comment, ';'))
  }

  predicate MatchesTag(comment: string, tag: string) {
    || (tag <= comment && (|comment| == |tag| || comment[|tag|] == ';'))
    || tag in Fields(comment)
  }

  predicate HasKindField(comment: string) {
    exists f :: f in Fields(comment) && "kind=" <= f
  }

  /** A managed comment from before `kind=` fields existed. */
  predicate IsLegacy(comment: string, tag: string) {
    MatchesTag(comment, tag) && !HasKindField(comment)
  }

  predicate MatchesKind(comment: string, tag: string, kind: string) {
    MatchesTag(comment, tag) && "kind=" + kind in Fields(comment)
  }

  /** What `setup` writes on every object it creates. */
  function CommentForKind(tag: string, kind: string): string {
    tag + ";kind=" + kind
  }

  /** What `add_address` writes on an operator's address-list entry. */
  function AddressComment(tag: string, kind: string, note: Option<string>): string {
    var tagged := CommentForKind(tag, kind);
    if note.Some? then tagged + ";note=" + note.value else tagged
  }

  /** A tag that is one trimmed field. */
  predicate Clean(tag: string) {
    ';' !in tag && Trim(tag) == tag
  }

  /** A kind label as the server writes it: one trimmed field, not empty. */
  predicate IsLabel(kind: string) {
    Clean(kind) && kind != ""
  }

  lemma FieldsJoin(a: string, b: string)
    ensures Fields(a + ";" + b) == Fields(a) + Fields(b)
  {
    hide Split, Trim;
    SplitJoin(a, ';', b);
  }

  lemma FieldsClean(s: string)
    requires ';' !in s
    ensures Fields(s) == [Trim(s)]
  {
    SplitNoSep(s, ';');
    var parts := [s];
    assert Fields(s) == TrimAll(parts);
  }

  /** A head that starts a field, followed by a label, is one trimmed field. */
  lemma HeadedLabel(head: string, kind: string)
    requires head != "" && !IsSpace(head[0]) && ';' !in head && IsLabel(kind)
    ensures Fields(head + kind) == [head + kind]
  {
    hide Split, Trim;
    var f := head + kind;
    TrimFixed(kind);
    assert f[|f| - 1] == kind[|kind| - 1];
    TrimFixed(f);
    FieldsClean(f);
  }

  lemma TrimKeepsHead(s: string)
    requires s != "" && !IsSpace(s[0])
    ensures Trim(s) <= s && Trim(s) != "" && Trim(s)[0] == s[0]
  {
    assert TrimStart(s) == s;
    TrimEndKeeps(s, 1);
  }

  lemma {:induction false} TrimEndKeeps(s: string, n: nat)
    requires 0 < n <= |s| && !IsSpace(s[n - 1])
    ensures n <= |TrimEnd(s)|
  {
    if IsSpace(s[|s| - 1]) {
      TrimEndKeeps(s[..|s| - 1], n);
    }
  }

  lemma PrefixIsAField(comment: string, tag: string)
    requires Clean(tag)
    requires tag <= comment && (|comment| == |tag| || comment[|tag|] == ';')
    ensures tag in Fields(comment)
  {
    FieldsClean(tag);
    if |comment| > |tag| {
      var rest := comment[|tag| + 1..];
      assert comment == tag + ";" + rest;
      FieldsJoin(tag, rest);
      assert Fields(comment)[0] == tag;
    } else {
      assert comment == tag;
      assert Fields(comment)[0] == tag;
    }
  }

  lemma UncleanTag(tag: string)
    requires !Clean(tag)
    ensures MatchesTag(tag, tag) && tag !in Fields(tag)
  {
    if tag in Fields(tag) {
      var i :| 0 <= i < |Fields(tag)| && Fields(tag)[i] == tag;
      SplitPiecesClean(tag, ';', i);
      TrimSubset(Split(tag, ';')[i], ';');
      FieldsClean(tag);
      assert false;
    }
  }

  /** The prefix shortcut in the matcher is redundant for every comment exactly
      when the tag is one trimmed field. */
  lemma TagIsAField(tag: string)
    ensures Clean(tag) <==> forall comment :: MatchesTag(comment, tag) <==> tag in Fields(comment)
  {
    hide Fields, Clean;
    if Clean(tag) {
      forall comment ensures MatchesTag(comment, tag) <==> tag in Fields(comment) {
        if tag <= comment && (|comment| == |tag| || comment[|tag|] == ';') {
          PrefixIsAField(comment, tag);
        }
      }
    } else {
      UncleanTag(tag);
    }
  }

  /** A setup comment is managed, never legacy, and carries exactly one kind
      besides whatever the tag itself spells. */
  lemma SetupComment(tag: string, kind: string, other: string)
    requires IsLabel(kind)
    ensures var c := CommentForKind(tag, kind);
      && MatchesTag(c, tag) && !IsLegacy(c, tag)
      && (MatchesKind(c, tag, other) <==> other == kind || "kind=" + other in Fields(tag))
  {
    AddressEntry(tag, kind, None, other);
  }

  /** The fields of a note as the comment carries them: its first field is
      glued to `note=`, so only the later ones stand alone. */
  function NoteFields(note: Option<string>): seq<string> {
    if note.Some? then Fields("note=" + note.value) else []
  }

  lemma TrimAllTail(a: seq<string>, b: seq<string>)
    requires |a| == |b| > 0 && a[1..] == b[1..]
    ensures TrimAll(a)[1..] == TrimAll(b)[1..]
  {
    forall i | 0 < i < |a| ensures TrimAll(a)[i] == TrimAll(b)[i] {
      assert a[i] == a[1..][i - 1] && b[i] == b[1..][i - 1];
    }
  }

  lemma HeadedFields(head: string, body: string)
    requires head != "" && !IsSpace(head[0]) && ';' !in head
    ensures Fields(head + body)[1..] == Fields(body)[1..]
    ensures Fields(head + body)[0] != "" && Fields(head + body)[0][0] == head[0]
  {
    var whole, parts := Split(head + body, ';'), Split(body, ';');
    SplitPrefix(head, body, ';');
    TrimAllTail(whole, parts);
    TrimKeepsHead(whole[0]);
  }

  lemma AddressFields(tag: string, kind: string, note: Option<string>)
    requires IsLabel(kind)
    ensures Fields(AddressComment(tag, kind, note)) == Fields(tag) + ["kind=" + kind] + NoteFields(note)
  {
    hide Fields, IsLabel;
    var c := CommentForKind(tag, kind);
    var k := "kind=" + kind;
    assert c == tag + ";" + k;
    FieldsJoin(tag, k);
    HeadedLabel("kind=", kind);
    if note.Some? {
      var n := "note=" + note.value;
      assert AddressComment(tag, kind, note) == c + ";" + n;
      FieldsJoin(c, n);
    }
  }

  /** An entry added through the API is managed, whatever the note says it is
      never legacy, and it matches a kind only if that is its own, or the tag
      or a later field of the note spells it. */
  lemma AddressEntry(tag: string, kind: string, note: Option<string>, other: string)
    requires IsLabel(kind)
    ensures var c := AddressComment(tag, kind, note);
      && MatchesTag(c, tag) && !IsLegacy(c, tag)
      && (MatchesKind(c, tag, other) <==>
            || other == kind
            || "kind=" + other in Fields(tag)
            || (note.Some? && "kind=" + other in Fields(note.value)[1..]))
  {
    hide Fields, IsLabel, HasKindField;
    var c := AddressComment(tag, kind, note);
    assert tag <= c && c[|tag|] == ';';
    AddressFields(tag, kind, note);
    OwnKindField(c, tag, kind, NoteFields(note));
    if note.Some? { HeadedFields("note=", note.value); }
    KindFieldsOf(c, tag, kind, note, other);
  }

  lemma OwnKindField(c: string, tag: string, kind: string, rest: seq<string>)
    requires Fields(c) == Fields(tag) + ["kind=" + kind] + rest
    ensures HasKindField(c)
  {
    var k := "kind=" + kind;
    assert Fields(c)[|Fields(tag)|] == k;
    assert k in Fields(c) && "kind=" <= k;
  }

  lemma KindFieldsOf(c: string, tag: string, kind: string, note: Option<string>, other: string)
    requires Fields(c) == Fields(tag) + ["kind=" + kind] + NoteFields(note)
    requires note.Some? ==>
      && NoteFields(note)[1..] == Fields(note.value)[1..]
      && NoteFields(note)[0] != "" && NoteFields(note)[0][0] == 'n'
    ensures "kind=" + other in Fields(c) <==>
            || other == kind
            || "kind=" + other in Fields(tag)
            || (note.Some? && "kind=" + other in Fields(note.value)[1..])
  {
    hide Fields;
    var k, o := "kind=" + kind, "kind=" + other;
    assert k[5..] == kind && o[5..] == other;
    assert o in Fields(c) <==> o in Fields(tag) || o == k || o in NoteFields(note);
    if note.Some? {
      var nf := NoteFields(note);
      assert nf == [nf[0]] + nf[1..];
      assert o[0] == 'k' && o != nf[0];
    }
  }

  lemma TrimTwice(s: string)
    ensures Trim(Trim(s)) == Trim(s)
  {
    var a := TrimStart(s);
    var t := TrimEnd(a);
    if t != "" { assert t[0] == a[0]; }
    TrimFixed(t);
  }

  /** Every managed comment matches every kind its tag spells. */
  lemma SpelledByTag(comment: string, tag: string, kind: string)
    requires MatchesTag(comment, tag) && "kind=" + kind in Fields(tag)
    ensures MatchesKind(comment, tag, kind)
  {
    hide Split, Trim;
    if tag <= comment && |comment| > |tag| && comment[|tag|] == ';' {
      var rest := comment[|tag| + 1..];
      assert comment == tag + ";" + rest;
      FieldsJoin(tag, rest);
    } else if tag in Fields(comment) {
      var i :| 0 <= i < |Fields(comment)| && Fields(comment)[i] == tag;
      var piece := Split(comment, ';')[i];
      SplitPiecesClean(comment, ';', i);
      TrimSubset(piece, ';');
      TrimTwice(piece);
      FieldsClean(tag);
    } else {
      assert comment == tag;
    }
  }
}
