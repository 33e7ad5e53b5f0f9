/** The split-DNS file written for dnsmasq from what the VPN gateway sends, and
    what reading it back gives (apps/snx-edge-server/src/reconciler.rs; label
    rules as in section 2.3.4 of RFC 1035 and section 2.1 of RFC 1123). */
module SplitDns {
  import opened Text

  // --- Names ---

  predicate IsControl(c: char) {
    (c as int) < 0x20 || 0x7F <= (c as int) < 0xA0
  }

  predicate IsAlphanumeric(c: char) {
    '0' <= c <= '9' || 'a' <= c <= 'z' || 'A' <= c <= 'Z'
  }

  predicate IsLabel(l: string) {
    && l != "" && |l| <= 63
    && (forall i :: 0 <= i < |l| ==> IsAlphanumeric(l[i]) || l[i] == '-')
    && l[0] != '-' && l[|l| - 1] != '-'
  }

  predicate AllLabels(labels: seq<string>) {
    forall i :: 0 <= i < |labels| ==> IsLabel(labels[i])
  }

  predicate IsValidDnsName(domain: string) {
    && domain != "" && |domain| <= 253
    && (forall i :: 0 <= i < |domain| ==>
          domain[i] != '/' && domain[i] != '#' && !IsSpace(domain[i]) && !IsControl(domain[i]))
    && AllLabels(Split(domain, '.'))
  }

  predicate NameChar(c: char) {
    IsAlphanumeric(c) || c == '-' || c == '.'
  }

  lemma {:induction false} LabelsMakeNames(s: string)
    requires forall i :: 0 <= i < |Split(s, '.')| ==> forall j :: 0 <= j < |Split(s, '.')[i]| ==>
      NameChar(Split(s, '.')[i][j])
    ensures forall i :: 0 <= i < |s| ==> NameChar(s[i])
  {
    if s == "" {
    } else {
      SplitStep(s, '.');
      hide Split, NameChar;
      var (all, rest) := (Split(s, '.'), Split(s[1..], '.'));
      if s[0] == '.' {
        forall i | 0 <= i < |rest| ensures forall j :: 0 <= j < |rest[i]| ==> NameChar(rest[i][j]) {
          assert all[i + 1] == rest[i];
        }
      } else {
        assert all[0][0] == s[0];
        forall i | 0 <= i < |rest| ensures forall j :: 0 <= j < |rest[i]| ==> NameChar(rest[i][j]) {
          if i == 0 {
            assert forall j :: 0 <= j < |rest[0]| ==> rest[0][j] == all[0][j + 1];
          } else {
            assert all[i] == rest[i];
          }
        }
      }
      LabelsMakeNames(s[1..]);
      assert forall i :: 1 <= i < |s| ==> s[i] == s[1..][i - 1];
    }
  }

  lemma LabelIsName(l: string)
    requires IsLabel(l)
    ensures forall j :: 0 <= j < |l| ==> NameChar(l[j])
  {
  }

  lemma LabelsAreNames(domain: string)
    requires AllLabels(Split(domain, '.'))
    ensures forall i :: 0 <= i < |domain| ==> NameChar(domain[i])
  {
    hide Split, IsLabel, NameChar;
    forall i | 0 <= i < |Split(domain, '.')|
      ensures forall j :: 0 <= j < |Split(domain, '.')[i]| ==> NameChar(Split(domain, '.')[i][j])
    {
      LabelIsName(Split(domain, '.')[i]);
    }
    LabelsMakeNames(domain);
  }

  lemma NameCharIsPlain(c: char)
    requires NameChar(c)
    ensures c != '/' && c != '#' && !IsSpace(c) && !IsControl(c)
  {
  }

  /** The label rules alone decide; refusing separators, white space and control
      characters first adds nothing. */
  lemma LabelsDecide(domain: string)
    ensures IsValidDnsName(domain) <==> domain != "" && |domain| <= 253 && AllLabels(Split(domain, '.'))
    ensures IsValidDnsName(domain) ==> forall i :: 0 <= i < |domain| ==> NameChar(domain[i])
  {
    hide Split, AllLabels, NameChar, IsSpace, IsControl;
    if AllLabels(Split(domain, '.')) {
      LabelsAreNames(domain);
      forall i | 0 <= i < |domain|
        ensures domain[i] != '/' && domain[i] != '#' && !IsSpace(domain[i]) && !IsControl(domain[i])
      {
        NameCharIsPlain(domain[i]);
      }
    }
  }

  /** A routing domain carries one leading tilde. */
  function Stripped(domain: string): string {
    if domain != "" && domain[0] == '~' then domain[1..] else domain
  }

  // --- Writing ---

  type Pair = (string, string)

  function Prefix(): string { "server=/" }

  function Line(p: Pair): string {
    Prefix() + p.0 + "/" + p.1
  }

  function Written(pairs: seq<Pair>): string {
    if pairs == [] then "" else Line(pairs[0]) + "\n" + Written(pairs[1..])
  }

  lemma {:induction false} WrittenOneMore(pairs: seq<Pair>, p: Pair)
    ensures Written(pairs + [p]) == Written(pairs) + (Line(p) + "\n")
  {
    hide Line;
    if pairs == [] {
      assert pairs + [p] == [p];
    } else {
      WrittenOneMore(pairs[1..], p);
      assert (pairs + [p])[1..] == pairs[1..] + [p];
    }
  }

  function ValidDomains(domains: seq<string>): seq<string> {
    if domains == [] then []
    else
      var n := |domains| - 1;
      var d := Stripped(domains[n]);
      ValidDomains(domains[..n]) + if IsValidDnsName(d) then [d] else []
  }

  function ValidServers(ip: string -> bool, servers: seq<string>): seq<string> {
    if servers == [] then []
    else
      var n := |servers| - 1;
      ValidServers(ip, servers[..n]) + if ip(servers[n]) then [servers[n]] else []
  }

  function Row(domain: string, servers: seq<string>): seq<Pair> {
    seq(|servers|, j requires 0 <= j < |servers| => (domain, servers[j]))
  }

  /** Every domain with every server, domain by domain. */
  function Product(domains: seq<string>, servers: seq<string>): seq<Pair> {
    if domains == [] then []
    else
      var n := |domains| - 1;
      Product(domains[..n], servers) + Row(domains[n], servers)
  }

  lemma {:induction false} ProductAt(domains: seq<string>, servers: seq<string>, i: nat, j: nat)
    requires i < |domains| && j < |servers|
    ensures |Product(domains, servers)| == |domains| * |servers|
    ensures i * |servers| + j < |domains| * |servers|
    ensures Product(domains, servers)[i * |servers| + j] == (domains[i], servers[j])
    decreases |domains|
  {
    var n := |domains| - 1;
    ProductSize(domains[..n], servers);
    assert |domains| * |servers| == n * |servers| + |servers|;
    if i < n {
      ProductAt(domains[..n], servers, i, j);
    }
  }

  lemma {:induction false} ProductSize(domains: seq<string>, servers: seq<string>)
    ensures |Product(domains, servers)| == |domains| * |servers|
  {
    if domains == [] {
    } else {
      var n := |domains| - 1;
      ProductSize(domains[..n], servers);
      assert |domains| * |servers| == n * |servers| + |servers|;
    }
  }

  lemma RowOneMore(domain: string, servers: seq<string>, s: string)
    ensures Row(domain, servers + [s]) == Row(domain, servers) + [(domain, s)]
    ensures Row(domain, []) == []
  {
  }

  /** The file's text. */
  method Render(ip: string -> bool, servers: seq<string>, domains: seq<string>) returns (out: string)
    ensures out == Written(Product(ValidDomains(domains), ValidServers(ip, servers)))
  {
    hide IsValidDnsName, Written, Row, Stripped, Product, ValidDomains, ValidServers;
    out := "";
    ghost var pairs: seq<Pair> := [];
    ghost var good := ValidServers(ip, servers);
    EmptyFile(good);
    var i := 0;
    while i < |domains|
      invariant i <= |domains|
      invariant pairs == Product(ValidDomains(domains[..i]), good) && out == Written(pairs)
    {
      var domain := Stripped(domains[i]);
      NextDomain(domains, i, good);
      if IsValidDnsName(domain) {
        ghost var before := pairs;
        var j := 0;
        FirstServer(ip, servers, domain);
        while j < |servers|
          invariant j <= |servers|
          invariant pairs == before + Row(domain, ValidServers(ip, servers[..j])) && out == Written(pairs)
        {
          NextServer(ip, servers, j, domain, before);
          if ip(servers[j]) {
            WrittenOneMore(pairs, (domain, servers[j]));
            out := out + (Line((domain, servers[j])) + "\n");
            pairs := pairs + [(domain, servers[j])];
          }
          j := j + 1;
        }
        assert servers[..j] == servers;
      }
      i := i + 1;
    }
    assert domains[..i] == domains;
  }

  lemma NextDomain(domains: seq<string>, i: nat, servers: seq<string>)
    requires i < |domains|
    ensures var d := Stripped(domains[i]);
      Product(ValidDomains(domains[..i + 1]), servers) ==
      Product(ValidDomains(domains[..i]), servers) + if IsValidDnsName(d) then Row(d, servers) else []
  {
    hide IsValidDnsName, Row;
    var (d, before) := (Stripped(domains[i]), ValidDomains(domains[..i]));
    assert domains[..i + 1][..i] == domains[..i];
    assert (before + [d])[..|before|] == before;
    assert before + [] == before;
  }

  lemma FirstServer(ip: string -> bool, servers: seq<string>, domain: string)
    ensures Row(domain, ValidServers(ip, servers[..0])) == []
  {
  }

  lemma NextServer(ip: string -> bool, servers: seq<string>, j: nat, domain: string, before: seq<Pair>)
    requires j < |servers|
    ensures before + Row(domain, ValidServers(ip, servers[..j + 1])) ==
      before + Row(domain, ValidServers(ip, servers[..j])) + if ip(servers[j]) then [(domain, servers[j])] else []
  {
    assert servers[..j + 1][..j] == servers[..j];
    RowOneMore(domain, ValidServers(ip, servers[..j]), servers[j]);
  }

  lemma EmptyFile(servers: seq<string>)
    ensures Written([]) == "" && Product(ValidDomains([]), servers) == []
  {
  }

  // --- Reading back ---

  function WithoutCr(line: string): string {
    if line != "" && line[|line| - 1] == '\r' then line[..|line| - 1] else line
  }

  /** Pieces between newlines as lines: an empty last piece is none. */
  function AsLines(pieces: seq<string>): seq<string> {
    if pieces == [] || pieces == [""] then [] else [WithoutCr(pieces[0])] + AsLines(pieces[1..])
  }

  function Lines(text: string): seq<string> {
    AsLines(Split(text, '\n'))
  }

  function ParseLine(line: string): Option<Pair> {
    if !(Prefix() <= line) then None
    else
      var parts := Split(line[|Prefix()|..], '/');
      if |parts| != 2 then None else Some((parts[0], parts[1]))
  }

  function ParseLines(lines: seq<string>): Option<seq<Pair>> {
    if lines == [] then Some([])
    else
      var (first, rest) := (ParseLine(lines[0]), ParseLines(lines[1..]));
      if first.None? || rest.None? then None else Some([first.value] + rest.value)
  }

  function ParseFile(text: string): Option<seq<Pair>> {
    ParseLines(Lines(text))
  }

  /** No separator and no line break. */
  predicate Plain(s: string) {
    '/' !in s && '\n' !in s && '\r' !in s
  }

  /** A pair whose line is one line and splits in two. */
  predicate Printable(p: Pair) {
    Plain(p.0) && Plain(p.1) && p.1 != ""
  }

  lemma LineParses(p: Pair)
    requires Printable(p)
    ensures ParseLine(Line(p)) == Some(p)
  {
    hide Split, Prefix;
    var rest := p.0 + "/" + p.1;
    assert Line(p) == Prefix() + rest && Line(p)[|Prefix()|..] == rest;
    SplitJoin(p.0, '/', p.1);
    SplitNoSep(p.0, '/');
    SplitNoSep(p.1, '/');
  }

  lemma PrefixIsPlain()
    ensures Prefix() != "" && Prefix()[0] == 's' && '\n' !in Prefix()
  {
  }

  lemma LineIsOne(p: Pair)
    requires Printable(p)
    ensures '\n' !in Line(p) && WithoutCr(Line(p)) == Line(p)
    ensures Line(p) != "" && Trim(Line(p)) != ""
  {
    PrefixIsPlain();
    hide Prefix;
    var line := Line(p);
    assert line[0] == Prefix()[0];
    assert line[|line| - 1] == p.1[|p.1| - 1];
    TrimKeeps(line);
  }

  lemma TrimKeeps(s: string)
    requires s != "" && !IsSpace(s[0])
    ensures Trim(s) != ""
  {
    assert TrimStart(s) == s;
    TrimEndKeepsFirst(s);
  }

  lemma {:induction false} TrimEndKeepsFirst(s: string)
    requires s != "" && !IsSpace(s[0])
    ensures TrimEnd(s) != ""
  {
    if !IsSpace(s[|s| - 1]) {
    } else {
      TrimEndKeepsFirst(s[..|s| - 1]);
    }
  }

  function AllLines(pairs: seq<Pair>): seq<string> {
    if pairs == [] then [] else [Line(pairs[0])] + AllLines(pairs[1..])
  }

  lemma {:induction false} FileLines(pairs: seq<Pair>)
    requires forall p :: p in pairs ==> Printable(p)
    ensures Lines(Written(pairs)) == AllLines(pairs)
  {
    if pairs == [] {
      assert Written(pairs) == "";
      assert Split("", '\n') == [""];
    } else {
      LineIsOne(pairs[0]);
      FileLines(pairs[1..]);
      FirstLine(Line(pairs[0]), Written(pairs[1..]));
    }
  }

  lemma FirstLine(line: string, rest: string)
    requires '\n' !in line && WithoutCr(line) == line && line != ""
    ensures Lines(line + "\n" + rest) == [line] + Lines(rest)
  {
    hide Split, WithoutCr;
    SplitJoin(line, '\n', rest);
    SplitNoSep(line, '\n');
    var pieces := [line] + Split(rest, '\n');
    assert pieces[1..] == Split(rest, '\n') && pieces[0] == line;
  }

  lemma {:induction false} LinesParse(pairs: seq<Pair>)
    requires forall p :: p in pairs ==> Printable(p)
    ensures ParseLines(AllLines(pairs)) == Some(pairs)
    ensures NonBlank(AllLines(pairs)) == |pairs|
  {
    hide ParseLine, Line, Printable, Trim;
    if pairs == [] {
    } else {
      LineParses(pairs[0]);
      LineIsOne(pairs[0]);
      LinesParse(pairs[1..]);
      var (line, rest) := (Line(pairs[0]), AllLines(pairs[1..]));
      assert ([line] + rest)[1..] == rest;
      assert [pairs[0]] + pairs[1..] == pairs;
    }
  }

  function NonBlank(lines: seq<string>): nat {
    if lines == [] then 0 else (if Trim(lines[0]) != "" then 1 else 0) + NonBlank(lines[1..])
  }

  /** Addresses are written without separators or line breaks. */
  ghost predicate PlainAddresses(ip: string -> bool) {
    forall s :: ip(s) ==> s != "" && Plain(s)
  }

  lemma NamesArePlain(domain: string)
    requires IsValidDnsName(domain)
    ensures Plain(domain)
  {
    LabelsDecide(domain);
  }

  lemma {:induction false} DomainsPlain(domains: seq<string>)
    ensures forall d :: d in ValidDomains(domains) ==> Plain(d)
    ensures |ValidDomains(domains)| <= |domains|
  {
    hide IsValidDnsName, Stripped, Plain;
    if domains == [] {
    } else {
      var n := |domains| - 1;
      DomainsPlain(domains[..n]);
      if IsValidDnsName(Stripped(domains[n])) { NamesArePlain(Stripped(domains[n])); }
    }
  }

  lemma {:induction false} ServersPlain(ip: string -> bool, servers: seq<string>)
    requires PlainAddresses(ip)
    ensures forall s :: s in ValidServers(ip, servers) ==> s != "" && Plain(s)
    ensures |ValidServers(ip, servers)| <= |servers|
  {
    hide Plain;
    if servers == [] {
    } else {
      ServersPlain(ip, servers[..|servers| - 1]);
    }
  }

  lemma {:induction false} ProductPrintable(domains: seq<string>, servers: seq<string>)
    requires forall d :: d in domains ==> Plain(d)
    requires forall s :: s in servers ==> s != "" && Plain(s)
    ensures forall p :: p in Product(domains, servers) ==> Printable(p)
  {
    hide Plain;
    if domains == [] {
    } else {
      var n := |domains| - 1;
      ProductPrintable(domains[..n], servers);
      forall p | p in Row(domains[n], servers) ensures Printable(p) {
        var j :| 0 <= j < |servers| && Row(domains[n], servers)[j] == p;
        assert p == (domains[n], servers[j]);
      }
    }
  }

  /** Whatever the gateway sends, reading the file line by line gives exactly
      the valid domains, tilde removed, with each valid server, domain by
      domain: no text in either list can add, split or alter a line. */
  lemma FileReadsBack(ip: string -> bool, servers: seq<string>, domains: seq<string>)
    requires PlainAddresses(ip)
    ensures var pairs := Product(ValidDomains(domains), ValidServers(ip, servers));
      ParseFile(Written(pairs)) == Some(pairs) && NonBlank(Lines(Written(pairs))) == |pairs|
  {
    var pairs := Product(ValidDomains(domains), ValidServers(ip, servers));
    DomainsPlain(domains);
    ServersPlain(ip, servers);
    ProductPrintable(ValidDomains(domains), ValidServers(ip, servers));
    hide *;
    FileLines(pairs);
    LinesParse(pairs);
    FileIsLines(pairs);
  }

  lemma FileIsLines(pairs: seq<Pair>)
    ensures ParseFile(Written(pairs)) == ParseLines(Lines(Written(pairs)))
  {
  }

  // --- The drop count ---

  lemma ProductMonotone(a: nat, b: nat, c: nat, d: nat)
    requires a <= c && b <= d
    ensures a * b <= c * d
  {
    assert c * d - a * b == (c - a) * d + a * (d - b);
  }

  /** The warning counts exactly the pairs with an invalid side: all pairs less
      valid domains times valid servers, never negative. */
  method Dropped(ip: string -> bool, servers: seq<string>, domains: seq<string>) returns (dropped: nat)
    requires PlainAddresses(ip)
    ensures dropped == |domains| * |servers| - |ValidDomains(domains)| * |ValidServers(ip, servers)|
  {
    hide *;
    var contents := Render(ip, servers, domains);
    var expected := |servers| * |domains|;
    var emitted := NonBlank(Lines(contents));
    FileReadsBack(ip, servers, domains);
    ProductSize(ValidDomains(domains), ValidServers(ip, servers));
    DomainsPlain(domains);
    ServersPlain(ip, servers);
    ProductMonotone(|ValidDomains(domains)|, |ValidServers(ip, servers)|, |domains|, |servers|);
    dropped := if emitted < expected then expected - emitted else 0;
  }
}
