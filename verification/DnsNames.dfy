/** Which domains and servers reach the split-DNS file, told position by position
    instead of label by label (apps/snx-edge-server/src/reconciler.rs). */
module DnsNames {
  import opened Text
  import opened SplitDns

  /** The code points of the ASCII digits, capital and small letters. */
  predicate LetterOrDigit(c: char) {
    48 <= c as int <= 57 || 65 <= c as int <= 90 || 97 <= c as int <= 122
  }

  /** The dot at `i` stands between letters or digits. */
  predicate Separates(s: string, i: int) {
    0 < i < |s| - 1 && LetterOrDigit(s[i - 1]) && LetterOrDigit(s[i + 1])
  }

  /** One of the 64 characters from `i` on is a dot. */
  predicate DotSoon(s: string, i: int) {
    exists j :: 0 <= i <= j < i + 64 && j < |s| && s[j] == '.'
  }

  /** A name spelled correctly: hyphens and dots stand inside, dots between
      letters or digits, and no 64 characters go by without a dot. */
  predicate WellSpelled(s: string) {
    && s != "" && LetterOrDigit(s[0]) && LetterOrDigit(s[|s| - 1])
    && (forall i :: 0 <= i < |s| ==> LetterOrDigit(s[i]) || s[i] == '-' || s[i] == '.')
    && (forall i :: 0 <= i < |s| && s[i] == '.' ==> Separates(s, i))
    && (forall i :: 0 <= i <= |s| - 64 ==> DotSoon(s, i))
  }

  lemma SameLetters(c: char)
    ensures LetterOrDigit(c) <==> IsAlphanumeric(c)
    ensures LetterOrDigit(c) ==> c != '-' && c != '.'
  {
  }

  lemma OneLabel(s: string)
    requires '.' !in s
    ensures IsLabel(s) <==> WellSpelled(s)
  {
    forall i | 0 <= i < |s| ensures LetterOrDigit(s[i]) <==> IsAlphanumeric(s[i]) {
      SameLetters(s[i]);
    }
    forall i | 0 <= i < |s| ensures LetterOrDigit(s[i]) ==> s[i] != '-' {
      SameLetters(s[i]);
    }
    hide LetterOrDigit, IsAlphanumeric;
    if |s| >= 64 {
      assert !DotSoon(s, 0);
    }
  }

  lemma FirstPart(l: string, rest: string)
    requires '.' !in l
    requires WellSpelled(l + "." + rest)
    ensures WellSpelled(l)
  {
    hide LetterOrDigit;
    var (s, n) := (l + "." + rest, |l|);
    assert s[n] == '.' && forall i :: 0 <= i < n ==> s[i] == l[i];
    assert Separates(s, n);
    assert n >= 64 ==> DotSoon(s, 0);
  }

  lemma OtherParts(l: string, rest: string)
    requires WellSpelled(l + "." + rest)
    ensures WellSpelled(rest)
  {
    hide LetterOrDigit;
    var (s, n) := (l + "." + rest, |l|);
    assert s[n] == '.' && forall i :: 0 <= i < |rest| ==> rest[i] == s[n + 1 + i];
    assert Separates(s, n);
    forall i | 0 <= i < |rest| && rest[i] == '.' ensures Separates(rest, i) {
      assert Separates(s, n + 1 + i);
      SameLetters(s[n + i]);
    }
    forall i | 0 <= i <= |rest| - 64 ensures DotSoon(rest, i) {
      assert DotSoon(s, n + 1 + i);
      var j :| n + 1 + i <= j < n + 1 + i + 64 && j < |s| && s[j] == '.';
      assert rest[j - n - 1] == '.';
    }
  }

  lemma Joined(l: string, rest: string)
    requires '.' !in l
    requires WellSpelled(l) && WellSpelled(rest)
    ensures WellSpelled(l + "." + rest)
  {
    hide LetterOrDigit;
    var (s, n) := (l + "." + rest, |l|);
    assert s[n] == '.' && forall i :: 0 <= i < n ==> s[i] == l[i];
    assert forall i :: n < i < |s| ==> s[i] == rest[i - n - 1];
    assert n >= 64 ==> DotSoon(l, 0);
    forall i | 0 <= i <= |s| - 64 ensures DotSoon(s, i) {
      if i <= n {
        assert s[n] == '.';
      } else {
        assert DotSoon(rest, i - n - 1);
        var j :| i - n - 1 <= j < i - n - 1 + 64 && j < |rest| && rest[j] == '.';
        assert s[j + n + 1] == '.';
      }
    }
    forall i | 0 <= i < |s| && s[i] == '.' ensures Separates(s, i) {
      if i > n {
        assert Separates(rest, i - n - 1);
      }
    }
  }

  lemma {:induction false} FirstDot(s: string) returns (l: string, rest: string)
    requires '.' in s
    ensures '.' !in l && s == l + "." + rest
  {
    if s[0] == '.' {
      l, rest := "", s[1..];
    } else {
      l, rest := FirstDot(s[1..]);
      l := [s[0]] + l;
    }
  }

  lemma {:induction false} LabelsWhen(s: string)
    ensures AllLabels(Split(s, '.')) <==> WellSpelled(s)
    decreases |s|
  {
    hide IsLabel, WellSpelled, Split;
    if '.' !in s {
      SplitNoSep(s, '.');
      OneLabel(s);
      assert [s][0] == s;
    } else {
      var l, rest := FirstDot(s);
      SplitJoin(l, '.', rest);
      SplitNoSep(l, '.');
      OneLabel(l);
      LabelsWhen(rest);
      var labels := Split(rest, '.');
      assert ([l] + labels)[0] == l && forall i :: 0 <= i < |labels| ==> ([l] + labels)[i + 1] == labels[i];
      assert AllLabels([l] + labels) <==> IsLabel(l) && AllLabels(labels);
      if WellSpelled(s) {
        FirstPart(l, rest);
        OtherParts(l, rest);
      } else if WellSpelled(l) && WellSpelled(rest) {
        Joined(l, rest);
      }
    }
  }

  /** Exactly the correctly spelled names of at most 253 characters pass. */
  lemma ValidWhen(domain: string)
    ensures IsValidDnsName(domain) <==> |domain| <= 253 && WellSpelled(domain)
  {
    LabelsDecide(domain);
    LabelsWhen(domain);
    hide IsValidDnsName, AllLabels, Split;
  }

  // --- Which pairs are written ---

  lemma {:induction false} DomainKeptWhen(domains: seq<string>, d: string)
    ensures d in ValidDomains(domains) <==> IsValidDnsName(d) && (d in domains || "~" + d in domains)
  {
    if domains == [] {
    } else {
      var (n, last) := (|domains| - 1, domains[|domains| - 1]);
      DomainKeptWhen(domains[..n], d);
      assert domains == domains[..n] + [last];
      assert d in domains <==> d in domains[..n] || d == last;
      assert "~" + d in domains <==> "~" + d in domains[..n] || "~" + d == last;
      StrippedWhen(last, d);
      hide IsValidDnsName, Stripped;
    }
  }

  lemma StrippedWhen(domain: string, d: string)
    ensures IsValidDnsName(d) ==> (Stripped(domain) == d <==> domain == d || domain == "~" + d)
  {
    ValidWhen(d);
    hide IsValidDnsName;
    assert domain != "" ==> domain == [domain[0]] + domain[1..];
  }

  lemma {:induction false} ServerKeptWhen(ip: string -> bool, servers: seq<string>, s: string)
    ensures s in ValidServers(ip, servers) <==> ip(s) && s in servers
  {
    if servers == [] {
    } else {
      var n := |servers| - 1;
      ServerKeptWhen(ip, servers[..n], s);
      assert servers == servers[..n] + [servers[n]];
    }
  }

  lemma {:induction false} InProduct(domains: seq<string>, servers: seq<string>, p: Pair)
    ensures p in Product(domains, servers) <==> p.0 in domains && p.1 in servers
  {
    if domains == [] {
    } else {
      var n := |domains| - 1;
      InProduct(domains[..n], servers, p);
      var row := Row(domains[n], servers);
      assert domains == domains[..n] + [domains[n]];
      if p.0 == domains[n] && p.1 in servers {
        var j :| 0 <= j < |servers| && servers[j] == p.1;
        assert row[j] == p;
      }
      if p in row {
        var j :| 0 <= j < |row| && row[j] == p;
        assert p == (domains[n], servers[j]);
      }
    }
  }

  /** What dnsmasq is told, whatever the gateway sends: a name goes to a server
      exactly if both were sent, the name with or without a tilde, the name is
      spelled correctly and the server is an address. */
  lemma NameGoesTo(ip: string -> bool, servers: seq<string>, domains: seq<string>, d: string, s: string)
    requires PlainAddresses(ip)
    ensures var file := ParseFile(Written(Product(ValidDomains(domains), ValidServers(ip, servers))));
      && file.Some?
      && ((d, s) in file.value <==>
            && |d| <= 253 && WellSpelled(d) && (d in domains || "~" + d in domains)
            && ip(s) && s in servers)
  {
    hide *;
    FileReadsBack(ip, servers, domains);
    InProduct(ValidDomains(domains), ValidServers(ip, servers), (d, s));
    DomainKeptWhen(domains, d);
    ServerKeptWhen(ip, servers, s);
    ValidWhen(d);
  }
}
