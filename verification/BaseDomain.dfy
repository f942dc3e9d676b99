/** Which base domain a hostname sits under. */
module BaseDomain {
  import opened Prelude
  import opened Text
  import opened Requests

  datatype Domain = Domain(id: string, baseDomain: string, verified: bool)

  // ── The host ──────────────────────────────────────────────────────────────

  function LastIndex(s: string, c: char): Option<nat> {
    if s == "" then None
    else if s[|s| - 1] == c then Some(|s| - 1)
    else LastIndex(s[..|s| - 1], c)
  }

  function Index(s: string, c: char): Option<nat> {
    if s == "" then None
    else if s[0] == c then Some(0)
    else
      match Index(s[1..], c)
      case None => None
      case Some(i) => Some(i + 1)
  }

  /** `net.SplitHostPort`'s host, when it splits. */
  function SplitHost(s: string): Option<string> {
    match LastIndex(s, ':')
    case None => None
    case Some(i) =>
      if i >= |s| then None
      else if s[0] == '[' then
        match Index(s, ']')
        case None => None
        case Some(end) =>
          if end < 1 || end + 1 != i || '[' in s[1..] || ']' in s[end + 1..] then None else Some(s[1..end])
      else if ':' in s[..i] || '[' in s || ']' in s then None
      else Some(s[..i])
  }

  /** The host a name is looked up by: lower case, without its port and its final dot. */
  function Normalised(hostname: string): string {
    var host := Lower(TrimSpace(hostname));
    TrimSuffix(if SplitHost(host).Some? then SplitHost(host).value else host, ".")
  }

  lemma {:induction false} LastIndexIs(a: string, c: char, b: string)
    requires c !in b
    ensures LastIndex(a + [c] + b, c) == Some(|a|)
    decreases |b|
  {
    var s := a + [c] + b;
    if b == "" {
      assert s[|s| - 1] == c;
    } else {
      assert s[..|s| - 1] == a + [c] + b[..|b| - 1];
      assert s[|s| - 1] == b[|b| - 1] && b[|b| - 1] in b;
      LastIndexIs(a, c, b[..|b| - 1]);
    }
  }

  lemma {:induction false} NoIndex(s: string, c: char)
    requires c !in s
    ensures LastIndex(s, c) == None
  {
    if s != "" { NoIndex(s[..|s| - 1], c); }
  }

  predicate NoPort(s: string) {
    ':' !in s && '[' !in s && ']' !in s
  }

  lemma SplitsPlain(host: string, port: string)
    requires NoPort(host) && NoPort(port)
    ensures SplitHost(host + [':'] + port) == Some(host) && SplitHost(host) == None
  {
    var s := host + [':'] + port;
    LastIndexIs(host, ':', port);
    NoIndex(host, ':');
    assert s[..|host|] == host && s[0] == if host == "" then ':' else host[0];
    assert forall c :: c in s <==> c in host || c == ':' || c in port;
  }

  lemma {:induction false} IndexIs(a: string, c: char, b: string)
    requires c !in a
    ensures Index(a + [c] + b, c) == Some(|a|)
  {
    var s := a + [c] + b;
    if a != "" {
      assert s[1..] == a[1..] + [c] + b;
      IndexIs(a[1..], c, b);
    }
  }

  predicate NoBracket(s: string) {
    '[' !in s && ']' !in s
  }

  lemma SplitsBracketed(host: string, port: string)
    requires NoBracket(host) && NoPort(port)
    ensures SplitHost(['['] + host + [']'] + [':'] + port) == Some(host)
  {
    var s := ['['] + host + [']'] + [':'] + port;
    LastIndexIs(['['] + host + [']'], ':', port);
    IndexIs(['['] + host, ']', [':'] + port);
    assert s == ['['] + host + [']'] + ([':'] + port);
    assert s[1..|host| + 1] == host && s[1..] == host + ([']'] + [':'] + port);
    assert s[|host| + 2..] == [':'] + port;
  }

  /** With more than one colon a host is not split: an address of IPv6 on its own. */
  lemma NotSplit(a: string, b: string, c: string)
    requires NoBracket(a + [':'] + b + [':'] + c) && ':' !in c
    ensures SplitHost(a + [':'] + b + [':'] + c) == None
  {
    var s := a + [':'] + b + [':'] + c;
    LastIndexIs(a + [':'] + b, ':', c);
    assert s[..|a| + 1 + |b|] == a + [':'] + b;
    assert (a + [':'] + b)[|a|] == ':';
    assert s[0] in s;
  }

  lemma LowerConcat(a: string, b: string)
    ensures Lower(a + b) == Lower(a) + Lower(b)
  {
  }

  lemma LowerKeeps(s: string, c: char)
    requires c == ':' || c == '[' || c == ']'
    ensures c in Lower(s) <==> c in s
    ensures Lower([c]) == [c]
  {
    if c in s {
      var i :| 0 <= i < |s| && s[i] == c;
      assert Lower(s)[i] == c;
    }
    if c in Lower(s) {
      var i :| 0 <= i < |s| && Lower(s)[i] == c;
      assert s[i] == c;
    }
  }

  lemma LowerNoPort(s: string)
    requires NoPort(s)
    ensures NoPort(Lower(s))
  {
    LowerKeeps(s, ':');
    LowerKeeps(s, '[');
    LowerKeeps(s, ']');
  }

  /** A port does not change which host is looked up, whatever the case of the name and with a final dot
      or without. */
  lemma PortIsIgnored(host: string, port: string)
    requires PlainEnds(host) && NoPort(host) && PlainEnds(port) && NoPort(port)
    ensures Normalised(host + [':'] + port) == Normalised(host)
  {
    var s := host + [':'] + port;
    assert s[0] == host[0] && s[|s| - 1] == port[|port| - 1];
    TrimPlain(s, SPACE);
    TrimPlain(host, SPACE);
    LowerConcat(host + [':'], port);
    LowerConcat(host, [':']);
    LowerKeeps("", ':');
    LowerNoPort(host);
    LowerNoPort(port);
    SplitsPlain(Lower(host), Lower(port));
  }

  lemma BracketEnds(host: string, port: string)
    requires PlainEnds(port)
    ensures var s := ['['] + host + [']'] + [':'] + port;
            TrimSpace(s) == s && Lower(s) == ['['] + Lower(host) + [']'] + [':'] + Lower(port)
  {
    var s := ['['] + host + [']'] + [':'] + port;
    assert s[0] == '[' && s[|s| - 1] == port[|port| - 1];
    TrimPlain(s, SPACE);
    LowerConcat(['['] + host + [']'] + [':'], port);
    LowerConcat(['['] + host + [']'], [':']);
    LowerConcat(['['] + host, [']']);
    LowerConcat(['['], host);
    LowerKeeps("", ':');
    LowerKeeps("", '[');
    LowerKeeps("", ']');
  }

  /** Nor does the port of an address of IPv6, whose brackets go with it. */
  lemma BracketedPortIsIgnored(host: string, port: string, a: string, b: string, c: string)
    requires PlainEnds(host) && NoBracket(host) && PlainEnds(port) && NoPort(port)
    requires host == a + [':'] + b + [':'] + c && ':' !in c
    ensures Normalised(['['] + host + [']'] + [':'] + port) == Normalised(host)
  {
    BracketEnds(host, port);
    LowerNoPort(port);
    LowerKeeps(host, '[');
    LowerKeeps(host, ']');
    SplitsBracketed(Lower(host), Lower(port));
    TrimPlain(host, SPACE);
    LowerConcat(a + [':'] + b + [':'], c);
    LowerConcat(a + [':'] + b, [':']);
    LowerConcat(a + [':'], b);
    LowerConcat(a, [':']);
    LowerKeeps(c, ':');
    assert Lower(host) == Lower(a) + [':'] + Lower(b) + [':'] + Lower(c);
    NotSplit(Lower(a), Lower(b), Lower(c));
  }

  predicate IsLowerName(host: string) {
    forall c <- host :: !IsUpper(c)
  }

  /** The same letters, some of them capitals. */
  predicate SameLetters(s: string, host: string) {
    |s| == |host| && forall i :: 0 <= i < |s| ==> s[i] == host[i] || (IsUpper(s[i]) && s[i] as int + 32 == host[i] as int)
  }

  lemma LowerIs(s: string, host: string)
    requires SameLetters(s, host) && IsLowerName(host)
    ensures Lower(s) == host
  {
    forall i | 0 <= i < |s|
      ensures Lower(s)[i] == host[i]
    {
      assert host[i] in host;
    }
  }

  /** A host without a port is looked up by its own name in lower case: however it is written, with blanks
      around it and with a final dot or without. */
  lemma NormalisedIs(s: string, host: string, dot: bool, n: nat, m: nat)
    requires SameLetters(s, host) && IsLowerName(host) && NoPort(host) && PlainEnds(host) && PlainEnds(s) && host[|host| - 1] != '.'
    ensures Normalised(Spaces(n) + ((if dot then s + "." else s) + Spaces(m))) == host
  {
    var written, lower := if dot then s + "." else s, if dot then host + "." else host;
    assert written[0] == s[0] && PlainEnds(written);
    TrimsSpaces(n, written, m);
    LowerIs(s, host);
    assert Lower(written) == lower by { if dot { LowerConcat(s, "."); assert Lower(".") == "."; } }
    assert NoPort(lower);
    SplitsPlain(lower, "");
    DotTrims(host, dot, lower);
  }

  lemma DotTrims(host: string, dot: bool, written: string)
    requires host != "" && host[|host| - 1] != '.' && written == if dot then host + "." else host
    ensures TrimSuffix(written, ".") == host
  {
    if dot {
      assert written[|host|..] == "." && written[..|host|] == host;
    } else {
      assert host[|host| - 1..] == [host[|host| - 1]];
    }
  }

  // ── The longest base domain ───────────────────────────────────────────────

  /** The host sits strictly under the domain. */
  predicate Under(host: string, base: string) {
    HasSuffix(host, ['.'] + base)
  }

  predicate Candidate(host: string, d: Domain) {
    d.verified && Under(host, d.baseDomain)
  }

  /** Nothing when the host sits under no verified domain; otherwise the one it sits under that no
      other such domain is as long as, unless it is called the same. */
  ghost predicate IsBest(host: string, ds: set<Domain>, best: Option<Domain>) {
    match best
    case None => forall d <- ds :: !Candidate(host, d)
    case Some(b) =>
      b in ds && Candidate(host, b)
      && forall d <- ds :: Candidate(host, d) ==> |d.baseDomain| < |b.baseDomain| || d.baseDomain == b.baseDomain
  }

  /** Two domains of one length that a host sits under are the same domain, so there are no ties. */
  lemma NoTies(host: string, a: string, b: string)
    requires Under(host, a) && Under(host, b) && |a| == |b|
    ensures a == b
  {
    assert (['.'] + a)[1..] == a && (['.'] + b)[1..] == b;
  }

  ghost function Rows(ds: seq<Domain>): set<Domain> {
    set d <- ds | d.verified
  }

  /** `BaseDomainFor`, over all the rows. Nothing is looked up for an empty host. */
  method BaseDomainFor(hostname: string, rows: seq<Domain>) returns (best: Option<Domain>)
    ensures Normalised(hostname) == "" ==> best == None
    ensures IsBest(Normalised(hostname), Rows(rows), best)
  {
    var host := Normalised(hostname);
    if host == "" {
      return None;
    }
    best := Longest(host, rows);
  }

  /** Its loop. The query gives the verified rows only. */
  method Longest(host: string, rows: seq<Domain>) returns (best: Option<Domain>)
    ensures IsBest(host, Rows(rows), best)
  {
    best := None;
    for i := 0 to |rows|
      invariant IsBest(host, Rows(rows[..i]), best)
    {
      assert rows[..i + 1] == rows[..i] + [rows[i]];
      assert Rows(rows[..i + 1]) == Rows(rows[..i]) + if rows[i].verified then {rows[i]} else {};
      if !rows[i].verified || !HasSuffix(host, ['.'] + rows[i].baseDomain) {
        continue;
      }
      if best.Some? && |best.value.baseDomain| == |rows[i].baseDomain| {
        NoTies(host, best.value.baseDomain, rows[i].baseDomain);
      }
      if best.None? || |rows[i].baseDomain| > |best.value.baseDomain| {
        best := Some(rows[i]);
      }
    }
    assert rows[..|rows|] == rows;
  }

  /** The answer does not depend on the order of the rows: it is the same domain name whatever rows hold
      the same domains, and the same domain when no two of them share a name. */
  lemma BestIsUnique(host: string, ds: set<Domain>, a: Option<Domain>, b: Option<Domain>)
    requires IsBest(host, ds, a) && IsBest(host, ds, b)
    ensures a.Some? <==> b.Some?
    ensures a.Some? ==> a.value.baseDomain == b.value.baseDomain
    ensures (forall d, e :: d in ds && e in ds && d.baseDomain == e.baseDomain ==> d == e) ==> a == b
  {
  }

  /** A domain delegated under another is found before its parent. */
  lemma ChildBeatsParent(host: string, ds: set<Domain>, best: Option<Domain>, child: Domain, parent: Domain)
    requires IsBest(host, ds, best) && child in ds && parent in ds && child.verified
    requires Under(host, child.baseDomain) && Under(child.baseDomain, parent.baseDomain)
    ensures best.Some? && best.value.baseDomain != parent.baseDomain && Under(host, parent.baseDomain)
  {
    var c, p := child.baseDomain, ['.'] + parent.baseDomain;
    assert host[|host| - |p|..] == (['.'] + c)[|c| + 1 - |p|..] == c[|c| - |p|..];
  }
}
