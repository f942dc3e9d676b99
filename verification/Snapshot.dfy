/** The edge snapshot: which base domains a gateway serves, which snapshots can be served at all, and the
    order its domains are rendered in. */
module Snapshot {
  import opened Prelude
  import opened Text
  import opened Requests
  import opened Sorting

  datatype Provider = Provider(id: string, kind: string)

  datatype EdgeDomain = EdgeDomain(
    baseDomain: string, internalSubdomain: string, dnsMode: string,
    primary: bool, servesPlatform: bool, provider: Option<Provider>, project: bool)

  datatype EdgeSnapshot = EdgeSnapshot(
    domains: seq<EdgeDomain>, publicIP: string, meshIP: string, writtenAt: int, meshDomain: string,
    proxyPort: int, headscalePort: int, acmeEmail: string,
    consoleNames: seq<string>, projectConsoleNames: seq<string>)

  const DELEGATION := "delegation"
  const ONDEMAND := "ondemand"
  const PROVIDER_KINDS := ["cloudflare"]

  predicate Platform(d: EdgeDomain) {
    d.primary || d.servesPlatform
  }

  // ── Host names ────────────────────────────────────────────────────────────

  predicate IsLabelChar(c: char) {
    IsLower(c) || IsDigit(c) || c == '-'
  }

  predicate IsLabel(part: string) {
    1 <= |part| <= 63 && part[0] != '-' && part[|part| - 1] != '-' && forall c <- part :: IsLabelChar(c)
  }

  predicate IsName(name: string) {
    1 <= |name| <= 253 && forall part <- Split(name, '.') :: IsLabel(part)
  }

  predicate IsSingleLabel(name: string) {
    IsName(name) && '.' !in name
  }

  method AllLabelChars(part: string) returns (ok: bool)
    ensures ok <==> forall c <- part :: IsLabelChar(c)
  {
    for i := 0 to |part|
      invariant forall k :: 0 <= k < i ==> IsLabelChar(part[k])
    {
      if !IsLabelChar(part[i]) {
        return false;
      }
    }
    return true;
  }

  /** `validEdgeName`. */
  method ValidEdgeName(name: string) returns (ok: bool)
    ensures ok <==> IsName(name)
  {
    if name == "" || |name| > 253 {
      return false;
    }
    var labels := Split(name, '.');
    for i := 0 to |labels|
      invariant forall k :: 0 <= k < i ==> IsLabel(labels[k])
    {
      var part := labels[i];
      assert part in labels;
      if part == "" || |part| > 63 || part[0] == '-' || part[|part| - 1] == '-' {
        return false;
      }
      var plain := AllLabelChars(part);
      if !plain {
        return false;
      }
    }
    return true;
  }

  lemma {:induction false} SplitChars(s: string, sep: char, c: char)
    requires c in s && c != sep
    ensures exists part <- Split(s, sep) :: c in part
  {
    var rest := Split(s[1..], sep);
    if s[0] == sep {
      assert c in s[1..];
      SplitChars(s[1..], sep, c);
      var part :| part in rest && c in part;
      assert part in [""] + rest;
    } else if s[0] == c {
      assert c in Split(s, sep)[0];
    } else {
      assert c in s[1..];
      SplitChars(s[1..], sep, c);
      var k :| 0 <= k < |rest| && c in rest[k];
      assert c in Split(s, sep)[k];
    }
  }

  /** A name that passes holds no space, brace, semicolon, newline or other character a file generated
      from it could take as syntax. */
  lemma NamesAreInert(name: string, c: char)
    requires IsName(name) && c in name
    ensures IsLower(c) || IsDigit(c) || c == '-' || c == '.'
  {
    if c != '.' {
      SplitChars(name, '.', c);
      var part :| part in Split(name, '.') && c in part;
    }
  }

  /** A name with a label put before it is a name exactly when it still fits. */
  lemma LabelBefore(part: string, name: string)
    requires IsLabel(part) && IsName(name)
    ensures IsName(part + ['.'] + name) <==> |part| + 1 + |name| <= 253
  {
    assert forall c <- part :: c != '.';
    SplitPrepend(part, name, '.');
  }

  // ── Which snapshots are valid ─────────────────────────────────────────────

  predicate ProviderOk(d: EdgeDomain) {
    d.provider.Some? ==> d.dnsMode == ONDEMAND && d.provider.value.kind in PROVIDER_KINDS && IsUuid(d.provider.value.id)
  }

  predicate IsMode(mode: string) {
    mode == DELEGATION || mode == ONDEMAND
  }

  /** A base domain that can be served. */
  predicate DomainOk(d: EdgeDomain) {
    && IsName(d.baseDomain) && '.' in d.baseDomain
    && IsSingleLabel(d.internalSubdomain)
    && IsMode(d.dnsMode) && ProviderOk(d)
    && !(d.project && Platform(d))
  }

  predicate Distinct(ds: seq<EdgeDomain>) {
    forall i, j :: 0 <= i < j < |ds| ==> ds[i].baseDomain != ds[j].baseDomain
  }

  predicate AtMostOnePrimary(ds: seq<EdgeDomain>) {
    forall i, j :: 0 <= i < j < |ds| ==> !(ds[i].primary && ds[j].primary)
  }

  predicate SomePrimary(ds: seq<EdgeDomain>) {
    exists d <- ds :: d.primary
  }

  predicate DomainsOk(ds: seq<EdgeDomain>) {
    (forall d <- ds :: DomainOk(d)) && Distinct(ds) && AtMostOnePrimary(ds) && SomePrimary(ds)
  }

  /** The first primary, which is the only one of a valid snapshot. */
  function PrimaryOf(ds: seq<EdgeDomain>): (r: Option<EdgeDomain>)
    ensures r.Some? <==> SomePrimary(ds)
    ensures r.Some? ==> r.value in ds && r.value.primary
  {
    if ds == [] then None
    else if ds[0].primary then Some(ds[0])
    else PrimaryOf(ds[1..])
  }

  function MeshName(name: string): string {
    "mesh" + ['.'] + name
  }

  /** `MeshDomainOrDefault`. */
  function MeshDomainOrDefault(s: EdgeSnapshot): string {
    if s.meshDomain != "" then s.meshDomain
    else if PrimaryOf(s.domains).Some? then MeshName(PrimaryOf(s.domains).value.baseDomain)
    else ""
  }

  const PLATFORM_LABELS := ["console", "api", "headscale", "ns1"]

  predicate ConsoleNameOk(n: string, internal: string) {
    IsSingleLabel(n) && n !in PLATFORM_LABELS && n != internal
  }

  predicate ProjectNameOk(n: string, ds: seq<EdgeDomain>) {
    IsName(n) && |Split(n, '.')| == 2 && forall d <- ds :: d.internalSubdomain != Split(n, '.')[1]
  }

  predicate IsLocalChar(c: char) {
    IsLower(c) || 'A' <= c <= 'Z' || IsDigit(c) || c in "._%+-"
  }

  predicate IsHostChar(c: char) {
    IsLower(c) || 'A' <= c <= 'Z' || IsDigit(c) || c == '-'
  }

  predicate IsHostPart(host: string) {
    |Split(host, '.')| >= 2 && forall part <- Split(host, '.') :: part != "" && forall c <- part :: IsHostChar(c)
  }

  predicate IsEmail(e: string) {
    exists at :: 0 < at < |e| && e[at] == '@' && (forall c <- e[..at] :: IsLocalChar(c)) && IsHostPart(e[at + 1..])
  }

  predicate NoRepeats(names: seq<string>) {
    forall i, j :: 0 <= i < j < |names| ==> names[i] != names[j]
  }

  predicate NamesOk(s: EdgeSnapshot) {
    && (forall n <- s.consoleNames ::
          PrimaryOf(s.domains).Some? && ConsoleNameOk(n, PrimaryOf(s.domains).value.internalSubdomain))
    && (forall n <- s.projectConsoleNames :: ProjectNameOk(n, s.domains)) && NoRepeats(s.projectConsoleNames)
    && (s.acmeEmail == "" || IsEmail(s.acmeEmail))
    && (s.meshDomain == "" || IsName(s.meshDomain))
  }

  /** A snapshot a working edge can be generated from. */
  predicate Valid(s: EdgeSnapshot) {
    s.domains != [] && s.publicIP != "" && s.meshIP != "" && DomainsOk(s.domains) && NamesOk(s)
  }

  /** One domain's checks in `Validate`'s loop. */
  method ValidateDomain(d: EdgeDomain) returns (ok: bool)
    ensures ok <==> DomainOk(d)
  {
    var base := ValidEdgeName(d.baseDomain);
    if !base || '.' !in d.baseDomain {
      return false;
    }
    var internal := ValidEdgeName(d.internalSubdomain);
    if !internal || '.' in d.internalSubdomain {
      return false;
    }
    if d.dnsMode != DELEGATION && d.dnsMode != ONDEMAND {
      return false;
    }
    if d.provider.Some? && (d.dnsMode != ONDEMAND || d.provider.value.kind !in PROVIDER_KINDS || !IsUuid(d.provider.value.id)) {
      return false;
    }
    return !(d.project && Platform(d));
  }

  ghost predicate Saw(seen: set<string>, ds: seq<EdgeDomain>) {
    (forall name :: name in seen <==> exists d <- ds :: d.baseDomain == name) && Distinct(ds)
  }

  ghost predicate Counted(primaries: nat, ds: seq<EdgeDomain>) {
    (primaries == 0 <==> !SomePrimary(ds)) && (primaries <= 1 <==> AtMostOnePrimary(ds))
  }

  lemma SeesOne(seen: set<string>, ds: seq<EdgeDomain>, d: EdgeDomain)
    requires Saw(seen, ds)
    ensures d.baseDomain in seen <==> !Distinct(ds + [d])
    ensures d.baseDomain !in seen ==> Saw(seen + {d.baseDomain}, ds + [d])
  {
    if d.baseDomain in seen {
      var i :| 0 <= i < |ds| && ds[i].baseDomain == d.baseDomain;
      assert (ds + [d])[i] == ds[i] && (ds + [d])[|ds|] == d;
    } else {
      assert forall x :: x in ds + [d] <==> x in ds || x == d;
    }
  }

  lemma CountsOne(primaries: nat, ds: seq<EdgeDomain>, d: EdgeDomain)
    requires Counted(primaries, ds)
    ensures Counted(if d.primary then primaries + 1 else primaries, ds + [d])
  {
    var more := ds + [d];
    assert more[|ds|] == d && forall i :: 0 <= i < |ds| ==> more[i] == ds[i];
    if d.primary {
      assert d in more;
      if SomePrimary(ds) {
        var i :| 0 <= i < |ds| && ds[i].primary;
        assert more[i].primary && more[|ds|].primary;
      }
    } else {
      assert SomePrimary(more) <==> SomePrimary(ds) by {
        assert forall x :: x in more <==> x in ds || x == d;
      }
      assert AtMostOnePrimary(more) <==> AtMostOnePrimary(ds) by { PrefixAtMostOne(ds, d); }
    }
  }

  lemma PrefixAtMostOne(ds: seq<EdgeDomain>, d: EdgeDomain)
    ensures AtMostOnePrimary(ds + [d]) ==> AtMostOnePrimary(ds)
    ensures Distinct(ds + [d]) ==> Distinct(ds)
  {
    assert forall i :: 0 <= i < |ds| ==> (ds + [d])[i] == ds[i];
  }

  ghost predicate Checked(seen: set<string>, primaries: nat, ds: seq<EdgeDomain>) {
    (forall d <- ds :: DomainOk(d)) && Saw(seen, ds) && Counted(primaries, ds)
  }

  /** One turn of the loop: it stops at a domain that is not plain, or not new. */
  lemma StopsAtOne(seen: set<string>, primaries: nat, ds: seq<EdgeDomain>, i: nat)
    requires i < |ds| && Checked(seen, primaries, ds[..i])
    requires !DomainOk(ds[i]) || ds[i].baseDomain in seen
    ensures !DomainsOk(ds)
  {
    var d := ds[i];
    assert d in ds && ds[..i + 1] == ds[..i] + [d];
    SeesOne(seen, ds[..i], d);
    assert Distinct(ds) ==> Distinct(ds[..i + 1]);
  }

  /** And goes on past any other. */
  lemma ChecksOne(seen: set<string>, primaries: nat, ds: seq<EdgeDomain>, i: nat)
    requires i < |ds| && Checked(seen, primaries, ds[..i])
    requires DomainOk(ds[i]) && ds[i].baseDomain !in seen
    ensures Checked(seen + {ds[i].baseDomain}, if ds[i].primary then primaries + 1 else primaries, ds[..i + 1])
  {
    var d := ds[i];
    assert ds[..i + 1] == ds[..i] + [d];
    SeesOne(seen, ds[..i], d);
    CountsOne(primaries, ds[..i], d);
    assert forall x :: x in ds[..i] + [d] <==> x in ds[..i] || x == d;
  }

  lemma ChecksAll(seen: set<string>, primaries: nat, ds: seq<EdgeDomain>)
    requires Checked(seen, primaries, ds)
    ensures primaries == 1 <==> DomainsOk(ds)
  {
  }

  /** `Validate`'s loop over the domains. */
  method ValidateDomains(ds: seq<EdgeDomain>) returns (ok: bool)
    ensures ok <==> DomainsOk(ds)
  {
    var primaries: nat := 0;
    var seen: set<string> := {};
    for i := 0 to |ds|
      invariant Checked(seen, primaries, ds[..i])
    {
      var plain := ValidateDomain(ds[i]);
      if !plain || ds[i].baseDomain in seen {
        StopsAtOne(seen, primaries, ds, i);
        return false;
      }
      ChecksOne(seen, primaries, ds, i);
      seen := seen + {ds[i].baseDomain};
      if ds[i].primary {
        primaries := primaries + 1;
      }
    }
    assert ds[..|ds|] == ds;
    ChecksAll(seen, primaries, ds);
    return primaries == 1;
  }

  /** `Validate`'s loop over the console names. */
  method ValidateConsoleNames(names: seq<string>, internal: string) returns (ok: bool)
    ensures ok <==> forall n <- names :: ConsoleNameOk(n, internal)
  {
    for i := 0 to |names|
      invariant forall k :: 0 <= k < i ==> ConsoleNameOk(names[k], internal)
    {
      assert names[i] in names;
      var plain := ValidEdgeName(names[i]);
      if !plain || '.' in names[i] || names[i] in PLATFORM_LABELS || names[i] == internal {
        return false;
      }
    }
    return true;
  }

  /** Two labels are what a cut leaves no dot after. */
  lemma {:induction false} CutIsSplit(n: string)
    ensures Cut(n, '.').Some? && '.' !in Cut(n, '.').value.1 ==> |Split(n, '.')| == 2 && Split(n, '.')[1] == Cut(n, '.').value.1
    ensures |Split(n, '.')| == 2 ==> Cut(n, '.').Some? && '.' !in Cut(n, '.').value.1
  {
    if n != "" {
      if n[0] == '.' {
        if '.' !in n[1..] { SplitWhole(n[1..], '.'); }
        if |Split(n[1..], '.')| == 1 { SplitOne(n[1..], '.'); }
      } else {
        CutIsSplit(n[1..]);
      }
    }
  }

  lemma {:induction false} SplitOne(s: string, sep: char)
    requires |Split(s, sep)| == 1
    ensures sep !in s
  {
    if s != "" {
      SplitOne(s[1..], sep);
      assert s == [s[0]] + s[1..];
    }
  }

  /** `Validate`'s loop over the project console names. */
  method ValidateProjectNames(names: seq<string>, ds: seq<EdgeDomain>) returns (ok: bool)
    ensures ok <==> (forall n <- names :: ProjectNameOk(n, ds)) && NoRepeats(names)
  {
    var internal: set<string> := {};
    for i := 0 to |ds|
      invariant forall name :: name in internal <==> exists k :: 0 <= k < i && ds[k].internalSubdomain == name
    {
      internal := internal + {ds[i].internalSubdomain};
    }
    var seen: set<string> := {};
    for i := 0 to |names|
      invariant forall k :: 0 <= k < i ==> ProjectNameOk(names[k], ds)
      invariant forall name :: name in seen <==> exists k :: 0 <= k < i && names[k] == name
      invariant forall k, l :: 0 <= k < l < i ==> names[k] != names[l]
    {
      assert names[i] in names;
      CutIsSplit(names[i]);
      var cut := Cut(names[i], '.');
      var plain := ValidEdgeName(names[i]);
      if !plain || cut.None? || '.' in cut.value.1 || cut.value.1 in internal || names[i] in seen {
        return false;
      }
      seen := seen + {names[i]};
    }
    return true;
  }

  /** `Primary`. */
  method Primary(ds: seq<EdgeDomain>) returns (r: Option<EdgeDomain>)
    ensures r == PrimaryOf(ds)
  {
    for i := 0 to |ds|
      invariant PrimaryOf(ds[i..]) == PrimaryOf(ds)
    {
      if ds[i].primary {
        return Some(ds[i]);
      }
      assert ds[i..][1..] == ds[i + 1..];
    }
    return None;
  }

  /** `Validate`. */
  method Validate(s: EdgeSnapshot) returns (ok: bool)
    ensures ok <==> Valid(s)
  {
    if |s.domains| == 0 || s.publicIP == "" || s.meshIP == "" {
      return false;
    }
    var domains := ValidateDomains(s.domains);
    if !domains {
      return false;
    }
    var primary := Primary(s.domains);
    var console := ValidateConsoleNames(s.consoleNames, primary.value.internalSubdomain);
    if !console {
      return false;
    }
    var project := ValidateProjectNames(s.projectConsoleNames, s.domains);
    if !project || (s.acmeEmail != "" && !IsEmail(s.acmeEmail)) {
      return false;
    }
    if s.meshDomain != "" {
      ok := ValidEdgeName(s.meshDomain);
      return;
    }
    return true;
  }

  // ── The order domains are rendered in ─────────────────────────────────────

  predicate Before(a: EdgeDomain, b: EdgeDomain) {
    if a.primary != b.primary then a.primary else Less(a.baseDomain, b.baseDomain)
  }

  /** `Sorted`: a stable sort of a copy. */
  function RenderOrder(ds: seq<EdgeDomain>): seq<EdgeDomain> {
    Sorted(ds, Before)
  }

  lemma BeforeStrict()
    ensures Strict(Before)
  {
    forall a: EdgeDomain, b: EdgeDomain | Before(a, b)
      ensures !Before(b, a)
    {
      if a.primary == b.primary { LessAsymmetric(a.baseDomain, b.baseDomain); }
    }
    forall a: EdgeDomain, b: EdgeDomain, c: EdgeDomain | Before(a, b) && Before(b, c)
      ensures Before(a, c)
    {
      if a.primary == b.primary == c.primary { LessTransitive(a.baseDomain, b.baseDomain, c.baseDomain); }
    }
  }

  lemma RenderOrdered(ds: seq<EdgeDomain>)
    requires Distinct(ds)
    ensures Ordered(RenderOrder(ds), Before)
  {
    BeforeStrict();
    forall i, j | 0 <= i < j < |ds|
      ensures Before(ds[i], ds[j]) || Before(ds[j], ds[i])
    {
      LessTotal(ds[i].baseDomain, ds[j].baseDomain);
    }
    SortedOrdered(ds, Before);
  }

  /** A valid snapshot renders its domains primary first, the rest strictly ascending, none left out
      and none added; and that is the only such order. */
  lemma SortedIsTheOrder(s: EdgeSnapshot, order: seq<EdgeDomain>)
    requires Valid(s)
    ensures RenderOrder(s.domains) != [] && Some(RenderOrder(s.domains)[0]) == PrimaryOf(s.domains)
    ensures forall i :: 0 < i < |RenderOrder(s.domains)| ==> !RenderOrder(s.domains)[i].primary
    ensures forall i, j :: 0 < i < j < |RenderOrder(s.domains)| ==>
              Less(RenderOrder(s.domains)[i].baseDomain, RenderOrder(s.domains)[j].baseDomain)
    ensures multiset(RenderOrder(s.domains)) == multiset(s.domains)
    ensures order == RenderOrder(s.domains) <==> multiset(order) == multiset(s.domains) && Ordered(order, Before)
  {
    var sorted := RenderOrder(s.domains);
    BeforeStrict();
    RenderOrdered(s.domains);
    SortedKeeps(s.domains, Before);
    if multiset(order) == multiset(s.domains) && Ordered(order, Before) {
      SameMembers(order, sorted);
      OrderedUnique(order, sorted, Before);
    }
    var p := PrimaryOf(s.domains).value;
    assert p in sorted;
    forall d | d in s.domains && d.primary
      ensures d == p
    {
      OnlyPrimary(s.domains, d, p);
    }
    PrimaryIsFirst(sorted, p);
  }

  lemma PrimaryIsFirst(ds: seq<EdgeDomain>, p: EdgeDomain)
    requires Ordered(ds, Before) && p in ds && p.primary && forall d <- ds :: d.primary ==> d == p
    ensures ds[0] == p
    ensures forall i :: 0 < i < |ds| ==> !ds[i].primary
  {
    BeforeStrict();
    FirstIsLeast(ds, p, Before);
    forall i | 0 < i < |ds|
      ensures !ds[i].primary
    {
      assert ds[i] in ds && Before(ds[0], ds[i]);
    }
  }

  lemma OnlyPrimary(ds: seq<EdgeDomain>, a: EdgeDomain, b: EdgeDomain)
    requires AtMostOnePrimary(ds) && a in ds && b in ds && a.primary && b.primary
    ensures a == b
  {
  }

  /** The order the API's database gave the rows in does not show: two valid snapshots of the same
      domains are rendered in the same order. */
  lemma RowOrderDoesNotShow(a: EdgeSnapshot, b: EdgeSnapshot)
    requires Valid(a) && Valid(b) && multiset(a.domains) == multiset(b.domains)
    ensures RenderOrder(a.domains) == RenderOrder(b.domains)
  {
    SortedIsTheOrder(a, RenderOrder(b.domains));
    SortedIsTheOrder(b, RenderOrder(b.domains));
  }
}
