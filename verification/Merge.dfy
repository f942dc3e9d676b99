/** The installer's settings merged into the snapshot a gateway already has: what a run of re-installs
    keeps. */
module Merge {
  import opened Prelude
  import opened Text
  import opened Requests
  import opened Snapshot

  /** The four variables of `.env` that are read, as they stand in the file. */
  datatype Env = Env(domain: string, dnsMode: string, meshIP: string, publicIP: string)

  /** The variables trimmed, the defaults filled in. */
  function Settings(env: Env): Env {
    var mode, meshIP := TrimSpace(env.dnsMode), TrimSpace(env.meshIP);
    Env(TrimSpace(env.domain), if mode == "" then DELEGATION else mode,
        if meshIP == "" then "100.64.0.1" else meshIP, TrimSpace(env.publicIP))
  }

  function Demoted(d: EdgeDomain): EdgeDomain {
    d.(servesPlatform := d.servesPlatform || d.primary, primary := false)
  }

  function AllDemoted(ds: seq<EdgeDomain>): seq<EdgeDomain> {
    seq(|ds|, i requires 0 <= i < |ds| => Demoted(ds[i]))
  }

  predicate Knows(ds: seq<EdgeDomain>, name: string) {
    exists d <- ds :: d.baseDomain == name
  }

  /** The first domain called `name`, in its new mode. */
  function WithMode(ds: seq<EdgeDomain>, name: string, mode: string): seq<EdgeDomain> {
    if ds == [] then []
    else if ds[0].baseDomain == name then [ds[0].(dnsMode := mode)] + ds[1..]
    else [ds[0]] + WithMode(ds[1..], name, mode)
  }

  function NewPrimary(e: Env): EdgeDomain {
    EdgeDomain(e.domain, "internal", e.dnsMode, true, false, None, false)
  }

  /** The snapshot of a domain the gateway already has, in its new mode. */
  function Reinstalled(s: EdgeSnapshot, e: Env, now: int): EdgeSnapshot {
    s.(domains := WithMode(s.domains, e.domain, e.dnsMode),
       publicIP := if e.publicIP != "" then e.publicIP else s.publicIP,
       meshIP := e.meshIP, meshDomain := MeshDomainOrDefault(s), writtenAt := now)
  }

  /** The snapshot of a domain the gateway does not have yet. */
  function Moved(existing: Option<EdgeSnapshot>, e: Env, now: int): EdgeSnapshot {
    EdgeSnapshot(
      [NewPrimary(e)] + if existing.Some? then AllDemoted(existing.value.domains) else [],
      e.publicIP, e.meshIP, now,
      if existing.Some? then MeshDomainOrDefault(existing.value) else MeshName(e.domain),
      0, 0, "", [], [])
  }

  function Merged(existing: Option<EdgeSnapshot>, e: Env, now: int): EdgeSnapshot {
    if existing.Some? && Knows(existing.value.domains, e.domain) then Reinstalled(existing.value, e, now)
    else Moved(existing, e, now)
  }

  datatype Problem = NoDomain | NotServable

  function MergeOf(existing: Option<EdgeSnapshot>, env: Env, now: int): Result<EdgeSnapshot, Problem> {
    var e := Settings(env);
    if e.domain == "" then Err(NoDomain)
    else if Valid(Merged(existing, e, now)) then Ok(Merged(existing, e, now))
    else Err(NotServable)
  }

  lemma {:induction false} WithModeAt(ds: seq<EdgeDomain>, name: string, mode: string, i: nat)
    requires i < |ds| && ds[i].baseDomain == name && forall k :: 0 <= k < i ==> ds[k].baseDomain != name
    ensures WithMode(ds, name, mode) == ds[i := ds[i].(dnsMode := mode)]
  {
    if i > 0 {
      WithModeAt(ds[1..], name, mode, i - 1);
      assert [ds[0]] + ds[1..][i - 1 := ds[i].(dnsMode := mode)] == ds[i := ds[i].(dnsMode := mode)];
    } else {
      assert [ds[0].(dnsMode := mode)] + ds[1..] == ds[0 := ds[0].(dnsMode := mode)];
    }
  }

  /** The first half of `mergeEnvIntoSnapshot`: a domain the snapshot already knows. */
  method Reinstall(s: EdgeSnapshot, e: Env, now: int) returns (again: Option<EdgeSnapshot>)
    ensures again == if Knows(s.domains, e.domain) then Some(Reinstalled(s, e, now)) else None
  {
    for i := 0 to |s.domains|
      invariant forall k :: 0 <= k < i ==> s.domains[k].baseDomain != e.domain
    {
      if s.domains[i].baseDomain == e.domain {
        WithModeAt(s.domains, e.domain, e.dnsMode, i);
        assert s.domains[i] in s.domains;
        var snap := s.(domains := s.domains[i := s.domains[i].(dnsMode := e.dnsMode)]);
        if e.publicIP != "" {
          snap := snap.(publicIP := e.publicIP);
        }
        snap := snap.(meshIP := e.meshIP);
        if snap.meshDomain == "" {
          snap := snap.(meshDomain := MeshDomainOrDefault(s));
        }
        return Some(snap.(writtenAt := now));
      }
    }
    return None;
  }

  /** The loop that demotes what the snapshot had. */
  method Demote(ds: seq<EdgeDomain>) returns (out: seq<EdgeDomain>)
    ensures out == AllDemoted(ds)
  {
    out := [];
    for i := 0 to |ds|
      invariant out == AllDemoted(ds)[..i]
    {
      var d := ds[i];
      if d.primary {
        d := d.(servesPlatform := true);
      }
      d := d.(primary := false);
      out := out + [d];
    }
  }

  /** The snapshot `mergeEnvIntoSnapshot` builds before it validates it. */
  method Build(existing: Option<EdgeSnapshot>, e: Env, now: int) returns (snap: EdgeSnapshot)
    ensures snap == Merged(existing, e, now)
  {
    if existing.Some? {
      var again := Reinstall(existing.value, e, now);
      if again.Some? {
        return again.value;
      }
    }
    snap := EdgeSnapshot([NewPrimary(e)], e.publicIP, e.meshIP, now, MeshName(e.domain), 0, 0, "", [], []);
    if existing.Some? {
      snap := snap.(meshDomain := MeshDomainOrDefault(existing.value));
      var demoted := Demote(existing.value.domains);
      snap := snap.(domains := snap.domains + demoted);
    } else {
      assert snap.domains + [] == snap.domains;
    }
  }

  /** `mergeEnvIntoSnapshot`. */
  method MergeEnvIntoSnapshot(existing: Option<EdgeSnapshot>, env: Env, now: int) returns (r: Result<EdgeSnapshot, Problem>)
    ensures r == MergeOf(existing, env, now)
  {
    var e := Settings(env);
    if e.domain == "" {
      return Err(NoDomain);
    }
    var snap := Build(existing, e, now);
    var ok := Validate(snap);
    return if ok then Ok(snap) else Err(NotServable);
  }

  // ── When a merge is refused ───────────────────────────────────────────────

  /** The domain a valid snapshot calls `name`. */
  predicate ProviderAllows(ds: seq<EdgeDomain>, name: string, mode: string) {
    forall d <- ds :: d.baseDomain == name && d.provider.Some? ==> mode == ONDEMAND
  }

  predicate MeshFits(s: EdgeSnapshot) {
    s.meshDomain != "" || (PrimaryOf(s.domains).Some? && |PrimaryOf(s.domains).value.baseDomain| <= 248)
  }

  predicate NewDomainFits(e: Env) {
    IsName(e.domain) && '.' in e.domain && e.publicIP != ""
  }

  lemma MeshNameIsName(name: string)
    requires IsName(name)
    ensures IsName(MeshName(name)) <==> |name| <= 248
  {
    LabelBefore("mesh", name);
  }

  lemma MeshIsName(s: EdgeSnapshot)
    requires Valid(s)
    ensures MeshDomainOrDefault(s) != ""
    ensures IsName(MeshDomainOrDefault(s)) <==> MeshFits(s)
  {
    assert PrimaryOf(s.domains).value in s.domains;
    MeshNameIsName(PrimaryOf(s.domains).value.baseDomain);
  }

  lemma InternalIsLabel()
    ensures IsSingleLabel("internal")
  {
    var name := "internal";
    assert forall c <- name :: IsLower(c);
    assert '.' !in name;
    SplitWhole(name, '.');
  }

  lemma {:induction false} WithModeIs(ds: seq<EdgeDomain>, name: string, mode: string)
    requires Distinct(ds)
    ensures |WithMode(ds, name, mode)| == |ds|
    ensures forall i :: 0 <= i < |ds| ==>
              WithMode(ds, name, mode)[i] == if ds[i].baseDomain == name then ds[i].(dnsMode := mode) else ds[i]
  {
    if ds != [] && ds[0].baseDomain != name {
      WithModeIs(ds[1..], name, mode);
    }
  }

  lemma {:induction false} WithModePrimary(ds: seq<EdgeDomain>, name: string, mode: string)
    ensures var p, q := PrimaryOf(ds), PrimaryOf(WithMode(ds, name, mode));
            p.Some? <==> q.Some?
    ensures var p, q := PrimaryOf(ds), PrimaryOf(WithMode(ds, name, mode));
            p.Some? ==> q.value.(dnsMode := p.value.dnsMode) == p.value
  {
    if ds != [] {
      var first := if ds[0].baseDomain == name then ds[0].(dnsMode := mode) else ds[0];
      var rest := if ds[0].baseDomain == name then ds[1..] else WithMode(ds[1..], name, mode);
      assert WithMode(ds, name, mode) == [first] + rest && ([first] + rest)[1..] == rest;
      if ds[0].baseDomain != name { WithModePrimary(ds[1..], name, mode); }
    }
  }

  lemma WithModeShape(ds: seq<EdgeDomain>, name: string, mode: string)
    requires Distinct(ds)
    ensures Distinct(WithMode(ds, name, mode))
    ensures AtMostOnePrimary(ds) <==> AtMostOnePrimary(WithMode(ds, name, mode))
  {
    WithModeIs(ds, name, mode);
    var ws := WithMode(ds, name, mode);
    assert forall i :: 0 <= i < |ds| ==> ws[i].baseDomain == ds[i].baseDomain && ws[i].primary == ds[i].primary;
  }

  /** Changing one domain's mode leaves each domain as fit as it was, but for the mode and what its
      provider asks of it. */
  lemma WithModeOk(ds: seq<EdgeDomain>, name: string, mode: string)
    requires Distinct(ds) && Knows(ds, name) && forall d <- ds :: DomainOk(d)
    ensures (forall d <- WithMode(ds, name, mode) :: DomainOk(d)) <==> IsMode(mode) && ProviderAllows(ds, name, mode)
  {
    WithModeIs(ds, name, mode);
    var ws := WithMode(ds, name, mode);
    var i :| 0 <= i < |ds| && ds[i].baseDomain == name;
    assert ds[i] in ds && ws[i] in ws && ws[i] == ds[i].(dnsMode := mode);
    OnlyNamed(ds, i);
    forall k | 0 <= k < |ds|
      ensures k != i ==> DomainOk(ws[k])
    {
      assert ds[k] in ds;
    }
  }

  lemma OnlyNamed(ds: seq<EdgeDomain>, i: nat)
    requires Distinct(ds) && i < |ds|
    ensures forall d <- ds :: d.baseDomain == ds[i].baseDomain ==> d == ds[i]
  {
  }

  lemma ConsoleNamesStay(s: EdgeSnapshot, t: EdgeSnapshot)
    requires NamesOk(s) && t.consoleNames == s.consoleNames && t.projectConsoleNames == s.projectConsoleNames
    requires t.acmeEmail == s.acmeEmail && |t.domains| == |s.domains|
    requires forall i :: 0 <= i < |s.domains| ==> t.domains[i].internalSubdomain == s.domains[i].internalSubdomain
    requires PrimaryOf(s.domains).Some? && PrimaryOf(t.domains).Some?
    requires PrimaryOf(s.domains).value.internalSubdomain == PrimaryOf(t.domains).value.internalSubdomain
    ensures NamesOk(t) <==> t.meshDomain == "" || IsName(t.meshDomain)
  {
    forall n | n in t.projectConsoleNames
      ensures ProjectNameOk(n, t.domains)
    {
      assert ProjectNameOk(n, s.domains);
      forall d | d in t.domains
        ensures d.internalSubdomain != Split(n, '.')[1]
      {
        var i :| 0 <= i < |t.domains| && t.domains[i] == d;
        assert s.domains[i] in s.domains;
      }
    }
  }

  lemma ReinstallDomains(ds: seq<EdgeDomain>, name: string, mode: string)
    requires DomainsOk(ds) && Knows(ds, name)
    ensures DomainsOk(WithMode(ds, name, mode)) <==> IsMode(mode) && ProviderAllows(ds, name, mode)
  {
    WithModeShape(ds, name, mode);
    WithModePrimary(ds, name, mode);
    WithModeOk(ds, name, mode);
  }

  lemma ReinstallNames(s: EdgeSnapshot, e: Env, now: int)
    requires Valid(s)
    ensures NamesOk(Reinstalled(s, e, now)) <==> MeshFits(s)
  {
    MeshIsName(s);
    WithModeIs(s.domains, e.domain, e.dnsMode);
    WithModePrimary(s.domains, e.domain, e.dnsMode);
    ConsoleNamesStay(s, Reinstalled(s, e, now));
  }

  lemma ReinstallRefused(s: EdgeSnapshot, e: Env, now: int)
    requires Valid(s) && Knows(s.domains, e.domain) && e.meshIP != ""
    ensures Valid(Reinstalled(s, e, now)) <==>
              IsMode(e.dnsMode) && ProviderAllows(s.domains, e.domain, e.dnsMode) && MeshFits(s)
  {
    ReinstallDomains(s.domains, e.domain, e.dnsMode);
    ReinstallNames(s, e, now);
    WithModeIs(s.domains, e.domain, e.dnsMode);
  }

  lemma DemotedOk(d: EdgeDomain)
    requires DomainOk(d)
    ensures DomainOk(Demoted(d)) && !Demoted(d).primary
  {
  }

  lemma AllDemotedOk(ds: seq<EdgeDomain>)
    requires DomainsOk(ds)
    ensures |AllDemoted(ds)| == |ds| && Distinct(AllDemoted(ds))
    ensures forall d <- AllDemoted(ds) :: DomainOk(d) && !d.primary && Knows(ds, d.baseDomain)
  {
    forall i | 0 <= i < |ds|
      ensures DomainOk(AllDemoted(ds)[i]) && !AllDemoted(ds)[i].primary && Knows(ds, AllDemoted(ds)[i].baseDomain)
    {
      assert ds[i] in ds;
      DemotedOk(ds[i]);
    }
  }

  lemma FrontDomains(d: EdgeDomain, rest: seq<EdgeDomain>)
    requires d.primary && Distinct(rest) && forall x <- rest :: DomainOk(x) && !x.primary && x.baseDomain != d.baseDomain
    ensures DomainsOk([d] + rest) <==> DomainOk(d)
    ensures PrimaryOf([d] + rest) == Some(d)
  {
    var all := [d] + rest;
    assert d in all;
    forall i | 0 < i < |all|
      ensures all[i] in rest
    {
      assert all[i] == rest[i - 1];
    }
  }

  lemma NewPrimaryOk(e: Env)
    ensures DomainOk(NewPrimary(e)) <==> IsName(e.domain) && '.' in e.domain && IsMode(e.dnsMode)
  {
    InternalIsLabel();
  }

  lemma MoveRefused(existing: Option<EdgeSnapshot>, e: Env, now: int)
    requires existing.Some? ==> Valid(existing.value) && !Knows(existing.value.domains, e.domain)
    requires e.meshIP != ""
    ensures Valid(Moved(existing, e, now)) <==>
              NewDomainFits(e) && IsMode(e.dnsMode) && if existing.Some? then MeshFits(existing.value) else |e.domain| <= 248
    ensures PrimaryOf(Moved(existing, e, now).domains) == Some(NewPrimary(e))
  {
    NewPrimaryOk(e);
    if existing.Some? {
      MeshIsName(existing.value);
      AllDemotedOk(existing.value.domains);
      FrontDomains(NewPrimary(e), AllDemoted(existing.value.domains));
    } else {
      if IsName(e.domain) { MeshNameIsName(e.domain); }
      FrontDomains(NewPrimary(e), []);
    }
  }

  /** Exactly when a merge into a valid snapshot, or into none, goes through. A domain the gateway has
      can always be re-installed in a mode its provider allows; a new one needs a name with a dot in it
      and a public address. Either way the mesh's name must fit. */
  lemma MergeGoesThroughIff(existing: Option<EdgeSnapshot>, env: Env, now: int)
    requires existing.Some? ==> Valid(existing.value)
    ensures var e := Settings(env);
            MergeOf(existing, env, now).Ok? <==>
              IsMode(e.dnsMode)
              && (if existing.Some? then MeshFits(existing.value) else |e.domain| <= 248)
              && if existing.Some? && Knows(existing.value.domains, e.domain)
                 then ProviderAllows(existing.value.domains, e.domain, e.dnsMode) else NewDomainFits(e)
  {
    var e := Settings(env);
    if existing.Some? && Knows(existing.value.domains, e.domain) {
      var d :| d in existing.value.domains && d.baseDomain == e.domain;
      assert DomainOk(d);
      ReinstallRefused(existing.value, e, now);
    } else {
      MoveRefused(existing, e, now);
    }
  }

  // ── What a merge keeps ────────────────────────────────────────────────────

  /** A domain that is served as before: the same but for its mode and standing, and never losing the
      platform's names. */
  predicate KeptAs(d: EdgeDomain, k: EdgeDomain) {
    k.baseDomain == d.baseDomain && k.internalSubdomain == d.internalSubdomain
    && k.provider == d.provider && k.project == d.project && (Platform(d) ==> Platform(k))
  }

  predicate KeepsDomains(ds: seq<EdgeDomain>, ks: seq<EdgeDomain>) {
    forall d <- ds :: exists k <- ks :: KeptAs(d, k)
  }

  predicate Keeps(s: EdgeSnapshot, t: EdgeSnapshot) {
    KeepsDomains(s.domains, t.domains) && MeshDomainOrDefault(t) == MeshDomainOrDefault(s)
  }

  lemma KeepsItself(s: EdgeSnapshot)
    ensures Keeps(s, s)
  {
    assert forall d <- s.domains :: KeptAs(d, d);
  }

  lemma KeepsTransitive(s: EdgeSnapshot, t: EdgeSnapshot, u: EdgeSnapshot)
    requires Keeps(s, t) && Keeps(t, u)
    ensures Keeps(s, u)
  {
    forall d | d in s.domains
      ensures exists k <- u.domains :: KeptAs(d, k)
    {
      var k :| k in t.domains && KeptAs(d, k);
      var l :| l in u.domains && KeptAs(k, l);
      assert KeptAs(d, l);
    }
  }

  lemma WithModeKeeps(ds: seq<EdgeDomain>, name: string, mode: string)
    requires Distinct(ds)
    ensures KeepsDomains(ds, WithMode(ds, name, mode))
  {
    WithModeIs(ds, name, mode);
    var ks := WithMode(ds, name, mode);
    forall d | d in ds
      ensures exists k <- ks :: KeptAs(d, k)
    {
      var i :| 0 <= i < |ds| && ds[i] == d;
      assert ks[i] in ks && KeptAs(d, ks[i]);
    }
  }

  lemma DemotedKeeps(front: EdgeDomain, ds: seq<EdgeDomain>)
    ensures KeepsDomains(ds, [front] + AllDemoted(ds))
  {
    var ks := [front] + AllDemoted(ds);
    forall d | d in ds
      ensures exists k <- ks :: KeptAs(d, k)
    {
      var i :| 0 <= i < |ds| && ds[i] == d;
      assert ks[i + 1] == Demoted(d) && ks[i + 1] in ks && KeptAs(d, ks[i + 1]);
    }
  }

  lemma MergedKeeps(s: EdgeSnapshot, e: Env, now: int)
    requires Valid(s)
    ensures Keeps(s, Merged(Some(s), e, now))
  {
    MeshIsName(s);
    if Knows(s.domains, e.domain) {
      WithModeKeeps(s.domains, e.domain, e.dnsMode);
    } else {
      DemotedKeeps(NewPrimary(e), s.domains);
    }
  }

  /** A merge that goes through is valid, has the domain of `.env`, keeps every domain and the mesh's
      name, and moves the primary exactly when the domain is new. */
  lemma MergeKeeps(existing: Option<EdgeSnapshot>, env: Env, now: int, t: EdgeSnapshot)
    requires existing.Some? ==> Valid(existing.value)
    requires MergeOf(existing, env, now) == Ok(t)
    ensures Valid(t) && Knows(t.domains, TrimSpace(env.domain))
    ensures existing.Some? ==> Keeps(existing.value, t)
    ensures PrimaryOf(t.domains).value.baseDomain ==
              if existing.Some? && Knows(existing.value.domains, TrimSpace(env.domain))
              then PrimaryOf(existing.value.domains).value.baseDomain else TrimSpace(env.domain)
  {
    var e := Settings(env);
    if existing.Some? { MergedKeeps(existing.value, e, now); }
    if existing.Some? && Knows(existing.value.domains, e.domain) {
      WithModePrimary(existing.value.domains, e.domain, e.dnsMode);
      var d :| d in existing.value.domains && d.baseDomain == e.domain;
      var k :| k in t.domains && KeptAs(d, k);
    } else {
      MoveRefused(existing, e, now);
      assert NewPrimary(e) == t.domains[0] && t.domains[0] in t.domains;
    }
  }

  /** What a merge takes from the settings, blank ones aside, and what it leaves of the snapshot: the domain is
      in the mode asked for, delegation unless another is; the addresses are those given, the usual one for the
      mesh, and for a domain already known the public one of before; its other fields are as they were, and a
      new domain starts with none, and as the primary. */
  lemma MergeTakes(existing: Option<EdgeSnapshot>, env: Env, now: int, t: EdgeSnapshot)
    requires existing.Some? ==> Valid(existing.value)
    requires MergeOf(existing, env, now) == Ok(t)
    ensures var name, mode, publicIP, meshIP := TrimSpace(env.domain), TrimSpace(env.dnsMode), TrimSpace(env.publicIP), TrimSpace(env.meshIP);
            var known := existing.Some? && Knows(existing.value.domains, name);
            && name != "" && (exists d <- t.domains :: d.baseDomain == name && d.dnsMode == if mode == "" then "delegation" else mode)
            && t.meshIP == (if meshIP == "" then "100.64.0.1" else meshIP)
            && t.publicIP == (if known && publicIP == "" then existing.value.publicIP else publicIP)
            && t.writtenAt == now
            && (known ==> t == existing.value.(domains := t.domains, publicIP := t.publicIP, meshIP := t.meshIP,
                                               meshDomain := t.meshDomain, writtenAt := now))
            && (!known ==> t == EdgeSnapshot(t.domains, publicIP, t.meshIP, now, t.meshDomain, 0, 0, "", [], [])
                           && EdgeDomain(name, "internal", if mode == "" then "delegation" else mode, true, false, None, false) in t.domains)
  {
    var e := Settings(env);
    if existing.Some? && Knows(existing.value.domains, e.domain) {
      WithModeIs(existing.value.domains, e.domain, e.dnsMode);
      var d :| d in existing.value.domains && d.baseDomain == e.domain;
      WithModeTakes(existing.value.domains, e.domain, e.dnsMode);
    } else {
      assert NewPrimary(e) == t.domains[0] && t.domains[0] in t.domains;
    }
  }

  lemma {:induction false} WithModeTakes(ds: seq<EdgeDomain>, name: string, mode: string)
    requires Knows(ds, name)
    ensures exists d <- WithMode(ds, name, mode) :: d.baseDomain == name && d.dnsMode == mode
  {
    var after := WithMode(ds, name, mode);
    if ds[0].baseDomain == name {
      assert after[0] in after;
    } else {
      var d :| d in ds && d.baseDomain == name;
      assert d in ds[1..];
      WithModeTakes(ds[1..], name, mode);
      var k :| k in WithMode(ds[1..], name, mode) && k.baseDomain == name && k.dnsMode == mode;
      assert k in after;
    }
  }

  lemma WithModeTwice(ds: seq<EdgeDomain>, name: string, mode: string)
    requires Distinct(ds)
    ensures WithMode(WithMode(ds, name, mode), name, mode) == WithMode(ds, name, mode)
  {
    WithModeIs(ds, name, mode);
    WithModeShape(ds, name, mode);
    WithModeIs(WithMode(ds, name, mode), name, mode);
  }

  lemma ReinstallTwice(s: EdgeSnapshot, e: Env, now: int, later: int)
    requires Distinct(s.domains) && MeshDomainOrDefault(s) != ""
    ensures Reinstalled(Reinstalled(s, e, now), e, later) == Reinstalled(s, e, now).(writtenAt := later)
  {
    WithModeTwice(s.domains, e.domain, e.dnsMode);
  }

  lemma ReinstallAfterMove(existing: Option<EdgeSnapshot>, e: Env, now: int, later: int)
    requires existing.Some? ==> MeshDomainOrDefault(existing.value) != ""
    ensures Reinstalled(Moved(existing, e, now), e, later) == Moved(existing, e, now).(writtenAt := later)
  {
    var ds := Moved(existing, e, now).domains;
    assert ds[0] == NewPrimary(e) && ds == [ds[0]] + ds[1..];
  }

  lemma TimeWrittenDoesNotMatter(s: EdgeSnapshot, later: int)
    requires Valid(s)
    ensures Valid(s.(writtenAt := later))
  {
  }

  /** Merging the same `.env` again changes only the time written. */
  lemma MergeTwice(existing: Option<EdgeSnapshot>, env: Env, now: int, later: int, t: EdgeSnapshot)
    requires existing.Some? ==> Valid(existing.value)
    requires MergeOf(existing, env, now) == Ok(t)
    ensures MergeOf(Some(t), env, later) == Ok(t.(writtenAt := later))
  {
    MergeKeeps(existing, env, now, t);
    if existing.Some? { MeshIsName(existing.value); }
    if existing.Some? && Knows(existing.value.domains, Settings(env).domain) {
      ReinstallTwice(existing.value, Settings(env), now, later);
    } else {
      ReinstallAfterMove(existing, Settings(env), now, later);
    }
    TimeWrittenDoesNotMatter(t, later);
  }

  // ── Runs of the installer ─────────────────────────────────────────────────

  /** What stands after one run: a refused merge writes nothing. */
  function AfterRun(existing: Option<EdgeSnapshot>, env: Env, now: int): Option<EdgeSnapshot> {
    match MergeOf(existing, env, now)
    case Ok(t) => Some(t)
    case Err(_) => existing
  }

  function AfterRuns(existing: Option<EdgeSnapshot>, envs: seq<(Env, int)>): Option<EdgeSnapshot>
    decreases |envs|
  {
    if envs == [] then existing else AfterRuns(AfterRun(existing, envs[0].0, envs[0].1), envs[1..])
  }

  lemma {:induction false} RunsKeep(existing: Option<EdgeSnapshot>, envs: seq<(Env, int)>)
    requires existing.Some? ==> Valid(existing.value)
    ensures AfterRuns(existing, envs).Some? ==> Valid(AfterRuns(existing, envs).value)
    ensures existing.Some? ==> AfterRuns(existing, envs).Some? && Keeps(existing.value, AfterRuns(existing, envs).value)
    decreases |envs|
  {
    if envs == [] {
      if existing.Some? { KeepsItself(existing.value); }
    } else {
      var next := AfterRun(existing, envs[0].0, envs[0].1);
      if MergeOf(existing, envs[0].0, envs[0].1).Ok? {
        MergeKeeps(existing, envs[0].0, envs[0].1, next.value);
      }
      RunsKeep(next, envs[1..]);
      if existing.Some? && next != existing {
        KeepsTransitive(existing.value, next.value, AfterRuns(existing, envs).value);
      }
    }
  }

  lemma {:induction false} RunsAppend(existing: Option<EdgeSnapshot>, a: seq<(Env, int)>, b: seq<(Env, int)>)
    ensures AfterRuns(existing, a + b) == AfterRuns(AfterRuns(existing, a), b)
    decreases |a|
  {
    if a == [] {
      assert a + b == b;
    } else {
      assert (a + b)[1..] == a[1..] + b;
      RunsAppend(AfterRun(existing, a[0].0, a[0].1), a[1..], b);
    }
  }

  /** Over any runs of the installer, from an empty host or from any valid snapshot, whoever wrote it:
      whatever stands is valid, with one primary. Of whatever stood at some point, every base domain is
      still there and still that domain, the one that was primary still serves the platform's names, and
      the mesh's name is the same. */
  lemma InstallerKeeps(start: Option<EdgeSnapshot>, before: seq<(Env, int)>, after: seq<(Env, int)>, s: EdgeSnapshot)
    requires start.Some? ==> Valid(start.value)
    requires AfterRuns(start, before) == Some(s)
    ensures AfterRuns(start, before + after).Some?
    ensures var t := AfterRuns(start, before + after).value;
            && Valid(s) && Valid(t)
            && (forall d <- s.domains :: exists k <- t.domains :: KeptAs(d, k))
            && (exists k <- t.domains :: k.baseDomain == PrimaryOf(s.domains).value.baseDomain && Platform(k))
            && MeshDomainOrDefault(t) == MeshDomainOrDefault(s)
  {
    RunsKeep(start, before);
    RunsAppend(start, before, after);
    RunsKeep(Some(s), after);
    var t := AfterRuns(start, before + after).value;
    var p := PrimaryOf(s.domains).value;
    var k :| k in t.domains && KeptAs(p, k);
    assert k.baseDomain == p.baseDomain && Platform(k);
  }
}
