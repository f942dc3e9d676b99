/** Which files a snapshot is rendered into, and which service reads each. */
module EdgeRender {
  import opened Prelude
  import opened Text
  import opened Sorting
  import opened Requests
  import opened Snapshot
  import opened EdgeConfig

  const CADDYFILE := "caddy/Caddyfile"
  const COREFILE := "coredns/Corefile"
  const HEADSCALE_CONFIG := "headscale/config/config.yaml"
  const CHALLENGE := "_acme-challenge."

  function InternalZone(d: EdgeDomain): string {
    d.internalSubdomain + ['.'] + d.baseDomain
  }

  /** The zones served for a domain: the mesh's always, the public ones where DNS is delegated here. */
  function ZonesOf(d: EdgeDomain): set<string> {
    {InternalZone(d)} +
    if d.dnsMode == DELEGATION then {d.baseDomain, CHALLENGE + d.baseDomain, CHALLENGE + InternalZone(d)} else {}
  }

  function ZonePaths(ds: seq<EdgeDomain>): set<string> {
    set d <- ds, zone <- ZonesOf(d) :: ZONES_DIR + zone
  }

  function RenderPaths(s: EdgeSnapshot): set<string> {
    {CADDYFILE, COREFILE, HEADSCALE_CONFIG} + ZonePaths(s.domains)
  }

  /** What the templates see of a snapshot: its domains in their order, the defaults filled in, and not
      when it was written. */
  datatype RenderData = RenderData(
    publicIP: string, meshIP: string, domains: seq<EdgeDomain>, primary: Option<EdgeDomain>, meshDomain: string,
    proxyPort: int, headscalePort: int, acmeEmail: string, consoleNames: seq<string>, projectConsoleNames: seq<string>)

  function DataOf(s: EdgeSnapshot): RenderData {
    RenderData(s.publicIP, s.meshIP, RenderOrder(s.domains), PrimaryOf(s.domains), MeshDomainOrDefault(s),
               if s.proxyPort > 0 then s.proxyPort else 8081, if s.headscalePort > 0 then s.headscalePort else 8085,
               s.acmeEmail, s.consoleNames, s.projectConsoleNames)
  }

  /** What the templates produce for a path. */
  type Templates = (RenderData, string) -> string

  /** `Render`: refuses a snapshot that is not valid. */
  function Render(templates: Templates, s: EdgeSnapshot): Option<Files> {
    if Valid(s) then Some(map p | p in RenderPaths(s) :: templates(DataOf(s), p)) else None
  }

  /** Two snapshots that differ in the order of their rows, and when they were written. */
  ghost predicate SameRows(a: EdgeSnapshot, b: EdgeSnapshot) {
    multiset(a.domains) == multiset(b.domains) && b == a.(domains := b.domains, writtenAt := b.writtenAt)
  }

  lemma SameData(a: EdgeSnapshot, b: EdgeSnapshot)
    requires Valid(a) && Valid(b) && SameRows(a, b)
    ensures DataOf(a) == DataOf(b)
  {
    RowOrderDoesNotShow(a, b);
    SortedIsTheOrder(a, RenderOrder(a.domains));
    SortedIsTheOrder(b, RenderOrder(b.domains));
  }

  lemma SamePaths(a: EdgeSnapshot, b: EdgeSnapshot)
    requires SameRows(a, b)
    ensures RenderPaths(a) == RenderPaths(b)
  {
    SameMembers(a.domains, b.domains);
    assert ZonePaths(a.domains) == ZonePaths(b.domains);
  }

  /** The rows of the database in another order, written again at another time, render to the same files;
      so nothing is planned where the first are served. */
  lemma RowOrderChangesNothing(templates: Templates, a: EdgeSnapshot, b: EdgeSnapshot, disk: Files, changes: seq<Change>)
    requires Valid(a) && Valid(b) && SameRows(a, b)
    ensures Render(templates, a) == Render(templates, b)
    ensures Serves(Render(templates, a).value, disk) && IsPlan(changes, Render(templates, b).value, disk) ==> changes == []
  {
    SameData(a, b);
    SamePaths(a, b);
    assert Render(templates, a).value == Render(templates, b).value;
    if IsPlan(changes, Render(templates, b).value, disk) { NothingPlannedIff(changes, Render(templates, b).value, disk); }
  }

  // ── Rendered paths ────────────────────────────────────────────────────────

  predicate Plain(s: string) {
    forall c <- s :: c !in SPACE
  }

  lemma NameCharsPlain(c: char)
    requires IsLower(c) || IsDigit(c) || c == '-' || c == '.' || c == '_' || c == '/' || IsUpper(c)
    ensures c !in SPACE
  {
  }

  predicate PathChars(s: string) {
    forall c <- s :: IsLower(c) || IsDigit(c) || c == '-' || c == '.' || c == '_' || c == '/' || IsUpper(c)
  }

  lemma PathCharsPlain(s: string)
    requires PathChars(s)
    ensures Plain(s)
  {
    forall c | c in s
      ensures c !in SPACE
    {
      NameCharsPlain(c);
    }
  }

  lemma PathCharsConcat(a: string, b: string)
    requires PathChars(a) && PathChars(b)
    ensures PathChars(a + b)
  {
  }

  lemma NameChars(name: string)
    requires IsName(name)
    ensures PathChars(name)
  {
    forall c | c in name
      ensures IsLower(c) || IsDigit(c) || c == '-' || c == '.'
    {
      NamesAreInert(name, c);
    }
  }

  lemma FileChars()
    ensures PathChars(CADDYFILE) && PathChars(COREFILE)
  {
  }

  lemma HeadscaleChars()
    ensures PathChars(HEADSCALE_CONFIG)
  {
  }

  lemma ZonesChars()
    ensures PathChars(ZONES_DIR) && PathChars(CHALLENGE)
  {
  }

  lemma FixedSlashes()
    ensures '/' in CADDYFILE && '/' in COREFILE && '/' in HEADSCALE_CONFIG && '/' in ZONES_DIR
  {
    assert CADDYFILE[5] == '/' && COREFILE[7] == '/' && HEADSCALE_CONFIG[9] == '/' && ZONES_DIR[7] == '/';
  }

  lemma FixedChars()
    ensures PathChars(CADDYFILE) && PathChars(COREFILE) && PathChars(HEADSCALE_CONFIG)
    ensures PathChars(ZONES_DIR) && PathChars(CHALLENGE)
  {
    FileChars();
    HeadscaleChars();
    ZonesChars();
  }

  lemma ZoneChars(d: EdgeDomain, zone: string)
    requires DomainOk(d) && zone in ZonesOf(d)
    ensures PathChars(zone)
  {
    FixedChars();
    NameChars(d.baseDomain);
    NameChars(d.internalSubdomain);
    PathCharsConcat(['.'], d.baseDomain);
    PathCharsConcat(d.internalSubdomain, ['.'] + d.baseDomain);
    assert InternalZone(d) == d.internalSubdomain + (['.'] + d.baseDomain);
    PathCharsConcat(CHALLENGE, d.baseDomain);
    PathCharsConcat(CHALLENGE, InternalZone(d));
  }

  /** Every path rendered is one a manifest can carry. */
  lemma RenderedPathsPlain(s: EdgeSnapshot, p: string)
    requires Valid(s) && p in RenderPaths(s)
    ensures PlainPath(p)
  {
    FixedChars();
    FixedSlashes();
    if p in ZonePaths(s.domains) {
      var d, zone :| d in s.domains && zone in ZonesOf(d) && p == ZONES_DIR + zone;
      ZoneChars(d, zone);
      PathCharsConcat(ZONES_DIR, zone);
      assert p[7] == ZONES_DIR[7];
    }
    PathCharsPlain(p);
  }

  /** So what a plan installs can always be taken back. */
  lemma PlansFit(templates: Templates, s: EdgeSnapshot, disk: Files, changes: seq<Change>)
    requires Valid(s) && IsPlan(changes, Render(templates, s).value, disk)
    ensures PathsFit(changes)
  {
    FixedSlashes();
    forall c | c in changes
      ensures if c.action.Create? then PlainPath(c.path) else c.path != MANIFEST
    {
      if c.path in RenderPaths(s) {
        RenderedPathsPlain(s, c.path);
      } else {
        assert IsZonePath(c.path) && c.path[7] == ZONES_DIR[7];
      }
      NoSlash(c.path);
    }
  }

  lemma NoSlash(p: string)
    requires '/' in p
    ensures p != MANIFEST
  {
    assert '/' !in MANIFEST;
  }

  // ── A file for each zone ──────────────────────────────────────────────────

  /** A zone of a domain: the public one or the mesh's, or the challenge zone of either. */
  datatype Zone = Zone(domain: EdgeDomain, challenge: bool, mesh: bool)

  function Stem(z: Zone): string {
    if z.mesh then InternalZone(z.domain) else z.domain.baseDomain
  }

  function ZoneName(z: Zone): string {
    if z.challenge then CHALLENGE + Stem(z) else Stem(z)
  }

  /** The mesh's own zone is served always. */
  predicate Served(z: Zone) {
    (z.mesh && !z.challenge) || z.domain.dnsMode == DELEGATION
  }

  /** The zones of a domain are these. */
  lemma ZonesServed(d: EdgeDomain, name: string)
    ensures name in ZonesOf(d) <==> exists z: Zone :: z.domain == d && Served(z) && ZoneName(z) == name
  {
    var mesh, public, challenge, both := Zone(d, false, true), Zone(d, false, false), Zone(d, true, false), Zone(d, true, true);
    assert ZoneName(mesh) == InternalZone(d) && ZoneName(public) == d.baseDomain;
    assert ZoneName(challenge) == CHALLENGE + d.baseDomain && ZoneName(both) == CHALLENGE + InternalZone(d);
  }

  predicate IsZoneOf(z: Zone, s: EdgeSnapshot) {
    z.domain in s.domains && Served(z)
  }

  function ZonePath(z: Zone): string {
    ZONES_DIR + ZoneName(z)
  }

  /** A domain delegated here under the very name of another's mesh zone. */
  predicate Shares(mesh: EdgeDomain, public: EdgeDomain) {
    public.dnsMode == DELEGATION && public.baseDomain == InternalZone(mesh)
  }

  lemma LabelOfZone(d: EdgeDomain)
    requires DomainOk(d)
    ensures Cut(InternalZone(d), '.') == Some((d.internalSubdomain, d.baseDomain))
  {
    CutFirst(d.internalSubdomain, '.', d.baseDomain);
  }

  lemma NameHead(name: string)
    requires IsName(name)
    ensures name != "" && name[0] != '_'
  {
    NamesAreInert(name, name[0]);
  }

  lemma StemHead(z: Zone)
    requires DomainOk(z.domain)
    ensures Stem(z) != "" && Stem(z)[0] != '_'
  {
    NameHead(z.domain.baseDomain);
    NameHead(z.domain.internalSubdomain);
  }

  lemma ChallengeHead(challenge: string, a: string, b: string)
    requires challenge == CHALLENGE
    ensures (challenge + a)[0] == '_' && (challenge + a == challenge + b ==> a == b)
  {
    assert (challenge + a)[|challenge|..] == a && (challenge + b)[|challenge|..] == b;
  }

  lemma StemsEqual(a: Zone, b: Zone)
    requires DomainOk(a.domain) && DomainOk(b.domain) && ZoneName(a) == ZoneName(b)
    ensures a.challenge == b.challenge && Stem(a) == Stem(b)
  {
    StemHead(a);
    StemHead(b);
    ChallengeHead(CHALLENGE, Stem(a), Stem(b));
    ChallengeHead(CHALLENGE, Stem(b), Stem(a));
  }

  lemma OneOfName(s: EdgeSnapshot, d: EdgeDomain, e: EdgeDomain)
    requires Valid(s) && d in s.domains && e in s.domains && d.baseDomain == e.baseDomain
    ensures d == e
  {
    var i, j :| 0 <= i < |s.domains| && 0 <= j < |s.domains| && s.domains[i] == d && s.domains[j] == e;
    assert !(i < j) && !(j < i);
  }

  lemma SameNameShares(s: EdgeSnapshot, a: Zone, b: Zone)
    requires Valid(s) && IsZoneOf(a, s) && IsZoneOf(b, s) && ZoneName(a) == ZoneName(b) && a != b
    ensures a.mesh != b.mesh && (if a.mesh then Shares(a.domain, b.domain) else Shares(b.domain, a.domain))
  {
    StemsEqual(a, b);
    LabelOfZone(a.domain);
    LabelOfZone(b.domain);
    if a.mesh == b.mesh { OneOfName(s, a.domain, b.domain); }
  }

  lemma PathIsName(a: string, b: string)
    ensures ZONES_DIR + a == ZONES_DIR + b ==> a == b
  {
    assert (ZONES_DIR + a)[|ZONES_DIR|..] == a && (ZONES_DIR + b)[|ZONES_DIR|..] == b;
  }

  predicate SomeShares(s: EdgeSnapshot) {
    exists d, e :: d in s.domains && e in s.domains && Shares(d, e)
  }

  ghost predicate OwnFiles(s: EdgeSnapshot) {
    forall a, b :: IsZoneOf(a, s) && IsZoneOf(b, s) && ZonePath(a) == ZonePath(b) ==> a == b
  }

  /** Each zone of a valid snapshot has a file of its own exactly when no domain is delegated under the
      name of a mesh zone; otherwise two of them are one file. */
  lemma OwnFilesIff(s: EdgeSnapshot)
    requires Valid(s)
    ensures OwnFiles(s) <==> !SomeShares(s)
  {
    forall a, b | IsZoneOf(a, s) && IsZoneOf(b, s) && ZonePath(a) == ZonePath(b) && a != b
      ensures SomeShares(s)
    {
      PathIsName(ZoneName(a), ZoneName(b));
      SameNameShares(s, a, b);
    }
    if SomeShares(s) {
      var d, e :| d in s.domains && e in s.domains && Shares(d, e);
      var a, b := Zone(d, false, true), Zone(e, false, false);
      assert IsZoneOf(a, s) && IsZoneOf(b, s) && ZonePath(a) == ZonePath(b);
    }
  }

  /** That it happens: a domain, and its own mesh zone added as a domain delegated here, are valid. */
  lemma SharedFileHappens(s: EdgeSnapshot, sub: string, d: EdgeDomain, e: EdgeDomain)
    requires IsSingleLabel(sub) && IsName(d.baseDomain) && '.' in d.baseDomain && |sub| + 1 + |d.baseDomain| <= 253
    requires d == EdgeDomain(d.baseDomain, sub, ONDEMAND, true, false, None, false)
    requires e == EdgeDomain(InternalZone(d), sub, DELEGATION, false, false, None, false)
    requires s == EdgeSnapshot([d, e], "192.0.2.1", "100.64.0.1", 0, "", 0, 0, "", [], [])
    ensures Valid(s) && !OwnFiles(s)
  {
    SplitWhole(sub, '.');
    LabelBefore(sub, d.baseDomain);
    assert InternalZone(d)[|sub|] == '.' && |InternalZone(d)| != |d.baseDomain|;
    assert s.domains[0] == d && s.domains[1] == e;
    assert DomainsOk(s.domains);
    OwnFilesIff(s);
    assert Shares(d, e);
  }

  // ── Services ──────────────────────────────────────────────────────────────

  datatype Service = CoreDNS | Headscale | Caddy

  /** The service that reads a file. */
  predicate Reaches(p: string, s: Service) {
    match s
    case Caddy => HasPrefix(p, "caddy/")
    case CoreDNS => HasPrefix(p, "coredns/")
    case Headscale => p == HEADSCALE_CONFIG
  }

  /** The files a service reads. */
  function Part(s: Service, disk: Files): Files {
    map p | p in disk && Reaches(p, s) :: disk[p]
  }

  ghost predicate Touches(changes: seq<Change>, s: Service) {
    exists c <- changes :: Reaches(c.path, s)
  }

  ghost predicate DiffersFor(files: Files, disk: Files, s: Service) {
    exists p :: Reaches(p, s) && ChangeAt(files, disk, p).Some?
  }

  /** The services whose files the rendering changes. */
  ghost function Differs(files: Files, disk: Files): set<Service> {
    set s: Service | DiffersFor(files, disk, s)
  }

  lemma PlanTouches(changes: seq<Change>, files: Files, disk: Files, s: Service)
    requires IsPlan(changes, files, disk)
    ensures Touches(changes, s) <==> s in Differs(files, disk)
  {
    if s in Differs(files, disk) {
      var p :| Reaches(p, s) && ChangeAt(files, disk, p).Some?;
      assert ChangeAt(files, disk, p).value in changes;
    }
    if Touches(changes, s) {
      var c :| c in changes && Reaches(c.path, s);
      assert ChangeAt(files, disk, c.path).Some?;
    }
  }

  /** A service no change reaches reads the same files as before. */
  lemma UntouchedReadsSame(files: Files, disk: Files, s: Service)
    requires s !in Differs(files, disk)
    ensures Part(s, After(files, disk)) == Part(s, disk)
  {
    forall p
      ensures Get(Part(s, After(files, disk)), p) == Get(Part(s, disk), p)
    {
      if Reaches(p, s) { assert ChangeAt(files, disk, p).None?; }
    }
    SameFiles(Part(s, After(files, disk)), Part(s, disk));
  }

  lemma FixedReach()
    ensures Reaches(CADDYFILE, Caddy) && Reaches(COREFILE, CoreDNS) && Reaches(HEADSCALE_CONFIG, Headscale)
    ensures Reaches(ZONES_DIR, CoreDNS)
  {
    assert CADDYFILE[..6] == "caddy/";
    assert COREFILE[..8] == "coredns/";
    assert ZONES_DIR[..8] == "coredns/";
  }

  lemma PrefixReaches(p: string, more: string)
    requires Reaches(p, CoreDNS)
    ensures Reaches(p + more, CoreDNS)
  {
    assert (p + more)[..8] == p[..8];
  }

  lemma OneServiceEach(p: string, a: Service, b: Service)
    requires Reaches(p, a) && Reaches(p, b)
    ensures a == b
  {
    if HasPrefix(p, "caddy/") { assert p[1] == 'a'; }
    if HasPrefix(p, "coredns/") { assert p[1] == 'o'; }
    assert HEADSCALE_CONFIG[1] == 'e';
  }

  /** No rendered file goes unnoticed: each is read by one service, which a change to it reaches. */
  lemma RenderedReachesOne(s: EdgeSnapshot, p: string)
    requires p in RenderPaths(s)
    ensures exists svc :: Reaches(p, svc) && forall other :: Reaches(p, other) ==> other == svc
  {
    FixedReach();
    var svc := if p == CADDYFILE then Caddy else if p == HEADSCALE_CONFIG then Headscale else CoreDNS;
    if p in ZonePaths(s.domains) {
      var d, zone :| d in s.domains && zone in ZonesOf(d) && p == ZONES_DIR + zone;
      PrefixReaches(ZONES_DIR, zone);
      OneServiceEach(p, svc, CoreDNS);
    }
    forall other | Reaches(p, other)
      ensures other == svc
    {
      OneServiceEach(p, svc, other);
    }
  }

  /** The selection in `reloadEdgeWithCompose`. */
  method ServicesOf(changes: seq<Change>) returns (caddy: bool, coredns: bool, headscale: bool)
    ensures caddy <==> Touches(changes, Caddy)
    ensures coredns <==> Touches(changes, CoreDNS)
    ensures headscale <==> Touches(changes, Headscale)
  {
    caddy, coredns, headscale := false, false, false;
    for i := 0 to |changes|
      invariant caddy <==> Touches(changes[..i], Caddy)
      invariant coredns <==> Touches(changes[..i], CoreDNS)
      invariant headscale <==> Touches(changes[..i], Headscale)
    {
      var p := changes[i].path;
      TouchesSnoc(changes, i);
      OneOf(p);
      if HasPrefix(p, "caddy/") {
        caddy := true;
      } else if HasPrefix(p, "coredns/") {
        coredns := true;
      } else if p == HEADSCALE_CONFIG {
        headscale := true;
      }
    }
    assert changes[..|changes|] == changes;
  }

  lemma OneOf(p: string)
    ensures !(Reaches(p, Caddy) && Reaches(p, CoreDNS)) && !(Reaches(p, Caddy) && Reaches(p, Headscale))
    ensures !(Reaches(p, CoreDNS) && Reaches(p, Headscale))
  {
    if Reaches(p, Caddy) && Reaches(p, CoreDNS) { OneServiceEach(p, Caddy, CoreDNS); }
    if Reaches(p, Caddy) && Reaches(p, Headscale) { OneServiceEach(p, Caddy, Headscale); }
    if Reaches(p, CoreDNS) && Reaches(p, Headscale) { OneServiceEach(p, CoreDNS, Headscale); }
  }

  lemma TouchesSnoc(changes: seq<Change>, i: nat)
    requires i < |changes|
    ensures forall s :: Touches(changes[..i + 1], s) <==> Touches(changes[..i], s) || Reaches(changes[i].path, s)
  {
    assert changes[..i + 1] == changes[..i] + [changes[i]];
  }

  /** `touchesCaddy`. */
  method TouchesCaddy(changes: seq<Change>) returns (touches: bool)
    ensures touches <==> Touches(changes, Caddy)
  {
    for i := 0 to |changes|
      invariant !Touches(changes[..i], Caddy)
    {
      TouchesSnoc(changes, i);
      assert changes[i] in changes;
      if HasPrefix(changes[i].path, "caddy/") {
        return true;
      }
    }
    assert changes[..|changes|] == changes;
    return false;
  }
}
