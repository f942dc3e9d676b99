/** What requests and commands keep over whole runs, whatever fails on the way: the record of what is
    served, the files, and what the services run. */
module EdgeRuns {
  import opened Prelude
  import opened Text
  import opened Requests
  import opened Snapshot
  import opened Merge
  import opened EdgeConfig
  import opened EdgeRender
  import opened EdgeApply

  /** What is fixed on a host. */
  datatype World = World(templates: Templates, env: HostEnv)

  /** What happens to a host: the API leaves a snapshot and tokens, a request is run, or an operator
      applies what is recorded. */
  datatype Event =
    | Leave(desired: Option<EdgeSnapshot>, credentials: Option<Tokens>)
    | Request(dryRun: bool, r: RequestOutcome)
    | Command(dryRun: bool, force: bool, reload: bool, o: Outcome)

  ghost predicate Next(w: World, h: Host, e: Event, t: Host) {
    match e
    case Leave(desired, credentials) => t == h.(desired := desired, credentials := credentials)
    case Request(dryRun, r) => RequestStep(w.templates, w.env, dryRun, h, r, t)
    case Command(dryRun, force, reload, o) =>
      h.recorded.Some? && ApplyStep(JobFor(w.templates, w.env, h.recorded.value, map[], dryRun, force, reload), h, o, t)
  }

  /** The hosts of a run, one more than there are events. */
  ghost predicate Run(w: World, hs: seq<Host>, es: seq<Event>) {
    |hs| == |es| + 1 && forall i :: 0 <= i < |es| ==> Next(w, hs[i], es[i], hs[i + 1])
  }

  /** The apply an event ran, if it ran one. */
  function Ran(e: Event): Option<Outcome> {
    match e
    case Leave(_, _) => None
    case Request(_, Tried(o)) => Some(o)
    case Request(_, NotRecorded(o)) => Some(o)
    case Request(_, Finished(o)) => Some(o)
    case Request(_, _) => None
    case Command(_, _, _, o) => Some(o)
  }

  // ── One apply ─────────────────────────────────────────────────────────────

  /** Every service runs on the files on disk. */
  predicate InSync(h: Host) {
    h.edge.running.Keys == {CoreDNS, Headscale, Caddy} && forall s <- h.edge.running :: h.edge.running[s] == Part(s, h.disk)
  }

  /** A dry run, a refusal and a rejected Caddyfile leave the files, the services and the record as
      they were. */
  lemma RefusalChangesNothing(j: Job, h: Host, o: Outcome, t: Host)
    requires ApplyStep(j, h, o, t)
    requires o.Refused? || o.Unreadable? || o.DryRun? || o.TokensMissing? || o.TokensNotWritten? || o.Rejected? || o.CaddyKept?
    ensures t == h.(secrets := t.secrets)
    ensures o.DryRun? || o.Refused? || o.Unreadable? || o.TokensMissing? ==> t == h
  {
  }

  /** Services reloaded on what is on disk are in sync, when only they could have been out of it. */
  lemma ReloadedInSync(before: Host, after: Host, touched: set<Service>, secrets: Tokens)
    requires InSync(before) && after.edge == Reloaded(before.edge, after.disk, secrets, touched)
    requires forall s :: s !in touched ==> Part(s, after.disk) == Part(s, before.disk)
    ensures InSync(after)
  {
    assert touched <= {CoreDNS, Headscale, Caddy} by { AllServices(touched); }
  }

  lemma UntouchedSame(files: Files, disk: Files, touched: set<Service>)
    requires Differs(files, disk) <= touched
    ensures forall s :: s !in touched ==> Part(s, After(files, disk)) == Part(s, disk)
  {
    forall s | s !in touched
      ensures Part(s, After(files, disk)) == Part(s, disk)
    {
      UntouchedReadsSame(files, disk, s);
    }
  }

  /** A failed reload whose restore comes up leaves the files exactly as before, and the same services
      running on them again. */
  lemma PutBackIsAsBefore(j: Job, h: Host, t: Host)
    requires ApplyStep(j, h, PutBack, t)
    ensures t.disk == h.disk && t.recorded == h.recorded
    ensures t.edge == Reloaded(h.edge, h.disk, t.secrets, Touched(j, h))
    ensures InSync(h) ==> InSync(t) && t.edge.running == h.edge.running
  {
    if InSync(h) {
      ReloadedInSync(h, t, Touched(j, h), t.secrets);
      assert t.edge.running == h.edge.running;
    }
  }

  /** An apply that put files in service serves the rendering, with every service on it. */
  lemma DoneServes(j: Job, h: Host, how: How, cleaned: bool, t: Host)
    requires ApplyStep(j, h, Done(how, cleaned), t)
    ensures Serves(j.files.value, t.disk)
    ensures j.reload && InSync(h) ==> InSync(t)
  {
    AfterServes(j.files.value, h.disk);
    if j.reload && InSync(h) {
      match how
      case NothingToDo =>
      case CaddyReloaded => ReloadedInSync(h, t, {Caddy}, Written(j, h));
      case InService =>
        UntouchedSame(j.files.value, h.disk, Touched(j, h));
        ReloadedInSync(h, t, Touched(j, h), Written(j, h));
    }
  }

  /** A port of a snapshot: its own when it has one, this host's when it says none, and otherwise the usual one. */
  function PortShown(own: int, host: int, usual: int): int {
    if own > 0 then own else if own == 0 && host > 0 then host else usual
  }

  /** What the templates see of a snapshot on a host: its own fields, the host's ports and address where it has
      none. */
  function Shown(s: EdgeSnapshot, env: HostEnv): RenderData
    requires SomePrimary(s.domains)
  {
    var primary := PrimaryOf(s.domains).value;
    RenderData(s.publicIP, s.meshIP, RenderOrder(s.domains), Some(primary),
               if s.meshDomain != "" then s.meshDomain else "mesh." + primary.baseDomain,
               PortShown(s.proxyPort, env.proxyPort, 8081), PortShown(s.headscalePort, env.headscalePort, 8085),
               if s.acmeEmail != "" then s.acmeEmail else TrimSpace(env.acmeEmail), s.consoleNames, s.projectConsoleNames)
  }

  lemma FilledShows(s: EdgeSnapshot, env: HostEnv)
    requires SomePrimary(s.domains)
    ensures DataOf(Fill(s, env)) == Shown(s, env)
  {
    assert MeshName(PrimaryOf(s.domains).value.baseDomain) == "mesh." + PrimaryOf(s.domains).value.baseDomain;
  }

  /** The files of an apply are what the templates make of that, and the providers it wants those named. */
  lemma JobShows(templates: Templates, env: HostEnv, s: EdgeSnapshot, creds: Tokens, dryRun: bool, force: bool, reload: bool, j: Job)
    requires j == JobFor(templates, env, s, creds, dryRun, force, reload) && j.files.Some?
    ensures SomePrimary(s.domains) && forall p <- j.files.value :: j.files.value[p] == templates(Shown(s, env), p)
    ensures j.want == set d <- s.domains | d.provider.Some? :: d.provider.value.id
  {
    FilledValid(s, env);
    FilledShows(s, env);
  }

  lemma RenderedShows(templates: Templates, env: HostEnv, s: EdgeSnapshot, files: Files, p: string)
    requires Render(templates, Fill(s, env)) == Some(files) && p in RenderPaths(s)
    ensures SomePrimary(s.domains) && p in files && files[p] == templates(Shown(s, env), p)
  {
    FilledValid(s, env);
    FilledShows(s, env);
    SamePathsFilled(s, env);
  }

  lemma SamePathsFilled(s: EdgeSnapshot, env: HostEnv)
    ensures RenderPaths(Fill(s, env)) == RenderPaths(s)
  {
  }

  lemma NotSeed(p: string)
    requires !IsChallenge(p)
    ensures !SeedOnly(p)
  {
    SeedOnlyIs(p, CHALLENGE_PREFIX);
    assert CHALLENGE_PREFIX == "coredns/zones/_acme-challenge.";
  }

  /** An apply that is done leaves each of them on disk, but for challenge zones already there. */
  lemma DoneShows(j: Job, templates: Templates, env: HostEnv, s: EdgeSnapshot, h: Host, how: How, cleaned: bool, t: Host, p: string)
    requires j.files == Render(templates, Fill(s, env)) && ApplyStep(j, h, Done(how, cleaned), t)
    requires p in RenderPaths(s) && !IsChallenge(p)
    ensures SomePrimary(s.domains) && p in t.disk && t.disk[p] == templates(Shown(s, env), p)
  {
    DoneServes(j, h, how, cleaned, t);
    RenderedShows(templates, env, s, j.files.value, p);
    NotSeed(p);
  }

  /** When nothing goes wrong, an apply that is not a dry run fails only for a snapshot that is not valid
      or a token that is nowhere; any other puts the rendering in service. */
  lemma WellEndsInService(j: Job, h: Host, luck: Luck, o: Outcome, t: Host)
    requires ApplyStep(j, h, o, t) && Follows(j, h, luck, o) && !j.dryRun && j.reload
    requires luck == AllWell()
    ensures Succeeded(o) <==> j.files.Some? && Missing(j.want, j.given, h.secrets) == {}
    ensures Succeeded(o) && InSync(h) ==> InSync(t) && Serves(j.files.value, t.disk)
  {
    if o.Done? { DoneServes(j, h, o.how, o.cleaned, t); }
  }

  // ── The record ────────────────────────────────────────────────────────────

  /** What is recorded as served can be rendered, and is what is on disk. */
  predicate Shows(w: World, h: Host) {
    h.recorded.Some? ==>
      Render(w.templates, Fill(h.recorded.value, w.env)).Some?
      && Serves(Render(w.templates, Fill(h.recorded.value, w.env)).value, h.disk)
  }

  lemma ApplyKeepsRecord(j: Job, h: Host, o: Outcome, t: Host)
    requires ApplyStep(j, h, o, t)
    ensures t.recorded == h.recorded
  {
  }

  lemma OnlyFinishingRecords(w: World, h: Host, e: Event, t: Host)
    requires Next(w, h, e, t)
    ensures t.recorded == h.recorded || (e.Request? && !e.dryRun && e.r.Finished?)
  {
    match e
    case Command(dryRun, force, reload, o) =>
      ApplyKeepsRecord(JobFor(w.templates, w.env, h.recorded.value, map[], dryRun, force, reload), h, o, t);
    case Request(false, Tried(o)) =>
      ApplyKeepsRecord(JobFor(w.templates, w.env, h.desired.value, TokensLeft(h), false, false, true), h.(credentials := None), o, t);
    case Request(false, NotRecorded(o)) =>
      ApplyKeepsRecord(JobFor(w.templates, w.env, h.desired.value, TokensLeft(h), false, false, true), h.(credentials := None), o, t);
    case Request(true, Tried(o)) =>
      ApplyKeepsRecord(JobFor(w.templates, w.env, h.desired.value, map[], true, false, true), h, o, t);
    case Request(true, NotRecorded(o)) =>
      ApplyKeepsRecord(JobFor(w.templates, w.env, h.desired.value, map[], true, false, true), h, o, t);
    case _ =>
  }

  /** state/edge.json changes in one way only: a request that was not a dry run succeeded, what it
      records is what the API asked for, and the files are its rendering. */
  lemma RecordChangesOnlyWhenServed(w: World, h: Host, e: Event, t: Host)
    requires Next(w, h, e, t) && t.recorded != h.recorded
    ensures e.Request? && !e.dryRun && e.r.Finished? && Succeeded(e.r.o)
    ensures t.recorded == h.desired && t.recorded.Some? && Shows(w, t)
    ensures InSync(h) ==> InSync(t)
  {
    OnlyFinishingRecords(w, h, e, t);
    RequestServes(w, h, e, t);
  }

  lemma RequestServes(w: World, h: Host, e: Event, t: Host)
    requires Next(w, h, e, t) && e.Request? && !e.dryRun && e.r.Finished?
    ensures t.recorded == h.desired && t.recorded.Some? && Shows(w, t)
    ensures InSync(h) ==> InSync(t)
  {
    var j := JobFor(w.templates, w.env, h.desired.value, TokensLeft(h), false, false, true);
    var o := e.r.o;
    DoneServes(j, h.(credentials := None), o.how, o.cleaned, t.(recorded := h.recorded));
  }

  /** An apply that was left half done: files partly installed, or not put back, or put back without
      coming up. Each is reported as an error. */
  predicate HalfDone(o: Outcome) {
    o.NotInstalled? || o.NotPutBack? || o.NotStarted?
  }

  /** An event after which the record may be behind or the services not on the files: an apply left half
      done, one that came up and was not recorded, or one asked not to reload. */
  predicate Loose(e: Event) {
    var o := Ran(e);
    o.Some? && (HalfDone(o.value) || o.value == Done(InstalledOnly, true) || (o.value.Done? && !o.value.cleaned) || (e.Request? && e.r.NotRecorded?))
  }

  lemma AppliedKeeps(w: World, j: Job, h: Host, o: Outcome, t: Host)
    requires ApplyStep(j, h, o, t) && !HalfDone(o) && !o.Done? && Shows(w, h) && InSync(h)
    ensures Shows(w, t) && InSync(t)
  {
    if o.PutBack? {
      PutBackIsAsBefore(j, h, t);
    } else {
      RefusalChangesNothing(j, h, o, t);
    }
  }

  lemma CommandKeeps(w: World, h: Host, e: Event, t: Host)
    requires Next(w, h, e, t) && e.Command? && !Loose(e) && Shows(w, h) && InSync(h)
    ensures Shows(w, t) && InSync(t)
  {
    var j := JobFor(w.templates, w.env, h.recorded.value, map[], e.dryRun, e.force, e.reload);
    if e.o.Done? {
      DoneServes(j, h, e.o.how, e.o.cleaned, t);
    } else {
      AppliedKeeps(w, j, h, e.o, t);
    }
  }

  lemma RequestKeeps(w: World, h: Host, e: Event, t: Host)
    requires Next(w, h, e, t) && e.Request? && !Loose(e) && Shows(w, h) && InSync(h)
    ensures Shows(w, t) && InSync(t)
  {
    if e.r.Finished? && !e.dryRun {
      RequestServes(w, h, e, t);
    } else if e.r.Tried? || e.r.Finished? {
      var start := if e.dryRun then h else h.(credentials := None);
      var j := JobFor(w.templates, w.env, h.desired.value, if e.dryRun then map[] else TokensLeft(h), e.dryRun, false, true);
      AppliedKeeps(w, j, start, e.r.o, t);
    }
  }

  lemma NextKeeps(w: World, h: Host, e: Event, t: Host)
    requires Next(w, h, e, t) && !Loose(e) && Shows(w, h) && InSync(h)
    ensures Shows(w, t) && InSync(t)
  {
    match e
    case Leave(_, _) =>
    case Request(_, _) => RequestKeeps(w, h, e, t);
    case Command(_, _, _, _) => CommandKeeps(w, h, e, t);
  }

  /** Over every run in which steps may fail and be taken back: as long as no event is left loose, what
      is recorded is what is on disk, and every service runs on it. */
  lemma {:induction false} RecordIsServed(w: World, hs: seq<Host>, es: seq<Event>, n: nat)
    requires Run(w, hs, es) && n <= |es| && Shows(w, hs[0]) && InSync(hs[0])
    requires forall i :: 0 <= i < n ==> !Loose(es[i])
    ensures Shows(w, hs[n]) && InSync(hs[n])
  {
    if n > 0 {
      RecordIsServed(w, hs, es, n - 1);
      NextKeeps(w, hs[n - 1], es[n - 1], hs[n]);
    }
  }

  /** Over every run at all: what is recorded at any moment was asked for by the API, and its rendering
      was on disk when it was recorded. */
  lemma {:induction false} RecordWasServed(w: World, hs: seq<Host>, es: seq<Event>, n: nat)
    requires Run(w, hs, es) && n <= |es| && hs[n].recorded != hs[0].recorded
    ensures exists k :: 0 < k <= n && hs[k].recorded == hs[n].recorded == hs[k - 1].desired && Shows(w, hs[k])
  {
    if hs[n - 1].recorded != hs[n].recorded {
      RecordChangesOnlyWhenServed(w, hs[n - 1], es[n - 1], hs[n]);
    } else {
      RecordWasServed(w, hs, es, n - 1);
    }
  }

  /** A request that comes again after one that finished has nothing to do. */
  lemma AgainNothingToDo(j: Job, h: Host, o: Outcome, t: Host)
    requires ApplyStep(j, h, o, t) && o.Done? && Serves(j.files.value, h.disk) && Written(j, h) == h.secrets && !j.force
    ensures o.how == NothingToDo && t.disk == h.disk && t.edge == h.edge
  {
  }

  // ── Tokens ────────────────────────────────────────────────────────────────

  /** These providers' tokens as kept are those read. */
  predicate Current(want: set<string>, kept: Tokens, read: Tokens) {
    forall id <- want :: id in kept && id in read && read[id] == kept[id]
  }

  /** Caddy read these providers' tokens as they are on disk. */
  predicate TokensLoaded(h: Host, want: set<string>) {
    Current(want, h.secrets, h.edge.tokens)
  }

  /** What makes an apply reload Caddy, as it can be told beforehand: a token handed over is another than
      the one kept, a file of Caddy's differs, or everything is there and the apply is forced. */
  ghost predicate ReloadsCaddy(j: Job, h: Host)
    requires j.files.Some?
  {
    j.reload
    && (Written(j, h) != h.secrets || Caddy in Differs(j.files.value, h.disk) || (j.force && Serves(j.files.value, h.disk)))
  }

  lemma ServesDiffersNowhere(files: Files, disk: Files)
    requires Serves(files, disk)
    ensures Differs(files, disk) == {}
  {
    forall p
      ensures ChangeAt(files, disk, p).None?
    {
    }
  }

  lemma WantedTokens(j: Job, h: Host, how: How, t: Host)
    requires ApplyStep(j, h, Done(how, true), t)
    ensures t.edge.tokens == if ReloadsCaddy(j, h) then Written(j, h) else h.edge.tokens
    ensures forall id <- j.want :: id in Written(j, h) && id in t.secrets && t.secrets[id] == Written(j, h)[id]
  {
    NoneMissing(h.secrets, j.want, j.given);
    assert DoneState(j, h, how).secrets == Written(j, h);
    if Serves(j.files.value, h.disk) { ServesDiffersNowhere(j.files.value, h.disk); }
  }

  lemma NoneMissing(secrets: Tokens, want: set<string>, given: Tokens)
    requires Missing(want, given, secrets) == {}
    ensures forall id <- want :: id in WithTokens(secrets, want, given)
  {
    forall id | id in want
      ensures id in given || id in secrets
    {
      assert id !in Missing(want, given, secrets);
    }
  }

  /** Exactly when an apply that succeeds leaves Caddy with the tokens it needs: when it reloads Caddy, or
      Caddy has read them already as they will be kept. Either can be told before the apply. */
  lemma TokensLoadedIff(j: Job, h: Host, how: How, t: Host)
    requires ApplyStep(j, h, Done(how, true), t)
    ensures TokensLoaded(t, j.want) <==> ReloadsCaddy(j, h) || Current(j.want, Written(j, h), h.edge.tokens)
  {
    WantedTokens(j, h, how, t);
  }

  /** A token written by an apply that Caddy then rejected is on disk and not loaded, and applying the
      same snapshot again, with that token or none, does not load it: it is no longer a change, so there
      is nothing to do. */
  lemma RejectedTokenStaysUnloaded(j: Job, h: Host, mid: Host, again: Job, how: How, t: Host, id: string)
    requires ApplyStep(j, h, Rejected, mid) && ApplyStep(again, mid, Done(how, true), t)
    requires id in j.want && id in j.given && (id in h.edge.tokens ==> h.edge.tokens[id] != j.given[id])
    requires again == j.(given := again.given, reload := true) && !j.force && Serves(j.files.value, h.disk)
    requires Written(again, mid) == mid.secrets
    ensures how == NothingToDo && !TokensLoaded(t, j.want)
  {
    AgainNothingToDo(again, mid, Done(how, true), t);
    assert mid.secrets[id] == j.given[id];
    assert t.secrets[id] == j.given[id] && t.edge.tokens == h.edge.tokens;
  }

  lemma RejectedStep(j: Job, h: Host, mid: Host)
    requires j.files.Some? && !j.dryRun && Missing(j.want, j.given, h.secrets) == {} && mid == h.(secrets := Written(j, h))
    ensures ApplyStep(j, h, Rejected, mid) && Follows(j, h, AllWell().(accepted := false), Rejected)
  {
  }

  lemma NothingStep(j: Job, h: Host)
    requires j.files.Some? && !j.dryRun && !j.force && Missing(j.want, j.given, h.secrets) == {}
    requires Serves(j.files.value, h.disk) && Written(j, h) == h.secrets && Only(h.secrets, j.want) == h.secrets
    ensures ApplyStep(j, h, Done(NothingToDo, true), h) && Follows(j, h, AllWell(), Done(NothingToDo, true))
  {
  }

  lemma OneGiven(id: string, token: string)
    requires TrimSpace(token) == token && token != ""
    ensures Given(map[id := token]) == map[id := token]
  {
  }

  lemma NoneGiven()
    ensures Given(map[]) == map[]
  {
  }

  lemma OneToken(id: string, old': string, new': string)
    ensures WithTokens(map[id := old'], {id}, map[id := new']) == map[id := new']
    ensures WithTokens(map[id := new'], {id}, map[]) == map[id := new']
    ensures Only(map[id := new'], {id}) == map[id := new']
    ensures Missing({id}, map[id := new'], map[id := old']) == {} && Missing({id}, map[], map[id := new']) == {}
  {
  }

  /** That this happens: for every snapshot that names one provider, on a host in step with it, a new
      token, Caddy rejecting the Caddyfile, and the request again with nothing going wrong. The second
      succeeds with nothing to do, and Caddy is left with the old token. */
  lemma RejectedTokenHappens(w: World, s: EdgeSnapshot, id: string, old': string, new': string, h: Host, mid: Host)
    requires Valid(Fill(s, w.env)) && Providers(Fill(s, w.env)) == {id}
    requires TrimSpace(new') == new' && new' != "" && old' != new'
    requires h == InStep(w, s, id, old') && mid == h.(secrets := map[id := new'])
    ensures InSync(h) && Shows(w, h) && TokensLoaded(h, {id}) && !TokensLoaded(mid, {id})
    ensures var j := JobFor(w.templates, w.env, s, map[id := new'], false, false, true);
            ApplyStep(j, h, Rejected, mid) && Follows(j, h, AllWell().(accepted := false), Rejected)
    ensures var again := JobFor(w.templates, w.env, s, map[], false, false, true);
            ApplyStep(again, mid, Done(NothingToDo, true), mid) && Follows(again, mid, AllWell(), Done(NothingToDo, true))
  {
    OwnRenderingServes(h.disk);
    AllInSync(h.disk, h.edge.running);
    OneGiven(id, new');
    NoneGiven();
    OneToken(id, old', new');
    RejectedStep(JobFor(w.templates, w.env, s, map[id := new'], false, false, true), h, mid);
    NothingStep(JobFor(w.templates, w.env, s, map[], false, false, true), mid);
  }

  function AllWell(): Luck {
    Luck(true, None, true, None, {}, None, {}, {}, true)
  }

  /** A host that serves a snapshot, with the token of its one provider loaded. */
  function InStep(w: World, s: EdgeSnapshot, id: string, token: string): Host
    requires Valid(Fill(s, w.env))
  {
    var disk := Render(w.templates, Fill(s, w.env)).value;
    Host(disk, map[id := token],
         Edge(map[CoreDNS := Part(CoreDNS, disk), Headscale := Part(Headscale, disk), Caddy := Part(Caddy, disk)], map[id := token]),
         Some(s), Some(s), None)
  }

  /** Files that are a rendering serve it. */
  lemma OwnRenderingServes(files: Files)
    ensures Serves(files, files)
  {
  }

  lemma AllInSync(disk: Files, running: map<Service, Files>)
    requires running == map[CoreDNS := Part(CoreDNS, disk), Headscale := Part(Headscale, disk), Caddy := Part(Caddy, disk)]
    ensures running.Keys == {CoreDNS, Headscale, Caddy} && forall s <- running :: running[s] == Part(s, disk)
  {
  }

  // ── An example ────────────────────────────────────────────────────────────

  /** A gateway of one domain whose provider issues its certificates. */
  const ID := "01234567-89ab-cdef-0123-456789abcdef"
  const EXAMPLE := EdgeSnapshot(
    [EdgeDomain("a.b", "internal", ONDEMAND, true, false, Some(Provider(ID, "cloudflare")), false)],
    "192.0.2.1", "100.64.0.1", 0, "", 0, 0, "", [], [])

  lemma ExampleName(name: string)
    requires name == "a.b"
    ensures IsName(name) && '.' in name
  {
    SplitPrepend(['a'], ['b'], '.');
    SplitWhole(['b'], '.');
    assert name == ['a'] + ['.'] + ['b'];
    assert name[1] == '.';
    assert Split(name, '.') == [['a'], ['b']];
  }

  lemma ExampleId(id: string)
    requires id == ID
    ensures IsUuid(id)
  {
  }

  lemma ExampleValid(s: EdgeSnapshot)
    requires s == EXAMPLE
    ensures Valid(s) && Providers(s) == {ID}
  {
    var d := s.domains[0];
    ExampleName(d.baseDomain);
    InternalIsLabel();
    ExampleId(d.provider.value.id);
    assert "cloudflare" == PROVIDER_KINDS[0];
    assert DomainOk(d);
    assert d in s.domains;
  }

  lemma ExampleFilled(s: EdgeSnapshot, env: HostEnv)
    requires s == EXAMPLE && env == HostEnv(0, 0, "")
    ensures Fill(s, env) == s
  {
    NothingTrims(SPACE);
  }

  lemma PickExample(env: HostEnv) returns (s: EdgeSnapshot, id: string)
    requires env == HostEnv(0, 0, "")
    ensures Valid(Fill(s, env)) && Providers(Fill(s, env)) == {id}
  {
    s, id := EXAMPLE, ID;
    ExampleValid(s);
    ExampleFilled(s, env);
  }

  /** The same at one gateway, for any two tokens: a snapshot and a host at which all that is asked above
      holds. */
  lemma RejectedTokenExample(w: World, old': string, new': string) returns (s: EdgeSnapshot, id: string, h: Host, mid: Host)
    requires w.env == HostEnv(0, 0, "") && TrimSpace(new') == new' && new' != "" && old' != new'
    ensures Valid(Fill(s, w.env)) && InSync(h) && Shows(w, h)
    ensures ApplyStep(JobFor(w.templates, w.env, s, map[id := new'], false, false, true), h, Rejected, mid)
    ensures ApplyStep(JobFor(w.templates, w.env, s, map[], false, false, true), mid, Done(NothingToDo, true), mid)
    ensures TokensLoaded(h, {id}) && !TokensLoaded(mid, {id})
  {
    s, id := PickExample(w.env);
    h := InStep(w, s, id, old');
    mid := h.(secrets := map[id := new']);
    RejectedTokenHappens(w, s, id, old', new', h, mid);
  }
}
