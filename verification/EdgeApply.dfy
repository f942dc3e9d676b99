/** Putting a snapshot in service as a transaction: render, plan, validate, install, reload, put back
    what does not come up, and record what is served. */
module EdgeApply {
  import opened Prelude
  import opened Text
  import opened Snapshot
  import opened EdgeConfig
  import opened EdgeRender

  type Tokens = map<string, string>

  /** What the services run: the files each read when it was last started or reloaded, and the tokens
      Caddy read with its own. A service that did not start is not there. */
  datatype Edge = Edge(running: map<Service, Files>, tokens: Tokens)

  datatype Host = Host(
    disk: Files, secrets: Tokens, edge: Edge,
    recorded: Option<EdgeSnapshot>, desired: Option<EdgeSnapshot>, credentials: Option<Tokens>)

  /** What `.env` says of this host. */
  datatype HostEnv = HostEnv(proxyPort: int, headscalePort: int, acmeEmail: string)

  function Fill(s: EdgeSnapshot, env: HostEnv): EdgeSnapshot {
    s.(proxyPort := if s.proxyPort == 0 then env.proxyPort else s.proxyPort,
       headscalePort := if s.headscalePort == 0 then env.headscalePort else s.headscalePort,
       acmeEmail := if s.acmeEmail == "" then TrimSpace(env.acmeEmail) else s.acmeEmail)
  }

  /** A snapshot that can be rendered here can be recorded. */
  lemma FilledValid(s: EdgeSnapshot, env: HostEnv)
    requires Valid(Fill(s, env))
    ensures Valid(s)
  {
  }

  // ── Tokens ────────────────────────────────────────────────────────────────

  /** The providers a snapshot names. */
  function Providers(s: EdgeSnapshot): set<string> {
    set d <- s.domains | d.provider.Some? :: d.provider.value.id
  }

  /** The tokens handed over, trimmed; a blank one is none. */
  function Given(creds: Tokens): Tokens {
    map id | id in creds && TrimSpace(creds[id]) != "" :: TrimSpace(creds[id])
  }

  /** The providers with a token neither handed over nor already here. */
  function Missing(want: set<string>, given: Tokens, secrets: Tokens): set<string> {
    want - given.Keys - secrets.Keys
  }

  function Only(secrets: Tokens, want: set<string>): Tokens {
    map id | id in secrets && id in want :: secrets[id]
  }

  /** The tokens of these providers written where one was handed over. */
  function WithTokens(secrets: Tokens, want: set<string>, given: Tokens): Tokens {
    secrets + Only(given, want)
  }

  /** The token of each provider wanted is the one handed over, trimmed, where that is not blank; and every other
      token stays. */
  lemma TokensWritten(secrets: Tokens, want: set<string>, creds: Tokens, id: string)
    ensures var after := WithTokens(secrets, want, Given(creds));
            if id in want && id in creds && TrimSpace(creds[id]) != "" then id in after && after[id] == TrimSpace(creds[id])
            else if id in secrets then id in after && after[id] == secrets[id]
            else id !in after
  {
  }

  lemma WithTokensStep(secrets: Tokens, done: set<string>, id: string, given: Tokens)
    requires id !in done
    ensures WithTokens(secrets, done + {id}, given)
            == if id in given then WithTokens(secrets, done, given)[id := given[id]] else WithTokens(secrets, done, given)
    ensures id in WithTokens(secrets, done, given) <==> id in secrets
    ensures id in secrets ==> WithTokens(secrets, done, given)[id] == secrets[id]
  {
    var with, more := WithTokens(secrets, done, given), WithTokens(secrets, done + {id}, given);
    assert more.Keys == with.Keys + if id in given then {id} else {};
  }

  /** The tokens of some of the providers were written, whole, and no other. */
  ghost predicate PartlyWritten(before: Tokens, want: set<string>, given: Tokens, after: Tokens) {
    exists done :: done <= want && after == WithTokens(before, done, given)
  }

  datatype SecretsProblem = NoToken | NotWritten

  class Secrets {
    var kept: Tokens

    constructor (found: Tokens)
      ensures kept == found
    {
      kept := found;
    }

    /** `InstallSecrets`. */
    method InstallSecrets(want: set<string>, given: Tokens, fault: Fault) returns (changed: Result<bool, SecretsProblem>)
      modifies this
      ensures changed.Err? && changed.error.NoToken? <==> Missing(want, given, old(kept)) != {}
      ensures changed.Err? && changed.error.NoToken? ==> kept == old(kept)
      ensures changed.Err? && changed.error.NotWritten? ==> fault.Some? && PartlyWritten(old(kept), want, given, kept)
      ensures changed.Ok? ==> kept == WithTokens(old(kept), want, given) && (changed.value <==> kept != old(kept))
    {
      var missing: set<string> := {};
      var todo := want;
      while todo != {}
        invariant todo <= want && missing == Missing(want - todo, given, kept)
        decreases todo
      {
        var id :| id in todo;
        if id !in given && id !in kept {
          missing := missing + {id};
        }
        todo := todo - {id};
      }
      assert want - {} == want;
      if missing != {} {
        return Err(NoToken);
      }
      changed := WriteTokens(want, given, fault);
    }

    /** The writes of `InstallSecrets`. */
    method WriteTokens(want: set<string>, given: Tokens, fault: Fault) returns (changed: Result<bool, SecretsProblem>)
      modifies this
      ensures changed.Ok? ==> kept == WithTokens(old(kept), want, given) && (changed.value <==> kept != old(kept))
      ensures changed.Err? ==> changed.error == NotWritten && fault.Some? && PartlyWritten(old(kept), want, given, kept)
    {
      var any, left, todo := false, fault, want;
      ghost var done: set<string> := {};
      assert WithTokens(kept, {}, given) == kept;
      while todo != {}
        invariant done + todo == want && done !! todo
        invariant kept == WithTokens(old(kept), done, given)
        invariant fault.None? ==> left.None?
        invariant !any ==> kept == old(kept)
        invariant any ==> exists id <- done :: id in kept && (id !in old(kept) || old(kept)[id] != kept[id])
        decreases todo
      {
        var id :| id in todo;
        WithTokensStep(old(kept), done, id, given);
        if id in given && !(id in kept && kept[id] == given[id]) {
          if left == Some(0) {
            return Err(NotWritten);
          }
          left := Later(left);
          kept := kept[id := given[id]];
          any := true;
        }
        todo, done := todo - {id}, done + {id};
      }
      assert done == want;
      return Ok(any);
    }

    /** `RemoveStaleSecrets`. `stuck` are the files that cannot be removed. */
    method RemoveStaleSecrets(want: set<string>, stuck: set<string>) returns (ok: bool)
      modifies this
      ensures Cleaned(old(kept), want, kept)
      ensures ok <==> kept == Only(old(kept), want)
      ensures stuck == {} ==> ok
    {
      ok := true;
      var todo := kept.Keys;
      while todo != {}
        invariant todo <= old(kept).Keys
        invariant forall id :: id in kept ==> id in old(kept) && kept[id] == old(kept)[id]
        invariant forall id <- old(kept) :: id in kept || (id !in want && id !in todo)
        invariant ok <==> forall id <- kept :: id in todo || id in want
        invariant stuck == {} ==> ok
        decreases todo
      {
        var id :| id in todo;
        if id !in want {
          if id in stuck {
            ok := false;
          } else {
            kept := kept - {id};
          }
        }
        todo := todo - {id};
      }
    }
  }

  /** Some tokens nobody names may be gone; none else. */
  predicate Cleaned(before: Tokens, want: set<string>, after: Tokens) {
    && (forall id <- after :: id in before && after[id] == before[id])
    && (forall id <- before :: id in want ==> id in after)
  }

  /** Every token nobody names is gone, unless cleaning failed. */
  predicate CleanedTo(before: Tokens, want: set<string>, cleaned: bool, after: Tokens) {
    Cleaned(before, want, after) && (cleaned <==> after == Only(before, want))
  }

  // ── Reloading ─────────────────────────────────────────────────────────────

  /** These services on what is on disk now. */
  function Reloaded(e: Edge, disk: Files, secrets: Tokens, touched: set<Service>): Edge {
    Edge(map s | s in e.running.Keys + touched :: if s in touched then Part(s, disk) else e.running[s],
         if Caddy in touched then secrets else e.tokens)
  }

  /** Only these services, and not Caddy, may run anything other than before. */
  predicate FailedReload(before: Edge, after: Edge, touched: set<Service>) {
    && after.tokens == before.tokens
    && (forall s :: s !in touched || s == Caddy ==> (s in after.running <==> s in before.running))
    && (forall s :: (s !in touched || s == Caddy) && s in before.running ==> after.running[s] == before.running[s])
  }

  lemma ReloadNone(e: Edge, disk: Files, secrets: Tokens)
    ensures Reloaded(e, disk, secrets, {}) == e
  {
  }

  lemma ReloadOne(e: Edge, disk: Files, secrets: Tokens, done: set<Service>, s: Service)
    ensures Reloaded(e, disk, secrets, done + {s})
            == Edge(Reloaded(e, disk, secrets, done).running[s := Part(s, disk)],
                    if s == Caddy then secrets else Reloaded(e, disk, secrets, done).tokens)
  {
  }

  lemma FailOne(e: Edge, disk: Files, secrets: Tokens, done: set<Service>, s: Service, touched: set<Service>)
    requires done <= touched && s in touched && Caddy !in done
    ensures var reached := Reloaded(e, disk, secrets, done);
            FailedReload(e, if s == Caddy then reached else reached.(running := reached.running - {s}), touched)
  {
  }

  lemma NoneFails(touched: set<Service>, fails: set<Service>)
    ensures touched !! fails <==>
              !(CoreDNS in touched && CoreDNS in fails) && !(Headscale in touched && Headscale in fails)
              && !(Caddy in touched && Caddy in fails)
  {
    AllServices(touched);
  }

  lemma AllServices(touched: set<Service>)
    ensures touched == (if CoreDNS in touched then {CoreDNS} else {}) + (if Headscale in touched then {Headscale} else {})
                       + if Caddy in touched then {Caddy} else {}
  {
    forall s | s in touched
      ensures s in {CoreDNS, Headscale, Caddy}
    {
      match s {
        case CoreDNS =>
        case Headscale =>
        case Caddy =>
      }
    }
  }

  /** The rest of `reloadEdgeWithCompose`: CoreDNS, Headscale, then Caddy, stopping at the first that
      fails. A restart that fails leaves the service down; a reload of Caddy that fails leaves Caddy
      as it was. */
  method ReloadServices(e: Edge, disk: Files, secrets: Tokens, coredns: bool, headscale: bool, caddy: bool, fails: set<Service>)
    returns (ok: bool, after: Edge)
    ensures ok <==> !(coredns && CoreDNS in fails) && !(headscale && Headscale in fails) && !(caddy && Caddy in fails)
    ensures var touched := (if coredns then {CoreDNS} else {}) + (if headscale then {Headscale} else {}) + if caddy then {Caddy} else {};
            if ok then after == Reloaded(e, disk, secrets, touched) else FailedReload(e, after, touched)
  {
    after := e;
    ghost var touched := (if coredns then {CoreDNS} else {}) + (if headscale then {Headscale} else {}) + if caddy then {Caddy} else {};
    ghost var done: set<Service> := {};
    ReloadNone(e, disk, secrets);
    if coredns {
      FailOne(e, disk, secrets, done, CoreDNS, touched);
      ReloadOne(e, disk, secrets, done, CoreDNS);
      if CoreDNS in fails {
        return false, after.(running := after.running - {CoreDNS});
      }
      after, done := after.(running := after.running[CoreDNS := Part(CoreDNS, disk)]), done + {CoreDNS};
    }
    if headscale {
      FailOne(e, disk, secrets, done, Headscale, touched);
      ReloadOne(e, disk, secrets, done, Headscale);
      if Headscale in fails {
        return false, after.(running := after.running - {Headscale});
      }
      after, done := after.(running := after.running[Headscale := Part(Headscale, disk)]), done + {Headscale};
    }
    if caddy {
      FailOne(e, disk, secrets, done, Caddy, touched);
      ReloadOne(e, disk, secrets, done, Caddy);
      if Caddy in fails {
        return false, after;
      }
      after, done := Edge(after.running[Caddy := Part(Caddy, disk)], secrets), done + {Caddy};
    }
    assert done == touched;
    return true, after;
  }

  // ── One apply ─────────────────────────────────────────────────────────────

  /** What is asked: the rendering, if the snapshot can be rendered, the providers it names, the
      tokens handed over, and how. */
  datatype Job = Job(files: Option<Files>, want: set<string>, given: Tokens, dryRun: bool, force: bool, reload: bool)

  /** How one apply ends. Everything but a dry run and `Done` with its tokens cleaned is an error. */
  datatype Outcome =
    | Refused
    | Unreadable
    | DryRun(changes: seq<Change>)
    | TokensMissing
    | TokensNotWritten
    | Rejected
    | NotInstalled
    | CaddyKept
    | NotPutBack
    | NotStarted
    | PutBack
    | Done(how: How, cleaned: bool)

  datatype How = NothingToDo | InstalledOnly | CaddyReloaded | InService

  predicate Succeeded(o: Outcome) {
    o.Done? && o.cleaned
  }

  /** The services an apply that changed something reloads. */
  ghost function Touched(j: Job, h: Host): set<Service>
    requires j.files.Some?
  {
    Differs(j.files.value, h.disk) + if Written(j, h) != h.secrets then {Caddy} else {}
  }

  function Written(j: Job, h: Host): Tokens {
    WithTokens(h.secrets, j.want, j.given)
  }

  /** What each way to succeed leaves, before the tokens are cleaned. */
  ghost function DoneState(j: Job, h: Host, how: How): Host
    requires j.files.Some?
  {
    var files, secrets := j.files.value, Written(j, h);
    var disk := After(files, h.disk);
    match how
    case NothingToDo => h
    case InstalledOnly => h.(disk := disk, secrets := secrets)
    case CaddyReloaded => h.(secrets := secrets, edge := Reloaded(h.edge, h.disk, secrets, {Caddy}))
    case InService => h.(disk := disk, secrets := secrets, edge := Reloaded(h.edge, disk, secrets, Touched(j, h)))
  }

  /** When an apply can end each way. */
  ghost predicate DoneWhen(j: Job, h: Host, how: How)
    requires j.files.Some?
  {
    var serves := Serves(j.files.value, h.disk);
    match how
    case NothingToDo => serves && Written(j, h) == h.secrets && !j.force
    case InstalledOnly => !j.reload && !(serves && Written(j, h) == h.secrets && !j.force)
    case CaddyReloaded => j.reload && serves && (Written(j, h) != h.secrets || j.force)
    case InService => j.reload && !serves
  }

  ghost predicate PartlyInstalled(files: Files, before: Files, after: Files) {
    exists changes: seq<Change>, k :: IsPlan(changes, files, before) && 0 <= k <= |changes| && after == Applied(before, changes[..k])
  }

  /** What one apply does to the host, for each way it can end. */
  ghost predicate ApplyStep(j: Job, h: Host, o: Outcome, t: Host) {
    if o.Refused? then j.files.None? && t == h
    else if o.Unreadable? then t == h
    else
      j.files.Some? && (j.dryRun <==> o.DryRun?)
      && (!j.dryRun ==> (o.TokensMissing? <==> Missing(j.want, j.given, h.secrets) != {}))
      && if o.Done? then DoneStep(j, h, o.how, o.cleaned, t)
         else if o.NotPutBack? || o.NotStarted? || o.PutBack? then TakenBack(j, h, o, t)
         else StoppedStep(j, h, o, t)
  }

  /** It stopped before the services were touched. */
  ghost predicate StoppedStep(j: Job, h: Host, o: Outcome, t: Host)
    requires j.files.Some?
  {
    match o
    case DryRun(changes) => IsPlan(changes, j.files.value, h.disk) && t == h
    case TokensMissing => t == h
    case TokensNotWritten => t == h.(secrets := t.secrets) && PartlyWritten(h.secrets, j.want, j.given, t.secrets)
    case Rejected => t == h.(secrets := Written(j, h))
    case NotInstalled => t == h.(secrets := Written(j, h), disk := t.disk) && PartlyInstalled(j.files.value, h.disk, t.disk)
    case CaddyKept => Serves(j.files.value, h.disk) && t == h.(secrets := Written(j, h))
    case _ => false
  }

  /** The services did not come up on the new files. */
  ghost predicate TakenBack(j: Job, h: Host, o: Outcome, t: Host)
    requires j.files.Some?
  {
    && t == h.(secrets := Written(j, h), disk := t.disk, edge := t.edge)
    && (!o.NotPutBack? ==> t.disk == h.disk)
    && if o.PutBack? then t.edge == Reloaded(h.edge, h.disk, Written(j, h), Touched(j, h))
       else FailedReload(h.edge, t.edge, Touched(j, h))
  }

  ghost predicate DoneStep(j: Job, h: Host, how: How, cleaned: bool, t: Host)
    requires j.files.Some?
  {
    && DoneWhen(j, h, how)
    && t == DoneState(j, h, how).(secrets := t.secrets)
    && CleanedTo(DoneState(j, h, how).secrets, j.want, cleaned, t.secrets)
  }

  /** What may go wrong: a file that cannot be read, the writes that fail, whether Caddy accepts the
      Caddyfile, which services do not come up, the first time and after restoring, and the tokens that
      cannot be removed. */
  datatype Luck = Luck(
    readable: bool, secretsFault: Fault, accepted: bool, installFault: Fault, fails: set<Service>,
    restoreFault: Fault, failsAgain: set<Service>, stuck: set<string>, recordable: bool)

  /** It got past Caddy's check of the Caddyfile. */
  predicate Validated(o: Outcome) {
    o.NotInstalled? || o.CaddyKept? || o.NotPutBack? || o.NotStarted? || o.PutBack? || (o.Done? && !o.how.NothingToDo?)
  }

  /** Every step that went wrong had a cause, and none that had was passed over. */
  predicate Caused(luck: Luck, o: Outcome) {
    && (o.Unreadable? ==> !luck.readable) && (luck.readable || o.Refused? || o.Unreadable?)
    && (o.TokensNotWritten? ==> luck.secretsFault.Some?)
    && (o.Rejected? ==> !luck.accepted) && (Validated(o) ==> luck.accepted)
    && (o.NotInstalled? ==> luck.installFault.Some?)
    && (o.CaddyKept? ==> Caddy in luck.fails)
    && (o.Done? && o.how.CaddyReloaded? ==> Caddy !in luck.fails)
    && (o.Done? && !o.cleaned ==> luck.stuck != {})
  }

  /** The same of the services, of which these were restarted or reloaded. */
  predicate CausedByServices(touched: set<Service>, luck: Luck, o: Outcome) {
    && (o.Done? && o.how.InService? ==> touched !! luck.fails)
    && (o.NotPutBack? || o.NotStarted? || o.PutBack? ==> !(touched !! luck.fails))
    && (o.NotPutBack? ==> luck.restoreFault.Some?)
    && (o.NotStarted? ==> !(touched !! luck.failsAgain)) && (o.PutBack? ==> touched !! luck.failsAgain)
  }

  ghost predicate Follows(j: Job, h: Host, luck: Luck, o: Outcome) {
    Caused(luck, o) && (j.files.Some? ==> CausedByServices(Touched(j, h), luck, o))
  }

  /** What installing a plan does, what it reaches, and that it can be taken back. */
  ghost predicate PlanDoes(changes: seq<Change>, files: Files, disk: Files) {
    && Applied(disk, changes) == After(files, disk)
    && (changes == [] <==> Serves(files, disk))
    && (changes == [] ==> After(files, disk) == disk)
    && (forall s :: Touches(changes, s) <==> s in Differs(files, disk))
    && Restored(Applied(disk, changes), BackupOf(changes)) == disk
    && (forall k :: 0 <= k <= |changes| ==> PartlyInstalled(files, disk, Applied(disk, changes[..k])))
  }

  lemma PlansRestore(changes: seq<Change>, files: Files, disk: Files)
    requires IsPlan(changes, files, disk) && PathsFit(changes)
    ensures Restored(Applied(disk, changes), BackupOf(changes)) == disk
  {
    RestoreUndoes(changes, files, disk, |changes|);
    assert changes[..|changes|] == changes;
  }

  lemma PlansPartly(changes: seq<Change>, files: Files, disk: Files)
    requires IsPlan(changes, files, disk)
    ensures forall k :: 0 <= k <= |changes| ==> PartlyInstalled(files, disk, Applied(disk, changes[..k]))
  {
  }

  lemma PlansDo(changes: seq<Change>, files: Files, disk: Files)
    requires IsPlan(changes, files, disk) && PathsFit(changes)
    ensures PlanDoes(changes, files, disk)
  {
    PlanGivesAfter(changes, files, disk);
    NothingPlannedIff(changes, files, disk);
    PlansRestore(changes, files, disk);
    PlansPartly(changes, files, disk);
    forall s
      ensures Touches(changes, s) <==> s in Differs(files, disk)
    {
      PlanTouches(changes, files, disk, s);
    }
  }

  // ── The ways to end ───────────────────────────────────────────────────────

  lemma PartlyIs(j: Job, h: Host, luck: Luck, t: Host)
    requires Missing(j.want, j.given, h.secrets) == {}
    requires j.files.Some? && !j.dryRun && luck.readable && luck.accepted && luck.installFault.Some?
    requires t == h.(disk := t.disk, secrets := Written(j, h)) && PartlyInstalled(j.files.value, h.disk, t.disk)
    ensures ApplyStep(j, h, NotInstalled, t) && Follows(j, h, luck, NotInstalled)
  {
  }

  lemma InstalledPart(changes: seq<Change>, files: Files, disk: Files, part: Files)
    requires PlanDoes(changes, files, disk) && exists k :: 0 <= k <= |changes| && part == Applied(disk, changes[..k])
    ensures PartlyInstalled(files, disk, part)
  {
  }

  lemma EndsRejected(j: Job, h: Host, luck: Luck, t: Host)
    requires Missing(j.want, j.given, h.secrets) == {}
    requires j.files.Some? && !j.dryRun && luck.readable && !luck.accepted && t == h.(secrets := Written(j, h))
    ensures ApplyStep(j, h, Rejected, t) && Follows(j, h, luck, Rejected)
  {
  }

  lemma EndsUnwritten(j: Job, h: Host, luck: Luck, t: Host)
    requires j.files.Some? && !j.dryRun && luck.readable && luck.secretsFault.Some?
    requires Missing(j.want, j.given, h.secrets) == {} && t == h.(secrets := t.secrets)
    requires PartlyWritten(h.secrets, j.want, j.given, t.secrets)
    ensures ApplyStep(j, h, TokensNotWritten, t) && Follows(j, h, luck, TokensNotWritten)
  {
  }

  lemma EndsWithNothing(j: Job, h: Host, luck: Luck, cleaned: bool, t: Host)
    requires j.files.Some? && !j.dryRun && luck.readable && Missing(j.want, j.given, h.secrets) == {}
    requires Serves(j.files.value, h.disk) && Written(j, h) == h.secrets && !j.force
    requires t == h.(secrets := t.secrets) && CleanedTo(h.secrets, j.want, cleaned, t.secrets) && (luck.stuck == {} ==> cleaned)
    ensures ApplyStep(j, h, Done(NothingToDo, cleaned), t) && Follows(j, h, luck, Done(NothingToDo, cleaned))
  {
  }

  lemma EndsInstalled(j: Job, h: Host, changes: seq<Change>, cleaned: bool, t: Host)
    requires Missing(j.want, j.given, h.secrets) == {}
    requires j.files.Some? && !j.dryRun && !j.reload && PlanDoes(changes, j.files.value, h.disk)
    requires changes == [] && Written(j, h) == h.secrets ==> j.force
    requires t == h.(disk := Applied(h.disk, changes), secrets := t.secrets) && CleanedTo(Written(j, h), j.want, cleaned, t.secrets)
    ensures ApplyStep(j, h, Done(InstalledOnly, cleaned), t)
  {
  }

  lemma EndsInService(j: Job, h: Host, changes: seq<Change>, o: Outcome, t: Host)
    requires Missing(j.want, j.given, h.secrets) == {}
    requires j.files.Some? && !j.dryRun && j.reload && PlanDoes(changes, j.files.value, h.disk) && changes != []
    requires t == h.(disk := t.disk, secrets := t.secrets, edge := t.edge)
    requires EndedAs(o, Applied(h.disk, changes), Restored(Applied(h.disk, changes), BackupOf(changes)),
                     h.edge, Written(j, h), j.want, Touched(j, h), t)
    ensures ApplyStep(j, h, o, t)
  {
  }

  /** How putting files in service can end. `disk` is what was installed, `back` what restoring gives. */
  ghost predicate EndedAs(o: Outcome, disk: Files, back: Files, e: Edge, secrets: Tokens, want: set<string>, touched: set<Service>, t: Host) {
    match o
    case Done(InService, cleaned) =>
      t.disk == disk && t.edge == Reloaded(e, disk, secrets, touched) && CleanedTo(secrets, want, cleaned, t.secrets)
    case PutBack => t.disk == back && t.secrets == secrets && t.edge == Reloaded(e, back, secrets, touched)
    case NotStarted => t.disk == back && t.secrets == secrets && FailedReload(e, t.edge, touched)
    case NotPutBack => t.secrets == secrets && FailedReload(e, t.edge, touched)
    case _ => false
  }

  lemma EndsReloaded(j: Job, h: Host, o: Outcome, t: Host)
    requires Missing(j.want, j.given, h.secrets) == {}
    requires j.files.Some? && !j.dryRun && j.reload && Serves(j.files.value, h.disk)
    requires Written(j, h) == h.secrets ==> j.force
    requires t == h.(secrets := t.secrets, edge := t.edge)
    requires match o
             case Done(CaddyReloaded, cleaned) =>
               t.edge == Reloaded(h.edge, h.disk, Written(j, h), {Caddy}) && CleanedTo(Written(j, h), j.want, cleaned, t.secrets)
             case CaddyKept => t.edge == h.edge && t.secrets == Written(j, h)
             case _ => false
    ensures ApplyStep(j, h, o, t)
  {
  }

  function JobFor(templates: Templates, env: HostEnv, s: EdgeSnapshot, creds: Tokens, dryRun: bool, force: bool, reload: bool): Job {
    Job(Render(templates, Fill(s, env)), Providers(Fill(s, env)), Given(creds), dryRun, force, reload)
  }

  lemma JustCaddy()
    ensures forall s :: Touches([Change(CADDYFILE, Update, "", "")], s) <==> s in {Caddy}
  {
    var c := Change(CADDYFILE, Update, "", "");
    assert c in [c];
    FixedReach();
    forall s | Reaches(c.path, s)
      ensures s == Caddy
    {
      OneServiceEach(c.path, s, Caddy);
    }
  }

  lemma TouchesConcat(a: seq<Change>, b: seq<Change>)
    ensures forall s :: Touches(a + b, s) <==> Touches(a, s) || Touches(b, s)
  {
  }

  lemma ReloadList(changes: seq<Change>, reloads: seq<Change>, secretsChanged: bool, differs: set<Service>)
    requires forall s :: Touches(changes, s) <==> s in differs
    requires reloads == changes + if secretsChanged && !Touches(changes, Caddy) then [Change(CADDYFILE, Update, "", "")] else []
    ensures forall s :: Touches(reloads, s) <==> s in differs + if secretsChanged then {Caddy} else {}
  {
    JustCaddy();
    if secretsChanged && !Touches(changes, Caddy) {
      TouchesConcat(changes, [Change(CADDYFILE, Update, "", "")]);
    } else {
      assert reloads == changes;
    }
  }

  lemma FailedTwice(e: Edge, mid: Edge, after: Edge, touched: set<Service>)
    requires FailedReload(e, mid, touched) && FailedReload(mid, after, touched)
    ensures FailedReload(e, after, touched)
  {
  }

  lemma FailedThenReloaded(e: Edge, mid: Edge, disk: Files, secrets: Tokens, touched: set<Service>)
    requires FailedReload(e, mid, touched)
    ensures Reloaded(mid, disk, secrets, touched) == Reloaded(e, disk, secrets, touched)
  {
  }

  lemma CaddyFailedAlone(e: Edge, after: Edge)
    requires FailedReload(e, after, {Caddy})
    ensures after == e
  {
    assert after.running.Keys == e.running.Keys;
    assert after.running == e.running;
  }

  // ── Requests ──────────────────────────────────────────────────────────────

  datatype TakeLuck = Whole | NoRead | Bad

  /** How a domain.apply request ends. */
  datatype RequestOutcome =
    | NoDesired
    | DesiredUnreadable
    | CredentialsUnread
    | CredentialsBad
    | Tried(o: Outcome)
    | NotRecorded(o: Outcome)
    | Finished(o: Outcome)

  /** The request got as far as an apply. */
  predicate RanAn(r: RequestOutcome) {
    r.Tried? || r.NotRecorded? || r.Finished?
  }

  lemma ConcludedStep(templates: Templates, env: HostEnv, dryRun: bool, h: Host, o: Outcome, mid: Host, r: RequestOutcome, t: Host)
    requires RequestApplied(templates, env, dryRun, h, o, mid) && mid.recorded == h.recorded
    requires Succeeded(o) || o.DryRun? ==> (dryRun <==> o.DryRun?)
    requires r == Tried(o) || r == Finished(o) || r == NotRecorded(o)
    requires r.Tried? <==> !Succeeded(o) && !o.DryRun?
    requires r.NotRecorded? ==> !dryRun
    requires t == mid.(recorded := if r.Finished? && !dryRun then h.desired else mid.recorded)
    ensures RequestStep(templates, env, dryRun, h, r, t)
  {
    assert t.(recorded := h.recorded) == mid;
  }

  lemma AppliedForRequest(templates: Templates, env: HostEnv, creds: Tokens, dryRun: bool, h: Host, start: Host,
                          luck: Luck, o: Outcome, t: Host)
    requires h.desired.Some? && creds == (if dryRun then map[] else TokensLeft(h))
    requires start == if dryRun then h else h.(credentials := None)
    requires ApplyStep(JobFor(templates, env, h.desired.value, creds, dryRun, false, true), start, o, t)
    requires Follows(JobFor(templates, env, h.desired.value, creds, dryRun, false, true), start, luck, o)
    ensures RequestFollows(templates, env, dryRun, h, luck, o)
    ensures RequestApplied(templates, env, dryRun, h, o, t)
    ensures Succeeded(o) || o.DryRun? ==> Valid(h.desired.value) && (dryRun <==> o.DryRun?)
    ensures t.recorded == h.recorded && t.desired == h.desired && t.credentials == start.credentials
  {
    if Valid(Fill(h.desired.value, env)) { FilledValid(h.desired.value, env); }
  }

  /** What `runDomainApplyRequest` does to the host, for each way it can end. */
  ghost predicate RequestStep(templates: Templates, env: HostEnv, dryRun: bool, h: Host, r: RequestOutcome, t: Host) {
    match r
    case NoDesired => h.desired.None? && t == h
    case DesiredUnreadable => t == h
    case CredentialsUnread => !dryRun && t == h
    case CredentialsBad => !dryRun && t == h.(credentials := None)
    case Tried(o) => !Succeeded(o) && !o.DryRun? && RequestApplied(templates, env, dryRun, h, o, t)
    case NotRecorded(o) => Succeeded(o) && RequestApplied(templates, env, dryRun, h, o, t)
    case Finished(o) =>
      (if dryRun then o.DryRun? else Succeeded(o))
      && t.recorded == (if dryRun then h.recorded else h.desired)
      && RequestApplied(templates, env, dryRun, h, o, t.(recorded := h.recorded))
  }

  /** The apply in the middle of a request. Unless it is a dry run, the tokens left are taken first. */
  ghost predicate RequestApplied(templates: Templates, env: HostEnv, dryRun: bool, h: Host, o: Outcome, t: Host) {
    h.desired.Some?
    && ApplyStep(JobFor(templates, env, h.desired.value, if dryRun then map[] else TokensLeft(h), dryRun, false, true),
                 if dryRun then h else h.(credentials := None), o, t)
  }

  /** Each way the apply of a request ends has its cause, and no cause is passed over. */
  ghost predicate RequestFollows(templates: Templates, env: HostEnv, dryRun: bool, h: Host, luck: Luck, o: Outcome) {
    h.desired.Some?
    && Follows(JobFor(templates, env, h.desired.value, if dryRun then map[] else TokensLeft(h), dryRun, false, true),
               if dryRun then h else h.(credentials := None), luck, o)
  }

  function TokensLeft(h: Host): Tokens {
    if h.credentials.Some? then h.credentials.value else map[]
  }

  // ── The gateway ───────────────────────────────────────────────────────────

  class Gateway {
    const templates: Templates
    const env: HostEnv
    const dir: InstallDir
    const store: Secrets
    var edge: Edge
    var recorded: Option<EdgeSnapshot>
    var desired: Option<EdgeSnapshot>
    var credentials: Option<Tokens>

    ghost function Now(): Host
      reads this, dir, store
    {
      Host(dir.disk, store.kept, edge, recorded, desired, credentials)
    }

    constructor (templates: Templates, env: HostEnv, dir: InstallDir, store: Secrets, edge: Edge)
      ensures this.templates == templates && this.env == env && this.dir == dir && this.store == store
      ensures Now() == Host(dir.disk, store.kept, edge, None, None, None)
    {
      this.templates, this.env, this.dir, this.store, this.edge := templates, env, dir, store, edge;
      recorded, desired, credentials := None, None, None;
    }

    /** `reloadEdge`. */
    method Reload(changes: seq<Change>, fails: set<Service>, ghost touched: set<Service>) returns (ok: bool)
      requires forall s :: Touches(changes, s) <==> s in touched
      modifies this`edge
      ensures ok <==> touched !! fails
      ensures if ok then edge == Reloaded(old(edge), dir.disk, store.kept, touched) else FailedReload(old(edge), edge, touched)
    {
      var caddy, coredns, headscale := ServicesOf(changes);
      AllServices(touched);
      NoneFails(touched, fails);
      ok, edge := ReloadServices(edge, dir.disk, store.kept, coredns, headscale, caddy, fails);
    }

    /** The edge did not come up: what was replaced is put back, and the same services reloaded. `e` is
        what they ran before the apply. */
    method TakeBack(reloads: seq<Change>, luck: Luck, ghost e: Edge, ghost touched: set<Service>) returns (o: Outcome)
      requires dir.backup.Some? && FailedReload(e, edge, touched)
      requires forall s :: Touches(reloads, s) <==> s in touched
      requires !(touched !! luck.fails)
      modifies dir`disk, this`edge
      ensures o == NotPutBack || o == NotStarted || o == PutBack
      ensures CausedByServices(touched, luck, o)
      ensures o != NotPutBack ==> dir.disk == Restored(old(dir.disk), old(dir.backup.value))
      ensures if o == PutBack then edge == Reloaded(e, dir.disk, store.kept, touched) else FailedReload(e, edge, touched)
    {
      var restored := dir.Restore(luck.restoreFault);
      if !restored {
        return NotPutBack;
      }
      ghost var failed := edge;
      var again := Reload(reloads, luck.failsAgain, touched);
      if !again {
        FailedTwice(e, failed, edge, touched);
        return NotStarted;
      }
      FailedThenReloaded(e, failed, dir.disk, store.kept, touched);
      return PutBack;
    }

    /** `RemoveStaleSecrets` at the end of an apply that got there. */
    method Finish(how: How, want: set<string>, luck: Luck) returns (o: Outcome)
      modifies store
      ensures o.Done? && o.how == how && CleanedTo(old(store.kept), want, o.cleaned, store.kept)
      ensures luck.stuck == {} ==> o.cleaned
    {
      var cleaned := store.RemoveStaleSecrets(want, luck.stuck);
      return Done(how, cleaned);
    }

    /** The end of `applyEdgeSnapshotChanges`: the changes are on disk, and are put in service or
        taken back. `e` is what the services ran before. */
    method PutInService(want: set<string>, changes: seq<Change>, secretsChanged: bool, luck: Luck, ghost e: Edge, ghost differs: set<Service>)
      returns (o: Outcome)
      requires dir.backup.Some? && edge == e && forall s :: Touches(changes, s) <==> s in differs
      modifies dir`disk, store, this`edge
      ensures EndedAs(o, old(dir.disk), Restored(old(dir.disk), old(dir.backup.value)), e, old(store.kept), want,
                      differs + if secretsChanged then {Caddy} else {}, Now())
      ensures CausedByServices(differs + if secretsChanged then {Caddy} else {}, luck, o)
      ensures o.Done? && luck.stuck == {} ==> o.cleaned
    {
      ghost var touched := differs + if secretsChanged then {Caddy} else {};
      var reloads := changes;
      var touches := TouchesCaddy(changes);
      if secretsChanged && !touches {
        reloads := reloads + [Change(CADDYFILE, Update, "", "")];
      }
      ReloadList(changes, reloads, secretsChanged, differs);
      var ok := Reload(reloads, luck.fails, touched);
      if ok {
        o := Finish(InService, want, luck);
      } else {
        o := TakeBack(reloads, luck, e, touched);
      }
    }

    /** An apply with no file to write: Caddy alone reads its configuration again. */
    method ReloadCaddy(want: set<string>, luck: Luck) returns (o: Outcome)
      modifies store, this`edge
      ensures match o
              case Done(CaddyReloaded, cleaned) =>
                edge == Reloaded(old(edge), dir.disk, old(store.kept), {Caddy}) && CleanedTo(old(store.kept), want, cleaned, store.kept)
              case CaddyKept => edge == old(edge) && store.kept == old(store.kept)
              case _ => false
      ensures o.CaddyKept? <==> Caddy in luck.fails
      ensures o.Done? && luck.stuck == {} ==> o.cleaned
    {
      JustCaddy();
      var ok := Reload([Change(CADDYFILE, Update, "", "")], luck.fails, {Caddy});
      if ok {
        o := Finish(CaddyReloaded, want, luck);
      } else {
        CaddyFailedAlone(old(edge), edge);
        o := CaddyKept;
      }
    }

    /** What follows `Install`. */
    method Settle(j: Job, changes: seq<Change>, secretsChanged: bool, luck: Luck, ghost h: Host) returns (o: Outcome)
      requires j.files.Some? && !j.dryRun && PlanDoes(changes, j.files.value, h.disk)
      requires Missing(j.want, j.given, h.secrets) == {} && (secretsChanged <==> Written(j, h) != h.secrets)
      requires |changes| == 0 && !secretsChanged ==> j.force
      requires dir.backup == Some(BackupOf(changes))
      requires Now() == h.(disk := Applied(h.disk, changes), secrets := Written(j, h))
      requires luck.readable && luck.accepted
      modifies dir`disk, store, this`edge
      ensures ApplyStep(j, h, o, Now()) && Follows(j, h, luck, o)
    {
      if !j.reload {
        o := Finish(InstalledOnly, j.want, luck);
        EndsInstalled(j, h, changes, o.cleaned, Now());
      } else if |changes| == 0 {
        o := ReloadCaddy(j.want, luck);
        EndsReloaded(j, h, o, Now());
      } else {
        o := PutInService(j.want, changes, secretsChanged, luck, edge, Differs(j.files.value, h.disk));
        EndsInService(j, h, changes, o, Now());
      }
    }

    /** The middle of `applyEdgeSnapshotChanges`: the tokens are written, Caddy is asked, and the
        changes installed. */
    method ApplyChanges(j: Job, changes: seq<Change>, secretsChanged: bool, luck: Luck, ghost h: Host) returns (o: Outcome)
      requires j.files.Some? && !j.dryRun && PlanDoes(changes, j.files.value, h.disk)
      requires Missing(j.want, j.given, h.secrets) == {} && (secretsChanged <==> Written(j, h) != h.secrets)
      requires |changes| == 0 && !secretsChanged ==> j.force
      requires Now() == h.(secrets := Written(j, h)) && luck.readable
      modifies dir, store, this`edge
      ensures ApplyStep(j, h, o, Now()) && Follows(j, h, luck, o)
    {
      if !luck.accepted {
        EndsRejected(j, h, luck, Now());
        return Rejected;
      }
      var installed := dir.Install(changes, luck.installFault);
      if installed {
        o := Settle(j, changes, secretsChanged, luck, h);
      } else {
        InstalledPart(changes, j.files.value, h.disk, dir.disk);
        PartlyIs(j, h, luck, Now());
        o := NotInstalled;
      }
    }

    /** `applyEdgeSnapshotChanges`, from the tokens on. */
    method ApplyPlan(j: Job, changes: seq<Change>, luck: Luck, ghost h: Host) returns (o: Outcome)
      requires j.files.Some? && !j.dryRun && PlanDoes(changes, j.files.value, h.disk) && luck.readable
      requires h == Now()
      modifies dir, store, this`edge
      ensures ApplyStep(j, h, o, Now()) && Follows(j, h, luck, o)
    {
      var secretsChanged := store.InstallSecrets(j.want, j.given, luck.secretsFault);
      if secretsChanged.Err? && secretsChanged.error.NoToken? {
        o := TokensMissing;
      } else if secretsChanged.Err? {
        EndsUnwritten(j, h, luck, Now());
        o := TokensNotWritten;
      } else if |changes| == 0 && !secretsChanged.value && !j.force {
        o := Finish(NothingToDo, j.want, luck);
        EndsWithNothing(j, h, luck, o.cleaned, Now());
      } else {
        o := ApplyChanges(j, changes, secretsChanged.value, luck, h);
      }
    }

    /** `applyEdgeSnapshotChanges`. */
    method Apply(s: EdgeSnapshot, creds: Tokens, dryRun: bool, force: bool, reload: bool, luck: Luck, ghost h: Host)
      returns (o: Outcome)
      requires h == Now()
      modifies dir, store, this`edge
      ensures ApplyStep(JobFor(templates, env, s, creds, dryRun, force, reload), h, o, Now())
      ensures Follows(JobFor(templates, env, s, creds, dryRun, force, reload), h, luck, o)
    {
      var filled := Fill(s, env);
      var files := Render(templates, filled);
      if files.None? {
        return Refused;
      }
      if !luck.readable {
        return Unreadable;
      }
      var changes := Plan(files.value, dir.disk);
      if dryRun {
        return DryRun(changes);
      }
      PlansFit(templates, filled, dir.disk, changes);
      PlansDo(changes, files.value, dir.disk);
      o := ApplyPlan(Job(files, Providers(filled), Given(creds), dryRun, force, reload), changes, luck, h);
    }

    /** `TakeDNSCredentials`: no file is no tokens. `take` says whether the file can be read, and holds
        tokens by provider. */
    method TakeDNSCredentials(take: TakeLuck) returns (creds: Result<Tokens, RequestOutcome>)
      modifies this`credentials
      ensures creds.Ok? <==> old(credentials).None? || take.Whole?
      ensures creds.Err? ==> (take.NoRead? <==> creds.error == CredentialsUnread)
      ensures creds.Ok? ==> credentials == None && creds.value == if old(credentials).Some? then old(credentials).value else map[]
      ensures creds.Err? ==> (creds.error == CredentialsUnread && credentials == old(credentials))
                             || (creds.error == CredentialsBad && credentials == None)
    {
      if credentials.None? {
        return Ok(map[]);
      }
      if take.NoRead? {
        return Err(CredentialsUnread);
      }
      var body := credentials.value;
      credentials := None;
      return if take.Bad? then Err(CredentialsBad) else Ok(body);
    }

    /** `runDomainApplyRequest`. */
    method RunDomainApplyRequest(dryRun: bool, readable: bool, take: TakeLuck, luck: Luck) returns (r: RequestOutcome)
      modifies this, dir, store
      ensures RequestStep(templates, env, dryRun, old(Now()), r, Now())
      ensures r.NoDesired? <==> old(desired).None?
      ensures r.DesiredUnreadable? <==> old(desired).Some? && !readable
      ensures r.CredentialsUnread? <==> old(desired).Some? && readable && !dryRun && old(credentials).Some? && take.NoRead?
      ensures r.CredentialsBad? <==> old(desired).Some? && readable && !dryRun && old(credentials).Some? && take.Bad?
      ensures RanAn(r) ==> RequestFollows(templates, env, dryRun, old(Now()), luck, r.o)
      ensures if r.NotRecorded? then !luck.recordable else r.Finished? && !dryRun ==> luck.recordable
    {
      if desired.None? {
        return NoDesired;
      }
      if !readable {
        return DesiredUnreadable;
      }
      var creds: Tokens := map[];
      if !dryRun {
        var taken := TakeDNSCredentials(take);
        if taken.Err? {
          return taken.error;
        }
        creds := taken.value;
      }
      r := RunDesired(creds, dryRun, luck, old(Now()));
    }

    /** The apply of a request. `h` is the host as the request found it. */
    method ApplyDesired(creds: Tokens, dryRun: bool, luck: Luck, ghost h: Host) returns (o: Outcome)
      requires h.desired.Some? && creds == (if dryRun then map[] else TokensLeft(h))
      requires Now() == if dryRun then h else h.(credentials := None)
      modifies dir, store, this`edge
      ensures RequestApplied(templates, env, dryRun, h, o, Now()) && RequestFollows(templates, env, dryRun, h, luck, o)
      ensures Succeeded(o) || o.DryRun? ==> Valid(h.desired.value) && (dryRun <==> o.DryRun?)
      ensures Now().desired == h.desired && Now().recorded == h.recorded
    {
      ghost var start := Now();
      o := Apply(desired.value, creds, dryRun, false, true, luck, start);
      AppliedForRequest(templates, env, creds, dryRun, h, start, luck, o, Now());
    }

    /** The apply of a request, and what follows it. */
    method RunDesired(creds: Tokens, dryRun: bool, luck: Luck, ghost h: Host) returns (r: RequestOutcome)
      requires h.desired.Some? && creds == (if dryRun then map[] else TokensLeft(h))
      requires Now() == if dryRun then h else h.(credentials := None)
      modifies this, dir, store
      ensures RequestStep(templates, env, dryRun, h, r, Now())
      ensures RanAn(r) && RequestFollows(templates, env, dryRun, h, luck, r.o)
      ensures if r.NotRecorded? then !luck.recordable else r.Finished? && !dryRun ==> luck.recordable
    {
      var o := ApplyDesired(creds, dryRun, luck, h);
      ghost var mid := Now();
      r := Conclude(o, dryRun, luck);
      ConcludedStep(templates, env, dryRun, h, o, mid, r, Now());
    }

    /** What follows the apply: a request that succeeded, and was not a dry run, is recorded. */
    method Conclude(o: Outcome, dryRun: bool, luck: Luck) returns (r: RequestOutcome)
      requires desired.Some? && (Succeeded(o) || o.DryRun? ==> Valid(desired.value) && (dryRun <==> o.DryRun?))
      modifies this`recorded
      ensures r == if !Succeeded(o) && !o.DryRun? then Tried(o) else if dryRun || luck.recordable then Finished(o) else NotRecorded(o)
      ensures recorded == if r.Finished? && !dryRun then desired else old(recorded)
    {
      if !Succeeded(o) && !o.DryRun? {
        return Tried(o);
      }
      if dryRun {
        return Finished(o);
      }
      var valid := Validate(desired.value);
      if !valid || !luck.recordable {
        return NotRecorded(o);
      }
      recorded := desired;
      return Finished(o);
    }
  }
}
