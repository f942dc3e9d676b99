/** The host agent's request runner: a sweep of the inbox starts at most one worker of each type,
    while the API leaves files and workers finish at any moment. */
module Runner {
  import opened Prelude
  import opened Text
  import opened Requests

  type Inbox = map<string, Content>

  /** The request a name of the inbox holds, if the agent reads one there. */
  function At(inbox: Inbox, name: string): Option<Request> {
    if name in inbox then ReadRequest(name, inbox[name]) else None
  }

  // ── The runner's own state ────────────────────────────────────────────────

  /** The `running` map behind its mutex. */
  class RequestRunner {
    var running: map<string, bool>

    ghost function Types(): set<string>
      reads this
    {
      set k | k in running && running[k]
    }

    constructor ()
      ensures Types() == {}
    {
      running := map[];
    }

    /** The locked section of `check`: marks the type running, unless it was. */
    method TryStart(kind: string) returns (busy: bool)
      modifies this
      ensures busy <==> kind in old(Types())
      ensures Types() == old(Types()) + {kind}
    {
      busy := kind in running && running[kind];
      if !busy {
        running := running[kind := true];
      }
    }

    /** `done`. */
    method Done(kind: string)
      modifies this
      ensures Types() == old(Types()) - {kind}
    {
      running := running - {kind};
    }

    /** What `check` does once a request is read: mark, remove its file, start. */
    method Start(name: string, req: Request, inbox: Inbox, stuck: set<string>) returns (left: Inbox, started: bool)
      modifies this
      ensures started <==> req.kind !in old(Types()) && name !in stuck
      ensures left == if started then inbox - {name} else inbox
      ensures Types() == if started then old(Types()) + {req.kind} else old(Types())
    {
      left, started := inbox, false;
      var busy := TryStart(req.kind);
      if !busy {
        if name in stuck {
          Done(req.kind);
        } else {
          left, started := inbox - {name}, true;
        }
      }
    }

    /** `check`, with nothing else happening while it runs: it takes the files of `listing` in turn.
        `stuck` are the names that cannot be removed. Returns the requests started, in order. */
    method Check(listing: seq<string>, inbox: Inbox, stuck: set<string>) returns (left: Inbox, started: seq<Request>)
      modifies this
      ensures Swept(left, Types(), started) == SweepAll(listing, inbox, old(Types()), stuck)
      ensures NoRepeats(listing) ==> IsSweep(listing, inbox, old(Types()), stuck, Swept(left, Types(), started))
    {
      if NoRepeats(listing) { SweepStartsFirsts(listing, inbox, old(Types()), stuck); }
      left, started := inbox, [];
      assert listing[..0] == [];
      for i := 0 to |listing|
        invariant Swept(left, Types(), started) == SweepAll(listing[..i], inbox, old(Types()), stuck)
      {
        SweepSnoc(listing, i, inbox, old(Types()), stuck);
        var name := listing[i];
        if !Reserved(name) {
          var read := At(left, name);
          if read.None? {
            left := if name in stuck then left else left - {name};
          } else {
            var ok;
            left, ok := Start(name, read.value, left, stuck);
            started := if ok then started + [read.value] else started;
          }
        }
      }
      assert listing[..|listing|] == listing;
    }
  }

  /** What a sweep leaves: the files, the types running, and the requests it started. */
  datatype Swept = Swept(inbox: Inbox, running: set<string>, started: seq<Request>)

  function SweepOne(name: string, s: Swept, stuck: set<string>): Swept {
    var read := At(s.inbox, name);
    if Reserved(name) || (read.Some? && (read.value.kind in s.running || name in stuck)) then s
    else if read.Some? then Swept(s.inbox - {name}, s.running + {read.value.kind}, s.started + [read.value])
    else s.(inbox := if name in stuck then s.inbox else s.inbox - {name})
  }

  function SweepAll(listing: seq<string>, inbox: Inbox, running: set<string>, stuck: set<string>): Swept {
    if listing == [] then Swept(inbox, running, [])
    else SweepOne(listing[|listing| - 1], SweepAll(listing[..|listing| - 1], inbox, running, stuck), stuck)
  }

  lemma SweepSnoc(listing: seq<string>, i: nat, inbox: Inbox, running: set<string>, stuck: set<string>)
    requires i < |listing|
    ensures SweepAll(listing[..i + 1], inbox, running, stuck)
            == SweepOne(listing[i], SweepAll(listing[..i], inbox, running, stuck), stuck)
  {
    assert listing[..i + 1][..i] == listing[..i];
  }

  // ── What a sweep does ─────────────────────────────────────────────────────

  /** The request a sweep could start at a name: one is read there, its type is not running, and its file
      can be removed. */
  function ReadyAt(name: string, inbox: Inbox, running: set<string>, stuck: set<string>): Option<Request> {
    if Reserved(name) || name in stuck || At(inbox, name).None? || At(inbox, name).value.kind in running then None
    else At(inbox, name)
  }

  /** A file at a name that is no request, and can be removed. */
  predicate JunkAt(name: string, inbox: Inbox, stuck: set<string>) {
    !Reserved(name) && name !in stuck && At(inbox, name).None?
  }

  function ReadyOf(listing: seq<string>, inbox: Inbox, running: set<string>, stuck: set<string>): seq<Option<Request>> {
    seq(|listing|, i requires 0 <= i < |listing| => ReadyAt(listing[i], inbox, running, stuck))
  }

  function JunkOf(listing: seq<string>, inbox: Inbox, stuck: set<string>): seq<bool> {
    seq(|listing|, i requires 0 <= i < |listing| => JunkAt(listing[i], inbox, stuck))
  }

  predicate ReadyFor(ready: seq<Option<Request>>, i: nat, kind: string) {
    i < |ready| && ready[i].Some? && ready[i].value.kind == kind
  }

  /** A request that is ready, and is the first of its type that is. */
  predicate First(ready: seq<Option<Request>>, i: nat) {
    i < |ready| && ready[i].Some? && forall j: nat :: j < i ==> !ReadyFor(ready, j, ready[i].value.kind)
  }

  predicate NoRepeats(listing: seq<string>) {
    forall i, j :: 0 <= i < j < |listing| ==> listing[i] != listing[j]
  }

  /** The requests started are the firsts of their types, in the order of the listing: `at` are their places. */
  ghost predicate StartsFirsts(ready: seq<Option<Request>>, started: seq<Request>, at: seq<nat>) {
    && |at| == |started| && (forall a, b :: 0 <= a < b < |at| ==> at[a] < at[b])
    && (forall i: nat :: i in at <==> First(ready, i))
    && forall k :: 0 <= k < |at| ==> at[k] < |ready| && ready[at[k]] == Some(started[k])
  }

  /** The file at the `i`th name goes: it is no request, or the first of its type. */
  predicate Goes(ready: seq<Option<Request>>, junk: seq<bool>, i: nat) {
    First(ready, i) || (i < |junk| && junk[i])
  }

  /** The files left are those of before but the ones that go, each as it was. */
  ghost predicate LeavesRest(listing: seq<string>, ready: seq<Option<Request>>, junk: seq<bool>, inbox: Inbox, left: Inbox) {
    && (forall i: nat :: i < |listing| && Goes(ready, junk, i) ==> listing[i] !in left)
    && (forall name :: name in left ==> name in inbox && left[name] == inbox[name])
    && forall name :: name in inbox && name !in left ==> exists i: nat :: i < |listing| && Goes(ready, junk, i) && listing[i] == name
  }

  ghost predicate SomeReady(ready: seq<Option<Request>>, kind: string) {
    exists i: nat :: ReadyFor(ready, i, kind)
  }

  /** The types running afterwards: those of before, and those of the requests that were ready. */
  ghost predicate RunsReady(ready: seq<Option<Request>>, running: set<string>, after: set<string>) {
    forall kind :: kind in after <==> kind in running || SomeReady(ready, kind)
  }

  /** Which are those of the requests started. */
  predicate RunsStarted(started: seq<Request>, running: set<string>, after: set<string>) {
    after == running + set r <- started :: r.kind
  }

  lemma StartedKinds(started: seq<Request>, r: Request, running: set<string>, before: set<string>)
    requires RunsStarted(started, running, before)
    ensures RunsStarted(started + [r], running, before + {r.kind})
  {
    assert forall x :: x in started + [r] <==> x in started || x == r;
  }

  /** What a sweep of a listing leaves, by the files and the types of before alone. */
  ghost predicate IsSweep(listing: seq<string>, inbox: Inbox, running: set<string>, stuck: set<string>, s: Swept) {
    var ready := ReadyOf(listing, inbox, running, stuck);
    && (exists at :: StartsFirsts(ready, s.started, at)) && RunsReady(ready, running, s.running)
    && RunsStarted(s.started, running, s.running)
    && LeavesRest(listing, ready, JunkOf(listing, inbox, stuck), inbox, s.inbox)
  }

  lemma FirstInit(ready: seq<Option<Request>>, next: Option<Request>, i: nat)
    requires i < |ready|
    ensures First(ready + [next], i) <==> First(ready, i)
  {
    assert forall j: nat, kind :: j <= i ==> (ReadyFor(ready + [next], j, kind) <==> ReadyFor(ready, j, kind));
  }

  /** The last of them is the first of its type exactly when that is not running by then. */
  lemma LastIsFirst(ready: seq<Option<Request>>, next: Option<Request>, running: set<string>, before: set<string>)
    requires RunsReady(ready, running, before) && (next.Some? ==> next.value.kind !in running)
    ensures First(ready + [next], |ready|) <==> next.Some? && next.value.kind !in before
  {
    assert forall j: nat, kind :: j < |ready| ==> (ReadyFor(ready + [next], j, kind) <==> ReadyFor(ready, j, kind));
  }

  lemma RunsMore(ready: seq<Option<Request>>, next: Option<Request>, running: set<string>, before: set<string>, after: set<string>)
    requires RunsReady(ready, running, before)
    requires after == if next.Some? then before + {next.value.kind} else before
    ensures RunsReady(ready + [next], running, after)
  {
    var n := |ready|;
    forall kind
      ensures SomeReady(ready + [next], kind) <==> SomeReady(ready, kind) || (next.Some? && next.value.kind == kind)
    {
      if i: nat :| ReadyFor(ready, i, kind) { assert ReadyFor(ready + [next], i, kind); }
      if next.Some? && next.value.kind == kind { assert ReadyFor(ready + [next], n, kind); }
      if i: nat :| ReadyFor(ready + [next], i, kind) && i < n { assert ReadyFor(ready, i, kind); }
    }
  }

  lemma PlacesBelow(ready: seq<Option<Request>>, started: seq<Request>, at: seq<nat>, k: nat)
    requires StartsFirsts(ready, started, at) && k < |at|
    ensures at[k] < |ready|
  {
  }

  lemma StartsSame(ready: seq<Option<Request>>, next: Option<Request>, started: seq<Request>, at: seq<nat>)
    requires StartsFirsts(ready, started, at) && !First(ready + [next], |ready|)
    ensures StartsFirsts(ready + [next], started, at)
  {
    forall i: nat
      ensures i in at <==> First(ready + [next], i)
    {
      if i < |ready| { FirstInit(ready, next, i); }
    }
  }

  lemma StartsOne(ready: seq<Option<Request>>, next: Option<Request>, started: seq<Request>, at: seq<nat>)
    requires StartsFirsts(ready, started, at) && First(ready + [next], |ready|)
    ensures StartsFirsts(ready + [next], started + [next.value], at + [|ready|])
  {
    var n, at' := |ready|, at + [|ready|];
    forall i: nat
      ensures i in at' <==> First(ready + [next], i)
    {
      if i < n { FirstInit(ready, next, i); }
      assert i in at' <==> i in at || i == n;
    }
    forall k | 0 <= k < |at|
      ensures at[k] < n
    {
      PlacesBelow(ready, started, at, k);
    }
  }

  lemma StartsMore(ready: seq<Option<Request>>, next: Option<Request>, started: seq<Request>, at: seq<nat>) returns (at': seq<nat>)
    requires StartsFirsts(ready, started, at)
    ensures StartsFirsts(ready + [next], if First(ready + [next], |ready|) then started + [next.value] else started, at')
  {
    if First(ready + [next], |ready|) {
      StartsOne(ready, next, started, at);
      at' := at + [|ready|];
    } else {
      StartsSame(ready, next, started, at);
      at' := at;
    }
  }

  lemma LeavesMore(listing: seq<string>, ready: seq<Option<Request>>, junk: seq<bool>, inbox: Inbox, before: Inbox,
                   name: string, next: Option<Request>, gone: bool, left: Inbox)
    requires |ready| == |junk| == |listing| && LeavesRest(listing, ready, junk, inbox, before)
    requires left == if First(ready + [next], |ready|) || gone then before - {name} else before
    ensures LeavesRest(listing + [name], ready + [next], junk + [gone], inbox, left)
  {
    var n := |listing|;
    forall i: nat | i < n
      ensures Goes(ready + [next], junk + [gone], i) <==> Goes(ready, junk, i)
    {
      FirstInit(ready, next, i);
    }
    forall other | other in inbox && other !in left
      ensures exists i: nat :: i < n + 1 && Goes(ready + [next], junk + [gone], i) && (listing + [name])[i] == other
    {
      if other !in before {
        var i: nat :| i < n && Goes(ready, junk, i) && listing[i] == other;
        assert Goes(ready + [next], junk + [gone], i) && (listing + [name])[i] == other;
      } else {
        assert Goes(ready + [next], junk + [gone], n) && (listing + [name])[n] == other;
      }
    }
  }

  /** What a sweep does at one more name, whose file it has not touched. */
  lemma OneMoreName(name: string, s: Swept, inbox: Inbox, running: set<string>, stuck: set<string>)
    requires At(s.inbox, name) == At(inbox, name) && running <= s.running
    ensures var next, gone, t := ReadyAt(name, inbox, running, stuck), JunkAt(name, inbox, stuck), SweepOne(name, s, stuck);
            var starts := next.Some? && next.value.kind !in s.running;
            && t.inbox == (if starts || gone then s.inbox - {name} else s.inbox)
            && t.running == (if starts then s.running + {next.value.kind} else s.running)
            && t.started == (if starts then s.started + [next.value] else s.started)
  {
  }

  lemma WasListed(listing: seq<string>, ready: seq<Option<Request>>, junk: seq<bool>, inbox: Inbox, left: Inbox, name: string)
    requires LeavesRest(listing, ready, junk, inbox, left) && name in inbox && name !in left
    ensures name in listing
  {
    var i: nat :| i < |listing| && Goes(ready, junk, i) && listing[i] == name;
  }

  lemma Untouched(listing: seq<string>, ready: seq<Option<Request>>, junk: seq<bool>, inbox: Inbox, left: Inbox, name: string)
    requires LeavesRest(listing, ready, junk, inbox, left) && name !in listing
    ensures At(left, name) == At(inbox, name)
  {
    if name in inbox && name !in left { WasListed(listing, ready, junk, inbox, left, name); }
  }

  lemma OfSnoc(listing: seq<string>, name: string, inbox: Inbox, running: set<string>, stuck: set<string>)
    ensures ReadyOf(listing + [name], inbox, running, stuck) == ReadyOf(listing, inbox, running, stuck) + [ReadyAt(name, inbox, running, stuck)]
    ensures JunkOf(listing + [name], inbox, stuck) == JunkOf(listing, inbox, stuck) + [JunkAt(name, inbox, stuck)]
  {
  }

  lemma NotRunning(name: string, inbox: Inbox, running: set<string>, stuck: set<string>)
    requires ReadyAt(name, inbox, running, stuck).Some?
    ensures ReadyAt(name, inbox, running, stuck).value.kind !in running
  {
  }

  /** The three parts of a sweep's result, one name further. */
  lemma PartsMore(listing: seq<string>, ready: seq<Option<Request>>, junk: seq<bool>, inbox: Inbox, running: set<string>, s: Swept,
                  name: string, next: Option<Request>, gone: bool, t: Swept)
    requires |ready| == |junk| == |listing| && (next.Some? ==> next.value.kind !in running)
    requires RunsReady(ready, running, s.running) && RunsStarted(s.started, running, s.running)
    requires LeavesRest(listing, ready, junk, inbox, s.inbox)
    requires var starts := next.Some? && next.value.kind !in s.running;
             && t.inbox == (if starts || gone then s.inbox - {name} else s.inbox)
             && t.running == (if starts then s.running + {next.value.kind} else s.running)
             && t.started == (if starts then s.started + [next.value] else s.started)
    ensures RunsReady(ready + [next], running, t.running) && RunsStarted(t.started, running, t.running)
    ensures LeavesRest(listing + [name], ready + [next], junk + [gone], inbox, t.inbox)
    ensures t.started == if First(ready + [next], |ready|) then s.started + [next.value] else s.started
  {
    LastIsFirst(ready, next, running, s.running);
    RunsMore(ready, next, running, s.running, t.running);
    if next.Some? { StartedKinds(s.started, next.value, running, s.running); }
    LeavesMore(listing, ready, junk, inbox, s.inbox, name, next, gone, t.inbox);
  }

  lemma SweepsMore(listing: seq<string>, name: string, inbox: Inbox, running: set<string>, stuck: set<string>, s: Swept)
    requires name !in listing && IsSweep(listing, inbox, running, stuck, s)
    ensures IsSweep(listing + [name], inbox, running, stuck, SweepOne(name, s, stuck))
  {
    var ready, junk := ReadyOf(listing, inbox, running, stuck), JunkOf(listing, inbox, stuck);
    var next, gone := ReadyAt(name, inbox, running, stuck), JunkAt(name, inbox, stuck);
    Untouched(listing, ready, junk, inbox, s.inbox, name);
    OneMoreName(name, s, inbox, running, stuck);
    OfSnoc(listing, name, inbox, running, stuck);
    if next.Some? { NotRunning(name, inbox, running, stuck); }
    PartsMore(listing, ready, junk, inbox, running, s, name, next, gone, SweepOne(name, s, stuck));
    var at :| StartsFirsts(ready, s.started, at);
    var at' := StartsMore(ready, next, s.started, at);
  }

  /** One sweep starts, of each type not running, the first request of the listing whose file can be removed,
      and no other; marks those types; and removes their files and those that are no requests. */
  lemma {:induction false} SweepStartsFirsts(listing: seq<string>, inbox: Inbox, running: set<string>, stuck: set<string>)
    requires NoRepeats(listing)
    ensures IsSweep(listing, inbox, running, stuck, SweepAll(listing, inbox, running, stuck))
  {
    if listing == [] {
      assert StartsFirsts(ReadyOf(listing, inbox, running, stuck), [], []);
    } else {
      var n := |listing| - 1;
      SweepStartsFirsts(listing[..n], inbox, running, stuck);
      SweepsMore(listing[..n], listing[n], inbox, running, stuck, SweepAll(listing[..n], inbox, running, stuck));
      assert listing[..n] + [listing[n]] == listing;
    }
  }

  // ── Everything that can happen ────────────────────────────────────────────

  /** Where the sweep is: resting between two; at the names still to look at; having read no request
      from a file it will remove; having read one; having marked its type running; or having removed its
      file. */
  datatype Phase =
    | Resting
    | Sweeping(todo: seq<string>)
    | Unread(name: string, todo: seq<string>)
    | Took(req: Request, todo: seq<string>)
    | Claimed(req: Request, todo: seq<string>)
    | Removed(req: Request, todo: seq<string>)

  /** `deposited` is every valid request ever left in the inbox; `live` the requests workers run,
      `started` those ever started, in order; `discarded` the valid ones thrown away. */
  datatype State = State(
    inbox: Inbox, running: set<string>, phase: Phase,
    live: set<Request>, finished: set<Request>, discarded: set<Request>,
    deposited: set<Request>, started: seq<Request>)

  datatype Step =
    | Deposit(name: string, content: Content)
    | BeginSweep(listing: seq<string>)
    | Look(readFails: bool)
    | Discard(removed: bool)
    | Claim
    | Remove(ok: bool)
    | Spawn
    | EndSweep
    | Finish(req: Request)
    | Take(name: string)

  function AsSet(r: Option<Request>): set<Request> {
    if r.Some? then {r.value} else {}
  }

  predicate Ascending(names: seq<string>) {
    forall i, j :: 0 <= i < j < |names| ==> Less(names[i], names[j])
  }

  /** The API gives every request a fresh identifier, and writes no other file under its name. */
  predicate FreshName(deposited: set<Request>, name: string) {
    name != "" && forall r <- deposited :: FileName(r) != name
  }

  function LookAt(s: State, name: string, rest: seq<string>, readFails: bool): State {
    var read := At(s.inbox, name);
    if Reserved(name) then s.(phase := Sweeping(rest))
    else if read.Some? && !readFails then s.(phase := Took(read.value, rest))
    else s.(phase := Unread(name, rest))
  }

  /** The file goes, whatever is in it by now. */
  function Discarding(s: State, name: string, rest: seq<string>): State {
    s.(inbox := s.inbox - {name}, phase := Sweeping(rest), discarded := s.discarded + AsSet(At(s.inbox, name)))
  }

  function StepOf(s: State, step: Step): Option<State> {
    match step
    case Deposit(name, content) =>
      if !FreshName(s.deposited, name) then None
      else Some(s.(inbox := s.inbox[name := content], deposited := s.deposited + AsSet(ReadRequest(name, content))))
    case BeginSweep(listing) =>
      if s.phase.Resting? && Ascending(listing) && (set n <- listing) == s.inbox.Keys
      then Some(s.(phase := Sweeping(listing))) else None
    case Look(readFails) =>
      if s.phase.Sweeping? && s.phase.todo != []
      then Some(LookAt(s, s.phase.todo[0], s.phase.todo[1..], readFails)) else None
    case Discard(removed) =>
      if !s.phase.Unread? then None
      else if removed then Some(Discarding(s, s.phase.name, s.phase.todo)) else Some(s.(phase := Sweeping(s.phase.todo)))
    case Claim =>
      if !s.phase.Took? then None
      else if s.phase.req.kind in s.running then Some(s.(phase := Sweeping(s.phase.todo)))
      else Some(s.(running := s.running + {s.phase.req.kind}, phase := Claimed(s.phase.req, s.phase.todo)))
    case Remove(ok) =>
      if !s.phase.Claimed? then None
      else if ok then Some(s.(inbox := s.inbox - {FileName(s.phase.req)}, phase := Removed(s.phase.req, s.phase.todo)))
      else Some(s.(running := s.running - {s.phase.req.kind}, phase := Sweeping(s.phase.todo)))
    case Spawn =>
      if !s.phase.Removed? then None
      else Some(s.(live := s.live + {s.phase.req}, started := s.started + [s.phase.req], phase := Sweeping(s.phase.todo)))
    case EndSweep =>
      if s.phase == Sweeping([]) then Some(s.(phase := Resting)) else None
    case Finish(req) =>
      if req !in s.live then None
      else Some(s.(live := s.live - {req}, finished := s.finished + {req}, running := s.running - {req.kind}))
    case Take(name) =>
      // A worker takes the credential or the DNS tokens.
      if s.live == {} || !(name == CREDENTIAL_FILE || name == DNS_CREDENTIALS_FILE) then None
      else Some(s.(inbox := s.inbox - {name}))
  }

  function Run(s: State, steps: seq<Step>): Option<State>
    decreases |steps|
  {
    if steps == [] then Some(s)
    else
      match StepOf(s, steps[0])
      case None => None
      case Some(t) => Run(t, steps[1..])
  }

  const START := State(map[], {}, Resting, {}, {}, {}, {}, [])

  // ── The requests waiting ──────────────────────────────────────────────────

  function Waiting(inbox: Inbox): set<Request> {
    set name | name in inbox && At(inbox, name).Some? :: At(inbox, name).value
  }

  /** Reading a file gives a valid request that names it. */
  lemma ReadNamesFile(name: string, content: Content)
    requires ReadRequest(name, content).Some?
    ensures FileName(ReadRequest(name, content).value) == name && ValidRequest(ReadRequest(name, content).value, "")
  {
  }

  lemma AtNamesFile(inbox: Inbox, name: string)
    requires At(inbox, name).Some?
    ensures FileName(At(inbox, name).value) == name && ValidRequest(At(inbox, name).value, "")
  {
    ReadNamesFile(name, inbox[name]);
  }

  /** A request waits under its own file name, and nowhere else. */
  lemma WaitsAtItsName(inbox: Inbox, r: Request)
    ensures r in Waiting(inbox) <==> At(inbox, FileName(r)) == Some(r)
  {
    if r in Waiting(inbox) {
      var name :| name in inbox && At(inbox, name) == Some(r);
      AtNamesFile(inbox, name);
    }
  }

  lemma WaitingAfterRemove(inbox: Inbox, name: string)
    ensures Waiting(inbox - {name}) == Waiting(inbox) - AsSet(At(inbox, name))
  {
    forall r
      ensures r in Waiting(inbox - {name}) <==> r in Waiting(inbox) - AsSet(At(inbox, name))
    {
      WaitsAtItsName(inbox, r);
      WaitsAtItsName(inbox - {name}, r);
      if At(inbox, name).Some? { AtNamesFile(inbox, name); }
    }
  }

  lemma WaitingAfterDeposit(inbox: Inbox, name: string, content: Content)
    requires forall r <- Waiting(inbox) :: FileName(r) != name
    ensures Waiting(inbox[name := content]) == Waiting(inbox) + AsSet(ReadRequest(name, content))
  {
    var after := inbox[name := content];
    forall r
      ensures r in Waiting(after) <==> r in Waiting(inbox) + AsSet(ReadRequest(name, content))
    {
      WaitsAtItsName(inbox, r);
      WaitsAtItsName(after, r);
      if At(after, name).Some? { AtNamesFile(after, name); }
    }
  }

  // ── What every step keeps ─────────────────────────────────────────────────

  /** The places a request can be in. */
  datatype Places = Places(waiting: set<Request>, hand: set<Request>, live: set<Request>,
                           finished: set<Request>, discarded: set<Request>)

  function One(b: bool): nat {
    if b then 1 else 0
  }

  function Count(p: Places, r: Request): nat {
    One(r in p.waiting) + One(r in p.hand) + One(r in p.live) + One(r in p.finished) + One(r in p.discarded)
  }

  /** The requests the sweep holds, their files removed. */
  function Hand(p: Phase): set<Request> {
    if p.Removed? then {p.req} else {}
  }

  function PlacesOf(s: State): Places {
    Places(Waiting(s.inbox), Hand(s.phase), s.live, s.finished, s.discarded)
  }

  /** Every request deposited is in exactly one place, and no other request is in any. */
  ghost predicate InOnePlace(p: Places, deposited: set<Request>) {
    forall r :: Count(p, r) == One(r in deposited)
  }

  function TypesOf(workers: set<Request>): set<string> {
    set r <- workers :: r.kind
  }

  /** The request the sweep has marked its type running for, its worker not started yet. */
  function Claiming(p: Phase): set<Request> {
    if p.Claimed? || p.Removed? then {p.req} else {}
  }

  /** `running` is the types of these workers, which all differ. */
  ghost predicate OneEach(running: set<string>, workers: set<Request>) {
    running == TypesOf(workers) && forall a, b :: a in workers && b in workers && a.kind == b.kind ==> a == b
  }

  ghost predicate NamesOk(deposited: set<Request>) {
    && (forall r <- deposited :: ValidRequest(r, ""))
    && (forall a, b :: a in deposited && b in deposited && FileName(a) == FileName(b) ==> a == b)
  }

  ghost predicate StartedOnce(started: seq<Request>, ran: set<Request>) {
    && (forall r :: r in started <==> r in ran)
    && (forall i, j :: 0 <= i < j < |started| ==> started[i] != started[j])
  }

  ghost predicate Inv(s: State) {
    && NamesOk(s.deposited)
    && InOnePlace(PlacesOf(s), s.deposited)
    && (s.phase.Took? || s.phase.Claimed? ==> s.phase.req in Waiting(s.inbox))
    && (s.phase.Unread? ==> !Reserved(s.phase.name))
    && OneEach(s.running, s.live + Claiming(s.phase))
    && StartedOnce(s.started, s.live + s.finished)
  }

  lemma Deposited(p: Places, deposited: set<Request>, r: Request)
    requires InOnePlace(p, deposited) && Count(p, r) >= 1
    ensures r in deposited && Count(p, r) == 1
  {
  }

  lemma MorePlaces(p: Places, deposited: set<Request>, r: Request)
    requires InOnePlace(p, deposited) && r !in deposited
    ensures InOnePlace(p.(waiting := p.waiting + {r}), deposited + {r})
  {
    var q := p.(waiting := p.waiting + {r});
    forall x
      ensures Count(q, x) == One(x in deposited + {r})
    {
      assert Count(p, x) == One(x in deposited);
    }
  }

  /** A request moved from one place to another is still in one. */
  lemma Moved(p: Places, q: Places, deposited: set<Request>, r: Request)
    requires InOnePlace(p, deposited) && Count(p, r) == 1 && Count(q, r) == 1
    requires p.waiting - {r} == q.waiting - {r} && p.hand - {r} == q.hand - {r} && p.live - {r} == q.live - {r}
    requires p.finished - {r} == q.finished - {r} && p.discarded - {r} == q.discarded - {r}
    ensures InOnePlace(q, deposited)
  {
    forall x
      ensures Count(q, x) == One(x in deposited)
    {
      assert Count(p, x) == One(x in deposited);
      if x != r {
        assert x in p.waiting <==> x in p.waiting - {r};
        assert x in p.hand <==> x in p.hand - {r};
        assert x in p.live <==> x in p.live - {r};
        assert x in p.finished <==> x in p.finished - {r};
        assert x in p.discarded <==> x in p.discarded - {r};
      }
    }
  }

  lemma OneMore(running: set<string>, workers: set<Request>, r: Request)
    requires OneEach(running, workers) && r.kind !in running
    ensures OneEach(running + {r.kind}, workers + {r}) && r !in workers
  {
    assert TypesOf(workers + {r}) == TypesOf(workers) + {r.kind};
    forall x | x in workers
      ensures x.kind != r.kind
    {
      assert x.kind in TypesOf(workers);
    }
  }

  lemma OneLess(running: set<string>, workers: set<Request>, r: Request)
    requires OneEach(running, workers) && r in workers
    ensures OneEach(running - {r.kind}, workers - {r})
  {
    assert TypesOf(workers - {r}) == TypesOf(workers) - {r.kind};
  }

  lemma DepositKeeps(s: State, name: string, content: Content, t: State)
    requires Inv(s) && StepOf(s, Deposit(name, content)) == Some(t)
    ensures Inv(t)
  {
    forall r | r in Waiting(s.inbox)
      ensures FileName(r) != name
    {
      Deposited(PlacesOf(s), s.deposited, r);
    }
    WaitingAfterDeposit(s.inbox, name, content);
    var read := ReadRequest(name, content);
    if read.Some? {
      ReadNamesFile(name, content);
      MorePlaces(PlacesOf(s), s.deposited, read.value);
      assert PlacesOf(t) == PlacesOf(s).(waiting := Waiting(s.inbox) + {read.value});
    } else {
      assert PlacesOf(t) == PlacesOf(s) && t.deposited == s.deposited;
    }
  }

  lemma DiscardPlaces(p: Places, deposited: set<Request>, read: Option<Request>)
    requires InOnePlace(p, deposited) && (read.Some? ==> read.value in p.waiting)
    ensures InOnePlace(p.(waiting := p.waiting - AsSet(read), discarded := p.discarded + AsSet(read)), deposited)
  {
    var q := p.(waiting := p.waiting - AsSet(read), discarded := p.discarded + AsSet(read));
    if read.Some? {
      Deposited(p, deposited, read.value);
      Moved(p, q, deposited, read.value);
    } else {
      assert q == p;
    }
  }

  lemma AtWaits(inbox: Inbox, name: string)
    requires At(inbox, name).Some?
    ensures At(inbox, name).value in Waiting(inbox)
  {
  }

  /** Everything but the phase stays, and the sweep holds nothing it did not hold. */
  lemma SamePlaces(s: State, t: State)
    requires Inv(s) && (s.phase.Resting? || s.phase.Sweeping? || s.phase.Unread?) && t == s.(phase := t.phase)
    requires t.phase.Resting? || t.phase.Sweeping? || (t.phase.Unread? && !Reserved(t.phase.name))
             || (t.phase.Took? && t.phase.req in Waiting(s.inbox))
    ensures Inv(t)
  {
  }

  lemma DiscardingKeeps(s: State, name: string, rest: seq<string>)
    requires Inv(s) && s.phase.Unread?
    ensures Inv(Discarding(s, name, rest))
  {
    var read, t := At(s.inbox, name), Discarding(s, name, rest);
    if read.Some? { AtWaits(s.inbox, name); }
    WaitingAfterRemove(s.inbox, name);
    DiscardPlaces(PlacesOf(s), s.deposited, read);
    assert PlacesOf(t) == PlacesOf(s).(waiting := Waiting(s.inbox) - AsSet(read), discarded := t.discarded);
  }

  lemma DiscardKeeps(s: State, removed: bool, t: State)
    requires Inv(s) && StepOf(s, Discard(removed)) == Some(t)
    ensures Inv(t)
  {
    if removed { DiscardingKeeps(s, s.phase.name, s.phase.todo); } else { SamePlaces(s, t); }
  }

  lemma LookKeeps(s: State, readFails: bool, t: State)
    requires Inv(s) && StepOf(s, Look(readFails)) == Some(t)
    ensures Inv(t)
  {
    if At(s.inbox, s.phase.todo[0]).Some? { AtWaits(s.inbox, s.phase.todo[0]); }
    SamePlaces(s, t);
  }

  lemma ClaimKeeps(s: State, t: State)
    requires Inv(s) && StepOf(s, Claim) == Some(t)
    ensures Inv(t)
  {
    assert PlacesOf(t) == PlacesOf(s) && s.live + Claiming(s.phase) == s.live;
    if t.phase.Claimed? {
      OneMore(s.running, s.live, s.phase.req);
    } else {
      assert t.live + Claiming(t.phase) == s.live;
    }
  }

  lemma HandPlaces(p: Places, deposited: set<Request>, req: Request)
    requires InOnePlace(p, deposited) && req in p.waiting && p.hand == {}
    ensures InOnePlace(p.(waiting := p.waiting - {req}, hand := {req}), deposited)
  {
    Deposited(p, deposited, req);
    Moved(p, p.(waiting := p.waiting - {req}, hand := {req}), deposited, req);
  }

  lemma RemovedKeeps(s: State, t: State)
    requires Inv(s) && StepOf(s, Remove(true)) == Some(t)
    ensures Inv(t)
  {
    var req := s.phase.req;
    WaitsAtItsName(s.inbox, req);
    WaitingAfterRemove(s.inbox, FileName(req));
    HandPlaces(PlacesOf(s), s.deposited, req);
    assert PlacesOf(t) == PlacesOf(s).(waiting := Waiting(s.inbox) - {req}, hand := {req});
    assert Claiming(t.phase) == Claiming(s.phase);
  }

  lemma ClaimDropped(s: State, req: Request)
    requires Inv(s) && s.phase.Claimed? && s.phase.req == req
    ensures OneEach(s.running - {req.kind}, s.live)
  {
    Deposited(PlacesOf(s), s.deposited, req);
    OneLess(s.running, s.live + {req}, req);
    assert s.live + {req} - {req} == s.live;
  }

  lemma NotRemovedKeeps(s: State, t: State)
    requires Inv(s) && StepOf(s, Remove(false)) == Some(t)
    ensures Inv(t)
  {
    ClaimDropped(s, s.phase.req);
    assert PlacesOf(t) == PlacesOf(s) && t.live + Claiming(t.phase) == s.live;
  }

  lemma StartOnce(started: seq<Request>, ran: set<Request>, r: Request, after: set<Request>)
    requires StartedOnce(started, ran) && r !in ran && after == ran + {r}
    ensures StartedOnce(started + [r], after)
  {
  }

  lemma SpawnKeeps(s: State, t: State)
    requires Inv(s) && StepOf(s, Spawn) == Some(t)
    ensures Inv(t)
  {
    var req := s.phase.req;
    Deposited(PlacesOf(s), s.deposited, req);
    Moved(PlacesOf(s), PlacesOf(t), s.deposited, req);
    StartOnce(s.started, s.live + s.finished, req, t.live + t.finished);
    assert t.live + Claiming(t.phase) == s.live + Claiming(s.phase);
  }

  lemma LiveIsNotClaimed(s: State, req: Request)
    requires Inv(s) && req in s.live
    ensures req !in Claiming(s.phase) && Count(PlacesOf(s), req) == 1
  {
    Deposited(PlacesOf(s), s.deposited, req);
  }

  lemma FinishPlaces(p: Places, deposited: set<Request>, req: Request)
    requires InOnePlace(p, deposited) && req in p.live
    ensures InOnePlace(p.(live := p.live - {req}, finished := p.finished + {req}), deposited)
  {
    Deposited(p, deposited, req);
    Moved(p, p.(live := p.live - {req}, finished := p.finished + {req}), deposited, req);
  }

  lemma FinishSets(live: set<Request>, finished: set<Request>, claiming: set<Request>, req: Request)
    requires req in live && req !in claiming
    ensures live - {req} + (finished + {req}) == live + finished
    ensures live + claiming - {req} == live - {req} + claiming
  {
  }

  lemma FinishKeeps(s: State, req: Request, t: State)
    requires Inv(s) && StepOf(s, Finish(req)) == Some(t)
    ensures Inv(t)
  {
    LiveIsNotClaimed(s, req);
    FinishPlaces(PlacesOf(s), s.deposited, req);
    OneLess(s.running, s.live + Claiming(s.phase), req);
    FinishSets(s.live, s.finished, Claiming(s.phase), req);
  }

  lemma ReservedHoldsNone(inbox: Inbox, name: string)
    requires Reserved(name)
    ensures At(inbox, name).None?
  {
    if At(inbox, name).Some? {
      AtNamesFile(inbox, name);
      ValidRequestIsRead(At(inbox, name).value);
    }
  }

  lemma TakeKeeps(s: State, name: string, t: State)
    requires Inv(s) && StepOf(s, Take(name)) == Some(t)
    ensures Inv(t)
  {
    WaitingAfterRemove(s.inbox, name);
    ReservedHoldsNone(s.inbox, name);
    assert PlacesOf(t) == PlacesOf(s);
  }

  lemma RestKeeps(s: State, step: Step, t: State)
    requires Inv(s) && StepOf(s, step) == Some(t) && (step.BeginSweep? || step.EndSweep?)
    ensures Inv(t)
  {
    SamePlaces(s, t);
  }

  lemma StepKeeps(s: State, step: Step, t: State)
    requires Inv(s) && StepOf(s, step) == Some(t)
    ensures Inv(t)
  {
    match step
    case Deposit(name, content) => DepositKeeps(s, name, content, t);
    case Look(readFails) => LookKeeps(s, readFails, t);
    case Discard(removed) => DiscardKeeps(s, removed, t);
    case Claim => ClaimKeeps(s, t);
    case Remove(ok) => if ok { RemovedKeeps(s, t); } else { NotRemovedKeeps(s, t); }
    case Spawn => SpawnKeeps(s, t);
    case Finish(req) => FinishKeeps(s, req, t);
    case Take(name) => TakeKeeps(s, name, t);
    case _ => RestKeeps(s, step, t);
  }

  lemma {:induction false} RunKeeps(s: State, steps: seq<Step>)
    requires Inv(s) && Run(s, steps).Some?
    ensures Inv(Run(s, steps).value)
    decreases |steps|
  {
    if steps != [] {
      StepKeeps(s, steps[0], StepOf(s, steps[0]).value);
      RunKeeps(StepOf(s, steps[0]).value, steps[1..]);
    }
  }

  lemma ReachableInv(steps: seq<Step>, s: State)
    requires Run(START, steps) == Some(s)
    ensures Inv(s)
  {
    RunKeeps(START, steps);
  }

  // ── What the runner promises ──────────────────────────────────────────────

  /** In every interleaving at most one worker of a type is live, and between sweeps the runner's
      own record is exactly the types of the live workers. */
  lemma OneOfEachType(steps: seq<Step>, s: State)
    requires Run(START, steps) == Some(s)
    ensures forall a, b :: a in s.live && b in s.live && a.kind == b.kind ==> a == b
    ensures TypesOf(s.live) <= s.running && (s.phase.Resting? ==> s.running == TypesOf(s.live))
  {
    ReachableInv(steps, s);
    assert s.phase.Resting? ==> s.live + Claiming(s.phase) == s.live;
  }

  /** In every interleaving a valid request left in the inbox is in exactly one place - the inbox,
      the sweep's hands, a live worker, the finished ones, or those thrown away - and
      nothing else is in any; a request is started once at most, and is live or finished from then on. */
  lemma EachRequestOnce(steps: seq<Step>, s: State, r: Request)
    requires Run(START, steps) == Some(s)
    ensures Count(PlacesOf(s), r) == if r in s.deposited then 1 else 0
    ensures r in s.started <==> r in s.live || r in s.finished
    ensures forall i, j :: 0 <= i < j < |s.started| ==> s.started[i] != s.started[j]
  {
    ReachableInv(steps, s);
    assert Count(PlacesOf(s), r) == One(r in s.deposited);
    assert r in s.started <==> r in s.live + s.finished;
  }

  /** A step that leaves a request alone: it does not fail to read one, nor leave one under the name of a
      file the sweep is about to remove. */
  predicate Calm(s: State, step: Step) {
    (step.Look? ==> !step.readFails) && (step.Deposit? && s.phase.Unread? ==> step.name != s.phase.name)
  }

  predicate AllCalm(s: State, steps: seq<Step>)
    decreases |steps|
  {
    steps == [] || (Calm(s, steps[0]) && (StepOf(s, steps[0]).Some? ==> AllCalm(StepOf(s, steps[0]).value, steps[1..])))
  }

  /** What the sweep is about to remove is no request. */
  predicate JunkAhead(s: State) {
    s.phase.Unread? ==> At(s.inbox, s.phase.name).None?
  }

  lemma CalmKeeps(s: State, step: Step, t: State)
    requires StepOf(s, step) == Some(t) && Calm(s, step) && JunkAhead(s)
    ensures JunkAhead(t) && t.discarded == s.discarded
  {
  }

  /** With every read of a waiting request succeeding, and none left under a name just looked at, nothing
      is thrown away: between sweeps each request is waiting, running or finished, and exactly one. */
  lemma {:induction false} NothingDiscarded(s: State, steps: seq<Step>)
    requires Run(s, steps).Some? && s.discarded == {} && JunkAhead(s) && AllCalm(s, steps)
    ensures Run(s, steps).value.discarded == {}
    decreases |steps|
  {
    if steps != [] {
      CalmKeeps(s, steps[0], StepOf(s, steps[0]).value);
      NothingDiscarded(StepOf(s, steps[0]).value, steps[1..]);
    }
  }

  /** A step that removes the file a request stands in, as one no request was read from. */
  predicate Discards(s: State, step: Step, r: Request) {
    step == Discard(true) && s.phase.Unread? && At(s.inbox, s.phase.name) == Some(r)
  }

  lemma DiscardsIff(s: State, step: Step, t: State, r: Request)
    requires StepOf(s, step) == Some(t)
    ensures r in t.discarded <==> r in s.discarded || Discards(s, step, r)
  {
  }

  /** The step of a run, in the state before it. */
  predicate DiscardsAt(s: State, steps: seq<Step>, i: nat, r: Request)
    requires i < |steps|
  {
    Run(s, steps[..i]).Some? && Discards(Run(s, steps[..i]).value, steps[i], r)
  }

  predicate SomeDiscards(s: State, steps: seq<Step>, r: Request) {
    exists i :: 0 <= i < |steps| && DiscardsIn(s, steps, r)(i)
  }

  lemma {:induction false} PrefixRuns(s: State, a: seq<Step>, b: seq<Step>)
    requires Run(s, a + b).Some?
    ensures Run(s, a).Some?
    decreases |a|
  {
    if a != [] {
      assert (a + b)[1..] == a[1..] + b;
      PrefixRuns(StepOf(s, a[0]).value, a[1..], b);
    }
  }

  lemma RunLast(s: State, init: seq<Step>, last: Step)
    requires Run(s, init + [last]).Some?
    ensures Run(s, init).Some? && StepOf(Run(s, init).value, last) == Run(s, init + [last])
  {
    PrefixRuns(s, init, [last]);
    RunMore(s, init, Run(s, init).value, last);
  }

  lemma LastDiscards(s: State, steps: seq<Step>, r: Request)
    requires steps != [] && Run(s, steps).Some?
    ensures var n := |steps| - 1;
            Run(s, steps[..n]).Some?
            && (r in Run(s, steps).value.discarded <==> r in Run(s, steps[..n]).value.discarded || DiscardsAt(s, steps, n, r))
  {
    var n := |steps| - 1;
    assert steps == steps[..n] + [steps[n]];
    RunLast(s, steps[..n], steps[n]);
    DiscardsIff(Run(s, steps[..n]).value, steps[n], Run(s, steps).value, r);
  }

  lemma DiscardsInit(s: State, steps: seq<Step>, i: nat, r: Request)
    requires i < |steps| - 1
    ensures DiscardsAt(s, steps, i, r) <==> DiscardsAt(s, steps[..|steps| - 1], i, r)
  {
    assert steps[..|steps| - 1][..i] == steps[..i];
  }

  /** Something is so below n + 1 when it is below n, or at n. */
  lemma SomeBelow(n: nat, p: int -> bool, q: int -> bool)
    requires forall i :: 0 <= i < n ==> p(i) == q(i)
    ensures (exists i :: 0 <= i < n + 1 && p(i)) <==> (exists i :: 0 <= i < n && q(i)) || p(n)
  {
    if i :| 0 <= i < n && q(i) { assert p(i); }
  }

  function DiscardsIn(s: State, steps: seq<Step>, r: Request): int -> bool {
    (i: int) => 0 <= i < |steps| && DiscardsAt(s, steps, i, r)
  }

  lemma SomeDiscardsInit(s: State, steps: seq<Step>, r: Request)
    requires steps != []
    ensures SomeDiscards(s, steps, r)
            <==> SomeDiscards(s, steps[..|steps| - 1], r) || DiscardsAt(s, steps, |steps| - 1, r)
  {
    var n := |steps| - 1;
    forall i | 0 <= i < n
      ensures DiscardsIn(s, steps, r)(i) == DiscardsIn(s, steps[..n], r)(i)
    {
      DiscardsInit(s, steps, i, r);
    }
    SomeBelow(n, DiscardsIn(s, steps, r), DiscardsIn(s, steps[..n], r));
  }

  lemma SomeDiscardsIs(s: State, steps: seq<Step>, r: Request)
    ensures SomeDiscards(s, steps, r) <==> exists i: nat :: i < |steps| && DiscardsAt(s, steps, i, r)
  {
    if i: nat :| i < |steps| && DiscardsAt(s, steps, i, r) { assert DiscardsIn(s, steps, r)(i); }
  }

  /** In every run a request is thrown away exactly when, at some step of it, the sweep removes the file it
      stands in as one it read no request from. */
  lemma {:induction false} DiscardedIff(s: State, steps: seq<Step>, r: Request)
    requires Run(s, steps).Some? && r !in s.discarded
    ensures r in Run(s, steps).value.discarded <==> exists i: nat :: i < |steps| && DiscardsAt(s, steps, i, r)
  {
    if steps != [] {
      LastDiscards(s, steps, r);
      SomeDiscardsIs(s, steps[..|steps| - 1], r);
      DiscardedIff(s, steps[..|steps| - 1], r);
      SomeDiscardsInit(s, steps, r);
      SomeDiscardsIs(s, steps, r);
    }
  }

  lemma RunFour(s: State, a: Step, s1: State, b: Step, s2: State, c: Step, s3: State, d: Step, t: State)
    requires StepOf(s, a) == Some(s1) && StepOf(s1, b) == Some(s2) && StepOf(s2, c) == Some(s3) && StepOf(s3, d) == Some(t)
    ensures Run(s, [a] + [b] + [c] + [d]) == Some(t)
  {
    RunOne(s, a);
    RunMore(s, [a], s1, b);
    RunMore(s, [a] + [b], s2, c);
    RunMore(s, [a] + [b] + [c], s3, d);
  }

  lemma DepositOne(s: State, n: string, content: Content)
    requires s.deposited == {} && n != ""
    ensures StepOf(s, Deposit(n, content))
            == Some(s.(inbox := s.inbox[n := content], deposited := AsSet(ReadRequest(n, content))))
  {
    assert s.deposited + AsSet(ReadRequest(n, content)) == AsSet(ReadRequest(n, content));
  }

  lemma SweepOnly(s: State, n: string)
    requires s.phase.Resting? && s.inbox.Keys == {n}
    ensures StepOf(s, BeginSweep([n])) == Some(s.(phase := Sweeping([n])))
  {
    assert (set x <- [n]) == s.inbox.Keys;
  }

  lemma LookOnly(s: State, n: string, readFails: bool)
    requires s.phase == Sweeping([n]) && !Reserved(n) && (readFails || At(s.inbox, n).None?)
    ensures StepOf(s, Look(readFails)) == Some(s.(phase := Unread(n, [])))
  {
    assert [n][1..] == [];
  }

  /** That this happens, two ways. A request is left, the sweep cannot read its file for a moment, and
      removes it. */
  lemma UnreadableIsDiscarded(r: Request, n: string) returns (s: State)
    requires ValidRequest(r, "") && n == FileName(r)
    ensures Run(START, [Deposit(n, Text(r))] + [BeginSweep([n])] + [Look(true)] + [Discard(true)]) == Some(s)
    ensures r in s.deposited && r in s.discarded && s.started == []
  {
    ValidRequestIsRead(r);
    var s1 := START.(inbox := START.inbox[n := Text(r)], deposited := {r});
    var s2 := s1.(phase := Sweeping([n]));
    var s3 := s2.(phase := Unread(n, []));
    s := Discarding(s3, n, []);
    DepositOne(START, n, Text(r));
    SweepOnly(s1, n);
    LookOnly(s2, n, true);
    RunFour(START, Deposit(n, Text(r)), s1, BeginSweep([n]), s2, Look(true), s3, Discard(true), s);
  }

  lemma JunkReplaced(r: Request, n: string, s: State)
    requires ValidRequest(r, "") && n == FileName(r)
    requires s == START.(inbox := START.inbox[n := Text(r)], deposited := {r}, phase := Unread(n, []))
    ensures Run(START, [Deposit(n, NotJson)] + [BeginSweep([n])] + [Look(false)] + [Deposit(n, Text(r))]) == Some(s)
  {
    ValidRequestIsRead(r);
    var s1 := START.(inbox := START.inbox[n := NotJson], deposited := {});
    var s2 := s1.(phase := Sweeping([n]));
    var s3 := s2.(phase := Unread(n, []));
    DepositOne(START, n, NotJson);
    SweepOnly(s1, n);
    LookOnly(s2, n, false);
    DepositOne(s3, n, Text(r));
    assert s3.inbox[n := Text(r)] == s.inbox;
    RunFour(START, Deposit(n, NotJson), s1, BeginSweep([n]), s2, Look(false), s3, Deposit(n, Text(r)), s);
  }

  /** Or a file that is no request is looked at, the API leaves a request under its name, and the sweep
      removes that. */
  lemma ReplacedIsDiscarded(r: Request, n: string) returns (s: State)
    requires ValidRequest(r, "") && n == FileName(r)
    ensures Run(START, [Deposit(n, NotJson)] + [BeginSweep([n])] + [Look(false)] + [Deposit(n, Text(r))] + [Discard(true)]) == Some(s)
    ensures r in s.deposited && r in s.discarded && s.started == []
  {
    var mid := START.(inbox := START.inbox[n := Text(r)], deposited := {r}, phase := Unread(n, []));
    ValidRequestIsRead(r);
    JunkReplaced(r, n, mid);
    s := Discarding(mid, n, []);
    RunMore(START, [Deposit(n, NotJson)] + [BeginSweep([n])] + [Look(false)] + [Deposit(n, Text(r))], mid, Discard(true));
  }

  lemma ClaimedNotReserved(s: State)
    requires Inv(s) && s.phase.Claimed?
    ensures !Reserved(FileName(s.phase.req))
  {
    Deposited(PlacesOf(s), s.deposited, s.phase.req);
    ValidRequestIsRead(s.phase.req);
  }

  /** The names a sweep passes over. */
  lemma ReservedIff(name: string)
    ensures Reserved(name)
            <==> (name != "" && name[0] == '.') || name == "migration-token.json" || name == "edge.json" || name == "dns-credentials.json"
  {
  }

  /** No step of the sweep touches the credential, the domain set to serve, the DNS tokens or a file
      still being written; nor does any other step but a worker's own taking, or the API's writing. */
  lemma ReservedFilesStay(s: State, step: Step, t: State, name: string)
    requires Inv(s) && StepOf(s, step) == Some(t)
    requires Reserved(name) && name in s.inbox && !step.Deposit? && !step.Take?
    ensures name in t.inbox && t.inbox[name] == s.inbox[name]
  {
    if step.Remove? { ClaimedNotReserved(s); }
  }

  /** A file that is not a request and is not reserved is gone once the sweep has looked at it and gone
      on, with no type marked and no request lost. */
  lemma JunkIsRemoved(s: State, readFails: bool, mid: State, t: State)
    requires StepOf(s, Look(readFails)) == Some(mid) && StepOf(mid, Discard(true)) == Some(t)
    requires !Reserved(s.phase.todo[0]) && At(s.inbox, s.phase.todo[0]).None?
    ensures s.phase.todo[0] !in t.inbox && t.running == s.running && t.discarded == s.discarded
  {
  }

  // ── One sweep on its own ──────────────────────────────────────────────────

  lemma RunOne(s: State, a: Step)
    ensures Run(s, [a]) == StepOf(s, a)
  {
    assert [a][1..] == [];
  }

  lemma {:induction false} RunAppend(s: State, a: seq<Step>, b: seq<Step>)
    requires Run(s, a).Some?
    ensures Run(s, a + b) == Run(Run(s, a).value, b)
    decreases |a|
  {
    if a == [] {
      assert a + b == b;
    } else {
      assert (a + b)[1..] == a[1..] + b;
      RunAppend(StepOf(s, a[0]).value, a[1..], b);
    }
  }

  lemma RunMore(s: State, a: seq<Step>, t: State, b: Step)
    requires Run(s, a) == Some(t)
    ensures Run(s, a + [b]) == StepOf(t, b)
  {
    RunAppend(s, a, [b]);
    RunOne(t, b);
  }

  /** The state when a sweep has got so far. `s` is the state it began in. */
  function SweptState(s: State, done: Swept, rest: seq<string>): State {
    s.(inbox := done.inbox, running := done.running, phase := Sweeping(rest),
       live := s.live + (set r <- done.started), started := s.started + done.started)
  }

  /** The steps a sweep takes at one name. */
  function StepsAt(done: Swept, name: string, stuck: set<string>): seq<Step> {
    var read := At(done.inbox, name);
    if Reserved(name) then [Look(false)]
    else if read.None? then [Look(false)] + [Discard(name !in stuck)]
    else if read.value.kind in done.running then [Look(false)] + [Claim]
    else if name in stuck then [Look(false)] + [Claim] + [Remove(false)]
    else [Look(false)] + [Claim] + [Remove(true)] + [Spawn]
  }

  lemma ClaimSteps(s: State, read: Request, rest: seq<string>, t: State)
    requires s.phase == Sweeping([FileName(read)] + rest) && !Reserved(FileName(read))
    requires At(s.inbox, FileName(read)) == Some(read) && read.kind !in s.running
    requires t == s.(running := s.running + {read.kind}, phase := Claimed(read, rest))
    ensures Run(s, [Look(false)] + [Claim]) == Some(t)
  {
    assert ([FileName(read)] + rest)[1..] == rest;
    var s1 := s.(phase := Took(read, rest));
    RunOne(s, Look(false));
    RunMore(s, [Look(false)], s1, Claim);
  }

  lemma StartSteps(s: State, read: Request, rest: seq<string>, t: State)
    requires s.phase == Sweeping([FileName(read)] + rest) && !Reserved(FileName(read))
    requires At(s.inbox, FileName(read)) == Some(read) && read.kind !in s.running
    requires t == s.(inbox := s.inbox - {FileName(read)}, running := s.running + {read.kind}, phase := Sweeping(rest),
                     live := s.live + {read}, started := s.started + [read])
    ensures Run(s, [Look(false)] + [Claim] + [Remove(true)] + [Spawn]) == Some(t)
  {
    var s2 := s.(running := s.running + {read.kind}, phase := Claimed(read, rest));
    var s3 := s2.(inbox := s.inbox - {FileName(read)}, phase := Removed(read, rest));
    ClaimSteps(s, read, rest, s2);
    RunMore(s, [Look(false)] + [Claim], s2, Remove(true));
    RunMore(s, [Look(false)] + [Claim] + [Remove(true)], s3, Spawn);
  }

  lemma StuckSteps(s: State, read: Request, rest: seq<string>)
    requires s.phase == Sweeping([FileName(read)] + rest) && !Reserved(FileName(read))
    requires At(s.inbox, FileName(read)) == Some(read)
    ensures read.kind in s.running ==>
              Run(s, [Look(false)] + [Claim]) == Some(s.(phase := Sweeping(rest)))
    ensures read.kind !in s.running ==>
              Run(s, [Look(false)] + [Claim] + [Remove(false)]) == Some(s.(phase := Sweeping(rest)))
  {
    if read.kind in s.running {
      assert ([FileName(read)] + rest)[1..] == rest;
      RunOne(s, Look(false));
      RunMore(s, [Look(false)], s.(phase := Took(read, rest)), Claim);
    } else {
      var s2 := s.(running := s.running + {read.kind}, phase := Claimed(read, rest));
      ClaimSteps(s, read, rest, s2);
      RunMore(s, [Look(false)] + [Claim], s2, Remove(false));
      assert s.running + {read.kind} - {read.kind} == s.running;
    }
  }

  lemma StepsAtRun(s: State, done: Swept, name: string, rest: seq<string>, stuck: set<string>)
    ensures Run(SweptState(s, done, [name] + rest), StepsAt(done, name, stuck))
            == Some(SweptState(s, SweepOne(name, done, stuck), rest))
  {
    var at, after := SweptState(s, done, [name] + rest), SweepOne(name, done, stuck);
    var read := At(done.inbox, name);
    assert ([name] + rest)[1..] == rest;
    if Reserved(name) {
      RunOne(at, Look(false));
    } else if read.None? {
      RunOne(at, Look(false));
      RunMore(at, [Look(false)], at.(phase := Unread(name, rest)), Discard(name !in stuck));
      assert at.discarded + {} == at.discarded;
    } else {
      AtNamesFile(done.inbox, name);
      if read.value.kind in done.running || name in stuck {
        StuckSteps(at, read.value, rest);
      } else {
        StartedMore(s, done, read.value);
        StartSteps(at, read.value, rest, SweptState(s, after, rest));
      }
    }
  }

  lemma StartedMore(s: State, done: Swept, r: Request)
    ensures s.live + (set x <- done.started + [r]) == s.live + (set x <- done.started) + {r}
    ensures s.started + (done.started + [r]) == s.started + done.started + [r]
  {
    assert (set x <- done.started + [r]) == (set x <- done.started) + {r};
  }

  /** What `check` does on its own is a run of the machine: from the listing to the state its
      result describes. */
  lemma {:induction false} CheckIsARun(s: State, listing: seq<string>, stuck: set<string>, rest: seq<string>)
    returns (steps: seq<Step>)
    ensures Run(s.(phase := Sweeping(listing + rest)), steps)
            == Some(SweptState(s, SweepAll(listing, s.inbox, s.running, stuck), rest))
  {
    if listing == [] {
      assert listing + rest == rest && s.started + [] == s.started;
      assert s.live + (set r: Request <- []) == s.live;
      return [];
    }
    var n := |listing| - 1;
    var done := SweepAll(listing[..n], s.inbox, s.running, stuck);
    assert listing + rest == listing[..n] + ([listing[n]] + rest);
    steps := CheckIsARun(s, listing[..n], stuck, [listing[n]] + rest);
    StepsAtRun(s, done, listing[n], rest, stuck);
    RunAppend(s.(phase := Sweeping(listing + rest)), steps, StepsAt(done, listing[n], stuck));
    steps := steps + StepsAt(done, listing[n], stuck);
  }
}
