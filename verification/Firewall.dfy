/** What the host's firewall does with a connection from the internet, and why the verdict can be
    believed: it is sound for every packet, whatever addresses the rules' sources cover. */
module Firewall {
  import opened Prelude
  import opened PortSpec

  datatype Rule = Rule(ports: string, proto: string, action: string, from: string, iface: string, app: string)

  datatype Report = Report(
    tool: string, active: bool, defaultIncoming: string, rules: seq<Rule>, unparsed: bool, checkedAt: int, error: string)

  datatype State = Open | Restricted | Blocked | Unknown

  /** `sources` is what a restricted port may be reached from. */
  datatype Verdict = Verdict(state: State, tool: string, sources: seq<string>, checkedAt: Option<int>)

  /** Three times the minute the firewall is read at, in nanoseconds. */
  const STALE_AFTER := 3 * 60_000_000_000

  predicate Allows(r: Rule) {
    r.action == "allow" || r.action == "limit"
  }

  /** A rule for the port and protocol, whoever it is from. Its profile, if any, is not resolved. */
  predicate Concerns(r: Rule, proto: string) {
    r.iface == "" && (r.proto == "" || r.proto == proto)
  }

  /** How the walk ends: at a profile that was not resolved, at a rule from anywhere, or at the end of
      the list. `sources` are the specific ones allowed on the way. */
  datatype Walked =
    | Unresolved
    | Settled(allow: bool, sources: seq<string>)
    | Fell(sources: seq<string>)

  function Walk(rules: seq<Rule>, sources: seq<string>, port: int, proto: string): Walked
    decreases |rules|
  {
    if rules == [] then Fell(sources)
    else
      var (r, rest) := (rules[0], rules[1..]);
      if Concerns(r, proto) && r.app != "" then Unresolved
      else if !Hits(r, port, proto) then Walk(rest, sources, port, proto)
      else if r.from == "any" then Settled(Allows(r), sources)
      else Walk(rest, Widened(r, sources), port, proto)
  }

  predicate Hits(r: Rule, port: int, proto: string) {
    Concerns(r, proto) && r.app == "" && SpecHas(r.ports, port)
  }

  function Widened(r: Rule, sources: seq<string>): seq<string> {
    if Allows(r) then sources + [r.from] else sources
  }

  /** The walk goes on past a rule. */
  predicate Passes(r: Rule, port: int, proto: string) {
    (Concerns(r, proto) ==> r.app == "") && (Hits(r, port, proto) ==> r.from != "any")
  }

  function SourcesOf(w: Walked): seq<string> {
    if w.Unresolved? then [] else w.sources
  }

  lemma WalkPast(rules: seq<Rule>, sources: seq<string>, port: int, proto: string)
    requires rules != [] && Passes(rules[0], port, proto)
    ensures Walk(rules, sources, port, proto)
            == Walk(rules[1..], if Hits(rules[0], port, proto) then Widened(rules[0], sources) else sources, port, proto)
  {
  }

  function Settle(v: Verdict, sources: seq<string>): Verdict {
    if sources != [] then v.(state := Restricted, sources := sources) else v.(state := Blocked)
  }

  function OfWalk(v: Verdict, report: Report, walked: Walked): Verdict {
    match walked
    case Unresolved => v.(state := Unknown)
    case Settled(allow, sources) => if allow then v.(state := Open) else Settle(v, sources)
    case Fell(sources) =>
      if report.unparsed then v.(state := Unknown)
      else if report.defaultIncoming == "allow" then v.(state := Open)
      else Settle(v, sources)
  }

  /** A report that is there, recent and without error. */
  predicate Current(heartbeat: Option<int>, report: Option<Report>, now: int) {
    heartbeat.Some? && report.Some? && report.value.error == ""
    && now - heartbeat.value <= STALE_AFTER && now - report.value.checkedAt <= STALE_AFTER
  }

  function VerdictOf(heartbeat: Option<int>, report: Option<Report>, port: int, proto: string, now: int): Verdict {
    if !Current(heartbeat, report, now) then
      Verdict(Unknown,
              if heartbeat.Some? && report.Some? && now - heartbeat.value <= STALE_AFTER && now - report.value.checkedAt <= STALE_AFTER
              then report.value.tool else "", [], None)
    else
      var v := Verdict(Open, report.value.tool, [], Some(report.value.checkedAt));
      if !report.value.active || report.value.tool == "none" then v
      else OfWalk(v, report.value, Walk(report.value.rules, [], port, proto))
  }

  /** `Evaluate`. */
  method Evaluate(heartbeat: Option<int>, report: Option<Report>, port: int, proto: string, now: int) returns (v: Verdict)
    ensures v == VerdictOf(heartbeat, report, port, proto, now)
  {
    if heartbeat.None? || report.None? {
      return Verdict(Unknown, "", [], None);
    }
    var fw := report.value;
    if now - heartbeat.value > STALE_AFTER || now - fw.checkedAt > STALE_AFTER {
      return Verdict(Unknown, "", [], None);
    }
    if fw.error != "" {
      return Verdict(Unknown, fw.tool, [], None);
    }
    v := Verdict(Open, fw.tool, [], Some(fw.checkedAt));
    if !fw.active || fw.tool == "none" {
      return v;
    }
    v := WalkRules(v, fw, port, proto);
  }

  /** The loop of `Evaluate`, and what follows it. */
  method WalkRules(v: Verdict, fw: Report, port: int, proto: string) returns (w: Verdict)
    ensures w == OfWalk(v, fw, Walk(fw.rules, [], port, proto))
  {
    var sources: seq<string> := [];
    assert fw.rules[0..] == fw.rules;
    for i := 0 to |fw.rules|
      invariant Walk(fw.rules[i..], sources, port, proto) == Walk(fw.rules, [], port, proto)
    {
      assert fw.rules[i..][1..] == fw.rules[i + 1..];
      var r := fw.rules[i];
      if r.iface != "" || !(r.proto == "" || r.proto == proto) {
        continue;
      }
      if r.app != "" {
        return v.(state := Unknown);
      }
      var matches := PortMatches(r.ports, port);
      if !matches {
        continue;
      }
      if r.from != "any" {
        if Allows(r) {
          sources := sources + [r.from];
        }
        continue;
      }
      return if Allows(r) then v.(state := Open) else Settle(v, sources);
    }
    if fw.unparsed {
      return v.(state := Unknown);
    }
    return if fw.defaultIncoming == "allow" then v.(state := Open) else Settle(v, sources);
  }

  // ── A first-match packet filter ───────────────────────────────────────────

  /** Which addresses a source covers, and which ports a profile stands for. Both are unknown here. */
  datatype Net<!A> = Net(covers: (string, A) -> bool, profile: (string, int, string) -> bool)

  /** A rule that decides a packet from the internet: one that arrives on no interface a rule names. */
  predicate Matches<A>(n: Net<A>, r: Rule, addr: A, port: int, proto: string) {
    Concerns(r, proto)
    && (if r.app != "" then n.profile(r.app, port, proto) else SpecHas(r.ports, port))
    && (r.from == "any" || n.covers(r.from, addr))
  }

  /** The first rule that matches. */
  function Decider<A>(n: Net<A>, rules: seq<Rule>, addr: A, port: int, proto: string): Option<Rule> {
    if rules == [] then None
    else if Matches(n, rules[0], addr, port, proto) then Some(rules[0])
    else Decider(n, rules[1..], addr, port, proto)
  }

  predicate Accepts<A>(n: Net<A>, fw: Report, addr: A, port: int, proto: string) {
    !fw.active || fw.tool == "none" ||
    match Decider(n, fw.rules, addr, port, proto)
    case Some(r) => Allows(r)
    case None => fw.defaultIncoming == "allow"
  }

  /** What a walk says of the rule that decides a packet. */
  predicate WalkTells<A>(n: Net<A>, walked: Walked, decider: Option<Rule>, addr: A) {
    match walked
    case Unresolved => true
    case Settled(allow, sources) =>
      decider.Some?
      && (decider.value.from == "any" ==> Allows(decider.value) == allow)
      && (decider.value.from != "any" && Allows(decider.value) ==> decider.value.from in sources && n.covers(decider.value.from, addr))
    case Fell(sources) =>
      decider.Some? ==>
        decider.value.from != "any"
        && (Allows(decider.value) ==> decider.value.from in sources && n.covers(decider.value.from, addr))
  }

  lemma {:induction false} WalkKeepsSources(rules: seq<Rule>, sources: seq<string>, port: int, proto: string, s: string)
    requires s in sources && !Walk(rules, sources, port, proto).Unresolved?
    ensures s in SourcesOf(Walk(rules, sources, port, proto))
    decreases |rules|
  {
    if rules != [] && Passes(rules[0], port, proto) {
      WalkPast(rules, sources, port, proto);
      WalkKeepsSources(rules[1..], if Hits(rules[0], port, proto) then Widened(rules[0], sources) else sources, port, proto, s);
    }
  }

  lemma {:induction false} WalkIsSound<A>(n: Net<A>, rules: seq<Rule>, sources: seq<string>, addr: A, port: int, proto: string)
    ensures WalkTells(n, Walk(rules, sources, port, proto), Decider(n, rules, addr, port, proto), addr)
    decreases |rules|
  {
    if rules != [] && Passes(rules[0], port, proto) {
      var r := rules[0];
      var more := if Hits(r, port, proto) then Widened(r, sources) else sources;
      WalkPast(rules, sources, port, proto);
      WalkIsSound(n, rules[1..], more, addr, port, proto);
      if Hits(r, port, proto) && Allows(r) && !Walk(rules, sources, port, proto).Unresolved? {
        WalkKeepsSources(rules[1..], more, port, proto, r.from);
      }
    }
  }

  /** The sources a verdict names are each allowed by a rule for the port. */
  lemma {:induction false} SourcesAreAllowed(rules: seq<Rule>, sources: seq<string>, port: int, proto: string, s: string)
    requires s in SourcesOf(Walk(rules, sources, port, proto))
    ensures s in sources || exists r <- rules :: r.from == s && s != "any" && Allows(r) && Hits(r, port, proto)
    decreases |rules|
  {
    if rules != [] && Passes(rules[0], port, proto) {
      var r := rules[0];
      WalkPast(rules, sources, port, proto);
      SourcesAreAllowed(rules[1..], if Hits(r, port, proto) then Widened(r, sources) else sources, port, proto, s);
      assert rules == [r] + rules[1..] && r in rules;
    }
  }

  /** What a verdict says of a packet: on a blocked port it is not accepted; on a restricted one, it
      comes from a source listed if it is accepted; on an open one, a rule for its own source refused it
      if it is refused. Unknown says nothing. */
  predicate Holds<A>(n: Net<A>, fw: Report, v: Verdict, addr: A, port: int, proto: string) {
    match v.state
    case Blocked => !Accepts(n, fw, addr, port, proto)
    case Restricted => Accepts(n, fw, addr, port, proto) ==> exists s <- v.sources :: n.covers(s, addr)
    case Open =>
      !Accepts(n, fw, addr, port, proto) ==>
        Decider(n, fw.rules, addr, port, proto).Some? && Decider(n, fw.rules, addr, port, proto).value.from != "any"
    case Unknown => true
  }

  /** The verdict of a current report of rules all interpreted is sound for every packet, and unknown only
      for a profile that was not resolved. */
  lemma VerdictIsSound<A>(n: Net<A>, heartbeat: Option<int>, fw: Report, port: int, proto: string, now: int, addr: A)
    requires Current(heartbeat, Some(fw), now) && !fw.unparsed
    ensures var v := VerdictOf(heartbeat, Some(fw), port, proto, now);
            && Holds(n, fw, v, addr, port, proto)
            && (v.state == Restricted ==> v.sources != [])
            && (v.state == Unknown ==> exists r <- fw.rules :: r.app != "" && Concerns(r, proto))
  {
    WalkIsSound(n, fw.rules, [], addr, port, proto);
    if Walk(fw.rules, [], port, proto).Unresolved? { UnresolvedRule(fw.rules, [], port, proto); }
  }

  /** A source a verdict names is one that a rule for the port allows. */
  lemma NamedSourceIsAllowed(heartbeat: Option<int>, fw: Report, port: int, proto: string, now: int, s: string)
    requires s in VerdictOf(heartbeat, Some(fw), port, proto, now).sources
    ensures s != "any" && exists r <- fw.rules :: r.from == s && Allows(r) && Hits(r, port, proto)
  {
    SourcesAreAllowed(fw.rules, [], port, proto, s);
  }

  lemma {:induction false} UnresolvedRule(rules: seq<Rule>, sources: seq<string>, port: int, proto: string)
    requires Walk(rules, sources, port, proto).Unresolved?
    ensures exists r <- rules :: r.app != "" && Concerns(r, proto)
    decreases |rules|
  {
    var r := rules[0];
    assert rules == [r] + rules[1..] && r in rules;
    if Passes(r, port, proto) {
      WalkPast(rules, sources, port, proto);
      UnresolvedRule(rules[1..], if Hits(r, port, proto) then Widened(r, sources) else sources, port, proto);
    }
  }

  /** The rule from anywhere the walk stops at. */
  predicate StopsAt(rules: seq<Rule>, k: nat, port: int, proto: string) {
    k < |rules| && Hits(rules[k], port, proto) && rules[k].from == "any" && forall i :: 0 <= i < k ==> Passes(rules[i], port, proto)
  }

  lemma {:induction false} SettledAt(rules: seq<Rule>, sources: seq<string>, port: int, proto: string) returns (k: nat)
    requires Walk(rules, sources, port, proto).Settled?
    ensures StopsAt(rules, k, port, proto) && Allows(rules[k]) == Walk(rules, sources, port, proto).allow
    decreases |rules|
  {
    var r := rules[0];
    if Passes(r, port, proto) {
      WalkPast(rules, sources, port, proto);
      var j := SettledAt(rules[1..], if Hits(r, port, proto) then Widened(r, sources) else sources, port, proto);
      k := j + 1;
    } else {
      k := 0;
    }
  }

  /** A walk that reaches such a rule ends there. */
  lemma {:induction false} StopSettles(rules: seq<Rule>, sources: seq<string>, k: nat, port: int, proto: string)
    requires StopsAt(rules, k, port, proto)
    ensures Walk(rules, sources, port, proto).Settled? && Walk(rules, sources, port, proto).allow == Allows(rules[k])
    decreases |rules|
  {
    if k > 0 {
      WalkPast(rules, sources, port, proto);
      StopSettles(rules[1..], if Hits(rules[0], port, proto) then Widened(rules[0], sources) else sources, k - 1, port, proto);
    }
  }

  /** With `unparsed`, rules the report leaves out may come before those it has. */
  function Hidden(fw: Report, hidden: seq<Rule>): Report {
    fw.(rules := hidden + fw.rules)
  }

  /** A verdict true of every packet whatever rules were left out. */
  ghost predicate AlwaysHolds<A(!new)>(fw: Report, v: Verdict, port: int, proto: string) {
    forall n: Net<A>, hidden: seq<Rule>, addr: A :: Holds(n, Hidden(fw, hidden), v, addr, port, proto)
  }

  function Everyone(action: string): Rule {
    Rule("", "", action, "any", "", "")
  }

  lemma HiddenDecides<A>(n: Net<A>, fw: Report, action: string, addr: A, port: int, proto: string)
    ensures Decider(n, Hidden(fw, [Everyone(action)]).rules, addr, port, proto) == Some(Everyone(action))
  {
    assert ([Everyone(action)] + fw.rules)[0] == Everyone(action);
  }

  /** One rule left out makes any verdict but unknown wrong: for an open port one that refuses everyone,
      for any other one that lets everyone in. */
  lemma OneHiddenRule<A(!new)>(fw: Report, v: Verdict, port: int, proto: string, addr: A)
    requires fw.active && fw.tool != "none" && v.state != Unknown
    ensures !AlwaysHolds<A>(fw, v, port, proto)
  {
    var n := Net((s: string, a: A) => false, (app: string, p: int, q: string) => false);
    var action := if v.state == Open then "reject" else "allow";
    HiddenDecides(n, fw, action, addr, port, proto);
    assert !Holds(n, Hidden(fw, [Everyone(action)]), v, addr, port, proto);
  }

  /** With rules that are not interpreted, exactly when there is a verdict, which one, and that it cannot
      be relied on: there is one when the interpreted rules reach one from anywhere, it is open when that
      one allows, and then a rule left out can make it wrong. */
  lemma UnparsedExactly<A(!new)>(heartbeat: Option<int>, fw: Report, port: int, proto: string, now: int, addr: A)
    requires Current(heartbeat, Some(fw), now) && fw.unparsed && fw.active && fw.tool != "none"
    ensures var v := VerdictOf(heartbeat, Some(fw), port, proto, now);
            && (v.state != Unknown <==> exists k: nat :: StopsAt(fw.rules, k, port, proto))
            && (forall k: nat :: StopsAt(fw.rules, k, port, proto) ==> (v.state == Open <==> Allows(fw.rules[k])))
            && (AlwaysHolds<A>(fw, v, port, proto) <==> !exists k: nat :: StopsAt(fw.rules, k, port, proto))
  {
    var v := VerdictOf(heartbeat, Some(fw), port, proto, now);
    if Walk(fw.rules, [], port, proto).Settled? {
      var k := SettledAt(fw.rules, [], port, proto);
    }
    forall k: nat | StopsAt(fw.rules, k, port, proto)
      ensures v.state != Unknown && (v.state == Open <==> Allows(fw.rules[k]))
    {
      StopSettles(fw.rules, [], k, port, proto);
    }
    if v.state != Unknown { OneHiddenRule<A>(fw, v, port, proto, addr); }
  }

  /** A verdict is never older than what it was made from allows: no report, an old one or one that
      failed is unknown, and any other says when it was made. */
  lemma UnknownUnlessCurrent(heartbeat: Option<int>, report: Option<Report>, port: int, proto: string, now: int)
    ensures VerdictOf(heartbeat, report, port, proto, now).state != Unknown ==> Current(heartbeat, report, now)
    ensures Current(heartbeat, report, now) <==> VerdictOf(heartbeat, report, port, proto, now).checkedAt.Some?
  {
  }
}
