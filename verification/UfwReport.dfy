/** A whole report of ufw, from its text to a verdict true by the host's own rules, and where that stops. */
module UfwReport {
  import opened Prelude
  import opened Text
  import opened Requests
  import opened PortSpec
  import opened Firewall
  import opened PortRules
  import opened UfwStatus
  import opened UfwPrinted

  // ── A whole report ────────────────────────────────────────────────────────

  /** The policies of the default line: incoming first, then the others. */
  type Policies = seq<(string, string)>

  const INCOMING := "(incoming)"

  function PolicyText(p: (string, string)): string {
    [' '] + (p.0 + [' '] + p.1)
  }

  function PolicyTexts(ps: Policies): seq<string> {
    seq(|ps|, i requires 0 <= i < |ps| => PolicyText(ps[i]))
  }

  /** A report. One that is not active says so and little else. One that is has lines of no account, the
      default policies, more such lines, and, if it has rules, the heading under which they stand, the rules,
      and blank lines. */
  datatype Status =
    | Inactive(word: string, after: seq<string>)
    | Active(before: seq<string>, incoming: string, others: Policies, after: seq<string>,
             heading: Option<string>, rules: Printing, blanks: seq<string>)

  predicate IsPolicy(p: (string, string)) {
    Word(p.0) && ',' !in p.0 && Word(p.1) && ',' !in p.1
  }

  /** A line under no heading the reader knows. */
  predicate IsQuiet(line: string) {
    var t := TrimSpace(line);
    !HasPrefix(t, STATUS) && !HasPrefix(t, DEFAULT) && !HasPrefix(t, RULE)
  }

  predicate AllQuiet(lines: seq<string>) {
    forall i :: 0 <= i < |lines| ==> IsQuiet(lines[i])
  }

  predicate AllBlank(lines: seq<string>) {
    forall i :: 0 <= i < |lines| ==> TrimSpace(lines[i]) == ""
  }

  predicate IsHeading(line: string) {
    HasPrefix(TrimSpace(line), RULE)
  }

  /** The heading, if there is one: without it there are no rules. */
  predicate HeadingOk(heading: Option<string>, rules: Printing) {
    if heading.Some? then IsHeading(heading.value) else rules == []
  }

  function HeadingLines(heading: Option<string>): seq<string> {
    if heading.Some? then [heading.value] else []
  }

  predicate PoliciesOk(incoming: string, others: Policies) {
    IsPolicy((incoming, INCOMING)) && forall i :: 0 <= i < |others| ==> IsOther(others[i])
  }

  predicate StatusOk(s: Status) {
    match s
    case Inactive(word, after) => Word(word) && word != ACTIVE && AllQuiet(after)
    case Active(before, incoming, others, after, heading, rules, blanks) =>
      AllQuiet(before) && PoliciesOk(incoming, others) && AllQuiet(after) && HeadingOk(heading, rules)
      && AllPrintable(rules) && AllBlank(blanks)
  }

  const ACTIVE := "active"

  function Headed(heading: string, text: string): string {
    heading + text
  }

  function StatusLine(word: string): string {
    Headed(STATUS, [' '] + word)
  }

  function DefaultLine(incoming: string, others: Policies): string {
    Headed(DEFAULT, Join(PolicyTexts([(incoming, INCOMING)] + others), ','))
  }

  function TopLines(before: seq<string>, incoming: string, others: Policies): seq<string> {
    [StatusLine(ACTIVE)] + before + [DefaultLine(incoming, others)]
  }

  function StatusText(s: Status): seq<string> {
    match s
    case Inactive(word, after) => [StatusLine(word)] + after
    case Active(before, incoming, others, after, heading, rules, blanks) =>
      TopLines(before, incoming, others) + (after + HeadingLines(heading)) + Lines(rules) + blanks
  }

  /** A line whose first character begins no heading. */
  lemma QuietByHead(line: string)
    requires TrimSpace(line) == "" || (TrimSpace(line)[0] != 'S' && TrimSpace(line)[0] != 'D' && TrimSpace(line)[0] != '-')
    ensures IsQuiet(line)
  {
    if TrimSpace(line) != "" { NoHeading(TrimSpace(line)); } else { NothingHeads(""); }
  }

  lemma NothingHeads(t: string)
    requires t == ""
    ensures !HasPrefix(t, STATUS) && !HasPrefix(t, DEFAULT) && !HasPrefix(t, RULE)
  {
  }

  lemma {:induction false} QuietLines(r: Reading, extra: seq<string>, resolve: Resolve)
    requires !r.inRules && forall i :: 0 <= i < |extra| ==> IsQuiet(extra[i])
    ensures ReadLines(r, extra, resolve) == r
  {
    if extra != [] { QuietLines(r, extra[..|extra| - 1], resolve); }
  }

  lemma HeadedTrims(heading: string, text: string)
    requires heading != "" && heading[0] !in SPACE && text != "" && text[|text| - 1] !in SPACE
    ensures TrimSpace(Headed(heading, text)) == heading + text
    ensures HasPrefix(heading + text, heading) && TrimPrefix(heading + text, heading) == text
  {
    TrimPlain(heading + text, SPACE);
    assert (heading + text)[..|heading|] == heading;
  }

  lemma StatusShape(status: string)
    requires status == STATUS
    ensures status != "" && status[0] == 'S' && status[0] !in SPACE
  {
  }

  lemma StatusReads(r: Reading, status: string, active: string, resolve: Resolve)
    requires status == STATUS && Word(active)
    ensures ReadLine(r, Headed(status, [' '] + active), resolve) == r.(fw := r.fw.(active := active == "active"))
  {
    StatusShape(status);
    WordEnds(active);
    HeadedTrims(status, [' '] + active);
    BlankTrims(active);
  }

  lemma DefaultShape(heading: string)
    requires heading == DEFAULT
    ensures heading != "" && heading[0] == 'D' && heading[0] !in SPACE
  {
  }

  lemma NotStatus(text: string)
    requires text != "" && text[0] == 'D'
    ensures !HasPrefix(text, STATUS)
  {
    SameHead(text, STATUS);
    StatusShape(STATUS);
  }

  lemma PolicyReads(p: (string, string))
    requires IsPolicy(p)
    ensures Policy(PolicyText(p)) == if p.1 == INCOMING then Some(p.0) else None
  {
    var s := p.0 + [' '] + p.1;
    WordEnds(p.0);
    WordEnds(p.1);
    EndsConcat(p.0, [' '] + p.1);
    assert p.0 + ([' '] + p.1) == s;
    BlankTrims(s);
    NoSpaceIn(p.0);
    CutFirst(p.0, ' ', p.1);
  }

  lemma NoSpaceIn(w: string)
    requires Word(w)
    ensures ' ' !in w
  {
  }

  /** A policy for something other than incoming packets. */
  predicate IsOther(p: (string, string)) {
    IsPolicy(p) && p.1 != INCOMING
  }

  lemma OthersKeep(fw: Report, others: Policies)
    requires forall i :: 0 <= i < |others| ==> IsOther(others[i])
    ensures WithPolicies(fw, PolicyTexts(others)) == fw
  {
    var parts := PolicyTexts(others);
    forall i | 0 <= i < |parts| ensures PolicyTaker()(fw, parts[i]) == fw { PolicyReads(others[i]); }
    FoldedStays(fw, parts, PolicyTaker());
  }

  lemma FirstPolicy(fw: Report, incoming: string, part: string)
    requires Policy(part) == Some(incoming)
    ensures WithPolicies(fw, [part]) == fw.(defaultIncoming := incoming)
  {
    FoldedOne(fw, part, PolicyTaker());
  }

  lemma PoliciesRead(fw: Report, incoming: string, others: Policies)
    requires PoliciesOk(incoming, others)
    ensures WithPolicies(fw, PolicyTexts([(incoming, INCOMING)] + others)) == fw.(defaultIncoming := incoming)
  {
    var first, rest := PolicyText((incoming, INCOMING)), PolicyTexts(others);
    PolicyReads((incoming, INCOMING));
    FirstPolicy(fw, incoming, first);
    OthersKeep(fw.(defaultIncoming := incoming), others);
    FoldedConcat(fw, [first], rest, PolicyTaker());
    PolicyTextsOf((incoming, INCOMING), others);
  }

  lemma PolicyTextsOf(p: (string, string), others: Policies)
    ensures PolicyTexts([p] + others) == [PolicyText(p)] + PolicyTexts(others)
  {
  }

  lemma PolicyPlain(p: (string, string))
    requires IsPolicy(p)
    ensures ',' !in PolicyText(p) && PolicyText(p) != "" && PolicyText(p)[|PolicyText(p)| - 1] !in SPACE
  {
    WordEnds(p.1);
  }

  lemma {:induction false} JoinLast(parts: seq<string>, sep: char)
    requires parts != [] && forall i :: 0 <= i < |parts| ==> parts[i] != ""
    ensures var s, last := Join(parts, sep), parts[|parts| - 1];
            s != "" && s[|s| - 1] == last[|last| - 1]
  {
    if |parts| > 1 {
      JoinLast(parts[1..], sep);
      var rest := Join(parts[1..], sep);
      assert Join(parts, sep) == parts[0] + [sep] + rest;
      assert parts[1..][|parts| - 2] == parts[|parts| - 1];
    }
  }

  lemma PoliciesPlain(ps: Policies)
    requires ps != [] && forall i :: 0 <= i < |ps| ==> IsPolicy(ps[i])
    ensures var s := Join(PolicyTexts(ps), ',');
            Split(s, ',') == PolicyTexts(ps) && s != "" && s[|s| - 1] !in SPACE
  {
    forall i | 0 <= i < |ps|
      ensures ',' !in PolicyTexts(ps)[i] && PolicyTexts(ps)[i] != ""
    {
      PolicyPlain(ps[i]);
    }
    PolicyPlain(ps[|ps| - 1]);
    SplitJoin(PolicyTexts(ps), ',');
    JoinLast(PolicyTexts(ps), ',');
  }

  lemma DefaultReads(r: Reading, heading: string, incoming: string, others: Policies, resolve: Resolve)
    requires heading == DEFAULT && PoliciesOk(incoming, others)
    ensures ReadLine(r, Headed(heading, Join(PolicyTexts([(incoming, INCOMING)] + others), ',')), resolve)
            == r.(fw := r.fw.(defaultIncoming := incoming))
  {
    var ps := [(incoming, INCOMING)] + others;
    var text := Join(PolicyTexts(ps), ',');
    PoliciesPlain(ps);
    DefaultShape(heading);
    HeadedTrims(heading, text);
    NotStatus(heading + text);
    PoliciesRead(r.fw, incoming, others);
  }

  lemma NotHeads(t: string)
    requires t != "" && t[0] == '-'
    ensures !HasPrefix(t, STATUS) && !HasPrefix(t, DEFAULT)
  {
    SameHead(t, STATUS);
    SameHead(t, DEFAULT);
  }

  lemma HeadingReads(r: Reading, heading: string, resolve: Resolve)
    requires IsHeading(heading)
    ensures ReadLine(r, heading, resolve) == r.(inRules := true)
  {
    SameHead(TrimSpace(heading), RULE);
    NotHeads(TrimSpace(heading));
  }

  lemma BlankReads(r: Reading, line: string, resolve: Resolve)
    requires TrimSpace(line) == ""
    ensures ReadLine(r, line, resolve) == r
  {
    NothingHeads(TrimSpace(line));
  }

  lemma {:induction false} BlanksRead(r: Reading, blanks: seq<string>, resolve: Resolve)
    requires AllBlank(blanks)
    ensures ReadLines(r, blanks, resolve) == r
  {
    if blanks != [] {
      var n := |blanks| - 1;
      BlanksRead(r, blanks[..n], resolve);
      LinesSnoc(r, blanks, n, resolve);
      assert blanks[..n + 1] == blanks;
      BlankReads(r, blanks[n], resolve);
    }
  }

  lemma OneLine(r: Reading, a: string, end: Reading, resolve: Resolve)
    requires ReadLine(r, a, resolve) == end
    ensures ReadLines(r, [a], resolve) == end
  {
    FoldedOne(r, a, LineReader(resolve));
  }

  lemma Then(r: Reading, a: seq<string>, mid: Reading, b: seq<string>, end: Reading, resolve: Resolve)
    requires ReadLines(r, a, resolve) == mid && ReadLines(mid, b, resolve) == end
    ensures ReadLines(r, a + b, resolve) == end
  {
    LinesConcat(r, a, b, resolve);
  }

  function Begun(incoming: string, inRules: bool): Reading {
    Reading(Report("ufw", true, incoming, [], false, 0, ""), inRules)
  }

  /** The lines down to the default policies. */
  lemma TopReads(before: seq<string>, incoming: string, others: Policies, resolve: Resolve)
    requires AllQuiet(before) && PoliciesOk(incoming, others)
    ensures ReadLines(Reading(BLANK, false), TopLines(before, incoming, others), resolve) == Begun(incoming, false)
  {
    var start, on := Reading(BLANK, false), Reading(BLANK.(active := true), false);
    StatusReads(start, STATUS, ACTIVE, resolve);
    OneLine(start, StatusLine(ACTIVE), on, resolve);
    QuietLines(on, before, resolve);
    Then(start, [StatusLine(ACTIVE)], on, before, on, resolve);
    DefaultReads(on, DEFAULT, incoming, others, resolve);
    OneLine(on, DefaultLine(incoming, others), Begun(incoming, false), resolve);
    Then(start, [StatusLine(ACTIVE)] + before, on, [DefaultLine(incoming, others)], Begun(incoming, false), resolve);
  }

  /** Those from there to the rules. */
  lemma MiddleReads(incoming: string, after: seq<string>, heading: Option<string>, rules: Printing, resolve: Resolve)
    requires AllQuiet(after) && HeadingOk(heading, rules)
    ensures ReadLines(Begun(incoming, false), after + HeadingLines(heading), resolve) == Begun(incoming, heading.Some?)
  {
    var on := Begun(incoming, false);
    QuietLines(on, after, resolve);
    if heading.Some? {
      HeadingReads(on, heading.value, resolve);
      OneLine(on, heading.value, Begun(incoming, true), resolve);
    }
    Then(on, after, on, HeadingLines(heading), Begun(incoming, heading.Some?), resolve);
  }

  lemma RulesRead(r: Reading, p: Printing, blanks: seq<string>, resolve: Resolve)
    requires AllPrintable(p) && AllBlank(blanks) && (r.inRules || p == []) && r.fw.rules == []
    ensures ReadLines(r, Lines(p) + blanks, resolve) == r.(fw := r.fw.(rules := AllMeant(p, resolve)))
  {
    var end := r.(fw := r.fw.(rules := AllMeant(p, resolve)));
    if p != [] {
      RulesReadBack(r, p, resolve);
      assert [] + AllMeant(p, resolve) == AllMeant(p, resolve);
    }
    BlanksRead(end, blanks, resolve);
    Then(r, Lines(p), end, blanks, end, resolve);
  }

  lemma ThreeReads(r: Reading, a: seq<string>, mid: Reading, b: seq<string>, last: Reading, c: seq<string>, d: seq<string>,
                   end: Reading, resolve: Resolve)
    requires ReadLines(r, a, resolve) == mid && ReadLines(mid, b, resolve) == last && ReadLines(last, c + d, resolve) == end
    ensures ReadLines(r, a + b + c + d, resolve) == end
  {
    Then(r, a, mid, b, last, resolve);
    Then(r, a + b, last, c + d, end, resolve);
    assert a + b + c + d == a + b + (c + d);
  }

  lemma ActiveReads(s: Status, resolve: Resolve)
    requires StatusOk(s) && s.Active?
    ensures ReadLines(Reading(BLANK, false), StatusText(s), resolve).fw
            == Report("ufw", true, s.incoming, AllMeant(s.rules, resolve), false, 0, "")
  {
    var begun := Begun(s.incoming, s.heading.Some?);
    TopReads(s.before, s.incoming, s.others, resolve);
    MiddleReads(s.incoming, s.after, s.heading, s.rules, resolve);
    RulesRead(begun, s.rules, s.blanks, resolve);
    ThreeReads(Reading(BLANK, false), TopLines(s.before, s.incoming, s.others), Begun(s.incoming, false),
               s.after + HeadingLines(s.heading), begun, Lines(s.rules), s.blanks,
               begun.(fw := begun.fw.(rules := AllMeant(s.rules, resolve))), resolve);
  }

  lemma InactiveReads(s: Status, resolve: Resolve)
    requires StatusOk(s) && s.Inactive?
    ensures ReadLines(Reading(BLANK, false), StatusText(s), resolve) == Reading(BLANK, false)
  {
    var start := Reading(BLANK, false);
    StatusReads(start, STATUS, s.word, resolve);
    OneLine(start, StatusLine(s.word), start, resolve);
    QuietLines(start, s.after, resolve);
    Then(start, [StatusLine(s.word)], start, s.after, start, resolve);
  }

  /** A whole report is read back: not active, with no rules; or active, with its policy and the incoming
      IPv4 rules in order. */
  lemma StatusReadsBack(s: Status, resolve: Resolve)
    requires StatusOk(s)
    ensures ReportOf(StatusText(s), resolve)
            == if s.Inactive? then BLANK else Report("ufw", true, s.incoming, AllMeant(s.rules, resolve), false, 0, "")
  {
    if s.Inactive? { InactiveReads(s, resolve); } else { ActiveReads(s, resolve); }
  }

  // ── The host's own rules ──────────────────────────────────────────────────

  /** The rules as they are, before they are printed: the first that looks at incoming packets over IPv4
      on any interface, is for the packet's destination and covers its source. */
  predicate HostMatches<A>(n: Net<A>, h: HostRule, holds: Holds, addr: A, port: int, proto: string) {
    h.direction == "IN" && !h.v6 && h.iface.None? && Reaches(h.dest, holds, port, proto)
    && (h.source.Some? ==> n.covers(h.source.value, addr))
  }

  function HostDecider<A>(n: Net<A>, p: Printing, holds: Holds, addr: A, port: int, proto: string): Option<HostRule> {
    if p == [] then None
    else if HostMatches(n, p[0].0, holds, addr, port, proto) then Some(p[0].0)
    else HostDecider(n, p[1..], holds, addr, port, proto)
  }

  predicate LetsIn(action: string) {
    action == "ALLOW" || action == "LIMIT"
  }

  predicate HostAccepts<A>(n: Net<A>, s: Status, holds: Holds, addr: A, port: int, proto: string) {
    s.Inactive? ||
    match HostDecider(n, s.rules, holds, addr, port, proto)
    case Some(h) => LetsIn(h.action)
    case None => s.incoming == "allow"
  }

  /** A verdict is true of a packet by the host's own rules. */
  predicate HostHolds<A>(n: Net<A>, s: Status, holds: Holds, v: Verdict, addr: A, port: int, proto: string) {
    match v.state
    case Blocked => !HostAccepts(n, s, holds, addr, port, proto)
    case Restricted => HostAccepts(n, s, holds, addr, port, proto) ==> exists src <- v.sources :: n.covers(src, addr)
    case Open =>
      !HostAccepts(n, s, holds, addr, port, proto) ==>
        HostDecider(n, s.rules, holds, addr, port, proto).Some? && HostDecider(n, s.rules, holds, addr, port, proto).value.source.Some?
    case Unknown => true
  }

  /** A rule that looks at incoming packets over IPv4 on any interface. */
  predicate Looks(h: HostRule) {
    h.direction == "IN" && !h.v6 && h.iface.None?
  }

  /** A destination that is lost when it is read: no ports, and an address or a protocol. */
  predicate IsLost(d: Destination) {
    d.ports == [] && !IsPlainDest(d)
  }

  /** A rule is read as it was meant for one packet: its address, if it names ports of one, is the packet's,
      or the packet is for other ports; and if its destination is lost, the packet is not for it. */
  predicate RightFor(h: HostRule, holds: Holds, port: int, proto: string) {
    Looks(h) ==> if IsLost(h.dest) then !Reaches(h.dest, holds, port, proto)
                 else OfPorts(h.dest, port, proto) ==> OfAddress(h.dest, holds)
  }

  predicate AllRight(p: Printing, holds: Holds, port: int, proto: string) {
    forall i :: 0 <= i < |p| ==> RightFor(p[i].0, holds, port, proto)
  }

  /** No profile goes by the name of an address, or of a protocol alone. */
  predicate NoProfiles(p: Printing, resolve: Resolve) {
    forall i :: 0 <= i < |p| && IsLost(p[i].0.dest) ==> resolve(DestinationText(p[i].0.dest)) == ""
  }

  lemma ActionRead(action: string)
    requires action in ACTIONS
    ensures Lower(action) == "allow" || Lower(action) == "limit" <==> LetsIn(action)
  {
    var i :| 0 <= i < |ACTIONS| && action == ACTIONS[i];
    ActionLower(i);
  }

  lemma ActionLower(i: nat)
    requires i < 4
    ensures Lower(ACTIONS[i]) == ["allow", "deny", "reject", "limit"][i]
  {
    assert Lower("ALLOW") == "allow" && Lower("DENY") == "deny" && Lower("REJECT") == "reject" && Lower("LIMIT") == "limit";
  }

  function Bare(h: HostRule): Rule {
    Rule("", "", Lower(h.action), if h.iface.None? && h.source.Some? then h.source.value else "any",
         if h.iface.Some? then h.iface.value else "", "")
  }

  lemma MeantIs(h: HostRule, resolve: Resolve)
    requires h.direction == "IN" && !h.v6
    ensures Meant(h, resolve) == Some(FillTo(Bare(h), DestinationText(h.dest), resolve))
  {
  }

  /** What a destination makes of a rule, for one packet. */
  lemma FillHits(r: Rule, d: Destination, resolve: Resolve, port: int, proto: string)
    requires WellFormed(d) && r.app == "" && r.ports == "" && r.proto == "" && r.iface == ""
    requires IsLost(d) ==> resolve(DestinationText(d)) == ""
    ensures var rule := FillTo(r, DestinationText(d), resolve);
            && rule == r.(ports := rule.ports, proto := rule.proto, app := rule.app)
            && (Hits(rule, port, proto) <==> !IsLost(d) && OfPorts(d, port, proto))
            && (rule.app != "" ==> IsLost(d))
  {
    FillKeeps(r, DestinationText(d), resolve);
    if IsLost(d) {
      PortlessNeverHits(r, d, resolve, port, proto);
    } else if d.ports != [] {
      PortedHits(r, d, resolve, port, proto);
    } else {
      AnywhereMeans(r, d, resolve);
    }
  }

  lemma FillKeeps(r: Rule, to: string, resolve: Resolve)
    ensures var rule := FillTo(r, to, resolve);
            rule == r.(ports := rule.ports, proto := rule.proto, app := rule.app)
  {
  }

  /** A net in which no profile stands for any port. */
  function Unprofiled<A>(n: Net<A>): Net<A> {
    n.(profile := (app: string, port: int, proto: string) => false)
  }

  /** A rule read matches a packet it is read rightly for exactly when its host rule does, and does with it
      what that does. */
  lemma MeantMatches<A>(n: Net<A>, h: HostRule, resolve: Resolve, holds: Holds, addr: A, port: int, proto: string)
    requires Printable(h) && RightFor(h, holds, port, proto) && (IsLost(h.dest) ==> resolve(DestinationText(h.dest)) == "")
    ensures HostMatches(n, h, holds, addr, port, proto) <==>
              Meant(h, resolve).Some? && Matches(Unprofiled(n), Meant(h, resolve).value, addr, port, proto)
    ensures Meant(h, resolve).Some? ==> (Allows(Meant(h, resolve).value) <==> LetsIn(h.action))
    ensures Meant(h, resolve).Some? && h.iface.None? ==>
              (Meant(h, resolve).value.from == "any" <==> h.source.None?)
              && (Meant(h, resolve).value.app != "" ==> IsLost(h.dest))
  {
    if h.direction == "IN" && !h.v6 {
      MeantIs(h, resolve);
      ActionRead(h.action);
      FillKeeps(Bare(h), DestinationText(h.dest), resolve);
      if h.source.Some? { NotWords(h.source.value); }
      if h.iface.None? { FillHits(Bare(h), h.dest, resolve, port, proto); }
    }
  }

  lemma {:induction false} AllMeantCons(p: Printing, resolve: Resolve)
    requires p != []
    ensures AllMeant(p, resolve) == AsSeq(Meant(p[0].0, resolve)) + AllMeant(p[1..], resolve)
  {
    var n := |p| - 1;
    if n == 0 {
      assert p[..0] == [] && p[1..] == [];
    } else {
      AllMeantCons(p[..n], resolve);
      assert p[..n][1..] == p[1..][..n - 1] && p[1..][n - 1] == p[n];
    }
  }

  lemma {:induction false} DeciderRead<A>(n: Net<A>, p: Printing, resolve: Resolve, holds: Holds, addr: A, port: int, proto: string)
    requires AllPrintable(p) && AllRight(p, holds, port, proto) && NoProfiles(p, resolve)
    ensures var d, h := Decider(Unprofiled(n), AllMeant(p, resolve), addr, port, proto), HostDecider(n, p, holds, addr, port, proto);
            && (d.Some? <==> h.Some?)
            && (d.Some? ==> (Allows(d.value) <==> LetsIn(h.value.action)) && (d.value.from == "any" <==> h.value.source.None?))
    decreases |p|
  {
    if p != [] {
      var m := Meant(p[0].0, resolve);
      AllMeantCons(p, resolve);
      MeantMatches(n, p[0].0, resolve, holds, addr, port, proto);
      DeciderRead(n, p[1..], resolve, holds, addr, port, proto);
      if m.Some? {
        assert (AsSeq(m) + AllMeant(p[1..], resolve))[1..] == AllMeant(p[1..], resolve);
      } else {
        assert AsSeq(m) + AllMeant(p[1..], resolve) == AllMeant(p[1..], resolve);
      }
    }
  }

  /** A profile among the rules read comes of a lost destination. */
  lemma {:induction false} ProfilesAreLost(p: Printing, resolve: Resolve, r: Rule)
    requires AllPrintable(p) && NoProfiles(p, resolve) && r in AllMeant(p, resolve) && r.app != "" && r.iface == ""
    ensures exists i :: 0 <= i < |p| && Looks(p[i].0) && IsLost(p[i].0.dest)
  {
    var n := |p| - 1;
    var h := p[n].0;
    if Meant(h, resolve) == Some(r) {
      MeantIs(h, resolve);
      FillKeeps(Bare(h), DestinationText(h.dest), resolve);
      IfaceNotEmpty(h);
      FillHits(Bare(h), h.dest, resolve, 0, "tcp");
      assert Looks(p[n].0) && IsLost(p[n].0.dest);
    } else {
      ProfilesAreLost(p[..n], resolve, r);
      var i :| 0 <= i < n && Looks(p[..n][i].0) && IsLost(p[..n][i].0.dest);
      assert Looks(p[i].0) && IsLost(p[i].0.dest);
    }
  }

  lemma IfaceNotEmpty(h: HostRule)
    requires Printable(h)
    ensures Bare(h).iface == "" <==> h.iface.None?
  {
  }

  /** From what `ufw status verbose` prints to the verdict: for every report, whatever its sources cover,
      the verdict is true by the host's own rules of every packet they are read rightly for, and it is
      unknown only where some destination is lost. */
  lemma PrintedVerdictIsSound<A>(n: Net<A>, s: Status, resolve: Resolve, holds: Holds, heartbeat: int, at: int,
                                 port: int, proto: string, now: int, addr: A)
    requires StatusOk(s) && (s.Active? ==> AllRight(s.rules, holds, port, proto) && NoProfiles(s.rules, resolve))
    requires Current(Some(heartbeat), Some(ReportOf(StatusText(s), resolve).(checkedAt := at)), now)
    ensures var v := VerdictOf(Some(heartbeat), Some(ReportOf(StatusText(s), resolve).(checkedAt := at)), port, proto, now);
            && HostHolds(n, s, holds, v, addr, port, proto)
            && (v.state == Unknown ==> s.Active? && exists i :: 0 <= i < |s.rules| && Looks(s.rules[i].0) && IsLost(s.rules[i].0.dest))
  {
    StatusReadsBack(s, resolve);
    var fw := ReportOf(StatusText(s), resolve).(checkedAt := at);
    var v := VerdictOf(Some(heartbeat), Some(fw), port, proto, now);
    VerdictIsSound(Unprofiled(n), Some(heartbeat), fw, port, proto, now, addr);
    if s.Active? {
      DeciderRead(n, s.rules, resolve, holds, addr, port, proto);
      if v.state == Unknown {
        var r :| r in fw.rules && r.app != "" && Concerns(r, proto);
        ProfilesAreLost(s.rules, resolve, r);
      }
    }
  }

  // ── Where it stops ────────────────────────────────────────────────────────

  function Incoming(action: string, d: Destination): HostRule {
    HostRule(d, action, "IN", None, None, None, false)
  }

  function Plainly(h: HostRule): (HostRule, Layout) {
    (h, Layout(0, 0, 0, None))
  }

  function Denying(rules: Printing): Status {
    Active([], "deny", [], [], Some(RULE), rules, [])
  }

  /** A rule that is not lost and is for the packet stops the walk when it is the first. */
  lemma FirstStops(p: Printing, h: HostRule, resolve: Resolve, port: int, proto: string)
    requires AllPrintable(p) && p != [] && p[0].0 == h && h == Incoming(h.action, h.dest)
    requires !IsLost(h.dest) && OfPorts(h.dest, port, proto)
    ensures var rules := AllMeant(p, resolve);
            StopsAt(rules, 0, port, proto) && (Allows(rules[0]) <==> LetsIn(h.action))
  {
    AllMeantCons(p, resolve);
    MeantIs(h, resolve);
    FillHits(Bare(h), h.dest, resolve, port, proto);
    ActionRead(h.action);
  }

  /** And settles what is said of a report of a host that refuses by default. */
  lemma FirstSettles(fw: Report, rules: seq<Rule>, port: int, proto: string)
    requires fw == Report("ufw", true, "deny", rules, false, 0, "") && StopsAt(rules, 0, port, proto)
    ensures VerdictOf(Some(0), Some(fw), port, proto, 0).state == if Allows(rules[0]) then Open else Blocked
  {
  }

  lemma FirstDecides(p: Printing, h: HostRule, resolve: Resolve, port: int, proto: string)
    requires AllPrintable(p) && p != [] && p[0].0 == h && h == Incoming(h.action, h.dest)
    requires !IsLost(h.dest) && OfPorts(h.dest, port, proto)
    ensures StatusOk(Denying(p))
    ensures VerdictOf(Some(0), Some(ReportOf(StatusText(Denying(p)), resolve)), port, proto, 0).state
            == if LetsIn(h.action) then Open else Blocked
  {
    DenyingOk(p);
    StatusReadsBack(Denying(p), resolve);
    FirstStops(p, h, resolve, port, proto);
    FirstSettles(ReportOf(StatusText(Denying(p)), resolve), AllMeant(p, resolve), port, proto);
  }

  lemma DenyingOk(p: Printing)
    requires AllPrintable(p)
    ensures StatusOk(Denying(p))
  {
    DenyIsPolicy("deny");
    RuleIsHeading(RULE);
  }

  /** A rule for some ports of one address, and what is said of those ports at another. */
  predicate ForAnother(a: Address, ports: seq<Range>, proto: Option<string>, port: int, want: string, holds: Holds) {
    WellFormed(Destination(Some(a), ports, proto)) && ports != [] && OfPorts(Destination(None, ports, proto), port, want)
    && !holds(AddressText(a))
  }

  lemma AnotherIsPassed<A>(n: Net<A>, p: Printing, h: HostRule, a: Address, ports: seq<Range>, proto: Option<string>, port: int,
                           want: string, addr: A, holds: Holds)
    requires ForAnother(a, ports, proto, port, want, holds)
    requires p != [] && p[0].0 == h && h.dest == Destination(Some(a), ports, proto)
    ensures HostDecider(n, p, holds, addr, port, want) == HostDecider(n, p[1..], holds, addr, port, want)
    ensures !IsLost(h.dest) && OfPorts(h.dest, port, want)
  {
  }

  /** A rule that refuses some ports of one address, before one that allows the same ports of every other:
      the first is read as if it were for every address, so the ports are called blocked, while a packet
      for another address of the host is let in. */
  lemma AddressMisleads<A>(n: Net<A>, p: Printing, a: Address, ports: seq<Range>, proto: Option<string>, resolve: Resolve,
                           port: int, want: string, addr: A, holds: Holds)
    requires ForAnother(a, ports, proto, port, want, holds)
    requires p == [Plainly(Incoming("DENY", Destination(Some(a), ports, proto))), Plainly(Incoming("ALLOW", Destination(None, ports, proto)))]
    ensures StatusOk(Denying(p)) && HostAccepts(n, Denying(p), holds, addr, port, want)
    ensures VerdictOf(Some(0), Some(ReportOf(StatusText(Denying(p)), resolve)), port, want, 0).state == Blocked
  {
    AnotherIsPassed(n, p, p[0].0, a, ports, proto, port, want, addr, holds);
    assert p[1..] == [p[1]];
    ActionListed("DENY", 1);
    ActionListed("ALLOW", 0);
    FirstDecides(p, p[0].0, resolve, port, want);
  }

  /** And one that allows some ports of one address, on its own: they are called open, while a packet for
      another address of the host is let in by no rule at all. */
  lemma AddressMisleadsOpen<A>(n: Net<A>, p: Printing, a: Address, ports: seq<Range>, proto: Option<string>, resolve: Resolve,
                               port: int, want: string, addr: A, holds: Holds)
    requires ForAnother(a, ports, proto, port, want, holds)
    requires p == [Plainly(Incoming("ALLOW", Destination(Some(a), ports, proto)))]
    ensures StatusOk(Denying(p)) && HostDecider(n, p, holds, addr, port, want).None? && !HostAccepts(n, Denying(p), holds, addr, port, want)
    ensures VerdictOf(Some(0), Some(ReportOf(StatusText(Denying(p)), resolve)), port, want, 0).state == Open
  {
    AnotherIsPassed(n, p, p[0].0, a, ports, proto, port, want, addr, holds);
    assert p[1..] == [];
    ActionListed("ALLOW", 0);
    FirstDecides(p, p[0].0, resolve, port, want);
  }

  lemma ActionListed(action: string, i: nat)
    requires i < |ACTIONS| && action == ACTIONS[i]
    ensures action in ACTIONS && "IN" in DIRECTIONS
  {
    assert DIRECTIONS[0] == "IN";
  }

  lemma DenyIsPolicy(policy: string)
    requires policy == "deny"
    ensures IsPolicy((policy, INCOMING))
  {
    IncomingIsWord(INCOMING);
  }

  lemma IncomingIsWord(dir: string)
    requires dir == INCOMING
    ensures Word(dir) && ',' !in dir
  {
  }

  lemma RuleIsHeading(rule: string)
    requires rule == RULE
    ensures IsHeading(rule)
  {
    assert rule[0] == '-' && rule[|rule| - 1] == '-';
    TrimPlain(rule, SPACE);
    assert rule[..|rule|] == rule;
  }
}
