/** Reading the default zone of firewalld: the rules of its ports and services, exactly which ports they
    open, and what rich rules do to a verdict made from them. */
module Firewalld {
  import opened Prelude
  import opened Text
  import opened Requests
  import opened PortSpec
  import opened Firewall
  import opened PortRules

  // ── A port or a range ─────────────────────────────────────────────────────

  function Replaced(s: string, from: char, to: char): string {
    seq(|s|, i requires 0 <= i < |s| => if s[i] == from then to else s[i])
  }

  /** `portRule`. */
  function PortRule(spec: string): Rule {
    match Cut(spec, '/')
    case None => Rule(Replaced(spec, '-', ':'), "", "allow", "any", "", "")
    case Some((ports, proto)) => Rule(Replaced(ports, '-', ':'), proto, "allow", "any", "", "")
  }

  lemma ReplacedRange(r: Range)
    ensures Replaced(Printed(r, '-'), '-', ':') == Printed(r, ':')
  {
    match r
    case Port(p) => ItoaDigits(p); NoDash(Itoa(p));
    case Span(lo, hi) =>
      ItoaDigits(lo);
      ItoaDigits(hi);
      NoDash(Itoa(lo));
      NoDash(Itoa(hi));
      ReplacedConcat(Itoa(lo), Itoa(hi));
  }

  lemma NoDash(s: string)
    requires AllDigits(s)
    ensures Replaced(s, '-', ':') == s
  {
    assert forall i :: 0 <= i < |s| ==> s[i] in s;
  }

  lemma ReplacedConcat(a: string, b: string)
    requires Replaced(a, '-', ':') == a && Replaced(b, '-', ':') == b
    ensures Replaced(a + ['-'] + b, '-', ':') == a + [':'] + b
  {
    var s, t := a + ['-'] + b, a + [':'] + b;
    forall i | 0 <= i < |s|
      ensures Replaced(s, '-', ':')[i] == t[i]
    {
      if i < |a| { assert Replaced(a, '-', ':')[i] == a[i]; }
      if i > |a| { assert Replaced(b, '-', ':')[i - |a| - 1] == b[i - |a| - 1]; }
    }
  }

  /** firewalld's own form: the rule made from "a-b/proto" stands for exactly that range. */
  lemma FirewalldMeansRange(x: Range, proto: string, port: int)
    requires Fits(x)
    ensures var rule := PortRule(Printed(x, '-') + ['/'] + proto);
            rule == Rule(rule.ports, proto, "allow", "any", "", "") && (SpecHas(rule.ports, port) <==> InRange(x, port))
  {
    PrintedChars(x, '-');
    CutFirst(Printed(x, '-'), '/', proto);
    ReplacedRange(x);
    ListMeansUnion([x], port);
    assert AllPrinted([x]) == [Printed(x, ':')];
    assert x in [x];
  }

  // ── A firewalld zone ──────────────────────────────────────────────────────

  /** What one line of a zone says. */
  datatype ZoneLine = Target(value: string) | Ports(specs: seq<string>) | Services(names: seq<string>) | Rich(some: bool) | Other

  function ReadLine(line: string): ZoneLine {
    match Cut(TrimSpace(line), ':')
    case None => Other
    case Some((key, rest)) => Keyed(key, TrimSpace(rest))
  }

  function Keyed(key: string, value: string): ZoneLine {
    if key == "target" then Target(value)
    else if key == "ports" then Ports(Fields(value))
    else if key == "services" then Services(Fields(value))
    else if key == "rich rules" then Rich(value != "")
    else Other
  }

  function RulesOf(specs: seq<string>): seq<Rule> {
    seq(|specs|, i requires 0 <= i < |specs| => PortRule(specs[i]))
  }

  function ServiceRules(name: string, resolve: Resolve): seq<Rule> {
    if resolve(name) == "" then [Rule("", "", "allow", "any", "", name)] else RulesOf(Fields(resolve(name)))
  }

  function AllServices(names: seq<string>, resolve: Resolve): seq<Rule> {
    if names == [] then [] else AllServices(names[..|names| - 1], resolve) + ServiceRules(names[|names| - 1], resolve)
  }

  function AddLine(fw: Report, line: ZoneLine, resolve: Resolve): Report {
    match line
    case Target(value) =>
      if value == "ACCEPT" then fw.(defaultIncoming := "allow")
      else if value == "DROP" then fw.(defaultIncoming := "deny")
      else fw
    case Ports(specs) => fw.(rules := fw.rules + RulesOf(specs))
    case Services(names) => fw.(rules := fw.rules + AllServices(names, resolve))
    case Rich(some) => if some then fw.(unparsed := true) else fw
    case Other => fw
  }

  function ZoneOf(lines: seq<ZoneLine>, resolve: Resolve): Report {
    if lines == [] then Report("firewalld", true, "reject", [], false, 0, "")
    else AddLine(ZoneOf(lines[..|lines| - 1], resolve), lines[|lines| - 1], resolve)
  }

  function Each<S, T>(xs: seq<S>, f: S -> T): seq<T> {
    seq(|xs|, i requires 0 <= i < |xs| => f(xs[i]))
  }

  function ReadLines(lines: seq<string>): seq<ZoneLine> {
    Each(lines, ReadLine)
  }

  /** The loops over a line's words. */
  method AddRules(specs: seq<string>, rules: seq<Rule>) returns (more: seq<Rule>)
    ensures more == rules + RulesOf(specs)
  {
    more := rules;
    for i := 0 to |specs|
      invariant more == rules + RulesOf(specs)[..i]
    {
      more := more + [PortRule(specs[i])];
    }
  }

  method AddService(name: string, resolve: Resolve, rules: seq<Rule>) returns (more: seq<Rule>)
    ensures more == rules + ServiceRules(name, resolve)
  {
    var ports := resolve(name);
    if ports == "" {
      more := rules + [Rule("", "", "allow", "any", "", name)];
    } else {
      more := AddRules(Fields(ports), rules);
    }
  }

  lemma ServicesSnoc(names: seq<string>, i: nat, resolve: Resolve, rules: seq<Rule>)
    requires i < |names|
    ensures rules + AllServices(names[..i + 1], resolve)
            == rules + AllServices(names[..i], resolve) + ServiceRules(names[i], resolve)
  {
    assert names[..i + 1][..i] == names[..i];
  }

  method AddServices(names: seq<string>, resolve: Resolve, rules: seq<Rule>) returns (more: seq<Rule>)
    ensures more == rules + AllServices(names, resolve)
  {
    more := rules;
    for i := 0 to |names|
      invariant more == rules + AllServices(names[..i], resolve)
    {
      ServicesSnoc(names, i, resolve, rules);
      more := AddService(names[i], resolve, more);
    }
    assert names[..|names|] == names;
  }

  /** What one line adds. */
  method TakeLine(fw: Report, line: ZoneLine, resolve: Resolve) returns (after: Report)
    ensures after == AddLine(fw, line, resolve)
  {
    after := fw;
    match line {
      case Target(value) =>
        if value == "ACCEPT" {
          after := fw.(defaultIncoming := "allow");
        } else if value == "DROP" {
          after := fw.(defaultIncoming := "deny");
        }
      case Ports(specs) =>
        var rules := AddRules(specs, fw.rules);
        after := fw.(rules := rules);
      case Services(names) =>
        var rules := AddServices(names, resolve, fw.rules);
        after := fw.(rules := rules);
      case Rich(some) =>
        if some {
          after := fw.(unparsed := true);
        }
      case Other =>
    }
  }

  lemma ZoneSnoc(lines: seq<ZoneLine>, i: nat, resolve: Resolve)
    requires i < |lines|
    ensures ZoneOf(lines[..i + 1], resolve) == AddLine(ZoneOf(lines[..i], resolve), lines[i], resolve)
  {
    assert lines[..i + 1][..i] == lines[..i];
  }

  /** `ParseFirewalldZone`. */
  method ParseFirewalldZone(out: string, resolve: Resolve) returns (fw: Report)
    ensures fw == ZoneOf(ReadLines(Split(out, '\n')), resolve)
  {
    fw := Report("firewalld", true, "reject", [], false, 0, "");
    var lines := ReadLines(Split(out, '\n'));
    for i := 0 to |lines|
      invariant fw == ZoneOf(lines[..i], resolve)
    {
      ZoneSnoc(lines, i, resolve);
      fw := TakeLine(fw, lines[i], resolve);
    }
    assert lines[..|lines|] == lines;
  }

  predicate OnlyLetsIn(rules: seq<Rule>) {
    forall i :: 0 <= i < |rules| ==> rules[i].action == "allow" && rules[i].from == "any" && rules[i].iface == ""
  }

  lemma {:induction false} ServicesLetIn(names: seq<string>, resolve: Resolve)
    ensures OnlyLetsIn(AllServices(names, resolve))
  {
    if names != [] { ServicesLetIn(names[..|names| - 1], resolve); }
  }

  lemma LineLetsIn(fw: Report, line: ZoneLine, resolve: Resolve)
    requires OnlyLetsIn(fw.rules)
    ensures OnlyLetsIn(AddLine(fw, line, resolve).rules)
  {
    if line.Services? { ServicesLetIn(line.names, resolve); }
  }

  lemma LineKeeps(fw: Report, line: ZoneLine, resolve: Resolve)
    ensures var after := AddLine(fw, line, resolve);
            after.active == fw.active && after.tool == fw.tool && after.error == fw.error
  {
  }

  lemma {:induction false} ZoneLetsIn(lines: seq<ZoneLine>, resolve: Resolve)
    ensures OnlyLetsIn(ZoneOf(lines, resolve).rules) && ZoneOf(lines, resolve).active
    ensures ZoneOf(lines, resolve).tool == "firewalld" && ZoneOf(lines, resolve).error == ""
  {
    if lines != [] {
      var n := |lines| - 1;
      ZoneLetsIn(lines[..n], resolve);
      LineLetsIn(ZoneOf(lines[..n], resolve), lines[n], resolve);
      LineKeeps(ZoneOf(lines[..n], resolve), lines[n], resolve);
    }
  }

  // ── The ports a zone opens ────────────────────────────────────────────────

  /** Rules that only let in, each with its ports: the port is open when one hits it, and otherwise falls
      to the default. */
  lemma {:induction false} LetInWalk(rules: seq<Rule>, port: int, proto: string)
    requires OnlyLetsIn(rules) && forall i :: 0 <= i < |rules| ==> rules[i].app == ""
    ensures Walk(rules, [], port, proto) == if exists r <- rules :: Hits(r, port, proto) then Settled(true, []) else Fell([])
    decreases |rules|
  {
    if rules != [] {
      assert rules == [rules[0]] + rules[1..];
      LetInWalk(rules[1..], port, proto);
    }
  }

  /** A range as firewalld prints it, with its protocol. */
  type Spec = (Range, string)

  function SpecText(x: Spec): string {
    Printed(x.0, '-') + ['/'] + x.1
  }

  function SpecTexts(xs: seq<Spec>): seq<string> {
    seq(|xs|, i requires 0 <= i < |xs| => SpecText(xs[i]))
  }

  predicate SpecsOk(xs: seq<Spec>) {
    forall i :: 0 <= i < |xs| ==> Fits(xs[i].0) && Word(xs[i].1)
  }

  predicate Covers(xs: seq<Spec>, port: int, proto: string) {
    exists i :: 0 <= i < |xs| && xs[i].1 == proto && InRange(xs[i].0, port)
  }

  predicate SomeHits(rules: seq<Rule>, port: int, proto: string) {
    exists r <- rules :: Hits(r, port, proto)
  }

  lemma SpecHits(x: Spec, port: int, proto: string)
    requires Fits(x.0) && Word(x.1)
    ensures Hits(PortRule(SpecText(x)), port, proto) <==> x.1 == proto && InRange(x.0, port)
    ensures PortRule(SpecText(x)).app == ""
  {
    FirewalldMeansRange(x.0, x.1, port);
  }

  lemma SpecsHit(xs: seq<Spec>, port: int, proto: string)
    requires SpecsOk(xs)
    ensures SomeHits(RulesOf(SpecTexts(xs)), port, proto) <==> Covers(xs, port, proto)
    ensures forall r <- RulesOf(SpecTexts(xs)) :: r.app == ""
  {
    var rules := RulesOf(SpecTexts(xs));
    forall i | 0 <= i < |xs|
      ensures rules[i] in rules && rules[i].app == "" && (Hits(rules[i], port, proto) <==> xs[i].1 == proto && InRange(xs[i].0, port))
    {
      assert rules[i] == PortRule(SpecText(xs[i]));
      SpecHits(xs[i], port, proto);
    }
  }

  lemma SpecIsWord(x: Spec)
    requires Fits(x.0) && Word(x.1)
    ensures Word(SpecText(x))
  {
    PrintedChars(x.0, '-');
    PrintedPlain(Printed(x.0, '-'));
    WordsJoin(Printed(x.0, '-'), x.1);
  }

  lemma PrintedPlain(s: string)
    requires s != "" && forall c <- s :: IsDigit(c) || c == '-'
    ensures Word(s)
  {
  }

  lemma {:induction false} FieldsOfJoin(words: seq<string>)
    requires forall i :: 0 <= i < |words| ==> Word(words[i])
    ensures Fields(Join(words, ' ')) == words
  {
    if |words| == 1 {
      WordAlone(words[0]);
    } else if |words| > 1 {
      var rest := Join(words[1..], ' ');
      FieldsOfJoin(words[1..]);
      assert Join(words, ' ') == words[0] + ([' '] + rest);
      WholeWord(words[0], [' '] + rest);
      assert ([' '] + rest)[1..] == rest;
      assert words == [words[0]] + words[1..];
    }
  }

  lemma SpecsAreWords(xs: seq<Spec>)
    requires SpecsOk(xs)
    ensures Fields(Join(SpecTexts(xs), ' ')) == SpecTexts(xs)
    ensures forall i :: 0 <= i < |xs| ==> Word(SpecTexts(xs)[i])
  {
    forall i | 0 <= i < |xs|
      ensures Word(SpecTexts(xs)[i])
    {
      SpecIsWord(xs[i]);
    }
    FieldsOfJoin(SpecTexts(xs));
  }

  /** A service and the ports it is known for. */
  predicate Offers(resolve: Resolve, service: string, xs: seq<Spec>) {
    xs != [] && SpecsOk(xs) && resolve(service) == Join(SpecTexts(xs), ' ') && resolve(service) != ""
  }

  /** Each of the services with its ports. */
  predicate AllOffer(resolve: Resolve, services: seq<string>, offers: seq<seq<Spec>>) {
    |offers| == |services| && forall i :: 0 <= i < |services| ==> Offers(resolve, services[i], offers[i])
  }

  predicate SomeCovers(offers: seq<seq<Spec>>, port: int, proto: string) {
    exists i :: 0 <= i < |offers| && Covers(offers[i], port, proto)
  }

  lemma HitsConcat(a: seq<Rule>, b: seq<Rule>, port: int, proto: string)
    ensures SomeHits(a + b, port, proto) <==> SomeHits(a, port, proto) || SomeHits(b, port, proto)
  {
  }

  lemma CoversSnoc(offers: seq<seq<Spec>>, port: int, proto: string)
    requires offers != []
    ensures SomeCovers(offers, port, proto)
            <==> SomeCovers(offers[..|offers| - 1], port, proto) || Covers(offers[|offers| - 1], port, proto)
  {
  }

  lemma {:induction false} ServicesHit(services: seq<string>, offers: seq<seq<Spec>>, resolve: Resolve, port: int, proto: string)
    requires AllOffer(resolve, services, offers)
    ensures SomeHits(AllServices(services, resolve), port, proto) <==> SomeCovers(offers, port, proto)
    ensures forall r <- AllServices(services, resolve) :: r.app == ""
  {
    if services != [] {
      var n := |services| - 1;
      ServicesHit(services[..n], offers[..n], resolve, port, proto);
      SpecsAreWords(offers[n]);
      SpecsHit(offers[n], port, proto);
      HitsConcat(AllServices(services[..n], resolve), ServiceRules(services[n], resolve), port, proto);
      CoversSnoc(offers, port, proto);
    }
  }

  /** A range of the host's ports whose packets are sent on, and where to. */
  datatype Forward = Forward(ports: Range, proto: string, to: string)

  /** What `firewall-cmd` lists of a zone that bears on who may connect, its rich rules apart. */
  datatype Zone = Zone(target: string, services: seq<string>, ports: seq<Spec>, protocols: seq<string>, forwards: seq<Forward>,
                       sourcePorts: seq<Spec>)

  const TARGET := "target"
  const SERVICES := "services"
  const PORTS := "ports"
  const PROTOCOLS := "protocols"
  const FORWARDS := "forward-ports"
  const SOURCE_PORTS := "source-ports"
  const RICH := "rich rules"

  /** A key and its words, one line. */
  function KeyLine(key: string, words: seq<string>): string {
    Spaces(2) + (key + [':'] + Spaced(words))
  }

  const FORWARDED := "port="

  function ForwardText(f: Forward): string {
    FORWARDED + Printed(f.ports, '-') + [':'] + f.to
  }

  function ForwardTexts(fs: seq<Forward>): seq<string> {
    seq(|fs|, i requires 0 <= i < |fs| => ForwardText(fs[i]))
  }

  function Tabbed(words: seq<string>): seq<string> {
    seq(|words|, i requires 0 <= i < |words| => ['\t'] + words[i])
  }

  /** The forwarded ports, after their key or, as newer versions have it, one a line below it. */
  function ForwardLines(fs: seq<Forward>, below: bool): seq<string> {
    if below then [KeyLine(FORWARDS, [])] + Tabbed(ForwardTexts(fs)) else [KeyLine(FORWARDS, ForwardTexts(fs))]
  }

  function ReadPart(z: Zone): seq<string> {
    [KeyLine(TARGET, [z.target]), KeyLine(SERVICES, z.services), KeyLine(PORTS, SpecTexts(z.ports))]
  }

  function UnreadPart(z: Zone, below: bool): seq<string> {
    [KeyLine(PROTOCOLS, z.protocols)] + ForwardLines(z.forwards, below) + [KeyLine(SOURCE_PORTS, SpecTexts(z.sourcePorts))]
  }

  /** A line that adds nothing to what is read of a zone. */
  predicate IsIdle(line: string) {
    ReadLine(line) == Other || ReadLine(line) == Rich(false)
  }

  predicate AllIdle(lines: seq<string>) {
    forall i :: 0 <= i < |lines| ==> IsIdle(lines[i])
  }

  predicate AllGaps(gaps: seq<seq<string>>) {
    forall i :: 0 <= i < |gaps| ==> AllIdle(gaps[i])
  }

  /** A zone as it is listed: its own lines in order, with others before, between and after them. */
  datatype Listing = Listing(zone: Zone, below: bool, first: seq<string>, gaps: seq<seq<string>>)

  function Woven<T>(first: seq<T>, lines: seq<T>, gaps: seq<seq<T>>): seq<T>
    requires |gaps| == |lines|
  {
    if lines == [] then first
    else
      var n := |lines| - 1;
      Woven(first, lines[..n], gaps[..n]) + [lines[n]] + gaps[n]
  }

  function ZoneLines(l: Listing): seq<string> {
    ReadPart(l.zone) + UnreadPart(l.zone, l.below)
  }

  function ZoneText(l: Listing): seq<string>
    requires ListingOk(l)
  {
    Woven(l.first, ZoneLines(l), l.gaps)
  }

  lemma {:induction false} JoinIsPlain(words: seq<string>)
    requires words != [] && forall i :: 0 <= i < |words| ==> Word(words[i])
    ensures var s := Join(words, ' ');
            s != "" && s[0] !in SPACE && s[|s| - 1] !in SPACE
  {
    var w := words[0];
    assert w[0] in w && w[|w| - 1] in w;
    if |words| > 1 {
      JoinIsPlain(words[1..]);
      var rest := Join(words[1..], ' ');
      assert Join(words, ' ') == w + [' '] + rest;
    }
  }

  lemma SpacedTrims(words: seq<string>)
    requires words != [] ==> PlainEnds(Join(words, ' '))
    ensures TrimSpace(Spaced(words)) == Join(words, ' ')
  {
    SpacedIsJoin(words);
    if words == [] {
      NothingTrims(SPACE);
    } else {
      PaddedTrims(Spaced(words), Join(words, ' '));
    }
  }

  lemma PaddedTrims(padded: string, s: string)
    requires padded == [' '] + s && PlainEnds(s)
    ensures TrimSpace(padded) == s
  {
    BlankTrims(s);
  }

  /** A line reads back as its key and its words. */
  lemma KeyLineReads(key: string, words: seq<string>)
    requires key != "" && key[0] !in SPACE && ':' !in key
    requires forall i :: 0 <= i < |words| ==> Word(words[i])
    ensures ReadLine(KeyLine(key, words)) == Keyed(key, Join(words, ' '))
  {
    if words != [] { JoinIsPlain(words); }
    SpacedTrims(words);
    EndsPlain(key, words);
    IndentTrims(2, key + [':'] + Spaced(words));
    CutFirst(key, ':', Spaced(words));
  }

  lemma EndsPlain(key: string, words: seq<string>)
    requires key != "" && key[0] !in SPACE
    requires forall i :: 0 <= i < |words| ==> Word(words[i])
    ensures var s := key + [':'] + Spaced(words);
            s != "" && s[0] !in SPACE && s[|s| - 1] !in SPACE
  {
    SpacedIsJoin(words);
    if words != [] {
      JoinIsPlain(words);
      var j := Join(words, ' ');
      var s := key + [':'] + Spaced(words);
      assert s[|s| - 1] == j[|j| - 1];
    }
  }

  lemma KeysPlain(key: string)
    requires key == TARGET || key == SERVICES || key == PORTS
    ensures key != "" && key[0] !in SPACE && ':' !in key
  {
    assert key[0] == 't' || key[0] == 's' || key[0] == 'p';
  }

  predicate AllWords(words: seq<string>) {
    forall i :: 0 <= i < |words| ==> Word(words[i])
  }

  predicate ForwardsOk(fs: seq<Forward>) {
    forall i :: 0 <= i < |fs| ==> Fits(fs[i].ports) && ForwardTo(fs[i])
  }

  /** Where a range is sent on to, after its protocol. */
  predicate ForwardTo(f: Forward) {
    Word(f.proto) && Word(f.to) && HasPrefix(f.to, "proto=" + f.proto + ":")
  }

  predicate ZoneOk(z: Zone) {
    Word(z.target) && AllWords(z.services) && SpecsOk(z.ports) && AllWords(z.protocols) && ForwardsOk(z.forwards)
    && SpecsOk(z.sourcePorts)
  }

  predicate ListingOk(l: Listing) {
    && ZoneOk(l.zone) && AllIdle(l.first)
    && |l.gaps| == |ZoneLines(l)| && AllGaps(l.gaps)
  }

  lemma TargetReads(key: string, target: string)
    requires key == TARGET && Word(target)
    ensures ReadLine(KeyLine(key, [target])) == Target(target)
  {
    KeysPlain(key);
    KeyLineReads(key, [target]);
  }

  lemma ServicesRead(key: string, services: seq<string>)
    requires key == SERVICES && forall i :: 0 <= i < |services| ==> Word(services[i])
    ensures ReadLine(KeyLine(key, services)) == Services(services)
  {
    KeysPlain(key);
    KeyLineReads(key, services);
    FieldsOfJoin(services);
  }

  lemma PortsRead(key: string, specs: seq<string>)
    requires key == PORTS && forall i :: 0 <= i < |specs| ==> Word(specs[i])
    ensures ReadLine(KeyLine(key, specs)) == Ports(specs)
  {
    KeysPlain(key);
    KeyLineReads(key, specs);
    FieldsOfJoin(specs);
  }

  lemma ReadThree(a: string, b: string, c: string)
    ensures ReadLines([a, b, c]) == [ReadLine(a), ReadLine(b), ReadLine(c)]
  {
  }

  // ── Lines that add nothing ────────────────────────────────────────────────

  lemma PartLacks(s: string, i: nat, j: nat, c: char)
    requires c !in s && i <= j <= |s|
    ensures c !in s[i..j] && (j == |s| ==> s[i..] == s[i..j]) && (i == 0 ==> s[..j] == s[i..j])
  {
  }

  lemma TrimmedChars(s: string, cut: set<char>, c: char)
    requires c !in s
    ensures c !in Trim(s, cut)
  {
    var left := TrimLeft(s, cut);
    TrimLeftIs(s, cut);
    TrimRightIs(left, cut);
    PartLacks(s, |s| - |left|, |s|, c);
    PartLacks(left, 0, |TrimRight(left, cut)|, c);
  }

  lemma NoColonIsOther(line: string)
    requires ':' !in line
    ensures ReadLine(line) == Other
  {
    TrimmedChars(line, SPACE, ':');
    CutNothing(TrimSpace(line), ':');
  }

  /** A key that is none of the four. */
  predicate IsOtherKey(key: string) {
    key != TARGET && key != SERVICES && key != PORTS && key != RICH
  }

  lemma OtherKeyed(key: string, value: string)
    requires IsOtherKey(key)
    ensures Keyed(key, value) == Other
  {
  }

  /** A line under any other key adds nothing. */
  lemma OtherKeyIsIdle(key: string, words: seq<string>)
    requires IsOtherKey(key) && key != "" && key[0] !in SPACE && ':' !in key && AllWords(words)
    ensures IsIdle(KeyLine(key, words))
  {
    KeyLineReads(key, words);
    OtherKeyed(key, Join(words, ' '));
  }

  lemma IgnoredKeys(key: string)
    requires key == PROTOCOLS || key == FORWARDS || key == SOURCE_PORTS
    ensures IsOtherKey(key) && key != "" && key[0] !in SPACE && ':' !in key
  {
    assert |key| > 8 && |key| != 10 && (key[0] == 'p' || key[0] == 'f' || key[0] == 's');
  }

  lemma IgnoredLine(key: string, words: seq<string>)
    requires (key == PROTOCOLS || key == FORWARDS || key == SOURCE_PORTS) && AllWords(words)
    ensures IsIdle(KeyLine(key, words))
  {
    IgnoredKeys(key);
    OtherKeyIsIdle(key, words);
  }

  lemma ForwardedKey(forwarded: string, ports: string)
    requires forwarded == FORWARDED && ':' !in ports && Word(ports)
    ensures IsOtherKey(forwarded + ports) && Word(forwarded + ports) && ':' !in forwarded + ports
  {
    assert (forwarded + ports)[0] == 'p' && (forwarded + ports)[4] == '=';
  }

  lemma TabTrims(s: string)
    requires PlainEnds(s)
    ensures TrimSpace(['\t'] + s) == s
  {
    assert (['\t'] + s)[1..] == s;
    assert TrimLeft(['\t'] + s, SPACE) == TrimLeft(s, SPACE);
    TrimPlain(s, SPACE);
  }

  lemma ForwardReads(f: Forward)
    requires Fits(f.ports) && Word(f.to)
    ensures Word(ForwardText(f)) && IsIdle(['\t'] + ForwardText(f))
  {
    var ports := Printed(f.ports, '-');
    PrintedChars(f.ports, '-');
    PrintedPlain(ports);
    ForwardedKey(FORWARDED, ports);
    var key := FORWARDED + ports;
    KeyedWord(key, f.to);
    TabTrims(key + [':'] + f.to);
    CutFirst(key, ':', f.to);
    OtherKeyed(key, TrimSpace(f.to));
  }

  lemma KeyedWord(key: string, to: string)
    requires Word(key) && Word(to)
    ensures Word(key + [':'] + to) && PlainEnds(key + [':'] + to)
  {
    assert key[0] in key && to[|to| - 1] in to;
  }

  lemma ForwardsAreWords(fs: seq<Forward>)
    requires ForwardsOk(fs)
    ensures AllWords(ForwardTexts(fs))
  {
    forall i | 0 <= i < |fs| ensures Word(ForwardTexts(fs)[i]) { ForwardReads(fs[i]); }
  }

  lemma ForwardsBelowAreIdle(fs: seq<Forward>)
    requires ForwardsOk(fs)
    ensures AllIdle(Tabbed(ForwardTexts(fs)))
  {
    forall i | 0 <= i < |fs| ensures IsIdle(Tabbed(ForwardTexts(fs))[i]) { ForwardReads(fs[i]); }
  }

  lemma OneIdle(line: string)
    requires IsIdle(line)
    ensures AllIdle([line])
  {
  }

  lemma ForwardsAreIdle(fs: seq<Forward>, below: bool)
    requires ForwardsOk(fs)
    ensures AllIdle(ForwardLines(fs, below))
  {
    var words := if below then [] else ForwardTexts(fs);
    ForwardsAreWords(fs);
    IgnoredLine(FORWARDS, words);
    OneIdle(KeyLine(FORWARDS, words));
    if below {
      ForwardsBelowAreIdle(fs);
      IdleConcat([KeyLine(FORWARDS, [])], Tabbed(ForwardTexts(fs)));
    }
  }

  lemma IdleConcat(a: seq<string>, b: seq<string>)
    requires AllIdle(a) && AllIdle(b)
    ensures AllIdle(a + b)
  {
  }

  lemma UnreadIsIdle(z: Zone, below: bool)
    requires ZoneOk(z)
    ensures AllIdle(UnreadPart(z, below))
  {
    var first, last := KeyLine(PROTOCOLS, z.protocols), KeyLine(SOURCE_PORTS, SpecTexts(z.sourcePorts));
    IgnoredLine(PROTOCOLS, z.protocols);
    OneIdle(first);
    SpecsAreWords(z.sourcePorts);
    IgnoredLine(SOURCE_PORTS, SpecTexts(z.sourcePorts));
    OneIdle(last);
    ForwardsAreIdle(z.forwards, below);
    IdleConcat([first], ForwardLines(z.forwards, below));
    IdleConcat([first] + ForwardLines(z.forwards, below), [last]);
  }

  lemma {:induction false} OthersAddNothing(before: seq<ZoneLine>, more: seq<ZoneLine>, resolve: Resolve)
    requires AllOther(more)
    ensures ZoneOf(before + more, resolve) == ZoneOf(before, resolve)
  {
    if more == [] {
      assert before + more == before;
    } else {
      var n := |more| - 1;
      assert (before + more)[..|before| + n] == before + more[..n];
      OthersAddNothing(before, more[..n], resolve);
    }
  }

  predicate AllOther(lines: seq<ZoneLine>) {
    forall i :: 0 <= i < |lines| ==> lines[i] == Other || lines[i] == Rich(false)
  }

  lemma IdleRead(lines: seq<string>)
    requires AllIdle(lines)
    ensures AllOther(ReadLines(lines))
  {
    forall i | 0 <= i < |lines|
      ensures ReadLines(lines)[i] == Other || ReadLines(lines)[i] == Rich(false)
    {
      assert IsIdle(lines[i]);
    }
  }

  lemma EachConcat<S, T>(a: seq<S>, b: seq<S>, f: S -> T)
    ensures Each(a + b, f) == Each(a, f) + Each(b, f)
  {
  }

  lemma IdleAddsNothing(lines: seq<string>, more: seq<string>, resolve: Resolve)
    requires AllIdle(more)
    ensures ZoneOf(ReadLines(lines + more), resolve) == ZoneOf(ReadLines(lines), resolve)
  {
    IdleRead(more);
    EachConcat(lines, more, ReadLine);
    OthersAddNothing(ReadLines(lines), ReadLines(more), resolve);
  }

  function EachGap<S, T>(gaps: seq<seq<S>>, f: S -> T): seq<seq<T>> {
    seq(|gaps|, i requires 0 <= i < |gaps| => Each(gaps[i], f))
  }

  lemma {:induction false} EachWoven<S, T>(first: seq<S>, lines: seq<S>, gaps: seq<seq<S>>, f: S -> T)
    requires |gaps| == |lines|
    ensures Each(Woven(first, lines, gaps), f) == Woven(Each(first, f), Each(lines, f), EachGap(gaps, f))
  {
    if lines != [] {
      var n := |lines| - 1;
      var upper := Woven(first, lines[..n], gaps[..n]);
      EachWoven(first, lines[..n], gaps[..n], f);
      EachConcat(upper, [lines[n]], f);
      EachConcat(upper + [lines[n]], gaps[n], f);
      assert Each(lines, f)[..n] == Each(lines[..n], f) && EachGap(gaps, f)[..n] == EachGap(gaps[..n], f);
      assert Each([lines[n]], f) == [f(lines[n])];
    }
  }

  lemma {:induction false} WovenAddsNothing(first: seq<ZoneLine>, lines: seq<ZoneLine>, gaps: seq<seq<ZoneLine>>, resolve: Resolve)
    requires |gaps| == |lines| && AllOther(first) && forall i :: 0 <= i < |gaps| ==> AllOther(gaps[i])
    ensures ZoneOf(Woven(first, lines, gaps), resolve) == ZoneOf(lines, resolve)
  {
    if lines == [] {
      OthersAddNothing([], first, resolve);
      assert [] + first == first;
    } else {
      var n := |lines| - 1;
      var upper := Woven(first, lines[..n], gaps[..n]);
      WovenAddsNothing(first, lines[..n], gaps[..n], resolve);
      OthersAddNothing(upper + [lines[n]], gaps[n], resolve);
      assert (upper + [lines[n]])[..|upper|] == upper;
    }
  }

  lemma GapsRead(gaps: seq<seq<string>>)
    requires AllGaps(gaps)
    ensures forall i :: 0 <= i < |gaps| ==> AllOther(EachGap(gaps, ReadLine)[i])
  {
    forall i | 0 <= i < |gaps| ensures AllOther(EachGap(gaps, ReadLine)[i]) { IdleRead(gaps[i]); }
  }

  /** Whatever idle lines stand before, between and after them, a zone's lines read the same. */
  lemma WovenReads(first: seq<string>, lines: seq<string>, gaps: seq<seq<string>>, resolve: Resolve)
    requires |gaps| == |lines| && AllIdle(first) && AllGaps(gaps)
    ensures ZoneOf(ReadLines(Woven(first, lines, gaps)), resolve) == ZoneOf(ReadLines(lines), resolve)
  {
    EachWoven(first, lines, gaps, ReadLine);
    IdleRead(first);
    GapsRead(gaps);
    WovenAddsNothing(ReadLines(first), ReadLines(lines), EachGap(gaps, ReadLine), resolve);
  }

  // ── A whole zone ──────────────────────────────────────────────────────────

  lemma ReadPartReads(z: Zone)
    requires ZoneOk(z)
    ensures ReadLines(ReadPart(z)) == [Target(z.target), Services(z.services), Ports(SpecTexts(z.ports))]
  {
    TargetReads(TARGET, z.target);
    ServicesRead(SERVICES, z.services);
    SpecsAreWords(z.ports);
    PortsRead(PORTS, SpecTexts(z.ports));
    ReadThree(KeyLine(TARGET, [z.target]), KeyLine(SERVICES, z.services), KeyLine(PORTS, SpecTexts(z.ports)));
  }

  function Policy(target: string): string {
    if target == "ACCEPT" then "allow" else if target == "DROP" then "deny" else "reject"
  }

  lemma ThreeLines(a: ZoneLine, b: ZoneLine, c: ZoneLine, resolve: Resolve)
    ensures ZoneOf([a, b, c], resolve)
            == AddLine(AddLine(AddLine(ZoneOf([], resolve), a, resolve), b, resolve), c, resolve)
  {
    ZoneSnoc([a, b, c], 0, resolve);
    ZoneSnoc([a, b, c], 1, resolve);
    ZoneSnoc([a, b, c], 2, resolve);
    assert [a, b, c][..0] == [] && [a, b, c][..3] == [a, b, c];
  }

  function ReportFor(z: Zone, resolve: Resolve, at: int): Report {
    Report("firewalld", true, Policy(z.target), AllServices(z.services, resolve) + RulesOf(SpecTexts(z.ports)), false, at, "")
  }

  lemma ReadPartReport(z: Zone, resolve: Resolve)
    requires ZoneOk(z)
    ensures ZoneOf(ReadLines(ReadPart(z)), resolve) == ReportFor(z, resolve, 0)
  {
    ReadPartReads(z);
    ThreeLines(Target(z.target), Services(z.services), Ports(SpecTexts(z.ports)), resolve);
    LinesAdd(ZoneOf([], resolve), z.target, z.services, SpecTexts(z.ports), resolve);
  }

  /** Of a whole listing only the target, the services and the ports are read. */
  lemma ListingReads(l: Listing, resolve: Resolve)
    requires ListingOk(l)
    ensures ZoneOf(ReadLines(ZoneText(l)), resolve) == ReportFor(l.zone, resolve, 0)
  {
    WovenReads(l.first, ZoneLines(l), l.gaps, resolve);
    UnreadIsIdle(l.zone, l.below);
    IdleAddsNothing(ReadPart(l.zone), UnreadPart(l.zone, l.below), resolve);
    ReadPartReport(l.zone, resolve);
  }

  lemma LinesAdd(fw: Report, target: string, services: seq<string>, specs: seq<string>, resolve: Resolve)
    requires fw == Report("firewalld", true, "reject", [], false, 0, "")
    ensures AddLine(AddLine(AddLine(fw, Target(target), resolve), Services(services), resolve), Ports(specs), resolve)
            == fw.(defaultIncoming := Policy(target), rules := AllServices(services, resolve) + RulesOf(specs))
  {
    assert [] + AllServices(services, resolve) == AllServices(services, resolve);
  }

  lemma RulesHit(z: Zone, offers: seq<seq<Spec>>, resolve: Resolve, port: int, proto: string)
    requires ZoneOk(z) && AllOffer(resolve, z.services, offers)
    ensures var rules := AllServices(z.services, resolve) + RulesOf(SpecTexts(z.ports));
            && (SomeHits(rules, port, proto) <==> Covers(z.ports, port, proto) || SomeCovers(offers, port, proto))
            && (forall r <- rules :: r.app == "") && OnlyLetsIn(rules)
  {
    ServicesLetIn(z.services, resolve);
    ServicesHit(z.services, offers, resolve, port, proto);
    SpecsHit(z.ports, port, proto);
    HitsConcat(AllServices(z.services, resolve), RulesOf(SpecTexts(z.ports)), port, proto);
  }

  /** What a zone's listing says of a port, its services being known. */
  predicate Listed(z: Zone, offers: seq<seq<Spec>>, port: int, proto: string) {
    z.target == "ACCEPT" || Covers(z.ports, port, proto) || SomeCovers(offers, port, proto)
  }

  /** What is listed of a zone, whatever else stands around it, is what is read: with its services known, a
      port is open exactly when the target lets everything in, or a range listed or a service's range holds
      it; and otherwise it is blocked. */
  lemma ZoneOpensExactly(l: Listing, offers: seq<seq<Spec>>, resolve: Resolve, fw: Report,
                         heartbeat: int, at: int, port: int, proto: string, now: int)
    requires ListingOk(l) && AllOffer(resolve, l.zone.services, offers)
    requires fw == ZoneOf(ReadLines(ZoneText(l)), resolve).(checkedAt := at) && Current(Some(heartbeat), Some(fw), now)
    ensures var v := VerdictOf(Some(heartbeat), Some(fw), port, proto, now);
            && (v.state == Open <==> Listed(l.zone, offers, port, proto))
            && (v.state == Open || v.state == Blocked)
  {
    ListingReads(l, resolve);
    RulesHit(l.zone, offers, resolve, port, proto);
    LetInVerdict(fw, heartbeat, port, proto, now);
    TargetPolicy(l.zone.target);
  }

  lemma TargetPolicy(target: string)
    ensures Policy(target) == "allow" <==> target == "ACCEPT"
  {
  }

  lemma LetInVerdict(fw: Report, heartbeat: int, port: int, proto: string, now: int)
    requires Current(Some(heartbeat), Some(fw), now) && fw.active && fw.tool != "none" && !fw.unparsed
    requires OnlyLetsIn(fw.rules) && forall r <- fw.rules :: r.app == ""
    ensures VerdictOf(Some(heartbeat), Some(fw), port, proto, now).state
            == if SomeHits(fw.rules, port, proto) || fw.defaultIncoming == "allow" then Open else Blocked
  {
    assert forall i :: 0 <= i < |fw.rules| ==> fw.rules[i] in fw.rules;
    LetInWalk(fw.rules, port, proto);
  }

  // ── What is listed and not read ───────────────────────────────────────────

  predicate Forwarded(fs: seq<Forward>, port: int, proto: string) {
    exists i :: 0 <= i < |fs| && fs[i].proto == proto && InRange(fs[i].ports, port)
  }

  /** Who a zone without rich rules lets in: a packet for `port` that comes from a port of its sender. */
  predicate ZoneAdmits(z: Zone, offers: seq<seq<Spec>>, port: int, proto: string, from: int) {
    || Listed(z, offers, port, proto)
    || proto in z.protocols || Forwarded(z.forwards, port, proto) || Covers(z.sourcePorts, from, proto)
  }

  /** No range of source ports of the protocol has a port in it. */
  predicate NoSourcePort(xs: seq<Spec>, proto: string) {
    forall i :: 0 <= i < |xs| && xs[i].1 == proto ==> !HasPorts(xs[i].0)
  }

  predicate HasPorts(x: Range) {
    x.Span? ==> x.lo <= x.hi
  }

  lemma SomePort(x: Range)
    requires HasPorts(x)
    ensures exists p: int :: InRange(x, p)
  {
    assert InRange(x, if x.Port? then x.port else x.lo);
  }

  lemma NoSourcePortIff(xs: seq<Spec>, proto: string)
    ensures NoSourcePort(xs, proto) <==> forall from: int :: !Covers(xs, from, proto)
  {
    if !NoSourcePort(xs, proto) {
      var i :| 0 <= i < |xs| && xs[i].1 == proto && HasPorts(xs[i].0);
      SomePort(xs[i].0);
      var from: int :| InRange(xs[i].0, from);
      assert Covers(xs, from, proto);
    }
  }

  /** What the zone's list does not say of a packet. */
  predicate NoneUnread(z: Zone, port: int, proto: string) {
    proto !in z.protocols && !Forwarded(z.forwards, port, proto) && NoSourcePort(z.sourcePorts, proto)
  }

  ghost predicate AdmitsAll(z: Zone, offers: seq<seq<Spec>>, port: int, proto: string) {
    forall from: int :: ZoneAdmits(z, offers, port, proto, from)
  }

  ghost predicate AdmitsNone(z: Zone, offers: seq<seq<Spec>>, port: int, proto: string) {
    forall from: int :: !ZoneAdmits(z, offers, port, proto, from)
  }

  lemma AdmitsOtherwise(z: Zone, offers: seq<seq<Spec>>, port: int, proto: string)
    ensures Listed(z, offers, port, proto) ==> AdmitsAll(z, offers, port, proto)
    ensures !Listed(z, offers, port, proto) ==> (AdmitsNone(z, offers, port, proto) <==> NoneUnread(z, port, proto))
  {
    NoSourcePortIff(z.sourcePorts, proto);
    if AdmitsNone(z, offers, port, proto) {
      assert !ZoneAdmits(z, offers, port, proto, 0);
      assert forall from: int :: Covers(z.sourcePorts, from, proto) ==> ZoneAdmits(z, offers, port, proto, from);
    }
  }

  /** An open port is open to every sender. A blocked one is closed to every sender exactly when the zone
      lets in no whole protocol, forwards nothing and goes by no source port for it, none of which is
      read. */
  lemma ZoneVerdictIsTrueIff(l: Listing, offers: seq<seq<Spec>>, resolve: Resolve, fw: Report,
                             heartbeat: int, at: int, port: int, proto: string, now: int)
    requires ListingOk(l) && AllOffer(resolve, l.zone.services, offers)
    requires fw == ZoneOf(ReadLines(ZoneText(l)), resolve).(checkedAt := at) && Current(Some(heartbeat), Some(fw), now)
    ensures var state := VerdictOf(Some(heartbeat), Some(fw), port, proto, now).state;
            && (state == Open ==> AdmitsAll(l.zone, offers, port, proto))
            && (state == Blocked ==> (AdmitsNone(l.zone, offers, port, proto) <==> NoneUnread(l.zone, port, proto)))
  {
    ZoneOpensExactly(l, offers, resolve, fw, heartbeat, at, port, proto, now);
    AdmitsOtherwise(l.zone, offers, port, proto);
  }

  /** A zone that lets in a whole protocol: every port of it is called blocked, and every packet of it is
      let in. */
  lemma ProtocolsAreMissed(l: Listing, resolve: Resolve, port: int, proto: string, from: int)
    requires Word(proto)
    requires l == Listing(Zone("default", [], [], [proto], [], []), false, [], seq(6, _ => []))
    ensures ListingOk(l) && ZoneAdmits(l.zone, [], port, proto, from)
    ensures VerdictOf(Some(0), Some(ZoneOf(ReadLines(ZoneText(l)), resolve)), port, proto, 0).state == Blocked
  {
    DefaultTarget(l.zone.target);
    var fw := ZoneOf(ReadLines(ZoneText(l)), resolve);
    ListingReads(l, resolve);
    ZoneOpensExactly(l, [], resolve, fw, 0, 0, port, proto, 0);
  }

  lemma DefaultTarget(target: string)
    requires target == "default"
    ensures Word(target) && target != "ACCEPT"
  {
    assert target[0] == 'd';
  }

  // ── Rich rules ────────────────────────────────────────────────────────────

  /** A zone is known to hold rich rules exactly when some line names them after its key. */
  lemma {:induction false} ZoneUnparsedIff(lines: seq<ZoneLine>, resolve: Resolve)
    ensures ZoneOf(lines, resolve).unparsed <==> Rich(true) in lines
  {
    if lines != [] {
      ZoneUnparsedIff(lines[..|lines| - 1], resolve);
      assert lines == lines[..|lines| - 1] + [lines[|lines| - 1]];
    }
  }

  /** A zone with rich rules never makes a port blocked or restricted. It is open exactly when a rule of
      the zone's own lets the port in and no service before it was unresolved, and unknown otherwise; and
      open is exactly when a rich rule can make it wrong. */
  lemma RichZoneExactly<A(!new)>(lines: seq<ZoneLine>, resolve: Resolve, heartbeat: int, at: int, port: int, proto: string, now: int, addr: A)
    requires Current(Some(heartbeat), Some(ZoneOf(lines, resolve).(checkedAt := at)), now)
    requires Rich(true) in lines
    ensures var fw := ZoneOf(lines, resolve).(checkedAt := at);
            var v := VerdictOf(Some(heartbeat), Some(fw), port, proto, now);
            && (v.state == Open || v.state == Unknown)
            && (v.state == Open <==> exists k: nat :: StopsAt(fw.rules, k, port, proto))
            && (AlwaysHolds<A>(fw, v, port, proto) <==> !exists k: nat :: StopsAt(fw.rules, k, port, proto))
  {
    ZoneLetsIn(lines, resolve);
    ZoneUnparsedIff(lines, resolve);
    UnparsedExactly<A>(Some(heartbeat), ZoneOf(lines, resolve).(checkedAt := at), port, proto, now, addr);
  }

  /** A zone that lists one range and a rich rule on which the verdict is wrong: the port is called open,
      and with a rich rule that rejects everyone, which firewalld looks at first, nobody is let in. */
  lemma RichZoneOpenIsWrong<A>(n: Net<A>, x: Range, proto: string, port: int, resolve: Resolve, addr: A)
    requires Fits(x) && InRange(x, port)
    ensures var fw := ZoneOf([Ports([Printed(x, '-') + ['/'] + proto]), Rich(true)], resolve);
            var v := VerdictOf(Some(0), Some(fw), port, proto, 0);
            && v.state == Open && !Accepts(n, Hidden(fw, [Everyone("reject")]), addr, port, proto)
            && Decider(n, Hidden(fw, [Everyone("reject")]).rules, addr, port, proto) == Some(Everyone("reject"))
  {
    var spec := Printed(x, '-') + ['/'] + proto;
    OneRangeZone(spec, resolve);
    FirewalldMeansRange(x, proto, port);
    OpenAtOnce(PortRule(spec), port, proto);
    HiddenDecides(n, ZoneOf([Ports([spec]), Rich(true)], resolve), "reject", addr, port, proto);
  }

  lemma OneRangeZone(spec: string, resolve: Resolve)
    ensures ZoneOf([Ports([spec]), Rich(true)], resolve) == Report("firewalld", true, "reject", [PortRule(spec)], true, 0, "")
  {
    var lines := [Ports([spec]), Rich(true)];
    assert lines[..1] == [Ports([spec])] && [Ports([spec])][..0] == [];
    assert [] + RulesOf([spec]) == [PortRule(spec)];
    assert ZoneOf([], resolve).rules == [];
    assert ZoneOf([Ports([spec])], resolve) == Report("firewalld", true, "reject", [PortRule(spec)], false, 0, "");
  }

  lemma OpenAtOnce(r: Rule, port: int, proto: string)
    requires Hits(r, port, proto) && r.from == "any" && Allows(r)
    ensures VerdictOf(Some(0), Some(Report("firewalld", true, "reject", [r], true, 0, "")), port, proto, 0).state == Open
  {
    assert StopsAt([r], 0, port, proto);
    StopSettles([r], [], 0, port, proto);
  }

  // ── Rich rules under their heading ────────────────────────────────────────

  /** A key alone in its line, as firewalld heads a list. */
  lemma KeyAlone(key: string)
    requires key != "" && key[0] !in SPACE && ':' !in key
    ensures ReadLine(key + [':']) == Keyed(key, "")
  {
    var line := key + [':'];
    TrimPlain(line, SPACE);
    assert line == key + [':'] + "";
    CutFirst(key, ':', "");
  }

  lemma RichKey(key: string)
    requires key == RICH
    ensures key != "" && key[0] !in SPACE && ':' !in key && Keyed(key, "") == Rich(false)
  {
    assert key[0] == 'r';
  }

  lemma HeadingAlone(key: string)
    requires key == RICH
    ensures ReadLine(key + [':']) == Rich(false)
  {
    RichKey(key);
    KeyAlone(key);
  }

  const RULES := "rule"

  /** A line as a rich rule is listed below the heading. */
  predicate IsRichRule(line: string) {
    HasPrefix(TrimSpace(line), RULES)
  }

  lemma {:induction false} CutHead(s: string, sep: char)
    requires Cut(s, sep).Some?
    ensures var key := Cut(s, sep).value.0;
            |key| < |s| && key == s[..|key|] && s[|key|] == sep
  {
    if s[0] != sep { CutHead(s[1..], sep); }
  }

  lemma RuleKeyIsOther(s: string, rule: string)
    requires rule == RULES && HasPrefix(s, rule) && Cut(s, ':').Some?
    ensures IsOtherKey(Cut(s, ':').value.0)
  {
    CutHead(s, ':');
    var key := Cut(s, ':').value.0;
    assert s[0] == rule[0] == 'r' && s[1] == rule[1] == 'u' && s[2] == rule[2] == 'l' && s[3] == rule[3] == 'e';
    assert |key| >= 4 && key[0] == 'r' && key[1] == 'u';
  }

  /** Whatever follows its first word, an address with colons in it too. */
  lemma RichRuleIsIdle(line: string)
    requires IsRichRule(line)
    ensures IsIdle(line)
  {
    var s := TrimSpace(line);
    if Cut(s, ':').Some? {
      RuleKeyIsOther(s, RULES);
      OtherKeyed(Cut(s, ':').value.0, TrimSpace(Cut(s, ':').value.1));
    }
  }

  predicate AllRichRules(lines: seq<string>) {
    forall i :: 0 <= i < |lines| ==> IsRichRule(lines[i])
  }

  lemma RichRulesAreIdle(lines: seq<string>)
    requires AllRichRules(lines)
    ensures AllIdle(lines)
  {
    forall i | 0 <= i < |lines| ensures IsIdle(lines[i]) { RichRuleIsIdle(lines[i]); }
  }

  /** Rich rules listed one a line under their heading are not noticed: the report is the one made
      without them, and says there are none. */
  lemma RichRulesBelowAreMissed(before: seq<string>, key: string, below: seq<string>, resolve: Resolve)
    requires key == RICH && AllRichRules(below)
    ensures ZoneOf(ReadLines(before + [key + [':']] + below), resolve) == ZoneOf(ReadLines(before), resolve)
  {
    HeadingAlone(key);
    OneIdle(key + [':']);
    IdleAddsNothing(before, [key + [':']], resolve);
    RichRulesAreIdle(below);
    IdleAddsNothing(before + [key + [':']], below, resolve);
  }

  /** A zone is active, so any verdict on it but unknown is one a rich rule left out can make wrong. */
  lemma MissedRulesCanMatter<A(!new)>(lines: seq<ZoneLine>, resolve: Resolve, heartbeat: int, at: int, port: int, proto: string,
                                      now: int, addr: A)
    ensures var fw := ZoneOf(lines, resolve).(checkedAt := at);
            var v := VerdictOf(Some(heartbeat), Some(fw), port, proto, now);
            v.state == Unknown <==> AlwaysHolds<A>(fw, v, port, proto)
  {
    ZoneLetsIn(lines, resolve);
    var fw := ZoneOf(lines, resolve).(checkedAt := at);
    var v := VerdictOf(Some(heartbeat), Some(fw), port, proto, now);
    if v.state != Unknown { OneHiddenRule<A>(fw, v, port, proto, addr); }
  }
}
