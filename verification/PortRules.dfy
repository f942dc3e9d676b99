/** How a destination ufw prints becomes a rule, and exactly when the rule means it. */
module PortRules {
  import opened Prelude
  import opened Text
  import opened Requests
  import opened PortSpec
  import opened Firewall

  // ── Words ─────────────────────────────────────────────────────────────────

  function WordEnd(s: string): (n: nat)
    ensures n <= |s| && forall i :: 0 <= i < n ==> s[i] !in SPACE
    ensures n < |s| ==> s[n] in SPACE
  {
    if s == "" || s[0] in SPACE then 0 else 1 + WordEnd(s[1..])
  }

  /** `strings.Fields`. */
  function Fields(s: string): seq<string>
    decreases |s|
  {
    if s == "" then []
    else if s[0] in SPACE then Fields(s[1..])
    else [s[..WordEnd(s)]] + Fields(s[WordEnd(s)..])
  }

  predicate Word(s: string) {
    s != "" && forall c <- s :: c !in SPACE
  }

  lemma WordAlone(w: string)
    requires Word(w)
    ensures Fields(w) == [w]
  {
    WholeWord(w, "");
    assert w + "" == w;
  }

  lemma {:induction false} WordEndIs(s: string, n: nat)
    requires n <= |s| && (forall i :: 0 <= i < n ==> s[i] !in SPACE) && (n < |s| ==> s[n] in SPACE)
    ensures WordEnd(s) == n
  {
    if n > 0 { WordEndIs(s[1..], n - 1); }
  }

  lemma WholeWord(w: string, rest: string)
    requires Word(w) && (rest == "" || rest[0] in SPACE)
    ensures Fields(w + rest) == [w] + Fields(rest)
  {
    var s := w + rest;
    assert forall i :: 0 <= i < |w| ==> s[i] == w[i] && w[i] in w;
    assert rest != "" ==> s[|w|] == rest[0];
    WordEndIs(s, |w|);
    assert s[..|w|] == w && s[|w|..] == rest;
  }

  lemma TwoWords(a: string, b: string)
    requires Word(a) && Word(b)
    ensures Fields(a + ([' '] + b)) == [a, b]
  {
    WholeWord(a, [' '] + b);
    WordAlone(b);
    assert ([' '] + b)[1..] == b;
  }

  // ── Rules ─────────────────────────────────────────────────────────────────

  type Resolve = string -> string

  function Ported(r: Rule, spec: string): Rule {
    match Cut(spec, '/')
    case None => r.(ports := spec, proto := "")
    case Some((ports, proto)) => r.(ports := ports, proto := proto)
  }

  /** `fillTo`: the last word of the destination holds the ports, or the words name a profile. */
  function FillTo(r: Rule, to: string, resolve: Resolve): Rule {
    var fields := Fields(to);
    if fields == [] || fields[0] == "Anywhere" then r
    else
      var spec := fields[|fields| - 1];
      if spec != "" && IsDigit(spec[0]) then Ported(r, spec)
      else
        var name := Join(fields, ' ');
        if resolve(name) != "" then Ported(r, resolve(name)) else r.(app := name)
  }

  // ── The ports they stand for ──────────────────────────────────────────────

  predicate IsProto(proto: string) {
    proto == "tcp" || proto == "udp"
  }

  lemma SpecCharsPlain(s: string)
    requires forall c <- s :: SpecChar(c)
    ensures '/' !in s && forall c <- s :: c !in SPACE
  {
  }

  lemma ProtoPlain(proto: string)
    requires IsProto(proto)
    ensures Word(proto)
  {
  }

  lemma ListWord(rs: seq<Range>, proto: string)
    requires rs != [] && IsProto(proto)
    ensures Word(PrintList(rs)) && Word(PrintList(rs) + ['/'] + proto)
    ensures '/' !in PrintList(rs)
  {
    ListChars(rs);
    SpecCharsPlain(PrintList(rs));
    ProtoPlain(proto);
    WordsJoin(PrintList(rs), proto);
  }

  lemma WordsJoin(a: string, b: string)
    requires Word(a) && Word(b)
    ensures Word(a + ['/'] + b)
  {
  }

  lemma NotAnywhere(s: string)
    requires s != "" && IsDigit(s[0])
    ensures s != "Anywhere"
  {
  }

  lemma FillWord(r: Rule, to: string, spec: string, resolve: Resolve)
    requires Fields(to) != [] && Fields(to)[0] != "Anywhere" && Fields(to)[|Fields(to)| - 1] == spec
    requires spec != "" && IsDigit(spec[0])
    ensures FillTo(r, to, resolve) == Ported(r, spec)
  {
  }

  /** ufw's own form: the rule made from a printed list of ports and ranges, with a protocol or without
      and after an address or not, stands for exactly their union and that protocol. */
  lemma UfwMeansUnion(r: Rule, address: Option<string>, rs: seq<Range>, proto: Option<string>, resolve: Resolve, port: int)
    requires rs != [] && forall x <- rs :: Fits(x)
    requires proto.Some? ==> IsProto(proto.value)
    requires address.Some? ==> Word(address.value) && address.value != "Anywhere"
    ensures var spec := if proto.Some? then PrintList(rs) + ['/'] + proto.value else PrintList(rs);
            var to := if address.Some? then address.value + ([' '] + spec) else spec;
            var rule := FillTo(r, to, resolve);
            && rule == r.(ports := rule.ports, proto := if proto.Some? then proto.value else "")
            && (SpecHas(rule.ports, port) <==> exists x <- rs :: InRange(x, port))
  {
    var list := PrintList(rs);
    var spec := if proto.Some? then list + ['/'] + proto.value else list;
    var to := if address.Some? then address.value + ([' '] + spec) else spec;
    ListChars(rs);
    ListWord(rs, if proto.Some? then proto.value else "tcp");
    assert spec[0] == list[0];
    NotAnywhere(spec);
    if address.Some? { TwoWords(address.value, spec); } else { WordAlone(spec); }
    FillWord(r, to, spec, resolve);
    if proto.Some? { CutFirst(list, '/', proto.value); } else { CutNothing(list, '/'); }
    ListMeansUnion(rs, port);
  }

  // ── Destinations ──────────────────────────────────────────────────────────

  /** An address of the host, or a range of them by its mask. */
  datatype Address = Address(host: string, bits: Option<nat>)

  /** Where a rule lets in to: an address or any, ports or all, a protocol or any. */
  datatype Destination = Destination(address: Option<Address>, ports: seq<Range>, proto: Option<string>)

  predicate IsHostChar(c: char) {
    IsHex(c) || c == '.' || c == ':'
  }

  /** What addresses of either family look like: hexadecimal digits with a dot or two colons. */
  predicate IsHost(s: string) {
    s != "" && (forall c <- s :: IsHostChar(c)) && ('.' in s || ':' in s)
    && (':' in s ==> Cut(s, ':').Some? && ':' in Cut(s, ':').value.1)
  }

  predicate WellFormed(d: Destination) {
    && (d.address.Some? ==> IsHost(d.address.value.host))
    && (forall x <- d.ports :: Fits(x)) && (d.proto.Some? ==> IsProto(d.proto.value))
  }

  function Slashed(text: string, more: Option<string>): string {
    if more.Some? then text + ['/'] + more.value else text
  }

  function AddressText(a: Address): string {
    Slashed(a.host, if a.bits.Some? then Some(Itoa(a.bits.value)) else None)
  }

  /** A destination as ufw prints it. */
  function DestinationText(d: Destination): string {
    if d.ports == [] then Slashed(if d.address.Some? then AddressText(d.address.value) else "Anywhere", d.proto)
    else
      var spec := Slashed(PrintList(d.ports), d.proto);
      if d.address.Some? then AddressText(d.address.value) + ([' '] + spec) else spec
  }

  /** Which addresses, as they are printed, hold the one a packet is for. */
  type Holds = string -> bool

  predicate InSome(rs: seq<Range>, port: int) {
    exists x <- rs :: InRange(x, port)
  }

  predicate OfPorts(d: Destination, port: int, proto: string) {
    (d.proto.None? || d.proto.value == proto) && (d.ports == [] || InSome(d.ports, port))
  }

  predicate OfAddress(d: Destination, holds: Holds) {
    d.address.Some? ==> holds(AddressText(d.address.value))
  }

  /** A packet is for the destination. */
  predicate Reaches(d: Destination, holds: Holds, port: int, proto: string) {
    OfAddress(d, holds) && OfPorts(d, port, proto)
  }

  /** A rule hits exactly the packets for the destination. */
  ghost predicate Means(r: Rule, d: Destination) {
    forall holds: Holds, port, proto :: Hits(r, port, proto) <==> Reaches(d, holds, port, proto)
  }

  /** Only ranges that begin after they end, in which there is no port. */
  predicate NamesNothing(d: Destination) {
    d.ports != [] && forall x <- d.ports :: x.Span? && x.lo > x.hi
  }

  /** No address, and ports or nothing else. */
  predicate IsPlainDest(d: Destination) {
    d.address.None? && (d.ports != [] || d.proto.None?)
  }

  lemma SlashedWord(text: string, more: Option<string>)
    requires Word(text) && (more.Some? ==> Word(more.value))
    ensures Word(Slashed(text, more)) && Slashed(text, more)[0] == text[0]
  {
  }

  lemma DigitsAreWord(n: nat)
    ensures Word(Itoa(n))
  {
    ItoaDigits(n);
    forall c | c in Itoa(n)
      ensures c !in SPACE
    {
      assert IsDigit(c);
    }
  }

  lemma HostIsWord(s: string)
    requires IsHost(s)
    ensures Word(s) && '/' !in s && ',' !in s && s[0] != 'A'
  {
    assert s[0] in s;
  }

  lemma AddressIsWord(a: Address)
    requires IsHost(a.host)
    ensures Word(AddressText(a)) && AddressText(a)[0] == a.host[0]
  {
    HostIsWord(a.host);
    if a.bits.Some? { DigitsAreWord(a.bits.value); }
    SlashedWord(a.host, if a.bits.Some? then Some(Itoa(a.bits.value)) else None);
  }

  lemma NotANumber(s: string)
    requires s != "" && (forall c <- s :: IsHostChar(c)) && ('.' in s || ':' in s)
    ensures Number(s).None?
  {
    assert s[0] in s && s[|s| - 1] in s;
    TrimPlain(s, SPACE);
    AtoiNone(s);
  }

  lemma AtoiNone(s: string)
    requires s != "" && s[0] != '-' && s[0] != '+' && ('.' in s || ':' in s)
    ensures Atoi(s).None?
  {
    assert !AllDigits(s);
  }

  lemma {:induction false} CutChars(s: string, sep: char)
    requires Cut(s, sep).Some?
    ensures forall c <- Cut(s, sep).value.1 :: c in s
  {
    if s[0] != sep { CutChars(s[1..], sep); }
  }

  lemma {:induction false} CutFinds(s: string, sep: char)
    ensures Cut(s, sep).Some? <==> sep in s
  {
    if s != "" {
      CutFinds(s[1..], sep);
      assert s == [s[0]] + s[1..];
    }
  }

  /** No port is in an address read as ports. */
  lemma HostHasNoPort(s: string, port: int)
    requires IsHost(s)
    ensures !SpecHas(s, port)
  {
    HostIsWord(s);
    CutFinds(s, ':');
    if ':' in s {
      CutChars(s, ':');
      NotANumber(Cut(s, ':').value.1);
    } else {
      NotANumber(s);
    }
    assert !PartHas(s, port);
    SplitWhole(s, ',');
    OnlyPart(s, port);
  }

  lemma OnlyPart(s: string, port: int)
    requires !PartHas(s, port)
    ensures !SomeHas([s], port)
  {
  }

  lemma FillName(r: Rule, to: string, resolve: Resolve)
    requires Word(to) && to != "Anywhere" && !IsDigit(to[0]) && resolve(to) == ""
    ensures FillTo(r, to, resolve) == r.(app := to)
  {
    WordAlone(to);
    assert Join([to], ' ') == to;
  }

  /** What is made of a destination without ports: the rule as it was for anywhere, ports that are an
      address, or a profile by the name of one. */
  lemma PortlessFill(r: Rule, d: Destination, resolve: Resolve)
    requires WellFormed(d) && d.ports == [] && (d.address.Some? || d.proto.Some?) && resolve(DestinationText(d)) == ""
    ensures var rule := FillTo(r, DestinationText(d), resolve);
            if d.address.Some? && IsDigit(d.address.value.host[0]) then rule == r.(ports := d.address.value.host, proto := rule.proto)
            else rule == r.(app := DestinationText(d)) && DestinationText(d) != ""
  {
    var text := DestinationText(d);
    if d.address.Some? {
      AddressFill(r, d.address.value, d.proto, resolve);
    } else {
      AnywhereFill(r, d.proto.value, resolve);
    }
  }

  lemma AnywhereFill(r: Rule, proto: string, resolve: Resolve)
    requires IsProto(proto) && resolve(Slashed("Anywhere", Some(proto))) == ""
    ensures FillTo(r, Slashed("Anywhere", Some(proto)), resolve) == r.(app := Slashed("Anywhere", Some(proto)))
  {
    var text := Slashed("Anywhere", Some(proto));
    ProtoPlain(proto);
    AnywhereIsWord();
    SlashedWord("Anywhere", Some(proto));
    assert |text| > |"Anywhere"| && text[0] == 'A';
    FillName(r, text, resolve);
  }

  lemma AnywhereIsWord()
    ensures Word("Anywhere")
  {
  }

  lemma AddressFill(r: Rule, a: Address, proto: Option<string>, resolve: Resolve)
    requires IsHost(a.host) && (proto.Some? ==> IsProto(proto.value))
    requires !IsDigit(a.host[0]) ==> resolve(Slashed(AddressText(a), proto)) == ""
    ensures var rule := FillTo(r, Slashed(AddressText(a), proto), resolve);
            if IsDigit(a.host[0]) then rule == r.(ports := a.host, proto := rule.proto)
            else rule == r.(app := Slashed(AddressText(a), proto))
  {
    var text := Slashed(AddressText(a), proto);
    AddressIsWord(a);
    HostIsWord(a.host);
    if proto.Some? { ProtoPlain(proto.value); }
    SlashedWord(AddressText(a), proto);
    assert text[0] == a.host[0];
    FirstNotA(text);
    if IsDigit(a.host[0]) {
      WordAlone(text);
      FillWord(r, text, text, resolve);
      AddressCut(a, proto);
    } else {
      FillName(r, text, resolve);
    }
  }

  lemma FirstNotA(text: string)
    requires text != "" && text[0] != 'A'
    ensures text != "Anywhere"
  {
  }

  /** Cut at its first slash, an address leaves its host. */
  lemma AddressCut(a: Address, proto: Option<string>)
    requires IsHost(a.host)
    ensures var text := Slashed(AddressText(a), proto);
            if a.bits.None? && proto.None? then text == a.host && Cut(text, '/') == None
            else Cut(text, '/').Some? && Cut(text, '/').value.0 == a.host
  {
    HostIsWord(a.host);
    if a.bits.Some? {
      var rest := Slashed(Itoa(a.bits.value), proto);
      assert Slashed(AddressText(a), proto) == a.host + ['/'] + rest;
      CutFirst(a.host, '/', rest);
    } else if proto.Some? {
      CutFirst(a.host, '/', proto.value);
    } else {
      CutNothing(a.host, '/');
    }
  }

  lemma PortlessNeverHits(r: Rule, d: Destination, resolve: Resolve, port: int, proto: string)
    requires WellFormed(d) && d.ports == [] && (d.address.Some? || d.proto.Some?) && resolve(DestinationText(d)) == ""
    ensures !Hits(FillTo(r, DestinationText(d), resolve), port, proto)
  {
    PortlessFill(r, d, resolve);
    if d.address.Some? && IsDigit(d.address.value.host[0]) { HostHasNoPort(d.address.value.host, port); }
  }

  /** With ports named, the rule made hits their union on every address of the host. */
  lemma PortedHits(r: Rule, d: Destination, resolve: Resolve, port: int, proto: string)
    requires WellFormed(d) && d.ports != [] && r.iface == "" && r.app == ""
    ensures Hits(FillTo(r, DestinationText(d), resolve), port, proto) <==> OfPorts(d, port, proto)
    ensures FillTo(r, DestinationText(d), resolve).app == ""
  {
    AddressedText(d);
    UfwMeansUnion(r, if d.address.Some? then Some(AddressText(d.address.value)) else None, d.ports, d.proto, resolve, port);
  }

  lemma AddressedText(d: Destination)
    requires WellFormed(d)
    ensures d.address.Some? ==> Word(AddressText(d.address.value)) && AddressText(d.address.value) != "Anywhere"
  {
    if d.address.Some? {
      AddressIsWord(d.address.value);
      HostIsWord(d.address.value.host);
      FirstNotA(AddressText(d.address.value));
    }
  }

  /** The address before the ports is dropped: the rule is the one made without it. */
  lemma AddressIsDropped(r: Rule, d: Destination, resolve: Resolve)
    requires WellFormed(d) && d.ports != []
    ensures FillTo(r, DestinationText(d), resolve) == FillTo(r, DestinationText(d.(address := None)), resolve)
  {
    var spec := Slashed(PrintList(d.ports), d.proto);
    AddressedText(d);
    SpecWord(d.ports, d.proto);
    WordAlone(spec);
    NotAnywhere(spec);
    FillWord(r, spec, spec, resolve);
    if d.address.Some? {
      TwoWords(AddressText(d.address.value), spec);
      FillWord(r, DestinationText(d), spec, resolve);
    }
  }

  lemma SpecWord(rs: seq<Range>, proto: Option<string>)
    requires rs != [] && (proto.Some? ==> IsProto(proto.value))
    ensures Word(Slashed(PrintList(rs), proto)) && IsDigit(Slashed(PrintList(rs), proto)[0])
  {
    ListChars(rs);
    ListWord(rs, "tcp");
    if proto.Some? { ProtoPlain(proto.value); }
    SlashedWord(PrintList(rs), proto);
  }

  /** A port of some range. */
  lemma SomePort(d: Destination) returns (port: int)
    requires d.ports != [] && !NamesNothing(d)
    ensures InSome(d.ports, port)
  {
    var x :| x in d.ports && !(x.Span? && x.lo > x.hi);
    port := if x.Port? then x.port else x.lo;
    assert InRange(x, port);
  }

  lemma NoPort(d: Destination)
    requires NamesNothing(d)
    ensures forall port :: !InSome(d.ports, port)
  {
  }

  ghost predicate HitsPorts(r: Rule, d: Destination) {
    forall port, proto :: Hits(r, port, proto) <==> OfPorts(d, port, proto)
  }

  lemma HitsPortsMeansIff(r: Rule, d: Destination)
    requires d.ports != [] && HitsPorts(r, d)
    ensures Means(r, d) <==> d.address.None? || NamesNothing(d)
  {
    if NamesNothing(d) {
      NoPort(d);
    } else if d.address.Some? {
      var port := SomePort(d);
      var proto := if d.proto.Some? then d.proto.value else "tcp";
      var nowhere: Holds := (text: string) => false;
      assert OfPorts(d, port, proto) && !Reaches(d, nowhere, port, proto);
    }
  }

  lemma PortedHitsPorts(r: Rule, d: Destination, resolve: Resolve)
    requires WellFormed(d) && d.ports != [] && r.iface == "" && r.app == ""
    ensures HitsPorts(FillTo(r, DestinationText(d), resolve), d)
  {
    forall port, proto
      ensures Hits(FillTo(r, DestinationText(d), resolve), port, proto) <==> OfPorts(d, port, proto)
    {
      PortedHits(r, d, resolve, port, proto);
    }
  }

  /** A printed destination becomes a rule that means it exactly when it names no address, and names ports
      or says anywhere and no more; or when its ports are no ports at all. An address before ports is
      dropped (`AddressIsDropped`); an address alone, masked or not, of either family, or a protocol
      alone, is lost, and then the rule hits nothing. It is taken that no profile is called by an
      address. */
  lemma DestinationMeansIff(r: Rule, d: Destination, resolve: Resolve)
    requires WellFormed(d) && r.iface == "" && r.app == "" && r.ports == "" && r.proto == ""
    requires d.ports == [] ==> resolve(DestinationText(d)) == ""
    ensures Means(FillTo(r, DestinationText(d), resolve), d) <==> IsPlainDest(d) || NamesNothing(d)
    ensures d.ports == [] && !IsPlainDest(d) ==> forall port, proto :: !Hits(FillTo(r, DestinationText(d), resolve), port, proto)
  {
    if d.ports != [] {
      PortedHitsPorts(r, d, resolve);
      HitsPortsMeansIff(FillTo(r, DestinationText(d), resolve), d);
    } else if IsPlainDest(d) {
      AnywhereMeans(r, d, resolve);
    } else {
      PortlessMeansNot(r, d, resolve);
    }
  }

  lemma AnywhereMeans(r: Rule, d: Destination, resolve: Resolve)
    requires d == Destination(None, [], None) && r.iface == "" && r.app == "" && r.ports == "" && r.proto == ""
    ensures FillTo(r, DestinationText(d), resolve) == r && Means(r, d)
  {
    AnywhereIsWord();
    WordAlone("Anywhere");
  }

  lemma PortlessMeansNot(r: Rule, d: Destination, resolve: Resolve)
    requires WellFormed(d) && d.ports == [] && !IsPlainDest(d) && resolve(DestinationText(d)) == ""
    ensures var rule := FillTo(r, DestinationText(d), resolve);
            !Means(rule, d) && forall port, proto :: !Hits(rule, port, proto)
  {
    var rule := FillTo(r, DestinationText(d), resolve);
    forall port, proto
      ensures !Hits(rule, port, proto)
    {
      PortlessNeverHits(r, d, resolve, port, proto);
    }
    var all: Holds := (text: string) => true;
    assert Reaches(d, all, 0, if d.proto.Some? then d.proto.value else "tcp");
  }

  /** A rule that hits nothing and has no profile to resolve is passed over, wherever it stands. */
  lemma {:induction false} PassedOver(before: seq<Rule>, r: Rule, after: seq<Rule>, sources: seq<string>, port: int, proto: string)
    requires !Hits(r, port, proto) && r.app == ""
    ensures Walk(before + [r] + after, sources, port, proto) == Walk(before + after, sources, port, proto)
    decreases |before|
  {
    if before == [] {
      assert before + [r] + after == [r] + after && ([r] + after)[1..] == after && before + after == after;
    } else {
      var b := before[0];
      assert (before + [r] + after)[1..] == before[1..] + [r] + after && (before + after)[1..] == before[1..] + after;
      PassedOver(before[1..], r, after, sources, port, proto);
      PassedOver(before[1..], r, after, Widened(b, sources), port, proto);
    }
  }

  /** What that does to the verdict: a rule for one address, allowing or not, is as if it were not there. */
  lemma AddressIsPassedOver(before: seq<Rule>, r: Rule, a: Address, proto: Option<string>, after: seq<Rule>, resolve: Resolve,
                            fw: Report, heartbeat: Option<int>, port: int, want: string, now: int)
    requires IsHost(a.host) && IsDigit(a.host[0]) && (proto.Some? ==> IsProto(proto.value)) && r.app == ""
    ensures var rule := FillTo(r, Slashed(AddressText(a), proto), resolve);
            VerdictOf(heartbeat, Some(fw.(rules := before + [rule] + after)), port, want, now)
            == VerdictOf(heartbeat, Some(fw.(rules := before + after)), port, want, now)
  {
    var rule := FillTo(r, Slashed(AddressText(a), proto), resolve);
    AddressFill(r, a, proto, resolve);
    HostHasNoPort(a.host, port);
    PassedOver(before, rule, after, [], port, want);
  }

  /** A profile that was not resolved ends every walk that reaches it. */
  lemma {:induction false} ProfileEnds(before: seq<Rule>, r: Rule, after: seq<Rule>, sources: seq<string>, port: int, proto: string)
    requires Concerns(r, proto) && r.app != "" && forall i :: 0 <= i < |before| ==> Passes(before[i], port, proto)
    ensures Walk(before + [r] + after, sources, port, proto).Unresolved?
    decreases |before|
  {
    var rules := before + [r] + after;
    if before != [] {
      var b := before[0];
      assert rules[0] == b && rules[1..] == before[1..] + [r] + after;
      WalkPast(rules, sources, port, proto);
      ProfileEnds(before[1..], r, after, if Hits(b, port, proto) then Widened(b, sources) else sources, port, proto);
    }
  }

  /** An address of IPv6 that begins with no digit is taken for a profile, and a walk that reaches it knows
      no more. */
  lemma OtherAddressIsUnknown(before: seq<Rule>, r: Rule, a: Address, proto: Option<string>, after: seq<Rule>, resolve: Resolve,
                              fw: Report, heartbeat: Option<int>, port: int, want: string, now: int)
    requires IsHost(a.host) && !IsDigit(a.host[0]) && (proto.Some? ==> IsProto(proto.value))
    requires r.iface == "" && r.proto == "" && resolve(Slashed(AddressText(a), proto)) == ""
    requires fw.active && fw.tool != "none" && forall i :: 0 <= i < |before| ==> Passes(before[i], port, want)
    ensures var rule := FillTo(r, Slashed(AddressText(a), proto), resolve);
            VerdictOf(heartbeat, Some(fw.(rules := before + [rule] + after)), port, want, now).state == Unknown
  {
    var rule := FillTo(r, Slashed(AddressText(a), proto), resolve);
    AddressFill(r, a, proto, resolve);
    AddressIsWord(a);
    assert rule.app != "";
    ProfileEnds(before, rule, after, [], port, want);
  }
}
