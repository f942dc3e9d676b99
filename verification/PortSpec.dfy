/** Ports as a firewall's rule writes them: "22", "60000:61000" and "80,443". */
module PortSpec {
  import opened Prelude
  import opened Text
  import opened Requests

  // ── Numbers ───────────────────────────────────────────────────────────────

  const MAX_INT := 0x7fff_ffff_ffff_ffff

  function DigitOf(d: nat): char
    requires d < 10
  {
    ('0' as int + d) as char
  }

  /** `strconv.Itoa`. */
  function Itoa(n: nat): string {
    if n < 10 then [DigitOf(n)] else Itoa(n / 10) + [DigitOf(n % 10)]
  }

  predicate AllDigits(s: string) {
    forall c <- s :: IsDigit(c)
  }

  function Decimal(s: string): int
    requires AllDigits(s)
  {
    if s == "" then 0 else 10 * Decimal(s[..|s| - 1]) + (s[|s| - 1] as int - '0' as int)
  }

  /** `strconv.Atoi`: an optional sign, then digits only, within 64 bits. */
  function Atoi(s: string): Option<int> {
    var negative := s != "" && s[0] == '-';
    var digits := if s != "" && (s[0] == '-' || s[0] == '+') then s[1..] else s;
    if digits == "" || !AllDigits(digits) then None
    else
      var n := if negative then -Decimal(digits) else Decimal(digits);
      if -MAX_INT - 1 <= n <= MAX_INT then Some(n) else None
  }

  lemma {:induction false} ItoaDigits(n: nat)
    ensures Itoa(n) != "" && AllDigits(Itoa(n)) && Decimal(Itoa(n)) == n
  {
    if n >= 10 { ItoaDigits(n / 10); }
  }

  /** Numbers read back as they were printed. */
  lemma AtoiItoa(n: nat)
    requires n <= MAX_INT
    ensures Atoi(Itoa(n)) == Some(n)
  {
    ItoaDigits(n);
    assert Itoa(n)[0] in Itoa(n);
  }

  // ── Ports and ranges ──────────────────────────────────────────────────────

  function Number(s: string): Option<int> {
    Atoi(TrimSpace(s))
  }

  function Both(a: Option<int>, b: Option<int>): Option<(int, int)> {
    if a.None? || b.None? then None else Some((a.value, b.value))
  }

  function PartRange(part: string): Option<(int, int)> {
    match Cut(part, ':')
    case None => Both(Number(part), Number(part))
    case Some((lo, hi)) => Both(Number(lo), Number(hi))
  }

  predicate PartHas(part: string, port: int) {
    PartRange(part).Some? && PartRange(part).value.0 <= port <= PartRange(part).value.1
  }

  /** The ports a specification stands for; an empty one stands for every port. */
  predicate SpecHas(spec: string, port: int) {
    spec == "" || SomeHas(Split(spec, ','), port)
  }

  /** One part of `portMatches`'s loop. */
  method PartMatches(part: string, port: int) returns (matches: bool)
    ensures matches <==> PartHas(part, port)
  {
    var cut := Cut(part, ':');
    var a := Number(if cut.Some? then cut.value.0 else part);
    if a.None? {
      return false;
    }
    var b := a;
    if cut.Some? {
      b := Number(cut.value.1);
      if b.None? {
        return false;
      }
    }
    return a.value <= port <= b.value;
  }

  predicate SomeHas(parts: seq<string>, port: int) {
    exists part <- parts :: PartHas(part, port)
  }

  lemma SomeSnoc(parts: seq<string>, i: nat, port: int)
    requires i < |parts|
    ensures SomeHas(parts[..i + 1], port) <==> SomeHas(parts[..i], port) || PartHas(parts[i], port)
  {
    assert parts[..i + 1] == parts[..i] + [parts[i]];
  }

  lemma SomeOf(parts: seq<string>, i: nat, port: int)
    requires i < |parts| && PartHas(parts[i], port)
    ensures SomeHas(parts, port)
  {
    assert parts[i] in parts;
  }

  /** `portMatches`. */
  method PortMatches(spec: string, port: int) returns (matches: bool)
    ensures matches <==> SpecHas(spec, port)
  {
    if spec == "" {
      return true;
    }
    var parts := Split(spec, ',');
    matches := AnyPart(parts, port);
  }

  /** The loop of `portMatches`. */
  method AnyPart(parts: seq<string>, port: int) returns (matches: bool)
    ensures matches <==> SomeHas(parts, port)
  {
    for i := 0 to |parts|
      invariant !SomeHas(parts[..i], port)
    {
      SomeSnoc(parts, i, port);
      var part := PartMatches(parts[i], port);
      if part {
        SomeOf(parts, i, port);
        return true;
      }
    }
    assert parts[..|parts|] == parts;
    return false;
  }

  // ── Printed ranges ────────────────────────────────────────────────────────

  datatype Range = Port(port: nat) | Span(lo: nat, hi: nat)

  predicate Fits(r: Range) {
    match r
    case Port(p) => p <= MAX_INT
    case Span(lo, hi) => lo <= MAX_INT && hi <= MAX_INT
  }

  predicate InRange(r: Range, port: int) {
    match r
    case Port(p) => port == p
    case Span(lo, hi) => lo <= port <= hi
  }

  function Printed(r: Range, dash: char): string {
    match r
    case Port(p) => Itoa(p)
    case Span(lo, hi) => Itoa(lo) + [dash] + Itoa(hi)
  }

  function AllPrinted(rs: seq<Range>): seq<string> {
    seq(|rs|, i requires 0 <= i < |rs| => Printed(rs[i], ':'))
  }

  /** Ports and ranges as ufw prints them. */
  function PrintList(rs: seq<Range>): string {
    Join(AllPrinted(rs), ',')
  }

  lemma DigitsPlain(s: string, c: char)
    requires s != "" && AllDigits(s) && !IsDigit(c)
    ensures c !in s && s[0] !in SPACE && s[|s| - 1] !in SPACE
  {
    assert s[0] in s && s[|s| - 1] in s;
  }

  lemma ReadsBack(n: nat)
    requires n <= MAX_INT
    ensures Number(Itoa(n)) == Some(n) && ':' !in Itoa(n)
  {
    ItoaDigits(n);
    DigitsPlain(Itoa(n), ':');
    TrimPlain(Itoa(n), SPACE);
    AtoiItoa(n);
  }

  lemma PrintedRange(r: Range)
    requires Fits(r)
    ensures PartRange(Printed(r, ':')) == Some(if r.Port? then (r.port, r.port) else (r.lo, r.hi))
  {
    match r
    case Port(p) =>
      ReadsBack(p);
      OnePart(Itoa(p), p);
    case Span(lo, hi) =>
      ReadsBack(lo);
      ReadsBack(hi);
      TwoParts(Itoa(lo), lo, Itoa(hi), hi);
  }

  lemma OnePart(s: string, n: int)
    requires Number(s) == Some(n) && ':' !in s
    ensures PartRange(s) == Some((n, n))
  {
    CutNothing(s, ':');
  }

  lemma TwoParts(s: string, m: int, t: string, n: int)
    requires Number(s) == Some(m) && Number(t) == Some(n) && ':' !in s
    ensures PartRange(s + [':'] + t) == Some((m, n))
  {
    CutFirst(s, ':', t);
  }

  lemma PrintedChars(r: Range, dash: char)
    ensures Printed(r, dash) != "" && IsDigit(Printed(r, dash)[0])
    ensures forall c <- Printed(r, dash) :: IsDigit(c) || c == dash
  {
    match r
    case Port(p) =>
      ItoaDigits(p);
      assert Itoa(p)[0] in Itoa(p);
    case Span(lo, hi) =>
      ItoaDigits(lo);
      ItoaDigits(hi);
      assert Itoa(lo)[0] in Itoa(lo);
  }

  lemma ListSplits(rs: seq<Range>)
    requires rs != []
    ensures Split(PrintList(rs), ',') == AllPrinted(rs)
  {
    forall i | 0 <= i < |rs|
      ensures ',' !in AllPrinted(rs)[i]
    {
      PrintedChars(rs[i], ':');
    }
    SplitJoin(AllPrinted(rs), ',');
  }

  predicate SpecChar(c: char) {
    IsDigit(c) || c == ':' || c == ','
  }

  lemma {:induction false} JoinChars(parts: seq<string>, sep: char)
    requires parts != [] && SpecChar(sep)
    requires forall i :: 0 <= i < |parts| ==> parts[i] != "" && IsDigit(parts[i][0]) && forall c <- parts[i] :: SpecChar(c)
    ensures Join(parts, sep) != "" && IsDigit(Join(parts, sep)[0]) && forall c <- Join(parts, sep) :: SpecChar(c)
  {
    if |parts| > 1 { JoinChars(parts[1..], sep); }
  }

  lemma ListChars(rs: seq<Range>)
    requires rs != []
    ensures PrintList(rs) != "" && IsDigit(PrintList(rs)[0]) && forall c <- PrintList(rs) :: SpecChar(c)
  {
    forall i | 0 <= i < |rs|
      ensures AllPrinted(rs)[i] != "" && IsDigit(AllPrinted(rs)[i][0]) && forall c <- AllPrinted(rs)[i] :: SpecChar(c)
    {
      PrintedChars(rs[i], ':');
    }
    JoinChars(AllPrinted(rs), ',');
  }

  /** A printed list of ports and ranges stands for exactly their union. */
  lemma ListMeansUnion(rs: seq<Range>, port: int)
    requires rs != [] && forall r <- rs :: Fits(r)
    ensures SpecHas(PrintList(rs), port) <==> exists r <- rs :: InRange(r, port)
  {
    ListSplits(rs);
    ListChars(rs);
    var parts := AllPrinted(rs);
    forall i | 0 <= i < |rs|
      ensures PartHas(parts[i], port) <==> InRange(rs[i], port)
    {
      assert rs[i] in rs;
      PrintedRange(rs[i]);
    }
    if exists r <- rs :: InRange(r, port) {
      var i :| 0 <= i < |rs| && InRange(rs[i], port);
      assert parts[i] in parts;
    }
    if SpecHas(PrintList(rs), port) {
      var i :| 0 <= i < |parts| && PartHas(parts[i], port);
      assert rs[i] in rs;
    }
  }
}
