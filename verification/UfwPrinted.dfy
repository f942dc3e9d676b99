/** What ufw prints of its rules is what is read of them: each line as the rule it stands for. */
module UfwPrinted {
  import opened Prelude
  import opened Text
  import opened Requests
  import opened PortSpec
  import opened Firewall
  import opened PortRules
  import opened UfwStatus

  // ── What ufw prints ───────────────────────────────────────────────────────

  /** A rule of the host: where it lets in to and from, which way it looks, the interfaces it is bound to,
      where packets come in and where they go out, and whether it is the copy for IPv6. */
  datatype HostRule = HostRule(
    dest: Destination, action: string, direction: string, source: Option<string>,
    iface: Option<string>, out: Option<string>, v6: bool)

  predicate IsSourceChar(c: char) {
    IsHostChar(c) || c == '/'
  }

  predicate IsIfaceChar(c: char) {
    IsDigit(c) || IsLower(c) || c == '.' || c == '-' || c == '_' || c == '@' || c == ':'
  }

  predicate IsIface(iface: Option<string>) {
    iface.Some? ==> iface.value != "" && forall c <- iface.value :: IsIfaceChar(c)
  }

  predicate Printable(h: HostRule) {
    && WellFormed(h.dest) && h.action in ACTIONS && h.direction in DIRECTIONS
    && (h.source.Some? ==> h.source.value != "" && forall c <- h.source.value :: IsSourceChar(c))
    && IsIface(h.iface) && IsIface(h.out)
  }

  function Mark(v6: bool): string {
    if v6 then [' '] + V6 else ""
  }

  function On(iface: Option<string>): string {
    if iface.Some? then ON + iface.value else ""
  }

  function To(h: HostRule): string {
    DestinationText(h.dest) + (Mark(h.v6) + On(h.iface))
  }

  function Source(h: HostRule): string {
    if h.source.Some? then h.source.value else "Anywhere"
  }

  function From(h: HostRule): string {
    Source(h) + (Mark(h.v6) + On(h.out))
  }

  const HASH := " # "

  /** How a line is laid out: the room after its columns, and what is said after it. */
  datatype Layout = Layout(room: nat, more: nat, pad: nat, comment: Option<string>)

  function Columns(h: HostRule, l: Layout): string {
    To(h) + Spaces(l.room) + Tail(h.action, h.direction, Spaces(l.more) + From(h))
  }

  /** One line of a report. */
  function Line(h: HostRule, l: Layout): string {
    if l.comment.None? then Columns(h, l) else Columns(h, l) + Spaces(l.pad) + HASH + l.comment.value
  }

  /** The rule it is read as, if it decides who may connect over IPv4. */
  function Meant(h: HostRule, resolve: Resolve): Option<Rule> {
    if h.direction != "IN" || h.v6 then None
    else
      var from := if h.iface.None? && h.source.Some? then h.source.value else "any";
      var iface := if h.iface.Some? then h.iface.value else "";
      Some(FillTo(Rule("", "", Lower(h.action), from, iface, ""), DestinationText(h.dest), resolve))
  }

  // ── Finding the action ────────────────────────────────────────────────────

  /** Words in capitals that their first letters tell apart. */
  ghost predicate Telling(words: seq<string>) {
    && (forall i :: 0 <= i < |words| ==> |words[i]| >= 2 && IsUpper(words[i][0]) && IsUpper(words[i][1]))
    && (forall i, j :: 0 <= i < j < |words| ==> words[i][0] != words[j][0])
  }

  lemma ActionsTell()
    ensures Telling(ACTIONS)
  {
  }

  lemma DirectionsTell()
    ensures Telling(DIRECTIONS)
  {
  }

  lemma Heads(s: string, i: nat)
    ensures forall w :: StartsAt(s, i, w) && |w| >= 2 ==> s[i] == w[0] && s[i + 1] == w[1]
  {
    forall w | StartsAt(s, i, w) && |w| >= 2
      ensures s[i] == w[0] && s[i + 1] == w[1]
    {
      assert s[i..i + |w|][0] == s[i] && s[i..i + |w|][1] == s[i + 1];
    }
  }

  lemma TellsApart(words: seq<string>, v: string, w: string)
    requires Telling(words) && v in words && w in words && v[0] == w[0]
    ensures v == w
  {
    var i :| 0 <= i < |words| && words[i] == v;
    var j :| 0 <= j < |words| && words[j] == w;
  }

  lemma WordIs(s: string, i: nat, words: seq<string>, w: string)
    requires Telling(words) && w in words && StartsAt(s, i, w)
    ensures WordAt(s, i, words) == Some(w)
  {
    Heads(s, i);
    TellsApart(words, WordAt(s, i, words).value, w);
  }

  lemma CapitalsAt(s: string, i: nat, words: seq<string>)
    requires Telling(words) && i + 1 < |s| && !(IsUpper(s[i]) && IsUpper(s[i + 1]))
    ensures WordAt(s, i, words) == None
  {
    Heads(s, i);
  }

  /** No action begins where two capitals do not follow one another. */
  lemma NothingAt(s: string, i: nat, names: Names)
    requires Telling(names.actions) && i + 2 < |s| && !(IsUpper(s[i + 1]) && IsUpper(s[i + 2]))
    ensures FoundAt(s, i, names) == None
  {
    CapitalsAt(s, i + 1, names.actions);
  }

  lemma {:induction false} SkipTo(s: string, i: nat, start: nat, names: Names)
    requires i <= start < |s| && forall k :: i <= k < start ==> FoundAt(s, k, names) == None
    requires FoundAt(s, start, names).Some?
    ensures FindFrom(s, i, names) == FoundAt(s, start, names)
    decreases start - i
  {
    if i < start { SkipTo(s, i + 1, start, names); }
  }

  /** A line from its action on. */
  function Tail(action: string, direction: string, rest: string): string {
    [' '] + (action + ([' '] + (direction + ([' '] + rest))))
  }

  lemma TailAt(before: string, action: string, direction: string, rest: string)
    ensures var s, i := before + Tail(action, direction, rest), |before|;
            var e := i + 1 + |action|;
            && |s| > e + 1 + |direction| && s[i] == ' ' && s[e] == ' ' && s[e + 1 + |direction|] == ' '
            && StartsAt(s, i + 1, action) && StartsAt(s, e + 1, direction)
  {
  }

  lemma FoundHere(s: string, i: nat, action: string, direction: string, names: Names)
    requires Telling(names.actions) && Telling(names.directions) && action in names.actions && direction in names.directions
    requires var e := i + 1 + |action|;
             && |s| > e + 1 + |direction| && s[i] == ' ' && s[e] == ' ' && s[e + 1 + |direction|] == ' '
             && StartsAt(s, i + 1, action) && StartsAt(s, e + 1, direction)
    ensures FoundAt(s, i, names) == Some(Found(i, action, Some(direction), i + |action| + |direction| + 3))
  {
    WordIs(s, i + 1, names.actions, action);
    DirectionFound(s, i, action, i + 1 + |action|, direction, names);
    ActionThen(s, i, action, names);
  }

  lemma ActionThen(s: string, i: nat, action: string, names: Names)
    requires i < |s| && s[i] == ' ' && WordAt(s, i + 1, names.actions) == Some(action)
    ensures FoundAt(s, i, names) == FoundAfter(s, i, action, i + 1 + |action|, names)
  {
  }

  lemma DirectionFound(s: string, i: nat, action: string, e: nat, direction: string, names: Names)
    requires Telling(names.directions) && direction in names.directions
    requires |s| > e + 1 + |direction| && s[e] == ' ' && s[e + 1 + |direction|] == ' ' && StartsAt(s, e + 1, direction)
    ensures FoundAfter(s, i, action, e, names) == Some(Found(i, action, Some(direction), e + |direction| + 2))
  {
    WordIs(s, e + 1, names.directions, direction);
    CapitalAt(s, e + 1, names.directions, direction);
    OneSpace(s, e);
  }

  lemma CapitalAt(s: string, i: nat, words: seq<string>, w: string)
    requires Telling(words) && w in words && StartsAt(s, i, w)
    ensures i < |s| && IsUpper(s[i])
  {
    assert s[i..i + |w|][0] == s[i];
  }

  lemma OneSpace(s: string, e: nat)
    requires e + 1 < |s| && IsSpace(s[e]) && !IsSpace(s[e + 1])
    ensures SpacesAt(s, e) == 1
  {
    assert SpacesAt(s, e + 1) == 0;
  }

  lemma NothingBefore(s: string, start: nat, names: Names)
    requires Telling(names.actions) && start + 1 < |s| && s[start] == ' '
    requires forall i :: 2 <= i < start ==> !IsUpper(s[i])
    ensures forall k :: 0 <= k < start ==> FoundAt(s, k, names) == None
  {
    forall k | 0 <= k < start
      ensures FoundAt(s, k, names) == None
    {
      NothingAt(s, k, names);
    }
  }

  /** In a line with no capital before the action but perhaps its first, the action is what is found. */
  lemma ActionFound(before: string, action: string, direction: string, rest: string, names: Names)
    requires Telling(names.actions) && Telling(names.directions) && action in names.actions && direction in names.directions
    requires forall i :: 2 <= i < |before| ==> !IsUpper(before[i])
    ensures FindFrom(before + Tail(action, direction, rest), 0, names)
            == Some(Found(|before|, action, Some(direction), |before| + |action| + |direction| + 3))
  {
    TailAt(before, action, direction, rest);
    CalmPrefix(before, Tail(action, direction, rest));
    FoundIn(before + Tail(action, direction, rest), |before|, action, direction, names);
  }

  lemma CalmPrefix(before: string, rest: string)
    requires forall i :: 2 <= i < |before| ==> !IsUpper(before[i])
    ensures forall i :: 2 <= i < |before| ==> !IsUpper((before + rest)[i])
  {
  }

  lemma FoundIn(s: string, i: nat, action: string, direction: string, names: Names)
    requires Telling(names.actions) && Telling(names.directions) && action in names.actions && direction in names.directions
    requires var e := i + 1 + |action|;
             && |s| > e + 1 + |direction| && s[i] == ' ' && s[e] == ' ' && s[e + 1 + |direction|] == ' '
             && StartsAt(s, i + 1, action) && StartsAt(s, e + 1, direction)
    requires forall k :: 2 <= k < i ==> !IsUpper(s[k])
    ensures FindFrom(s, 0, names) == Some(Found(i, action, Some(direction), i + |action| + |direction| + 3))
  {
    FoundHere(s, i, action, direction, names);
    NothingBefore(s, i, names);
    SkipTo(s, 0, i, names);
  }

  // ── The columns beside it ─────────────────────────────────────────────────

  /** The characters of a destination after its first, none of which is in the word "on". */
  predicate PlainChar(c: char) {
    (IsDigit(c) || IsLower(c) || c == '.' || c == ':' || c == '/' || c == ',' || c == ' ') && c != 'o'
  }

  predicate IsPlain(s: string) {
    forall c <- s :: PlainChar(c)
  }

  predicate ColumnChar(c: char) {
    IsDigit(c) || IsLower(c) || c in ".:/,-_@ ()"
  }

  /** A column: nonblank ends, and no capital but perhaps its first. */
  predicate IsColumn(s: string) {
    PlainEnds(s) && (s[0] == 'A' || ColumnChar(s[0])) && forall i :: 1 <= i < |s| ==> ColumnChar(s[i])
  }

  /** A destination: a column, and plain after its first character. */
  predicate IsDest(s: string) {
    PlainEnds(s) && (s[0] == 'A' || PlainChar(s[0])) && forall i :: 1 <= i < |s| ==> PlainChar(s[i])
  }

  lemma PlainConcat(a: string, b: string)
    requires IsPlain(a) && IsPlain(b)
    ensures IsPlain(a + b)
  {
  }

  lemma WordEnds(w: string)
    requires Word(w)
    ensures PlainEnds(w)
  {
    assert w[0] in w && w[|w| - 1] in w;
  }

  lemma PlainIsDest(s: string)
    requires IsPlain(s) && PlainEnds(s)
    ensures IsDest(s)
  {
    forall i | 0 <= i < |s|
      ensures PlainChar(s[i])
    {
      assert s[i] in s;
    }
  }

  lemma AnywhereIsDest(s: string)
    requires s == "Anywhere"
    ensures IsDest(s)
  {
  }

  lemma DestConcat(a: string, b: string)
    requires IsDest(a) && IsPlain(b) && (b == "" || PlainEnds([a[0]] + b))
    ensures IsDest(a + b)
  {
    var s := a + b;
    forall i | 1 <= i < |s|
      ensures PlainChar(s[i])
    {
      if i >= |a| { assert s[i] == b[i - |a|] && b[i - |a|] in b; }
    }
    if b != "" { assert s[|s| - 1] == b[|b| - 1] == ([a[0]] + b)[|b|]; }
  }

  lemma ProtoIsPlain(proto: string)
    requires IsProto(proto)
    ensures IsPlain(proto) && Word(proto)
  {
  }

  lemma ItoaIsPlain(n: nat)
    ensures IsPlain(Itoa(n)) && Word(Itoa(n))
  {
    ItoaDigits(n);
    DigitsAreWord(n);
  }

  lemma SlashPlain(text: string, more: Option<string>)
    requires IsPlain(text) && (more.Some? ==> IsPlain(more.value))
    ensures IsPlain(Slashed(text, more))
  {
  }

  lemma HostIsPlain(s: string)
    requires IsHost(s)
    ensures IsPlain(s) && Word(s)
  {
    HostIsWord(s);
  }

  lemma AddressIsPlain(a: Address)
    requires IsHost(a.host)
    ensures IsPlain(AddressText(a)) && Word(AddressText(a))
  {
    HostIsPlain(a.host);
    AddressIsWord(a);
    if a.bits.Some? { ItoaIsPlain(a.bits.value); }
    SlashPlain(a.host, if a.bits.Some? then Some(Itoa(a.bits.value)) else None);
  }

  lemma ListIsPlain(rs: seq<Range>, proto: Option<string>)
    requires rs != [] && (proto.Some? ==> IsProto(proto.value))
    ensures IsPlain(Slashed(PrintList(rs), proto)) && Word(Slashed(PrintList(rs), proto))
  {
    ListChars(rs);
    ListWord(rs, "tcp");
    if proto.Some? { ProtoIsPlain(proto.value); }
    SlashPlain(PrintList(rs), proto);
    SlashedWord(PrintList(rs), proto);
  }

  lemma PortedDest(d: Destination)
    requires WellFormed(d) && d.ports != []
    ensures IsDest(DestinationText(d))
  {
    var spec := Slashed(PrintList(d.ports), d.proto);
    ListIsPlain(d.ports, d.proto);
    WordEnds(spec);
    if d.address.Some? {
      var text := AddressText(d.address.value);
      AddressIsPlain(d.address.value);
      WordEnds(text);
      PlainConcat([' '], spec);
      PlainConcat(text, [' '] + spec);
      EndsConcat(text, [' '] + spec);
      PlainIsDest(text + ([' '] + spec));
    } else {
      PlainIsDest(spec);
    }
  }

  lemma EndsConcat(a: string, b: string)
    requires PlainEnds(a) && b != "" && b[|b| - 1] !in SPACE
    ensures PlainEnds(a + b)
  {
  }

  lemma PortlessDest(d: Destination)
    requires WellFormed(d) && d.ports == []
    ensures IsDest(DestinationText(d))
  {
    if d.proto.Some? { ProtoIsPlain(d.proto.value); }
    if d.address.Some? {
      var text := AddressText(d.address.value);
      AddressIsPlain(d.address.value);
      SlashPlain(text, d.proto);
      SlashedWord(text, d.proto);
      WordEnds(Slashed(text, d.proto));
      PlainIsDest(Slashed(text, d.proto));
    } else {
      AnywhereDest("Anywhere", d.proto);
    }
  }

  lemma AnywhereDest(anywhere: string, proto: Option<string>)
    requires anywhere == "Anywhere" && (proto.Some? ==> IsProto(proto.value))
    ensures IsDest(Slashed(anywhere, proto))
  {
    AnywhereIsDest(anywhere);
    if proto.Some? {
      ProtoIsPlain(proto.value);
      WordEnds(proto.value);
      EndsConcat([anywhere[0]] + ['/'], proto.value);
      PlainConcat(['/'], proto.value);
      assert [anywhere[0]] + (['/'] + proto.value) == [anywhere[0]] + ['/'] + proto.value;
      DestConcat(anywhere, ['/'] + proto.value);
      assert anywhere + (['/'] + proto.value) == Slashed(anywhere, proto);
    }
  }

  lemma DestIs(d: Destination)
    requires WellFormed(d)
    ensures IsDest(DestinationText(d))
  {
    if d.ports == [] { PortlessDest(d); } else { PortedDest(d); }
  }

  predicate InColumn(s: string) {
    forall c <- s :: ColumnChar(c)
  }

  lemma ColumnConcat(a: string, b: string)
    requires IsColumn(a) && InColumn(b) && (b == "" || b[|b| - 1] !in SPACE)
    ensures IsColumn(a + b)
  {
    var s := a + b;
    forall i | 1 <= i < |s|
      ensures ColumnChar(s[i])
    {
      if i >= |a| { assert s[i] == b[i - |a|] && b[i - |a|] in b; }
    }
  }

  lemma DestIsColumn(s: string)
    requires IsDest(s)
    ensures IsColumn(s) && 'o' !in s && '(' !in s
  {
    forall i | 1 <= i < |s|
      ensures ColumnChar(s[i])
    {
      assert PlainChar(s[i]);
    }
  }

  lemma MarkInColumn(v6: bool)
    ensures InColumn(Mark(v6)) && (Mark(v6) == "" || Mark(v6)[|Mark(v6)| - 1] !in SPACE)
  {
  }

  lemma OnInColumn(iface: Option<string>)
    requires IsIface(iface)
    ensures InColumn(On(iface)) && '(' !in On(iface) && (On(iface) == "" || On(iface)[|On(iface)| - 1] !in SPACE)
  {
    if iface.Some? {
      var name := iface.value;
      assert name[|name| - 1] in name;
      IfaceInColumn(name);
      OnChars();
      assert On(iface)[|On(iface)| - 1] == name[|name| - 1];
    }
  }

  lemma IfaceInColumn(iface: string)
    requires forall c <- iface :: IsIfaceChar(c)
    ensures InColumn(iface) && '(' !in iface
  {
  }

  lemma OnChars()
    ensures InColumn(ON) && '(' !in ON
  {
  }

  /** A column with its mark and its interface. */
  lemma ColumnWith(text: string, v6: bool, iface: Option<string>)
    requires IsDest(text) && IsIface(iface)
    ensures IsColumn(text + (Mark(v6) + On(iface)))
    ensures !v6 ==> '(' !in text + (Mark(v6) + On(iface))
  {
    DestIsColumn(text);
    MarkInColumn(v6);
    OnInColumn(iface);
    var rest := Mark(v6) + On(iface);
    assert rest == "" || rest[|rest| - 1] !in SPACE by {
      if On(iface) == "" { assert rest == Mark(v6); } else { assert rest[|rest| - 1] == On(iface)[|On(iface)| - 1]; }
    }
    ColumnConcat(text, rest);
  }

  lemma ToIsColumn(h: HostRule)
    requires Printable(h)
    ensures IsColumn(To(h)) && (!h.v6 ==> '(' !in To(h))
  {
    DestIs(h.dest);
    ColumnWith(DestinationText(h.dest), h.v6, h.iface);
  }

  lemma SourceIsDest(h: HostRule)
    requires Printable(h)
    ensures IsDest(Source(h)) && ' ' !in Source(h)
  {
    if h.source.Some? {
      SourcePlain(h.source.value);
    } else {
      AnywhereIsDest(Source(h));
      AnywhereIsWord();
    }
  }

  lemma SourcePlain(s: string)
    requires s != "" && forall c <- s :: IsSourceChar(c)
    ensures IsDest(s) && ' ' !in s && s != "Anywhere" && s != "any"
  {
    assert s[0] in s && s[|s| - 1] in s;
    PlainIsDest(s);
    NotWords(s);
  }

  lemma NotWords(s: string)
    requires s != "" && forall c <- s :: IsSourceChar(c)
    ensures s != "Anywhere" && s != "any"
  {
    assert s[0] in s;
    assert |s| > 1 ==> s[1] in s;
  }

  lemma FromIsColumn(h: HostRule)
    requires Printable(h)
    ensures IsColumn(From(h)) && (!h.v6 ==> '(' !in From(h))
  {
    SourceIsDest(h);
    ColumnWith(Source(h), h.v6, h.out);
  }

  lemma {:induction false} ContainsInside(a: string, part: string, b: string)
    ensures Contains(a + part + b, part)
  {
    var s := a + part + b;
    if a == "" {
      assert s[..|part|] == part;
    } else if !HasPrefix(s, part) {
      assert s[1..] == a[1..] + part + b;
      ContainsInside(a[1..], part, b);
    }
  }

  lemma MarkedContains(a: string, b: string, v6: bool)
    requires !v6 ==> '(' !in a + (Mark(v6) + b)
    ensures Contains(a + (Mark(v6) + b), V6) <==> v6
  {
    if v6 {
      ContainsInside(a + [' '], V6, b);
      assert a + [' '] + V6 + b == a + (Mark(v6) + b);
    } else {
      assert V6[0] == '(' && V6[0] in V6;
      ContainsNot(a + (Mark(v6) + b), V6, '(');
    }
  }

  /** A separator is found where it was put, when its second character is nowhere before. */
  lemma {:induction false} CutAtFirst(a: string, sep: string, b: string)
    requires |sep| >= 2 && sep[0] != sep[1] && sep[1] !in a
    ensures CutAt(a + sep + b, sep) == Some((a, b))
  {
    var s := a + sep + b;
    if a == "" {
      assert s[..|sep|] == sep && s[|sep|..] == b;
    } else {
      assert s[1] == if |a| > 1 then a[1] else sep[0];
      SecondSame(s, sep);
      assert s[1..] == a[1..] + sep + b;
      CutAtFirst(a[1..], sep, b);
      assert [a[0]] + a[1..] == a;
    }
  }

  lemma SecondSame(s: string, sep: string)
    ensures |sep| >= 2 && HasPrefix(s, sep) ==> s[1] == sep[1]
  {
    assert |sep| >= 2 && HasPrefix(s, sep) ==> s[..|sep|][1] == s[1];
  }

  // ── A line reads back ─────────────────────────────────────────────────────

  lemma NoHashIn(s: string)
    requires IsColumn(s)
    ensures '#' !in s
  {
  }

  lemma NoHashConcat(a: string, b: string)
    requires '#' !in a && '#' !in b
    ensures '#' !in a + b
  {
  }

  lemma NoHashSpaces(n: nat)
    ensures '#' !in Spaces(n)
  {
    SpacesAre(n);
  }

  lemma ColumnsNoHash(h: HostRule, l: Layout)
    requires Printable(h)
    ensures '#' !in Columns(h, l) + Spaces(l.pad)
  {
    ToIsColumn(h);
    FromIsColumn(h);
    NoHashIn(To(h));
    NoHashIn(From(h));
    NoHashSpaces(l.room);
    NoHashSpaces(l.more);
    NoHashSpaces(l.pad);
    WordsNoHash(h);
    NoHashConcat(To(h), Spaces(l.room));
    NoHashConcat(Spaces(l.more), From(h));
    TailNoHash(h.action, h.direction, Spaces(l.more) + From(h));
    NoHashConcat(To(h) + Spaces(l.room), Tail(h.action, h.direction, Spaces(l.more) + From(h)));
    NoHashConcat(Columns(h, l), Spaces(l.pad));
  }

  lemma TailNoHash(action: string, direction: string, rest: string)
    requires '#' !in action && '#' !in direction && '#' !in rest
    ensures '#' !in Tail(action, direction, rest)
  {
  }

  lemma WordsNoHash(h: HostRule)
    requires Printable(h)
    ensures '#' !in h.action && '#' !in h.direction
  {
  }

  function PadOf(l: Layout): nat {
    if l.comment.Some? then l.pad else 0
  }

  lemma HashShape(hash: string)
    requires hash == HASH
    ensures |hash| == 3 && hash[0] == ' ' && hash[1] == '#' && '#' in hash
  {
    assert hash[1] in hash;
  }

  lemma LineUncommented(h: HostRule, l: Layout)
    requires Printable(h)
    ensures Uncommented(Line(h, l)) == Columns(h, l) + Spaces(PadOf(l))
  {
    ColumnsNoHash(h, l);
    HashShape(HASH);
    if l.comment.Some? {
      CutAtFirst(Columns(h, l) + Spaces(l.pad), HASH, l.comment.value);
    } else {
      assert Columns(h, l) + Spaces(0) == Columns(h, l);
      ContainsNot(Columns(h, l), HASH, '#');
    }
  }

  lemma {:induction false} SpacesSnoc(n: nat)
    ensures Spaces(n) + [' '] == Spaces(n + 1)
  {
    if n > 0 {
      SpacesSnoc(n - 1);
      assert Spaces(n) + [' '] == [' '] + (Spaces(n - 1) + [' ']);
    }
  }

  /** The columns of a line, around its action. */
  lemma LineParts(h: HostRule, l: Layout)
    ensures [' '] + (Columns(h, l) + Spaces(PadOf(l))) + [' ']
            == (Spaces(1) + (To(h) + Spaces(l.room))) + Tail(h.action, h.direction, Spaces(l.more) + (From(h) + Spaces(PadOf(l) + 1)))
  {
    SpacesSnoc(PadOf(l));
    SpacesSnoc(0);
    TailRegroup(To(h) + Spaces(l.room), h.action, h.direction, Spaces(l.more) + From(h), Spaces(PadOf(l)));
    assert Spaces(l.more) + From(h) + Spaces(PadOf(l)) + [' '] == Spaces(l.more) + (From(h) + (Spaces(PadOf(l)) + [' ']));
  }

  lemma TailRegroup(before: string, action: string, direction: string, rest: string, pad: string)
    ensures [' '] + (before + Tail(action, direction, rest) + pad) + [' ']
            == ([' '] + before) + Tail(action, direction, rest + pad + [' '])
  {
  }

  lemma CapitalsBefore(d: string, room: nat)
    requires IsColumn(d)
    ensures var before := Spaces(1) + (d + Spaces(room));
            forall i :: 2 <= i < |before| ==> !IsUpper(before[i])
  {
    SpacesAre(1);
    SpacesAre(room);
    var before := Spaces(1) + (d + Spaces(room));
    forall i | 2 <= i < |before|
      ensures !IsUpper(before[i])
    {
      if i < 1 + |d| { assert before[i] == d[i - 1] && ColumnChar(d[i - 1]); } else { assert before[i] == Spaces(room)[i - 1 - |d|]; }
    }
  }

  lemma PartsFound(action: string, direction: string, before: string, rest: string, names: Names)
    requires Telling(names.actions) && Telling(names.directions) && action in names.actions && direction in names.directions
    requires forall i :: 2 <= i < |before| ==> !IsUpper(before[i])
    ensures var padded := before + Tail(action, direction, rest);
            var found := FindFrom(padded, 0, names);
            found.Some? && found.value.action == action && found.value.direction == Some(direction)
            && padded[..found.value.start] == before && padded[found.value.end..] == rest
  {
    ActionFound(before, action, direction, rest, names);
    CutAround(before, action, direction, rest);
  }

  lemma CutAround(before: string, action: string, direction: string, rest: string)
    ensures var s := before + Tail(action, direction, rest);
            var end := |before| + |action| + |direction| + 3;
            end <= |s| && s[..|before|] == before && s[end..] == rest
  {
  }

  /** What is found in a printed line: its action and direction, with the columns on either side. */
  lemma LineFound(h: HostRule, l: Layout)
    requires Printable(h)
    ensures var padded := [' '] + Uncommented(Line(h, l)) + [' '];
            var found := FindFrom(padded, 0, UFW);
            found.Some? && found.value.action == h.action && found.value.direction == Some(h.direction)
            && TrimSpace(padded[..found.value.start]) == To(h) && TrimSpace(padded[found.value.end..]) == From(h)
  {
    LineUncommented(h, l);
    LineParts(h, l);
    ToIsColumn(h);
    FromIsColumn(h);
    TailFound([' '] + Uncommented(Line(h, l)) + [' '], To(h), l.room, h.action, h.direction, l.more, From(h), PadOf(l) + 1);
  }

  lemma TailFound(padded: string, to: string, room: nat, action: string, direction: string, more: nat, from: string, pad: nat)
    requires padded == (Spaces(1) + (to + Spaces(room))) + Tail(action, direction, Spaces(more) + (from + Spaces(pad)))
    requires IsColumn(to) && PlainEnds(from) && action in ACTIONS && direction in DIRECTIONS
    ensures var found := FindFrom(padded, 0, UFW);
            found.Some? && found.value.action == action && found.value.direction == Some(direction)
            && TrimSpace(padded[..found.value.start]) == to && TrimSpace(padded[found.value.end..]) == from
  {
    CapitalsBefore(to, room);
    TrimsSpaces(1, to, room);
    TrimsSpaces(more, from, pad);
    ActionsTell();
    DirectionsTell();
    PartsFound(action, direction, Spaces(1) + (to + Spaces(room)), Spaces(more) + (from + Spaces(pad)), UFW);
  }

  lemma SourceRead(h: HostRule)
    requires Printable(h)
    ensures FromOf(Source(h) + On(h.out)) == if h.source.Some? then h.source.value else "any"
  {
    SourceIsDest(h);
    DestIsColumn(Source(h));
    SourceCut(Source(h), h.out);
    if h.source.Some? {
      SourcePlain(h.source.value);
      SourceIsWord(h.source.value);
      WordAlone(h.source.value);
    }
  }

  lemma SourceCut(source: string, out: Option<string>)
    requires 'o' !in source
    ensures CutAt(source + On(out), ON) == if out.Some? then Some((source, out.value)) else None
  {
    OnShape(ON);
    if out.Some? {
      CutAtFirst(source, ON, out.value);
      assert source + ON + out.value == source + On(out);
    } else {
      ContainsNot(source, ON, 'o');
      assert source + "" == source;
    }
  }

  lemma SourceIsWord(s: string)
    requires s != "" && forall c <- s :: IsSourceChar(c)
    ensures Word(s)
  {
  }

  lemma IfaceTrims(iface: string)
    requires iface != "" && forall c <- iface :: IsIfaceChar(c)
    ensures TrimSpace(iface) == iface
  {
    assert iface[0] in iface && iface[|iface| - 1] in iface;
    TrimPlain(iface, SPACE);
  }

  lemma OnShape(on: string)
    requires on == ON
    ensures |on| == 4 && on[0] == ' ' && on[1] == 'o' && 'o' in on
  {
    assert on[1] in on;
  }

  lemma RuleOn(action: string, text: string, iface: string, from: string, resolve: Resolve)
    requires 'o' !in text && TrimSpace(iface) == iface
    ensures RuleOf(action, text + ON + iface, from, resolve) == Some(FillTo(Rule("", "", action, "any", iface, ""), text, resolve))
  {
    OnShape(ON);
    CutAtFirst(text, ON, iface);
  }

  lemma RuleOff(action: string, text: string, from: string, resolve: Resolve)
    requires 'o' !in text
    ensures RuleOf(action, text, from, resolve) == Some(FillTo(Rule("", "", action, FromOf(from), "", ""), text, resolve))
  {
    OnShape(ON);
    ContainsNot(text, ON, 'o');
  }

  lemma Unmarked(h: HostRule)
    requires !h.v6
    ensures From(h) == Source(h) + On(h.out)
    ensures To(h) == if h.iface.Some? then DestinationText(h.dest) + ON + h.iface.value else DestinationText(h.dest)
  {
  }

  lemma ColumnsRead(h: HostRule, resolve: Resolve)
    requires Printable(h) && !h.v6 && h.direction == "IN"
    ensures RuleOf(Lower(h.action), To(h), From(h), resolve) == Meant(h, resolve)
  {
    DestIs(h.dest);
    DestIsColumn(DestinationText(h.dest));
    Unmarked(h);
    if h.iface.Some? {
      IfaceTrims(h.iface.value);
      RuleOn(Lower(h.action), DestinationText(h.dest), h.iface.value, From(h), resolve);
    } else {
      RuleOff(Lower(h.action), DestinationText(h.dest), From(h), resolve);
      SourceRead(h);
    }
  }

  lemma MarksFound(h: HostRule)
    requires Printable(h)
    ensures Contains(To(h), V6) <==> h.v6
    ensures Contains(From(h), V6) <==> h.v6
  {
    ToIsColumn(h);
    FromIsColumn(h);
    MarkedContains(DestinationText(h.dest), On(h.iface), h.v6);
    MarkedContains(Source(h), On(h.out), h.v6);
  }

  lemma FoundIsRule(line: string, action: string, direction: string, to: string, from: string, resolve: Resolve)
    requires var padded := [' '] + Uncommented(line) + [' '];
             var found := FindFrom(padded, 0, UFW);
             found.Some? && found.value.action == action && found.value.direction == Some(direction)
             && TrimSpace(padded[..found.value.start]) == to && TrimSpace(padded[found.value.end..]) == from
    ensures ParseRule(line, resolve)
            == if direction != "IN" || Contains(to, V6) || Contains(from, V6) then None else RuleOf(Lower(action), to, from, resolve)
  {
  }

  /** Every line ufw prints is read back as the rule it stands for: its destination, action, source and
      interface for an incoming one, with a comment or without; and nothing for an outgoing or forwarded
      one or the copy for IPv6. */
  lemma LineReadsBack(h: HostRule, l: Layout, resolve: Resolve)
    requires Printable(h)
    ensures ParseRule(Line(h, l), resolve) == Meant(h, resolve)
  {
    LineFound(h, l);
    FoundIsRule(Line(h, l), h.action, h.direction, To(h), From(h), resolve);
    MarksFound(h);
    if h.direction == "IN" && !h.v6 { ColumnsRead(h, resolve); }
  }

  // ── A report reads back ───────────────────────────────────────────────────

  type Printing = seq<(HostRule, Layout)>

  predicate AllPrintable(p: Printing) {
    forall i :: 0 <= i < |p| ==> Printable(p[i].0)
  }

  function Lines(p: Printing): seq<string> {
    seq(|p|, i requires 0 <= i < |p| => Line(p[i].0, p[i].1))
  }

  function AsSeq(r: Option<Rule>): seq<Rule> {
    if r.Some? then [r.value] else []
  }

  function AllMeant(p: Printing, resolve: Resolve): seq<Rule> {
    if p == [] then [] else AllMeant(p[..|p| - 1], resolve) + AsSeq(Meant(p[|p| - 1].0, resolve))
  }

  lemma HeadTrims(line: string, cut: set<char>)
    requires line != "" && line[0] !in cut
    ensures Trim(line, cut) != "" && Trim(line, cut)[0] == line[0]
  {
    assert TrimLeft(line, cut) == line;
    var t := TrimRight(line, cut);
    TrimRightIs(line, cut);
    assert t == line[..|t|];
  }

  lemma LineBegins(h: HostRule, l: Layout)
    requires Printable(h)
    ensures IsDest(DestinationText(h.dest)) && Line(h, l) != "" && Line(h, l)[0] == DestinationText(h.dest)[0]
  {
    DestIs(h.dest);
    assert Columns(h, l)[0] == To(h)[0] == DestinationText(h.dest)[0];
  }

  /** A line that is none of the headings once the rules have begun. */
  lemma TakesRule(r: Reading, line: string, resolve: Resolve)
    requires r.inRules && line != "" && line[0] !in SPACE && line[0] != 'S' && line[0] != 'D' && line[0] != '-'
    ensures ReadLine(r, line, resolve) == AddRule(r, ParseRule(line, resolve))
  {
    HeadTrims(line, SPACE);
    NoHeading(TrimSpace(line));
  }

  lemma NoHeading(line: string)
    requires line != "" && line[0] != 'S' && line[0] != 'D' && line[0] != '-'
    ensures !HasPrefix(line, STATUS) && !HasPrefix(line, DEFAULT) && !HasPrefix(line, RULE)
  {
    SameHead(line, STATUS);
    SameHead(line, DEFAULT);
    SameHead(line, RULE);
  }

  lemma SameHead(line: string, prefix: string)
    ensures prefix != "" && HasPrefix(line, prefix) ==> line != "" && line[0] == prefix[0]
  {
    assert prefix != "" && HasPrefix(line, prefix) ==> line[..|prefix|][0] == line[0];
  }

  lemma RuleReadBack(r: Reading, h: HostRule, l: Layout, resolve: Resolve)
    requires r.inRules && Printable(h)
    ensures ReadLine(r, Line(h, l), resolve) == AddRule(r, Meant(h, resolve))
  {
    LineBegins(h, l);
    FirstIsQuiet(DestinationText(h.dest)[0]);
    TakesRule(r, Line(h, l), resolve);
    LineReadsBack(h, l, resolve);
  }

  lemma FirstIsQuiet(c: char)
    ensures c == 'A' || PlainChar(c) ==> c != 'S' && c != 'D' && c != '-'
  {
  }

  /** Once the rules have begun, every list of rules printed line by line is read back as the incoming
      IPv4 rules of it, in order. */
  lemma {:induction false} RulesReadBack(r: Reading, p: Printing, resolve: Resolve)
    requires r.inRules && AllPrintable(p)
    ensures ReadLines(r, Lines(p), resolve) == r.(fw := r.fw.(rules := r.fw.rules + AllMeant(p, resolve)))
  {
    if p == [] {
      assert Lines(p) == [] && r.fw.rules + [] == r.fw.rules;
    } else {
      var n := |p| - 1;
      RulesReadBack(r, p[..n], resolve);
      LinesOf(p);
      LinesSnoc(r, Lines(p), n, resolve);
      RuleReadBack(r.(fw := r.fw.(rules := r.fw.rules + AllMeant(p[..n], resolve))), p[n].0, p[n].1, resolve);
      RulesConcat(r.fw.rules, AllMeant(p[..n], resolve), Meant(p[n].0, resolve));
    }
  }

  lemma LinesOf(p: Printing)
    requires p != []
    ensures var n := |p| - 1;
            |Lines(p)| == n + 1 && Lines(p)[..n] == Lines(p[..n]) && Lines(p)[..n + 1] == Lines(p)
            && Lines(p)[n] == Line(p[n].0, p[n].1)
  {
  }

  lemma RulesConcat(a: seq<Rule>, b: seq<Rule>, m: Option<Rule>)
    ensures a + b + AsSeq(m) == a + (b + AsSeq(m))
    ensures m.None? ==> b + AsSeq(m) == b
  {
  }
}
