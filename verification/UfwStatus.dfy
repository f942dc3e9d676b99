/** Reading `ufw status verbose`: the action column is found in a line whose columns cannot be split on
    spaces, and what is read back is what was printed. */
module UfwStatus {
  import opened Prelude
  import opened Text
  import opened Requests
  import opened Firewall
  import opened PortRules

  const ACTIONS := ["ALLOW", "DENY", "REJECT", "LIMIT"]
  const DIRECTIONS := ["IN", "OUT", "FWD"]

  /** What the action's expression takes as a space. */
  predicate IsSpace(c: char) {
    c == ' ' || c == '\t' || c == '\n' || c == '\r' || c == '\U{c}'
  }

  // ── The action column ─────────────────────────────────────────────────────

  predicate StartsAt(s: string, i: nat, word: string) {
    i + |word| <= |s| && s[i..i + |word|] == word
  }

  /** The word of the list that stands at `i`, if one does. No word of either list begins another. */
  function WordAt(s: string, i: nat, words: seq<string>): (r: Option<string>)
    ensures r.Some? ==> r.value in words && StartsAt(s, i, r.value)
    ensures r.None? ==> forall w <- words :: !StartsAt(s, i, w)
  {
    if words == [] then None
    else if StartsAt(s, i, words[0]) then Some(words[0])
    else WordAt(s, i, words[1..])
  }

  function SpacesAt(s: string, i: nat): (n: nat)
    ensures i <= |s| ==> i + n <= |s|
    ensures forall k :: i <= k < i + n ==> k < |s| && IsSpace(s[k])
    ensures i + n < |s| ==> !IsSpace(s[i + n])
    decreases |s| - i
  {
    if i < |s| && IsSpace(s[i]) then 1 + SpacesAt(s, i + 1) else 0
  }

  datatype Found = Found(start: nat, action: string, direction: Option<string>, end: nat)

  /** The words an expression names: the actions, and the directions that may follow one. */
  datatype Names = Names(actions: seq<string>, directions: seq<string>)

  const UFW := Names(ACTIONS, DIRECTIONS)

  /** The expression `\s(action)(\s+(direction))?\s` at one place: the direction is taken when it can be. */
  function FoundAt(s: string, i: nat, names: Names): Option<Found> {
    if i >= |s| || !IsSpace(s[i]) then None
    else
      match WordAt(s, i + 1, names.actions)
      case None => None
      case Some(action) => FoundAfter(s, i, action, i + 1 + |action|, names)
  }

  function FoundAfter(s: string, i: nat, action: string, e: nat, names: Names): Option<Found> {
    var w := e + SpacesAt(s, e);
    var direction := if w > e then WordAt(s, w, names.directions) else None;
    if direction.Some? && w + |direction.value| < |s| && IsSpace(s[w + |direction.value|])
    then Some(Found(i, action, direction, w + |direction.value| + 1))
    else if e < |s| && IsSpace(s[e]) then Some(Found(i, action, None, e + 1))
    else None
  }

  /** The leftmost match. */
  function FindFrom(s: string, i: nat, names: Names): (f: Option<Found>)
    ensures f.Some? ==> i <= f.value.start < f.value.end <= |s|
    decreases |s| - i
  {
    if i >= |s| then None
    else if FoundAt(s, i, names).Some? then FoundAt(s, i, names)
    else FindFrom(s, i + 1, names)
  }

  // ── A line ────────────────────────────────────────────────────────────────

  const ON := " on "
  const V6 := "(v6)"

  function Uncommented(line: string): string {
    match CutAt(line, " # ")
    case None => line
    case Some((before, _)) => before
  }

  /** Where a rule lets in from: the first word, unless it says anywhere. */
  function FromOf(text: string): string {
    var from := match CutAt(text, ON) case None => text case Some((before, _)) => before;
    if from == "" || from == "Anywhere" || Fields(from) == [] then "any" else Fields(from)[0]
  }

  /** `parseUFWRule`. */
  function ParseRule(line: string, resolve: Resolve): Option<Rule> {
    var padded := [' '] + Uncommented(line) + [' '];
    match FindFrom(padded, 0, UFW)
    case None => None
    case Some(found) =>
      var to, from := TrimSpace(padded[..found.start]), TrimSpace(padded[found.end..]);
      if (found.direction.Some? && found.direction.value != "IN") || Contains(to, V6) || Contains(from, V6) then None
      else RuleOf(Lower(found.action), to, from, resolve)
  }

  function RuleOf(action: string, to: string, from: string, resolve: Resolve): Option<Rule> {
    match CutAt(to, ON)
    case Some((dest, iface)) => Some(FillTo(Rule("", "", action, "any", TrimSpace(iface), ""), dest, resolve))
    case None => Some(FillTo(Rule("", "", action, FromOf(from), "", ""), to, resolve))
  }

  lemma {:induction false} CutAtPrefix(s: string, sep: string)
    requires CutAt(s, sep).Some?
    ensures CutAt(s, sep).value.0 <= s
  {
    if !HasPrefix(s, sep) && s != "" {
      CutAtPrefix(s[1..], sep);
      assert s == [s[0]] + s[1..];
    }
  }

  /** A source that says anything but anywhere has a first word to take. */
  lemma SourceHasAWord(text: string)
    requires text == "" || text[0] !in SPACE
    ensures var from := match CutAt(text, ON) case None => text case Some((before, _)) => before;
            from != "" ==> Fields(from) != []
  {
    if CutAt(text, ON).Some? { CutAtPrefix(text, ON); }
  }

  // ── The report ────────────────────────────────────────────────────────────

  /** What has been read: the report so far, and whether the rules have begun. */
  datatype Reading = Reading(fw: Report, inRules: bool)

  const STATUS := "Status:"
  const DEFAULT := "Default:"
  const RULE := "--"

  function Folded<S, T>(s: S, xs: seq<T>, f: (S, T) -> S): S {
    if xs == [] then s else f(Folded(s, xs[..|xs| - 1], f), xs[|xs| - 1])
  }

  lemma {:induction false} FoldedConcat<S, T>(s: S, a: seq<T>, b: seq<T>, f: (S, T) -> S)
    ensures Folded(s, a + b, f) == Folded(Folded(s, a, f), b, f)
  {
    if b == [] {
      assert a + b == a;
    } else {
      var n := |b| - 1;
      assert (a + b)[..|a| + n] == a + b[..n];
      FoldedConcat(s, a, b[..n], f);
    }
  }

  lemma FoldedOne<S, T>(s: S, a: T, f: (S, T) -> S)
    ensures Folded(s, [a], f) == f(s, a)
  {
    assert [a][..0] == [];
  }

  lemma FoldedTwo<S, T>(s: S, a: T, b: T, f: (S, T) -> S)
    ensures Folded(s, [a, b], f) == f(f(s, a), b)
  {
    FoldedOne(s, a, f);
    assert [a, b][..1] == [a];
  }

  lemma {:induction false} FoldedStays<S, T>(s: S, xs: seq<T>, f: (S, T) -> S)
    requires forall i :: 0 <= i < |xs| ==> f(s, xs[i]) == s
    ensures Folded(s, xs, f) == s
  {
    if xs != [] { FoldedStays(s, xs[..|xs| - 1], f); }
  }

  function Policy(part: string): Option<string> {
    match Cut(TrimSpace(part), ' ')
    case None => None
    case Some((policy, dir)) => if dir == "(incoming)" then Some(policy) else None
  }

  function WithPolicy(fw: Report, policy: Option<string>): Report {
    if policy.Some? then fw.(defaultIncoming := policy.value) else fw
  }

  function PolicyTaker(): (Report, string) -> Report {
    (fw: Report, part: string) => WithPolicy(fw, Policy(part))
  }

  function WithPolicies(fw: Report, parts: seq<string>): Report {
    Folded(fw, parts, PolicyTaker())
  }

  function ReadLine(r: Reading, line: string, resolve: Resolve): Reading {
    var trimmed := TrimSpace(line);
    if HasPrefix(trimmed, STATUS) then r.(fw := r.fw.(active := TrimSpace(TrimPrefix(trimmed, STATUS)) == "active"))
    else if HasPrefix(trimmed, DEFAULT) then r.(fw := WithPolicies(r.fw, Split(TrimPrefix(trimmed, DEFAULT), ',')))
    else if HasPrefix(trimmed, RULE) then r.(inRules := true)
    else if !r.inRules || trimmed == "" then r
    else AddRule(r, ParseRule(line, resolve))
  }

  function AddRule(r: Reading, rule: Option<Rule>): Reading {
    if rule.Some? then r.(fw := r.fw.(rules := r.fw.rules + [rule.value])) else r
  }

  const BLANK := Report("ufw", false, "deny", [], false, 0, "")

  function LineReader(resolve: Resolve): (Reading, string) -> Reading {
    (r: Reading, line: string) => ReadLine(r, line, resolve)
  }

  function ReadLines(r: Reading, lines: seq<string>, resolve: Resolve): Reading {
    Folded(r, lines, LineReader(resolve))
  }

  lemma LinesConcat(r: Reading, a: seq<string>, b: seq<string>, resolve: Resolve)
    ensures ReadLines(r, a + b, resolve) == ReadLines(ReadLines(r, a, resolve), b, resolve)
  {
    FoldedConcat(r, a, b, LineReader(resolve));
  }

  function ReportOf(lines: seq<string>, resolve: Resolve): Report {
    var fw := ReadLines(Reading(BLANK, false), lines, resolve).fw;
    if fw.active then fw else fw.(rules := [])
  }

  /** The loop over the default policies. */
  method TakePolicies(fw: Report, parts: seq<string>) returns (after: Report)
    ensures after == WithPolicies(fw, parts)
  {
    after := fw;
    for i := 0 to |parts|
      invariant after == WithPolicies(fw, parts[..i])
    {
      assert parts[..i + 1][..i] == parts[..i];
      var policy := Policy(parts[i]);
      if policy.Some? {
        after := after.(defaultIncoming := policy.value);
      }
    }
    assert parts[..|parts|] == parts;
  }

  /** One turn of the loop. */
  method TakeLine(r: Reading, line: string, resolve: Resolve) returns (after: Reading)
    ensures after == ReadLine(r, line, resolve)
  {
    var trimmed := TrimSpace(line);
    after := r;
    if HasPrefix(trimmed, STATUS) {
      after := r.(fw := r.fw.(active := TrimSpace(TrimPrefix(trimmed, STATUS)) == "active"));
    } else if HasPrefix(trimmed, DEFAULT) {
      var fw := TakePolicies(r.fw, Split(TrimPrefix(trimmed, DEFAULT), ','));
      after := r.(fw := fw);
    } else if HasPrefix(trimmed, RULE) {
      after := r.(inRules := true);
    } else if r.inRules && trimmed != "" {
      after := AddRule(r, ParseRule(line, resolve));
    }
  }

  lemma LinesSnoc(r: Reading, lines: seq<string>, i: nat, resolve: Resolve)
    requires i < |lines|
    ensures ReadLines(r, lines[..i + 1], resolve) == ReadLine(ReadLines(r, lines[..i], resolve), lines[i], resolve)
  {
    assert lines[..i + 1][..i] == lines[..i];
  }

  /** `ParseUFWStatus`. */
  method ParseUFWStatus(out: string, resolve: Resolve) returns (fw: Report)
    ensures fw == ReportOf(Split(out, '\n'), resolve)
  {
    var lines := Split(out, '\n');
    var r := Reading(BLANK, false);
    for i := 0 to |lines|
      invariant r == ReadLines(Reading(BLANK, false), lines[..i], resolve)
    {
      LinesSnoc(Reading(BLANK, false), lines, i, resolve);
      r := TakeLine(r, lines[i], resolve);
    }
    assert lines[..|lines|] == lines;
    fw := if r.fw.active then r.fw else r.fw.(rules := []);
  }
}
