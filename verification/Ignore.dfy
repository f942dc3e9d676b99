/** One line of an ignore file: the regular expression it compiles to, and what that means. */
module Ignore {
  import opened Prelude
  import opened Text
  import opened Regex

  /** A compiled line, as the packer keeps it. */
  datatype Rule = Rule(re: Re, negate: bool, dirOnly: bool)

  /** What a line says: the pattern left once its markers are read off. */
  datatype Line = Line(pattern: string, anchored: bool, negate: bool, dirOnly: bool)

  /** What may stand after a line. */
  const BLANKS := {' ', '\t', '\r'}

  /** The pattern left once its markers are read off. */
  function ReadPattern(line: string, negate: bool, dirOnly: bool): Option<Line> {
    var pattern := TrimPrefix(line, "/");
    if pattern == "" then None else Some(Line(pattern, '/' in line, negate, dirOnly))
  }

  function ReadFolder(line: string, negate: bool): Option<Line> {
    ReadPattern(TrimSuffix(line, "/"), negate, HasSuffix(line, "/"))
  }

  function ReadTrimmed(line: string): Option<Line> {
    if line == "" || HasPrefix(line, "#") then None else ReadFolder(TrimPrefix(line, "!"), HasPrefix(line, "!"))
  }

  function ReadLine(text: string): Option<Line> {
    ReadTrimmed(TrimRight(text, BLANKS))
  }

  // ── How a line is written ─────────────────────────────────────────────────

  function Mark(on: bool, c: char): string {
    if on then [c] else ""
  }

  /** A line as it is written, with a slash before its pattern or without. */
  function Shown(l: Line, slash: bool): string {
    Mark(l.negate, '!') + (Mark(slash, '/') + (l.pattern + Mark(l.dirOnly, '/')))
  }

  /** A line can be written so: its pattern does not look like a marker where one could stand, and it is
      anchored by a slash before it or in it. */
  predicate Showable(l: Line, slash: bool) {
    && l.pattern != ""
    && (slash || l.pattern[0] != '/') && (slash || l.negate || (l.pattern[0] != '#' && l.pattern[0] != '!'))
    && (l.dirOnly || (l.pattern[|l.pattern| - 1] != '/' && l.pattern[|l.pattern| - 1] !in {' ', '\t', '\r'}))
    && (l.anchored <==> slash || '/' in l.pattern)
  }

  predicate IsPad(pad: string) {
    forall c <- pad :: c in {' ', '\t', '\r'}
  }

  /** The text is the line, written with blanks after it. */
  predicate Writes(text: string, l: Line, slash: bool, n: nat) {
    Showable(l, slash) && n <= |text| && text[..n] == Shown(l, slash) && IsPad(text[n..])
  }

  ghost predicate Says(text: string, l: Line) {
    exists slash: bool, n: nat :: Writes(text, l, slash, n)
  }

  lemma Prefixed(s: string, c: char)
    ensures HasPrefix(s, [c]) <==> s != "" && s[0] == c
    ensures HasPrefix(s, [c]) ==> TrimPrefix(s, [c]) == s[1..] && s == [c] + s[1..]
  {
    if s != "" { assert s[..1] == [s[0]]; }
  }

  lemma Suffixed(s: string, c: char)
    ensures HasSuffix(s, [c]) <==> s != "" && s[|s| - 1] == c
    ensures HasSuffix(s, [c]) ==> TrimSuffix(s, [c]) == s[..|s| - 1] && s == s[..|s| - 1] + [c]
  {
    if s != "" { assert s[|s| - 1..] == [s[|s| - 1]]; }
  }

  /** Each stage of the reading takes off a mark that was put on. */
  lemma PatternReads(l: Line, slash: bool)
    requires l.pattern != "" && (slash || l.pattern[0] != '/') && (l.anchored <==> slash || '/' in l.pattern)
    ensures ReadPattern(Mark(slash, '/') + l.pattern, l.negate, l.dirOnly) == Some(l)
  {
    var line := Mark(slash, '/') + l.pattern;
    Prefixed(line, '/');
    if slash { assert line[1..] == l.pattern; } else { assert line == l.pattern; }
  }

  lemma FolderReads(body: string, negate: bool, dir: bool)
    requires body != "" && (dir || body[|body| - 1] != '/')
    ensures ReadFolder(body + Mark(dir, '/'), negate) == ReadPattern(body, negate, dir)
  {
    var line := body + Mark(dir, '/');
    Suffixed(line, '/');
    if dir { assert line[..|line| - 1] == body; } else { assert line == body; }
  }

  lemma NegateReads(body: string, negate: bool)
    requires body != "" && (negate || (body[0] != '#' && body[0] != '!'))
    ensures ReadTrimmed(Mark(negate, '!') + body) == ReadFolder(body, negate)
  {
    var line := Mark(negate, '!') + body;
    Prefixed(line, '!');
    Prefixed(line, '#');
    if negate { assert line[1..] == body; } else { assert line == body; }
  }

  lemma ShownGroups(l: Line, slash: bool)
    ensures Shown(l, slash) == Mark(l.negate, '!') + ((Mark(slash, '/') + l.pattern) + Mark(l.dirOnly, '/'))
  {
  }

  /** A line reads as what it was written for. */
  lemma ShownReads(l: Line, slash: bool)
    requires Showable(l, slash)
    ensures ReadTrimmed(Shown(l, slash)) == Some(l)
  {
    var body := Mark(slash, '/') + l.pattern;
    assert body[|body| - 1] == l.pattern[|l.pattern| - 1];
    ShownGroups(l, slash);
    PatternReads(l, slash);
    FolderReads(body, l.negate, l.dirOnly);
    NegateReads(body + Mark(l.dirOnly, '/'), l.negate);
  }

  lemma ShownEnds(l: Line, slash: bool)
    requires Showable(l, slash)
    ensures Shown(l, slash) != "" && Shown(l, slash)[|Shown(l, slash)| - 1] !in BLANKS
  {
  }

  lemma PatternShows(line: string, negate: bool, dirOnly: bool)
    requires ReadPattern(line, negate, dirOnly).Some?
    ensures var l, slash := ReadPattern(line, negate, dirOnly).value, line[0] == '/';
            && line == Mark(slash, '/') + l.pattern && l.pattern != "" && (slash || l.pattern[0] != '/')
            && (l.anchored <==> slash || '/' in l.pattern) && l.negate == negate && l.dirOnly == dirOnly
  {
    Prefixed(line, '/');
  }

  lemma FolderShows(line: string, negate: bool)
    requires ReadFolder(line, negate).Some?
    ensures var body, dir := TrimSuffix(line, "/"), HasSuffix(line, "/");
            line == body + Mark(dir, '/') && (dir || line[|line| - 1] != '/')
  {
    Suffixed(line, '/');
  }

  /** And is written so. */
  lemma ReadShows(line: string) returns (slash: bool)
    requires ReadTrimmed(line).Some? && line[|line| - 1] !in BLANKS
    ensures Showable(ReadTrimmed(line).value, slash) && line == Shown(ReadTrimmed(line).value, slash)
  {
    var l, body := ReadTrimmed(line).value, TrimPrefix(line, "!");
    Prefixed(line, '!');
    Prefixed(line, '#');
    FolderShows(body, HasPrefix(line, "!"));
    PatternShows(TrimSuffix(body, "/"), HasPrefix(line, "!"), HasSuffix(body, "/"));
    slash := TrimSuffix(body, "/")[0] == '/';
    ShownGroups(l, slash);
  }

  lemma PadTrims(text: string, line: string)
    requires |line| <= |text| && text[..|line|] == line && IsPad(text[|line|..])
    requires line != "" && line[|line| - 1] !in BLANKS
    ensures TrimRight(text, BLANKS) == line
  {
    TrimRightIs(text, BLANKS);
    var m, n := |TrimRight(text, BLANKS)|, |line|;
    forall i | n <= i < |text|
      ensures text[i] in BLANKS
    {
      assert text[i] == text[n..][i - n] && text[i] in text[n..];
    }
    assert m <= n;
    assert text[n - 1] == line[n - 1];
    assert m >= n;
  }

  lemma TrimmedPad(text: string)
    ensures var line := TrimRight(text, BLANKS);
            |line| <= |text| && line == text[..|line|] && IsPad(text[|line|..]) && (line != "" ==> line[|line| - 1] !in BLANKS)
  {
    TrimRightIs(text, BLANKS);
  }

  lemma WrittenReads(text: string, l: Line, slash: bool, n: nat)
    requires Writes(text, l, slash, n)
    ensures ReadLine(text) == Some(l)
  {
    ShownReads(l, slash);
    ShownEnds(l, slash);
    PadTrims(text, Shown(l, slash));
  }

  lemma ReadIsWritten(text: string, l: Line) returns (slash: bool, n: nat)
    requires ReadLine(text) == Some(l)
    ensures Writes(text, l, slash, n)
  {
    var line := TrimRight(text, BLANKS);
    n := |line|;
    TrimmedPad(text);
    slash := ReadShows(line);
  }

  /** What a line is read as is exactly what it says: a text gives a line when it is that line written, with
      blanks after it, and gives nothing when it is none. */
  lemma ReadsIff(text: string, l: Line)
    ensures ReadLine(text) == Some(l) <==> Says(text, l)
  {
    if slash: bool, n: nat :| Writes(text, l, slash, n) { WrittenReads(text, l, slash, n); }
    if ReadLine(text) == Some(l) {
      var slash, n := ReadIsWritten(text, l);
    }
  }

  // ── The glob a pattern is ─────────────────────────────────────────────────

  /** No newline in `s[i..j]`. */
  predicate OneLine(s: string, i: nat, j: nat)
    requires i <= j <= |s|
  {
    forall k :: i <= k < j ==> s[k] != '\n'
  }

  /** No slash in `s[i..j]`: a part of one path component. */
  predicate OneComponent(s: string, i: nat, j: nat)
    requires i <= j <= |s|
  {
    forall k :: i <= k < j ==> s[k] != '/'
  }

  predicate StartsDoubleStar(p: string) {
    |p| >= 2 && p[0] == '*' && p[1] == '*'
  }

  predicate StartsDoubleStarSlash(p: string) {
    StartsDoubleStar(p) && |p| >= 3 && p[2] == '/'
  }

  /** The path ends at `i`, or a component does and the rest is what lies beneath it. */
  predicate AtBoundary(s: string, i: nat)
    requires i <= |s|
  {
    i == |s| || (s[i] == '/' && OneLine(s, i + 1, |s|))
  }

  /** How many characters of the pattern its first item takes. */
  function Width(p: string): (n: nat)
    requires p != ""
    ensures 1 <= n <= |p|
  {
    if StartsDoubleStarSlash(p) then 3 else if StartsDoubleStar(p) then 2 else 1
  }

  /** The first item of the pattern stands for `s[i..k]`. */
  predicate Consumes(p: string, s: string, i: nat, k: nat)
    requires p != "" && i <= k <= |s|
  {
    if StartsDoubleStarSlash(p) then i == k || (s[k - 1] == '/' && OneLine(s, i, k))
    else if StartsDoubleStar(p) then OneLine(s, i, k)
    else if p[0] == '*' then OneComponent(s, i, k)
    else k == i + 1 && if p[0] == '?' then s[i] != '/' else s[i] == p[0]
  }

  /** Pattern `p` matches the path `s` from `i` to a component boundary. */
  predicate GlobAt(p: string, s: string, i: nat)
    requires i <= |s|
    decreases |p|
  {
    if p == "" then AtBoundary(s, i)
    else exists k :: i <= k <= |s| && Consumes(p, s, i, k) && GlobAt(p[Width(p)..], s, k)
  }

  /** A component of `s` starts at `k`. */
  predicate ComponentStart(s: string, k: nat)
    requires k <= |s|
  {
    k == 0 || s[k - 1] == '/'
  }

  /** A line's pattern matches a path: from the top when it is anchored, from any component when not. */
  predicate GlobMatches(line: Line, s: string) {
    if line.anchored then GlobAt(line.pattern, s, 0)
    else exists k :: 0 <= k <= |s| && ComponentStart(s, k) && GlobAt(line.pattern, s, k)
  }

  /** What the items of a pattern stand for: at the end of it, the path ends or a component does. */
  lemma GlobEnds(s: string, i: nat)
    requires i <= |s|
    ensures GlobAt("", s, i) <==> i == |s| || (s[i] == '/' && '\n' !in s[i + 1..])
  {
  }

  /** `?` is one character of a component, and any other but `*` is itself. */
  lemma GlobChar(c: char, p: string, s: string, i: nat)
    requires i <= |s| && c != '*'
    ensures GlobAt([c] + p, s, i) <==> i < |s| && (if c == '?' then s[i] != '/' else s[i] == c) && GlobAt(p, s, i + 1)
  {
    assert ([c] + p)[1..] == p && Width([c] + p) == 1;
    if i < |s| { assert Consumes([c] + p, s, i, i + 1) <==> if c == '?' then s[i] != '/' else s[i] == c; }
  }

  /** `*` is a part of a component. */
  lemma GlobStar(p: string, s: string, i: nat)
    requires i <= |s| && (p != "" ==> p[0] != '*')
    ensures GlobAt("*" + p, s, i) <==> exists k :: i <= k <= |s| && '/' !in s[i..k] && GlobAt(p, s, k)
  {
    assert ("*" + p)[1..] == p && Width("*" + p) == 1;
    forall k | i <= k <= |s|
      ensures Consumes("*" + p, s, i, k) <==> '/' !in s[i..k]
    {
      assert forall n :: i <= n < k ==> s[n] == s[i..k][n - i];
    }
  }

  lemma GlobAny(p: string, s: string, i: nat)
    requires i <= |s| && (p != "" ==> p[0] != '/')
    ensures GlobAt("**" + p, s, i) <==> exists k :: i <= k <= |s| && '\n' !in s[i..k] && GlobAt(p, s, k)
  {
    assert ("**" + p)[2..] == p && Width("**" + p) == 2;
    forall k | i <= k <= |s|
      ensures Consumes("**" + p, s, i, k) <==> '\n' !in s[i..k]
    {
      assert forall n :: i <= n < k ==> s[n] == s[i..k][n - i];
    }
  }

  /** And before a slash whole components, or nothing. */
  lemma GlobFolders(p: string, s: string, i: nat)
    requires i <= |s|
    ensures GlobAt("**/" + p, s, i)
            <==> exists k :: i <= k <= |s| && (k == i || (s[k - 1] == '/' && '\n' !in s[i..k])) && GlobAt(p, s, k)
  {
    assert ("**/" + p)[3..] == p && Width("**/" + p) == 3;
    forall k | i <= k <= |s|
      ensures Consumes("**/" + p, s, i, k) <==> k == i || (s[k - 1] == '/' && '\n' !in s[i..k])
    {
      assert forall n :: i <= n < k ==> s[n] == s[i..k][n - i];
    }
  }

  // ── The text written for a pattern ────────────────────────────────────────

  const TAIL := "(/.*)?$"

  /** What the compiler writes for the first item of a pattern. */
  function Piece(p: string): string
    requires p != ""
  {
    if StartsDoubleStarSlash(p) then "(.*/)?"
    else if StartsDoubleStar(p) then ".*"
    else if p[0] == '*' then "[^/]*"
    else if p[0] == '?' then "[^/]"
    else Quote(p[0])
  }

  function Written(p: string): string
    decreases |p|
  {
    if p == "" then "" else Piece(p) + Written(p[Width(p)..])
  }

  function Opening(anchored: bool): string {
    if anchored then "^" else "(^|.*/)"
  }

  function Source(line: Line): string {
    Opening(line.anchored) + Written(line.pattern) + TAIL
  }

  function CompileLine(text: string): Option<Rule> {
    match ReadLine(text)
    case None => None
    case Some(line) =>
      match Compile(Source(line))
      case None => None
      case Some(re) => Some(Rule(re, line.negate, line.dirOnly))
  }

  /** `parseIgnoreLine`. */
  method ParseIgnoreLine(text: string) returns (r: Option<Rule>)
    ensures r == CompileLine(text)
  {
    var line := TrimRight(text, BLANKS);
    if line == "" || HasPrefix(line, "#") {
      return None;
    }
    var negate, dirOnly := false, false;
    if HasPrefix(line, "!") {
      negate, line := true, line[1..];
    }
    if HasSuffix(line, "/") {
      dirOnly, line := true, TrimSuffix(line, "/");
    }
    var anchored := '/' in line;
    line := TrimPrefix(line, "/");
    if line == "" {
      return None;
    }
    assert ReadLine(text) == Some(Line(line, anchored, negate, dirOnly));
    var b := if anchored then "^" else "(^|.*/)";
    b := WritePattern(b, line);
    b := b + TAIL;
    match Compile(b) {
      case None => r := None;
      case Some(re) => r := Some(Rule(re, negate, dirOnly));
    }
  }

  /** The loop of `parseIgnoreLine`, writing a pattern after what the builder already holds. */
  method WritePattern(opening: string, line: string) returns (b: string)
    ensures b == opening + Written(line)
  {
    b := opening;
    var i := 0;
    while i < |line|
      invariant i <= |line|
      invariant b + Written(line[i..]) == opening + Written(line)
    {
      ghost var before, rest := b, line[i..];
      var c := line[i];
      if c == '*' && i + 1 < |line| && line[i + 1] == '*' {
        i := i + 1;
        if i + 1 < |line| && line[i + 1] == '/' {
          i := i + 1;
          b := b + "(.*/)?";
        } else {
          b := b + ".*";
        }
      } else if c == '*' {
        b := b + "[^/]*";
      } else if c == '?' {
        b := b + "[^/]";
      } else {
        b := b + Quote(c);
      }
      i := i + 1;
      assert rest[Width(rest)..] == line[i..];
      Regroup(before, Piece(rest), Written(line[i..]));
    }
  }

  lemma Regroup(a: string, b: string, c: string)
    ensures a + b + c == a + (b + c)
  {
  }

  // ── What is written is read back ──────────────────────────────────────────

  const DEEPER := Opt(Cat(Chr('/'), Cat(Star(Dot), Empty)))
  const THROUGH := Cat(Star(Dot), Cat(Chr('/'), Empty))

  function PieceRe(p: string): Re
    requires p != ""
  {
    if StartsDoubleStarSlash(p) then Opt(THROUGH)
    else if StartsDoubleStar(p) then Star(Dot)
    else if p[0] == '*' then Star(NoneOf('/'))
    else if p[0] == '?' then NoneOf('/')
    else Chr(p[0])
  }

  function BodyRe(p: string): Re
    decreases |p|
  {
    if p == "" then Cat(DEEPER, Cat(Eol, Empty)) else Cat(PieceRe(p), BodyRe(p[Width(p)..]))
  }

  function OpeningRe(anchored: bool): Re {
    if anchored then Bol else Alt(Cat(Bol, Empty), THROUGH)
  }

  predicate NoRepeatFirst(s: string) {
    s != "" && !IsRepeat(s[0]) && s[0] != ')' && s[0] != '|'
  }

  // One step of each parsing function, on text that is not known letter by letter.

  lemma ReadsAtom(s: string, c: char, rest: string)
    requires s == [c] + rest
    ensures c == '.' ==> ParseAtom(s) == Got(Dot, rest)
    ensures c == '^' ==> ParseAtom(s) == Got(Bol, rest)
    ensures c == '$' ==> ParseAtom(s) == Got(Eol, rest)
    ensures c == '/' ==> ParseAtom(s) == Got(Chr('/'), rest)
  {
    assert s[1..] == rest;
  }

  lemma ReadsGroup(s: string, inner: string, re: Re, rest: string)
    requires s == ['('] + inner && ParseAlt(inner) == Got(re, [')'] + rest)
    ensures ParseAtom(s) == Got(re, rest)
  {
    assert s[1..] == inner && ([')'] + rest)[1..] == rest;
  }

  lemma ReadsRepeated(s: string, a: Re, op: char, rest: string)
    requires s != "" && ParseAtom(s) == Got(a, [op] + rest)
    requires op in "*?" && (rest == "" || !IsRepeat(rest[0]))
    ensures ParseRepeat(s) == Got(if op == '*' then Star(a) else Opt(a), rest)
  {
    assert ([op] + rest)[1..] == rest;
  }

  lemma ReadsOnce(s: string, a: Re, rest: string)
    requires s != "" && ParseAtom(s) == Got(a, rest)
    requires rest == "" || !IsRepeat(rest[0])
    ensures ParseRepeat(s) == Got(a, rest)
  {
  }

  lemma ReadsCons(s: string, a: Re, rest: string, b: Re, rest': string)
    requires s != "" && s[0] != '|' && s[0] != ')'
    requires ParseRepeat(s) == Got(a, rest) && ParseCat(rest) == Got(b, rest')
    ensures ParseCat(s) == Got(Cat(a, b), rest')
  {
  }

  lemma ReadsClose(rest: string)
    ensures ParseCat([')'] + rest) == Got(Empty, [')'] + rest)
  {
  }

  // The groups and pieces the compiler writes.

  lemma ReadsDotStar(s: string, rest: string)
    requires s == ['.', '*'] + rest && (rest == "" || !IsRepeat(rest[0]))
    ensures ParseRepeat(s) == Got(Star(Dot), rest)
  {
    assert s == ['.'] + (['*'] + rest);
    ReadsAtom(s, '.', ['*'] + rest);
    ReadsRepeated(s, Dot, '*', rest);
  }

  lemma ReadsOther(s: string, rest: string)
    requires NoRepeatFirst(rest)
    ensures s == ['[', '^', '/', ']'] + rest ==> ParseRepeat(s) == Got(NoneOf('/'), rest)
    ensures s == ['[', '^', '/', ']', '*'] + rest ==> ParseRepeat(s) == Got(Star(NoneOf('/')), rest)
  {
    if s == ['[', '^', '/', ']'] + rest {
      assert s[4..] == rest;
    } else if s == ['[', '^', '/', ']', '*'] + rest {
      assert s[4..] == ['*'] + rest;
      ReadsRepeated(s, NoneOf('/'), '*', rest);
    }
  }

  lemma ReadsQuoted(c: char, rest: string)
    requires NoRepeatFirst(rest)
    ensures ParseRepeat(Quote(c) + rest) == Got(Chr(c), rest)
  {
    var s := Quote(c) + rest;
    assert s[|Quote(c)|..] == rest;
  }

  /** `.*` and a slash, up to a closing parenthesis. */
  lemma ReadsThrough(s: string, rest: string)
    requires s == ['.', '*', '/', ')'] + rest
    ensures ParseAlt(s) == Got(THROUGH, [')'] + rest)
  {
    var close := [')'] + rest;
    var slash := ['/'] + close;
    assert s == ['.', '*'] + slash;
    ReadsDotStar(s, slash);
    ReadsAtom(slash, '/', close);
    ReadsOnce(slash, Chr('/'), close);
    ReadsClose(rest);
    ReadsCons(slash, Chr('/'), close, Empty, close);
    ReadsCons(s, Star(Dot), slash, Cat(Chr('/'), Empty), close);
  }

  lemma ReadsOptThrough(s: string, rest: string)
    requires s == ['(', '.', '*', '/', ')', '?'] + rest && NoRepeatFirst(rest)
    ensures ParseRepeat(s) == Got(Opt(THROUGH), rest)
  {
    var inner := ['.', '*', '/', ')'] + (['?'] + rest);
    assert s == ['('] + inner;
    ReadsThrough(inner, ['?'] + rest);
    ReadsGroup(s, inner, THROUGH, ['?'] + rest);
    ReadsRepeated(s, THROUGH, '?', rest);
  }

  lemma ReadsDeeper(s: string, rest: string)
    requires s == ['/', '.', '*', ')'] + rest
    ensures ParseAlt(s) == Got(DEEPER.body, [')'] + rest)
  {
    var close := [')'] + rest;
    var star := ['.', '*'] + close;
    assert s == ['/'] + star;
    ReadsAtom(s, '/', star);
    ReadsOnce(s, Chr('/'), star);
    ReadsDotStar(star, close);
    ReadsClose(rest);
    ReadsCons(star, Star(Dot), close, Empty, close);
    ReadsCons(s, Chr('/'), star, Cat(Star(Dot), Empty), close);
  }

  lemma ReadsTail(s: string, end: string)
    requires s == ['(', '/', '.', '*', ')', '?'] + end && end == ['$']
    ensures ParseCat(s) == Got(BodyRe(""), "")
  {
    var inner := ['/', '.', '*', ')'] + (['?'] + end);
    assert s == ['('] + inner && end == ['$'] + "";
    ReadsDeeper(inner, ['?'] + end);
    ReadsGroup(s, inner, DEEPER.body, ['?'] + end);
    ReadsRepeated(s, DEEPER.body, '?', end);
    ReadsAtom(end, '$', "");
    ReadsOnce(end, Eol, "");
    ReadsCons(end, Eol, "", Empty, "");
    ReadsCons(s, DEEPER, end, Cat(Eol, Empty), "");
  }

  lemma {:induction false} ReadsBody(p: string)
    ensures NoRepeatFirst(Written(p) + TAIL)
    ensures ParseCat(Written(p) + TAIL) == Got(BodyRe(p), "")
    decreases |p|
  {
    if p == "" {
      assert Written(p) + TAIL == TAIL;
      ReadsTail(TAIL, ['$']);
    } else {
      var next := p[Width(p)..];
      var rest := Written(next) + TAIL;
      ReadsBody(next);
      Regroup(Piece(p), Written(next), TAIL);
      ReadsPiece(p, rest);
      ReadsCons(Piece(p) + rest, PieceRe(p), rest, BodyRe(next), "");
    }
  }

  lemma ReadsPiece(p: string, rest: string)
    requires p != "" && NoRepeatFirst(rest)
    ensures NoRepeatFirst(Piece(p) + rest)
    ensures ParseRepeat(Piece(p) + rest) == Got(PieceRe(p), rest)
  {
    var s := Piece(p) + rest;
    if StartsDoubleStarSlash(p) { ReadsOptThrough(s, rest); }
    else if StartsDoubleStar(p) { ReadsDotStar(s, rest); }
    else if p[0] == '*' || p[0] == '?' { ReadsOther(s, rest); }
    else { ReadsQuoted(p[0], rest); }
  }

  /** "start of the path, or anything up to a slash", before a pattern that is not anchored. */
  lemma ReadsAnywhere(s: string, body: string)
    requires s == ['(', '^', '|', '.', '*', '/', ')'] + body
    ensures ParseAtom(s) == Got(OpeningRe(false), body)
  {
    var through := ['.', '*', '/', ')'] + body;
    var bar := ['|'] + through;
    var inner := ['^'] + bar;
    assert s == ['('] + inner && bar[1..] == through;
    ReadsThrough(through, body);
    ReadsAtom(inner, '^', bar);
    ReadsOnce(inner, Bol, bar);
    ReadsCons(inner, Bol, bar, Empty, bar);
    assert ParseAlt(inner) == Got(OpeningRe(false), [')'] + body);
    ReadsGroup(s, inner, OpeningRe(false), body);
  }

  lemma ReadsOpening(anchored: bool, body: string, re: Re)
    requires NoRepeatFirst(body) && ParseCat(body) == Got(re, "")
    ensures ParseCat(Opening(anchored) + body) == Got(Cat(OpeningRe(anchored), re), "")
  {
    var s := Opening(anchored) + body;
    if anchored {
      ReadsAtom(s, '^', body);
    } else {
      ReadsAnywhere(s, body);
    }
    ReadsOnce(s, OpeningRe(anchored), body);
    ReadsCons(s, OpeningRe(anchored), body, re, "");
  }

  /** The text written for any line is a valid expression, in which every character of the
      pattern that is not a wildcard stands for itself. */
  lemma SourceCompiles(line: Line)
    ensures Compile(Source(line)) == Some(Cat(OpeningRe(line.anchored), BodyRe(line.pattern)))
  {
    ReadsBody(line.pattern);
    Regroup(Opening(line.anchored), Written(line.pattern), TAIL);
    ReadsOpening(line.anchored, Written(line.pattern) + TAIL, BodyRe(line.pattern));
  }

  // ── What the expression matches ───────────────────────────────────────────

  lemma {:induction false} DotStarMatches(s: string, i: nat, j: nat)
    requires i <= j <= |s|
    ensures Matches(Star(Dot), s, i, j) <==> OneLine(s, i, j)
    decreases j - i
  {
    if i < j {
      DotStarMatches(s, i + 1, j);
      if OneLine(s, i, j) {
        assert Matches(Dot, s, i, i + 1);
      }
    }
  }

  lemma {:induction false} ComponentStarMatches(s: string, i: nat, j: nat)
    requires i <= j <= |s|
    ensures Matches(Star(NoneOf('/')), s, i, j) <==> OneComponent(s, i, j)
    decreases j - i
  {
    if i < j {
      ComponentStarMatches(s, i + 1, j);
      if OneComponent(s, i, j) {
        assert Matches(NoneOf('/'), s, i, i + 1);
      }
    }
  }

  lemma CatEmpty(a: Re, s: string, i: nat, j: nat)
    requires i <= j <= |s|
    ensures Matches(Cat(a, Empty), s, i, j) <==> Matches(a, s, i, j)
  {
    assert Matches(Empty, s, j, j);
  }

  lemma SplitCat(a: Re, b: Re, s: string, i: nat, j: nat) returns (k: nat)
    requires i <= j <= |s| && Matches(Cat(a, b), s, i, j)
    ensures i <= k <= j && Matches(a, s, i, k) && Matches(b, s, k, j)
  {
    k :| i <= k <= j && Matches(a, s, i, k) && Matches(b, s, k, j);
  }

  lemma JoinCat(a: Re, b: Re, s: string, i: nat, k: nat, j: nat)
    requires i <= k <= j <= |s| && Matches(a, s, i, k) && Matches(b, s, k, j)
    ensures Matches(Cat(a, b), s, i, j)
  {
  }

  lemma ThroughMatches(s: string, i: nat, j: nat)
    requires i <= j <= |s|
    ensures Matches(THROUGH, s, i, j) <==> i < j && s[j - 1] == '/' && OneLine(s, i, j)
  {
    var slash := Cat(Chr('/'), Empty);
    if Matches(THROUGH, s, i, j) {
      var k := SplitCat(Star(Dot), slash, s, i, j);
      CatEmpty(Chr('/'), s, k, j);
      DotStarMatches(s, i, k);
    }
    if i < j && s[j - 1] == '/' && OneLine(s, i, j) {
      CatEmpty(Chr('/'), s, j - 1, j);
      DotStarMatches(s, i, j - 1);
      JoinCat(Star(Dot), slash, s, i, j - 1, j);
    }
  }

  lemma DeeperMatches(s: string, i: nat)
    requires i <= |s|
    ensures Matches(DEEPER, s, i, |s|) <==> AtBoundary(s, i)
  {
    var rest := Cat(Star(Dot), Empty);
    if Matches(DEEPER.body, s, i, |s|) {
      var k := SplitCat(Chr('/'), rest, s, i, |s|);
      CatEmpty(Star(Dot), s, k, |s|);
      DotStarMatches(s, k, |s|);
    }
    if i < |s| && AtBoundary(s, i) {
      CatEmpty(Star(Dot), s, i + 1, |s|);
      DotStarMatches(s, i + 1, |s|);
      JoinCat(Chr('/'), rest, s, i, i + 1, |s|);
    }
  }

  lemma TailMatches(s: string, i: nat, j: nat)
    requires i <= j <= |s|
    ensures Matches(BodyRe(""), s, i, j) <==> j == |s| && AtBoundary(s, i)
  {
    var end := Cat(Eol, Empty);
    DeeperMatches(s, i);
    if Matches(BodyRe(""), s, i, j) {
      var k := SplitCat(DEEPER, end, s, i, j);
      CatEmpty(Eol, s, k, j);
    }
    if j == |s| && AtBoundary(s, i) {
      CatEmpty(Eol, s, j, j);
      JoinCat(DEEPER, end, s, i, j, j);
    }
  }

  lemma PieceMatches(p: string, s: string, i: nat, k: nat)
    requires p != "" && i <= k <= |s|
    ensures Matches(PieceRe(p), s, i, k) <==> Consumes(p, s, i, k)
  {
    if StartsDoubleStarSlash(p) { ThroughMatches(s, i, k); }
    else if StartsDoubleStar(p) { DotStarMatches(s, i, k); }
    else if p[0] == '*' { ComponentStarMatches(s, i, k); }
  }

  /** The expression for a pattern matches to the end of the path exactly when the glob does. */
  lemma {:induction false} BodyMatches(p: string, s: string, i: nat)
    requires i <= |s|
    ensures Matches(BodyRe(p), s, i, |s|) <==> GlobAt(p, s, i)
    decreases |p|
  {
    if p == "" {
      TailMatches(s, i, |s|);
    } else {
      var next := p[Width(p)..];
      if Matches(BodyRe(p), s, i, |s|) {
        var k := SplitCat(PieceRe(p), BodyRe(next), s, i, |s|);
        PieceMatches(p, s, i, k);
        BodyMatches(next, s, k);
      }
      if GlobAt(p, s, i) {
        var k :| i <= k <= |s| && Consumes(p, s, i, k) && GlobAt(next, s, k);
        PieceMatches(p, s, i, k);
        BodyMatches(next, s, k);
        JoinCat(PieceRe(p), BodyRe(next), s, i, k, |s|);
      }
    }
  }

  lemma OpeningMatches(anchored: bool, s: string, i: nat, k: nat)
    requires i <= k <= |s|
    ensures Matches(OpeningRe(anchored), s, i, k) <==>
            if anchored then i == k == 0
            else i == k == 0 || (i < k && s[k - 1] == '/' && OneLine(s, i, k))
  {
    ThroughMatches(s, i, k);
    CatEmpty(Bol, s, i, k);
  }

  /** Any match of a line's expression ends where the path does. */
  lemma {:induction false} BodyEndsAtEnd(p: string, s: string, i: nat, j: nat)
    requires i <= j <= |s| && Matches(BodyRe(p), s, i, j)
    ensures j == |s|
    decreases |p|
  {
    if p == "" {
      TailMatches(s, i, j);
    } else {
      var next := p[Width(p)..];
      var k := SplitCat(PieceRe(p), BodyRe(next), s, i, j);
      BodyEndsAtEnd(next, s, k, j);
    }
  }

  lemma SearchIsGlob(line: Line, s: string)
    ensures Search(Cat(OpeningRe(line.anchored), BodyRe(line.pattern)), s) <==> GlobMatches(line, s)
  {
    var open, body := OpeningRe(line.anchored), BodyRe(line.pattern);
    if Search(Cat(open, body), s) {
      var i, j :| 0 <= i <= j <= |s| && Matches(Cat(open, body), s, i, j);
      var k := SplitCat(open, body, s, i, j);
      BodyEndsAtEnd(line.pattern, s, k, j);
      BodyMatches(line.pattern, s, k);
      OpeningMatches(line.anchored, s, i, k);
      assert ComponentStart(s, k);
    }
    if GlobMatches(line, s) {
      var k :| 0 <= k <= |s| && (if line.anchored then k == 0 else ComponentStart(s, k)) && GlobAt(line.pattern, s, k);
      var i := if k == 0 then 0 else k - 1;
      OpeningMatches(line.anchored, s, i, k);
      BodyMatches(line.pattern, s, k);
      if k != 0 {
        assert s[k - 1] == '/' && OneLine(s, i, k);
      }
      assert Matches(Cat(open, body), s, i, |s|);
    }
  }

  /** A compiled rule says what its line says: the same markers, and a search for its expression
      finds a match in a path exactly when the pattern, read as a glob, matches the path. */
  ghost predicate Means(rule: Rule, line: Line) {
    && rule.negate == line.negate && rule.dirOnly == line.dirOnly
    && forall path :: Search(rule.re, path) <==> GlobMatches(line, path)
  }

  lemma LineCompiles(text: string)
    ensures CompileLine(text).Some? <==> ReadLine(text).Some?
    ensures ReadLine(text).Some? ==> Means(CompileLine(text).value, ReadLine(text).value)
  {
    if ReadLine(text).Some? {
      var line := ReadLine(text).value;
      SourceCompiles(line);
      forall path {
        SearchIsGlob(line, path);
      }
    }
  }

  /** The whole compilation keeps the meaning: a text compiles exactly when it says a line, and for every
      path the compiled rule answers as that line does. */
  lemma CompiledLineMeans(text: string)
    ensures CompileLine(text).Some? <==> exists l :: Says(text, l)
    ensures forall l :: Says(text, l) ==> CompileLine(text).Some? && Means(CompileLine(text).value, l)
  {
    LineCompiles(text);
    if ReadLine(text).Some? { ReadsIff(text, ReadLine(text).value); }
    forall l | Says(text, l)
      ensures CompileLine(text).Some? && Means(CompileLine(text).value, l)
    {
      ReadsIff(text, l);
    }
  }
}
