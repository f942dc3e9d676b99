/** Names made from other names: a project's slug and a service's name. */
module Slugs {
  import opened Text
  import opened Requests

  predicate IsAlnum(c: char) {
    IsLower(c) || IsDigit(c)
  }

  predicate IsSlugChar(c: char) {
    IsAlnum(c) || c == '-'
  }

  predicate DoubleAt(s: string, i: int) {
    0 <= i < |s| - 1 && s[i] == '-' && s[i + 1] == '-'
  }

  /** Runs of letters and digits joined by single hyphens, at least one. */
  ghost predicate IsSlug(s: string) {
    s != "" && s[0] != '-' && s[|s| - 1] != '-' && (forall c <- s :: IsSlugChar(c)) && forall i :: !DoubleAt(s, i)
  }

  // ── Runs ──────────────────────────────────────────────────────────────────

  function NonEmpty(parts: seq<string>): seq<string> {
    if parts == [] then [] else (if parts[0] == "" then [] else [parts[0]]) + NonEmpty(parts[1..])
  }

  /** The runs between the hyphens. */
  function Runs(s: string): seq<string> {
    NonEmpty(Split(s, '-'))
  }

  /** The runs, joined by single hyphens. */
  function Tidy(s: string): string {
    Join(Runs(s), '-')
  }

  lemma {:induction false} NonEmptyConcat(a: seq<string>, b: seq<string>)
    ensures NonEmpty(a + b) == NonEmpty(a) + NonEmpty(b)
  {
    if a == [] {
      assert a + b == b;
    } else {
      assert (a + b)[1..] == a[1..] + b;
      NonEmptyConcat(a[1..], b);
    }
  }

  lemma RunsDash(s: string)
    ensures Runs(['-'] + s) == Runs(s)
  {
    assert (['-'] + s)[1..] == s;
    NonEmptyConcat([""], Split(s, '-'));
    assert NonEmpty([""]) == [];
  }

  lemma {:induction false} SplitSnocSep(s: string, sep: char)
    ensures Split(s + [sep], sep) == Split(s, sep) + [""]
  {
    if s == "" {
      assert (s + [sep])[1..] == "";
    } else {
      assert (s + [sep])[1..] == s[1..] + [sep];
      SplitSnocSep(s[1..], sep);
      assert (Split(s[1..], sep) + [""])[1..] == Split(s[1..], sep)[1..] + [""];
    }
  }

  lemma RunsDashAfter(s: string)
    ensures Runs(s + ['-']) == Runs(s)
  {
    SplitSnocSep(s, '-');
    NonEmptyConcat(Split(s, '-'), [""]);
    assert NonEmpty([""]) == [];
  }

  lemma {:induction false} RunsTrimLeft(s: string)
    ensures Runs(TrimLeft(s, {'-'})) == Runs(s)
  {
    if s != "" && s[0] == '-' {
      RunsTrimLeft(s[1..]);
      RunsDash(s[1..]);
      assert s == ['-'] + s[1..];
    }
  }

  lemma {:induction false} RunsTrimRight(s: string)
    ensures Runs(TrimRight(s, {'-'})) == Runs(s)
  {
    if s != "" && s[|s| - 1] == '-' {
      RunsTrimRight(s[..|s| - 1]);
      RunsDashAfter(s[..|s| - 1]);
      assert s == s[..|s| - 1] + ['-'];
    }
  }

  /** Trimming hyphens off the ends leaves the runs. */
  lemma RunsTrim(s: string)
    ensures Runs(Trim(s, {'-'})) == Runs(s)
  {
    RunsTrimLeft(s);
    RunsTrimRight(TrimLeft(s, {'-'}));
  }

  // ── Collapsing ────────────────────────────────────────────────────────────

  predicate HasDouble(s: string) {
    exists i :: 0 <= i < |s| - 1 && DoubleAt(s, i)
  }

  /** `strings.ReplaceAll(s, "--", "-")`. */
  function Halved(s: string): string {
    if s == "" then ""
    else if DoubleAt(s, 0) then ['-'] + Halved(s[2..])
    else [s[0]] + Halved(s[1..])
  }

  lemma {:induction false} HalvedShorter(s: string)
    ensures |Halved(s)| <= |s|
    ensures HasDouble(s) ==> |Halved(s)| < |s|
  {
    if s != "" {
      if DoubleAt(s, 0) {
        HalvedShorter(s[2..]);
      } else {
        HalvedShorter(s[1..]);
        if HasDouble(s) {
          var i :| 0 <= i < |s| - 1 && DoubleAt(s, i);
          assert DoubleAt(s[1..], i - 1);
        }
      }
    }
  }

  /** Halving leaves the piece before the first hyphen and the runs after it. */
  lemma {:induction false} HalvedPieces(s: string)
    ensures Split(Halved(s), '-')[0] == Split(s, '-')[0]
    ensures NonEmpty(Split(Halved(s), '-')[1..]) == NonEmpty(Split(s, '-')[1..])
  {
    if s != "" {
      if DoubleAt(s, 0) {
        var t := s[2..];
        HalvedPieces(t);
        DashPieces(Halved(t));
        DashPieces(s[1..]);
        DashPieces(t);
        assert s == ['-'] + s[1..] && s[1..] == ['-'] + t;
        HeadAndTail(Split(t, '-'), Split(Halved(t), '-'));
        NonEmptyConcat([""], Split(t, '-'));
        assert NonEmpty([""]) == [];
      } else {
        var t := s[1..];
        HalvedPieces(t);
        assert ([s[0]] + Halved(t))[1..] == Halved(t);
        if s[0] == '-' {
          DashPieces(Halved(t));
          DashPieces(t);
          assert s == ['-'] + t;
          HeadAndTail(Split(t, '-'), Split(Halved(t), '-'));
        }
      }
    }
  }

  lemma DashPieces(t: string)
    ensures Split(['-'] + t, '-') == [""] + Split(t, '-')
  {
    assert (['-'] + t)[1..] == t;
  }

  lemma HeadAndTail(a: seq<string>, b: seq<string>)
    requires a != [] && b != [] && a[0] == b[0] && NonEmpty(a[1..]) == NonEmpty(b[1..])
    ensures NonEmpty(a) == NonEmpty(b)
  {
  }

  lemma RunsHalved(s: string)
    ensures Runs(Halved(s)) == Runs(s)
  {
    HalvedPieces(s);
    HeadAndTail(Split(s, '-'), Split(Halved(s), '-'));
  }

  /** The characters and ends of a string, which halving keeps. */
  predicate Bare(s: string) {
    (forall c <- s :: IsSlugChar(c)) && (s != "" ==> s[0] != '-' && s[|s| - 1] != '-')
  }

  lemma {:induction false} HalvedEnds(s: string)
    ensures (s == "") == (Halved(s) == "")
    ensures s != "" ==> Halved(s)[0] == s[0] && Halved(s)[|Halved(s)| - 1] == s[|s| - 1]
    ensures forall c <- Halved(s) :: c in s
  {
    if s != "" {
      var t := if DoubleAt(s, 0) then s[2..] else s[1..];
      HalvedEnds(t);
      assert Halved(s) == [s[0]] + Halved(t);
      if t == "" {
        assert Halved(s) == [s[0]] && s[|s| - 1] == s[0];
      } else {
        assert s[|s| - 1] == t[|t| - 1];
      }
    }
  }

  lemma {:induction false} JoinSplit(s: string, sep: char)
    ensures Join(Split(s, sep), sep) == s
  {
    if s != "" {
      JoinSplit(s[1..], sep);
      var rest := Split(s[1..], sep);
      if s[0] == sep {
        assert ([""] + rest)[1..] == rest;
        assert Join([""] + rest, sep) == "" + [sep] + Join(rest, sep);
      } else {
        JoinHead(s[0], rest, sep);
      }
      assert s == [s[0]] + s[1..];
    }
  }

  lemma JoinHead(c: char, parts: seq<string>, sep: char)
    requires parts != []
    ensures Join([[c] + parts[0]] + parts[1..], sep) == [c] + Join(parts, sep)
  {
    var more := [[c] + parts[0]] + parts[1..];
    assert more[1..] == parts[1..];
    if |parts| > 1 {
      assert [c] + (parts[0] + [sep] + Join(parts[1..], sep)) == ([c] + parts[0]) + [sep] + Join(parts[1..], sep);
    }
  }

  lemma {:induction false} PiecesNonEmpty(s: string)
    requires s != "" && s[|s| - 1] != '-' && forall i :: !DoubleAt(s, i)
    ensures forall i :: 0 < i < |Split(s, '-')| ==> Split(s, '-')[i] != ""
    ensures s[0] != '-' ==> Split(s, '-')[0] != ""
  {
    var t := s[1..];
    if t != "" {
      forall i
        ensures !DoubleAt(t, i)
      {
        assert !DoubleAt(s, i + 1);
      }
      PiecesNonEmpty(t);
      assert !DoubleAt(s, 0);
    }
  }

  lemma {:induction false} AllNonEmpty(parts: seq<string>)
    requires forall i :: 0 <= i < |parts| ==> parts[i] != ""
    ensures NonEmpty(parts) == parts
  {
    if parts != [] { AllNonEmpty(parts[1..]); }
  }

  /** A slug is tidy already. */
  lemma SlugIsTidy(s: string)
    requires s != "" && s[0] != '-' && s[|s| - 1] != '-' && forall i :: !DoubleAt(s, i)
    ensures Tidy(s) == s
  {
    PiecesNonEmpty(s);
    AllNonEmpty(Split(s, '-'));
    JoinSplit(s, '-');
  }

  // ── A project's slug ──────────────────────────────────────────────────────

  /** What a character of a name becomes, if anything. */
  function SlugChar(c: char): string {
    if IsAlnum(c) then [c] else if c == ' ' || c == '_' || c == '-' || c == '.' then ['-'] else ""
  }

  function Mapped(s: string, f: char -> string): string {
    if s == "" then "" else Mapped(s[..|s| - 1], f) + f(s[|s| - 1])
  }

  lemma {:induction false} MappedChars(s: string, f: char -> string)
    requires forall c :: forall d <- f(c) :: IsSlugChar(d)
    ensures forall d <- Mapped(s, f) :: IsSlugChar(d)
  {
    if s != "" { MappedChars(s[..|s| - 1], f); }
  }

  lemma {:induction false} MappedSame(s: string, f: char -> string)
    requires forall c <- s :: f(c) == [c]
    ensures Mapped(s, f) == s
  {
    if s != "" {
      MappedSame(s[..|s| - 1], f);
      assert s[|s| - 1] in s && s == s[..|s| - 1] + [s[|s| - 1]];
    }
  }

  const MAX_SLUG := 50

  function Clipped(s: string): string {
    if |s| > MAX_SLUG then Trim(s[..MAX_SLUG], {'-'}) else s
  }

  /** The slug of a name already trimmed and in lower case. */
  function SlugOf(name: string): string {
    var tidy := Tidy(Mapped(name, SlugChar));
    if tidy == "" then "project" else Clipped(tidy)
  }

  /** The loop that fills the builder. */
  method Build(name: string) returns (b: string)
    ensures b == Mapped(name, SlugChar)
  {
    b := "";
    for i := 0 to |name|
      invariant b == Mapped(name[..i], SlugChar)
    {
      assert name[..i + 1][..i] == name[..i];
      var c := name[i];
      if IsAlnum(c) {
        b := b + [c];
      } else if c == ' ' || c == '_' || c == '-' || c == '.' {
        b := b + ['-'];
      }
    }
    assert name[..|name|] == name;
  }

  /** The loop that collapses hyphens. It ends, for each turn makes the slug shorter. */
  method Collapse(s: string) returns (slug: string)
    requires Bare(s)
    ensures slug == Tidy(s) && (slug == "" || IsSlug(slug))
  {
    slug := s;
    while HasDouble(slug)
      invariant Bare(slug) && Runs(slug) == Runs(s)
      decreases |slug|
    {
      HalvedShorter(slug);
      HalvedEnds(slug);
      RunsHalved(slug);
      slug := Halved(slug);
    }
    assert forall i :: !DoubleAt(slug, i);
    if slug == "" {
      assert Runs(slug) == [] by { assert NonEmpty([""]) == []; }
    } else {
      SlugIsTidy(slug);
    }
  }

  /** `ProjectSlug`. `lower` is `strings.ToLower`. */
  method ProjectSlug(name: string, lower: string -> string) returns (slug: string)
    ensures slug == SlugOf(lower(TrimSpace(name)))
    ensures IsSlug(slug) && |slug| <= MAX_SLUG
  {
    var b := Build(lower(TrimSpace(name)));
    BuiltChars(lower(TrimSpace(name)));
    RunsTrim(b);
    TrimBare(b);
    slug := Collapse(Trim(b, {'-'}));
    if slug == "" {
      ProjectIsSlug();
      return "project";
    }
    if |slug| > MAX_SLUG {
      ClipKeeps(slug);
      slug := Trim(slug[..MAX_SLUG], {'-'});
    }
  }

  lemma BuiltChars(name: string)
    ensures forall d <- Mapped(name, SlugChar) :: IsSlugChar(d)
  {
    MappedChars(name, SlugChar);
  }

  lemma TrimIsPart(s: string)
    ensures var t := Trim(s, {'-'});
            t == "" || exists i: nat, j: nat :: i < j <= |s| && t == s[i..j] && s[i] != '-' && s[j - 1] != '-'
    ensures s != "" && s[0] != '-' ==> Trim(s, {'-'}) != "" && Trim(s, {'-'}) == s[..|Trim(s, {'-'})|]
  {
    var left := TrimLeft(s, {'-'});
    var t := TrimRight(left, {'-'});
    TrimLeftIs(s, {'-'});
    TrimRightIs(left, {'-'});
    var i := |s| - |left|;
    assert left == s[i..];
    if t != "" {
      assert t == s[i..i + |t|] && s[i] == left[0] == t[0] && s[i + |t| - 1] == t[|t| - 1];
    }
  }

  lemma TrimBare(s: string)
    requires forall c <- s :: IsSlugChar(c)
    ensures Bare(Trim(s, {'-'}))
  {
    TrimIsPart(s);
  }

  lemma ProjectIsSlug()
    ensures IsSlug("project")
  {
    forall i
      ensures !DoubleAt("project", i)
    {
      AllLetters("project");
    }
  }

  lemma AllLetters(s: string)
    requires forall c <- s :: c != '-'
    ensures forall i :: !DoubleAt(s, i)
  {
    forall i | 0 <= i < |s|
      ensures s[i] != '-'
    {
      assert s[i] in s;
    }
  }

  /** Cutting a slug short and trimming it again gives a slug. */
  lemma ClipKeeps(s: string)
    requires IsSlug(s) && |s| > MAX_SLUG
    ensures IsSlug(Clipped(s)) && |Clipped(s)| <= MAX_SLUG && Clipped(s) <= s
  {
    var head := s[..MAX_SLUG];
    assert head[0] == s[0];
    TrimIsPart(head);
    var t := Trim(head, {'-'});
    assert t == s[..|t|];
    forall i
      ensures !DoubleAt(t, i)
    {
      assert !DoubleAt(s, i);
    }
  }

  /** Lower-casing leaves what is already lower case. */
  ghost predicate KeepsSlugs(lower: string -> string) {
    forall s :: (forall c <- s :: IsSlugChar(c)) ==> lower(s) == s
  }

  lemma SlugTrims(s: string)
    requires IsSlug(s)
    ensures TrimSpace(s) == s
  {
    assert s[0] in s && s[|s| - 1] in s;
    TrimPlain(s, SPACE);
  }

  lemma {:induction false} Collapses(s: string) returns (u: string)
    requires Bare(s)
    ensures Runs(u) == Runs(s) && Bare(u) && !HasDouble(u)
    decreases |s|
  {
    u := s;
    if HasDouble(s) {
      HalvedShorter(s);
      HalvedEnds(s);
      RunsHalved(s);
      u := Collapses(Halved(s));
    }
  }

  /** The runs of any string of letters, digits and hyphens, joined, are a slug if there are any. */
  lemma TidyIsSlug(s: string)
    requires forall c <- s :: IsSlugChar(c)
    ensures Tidy(s) == "" || IsSlug(Tidy(s))
  {
    RunsTrim(s);
    TrimBare(s);
    var u := Collapses(Trim(s, {'-'}));
    assert forall i :: !DoubleAt(u, i);
    if u == "" {
      assert Runs("") == [] by { assert NonEmpty([""]) == []; }
    } else {
      SlugIsTidy(u);
    }
  }

  lemma SlugOfIsSlug(name: string)
    ensures IsSlug(SlugOf(name)) && |SlugOf(name)| <= MAX_SLUG
  {
    BuiltChars(name);
    TidyIsSlug(Mapped(name, SlugChar));
    ProjectIsSlug();
    if |Tidy(Mapped(name, SlugChar))| > MAX_SLUG { ClipKeeps(Tidy(Mapped(name, SlugChar))); }
  }

  /** A slug is its own slug. */
  lemma SlugOfSlug(s: string, lower: string -> string)
    requires IsSlug(s) && |s| <= MAX_SLUG && KeepsSlugs(lower)
    ensures SlugOf(lower(TrimSpace(s))) == s
  {
    SlugTrims(s);
    MappedSame(s, SlugChar);
    SlugIsTidy(s);
  }

  /** Making a slug twice is making it once. */
  lemma SlugTwice(name: string, lower: string -> string)
    requires KeepsSlugs(lower)
    ensures SlugOf(lower(TrimSpace(SlugOf(name)))) == SlugOf(name)
  {
    SlugOfIsSlug(name);
    SlugOfSlug(SlugOf(name), lower);
  }

  // ── A service's name ──────────────────────────────────────────────────────

  function ServiceChar(c: char): string {
    if IsAlnum(c) then [c] else ['-']
  }

  /** The name of a folder already in lower case. */
  function ServiceOf(folder: string): string {
    var tidy := Tidy(Mapped(folder, ServiceChar));
    if tidy == "" then "app" else tidy
  }

  predicate EndsInRun(s: string) {
    s != "" && s[|s| - 1] != '-'
  }

  /** What the builder holds: the characters so far, tidy but for a hyphen after them. */
  ghost predicate Built(b: string, dash: bool, soFar: string) {
    && Runs(b) == Runs(soFar)
    && (forall c <- b :: IsSlugChar(c)) && (forall i :: !DoubleAt(b, i))
    && (b != "" ==> b[0] != '-') && (EndsInRun(b) <==> EndsInRun(soFar)) && (dash <==> b != "" && b[|b| - 1] == '-')
  }

  /** `ServiceNameFor`. `lower` is `strings.ToLower`. */
  method ServiceNameFor(folder: string, lower: string -> string) returns (name: string)
    ensures name == ServiceOf(lower(folder))
    ensures IsSlug(name)
  {
    var chars := lower(folder);
    var b, dash := "", false;
    for i := 0 to |chars|
      invariant Built(b, dash, Mapped(chars[..i], ServiceChar))
    {
      assert chars[..i + 1][..i] == chars[..i];
      var c := chars[i];
      if IsAlnum(c) {
        LetterBuilt(b, dash, Mapped(chars[..i], ServiceChar), c);
        b, dash := b + [c], false;
      } else {
        DashBuilt(b, dash, Mapped(chars[..i], ServiceChar));
        if !dash && |b| > 0 {
          b, dash := b + ['-'], true;
        }
      }
    }
    assert chars[..|chars|] == chars;
    name := TrimRight(b, {'-'});
    BuiltTrims(b, dash, Mapped(chars, ServiceChar));
    if name == "" {
      AppIsSlug();
      return "app";
    }
  }

  /** The last piece, one character longer. */
  function Longer(parts: seq<string>, c: char): seq<string>
    requires parts != []
  {
    parts[..|parts| - 1] + [parts[|parts| - 1] + [c]]
  }

  lemma LongerTail(x: string, parts: seq<string>, c: char)
    requires parts != []
    ensures Longer([x] + parts, c) == [x] + Longer(parts, c)
  {
    assert ([x] + parts)[..|parts|] == [x] + parts[..|parts| - 1];
  }

  lemma LongerHead(h: char, parts: seq<string>, c: char)
    requires parts != []
    ensures Longer([[h] + parts[0]] + parts[1..], c) == [[h] + Longer(parts, c)[0]] + Longer(parts, c)[1..]
  {
    if |parts| == 1 {
      assert [h] + (parts[0] + [c]) == [h] + parts[0] + [c];
    } else {
      LongerTail([h] + parts[0], parts[1..], c);
      LongerTail(parts[0], parts[1..], c);
      assert parts == [parts[0]] + parts[1..];
    }
  }

  lemma {:induction false} SplitSnoc(s: string, c: char, sep: char)
    requires c != sep
    ensures Split(s + [c], sep) == Longer(Split(s, sep), c)
  {
    if s == "" {
      SplitWhole([c], sep);
      assert "" + [c] == [c];
    } else {
      assert (s + [c])[1..] == s[1..] + [c];
      SplitSnoc(s[1..], c, sep);
      if s[0] == sep {
        LongerTail("", Split(s[1..], sep), c);
      } else {
        LongerHead(s[0], Split(s[1..], sep), c);
      }
    }
  }

  /** Adding a letter to two strings of the same runs, both at the end of a run or both not. */
  lemma LetterRuns(a: string, b: string, c: char)
    requires c != '-' && Runs(a) == Runs(b)
    requires EndsInRun(a) <==> EndsInRun(b)
    ensures Runs(a + [c]) == Runs(b + [c])
  {
    LetterRun(a, c);
    LetterRun(b, c);
  }

  lemma NonEmptyOne(x: string)
    ensures NonEmpty([x]) == if x == "" then [] else [x]
  {
    assert [x][1..] == [];
  }

  lemma LetterRun(s: string, c: char)
    requires c != '-'
    ensures !EndsInRun(s) ==> Runs(s + [c]) == Runs(s) + [[c]]
    ensures EndsInRun(s) ==>
              Runs(s) != [] && Runs(s + [c]) == Runs(s)[..|Runs(s)| - 1] + [Runs(s)[|Runs(s)| - 1] + [c]]
  {
    SplitSnoc(s, c, '-');
    var parts := Split(s, '-');
    var n := |parts| - 1;
    LastPiece(s);
    assert parts == parts[..n] + [parts[n]];
    NonEmptyConcat(parts[..n], [parts[n]]);
    NonEmptyConcat(parts[..n], [parts[n] + [c]]);
    NonEmptyOne(parts[n]);
    NonEmptyOne(parts[n] + [c]);
    assert [] + [c] == [c];
  }

  lemma {:induction false} LastPiece(s: string)
    ensures var parts := Split(s, '-');
            parts[|parts| - 1] == "" <==> !EndsInRun(s)
  {
    if s != "" {
      LastPiece(s[1..]);
    }
  }

  lemma LetterBuilt(b: string, dash: bool, soFar: string, c: char)
    requires Built(b, dash, soFar) && IsAlnum(c)
    ensures Built(b + [c], false, soFar + [c])
  {
    LetterRuns(b, soFar, c);
    forall i
      ensures !DoubleAt(b + [c], i)
    {
      assert !DoubleAt(b, i);
    }
  }

  lemma DashBuilt(b: string, dash: bool, soFar: string)
    requires Built(b, dash, soFar)
    ensures Built(if !dash && |b| > 0 then b + ['-'] else b, dash || |b| > 0, soFar + ['-'])
  {
    RunsDashAfter(b);
    RunsDashAfter(soFar);
    forall i
      ensures !dash ==> !DoubleAt(b + ['-'], i)
    {
      assert !DoubleAt(b, i);
    }
  }

  lemma BuiltTrims(b: string, dash: bool, soFar: string)
    requires Built(b, dash, soFar)
    ensures TrimRight(b, {'-'}) == Tidy(soFar)
    ensures TrimRight(b, {'-'}) == "" || IsSlug(TrimRight(b, {'-'}))
  {
    var name := TrimRight(b, {'-'});
    TrimRightIs(b, {'-'});
    RunsTrimRight(b);
    forall i
      ensures !DoubleAt(name, i)
    {
      assert !DoubleAt(b, i);
    }
    if name == "" {
      assert Runs("") == [] by { assert NonEmpty([""]) == []; }
    } else {
      SlugIsTidy(name);
    }
  }

  lemma AppIsSlug()
    ensures IsSlug("app")
  {
    AllLetters("app");
  }

  /** A service's name is its own service name. */
  lemma ServiceOfService(s: string, lower: string -> string)
    requires IsSlug(s) && KeepsSlugs(lower)
    ensures ServiceOf(lower(s)) == s
  {
    MappedDashes(s);
    SlugIsTidy(s);
  }

  lemma ServiceChars(folder: string)
    ensures forall d <- Mapped(folder, ServiceChar) :: IsSlugChar(d)
  {
    MappedChars(folder, ServiceChar);
  }

  /** Making a service's name twice is making it once. */
  lemma ServiceTwice(folder: string, lower: string -> string)
    requires KeepsSlugs(lower)
    ensures ServiceOf(lower(ServiceOf(folder))) == ServiceOf(folder)
  {
    ServiceChars(folder);
    TidyIsSlug(Mapped(folder, ServiceChar));
    AppIsSlug();
    ServiceOfService(ServiceOf(folder), lower);
  }

  lemma MappedDashes(s: string)
    requires forall c <- s :: IsSlugChar(c)
    ensures Mapped(s, ServiceChar) == s
  {
    MappedSame(s, ServiceChar);
  }

  // ── The runs of a name itself ─────────────────────────────────────────────

  function Followed(s: string, w: string, gap: string): string {
    s + w + gap
  }

  /** A name spelled as words with gaps before, between and after them. */
  function Spelled(words: seq<string>, gaps: seq<string>): string
    requires |gaps| == |words| + 1
  {
    var n := |words|;
    if n == 0 then gaps[0] else Followed(Spelled(words[..n - 1], gaps[..n]), words[n - 1], gaps[n])
  }

  predicate IsWord(w: string) {
    w != "" && forall c <- w :: IsLower(c) || IsDigit(c)
  }

  predicate AllWords(words: seq<string>) {
    forall i :: 0 <= i < |words| ==> IsWord(words[i])
  }

  /** No letter or digit in a gap. */
  predicate AllGaps(gaps: seq<string>) {
    forall i :: 0 <= i < |gaps| ==> IsGap(gaps[i])
  }

  predicate IsGap(gap: string) {
    forall c <- gap :: !(IsLower(c) || IsDigit(c))
  }

  /** The gaps between words separate them. */
  predicate Separate(gaps: seq<string>, f: char -> string) {
    forall i :: 0 < i < |gaps| - 1 ==> Mapped(gaps[i], f) != ""
  }

  /** Letters and digits stay, and anything else is a hyphen or dropped. */
  ghost predicate MapsGaps(f: char -> string) {
    forall c :: if IsAlnum(c) then f(c) == [c] else f(c) == "" || f(c) == "-"
  }

  lemma {:induction false} MappedConcat(a: string, b: string, f: char -> string)
    ensures Mapped(a + b, f) == Mapped(a, f) + Mapped(b, f)
  {
    if b == "" {
      assert a + b == a;
    } else {
      var n := |b| - 1;
      var whole := a + b;
      assert whole[..|whole| - 1] == a + b[..n] && whole[|whole| - 1] == b[n];
      MappedConcat(a, b[..n], f);
      assert Mapped(whole, f) == Mapped(a + b[..n], f) + f(b[n]);
    }
  }

  lemma {:induction false} GapIsHyphens(gap: string, f: char -> string)
    requires MapsGaps(f) && IsGap(gap)
    ensures forall c <- Mapped(gap, f) :: c == '-'
  {
    if gap != "" {
      assert gap[|gap| - 1] in gap;
      GapIsHyphens(gap[..|gap| - 1], f);
    }
  }

  lemma {:induction false} RunsHyphens(s: string, h: string)
    requires forall c <- h :: c == '-'
    ensures Runs(s + h) == Runs(s)
  {
    if h == "" {
      assert s + h == s;
    } else {
      var n := |h| - 1;
      assert h[n] in h && s + h == s + h[..n] + ['-'];
      assert forall c <- h[..n] :: c in h;
      RunsHyphens(s, h[..n]);
      RunsDashAfter(s + h[..n]);
    }
  }

  lemma {:induction false} SplitLast(s: string, w: string, sep: char)
    requires sep !in w
    ensures Split(s + [sep] + w, sep) == Split(s, sep) + [w]
  {
    var t := s + [sep] + w;
    if s == "" {
      assert t[1..] == w;
      SplitWhole(w, sep);
    } else {
      assert t[1..] == s[1..] + [sep] + w;
      SplitLast(s[1..], w, sep);
      assert (Split(s[1..], sep) + [w])[1..] == Split(s[1..], sep)[1..] + [w];
    }
  }

  /** A word after a hyphen, or at the start, is one more run. */
  lemma RunsWord(s: string, w: string)
    requires IsWord(w) && (s == "" || s[|s| - 1] == '-')
    ensures Runs(s + w) == Runs(s) + [w]
  {
    NonEmptyOne(w);
    if s == "" {
      assert s + w == w;
      SplitWhole(w, '-');
      NonEmptyOne("");
    } else {
      var t := s[..|s| - 1];
      assert s == t + ['-'];
      SplitLast(t, w, '-');
      NonEmptyConcat(Split(t, '-'), [w]);
      RunsDashAfter(t);
    }
  }

  lemma WordMapped(w: string, f: char -> string)
    requires MapsGaps(f) && IsWord(w)
    ensures Mapped(w, f) == w
  {
    MappedSame(w, f);
  }

  /** What is written for it so far, one word and the gap after it further. */
  lemma OneMoreWord(s: string, w: string, gap: string, f: char -> string)
    requires MapsGaps(f) && IsWord(w) && IsGap(gap)
    requires Opens(Mapped(s, f))
    ensures Runs(Mapped(Followed(s, w, gap), f)) == Runs(Mapped(s, f)) + [w]
    ensures Mapped(gap, f) != "" ==> Opens(Mapped(Followed(s, w, gap), f))
  {
    MappedConcat(s + w, gap, f);
    MappedConcat(s, w, f);
    WordMapped(w, f);
    RunsWord(Mapped(s, f), w);
    GapIsHyphens(gap, f);
    RunsHyphens(Mapped(s, f) + w, Mapped(gap, f));
    var h := Mapped(gap, f);
    if h != "" { assert h[|h| - 1] in h; }
  }

  lemma SpelledParts(words: seq<string>, gaps: seq<string>, f: char -> string)
    requires words != [] && |gaps| == |words| + 1 && AllWords(words) && AllGaps(gaps) && Separate(gaps, f)
    ensures var n := |words|;
            AllWords(words[..n - 1]) && AllGaps(gaps[..n]) && Separate(gaps[..n], f) && IsWord(words[n - 1]) && IsGap(gaps[n])
  {
  }

  /** A word may follow: nothing has been written, or a hyphen was last. */
  predicate Opens(m: string) {
    m == "" || m[|m| - 1] == '-'
  }

  lemma GapOpens(gap: string, f: char -> string)
    requires MapsGaps(f) && IsGap(gap)
    ensures Runs(Mapped(gap, f)) == [] && Opens(Mapped(gap, f))
  {
    var m := Mapped(gap, f);
    GapIsHyphens(gap, f);
    RunsHyphens("", m);
    assert "" + m == m;
    NonEmptyOne("");
    if m != "" { assert m[|m| - 1] in m; }
  }

  /** The words are the runs. */
  lemma {:induction false} SpelledRuns(words: seq<string>, gaps: seq<string>, f: char -> string)
    requires |gaps| == |words| + 1 && AllWords(words) && AllGaps(gaps) && Separate(gaps, f) && MapsGaps(f)
    ensures Runs(Mapped(Spelled(words, gaps), f)) == words
    ensures words == [] || Mapped(gaps[|words|], f) != "" ==> Opens(Mapped(Spelled(words, gaps), f))
  {
    var n := |words|;
    if n == 0 {
      assert IsGap(gaps[0]);
      GapOpens(gaps[0], f);
    } else {
      SpelledParts(words, gaps, f);
      SpelledRuns(words[..n - 1], gaps[..n], f);
      assert n > 1 ==> Mapped(gaps[n - 1], f) != "";
      OneMoreWord(Spelled(words[..n - 1], gaps[..n]), words[n - 1], gaps[n], f);
      assert words == words[..n - 1] + [words[n - 1]];
    }
  }

  lemma {:induction false} SomeMapped(gap: string, f: char -> string, i: nat)
    requires i < |gap| && f(gap[i]) != ""
    ensures Mapped(gap, f) != ""
  {
    if i < |gap| - 1 { SomeMapped(gap[..|gap| - 1], f, i); }
  }

  /** A blank, an underscore, a dot or a hyphen stands in every gap between words. */
  predicate SlugGaps(gaps: seq<string>) {
    forall i :: 0 < i < |gaps| - 1 ==> exists k :: 0 <= k < |gaps[i]| && gaps[i][k] in {' ', '_', '.', '-'}
  }

  /** A project's slug is the words of its name joined by hyphens, cut short at 50 characters. */
  lemma SlugOfWords(words: seq<string>, gaps: seq<string>)
    requires |gaps| == |words| + 1 && AllWords(words) && AllGaps(gaps) && SlugGaps(gaps)
    ensures var whole := Join(words, '-');
            && (words == [] ==> SlugOf(Spelled(words, gaps)) == "project")
            && (words != [] && |whole| <= 50 ==> SlugOf(Spelled(words, gaps)) == whole)
            && (|whole| > 50 ==> SlugOf(Spelled(words, gaps)) == if whole[49] == '-' then whole[..49] else whole[..50])
  {
    forall i | 0 < i < |gaps| - 1
      ensures Mapped(gaps[i], SlugChar) != ""
    {
      var k :| 0 <= k < |gaps[i]| && gaps[i][k] in {' ', '_', '.', '-'};
      SomeMapped(gaps[i], SlugChar, k);
    }
    SpelledRuns(words, gaps, SlugChar);
    JoinedWords(words);
    BuiltChars(Spelled(words, gaps));
    TidyIsSlug(Mapped(Spelled(words, gaps), SlugChar));
    if |Join(words, '-')| > 50 { ClipIs(Join(words, '-')); }
  }

  /** And a character that is none of those is left out wherever it stands. */
  lemma SlugDrops(a: string, c: char, b: string)
    requires !IsLower(c) && !IsDigit(c) && c !in {' ', '_', '.', '-'}
    ensures SlugOf(a + [c] + b) == SlugOf(a + b)
  {
    MappedConcat(a + [c], b, SlugChar);
    MappedConcat(a, [c], SlugChar);
    MappedConcat(a, b, SlugChar);
    assert [c][..0] == "" && Mapped([c], SlugChar) == "" + SlugChar(c) == "";
    assert Mapped(a, SlugChar) + "" + Mapped(b, SlugChar) == Mapped(a, SlugChar) + Mapped(b, SlugChar);
  }

  /** A service's name is the words of its folder's name joined by hyphens, whatever is between them. */
  lemma ServiceOfWords(words: seq<string>, gaps: seq<string>)
    requires |gaps| == |words| + 1 && AllWords(words) && AllGaps(gaps)
    requires forall i :: 0 < i < |gaps| - 1 ==> gaps[i] != ""
    ensures ServiceOf(Spelled(words, gaps)) == if words == [] then "app" else Join(words, '-')
  {
    forall i | 0 < i < |gaps| - 1
      ensures Mapped(gaps[i], ServiceChar) != ""
    {
      SomeMapped(gaps[i], ServiceChar, 0);
    }
    SpelledRuns(words, gaps, ServiceChar);
    JoinedWords(words);
  }

  lemma JoinedWords(words: seq<string>)
    requires AllWords(words)
    ensures words == [] <==> Join(words, '-') == ""
  {
  }

  lemma ClipIs(s: string)
    requires IsSlug(s) && |s| > MAX_SLUG
    ensures Clipped(s) == if s[49] == '-' then s[..49] else s[..50]
  {
    var head := s[..50];
    assert TrimLeft(head, {'-'}) == head;
    TrimRightIs(head, {'-'});
    assert !DoubleAt(s, 48);
    assert head[48] == s[48] && head[49] == s[49] && head[..49] == s[..49] && head[..50] == s[..50];
  }
}
