/** The parts of Go's `strings` package the other modules use, and the order of strings. */
module Text {
  import opened Prelude

  predicate HasPrefix(s: string, p: string) {
    |p| <= |s| && s[..|p|] == p
  }

  predicate HasSuffix(s: string, p: string) {
    |p| <= |s| && s[|s| - |p|..] == p
  }

  function TrimPrefix(s: string, p: string): string {
    if HasPrefix(s, p) then s[|p|..] else s
  }

  function TrimSuffix(s: string, p: string): string {
    if HasSuffix(s, p) then s[..|s| - |p|] else s
  }

  /** Drops the trailing characters that are in `cut`. */
  function TrimRight(s: string, cut: set<char>): string {
    if s != "" && s[|s| - 1] in cut then TrimRight(s[..|s| - 1], cut) else s
  }

  lemma {:induction false} TrimRightIs(s: string, cut: set<char>)
    ensures var r := TrimRight(s, cut);
            && |r| <= |s| && r == s[..|r|] && (r == "" || r[|r| - 1] !in cut)
            && forall i :: |r| <= i < |s| ==> s[i] in cut
  {
    if s != "" && s[|s| - 1] in cut {
      var t := s[..|s| - 1];
      TrimRightIs(t, cut);
      var n := |TrimRight(t, cut)|;
      assert s[..n] == t[..n];
      forall i | n <= i < |s|
        ensures s[i] in cut
      {
        if i < |t| { assert s[i] == t[i]; }
      }
    }
  }

  /** Drops the leading characters that are in `cut`. */
  function TrimLeft(s: string, cut: set<char>): string {
    if s != "" && s[0] in cut then TrimLeft(s[1..], cut) else s
  }

  lemma {:induction false} TrimLeftIs(s: string, cut: set<char>)
    ensures var r := TrimLeft(s, cut);
            && |r| <= |s| && r == s[|s| - |r|..] && (r == "" || r[0] !in cut)
            && forall i :: 0 <= i < |s| - |r| ==> s[i] in cut
  {
    if s != "" && s[0] in cut {
      var t := s[1..];
      TrimLeftIs(t, cut);
      var n := |t| - |TrimLeft(t, cut)|;
      assert s[n + 1..] == t[n..];
      forall i | 0 <= i < n + 1
        ensures s[i] in cut
      {
        if i > 0 { assert s[i] == t[i - 1]; }
      }
    }
  }

  function Trim(s: string, cut: set<char>): string {
    TrimRight(TrimLeft(s, cut), cut)
  }

  /** ASCII white space. */
  const SPACE := {' ', '\t', '\n', '\r', '\U{b}', '\U{c}'}

  function TrimSpace(s: string): string {
    Trim(s, SPACE)
  }

  /** Not blank at either end. */
  predicate PlainEnds(s: string) {
    s != "" && s[0] !in SPACE && s[|s| - 1] !in SPACE
  }

  lemma TrimPlain(s: string, cut: set<char>)
    requires s != "" && s[0] !in cut && s[|s| - 1] !in cut
    ensures Trim(s, cut) == s
  {
    assert TrimLeft(s, cut) == s;
  }

  /** The pieces of `s` between the separators; always at least one piece. */
  function Split(s: string, sep: char): (parts: seq<string>)
    ensures |parts| >= 1
    ensures forall i :: 0 <= i < |parts| ==> sep !in parts[i]
  {
    if s == "" then [""]
    else
      var rest := Split(s[1..], sep);
      if s[0] == sep then [""] + rest
      else [[s[0]] + rest[0]] + rest[1..]
  }

  /** What is before and after the first separator, if there is one. */
  function Cut(s: string, sep: char): Option<(string, string)> {
    if s == "" then None
    else if s[0] == sep then Some(("", s[1..]))
    else
      match Cut(s[1..], sep)
      case None => None
      case Some((before, after)) => Some(([s[0]] + before, after))
  }

  lemma {:induction false} CutFirst(before: string, sep: char, after: string)
    requires sep !in before
    ensures Cut(before + [sep] + after, sep) == Some((before, after))
  {
    var s := before + [sep] + after;
    if before == "" {
      assert s[1..] == after;
    } else {
      assert s[1..] == before[1..] + [sep] + after;
      CutFirst(before[1..], sep, after);
      assert [before[0]] + before[1..] == before;
    }
  }

  lemma {:induction false} CutNothing(s: string, sep: char)
    requires sep !in s
    ensures Cut(s, sep) == None
  {
    if s != "" { CutNothing(s[1..], sep); }
  }

  /** The same with a separator of several characters. */
  function CutAt(s: string, sep: string): Option<(string, string)> {
    if HasPrefix(s, sep) then Some(("", s[|sep|..]))
    else if s == "" then None
    else
      match CutAt(s[1..], sep)
      case None => None
      case Some((before, after)) => Some(([s[0]] + before, after))
  }

  predicate Contains(s: string, part: string) {
    CutAt(s, part).Some?
  }

  /** `part` stands in `s` at `i`. */
  predicate StandsAt(s: string, part: string, i: nat) {
    i + |part| <= |s| && s[i..i + |part|] == part
  }

  lemma StandsNext(s: string, part: string, i: nat)
    requires s != ""
    ensures StandsAt(s, part, i + 1) <==> StandsAt(s[1..], part, i)
  {
    if i + 1 + |part| <= |s| { assert s[i + 1..i + 1 + |part|] == s[1..][i..i + |part|]; }
  }

  lemma {:induction false} ContainsIff(s: string, part: string)
    ensures Contains(s, part) <==> exists i: nat :: StandsAt(s, part, i)
  {
    if HasPrefix(s, part) {
      assert StandsAt(s, part, 0);
    } else if s != "" {
      ContainsIff(s[1..], part);
      if i: nat :| StandsAt(s[1..], part, i) { StandsNext(s, part, i); }
      if i: nat :| StandsAt(s, part, i) && i > 0 { StandsNext(s, part, i - 1); }
    }
  }

  lemma PrefixHas(s: string, part: string, c: char)
    ensures HasPrefix(s, part) && c in part ==> c in s
  {
    forall i | 0 <= i < |part| && HasPrefix(s, part)
      ensures part[i] in s
    {
      assert s[i] == s[..|part|][i];
    }
  }

  lemma {:induction false} ContainsNot(s: string, part: string, c: char)
    requires c in part && c !in s
    ensures CutAt(s, part) == None
  {
    PrefixHas(s, part, c);
    if s != "" { ContainsNot(s[1..], part, c); }
  }

  lemma {:induction false} ContainsAtEnd(a: string, part: string)
    ensures Contains(a + part, part)
  {
    if a == "" {
      assert a + part == part && part[..|part|] == part;
    } else if !HasPrefix(a + part, part) {
      assert (a + part)[1..] == a[1..] + part;
      ContainsAtEnd(a[1..], part);
    }
  }

  function Join(parts: seq<string>, sep: char): string {
    if parts == [] then ""
    else if |parts| == 1 then parts[0]
    else parts[0] + [sep] + Join(parts[1..], sep)
  }

  lemma {:induction false} SplitPrepend(a: string, rest: string, sep: char)
    requires sep !in a
    ensures Split(a + [sep] + rest, sep) == [a] + Split(rest, sep)
  {
    var s := a + [sep] + rest;
    if a == "" {
      assert s[1..] == rest;
    } else {
      assert s[1..] == a[1..] + [sep] + rest;
      SplitPrepend(a[1..], rest, sep);
      assert [a[0]] + a[1..] == a;
    }
  }

  lemma {:induction false} SplitWhole(a: string, sep: char)
    requires sep !in a
    ensures Split(a, sep) == [a]
  {
    if a != "" {
      SplitWhole(a[1..], sep);
      assert [a[0]] + a[1..] == a;
    }
  }

  /** Splitting what was joined gives the pieces back. */
  lemma {:induction false} SplitJoin(parts: seq<string>, sep: char)
    requires parts != [] && forall i :: 0 <= i < |parts| ==> sep !in parts[i]
    ensures Split(Join(parts, sep), sep) == parts
  {
    if |parts| == 1 {
      SplitWhole(parts[0], sep);
    } else {
      SplitJoin(parts[1..], sep);
      SplitPrepend(parts[0], Join(parts[1..], sep), sep);
    }
  }

  lemma {:induction false} JoinSnoc(parts: seq<string>, last: string, sep: char)
    requires parts != []
    ensures Join(parts + [last], sep) == Join(parts, sep) + [sep] + last
  {
    if |parts| > 1 {
      JoinSnoc(parts[1..], last, sep);
      assert (parts + [last])[1..] == parts[1..] + [last];
    } else {
      assert (parts + [last])[1..] == [last];
    }
  }

  lemma {:induction false} JoinConcat(a: seq<string>, b: seq<string>, sep: char)
    requires a != [] && b != []
    ensures Join(a + b, sep) == Join(a, sep) + [sep] + Join(b, sep)
  {
    if |a| == 1 {
      assert (a + b)[1..] == b;
    } else {
      assert (a + b)[1..] == a[1..] + b;
      JoinConcat(a[1..], b, sep);
    }
  }

  function Spaces(n: nat): string {
    if n == 0 then "" else [' '] + Spaces(n - 1)
  }

  lemma {:induction false} SpacesAre(n: nat)
    ensures |Spaces(n)| == n && forall i :: 0 <= i < n ==> Spaces(n)[i] == ' '
  {
    if n > 0 { SpacesAre(n - 1); }
  }

  lemma TrimLeftSpaces(n: nat, s: string, cut: set<char>)
    requires ' ' in cut && s != "" && s[0] !in cut
    ensures TrimLeft(Spaces(n) + s, cut) == s
  {
    SpacesAre(n);
    var t := Spaces(n) + s;
    var r := TrimLeft(t, cut);
    TrimLeftIs(t, cut);
    assert forall i :: 0 <= i < n ==> t[i] == ' ';
    assert t[n] == s[0];
    assert |r| == |s|;
  }

  lemma TrimRightSpaces(n: nat, s: string, cut: set<char>)
    requires ' ' in cut && s != "" && s[|s| - 1] !in cut
    ensures TrimRight(s + Spaces(n), cut) == s
  {
    SpacesAre(n);
    var t := s + Spaces(n);
    var r := TrimRight(t, cut);
    TrimRightIs(t, cut);
    assert forall i :: |s| <= i < |t| ==> t[i] == ' ';
    assert t[|s| - 1] == s[|s| - 1];
    assert |r| == |s|;
  }

  lemma TrimsSpaces(n: nat, s: string, m: nat)
    requires s != "" && s[0] !in SPACE && s[|s| - 1] !in SPACE
    ensures TrimSpace(Spaces(n) + (s + Spaces(m))) == s
  {
    TrimLeftSpaces(n, s + Spaces(m), SPACE);
    TrimRightSpaces(m, s, SPACE);
  }

  /** Each word after a blank. */
  function Spaced(words: seq<string>): string {
    if words == [] then "" else [' '] + words[0] + Spaced(words[1..])
  }

  lemma {:induction false} SpacedIsJoin(words: seq<string>)
    ensures Spaced(words) == if words == [] then "" else [' '] + Join(words, ' ')
  {
    if words != [] {
      SpacedIsJoin(words[1..]);
      if |words| > 1 {
        assert [' '] + words[0] + ([' '] + Join(words[1..], ' ')) == [' '] + (words[0] + [' '] + Join(words[1..], ' '));
      } else {
        assert [' '] + words[0] + "" == [' '] + words[0];
      }
    }
  }

  lemma NothingTrims(cut: set<char>)
    ensures Trim("", cut) == ""
  {
  }

  lemma BlankTrims(s: string)
    requires s != "" && s[0] !in SPACE && s[|s| - 1] !in SPACE
    ensures TrimSpace([' '] + s) == s
  {
    OneSpaceIs();
    IndentTrims(1, s);
  }

  lemma OneSpaceIs()
    ensures Spaces(1) == [' ']
  {
    SpacesAre(1);
  }

  lemma IndentTrims(n: nat, s: string)
    requires s != "" && s[0] !in SPACE && s[|s| - 1] !in SPACE
    ensures TrimSpace(Spaces(n) + s) == s
  {
    TrimsSpaces(n, s, 0);
    assert s + Spaces(0) == s;
  }

  /** Byte-wise order, as Go compares strings. */
  predicate Less(a: string, b: string) {
    b != "" && (a == "" || a[0] < b[0] || (a[0] == b[0] && Less(a[1..], b[1..])))
  }

  /** The texts agree up to `k`, where the first ends or has the smaller character. */
  predicate LessAt(a: string, b: string, k: nat) {
    k <= |a| && k < |b| && a[..k] == b[..k] && (k == |a| || a[k] < b[k])
  }

  lemma LessAtNext(a: string, b: string, k: nat)
    requires a != "" && b != "" && a[0] == b[0]
    ensures LessAt(a, b, k + 1) <==> LessAt(a[1..], b[1..], k)
  {
    if k < |a| && k < |b| {
      assert a[..k + 1] == [a[0]] + a[1..][..k] && b[..k + 1] == [b[0]] + b[1..][..k];
      assert a[1..][..k] == a[..k + 1][1..] && b[1..][..k] == b[..k + 1][1..];
    }
  }

  /** One text comes before another when it is a proper prefix, or smaller where they first differ. */
  lemma {:induction false} LessIff(a: string, b: string)
    ensures Less(a, b) <==> exists k: nat :: LessAt(a, b, k)
  {
    assert Less(a, b) && (a == "" || a[0] != b[0]) ==> LessAt(a, b, 0);
    if a != "" && b != "" && a[0] == b[0] {
      LessIff(a[1..], b[1..]);
      if k: nat :| LessAt(a[1..], b[1..], k) { LessAtNext(a, b, k); }
      if k: nat :| LessAt(a, b, k) && k > 0 { LessAtNext(a, b, k - 1); }
    }
    if k: nat :| LessAt(a, b, k) && k > 0 { FirstSame(a, b, k); }
  }

  lemma FirstSame(a: string, b: string, k: nat)
    requires 0 < k <= |a| && k < |b| && a[..k] == b[..k]
    ensures a[0] == b[0]
  {
    assert a[0] == a[..k][0] && b[0] == b[..k][0];
  }

  lemma {:induction false} LessTransitive(a: string, b: string, c: string)
    requires Less(a, b) && Less(b, c)
    ensures Less(a, c)
  {
    if a != "" && a[0] == b[0] == c[0] {
      LessTransitive(a[1..], b[1..], c[1..]);
    }
  }

  lemma {:induction false} LessIrreflexive(a: string)
    ensures !Less(a, a)
  {
    if a != "" { LessIrreflexive(a[1..]); }
  }

  lemma {:induction false} LessTotal(a: string, b: string)
    ensures a == b || Less(a, b) || Less(b, a)
  {
    if a != "" && b != "" && a[0] == b[0] {
      LessTotal(a[1..], b[1..]);
      assert a == [a[0]] + a[1..] && b == [b[0]] + b[1..];
    }
  }

  lemma LessAsymmetric(a: string, b: string)
    requires Less(a, b)
    ensures !Less(b, a) && a != b
  {
    LessIrreflexive(a);
    if Less(b, a) { LessTransitive(a, b, a); }
  }

  lemma {:induction false} PrefixLess(a: string, b: string)
    requires b != ""
    ensures Less(a, a + b)
  {
    if a != "" {
      assert (a + b)[1..] == a[1..] + b;
      PrefixLess(a[1..], b);
    }
  }
}
