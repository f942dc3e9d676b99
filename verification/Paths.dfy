/** Slash paths: Go's lexical `path.Clean`, `path.Dir` and `path.Join`, and the check on packed symlinks. */
module Paths {
  import opened Text

  /** A file name inside a folder: what a directory listing can return. */
  predicate ValidName(name: string) {
    name != "" && '/' !in name && name != "." && name != ".."
  }

  predicate ValidPath(p: seq<string>) {
    p != [] && forall i :: 0 <= i < |p| ==> ValidName(p[i])
  }

  /** One component of `path.Clean`, on the stack of components kept so far. */
  function CleanStep(stack: seq<string>, c: string): seq<string> {
    if c == "" || c == "." then stack
    else if c != ".." then stack + [c]
    else if stack != [] && stack[|stack| - 1] != ".." then stack[..|stack| - 1]
    else stack + [c]
  }

  function CleanParts(stack: seq<string>, parts: seq<string>): seq<string>
    decreases |parts|
  {
    if parts == [] then stack else CleanParts(CleanStep(stack, parts[0]), parts[1..])
  }

  /** `path.Clean` of a path that does not start with a slash. */
  function Clean(s: string): string {
    var parts := CleanParts([], Split(s, '/'));
    if parts == [] then "." else Join(parts, '/')
  }

  function AfterLastSlash(s: string): (n: nat)
    ensures n <= |s| && (n == 0 || s[n - 1] == '/')
    ensures forall i :: n <= i < |s| ==> s[i] != '/'
  {
    if s == "" || s[|s| - 1] == '/' then |s| else AfterLastSlash(s[..|s| - 1])
  }

  /** `path.Dir`: "." for a name with no slash in it. */
  function Dir(s: string): string {
    Clean(s[..AfterLastSlash(s)])
  }

  /** `path.Join` of a folder that is not empty and a target; an empty element is left out. */
  function JoinPath(dir: string, target: string): string {
    if target == "" then Clean(dir) else Clean(dir + ['/'] + target)
  }

  predicate IsAbs(target: string) {
    HasPrefix(target, "/")
  }

  predicate Escapes(resolved: string) {
    resolved == ".." || HasPrefix(resolved, "../")
  }

  /** The check the packer makes on the symlink at `rel`. */
  predicate LinkAllowed(rel: string, target: string) {
    var resolved := JoinPath(Dir(rel), target);
    !(IsAbs(target) || Escapes(resolved))
  }

  /** Following `parts` from `depth` folders below the top never goes above the top. */
  predicate StaysInside(depth: nat, parts: seq<string>)
    decreases |parts|
  {
    if parts == [] then true
    else if parts[0] == "" || parts[0] == "." then StaysInside(depth, parts[1..])
    else if parts[0] == ".." then depth > 0 && StaysInside(depth - 1, parts[1..])
    else StaysInside(depth + 1, parts[1..])
  }

  // ── Joined paths ──────────────────────────────────────────────────────────

  lemma {:induction false} CleanPartsAppend(stack: seq<string>, a: seq<string>, b: seq<string>)
    ensures CleanParts(stack, a + b) == CleanParts(CleanParts(stack, a), b)
    decreases |a|
  {
    if a == [] {
      assert a + b == b;
    } else {
      assert (a + b)[1..] == a[1..] + b;
      CleanPartsAppend(CleanStep(stack, a[0]), a[1..], b);
    }
  }

  /** Names a listing returns survive cleaning as they are. */
  lemma {:induction false} CleanKeepsNames(stack: seq<string>, p: seq<string>)
    requires forall i :: 0 <= i < |p| ==> ValidName(p[i])
    ensures CleanParts(stack, p) == stack + p
    decreases |p|
  {
    if p == [] {
      assert stack + p == stack;
    } else {
      CleanKeepsNames(stack + [p[0]], p[1..]);
      assert stack + [p[0]] + p[1..] == stack + p;
    }
  }

  lemma Regroup(a: string, b: string, c: string, d: string)
    ensures a + b + c + d == a + (b + c + d)
  {
  }

  lemma {:induction false} SplitJoinThen(p: seq<string>, rest: string)
    requires p != [] && forall i :: 0 <= i < |p| ==> '/' !in p[i]
    ensures Split(Join(p, '/') + ['/'] + rest, '/') == p + Split(rest, '/')
  {
    if |p| == 1 {
      SplitPrepend(p[0], rest, '/');
    } else {
      var head, tail := p[0] + ['/'], Join(p[1..], '/');
      Regroup(head, tail, ['/'], rest);
      SplitJoinThen(p[1..], rest);
      SplitPrepend(p[0], tail + ['/'] + rest, '/');
      RegroupParts(p, Split(rest, '/'));
    }
  }

  lemma RegroupParts(p: seq<string>, rest: seq<string>)
    requires p != []
    ensures [p[0]] + (p[1..] + rest) == p + rest
  {
  }

  lemma {:induction false} AfterLastSlashOf(a: string, name: string)
    requires '/' !in name
    ensures AfterLastSlash(a + ['/'] + name) == |a| + 1
  {
    var s := a + ['/'] + name;
    if name != "" {
      var init := name[..|name| - 1];
      AfterLastSlashOf(a, init);
      assert s[..|s| - 1] == a + ['/'] + init;
      assert s[|s| - 1] == name[|name| - 1];
    }
  }

  lemma CutAfter(a: string, name: string)
    ensures (a + ['/'] + name)[..|a| + 1] == a + ['/'] + ""
  {
  }

  lemma DirBelow(folder: string, name: string)
    requires '/' !in name
    ensures Dir(folder + ['/'] + name) == Clean(folder + ['/'] + "")
  {
    AfterLastSlashOf(folder, name);
    CutAfter(folder, name);
  }

  lemma DirAtTop(name: string)
    requires '/' !in name
    ensures Dir(name) == "."
  {
    assert AfterLastSlash(name) == 0;
    CleanNothing([]);
  }

  lemma DirOfJoin(init: seq<string>, last: string)
    requires ValidPath(init) && ValidName(last)
    ensures Dir(Join(init + [last], '/')) == Join(init, '/')
  {
    JoinSnoc(init, last, '/');
    DirBelow(Join(init, '/'), last);
    CleanFolder(init);
  }

  lemma LastApart(p: seq<string>)
    requires ValidPath(p) && |p| > 1
    ensures ValidPath(p[..|p| - 1]) && ValidName(p[|p| - 1])
    ensures p[..|p| - 1] + [p[|p| - 1]] == p
  {
  }

  /** `path.Dir` of a path in the tree is the path of its folder, "." at the top. */
  lemma DirOfPath(p: seq<string>)
    requires ValidPath(p)
    ensures |p| == 1 ==> Dir(Join(p, '/')) == "."
    ensures |p| > 1 ==> Dir(Join(p, '/')) == Join(p[..|p| - 1], '/')
  {
    if |p| == 1 {
      DirAtTop(p[0]);
    } else {
      LastApart(p);
      DirOfJoin(p[..|p| - 1], p[|p| - 1]);
    }
  }

  lemma CleanNothing(stack: seq<string>)
    ensures CleanParts(stack, [""]) == stack && CleanParts(stack, ["."]) == stack
  {
    assert [""][1..] == [] && ["."][1..] == [];
  }

  lemma CleanFolder(p: seq<string>)
    requires ValidPath(p)
    ensures Clean(Join(p, '/') + ['/'] + "") == Join(p, '/') == Clean(Join(p, '/'))
  {
    SplitJoin(p, '/');
    SplitJoinThen(p, "");
    CleanPartsAppend([], p, [""]);
    CleanKeepsNames([], p);
    CleanNothing(p);
    assert [] + p == p;
  }

  lemma JoinInjective(p: seq<string>, q: seq<string>)
    requires ValidPath(p) && ValidPath(q) && Join(p, '/') == Join(q, '/')
    ensures p == q
  {
    SplitJoin(p, '/');
    SplitJoin(q, '/');
  }

  // ── Symlinks ──────────────────────────────────────────────────────────────

  lemma {:induction false} EscapedStays(stack: seq<string>, parts: seq<string>)
    requires stack != [] && stack[0] == ".."
    ensures CleanParts(stack, parts) != [] && CleanParts(stack, parts)[0] == ".."
    decreases |parts|
  {
    if parts != [] { EscapedStays(CleanStep(stack, parts[0]), parts[1..]); }
  }

  /** Cleaning leaves a leading ".." exactly when the walk goes above the top at some step. */
  lemma {:induction false} CleanEscapesIff(stack: seq<string>, parts: seq<string>)
    requires ".." !in stack
    ensures (CleanParts(stack, parts) != [] && CleanParts(stack, parts)[0] == "..")
            <==> !StaysInside(|stack|, parts)
    decreases |parts|
  {
    if parts != [] {
      if parts[0] == ".." && stack == [] {
        EscapedStays(CleanStep(stack, parts[0]), parts[1..]);
      } else {
        CleanEscapesIff(CleanStep(stack, parts[0]), parts[1..]);
      }
    }
  }

  lemma {:induction false} CleanPartsHaveNoSlash(stack: seq<string>, parts: seq<string>)
    requires forall i :: 0 <= i < |stack| ==> '/' !in stack[i]
    requires forall i :: 0 <= i < |parts| ==> '/' !in parts[i]
    ensures forall i :: 0 <= i < |CleanParts(stack, parts)| ==> '/' !in CleanParts(stack, parts)[i]
    decreases |parts|
  {
    if parts != [] { CleanPartsHaveNoSlash(CleanStep(stack, parts[0]), parts[1..]); }
  }

  lemma PrefixChars(s: string, p: string, c: char)
    ensures HasPrefix(s, p) && c in p ==> c in s
  {
  }

  lemma EscapesAt(a: string, rest: string)
    requires '/' !in a
    ensures Escapes(a) <==> a == ".."
    ensures Escapes(a + ['/'] + rest) <==> a == ".."
  {
    var s := a + ['/'] + rest;
    assert s[|a|] == '/' && forall i :: 0 <= i < |a| ==> s[i] == a[i];
    if Escapes(s) {
      assert HasPrefix(s, "../") ==> s[..3] == "../" && s[2] == "../"[2];
      assert a == [a[0], a[1]];
    }
    if a == ".." { assert s[..3] == "../"; }
    PrefixChars(a, "../", '/');
  }

  lemma JoinedEscapesIffFirst(parts: seq<string>)
    requires parts != [] && forall i :: 0 <= i < |parts| ==> '/' !in parts[i]
    ensures Escapes(Join(parts, '/')) <==> parts[0] == ".."
  {
    EscapesAt(parts[0], Join(parts[1..], '/'));
  }

  lemma EscapesIffFirst(s: string)
    ensures Escapes(Clean(s)) <==>
            CleanParts([], Split(s, '/')) != [] && CleanParts([], Split(s, '/'))[0] == ".."
  {
    var parts := CleanParts([], Split(s, '/'));
    CleanPartsHaveNoSlash([], Split(s, '/'));
    if parts != [] {
      JoinedEscapesIffFirst(parts);
    }
  }

  /** A symlink is packed exactly when its target is relative and following the target from the
      link's own folder never leaves the packed folder, at any step on the way. */
  lemma LinkAllowedIff(p: seq<string>, target: string)
    requires ValidPath(p)
    ensures LinkAllowed(Join(p, '/'), target)
            <==> !IsAbs(target) && StaysInside(|p| - 1, Split(target, '/'))
  {
    var init, parts := p[..|p| - 1], Split(target, '/');
    var dir := Dir(Join(p, '/'));
    var whole := if target == "" then dir else dir + ['/'] + target;
    DirOfPath(p);
    CleanJoined(init, target);
    EscapesIffFirst(whole);
    CleanEscapesIff(init, parts);
  }

  /** Cleaning a link's folder joined with its target is cleaning the target from that folder. */
  lemma CleanJoined(init: seq<string>, target: string)
    requires forall i :: 0 <= i < |init| ==> ValidName(init[i])
    ensures var dir := if init == [] then "." else Join(init, '/');
            CleanParts([], Split(if target == "" then dir else dir + ['/'] + target, '/'))
            == CleanParts(init, Split(target, '/'))
  {
    var parts := Split(target, '/');
    CleanKeepsNames([], init);
    CleanNothing(init);
    assert [] + init == init;
    if init == [] {
      SplitWhole(".", '/');
      SplitPrepend(".", target, '/');
      CleanPartsAppend([], ["."], parts);
    } else {
      SplitJoin(init, '/');
      SplitJoinThen(init, target);
      CleanPartsAppend([], init, parts);
    }
  }
}
