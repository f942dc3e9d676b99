/** What a packed folder holds and in which order, and when packing refuses. */
module Archive {
  import opened Sorting
  import opened Prelude
  import opened Text
  import opened Paths
  import opened Scopes
  import opened Pack

  // ── The walk keeps exactly the declared set ───────────────────────────────

  ghost predicate Extends(p: seq<string>, q: seq<string>) {
    |p| <= |q| && q[..|p|] == p
  }

  lemma KeptBelowStep(root: Node, q: seq<string>, depth: nat)
    requires 0 < depth <= |q|
    ensures KeptBelow(root, q, depth)
            <==> Passes(root, q, depth)
                 && (if depth == |q| then NodeAt(root, q).Some? && !NodeAt(root, q).value.kind.Special? else KeptBelow(root, q, depth + 1))
  {
  }

  /** What is collected from `n` at `p` is what is kept at or below `p`. */
  lemma {:induction false} PrunedIsKept(root: Node, p: seq<string>, n: Node, q: seq<string>)
    requires p != [] && Extends(p, q) && ValidTree(n) && NodeAt(root, p) == Some(n)
    requires KeptBelow(root, q, |p|)
    ensures EntryAt(root, q) in Pruned(root, p, n)
    decreases |q| - |p|
  {
    KeptBelowStep(root, q, |p|);
    assert Passes(root, q, |p|) && q[..|p|] == p;
    if |q| > |p| {
      var name := q[|p|];
      assert q[..|p| + 1] == p + [name];
      NodeAtSnoc(root, p, name);
      assert Passes(root, q, |p| + 1);
      var i := ChildIndex(n.kids, name);
      assert n.kids[i] in n.kids;
      PrunedIsKept(root, p + [name], n.kids[i], q);
      PrunedKidsHas(root, p, n.kids, i, EntryAt(root, q));
    } else {
      assert p == q;
    }
  }

  lemma {:induction false} PrunedKidsHas(root: Node, p: seq<string>, kids: seq<Node>, i: nat, e: Entry)
    requires i < |kids| && e in Pruned(root, p + [kids[i].name], kids[i])
    ensures e in PrunedKids(root, p, kids)
  {
    if i > 0 { PrunedKidsHas(root, p, kids[1..], i - 1, e); }
  }

  lemma {:induction false} PrunedKidsFrom(root: Node, p: seq<string>, kids: seq<Node>, e: Entry) returns (i: nat)
    requires e in PrunedKids(root, p, kids)
    ensures i < |kids| && e in Pruned(root, p + [kids[i].name], kids[i])
  {
    if e in Pruned(root, p + [kids[0].name], kids[0]) {
      i := 0;
    } else {
      i := PrunedKidsFrom(root, p, kids[1..], e);
      i := i + 1;
    }
  }

  lemma KeptHere(root: Node, p: seq<string>, n: Node)
    requires p != [] && NodeAt(root, p) == Some(n) && !Barred(root, p, n) && !n.kind.Special?
    ensures KeptBelow(root, p, |p|)
  {
    assert p[..|p|] == p;
    KeptBelowStep(root, p, |p|);
  }

  lemma KeptAbove(root: Node, p: seq<string>, n: Node, name: string, q: seq<string>)
    requires p != [] && NodeAt(root, p) == Some(n) && !Barred(root, p, n)
    requires Extends(p + [name], q) && KeptBelow(root, q, |p| + 1)
    ensures Extends(p, q) && KeptBelow(root, q, |p|)
  {
    assert q[..|p|] == q[..|p| + 1][..|p|] == p;
    KeptBelowStep(root, q, |p|);
  }

  lemma PrunedOpen(root: Node, p: seq<string>, n: Node, e: Entry)
    requires p != [] && e in Pruned(root, p, n)
    ensures !Barred(root, p, n) && ((!n.kind.Special? && e == Entry(Slash(p), n.kind)) || e in PrunedKids(root, p, n.kids))
  {
  }

  /** The path of an entry collected from `n` at `p`. */
  lemma {:induction false} KeptFromPruned(root: Node, p: seq<string>, n: Node, e: Entry) returns (q: seq<string>)
    requires ValidPath(p) && ValidTree(n) && NodeAt(root, p) == Some(n)
    requires e in Pruned(root, p, n)
    ensures ValidPath(q) && Extends(p, q) && KeptBelow(root, q, |p|) && e == EntryAt(root, q)
    decreases n, 1
  {
    PrunedOpen(root, p, n, e);
    if !n.kind.Special? && e == Entry(Slash(p), n.kind) {
      q := p;
      KeptHere(root, p, n);
    } else {
      q := KeptFromKids(root, p, n, e);
    }
  }

  lemma {:induction false} KeptFromKids(root: Node, p: seq<string>, n: Node, e: Entry) returns (q: seq<string>)
    requires ValidPath(p) && ValidTree(n) && NodeAt(root, p) == Some(n) && !Barred(root, p, n)
    requires e in PrunedKids(root, p, n.kids)
    ensures ValidPath(q) && Extends(p, q) && KeptBelow(root, q, |p|) && e == EntryAt(root, q)
    decreases n, 0
  {
    var i := PrunedKidsFrom(root, p, n.kids, e);
    var kid := KidNode(root, p, n, i);
    q := KeptFromPruned(root, p + [kid.name], kid, e);
    KeptAbove(root, p, n, kid.name, q);
  }

  /** The `i`th kid of the node at `p`, as a node of the tree. */
  lemma KidNode(root: Node, p: seq<string>, n: Node, i: nat) returns (kid: Node)
    requires TreePath(p) && ValidTree(n) && NodeAt(root, p) == Some(n) && i < |n.kids|
    ensures kid == n.kids[i] && kid in n.kids && ValidTree(kid)
    ensures ValidPath(p + [kid.name]) && NodeAt(root, p + [kid.name]) == Some(kid)
  {
    kid := n.kids[i];
    assert kid in n.kids;
    NodeAtSnoc(root, p, kid.name);
    ChildAt(n.kids, i);
    KidPath(p, kid.name);
  }

  /** The path of an entry of the whole walk. */
  lemma CollectedPath(root: Node, e: Entry) returns (q: seq<string>)
    requires ValidTree(root) && e in Collected(root)
    ensures ValidPath(q) && Kept(root, q) && e == EntryAt(root, q)
  {
    var i := PrunedKidsFrom(root, [], root.kids, e);
    var kid := KidNode(root, [], root, i);
    assert [] + [kid.name] == [kid.name];
    q := KeptFromPruned(root, [kid.name], kid, e);
  }

  lemma CollectedHas(root: Node, q: seq<string>)
    requires ValidTree(root) && Kept(root, q)
    ensures EntryAt(root, q) in Collected(root)
  {
    var i := KeptFirst(root, q);
    assert root.kids[i] in root.kids;
    assert [] + [q[0]] == [q[0]] == q[..1];
    PrunedIsKept(root, [q[0]], root.kids[i], q);
    PrunedKidsHas(root, [], root.kids, i, EntryAt(root, q));
  }

  lemma KeptFirst(root: Node, q: seq<string>) returns (i: nat)
    requires ValidTree(root) && Kept(root, q)
    ensures i < |root.kids| && root.kids[i].name == q[0] && NodeAt(root, [q[0]]) == Some(root.kids[i])
  {
    assert q[..1] == [q[0]];
    assert NodeAt(root, q[..1]).Some?;
    i := ChildIndex(root.kids, q[0]);
  }

  /** The pruning walk, which learns each folder's rules as it enters it, keeps exactly the files,
      folders and symlinks that neither their own name nor any rule of the folders above them or
      above any folder on the way leaves out. */
  lemma WalkKeepsExactly(root: Node, e: Entry)
    requires ValidTree(root)
    ensures e in Collected(root) <==> exists q :: Kept(root, q) && e == EntryAt(root, q)
  {
    if e in Collected(root) {
      var q := CollectedPath(root, e);
    }
    if exists q :: Kept(root, q) && e == EntryAt(root, q) {
      var q :| Kept(root, q) && e == EntryAt(root, q);
      CollectedHas(root, q);
    }
  }

  // ── What is kept, by names and lines ──────────────────────────────────────

  /** One of the names that are never packed, or a file of real settings. */
  ghost predicate NamedOut(name: string) {
    || name == ".git" || name == "node_modules" || name == ".venv" || name == "venv" || name == "__pycache__" || name == ".DS_Store"
    || ((name == ".env" || exists x: string :: name == ".env." + x)
        && !exists x: string :: name == x + ".example" || name == x + ".sample" || name == x + ".template")
  }

  lemma PrefixIs(s: string, p: string)
    ensures HasPrefix(s, p) <==> exists x: string :: s == p + x
  {
    if HasPrefix(s, p) { assert s == p + s[|p|..]; }
  }

  lemma SuffixIs(s: string, p: string)
    ensures HasSuffix(s, p) <==> exists x: string :: s == x + p
  {
    if HasSuffix(s, p) { assert s == s[..|s| - |p|] + p; }
  }

  lemma SkippedIs(name: string)
    ensures name in ALWAYS_SKIPPED
            <==> name == ".git" || name == "node_modules" || name == ".venv" || name == "venv" || name == "__pycache__" || name == ".DS_Store"
  {
    var s := ALWAYS_SKIPPED;
    assert s == [s[0], s[1], s[2], s[3], s[4], s[5]];
  }

  lemma NeverPackedIff(name: string)
    ensures NeverPacked(name) <==> NamedOut(name)
  {
    SkippedIs(name);
    PrefixIs(name, ".env.");
    SuffixIs(name, ".example");
    SuffixIs(name, ".sample");
    SuffixIs(name, ".template");
  }

  /** The lines of the ignore files in the folder at `p`. */
  function FolderLines(root: Node, p: seq<string>): seq<string> {
    if NodeAt(root, p).Some? && NodeAt(root, p).value.kind.Folder? then NodeAt(root, p).value.lines else []
  }

  function LinesAbove(root: Node, p: seq<string>): seq<seq<string>> {
    seq(|p|, k requires 0 <= k < |p| => FolderLines(root, p[..k]))
  }

  lemma RulesOfLines(root: Node, p: seq<string>)
    ensures RulesAbove(root, p) == AllRules(LinesAbove(root, p))
  {
  }

  lemma BarredIff(root: Node, p: seq<string>, n: Node)
    requires p != []
    ensures Barred(root, p, n) <==> NamedOut(p[|p| - 1]) || TakenOut(p, LinesAbove(root, p), n.kind.Folder?)
  {
    NeverPackedIff(p[|p| - 1]);
    RulesOfLines(root, p);
    PathDecides(p, LinesAbove(root, p), n.kind.Folder?);
  }

  /** The node at `p` is there, and neither its name nor the lines of the folders above it take it out. */
  ghost predicate Stays(root: Node, p: seq<string>) {
    && p != [] && NodeAt(root, p).Some? && !NamedOut(p[|p| - 1])
    && !TakenOut(p, LinesAbove(root, p), NodeAt(root, p).value.kind.Folder?)
  }

  /** What is kept, with no rule in between: a file, folder or link that stays, and every folder above which
      does. */
  lemma KeptIff(root: Node, q: seq<string>)
    requires q != [] && NodeAt(root, q).Some?
    ensures Kept(root, q)
            <==> !NodeAt(root, q).value.kind.Special? && forall k :: 1 <= k <= |q| ==> Stays(root, q[..k])
  {
    forall k | 1 <= k <= |q|
      ensures Passes(root, q, k) <==> Stays(root, q[..k])
    {
      if NodeAt(root, q[..k]).Some? { BarredIff(root, q[..k], NodeAt(root, q[..k]).value); }
    }
  }

  lemma KeptIsValid(root: Node, q: seq<string>)
    requires ValidTree(root) && Kept(root, q)
    ensures ValidPath(q)
  {
    CollectedHas(root, q);
    NodesHaveNames(root, q);
  }

  lemma {:induction false} NodesHaveNames(root: Node, q: seq<string>)
    requires ValidTree(root) && NodeAt(root, q).Some?
    ensures forall i :: 0 <= i < |q| ==> ValidName(q[i])
    decreases |q|
  {
    if q != [] {
      var i := ChildIndex(root.kids, q[0]);
      assert root.kids[i] in root.kids;
      NodesHaveNames(root.kids[i], q[1..]);
    }
  }

  // ── No path twice ─────────────────────────────────────────────────────────

  predicate DistinctPaths(es: seq<Entry>) {
    forall i, j :: 0 <= i < j < |es| ==> es[i].rel != es[j].rel
  }

  lemma DistinctConcat(a: seq<Entry>, b: seq<Entry>)
    requires DistinctPaths(a) && DistinctPaths(b)
    requires forall x, y :: x in a && y in b ==> x.rel != y.rel
    ensures DistinctPaths(a + b)
  {
    forall i, j | 0 <= i < j < |a + b|
      ensures (a + b)[i].rel != (a + b)[j].rel
    {
      if i < |a| <= j { assert a[i] in a && b[j - |a|] in b; }
    }
  }

  /** The entry's path starts with the components `p`. */
  ghost predicate Under(p: seq<string>, rel: string) {
    exists q :: ValidPath(q) && Extends(p, q) && rel == Slash(q)
  }

  lemma UnderApart(p: seq<string>, a: string, b: string, x: string, y: string)
    requires Under(p + [a], x) && Under(p + [b], y) && a != b
    ensures x != y
  {
    var qx :| ValidPath(qx) && Extends(p + [a], qx) && x == Slash(qx);
    var qy :| ValidPath(qy) && Extends(p + [b], qy) && y == Slash(qy);
    assert qx[|p|] == qx[..|p| + 1][|p|] == a;
    assert qy[|p|] == qy[..|p| + 1][|p|] == b;
    if x == y { JoinInjective(qx, qy); }
  }

  lemma UnderBelow(p: seq<string>, name: string, x: string)
    requires ValidPath(p) && Under(p + [name], x)
    ensures x != Slash(p)
  {
    var q :| ValidPath(q) && Extends(p + [name], q) && x == Slash(q);
    if x == Slash(p) { JoinInjective(p, q); }
  }

  lemma PrunedUnder(root: Node, p: seq<string>, n: Node, i: nat, e: Entry)
    requires TreePath(p) && ValidTree(n) && NodeAt(root, p) == Some(n) && i < |n.kids|
    requires e in Pruned(root, p + [n.kids[i].name], n.kids[i])
    ensures Under(p + [n.kids[i].name], e.rel)
  {
    var kid := KidNode(root, p, n, i);
    var q := KeptFromPruned(root, p + [kid.name], kid, e);
  }

  lemma {:induction false} PrunedKidsUnder(root: Node, p: seq<string>, n: Node, from: nat, e: Entry) returns (i: nat)
    requires TreePath(p) && ValidTree(n) && NodeAt(root, p) == Some(n) && from <= |n.kids|
    requires e in PrunedKids(root, p, n.kids[from..])
    ensures from <= i < |n.kids| && Under(p + [n.kids[i].name], e.rel)
    decreases |n.kids| - from
  {
    assert n.kids[from..][0] == n.kids[from] && n.kids[from..][1..] == n.kids[from + 1..];
    if e in Pruned(root, p + [n.kids[from].name], n.kids[from]) {
      i := from;
      PrunedUnder(root, p, n, i, e);
    } else {
      i := PrunedKidsUnder(root, p, n, from + 1, e);
    }
  }

  lemma {:induction false} PrunedDistinct(root: Node, p: seq<string>, n: Node)
    requires ValidPath(p) && ValidTree(n) && NodeAt(root, p) == Some(n)
    ensures DistinctPaths(Pruned(root, p, n))
    decreases n, 0
  {
    PrunedKidsDistinct(root, p, n, 0);
    assert n.kids[0..] == n.kids;
    forall y | y in PrunedKids(root, p, n.kids)
      ensures y.rel != Slash(p)
    {
      var i := PrunedKidsUnder(root, p, n, 0, y);
      UnderBelow(p, n.kids[i].name, y.rel);
    }
    OwnDistinct(root, p, n);
  }

  lemma OwnDistinct(root: Node, p: seq<string>, n: Node)
    requires p != [] && DistinctPaths(PrunedKids(root, p, n.kids))
    requires forall y :: y in PrunedKids(root, p, n.kids) ==> y.rel != Slash(p)
    ensures DistinctPaths(Pruned(root, p, n))
  {
    DistinctConcat(if n.kind.Special? then [] else [Entry(Slash(p), n.kind)], PrunedKids(root, p, n.kids));
  }

  lemma KidsApart(root: Node, p: seq<string>, n: Node, from: nat, x: Entry, y: Entry)
    requires TreePath(p) && ValidTree(n) && NodeAt(root, p) == Some(n) && from < |n.kids|
    requires x in Pruned(root, p + [n.kids[from].name], n.kids[from])
    requires y in PrunedKids(root, p, n.kids[from + 1..])
    ensures x.rel != y.rel
  {
    PrunedUnder(root, p, n, from, x);
    var i := PrunedKidsUnder(root, p, n, from + 1, y);
    UnderApart(p, n.kids[from].name, n.kids[i].name, x.rel, y.rel);
  }

  lemma PrunedKidsStep(root: Node, p: seq<string>, kids: seq<Node>, from: nat)
    requires from < |kids|
    ensures PrunedKids(root, p, kids[from..])
            == Pruned(root, p + [kids[from].name], kids[from]) + PrunedKids(root, p, kids[from + 1..])
  {
    assert kids[from..] == [kids[from]] + kids[from + 1..];
  }

  lemma {:induction false} PrunedKidsDistinct(root: Node, p: seq<string>, n: Node, from: nat)
    requires TreePath(p) && ValidTree(n) && NodeAt(root, p) == Some(n) && from <= |n.kids|
    ensures DistinctPaths(PrunedKids(root, p, n.kids[from..]))
    decreases n.kids, |n.kids| - from
  {
    if from < |n.kids| {
      var kid := KidNode(root, p, n, from);
      var rest := n.kids[from + 1..];
      PrunedDistinct(root, p + [kid.name], kid);
      PrunedKidsDistinct(root, p, n, from + 1);
      PrunedKidsStep(root, p, n.kids, from);
      forall x, y | x in Pruned(root, p + [kid.name], kid) && y in PrunedKids(root, p, rest)
        ensures x.rel != y.rel
      {
        KidsApart(root, p, n, from, x, y);
      }
      DistinctConcat(Pruned(root, p + [kid.name], kid), PrunedKids(root, p, rest));
    }
  }

  lemma CollectedDistinct(root: Node)
    requires ValidTree(root)
    ensures DistinctPaths(Collected(root))
  {
    PrunedKidsDistinct(root, [], root, 0);
    assert root.kids[0..] == root.kids;
  }

  // ── The order of the archive ──────────────────────────────────────────────

  /** The order of `sort.Slice`. */
  predicate ByPath(a: Entry, b: Entry) {
    Less(a.rel, b.rel)
  }

  predicate Increasing(es: seq<Entry>) {
    forall i, j :: 0 <= i < j < |es| ==> Less(es[i].rel, es[j].rel)
  }

  lemma ByPathStrict()
    ensures Strict(ByPath)
  {
    forall a: Entry, b: Entry | ByPath(a, b)
      ensures !ByPath(b, a)
    {
      LessAsymmetric(a.rel, b.rel);
    }
    forall a: Entry, b: Entry, c: Entry | ByPath(a, b) && ByPath(b, c)
      ensures ByPath(a, c)
    {
      LessTransitive(a.rel, b.rel, c.rel);
    }
  }

  lemma SortedIncreasing(es: seq<Entry>)
    requires DistinctPaths(es)
    ensures Increasing(Sorted(es, ByPath)) && forall x :: x in Sorted(es, ByPath) <==> x in es
  {
    ByPathStrict();
    forall i, j | 0 <= i < j < |es|
      ensures ByPath(es[i], es[j]) || ByPath(es[j], es[i])
    {
      LessTotal(es[i].rel, es[j].rel);
    }
    SortedOrdered(es, ByPath);
    SortedKeeps(es, ByPath);
  }

  /** Two strictly increasing lists of the same entries are the same list. */
  lemma IncreasingUnique(a: seq<Entry>, b: seq<Entry>)
    requires Increasing(a) && Increasing(b) && forall x :: x in a <==> x in b
    ensures a == b
  {
    ByPathStrict();
    OrderedUnique(a, b, ByPath);
  }

  /** The entries of the archive, in its order. */
  function Entries(root: Node): seq<Entry> {
    Sorted(Collected(root), ByPath)
  }

  /** The archive lists exactly what is kept, strictly increasing by path. */
  lemma EntriesAreKeptInOrder(root: Node)
    requires ValidTree(root)
    ensures Increasing(Entries(root))
    ensures forall e :: e in Entries(root) <==> exists q :: Kept(root, q) && e == EntryAt(root, q)
  {
    CollectedDistinct(root);
    SortedIncreasing(Collected(root));
    forall e {
      WalkKeepsExactly(root, e);
    }
  }

  /** What a tree is, but for the order its folders are listed in. */
  ghost predicate SameFiles(a: Node, b: Node) {
    forall q :: About(a, q) == About(b, q)
  }

  function About(root: Node, q: seq<string>): Option<(Kind, seq<string>)> {
    match NodeAt(root, q)
    case None => None
    case Some(n) => Some((n.kind, n.lines))
  }

  lemma SameRulesAbove(a: Node, b: Node, p: seq<string>)
    requires SameFiles(a, b)
    ensures RulesAbove(a, p) == RulesAbove(b, p)
  {
    forall i | 0 <= i < |p|
      ensures RulesAbove(a, p)[i] == RulesAbove(b, p)[i]
    {
      assert About(a, p[..i]) == About(b, p[..i]);
    }
  }

  lemma SamePasses(a: Node, b: Node, q: seq<string>, k: nat)
    requires SameFiles(a, b) && Passes(a, q, k)
    ensures Passes(b, q, k)
  {
    assert About(a, q[..k]) == About(b, q[..k]);
    SameRulesAbove(a, b, q[..k]);
  }

  lemma SameFilesKept(a: Node, b: Node, q: seq<string>)
    requires SameFiles(a, b) && Kept(a, q)
    ensures Kept(b, q) && EntryAt(a, q) == EntryAt(b, q)
  {
    assert About(a, q) == About(b, q);
    forall k | 1 <= k <= |q|
      ensures Passes(b, q, k)
    {
      SamePasses(a, b, q, k);
    }
  }

  /** The archive depends on the files alone: the order in which folders list them, and so the
      order in which the walk visits them, makes no difference. */
  lemma ArchiveIgnoresListingOrder(a: Node, b: Node)
    requires ValidTree(a) && ValidTree(b) && SameFiles(a, b)
    ensures Entries(a) == Entries(b)
  {
    EntriesAreKeptInOrder(a);
    EntriesAreKeptInOrder(b);
    forall e
      ensures e in Entries(a) <==> e in Entries(b)
    {
      if e in Entries(a) {
        var q :| Kept(a, q) && e == EntryAt(a, q);
        SameFilesKept(a, b, q);
      }
      if e in Entries(b) {
        var q :| Kept(b, q) && e == EntryAt(b, q);
        SameFilesKept(b, a, q);
      }
    }
    IncreasingUnique(Entries(a), Entries(b));
  }

  lemma FolderAbove(root: Node, q: seq<string>, k: nat)
    requires ValidTree(root) && k < |q| && NodeAt(root, q[..k]).Some? && NodeAt(root, q[..k + 1]).Some?
    ensures NodeAt(root, q[..k]).value.kind.Folder?
  {
    assert q[..k + 1] == q[..k] + [q[k]];
    NodeAtSnoc(root, q[..k], q[k]);
    var i := ChildIndex(NodeAt(root, q[..k]).value.kids, q[k]);
    NodesAreTrees(root, q[..k]);
  }

  lemma PassesAbove(root: Node, q: seq<string>, k: nat, j: nat)
    requires j <= k <= |q| && Passes(root, q, j)
    ensures Passes(root, q[..k], j)
  {
    assert q[..k][..j] == q[..j];
  }

  lemma FolderAboveKept(root: Node, q: seq<string>, k: nat)
    requires ValidTree(root) && Kept(root, q) && 1 <= k < |q|
    ensures Kept(root, q[..k]) && NodeAt(root, q[..k]).value.kind.Folder?
  {
    assert Passes(root, q, k) && Passes(root, q, k + 1);
    FolderAbove(root, q, k);
    forall j | 1 <= j <= k
      ensures Passes(root, q[..k], j)
    {
      PassesAbove(root, q, k, j);
    }
  }

  lemma {:induction false} NodesAreTrees(root: Node, q: seq<string>)
    requires ValidTree(root) && NodeAt(root, q).Some?
    ensures ValidTree(NodeAt(root, q).value)
    decreases |q|
  {
    if q != [] {
      var i := ChildIndex(root.kids, q[0]);
      assert root.kids[i] in root.kids;
      NodesAreTrees(root.kids[i], q[1..]);
    }
  }

  lemma EntryIndex(root: Node, q: seq<string>) returns (i: nat)
    requires ValidTree(root) && Kept(root, q)
    ensures i < |Entries(root)| && Entries(root)[i] == EntryAt(root, q)
  {
    EntriesAreKeptInOrder(root);
    assert EntryAt(root, q) in Entries(root);
    i :| 0 <= i < |Entries(root)| && Entries(root)[i] == EntryAt(root, q);
  }

  lemma LessIndex(es: seq<Entry>, i: nat, j: nat)
    requires Increasing(es) && i < |es| && j < |es| && Less(es[i].rel, es[j].rel)
    ensures i < j
  {
    LessAsymmetric(es[i].rel, es[j].rel);
  }

  lemma FolderLess(q: seq<string>, k: nat)
    requires 1 <= k < |q|
    ensures Less(Slash(q[..k]), Slash(q))
  {
    SlashSplit(q, k);
    PrefixLess(Slash(q[..k]), ['/'] + Slash(q[k..]));
    assert Slash(q) == Slash(q[..k]) + (['/'] + Slash(q[k..]));
  }

  /** Every folder above an entry is in the archive too, before it. */
  lemma FoldersComeFirst(root: Node, q: seq<string>, k: nat) returns (i: nat, j: nat)
    requires ValidTree(root) && Kept(root, q) && 1 <= k < |q|
    ensures i < j < |Entries(root)|
    ensures Entries(root)[i] == Entry(Slash(q[..k]), Folder) && Entries(root)[j] == EntryAt(root, q)
  {
    FolderAboveKept(root, q, k);
    i := EntryIndex(root, q[..k]);
    j := EntryIndex(root, q);
    FolderLess(q, k);
    EntriesAreKeptInOrder(root);
    LessIndex(Entries(root), i, j);
  }

  // ── The archive written ───────────────────────────────────────────────────

  datatype Header =
    | DirHeader(name: string)
    | LinkHeader(name: string, target: string)
    | FileHeader(name: string)

  datatype Refusal = LinksOutside(rel: string) | NothingToUpload

  /** The header written for an entry: its path, a slash after a folder's, and where a link points. */
  predicate IsHeader(h: Header, rel: string, kind: Kind) {
    && h.name == (if kind.Folder? then rel + "/" else rel)
    && (h.DirHeader? <==> kind.Folder?) && (h.LinkHeader? <==> kind.Symlink?)
    && (h.LinkHeader? ==> h.target == kind.target)
  }

  predicate LinkOk(e: Entry) {
    e.kind.Symlink? ==> LinkAllowed(e.rel, e.kind.target)
  }

  predicate IsFile(e: Entry) {
    !e.kind.Folder? && !e.kind.Symlink?
  }

  /** The path of the first entry that is a link leading outside. */
  predicate FirstBad(es: seq<Entry>, rel: string) {
    exists k :: 0 <= k < |es| && es[k].rel == rel && !LinkOk(es[k]) && forall i :: 0 <= i < k ==> LinkOk(es[i])
  }

  /** `PackFolder`, up to the sequence of entries it writes. */
  method PackFolder(root: Node) returns (r: Result<seq<Header>, Refusal>)
    requires ValidTree(root) && root.kind.Folder?
    ensures r.Ok? <==> (forall e <- Entries(root) :: LinkOk(e)) && (exists e <- Entries(root) :: IsFile(e))
    ensures r.Ok? ==> |r.value| == |Entries(root)|
                      && forall i :: 0 <= i < |r.value| ==> IsHeader(r.value[i], Entries(root)[i].rel, Entries(root)[i].kind)
    ensures r.Err? && r.error.NothingToUpload? ==> forall e <- Entries(root) :: LinkOk(e)
    ensures r.Err? && r.error.LinksOutside? ==> FirstBad(Entries(root), r.error.rel)
  {
    var entries := WalkFolder(root);
    entries := Sorted(entries, ByPath);
    var headers: seq<Header> := [];
    var files := 0;
    for i := 0 to |entries|
      invariant |headers| == i && forall k :: 0 <= k < i ==> IsHeader(headers[k], entries[k].rel, entries[k].kind) && LinkOk(entries[k])
      invariant files >= 0
      invariant files > 0 <==> exists k :: 0 <= k < i && IsFile(entries[k])
    {
      var e := entries[i];
      match e.kind {
        case Folder =>
          headers := headers + [DirHeader(e.rel + "/")];
        case Symlink(target) =>
          var resolved := JoinPath(Dir(e.rel), target);
          if IsAbs(target) || Escapes(resolved) {
            assert e in Entries(root) && !LinkOk(entries[i]);
            return Err(LinksOutside(e.rel));
          }
          headers := headers + [LinkHeader(e.rel, target)];
        case _ =>
          headers := headers + [FileHeader(e.rel)];
          files := files + 1;
          assert IsFile(entries[i]);
      }
    }
    if files == 0 {
      return Err(NothingToUpload);
    }
    return Ok(headers);
  }

  /** A folder packs exactly when it has a file left to upload and no symlink left in it leads,
      at any step of its target, out of the folder. */
  lemma PacksIff(root: Node)
    requires ValidTree(root)
    ensures (forall e <- Entries(root) :: LinkOk(e)) && (exists e <- Entries(root) :: IsFile(e))
            <==> (forall q :: Kept(root, q) ==> LinkStaysInside(root, q))
                 && exists q :: Kept(root, q) && IsFile(EntryAt(root, q))
  {
    EntriesAreKeptInOrder(root);
    forall q | Kept(root, q)
      ensures LinkOk(EntryAt(root, q)) <==> LinkStaysInside(root, q)
      ensures EntryAt(root, q) in Entries(root)
    {
      KeptIsValid(root, q);
      var e := EntryAt(root, q);
      if e.kind.Symlink? { LinkAllowedIff(q, e.kind.target); }
    }
    forall e | e in Entries(root)
      ensures exists q :: Kept(root, q) && e == EntryAt(root, q)
    {
    }
    if exists e <- Entries(root) :: IsFile(e) {
      var e :| e in Entries(root) && IsFile(e);
      var q :| Kept(root, q) && e == EntryAt(root, q);
    }
    if exists q :: Kept(root, q) && IsFile(EntryAt(root, q)) {
      var q :| Kept(root, q) && IsFile(EntryAt(root, q));
      assert EntryAt(root, q) in Entries(root);
    }
  }

  ghost predicate LinkStaysInside(root: Node, q: seq<string>)
    requires Kept(root, q)
  {
    var kind := NodeAt(root, q).value.kind;
    kind.Symlink? ==> !IsAbs(kind.target) && StaysInside(|q| - 1, Split(kind.target, '/'))
  }
}
