/** Packing a folder: the walk that prunes as it goes, the order of the archive, and which
    folders are refused. */
module Pack {
  import opened Prelude
  import opened Text
  import opened Paths
  import opened Scopes

  datatype Kind = File | Folder | Symlink(target: string) | Special

  /** A file tree. `lines` are those of a folder's own ignore files; only a folder has kids. */
  datatype Node = Node(name: string, kind: Kind, lines: seq<string>, kids: seq<Node>)

  datatype Entry = Entry(rel: string, kind: Kind)

  /** Names in a listing are distinct, and only folders hold anything. */
  predicate ValidTree(n: Node) {
    && (n.kids != [] ==> n.kind.Folder?)
    && (forall i, j :: 0 <= i < j < |n.kids| ==> n.kids[i].name != n.kids[j].name)
    && (forall k <- n.kids :: ValidName(k.name) && ValidTree(k))
  }

  // ── What is kept ──────────────────────────────────────────────────────────

  const ALWAYS_SKIPPED := [".git", "node_modules", ".venv", "venv", "__pycache__", ".DS_Store"]

  /** A .env file holding real values; an example of one is kept. */
  predicate IsEnvFile(name: string) {
    (name == ".env" || HasPrefix(name, ".env."))
    && !HasSuffix(name, ".example") && !HasSuffix(name, ".sample") && !HasSuffix(name, ".template")
  }

  predicate NeverPacked(name: string) {
    IsEnvFile(name) || name in ALWAYS_SKIPPED
  }

  function Child(kids: seq<Node>, name: string): Option<Node> {
    if kids == [] then None
    else if kids[0].name == name then Some(kids[0])
    else Child(kids[1..], name)
  }

  function NodeAt(root: Node, p: seq<string>): Option<Node>
    decreases |p|
  {
    if p == [] then Some(root)
    else
      match Child(root.kids, p[0])
      case None => None
      case Some(kid) => NodeAt(kid, p[1..])
  }

  /** The rules of the ignore files in the folder at `p`. */
  function FolderRules(root: Node, p: seq<string>): Rules {
    match NodeAt(root, p)
    case Some(Node(_, Folder, lines, _)) => RulesOf(lines)
    case _ => []
  }

  /** The rules of every folder above `p`, from the top down. */
  function RulesAbove(root: Node, p: seq<string>): (r: seq<Rules>)
    ensures |r| == |p|
  {
    seq(|p|, k requires 0 <= k < |p| => FolderRules(root, p[..k]))
  }

  /** The node `n` at `p` is left out by its own name, or by the rules of the folders above it. */
  predicate Barred(root: Node, p: seq<string>, n: Node)
    requires p != []
  {
    NeverPacked(p[|p| - 1]) || LastDecides(AskPath(p, RulesAbove(root, p)), n.kind.Folder?)
  }

  /** There is a node `k` components down, and it is not left out. */
  predicate Passes(root: Node, p: seq<string>, k: nat) {
    0 < k <= |p| && NodeAt(root, p[..k]).Some? && !Barred(root, p[..k], NodeAt(root, p[..k]).value)
  }

  /** There is a node at `p`, and from `depth` components down to it nothing is left out. */
  ghost predicate KeptBelow(root: Node, p: seq<string>, depth: nat) {
    && depth <= |p| && NodeAt(root, p).Some? && !NodeAt(root, p).value.kind.Special?
    && forall k :: depth <= k <= |p| && 0 < k ==> Passes(root, p, k)
  }

  /** A regular file, folder or symlink that is not left out, and no folder above it is. */
  ghost predicate Kept(root: Node, p: seq<string>) {
    p != [] && KeptBelow(root, p, 1)
  }

  function EntryAt(root: Node, p: seq<string>): Entry
    requires NodeAt(root, p).Some?
  {
    Entry(Slash(p), NodeAt(root, p).value.kind)
  }

  // ── What the walk collects ────────────────────────────────────────────────

  function Pruned(root: Node, p: seq<string>, n: Node): seq<Entry>
    requires p != []
    decreases n, 0
  {
    if Barred(root, p, n) then []
    else (if n.kind.Special? then [] else [Entry(Slash(p), n.kind)]) + PrunedKids(root, p, n.kids)
  }

  function PrunedKids(root: Node, p: seq<string>, kids: seq<Node>): seq<Entry>
    decreases kids, 1
  {
    if kids == [] then []
    else Pruned(root, p + [kids[0].name], kids[0]) + PrunedKids(root, p, kids[1..])
  }

  function Collected(root: Node): seq<Entry> {
    PrunedKids(root, [], root.kids)
  }

  // ── The walk ──────────────────────────────────────────────────────────────

  predicate TreePath(p: seq<string>) {
    p == [] || ValidPath(p)
  }

  /** Every folder of the tree that is a key of the map has its own rules there. */
  ghost predicate Sound(root: Node, scopes: ScopeMap) {
    forall q {:trigger Slash(q)} :: TreePath(q) && Slash(q) in scopes ==> scopes[Slash(q)] == FolderRules(root, q)
  }

  /** Every folder above `p` that has rules is a key of the map. */
  ghost predicate Present(root: Node, scopes: ScopeMap, p: seq<string>) {
    forall k {:trigger p[..k]} :: 0 <= k < |p| ==> Slash(p[..k]) in scopes || FolderRules(root, p[..k]) == []
  }

  lemma MatchIsBarred(root: Node, scopes: ScopeMap, p: seq<string>, isDir: bool)
    requires ValidPath(p) && Sound(root, scopes) && Present(root, scopes, p)
    ensures LastDecides(AskAll(scopes, ViewsFrom(Slash(p), -1)), isDir)
            == LastDecides(AskPath(p, RulesAbove(root, p)), isDir)
  {
    forall k | 0 <= k < |p|
      ensures Lookup(scopes, Slash(p[..k])) == RulesAbove(root, p)[k]
    {
      assert TreePath(p[..k]);
    }
    MatchIsAskPath(scopes, p, RulesAbove(root, p), isDir);
  }

  lemma SlashNotEmpty(p: seq<string>)
    requires ValidPath(p)
    ensures Slash(p) != ""
  {
  }

  lemma SoundWith(root: Node, scopes: ScopeMap, p: seq<string>, rules: Rules)
    requires ValidPath(p) && Sound(root, scopes) && rules == FolderRules(root, p)
    ensures Sound(root, scopes[Slash(p) := rules])
  {
    var grown := scopes[Slash(p) := rules];
    forall q | TreePath(q) && Slash(q) in grown
      ensures grown[Slash(q)] == FolderRules(root, q)
    {
      if Slash(q) == Slash(p) {
        SlashNotEmpty(p);
        JoinInjective(p, q);
      }
    }
  }

  lemma PresentBelow(root: Node, scopes: ScopeMap, p: seq<string>, name: string)
    requires Present(root, scopes, p)
    requires Slash(p) in scopes || FolderRules(root, p) == []
    ensures Present(root, scopes, p + [name])
  {
    var q := p + [name];
    forall k | 0 <= k < |q|
      ensures Slash(q[..k]) in scopes || FolderRules(root, q[..k]) == []
    {
      if k < |p| { assert q[..k] == p[..k]; } else { assert q[..k] == p; }
    }
  }

  lemma PresentGrows(root: Node, before: ScopeMap, scopes: ScopeMap, p: seq<string>)
    requires Present(root, before, p) && before.Keys <= scopes.Keys
    ensures Present(root, scopes, p)
  {
  }

  lemma {:induction false} NodeAtSnoc(root: Node, p: seq<string>, name: string)
    ensures NodeAt(root, p + [name])
            == if NodeAt(root, p).None? then None else Child(NodeAt(root, p).value.kids, name)
    decreases |p|
  {
    if p == [] {
      assert (p + [name])[1..] == [];
    } else {
      assert (p + [name])[1..] == p[1..] + [name];
      if Child(root.kids, p[0]).Some? {
        NodeAtSnoc(Child(root.kids, p[0]).value, p[1..], name);
      }
    }
  }

  lemma {:induction false} ChildAt(kids: seq<Node>, i: nat)
    requires i < |kids|
    requires forall a, b :: 0 <= a < b < |kids| ==> kids[a].name != kids[b].name
    ensures Child(kids, kids[i].name) == Some(kids[i])
  {
    if i > 0 { ChildAt(kids[1..], i - 1); }
  }

  lemma {:induction false} ChildIndex(kids: seq<Node>, name: string) returns (i: nat)
    requires Child(kids, name).Some?
    ensures i < |kids| && kids[i].name == name && Child(kids, name) == Some(kids[i])
  {
    if kids[0].name == name {
      i := 0;
    } else {
      i := ChildIndex(kids[1..], name);
      i := i + 1;
    }
  }

  class Packer {
    var ignore: ScopeMap
    var entries: seq<Entry>

    constructor (top: Rules)
      ensures ignore == map["" := top] && entries == []
    {
      ignore, entries := map["" := top], [];
    }

    /** Whether the visit of `n` at `rel` goes no further. `p` is `rel` by components. */
    method LeavesOut(rel: string, n: Node, ghost root: Node, ghost p: seq<string>) returns (out: bool)
      requires ValidPath(p) && rel == Slash(p) && n.name == p[|p| - 1]
      requires Sound(root, ignore) && Present(root, ignore, p)
      ensures out == Barred(root, p, n)
    {
      if NeverPacked(n.name) {
        return true;
      }
      MatchIsBarred(root, ignore, p, n.kind.Folder?);
      SlashNotEmpty(p);
      out := Match(ignore, rel, n.kind.Folder?);
    }

    /** Entering a folder adds its rules, when it has any. */
    method Enter(rel: string, n: Node, ghost root: Node, ghost p: seq<string>)
      requires ValidPath(p) && rel == Slash(p) && n.kind.Folder? && NodeAt(root, p) == Some(n)
      requires Sound(root, ignore)
      modifies this`ignore
      ensures Sound(root, ignore) && old(ignore).Keys <= ignore.Keys
      ensures Slash(p) in ignore || FolderRules(root, p) == []
    {
      var rules := LoadIgnore(n.lines);
      if |rules| > 0 {
        SoundWith(root, ignore, p, rules);
        ignore := ignore[rel := rules];
      }
    }

    /** The walk's visit of `n` at `rel`, and of everything in it. */
    method Visit(rel: string, n: Node, ghost root: Node, ghost p: seq<string>)
      requires ValidPath(p) && rel == Slash(p) && n.name == p[|p| - 1]
      requires ValidTree(n) && NodeAt(root, p) == Some(n)
      requires Sound(root, ignore) && Present(root, ignore, p)
      modifies this
      ensures entries == old(entries) + Pruned(root, p, n)
      ensures Sound(root, ignore) && old(ignore).Keys <= ignore.Keys
      decreases n, 0, 0
    {
      var out := LeavesOut(rel, n, root, p);
      if out {
        assert Pruned(root, p, n) == [];
        return;
      }
      if n.kind.Folder? {
        Enter(rel, n, root, p);
      }
      ghost var own := if n.kind.Special? then [] else [Entry(rel, n.kind)];
      if !n.kind.Special? {
        entries := entries + [Entry(rel, n.kind)];
      }
      PresentGrows(root, old(ignore), ignore, p);
      KidsOf(n);
      VisitKids(rel, n, n.kids, root, p);
      RegroupEntries(old(entries), own, PrunedKids(root, p, n.kids));
    }

    /** The kids of `n` that are left to visit. */
    method VisitKids(rel: string, ghost n: Node, kids: seq<Node>, ghost root: Node, ghost p: seq<string>)
      requires TreePath(p) && rel == Slash(p) && NodeAt(root, p) == Some(n)
      requires forall kid <- kids :: KidOf(n, kid)
      requires Sound(root, ignore) && Present(root, ignore, p)
      requires kids == [] || Slash(p) in ignore || FolderRules(root, p) == []
      modifies this
      ensures entries == old(entries) + PrunedKids(root, p, kids)
      ensures Sound(root, ignore) && old(ignore).Keys <= ignore.Keys
      decreases kids, 1
    {
      if kids == [] {
        return;
      }
      var kid := kids[0];
      ghost var q := p + [kid.name];
      assert KidOf(n, kid);
      NodeAtSnoc(root, p, kid.name);
      PresentBelow(root, ignore, p, kid.name);
      KidPath(p, kid.name);
      Visit(if rel == "" then kid.name else rel + ['/'] + kid.name, kid, root, q);
      PresentGrows(root, old(ignore), ignore, p);
      ghost var first := Pruned(root, q, kid);
      VisitKids(rel, n, kids[1..], root, p);
      RegroupEntries(old(entries), first, PrunedKids(root, p, kids[1..]));
    }
  }

  predicate KidOf(n: Node, kid: Node) {
    ValidName(kid.name) && ValidTree(kid) && Child(n.kids, kid.name) == Some(kid)
  }

  lemma KidsOf(n: Node)
    requires ValidTree(n)
    ensures forall kid <- n.kids :: KidOf(n, kid)
  {
    forall i | 0 <= i < |n.kids|
      ensures KidOf(n, n.kids[i])
    {
      assert n.kids[i] in n.kids;
      ChildAt(n.kids, i);
    }
  }

  lemma RegroupEntries(a: seq<Entry>, b: seq<Entry>, c: seq<Entry>)
    ensures a + b + c == a + (b + c)
  {
  }

  lemma KidPath(p: seq<string>, name: string)
    requires TreePath(p) && ValidName(name)
    ensures ValidPath(p + [name])
    ensures Slash(p + [name]) == if Slash(p) == "" then name else Slash(p) + ['/'] + name
  {
    if p == [] {
      assert p + [name] == [name];
    } else {
      SlashNotEmpty(p);
      JoinSnoc(p, name, '/');
    }
  }

  /** The whole walk collects what the tree's own rules keep. */
  method WalkFolder(root: Node) returns (entries: seq<Entry>)
    requires ValidTree(root) && root.kind.Folder?
    ensures entries == Collected(root)
  {
    var top := LoadIgnore(root.lines);
    var packer := new Packer(top);
    forall q | TreePath(q) && Slash(q) == ""
      ensures q == []
    {
      if q != [] { SlashNotEmpty(q); }
    }
    KidsOf(root);
    packer.VisitKids("", root, root.kids, root, []);
    entries := packer.entries;
  }
}
