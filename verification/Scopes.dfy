/** Deciding a path by the rules of its folders: each folder's rules in turn, from the top down,
    and the last rule that matches decides. */
module Scopes {
  import opened Prelude
  import opened Text
  import opened Paths
  import opened Regex
  import opened Ignore

  type Rules = seq<Rule>

  /** The rules of every folder that has an ignore file, by the folder's path, "" for the top. */
  type ScopeMap = map<string, Rules>

  // ── One folder's rules ────────────────────────────────────────────────────

  /** The rule on a line, when there is one. */
  function RuleOn(line: string): Rules {
    match CompileLine(line)
    case None => []
    case Some(rule) => [rule]
  }

  /** The rules of a folder's ignore files, in the order of their lines. */
  function RulesOf(lines: seq<string>): Rules {
    if lines == [] then [] else RulesOf(lines[..|lines| - 1]) + RuleOn(lines[|lines| - 1])
  }

  /** `loadIgnore`, given the lines of the files it finds. */
  method LoadIgnore(lines: seq<string>) returns (rules: Rules)
    ensures rules == RulesOf(lines)
  {
    rules := [];
    assert lines[..0] == [];
    for i := 0 to |lines|
      invariant rules == RulesOf(lines[..i])
    {
      assert lines[..i + 1][..i] == lines[..i];
      rules := AppendRule(rules, lines[i]);
    }
    assert lines[..|lines|] == lines;
  }

  method AppendRule(rules: Rules, line: string) returns (r: Rules)
    ensures r == rules + RuleOn(line)
  {
    var parsed := ParseIgnoreLine(line);
    match parsed {
      case None => r := rules;
      case Some(rule) => r := rules + [rule];
    }
  }

  /** Rule `r` has a say about the path `rel`. */
  predicate Applies(r: Rule, rel: string, isDir: bool) {
    !(r.dirOnly && !isDir && !Search(r.re, Dir(rel))) && Search(r.re, rel)
  }

  /** A rule, and the path it is asked about, relative to the rule's own folder. */
  type Asked = (string, Rule)

  /** The last rule that matches decides; with none, nothing is ignored. */
  predicate LastDecides(asked: seq<Asked>, isDir: bool) {
    asked != [] &&
    var (rel, r) := asked[|asked| - 1];
    if Applies(r, rel, isDir) then !r.negate else LastDecides(asked[..|asked| - 1], isDir)
  }

  /** The `k`th rule asked applies, and no later one does. */
  predicate LastApplies(asked: seq<Asked>, isDir: bool, k: nat) {
    k < |asked| && Applies(asked[k].1, asked[k].0, isDir) && forall j :: k < j < |asked| ==> !Applies(asked[j].1, asked[j].0, isDir)
  }

  /** The last rule that applies is there, and is not one that takes back. */
  ghost predicate LeftOut(asked: seq<Asked>, isDir: bool) {
    exists k: nat :: LastApplies(asked, isDir, k) && !asked[k].1.negate
  }

  lemma {:induction false} LastDecidesIff(asked: seq<Asked>, isDir: bool)
    ensures LastDecides(asked, isDir) <==> LeftOut(asked, isDir)
  {
    if asked != [] {
      var n := |asked| - 1;
      if Applies(asked[n].1, asked[n].0, isDir) {
        assert LastApplies(asked, isDir, n);
      } else {
        LastDecidesIff(asked[..n], isDir);
        assert forall k: nat :: LastApplies(asked, isDir, k) <==> LastApplies(asked[..n], isDir, k);
      }
    }
  }

  function Ask(rel: string, rules: Rules): seq<Asked> {
    seq(|rules|, i requires 0 <= i < |rules| => (rel, rules[i]))
  }

  lemma AskNext(before: seq<Asked>, rel: string, rules: Rules, i: nat)
    requires i < |rules|
    ensures var next := before + Ask(rel, rules)[..i + 1];
            next != [] && next[|next| - 1] == (rel, rules[i])
            && next[..|next| - 1] == before + Ask(rel, rules)[..i]
  {
  }

  /** `decide`, carrying on from the rules `before` these. */
  method Decide(rules: Rules, rel: string, isDir: bool, ignored: bool, ghost before: seq<Asked>)
    returns (r: bool)
    requires ignored == LastDecides(before, isDir)
    ensures r == LastDecides(before + Ask(rel, rules), isDir)
  {
    r := ignored;
    assert before + Ask(rel, rules)[..0] == before;
    for i := 0 to |rules|
      invariant r == LastDecides(before + Ask(rel, rules)[..i], isDir)
    {
      AskNext(before, rel, rules, i);
      if rules[i].dirOnly && !isDir && !Search(rules[i].re, Dir(rel)) {
        continue;
      }
      if Search(rules[i].re, rel) {
        r := !rules[i].negate;
      }
    }
    assert Ask(rel, rules)[..|rules|] == Ask(rel, rules);
  }

  // ── All the scopes of a path ──────────────────────────────────────────────

  function NextSlash(s: string, from: nat): (n: nat)
    requires from <= |s|
    ensures from <= n <= |s| && (n < |s| ==> s[n] == '/')
    ensures forall i :: from <= i < n ==> s[i] != '/'
    decreases |s| - from
  {
    if from == |s| || s[from] == '/' then from else NextSlash(s, from + 1)
  }

  /** A folder of `rel` and the rest of `rel` below it; the top folder for -1. */
  function ViewAt(rel: string, i: int): (string, string)
    requires -1 <= i < |rel|
  {
    if i == -1 then ("", rel) else (rel[..i], rel[i + 1..])
  }

  function ViewsFrom(rel: string, i: int): seq<(string, string)>
    requires -1 <= i < |rel|
    decreases |rel| - i
  {
    var j := NextSlash(rel, i + 1);
    [ViewAt(rel, i)] + if j == |rel| then [] else ViewsFrom(rel, j)
  }

  function AskFolder(scopes: ScopeMap, view: (string, string)): seq<Asked> {
    if view.0 in scopes then Ask(view.1, scopes[view.0]) else []
  }

  /** Every rule with a say, folder by folder in the order of `views`. */
  function AskAll(scopes: ScopeMap, views: seq<(string, string)>): seq<Asked> {
    if views == [] then [] else AskFolder(scopes, views[0]) + AskAll(scopes, views[1..])
  }

  lemma {:induction false} AskAllSnoc(scopes: ScopeMap, views: seq<(string, string)>, v: (string, string))
    ensures AskAll(scopes, views + [v]) == AskAll(scopes, views) + AskFolder(scopes, v)
  {
    if views != [] {
      assert (views + [v])[1..] == views[1..] + [v];
      AskAllSnoc(scopes, views[1..], v);
    } else {
      assert (views + [v])[1..] == [];
    }
  }

  /** The step `ignoreScopes.match` takes at one folder. */
  method MatchFolder(scopes: ScopeMap, view: (string, string), isDir: bool, ignored: bool,
                     ghost done: seq<(string, string)>)
    returns (r: bool)
    requires ignored == LastDecides(AskAll(scopes, done), isDir)
    ensures r == LastDecides(AskAll(scopes, done + [view]), isDir)
  {
    AskAllSnoc(scopes, done, view);
    if view.0 in scopes {
      r := Decide(scopes[view.0], view.1, isDir, ignored, AskAll(scopes, done));
    } else {
      assert AskAll(scopes, done) + [] == AskAll(scopes, done);
      r := ignored;
    }
  }

  lemma RegroupViews(a: seq<(string, string)>, v: (string, string), b: seq<(string, string)>)
    ensures a + ([v] + b) == (a + [v]) + b
  {
  }

  /** `ignoreScopes.match`. */
  method Match(scopes: ScopeMap, rel: string, isDir: bool) returns (ignored: bool)
    requires rel != ""
    ensures ignored == LastDecides(AskAll(scopes, ViewsFrom(rel, -1)), isDir)
    ensures ignored <==> LeftOut(AskAll(scopes, ViewsFrom(rel, -1)), isDir)
  {
    LastDecidesIff(AskAll(scopes, ViewsFrom(rel, -1)), isDir);
    ignored := false;
    var i := -1;
    ghost var all := ViewsFrom(rel, -1);
    ghost var done: seq<(string, string)> := [];
    while true
      invariant -1 <= i < |rel|
      invariant ignored == LastDecides(AskAll(scopes, done), isDir)
      invariant done + ViewsFrom(rel, i) == all
      decreases |rel| - i
    {
      var base, sub := "", rel;
      if i >= 0 {
        base, sub := rel[..i], rel[i + 1..];
      }
      ignored := MatchFolder(scopes, (base, sub), isDir, ignored, done);
      var j := NextSlash(rel, i + 1);
      if j == |rel| {
        assert all == done + [(base, sub)];
        return;
      }
      RegroupViews(done, (base, sub), ViewsFrom(rel, j));
      done := done + [(base, sub)];
      i := j;
    }
  }

  // ── On a path of the tree ─────────────────────────────────────────────────

  function Slash(p: seq<string>): string {
    Join(p, '/')
  }

  /** The folder `k` components down the path, and the path below it. */
  function PathView(p: seq<string>, k: nat): (string, string)
    requires k < |p|
  {
    (Slash(p[..k]), Slash(p[k..]))
  }

  lemma SlashSplit(p: seq<string>, k: nat)
    requires 0 < k < |p|
    ensures Slash(p) == Slash(p[..k]) + ['/'] + Slash(p[k..])
  {
    assert p == p[..k] + p[k..];
    JoinConcat(p[..k], p[k..], '/');
  }

  lemma SlashGrows(p: seq<string>, k: nat)
    requires 0 < k < |p|
    ensures Slash(p[..k + 1]) == Slash(p[..k]) + ['/'] + p[k]
  {
    assert p[..k + 1] == p[..k] + [p[k]];
    JoinSnoc(p[..k], p[k], '/');
  }

  /** Where the folder `k` components down ends in the path; -1 for the top. */
  function FolderEnd(p: seq<string>, k: nat): int
    requires k <= |p|
  {
    if k == 0 then -1 else |Slash(p[..k])|
  }

  lemma FolderEndNext(p: seq<string>, k: nat)
    requires ValidPath(p) && k < |p|
    ensures FolderEnd(p, k) + 1 + |p[k]| == FolderEnd(p, k + 1) <= |Slash(p)|
    ensures FolderEnd(p, k + 1) == |Slash(p)| <==> k + 1 == |p|
    ensures Slash(p)[FolderEnd(p, k) + 1..FolderEnd(p, k + 1)] == p[k]
    ensures k + 1 < |p| ==> Slash(p)[FolderEnd(p, k + 1)] == '/'
  {
    if k == 0 {
      assert p[..1] == [p[0]];
    } else {
      SlashGrows(p, k);
    }
    if k + 1 < |p| {
      SlashSplit(p, k + 1);
    } else {
      assert p[..k + 1] == p;
    }
  }

  /** Past a folder of a path, the next slash is the end of the next component. */
  lemma NextSlashOnPath(p: seq<string>, k: nat)
    requires ValidPath(p) && k < |p|
    ensures FolderEnd(p, k) + 1 <= |Slash(p)|
    ensures NextSlash(Slash(p), FolderEnd(p, k) + 1) == FolderEnd(p, k + 1)
  {
    FolderEndNext(p, k);
    var rel, from, end := Slash(p), FolderEnd(p, k) + 1, FolderEnd(p, k + 1);
    assert forall i :: from <= i < end ==> rel[i] == rel[from..end][i - from] == p[k][i - from];
  }

  lemma CutAround(a: string, b: string)
    ensures var s := a + ['/'] + b; s[..|a|] == a && s[|a| + 1..] == b
  {
  }

  lemma ViewAtFolder(p: seq<string>, k: nat)
    requires ValidPath(p) && k < |p|
    ensures FolderEnd(p, k) < |Slash(p)| && ViewAt(Slash(p), FolderEnd(p, k)) == PathView(p, k)
  {
    FolderEndNext(p, k);
    if k == 0 {
      assert p[..0] == [] && p[0..] == p;
    } else {
      SlashSplit(p, k);
      CutAround(Slash(p[..k]), Slash(p[k..]));
    }
  }

  function PathViews(p: seq<string>, k: nat): seq<(string, string)>
    requires k <= |p|
    decreases |p| - k
  {
    if k == |p| then [] else [PathView(p, k)] + PathViews(p, k + 1)
  }

  lemma ViewsStep(rel: string, i: int, view: (string, string), j: nat)
    requires -1 <= i < |rel| && ViewAt(rel, i) == view && NextSlash(rel, i + 1) == j
    ensures ViewsFrom(rel, i) == [view] + if j == |rel| then [] else ViewsFrom(rel, j)
  {
  }

  lemma {:induction false} ViewsFromPath(p: seq<string>, k: nat)
    requires ValidPath(p) && k < |p| && FolderEnd(p, k) < |Slash(p)|
    ensures ViewsFrom(Slash(p), FolderEnd(p, k)) == PathViews(p, k)
    decreases |p| - k
  {
    ViewAtFolder(p, k);
    NextSlashOnPath(p, k);
    FolderEndNext(p, k);
    ViewsStep(Slash(p), FolderEnd(p, k), PathView(p, k), FolderEnd(p, k + 1));
    if k + 1 < |p| {
      ViewsFromPath(p, k + 1);
    }
  }

  lemma {:induction false} PathViewsAt(p: seq<string>, k: nat)
    requires k <= |p|
    ensures |PathViews(p, k)| == |p| - k
    ensures forall n :: 0 <= n < |p| - k ==> PathViews(p, k)[n] == PathView(p, k + n)
    decreases |p| - k
  {
    if k < |p| { PathViewsAt(p, k + 1); }
  }

  /** The walk over a path's folders visits exactly its proper prefixes, from the top down, each
      with what is left of the path below it. */
  lemma ViewsOfPath(p: seq<string>)
    requires ValidPath(p)
    ensures ViewsFrom(Slash(p), -1) == seq(|p|, k requires 0 <= k < |p| => PathView(p, k))
  {
    ViewAtFolder(p, 0);
    ViewsFromPath(p, 0);
    PathViewsAt(p, 0);
  }

  /** Every rule with a say about `p`, when `folderRules[k]` are the rules of the folder `k` down. */
  function AskPath(p: seq<string>, folderRules: seq<Rules>): seq<Asked>
    requires |folderRules| <= |p|
  {
    if folderRules == [] then []
    else
      var k := |folderRules| - 1;
      AskPath(p, folderRules[..k]) + Ask(Slash(p[k..]), folderRules[k])
  }

  function Lookup(scopes: ScopeMap, folder: string): Rules {
    if folder in scopes then scopes[folder] else []
  }

  lemma {:induction false} AskAllIsAskPath(scopes: ScopeMap, p: seq<string>, folderRules: seq<Rules>, n: nat)
    requires |folderRules| == |p| && n <= |p|
    requires forall k :: 0 <= k < |p| ==> Lookup(scopes, Slash(p[..k])) == folderRules[k]
    ensures AskAll(scopes, seq(n, k requires 0 <= k < n => PathView(p, k))) == AskPath(p, folderRules[..n])
  {
    if n > 0 {
      var views := seq(n, k requires 0 <= k < n => PathView(p, k));
      var init := seq(n - 1, k requires 0 <= k < n - 1 => PathView(p, k));
      assert views == init + [PathView(p, n - 1)];
      AskAllSnoc(scopes, init, PathView(p, n - 1));
      AskAllIsAskPath(scopes, p, folderRules, n - 1);
      assert folderRules[..n][..n - 1] == folderRules[..n - 1];
      assert AskFolder(scopes, PathView(p, n - 1)) == Ask(Slash(p[n - 1..]), folderRules[n - 1]);
    }
  }

  /** Matching a path against the map is deciding by the rules of its own folders and no others. */
  lemma MatchIsAskPath(scopes: ScopeMap, p: seq<string>, folderRules: seq<Rules>, isDir: bool)
    requires ValidPath(p) && |folderRules| == |p|
    requires forall k :: 0 <= k < |p| ==> Lookup(scopes, Slash(p[..k])) == folderRules[k]
    ensures LastDecides(AskAll(scopes, ViewsFrom(Slash(p), -1)), isDir) == LastDecides(AskPath(p, folderRules), isDir)
  {
    ViewsOfPath(p);
    AskAllIsAskPath(scopes, p, folderRules, |p|);
    assert folderRules[..|p|] == folderRules;
  }

  // ── What the lines say of a path ──────────────────────────────────────────

  /** A line of text that says `l` has a say about the path `rel`. */
  ghost predicate SpeaksAs(text: string, rel: string, isDir: bool, l: Line) {
    Says(text, l) && GlobMatches(l, rel) && (l.dirOnly && !isDir ==> GlobMatches(l, Dir(rel)))
  }

  ghost predicate Speaks(text: string, rel: string, isDir: bool) {
    exists l :: SpeaksAs(text, rel, isDir, l)
  }

  /** And it is not one that takes back. */
  ghost predicate TakesOut(text: string, rel: string, isDir: bool) {
    exists l :: SpeaksAs(text, rel, isDir, l) && !l.negate
  }

  lemma RuleSpeaks(text: string, rel: string, isDir: bool)
    ensures RuleOn(text) == [] ==> !Speaks(text, rel, isDir)
    ensures RuleOn(text) != [] ==>
              var r := RuleOn(text)[0];
              && RuleOn(text) == [r] && (Applies(r, rel, isDir) <==> Speaks(text, rel, isDir))
              && (Speaks(text, rel, isDir) ==> (TakesOut(text, rel, isDir) <==> !r.negate))
  {
    LineCompiles(text);
    if ReadLine(text).Some? {
      var l := ReadLine(text).value;
      ReadsIff(text, l);
      assert SpeaksAs(text, rel, isDir, l) <==> Applies(RuleOn(text)[0], rel, isDir);
    }
    forall l | Says(text, l)
      ensures ReadLine(text) == Some(l)
    {
      ReadsIff(text, l);
    }
  }

  ghost predicate Silent(lines: seq<string>, rel: string, isDir: bool) {
    forall j :: 0 <= j < |lines| ==> !Speaks(lines[j], rel, isDir)
  }

  /** The `j`th line speaks, and no later one does. */
  ghost predicate LastSpeaks(lines: seq<string>, rel: string, isDir: bool, j: nat) {
    j < |lines| && Speaks(lines[j], rel, isDir) && forall i :: j < i < |lines| ==> !Speaks(lines[i], rel, isDir)
  }

  ghost predicate LinesTakeOut(lines: seq<string>, rel: string, isDir: bool) {
    exists j: nat :: LastSpeaks(lines, rel, isDir, j) && TakesOut(lines[j], rel, isDir)
  }

  lemma SilentSnoc(lines: seq<string>, rel: string, isDir: bool)
    requires lines != []
    ensures var n := |lines| - 1;
            Silent(lines, rel, isDir) <==> !Speaks(lines[n], rel, isDir) && Silent(lines[..n], rel, isDir)
  {
  }

  lemma LastSpeaksInit(lines: seq<string>, rel: string, isDir: bool, j: nat)
    requires lines != [] && !Speaks(lines[|lines| - 1], rel, isDir)
    ensures LastSpeaks(lines, rel, isDir, j) <==> LastSpeaks(lines[..|lines| - 1], rel, isDir, j)
  {
  }

  lemma LinesSnoc(lines: seq<string>, rel: string, isDir: bool)
    requires lines != []
    ensures var n := |lines| - 1;
            LinesTakeOut(lines, rel, isDir)
            <==> if Speaks(lines[n], rel, isDir) then TakesOut(lines[n], rel, isDir) else LinesTakeOut(lines[..n], rel, isDir)
  {
    var n := |lines| - 1;
    if Speaks(lines[n], rel, isDir) {
      assert LastSpeaks(lines, rel, isDir, n);
    } else {
      forall j: nat
        ensures LastSpeaks(lines, rel, isDir, j) <==> LastSpeaks(lines[..n], rel, isDir, j)
      {
        LastSpeaksInit(lines, rel, isDir, j);
      }
    }
  }

  lemma AskSnoc(before: seq<Asked>, rel: string, rules: Rules, r: Rule)
    ensures before + Ask(rel, rules + [r]) == before + Ask(rel, rules) + [(rel, r)]
  {
  }

  lemma DecidesSnoc(asked: seq<Asked>, rel: string, r: Rule, isDir: bool)
    ensures LastDecides(asked + [(rel, r)], isDir) == if Applies(r, rel, isDir) then !r.negate else LastDecides(asked, isDir)
  {
    assert (asked + [(rel, r)])[..|asked|] == asked;
  }

  /** The rules of a folder decide as its lines say, last first, and leave the rest to the folders above. */
  lemma {:induction false} FolderDecides(before: seq<Asked>, rel: string, lines: seq<string>, isDir: bool)
    ensures LastDecides(before + Ask(rel, RulesOf(lines)), isDir)
            <==> LinesTakeOut(lines, rel, isDir) || (Silent(lines, rel, isDir) && LastDecides(before, isDir))
  {
    if lines == [] {
      assert before + Ask(rel, []) == before;
    } else {
      var n := |lines| - 1;
      var rules, text := RulesOf(lines[..n]), lines[n];
      FolderDecides(before, rel, lines[..n], isDir);
      LinesSnoc(lines, rel, isDir);
      SilentSnoc(lines, rel, isDir);
      RuleSpeaks(text, rel, isDir);
      if RuleOn(text) == [] {
        assert rules + RuleOn(text) == rules;
      } else {
        AskSnoc(before, rel, rules, RuleOn(text)[0]);
        DecidesSnoc(before + Ask(rel, rules), rel, RuleOn(text)[0], isDir);
      }
    }
  }

  /** The `j`th line of the folder `k` components down speaks of the path. */
  ghost predicate Spoken(p: seq<string>, lines: seq<seq<string>>, isDir: bool, k: nat, j: nat) {
    k < |lines| && k <= |p| && j < |lines[k]| && Speaks(lines[k][j], Slash(p[k..]), isDir)
  }

  /** And no later line of that folder does, nor any of a folder further down. */
  ghost predicate LastSpoken(p: seq<string>, lines: seq<seq<string>>, isDir: bool, k: nat, j: nat) {
    && Spoken(p, lines, isDir, k, j)
    && forall k': nat, j': nat :: k' > k || (k' == k && j' > j) ==> !Spoken(p, lines, isDir, k', j')
  }

  ghost predicate TakenOutAt(p: seq<string>, lines: seq<seq<string>>, isDir: bool, k: nat, j: nat) {
    LastSpoken(p, lines, isDir, k, j) && TakesOut(lines[k][j], Slash(p[k..]), isDir)
  }

  /** Of all the lines in the folders above a path, from the top down, the last that speaks of it takes it
      out. */
  ghost predicate TakenOut(p: seq<string>, lines: seq<seq<string>>, isDir: bool) {
    exists k: nat, j: nat :: TakenOutAt(p, lines, isDir, k, j)
  }

  function AllRules(lines: seq<seq<string>>): seq<Rules> {
    seq(|lines|, k requires 0 <= k < |lines| => RulesOf(lines[k]))
  }

  lemma SpokenLast(p: seq<string>, lines: seq<seq<string>>, isDir: bool, j: nat)
    requires lines != [] && |lines| <= |p|
    ensures var n := |lines| - 1;
            Spoken(p, lines, isDir, n, j) <==> j < |lines[n]| && Speaks(lines[n][j], Slash(p[n..]), isDir)
  {
  }

  lemma LastOfFolder(p: seq<string>, lines: seq<seq<string>>, isDir: bool, j: nat)
    requires lines != [] && |lines| <= |p|
    ensures var n := |lines| - 1;
            LastSpoken(p, lines, isDir, n, j) <==> LastSpeaks(lines[n], Slash(p[n..]), isDir, j)
  {
    var n := |lines| - 1;
    SpokenLast(p, lines, isDir, j);
    forall i: nat
      ensures Spoken(p, lines, isDir, n, i) <==> i < |lines[n]| && Speaks(lines[n][i], Slash(p[n..]), isDir)
    {
      SpokenLast(p, lines, isDir, i);
    }
    if LastSpoken(p, lines, isDir, n, j) {
      forall i | j < i < |lines[n]|
        ensures !Speaks(lines[n][i], Slash(p[n..]), isDir)
      {
        assert !Spoken(p, lines, isDir, n, i);
      }
    }
  }

  lemma LastFolderTakes(p: seq<string>, lines: seq<seq<string>>, isDir: bool)
    requires lines != [] && |lines| <= |p|
    requires var n := |lines| - 1; !Silent(lines[n], Slash(p[n..]), isDir)
    ensures var n := |lines| - 1; TakenOut(p, lines, isDir) <==> LinesTakeOut(lines[n], Slash(p[n..]), isDir)
  {
    var n := |lines| - 1;
    var i :| 0 <= i < |lines[n]| && Speaks(lines[n][i], Slash(p[n..]), isDir);
    SpokenLast(p, lines, isDir, i);
    if k: nat, j: nat :| TakenOutAt(p, lines, isDir, k, j) {
      assert k == n;
      LastOfFolder(p, lines, isDir, j);
    }
    if j: nat :| LastSpeaks(lines[n], Slash(p[n..]), isDir, j) && TakesOut(lines[n][j], Slash(p[n..]), isDir) {
      LastOfFolder(p, lines, isDir, j);
      assert TakenOutAt(p, lines, isDir, n, j);
    }
  }

  lemma LastFolderSilent(p: seq<string>, lines: seq<seq<string>>, isDir: bool)
    requires lines != [] && |lines| <= |p|
    requires var n := |lines| - 1; Silent(lines[n], Slash(p[n..]), isDir)
    ensures TakenOut(p, lines, isDir) <==> TakenOut(p, lines[..|lines| - 1], isDir)
  {
    var n := |lines| - 1;
    assert forall k: nat, j: nat :: Spoken(p, lines, isDir, k, j) <==> Spoken(p, lines[..n], isDir, k, j);
    assert forall k: nat, j: nat :: TakenOutAt(p, lines, isDir, k, j) <==> TakenOutAt(p, lines[..n], isDir, k, j);
  }

  /** The rules of the folders above a path decide as their lines say. */
  lemma {:induction false} PathDecides(p: seq<string>, lines: seq<seq<string>>, isDir: bool)
    requires |lines| <= |p|
    ensures LastDecides(AskPath(p, AllRules(lines)), isDir) <==> TakenOut(p, lines, isDir)
  {
    if lines != [] {
      var n := |lines| - 1;
      var rel := Slash(p[n..]);
      assert AllRules(lines)[..n] == AllRules(lines[..n]);
      PathDecides(p, lines[..n], isDir);
      FolderDecides(AskPath(p, AllRules(lines[..n])), rel, lines[n], isDir);
      if Silent(lines[n], rel, isDir) { LastFolderSilent(p, lines, isDir); } else { LastFolderTakes(p, lines, isDir); }
    }
  }

  // ── What lies beneath a match ─────────────────────────────────────────────

  predicate NoNewline(s: string) {
    '\n' !in s
  }

  lemma {:induction false} GlobAtBeneath(pattern: string, s: string, rest: string, i: nat)
    requires i <= |s| && NoNewline(rest) && GlobAt(pattern, s, i)
    ensures GlobAt(pattern, s + ['/'] + rest, i)
    decreases |pattern|
  {
    var t := s + ['/'] + rest;
    assert t[..|s|] == s && t[|s|] == '/' && forall k :: |s| < k < |t| ==> t[k] == rest[k - |s| - 1];
    if pattern == "" {
      assert AtBoundary(t, i);
    } else {
      var k :| i <= k <= |s| && Consumes(pattern, s, i, k) && GlobAt(pattern[Width(pattern)..], s, k);
      assert forall n :: 0 <= n < |s| ==> t[n] == s[n];
      assert Consumes(pattern, t, i, k);
      GlobAtBeneath(pattern[Width(pattern)..], s, rest, k);
    }
  }

  /** A pattern that matches a path matches everything beneath it. */
  lemma MatchesBeneath(line: Line, s: string, rest: string)
    requires GlobMatches(line, s) && NoNewline(rest)
    ensures GlobMatches(line, s + ['/'] + rest)
  {
    var t := s + ['/'] + rest;
    assert forall n :: 0 <= n < |s| ==> t[n] == s[n];
    if line.anchored {
      GlobAtBeneath(line.pattern, s, rest, 0);
    } else {
      var k :| 0 <= k <= |s| && ComponentStart(s, k) && GlobAt(line.pattern, s, k);
      GlobAtBeneath(line.pattern, s, rest, k);
      assert ComponentStart(t, k);
    }
  }

  /** Some folder above the path's last name matches the pattern. */
  ghost predicate FolderAboveMatches(line: Line, p: seq<string>) {
    exists k :: 1 <= k < |p| && GlobMatches(line, Slash(p[..k]))
  }

  lemma NoNewlineJoin(p: seq<string>)
    requires forall i :: 0 <= i < |p| ==> NoNewline(p[i])
    ensures NoNewline(Slash(p))
  {
    if |p| > 1 { NoNewlineJoin(p[1..]); }
  }

  lemma FolderMatchReachesParent(line: Line, p: seq<string>)
    requires forall i :: 0 <= i < |p| ==> NoNewline(p[i])
    requires |p| > 1 && FolderAboveMatches(line, p)
    ensures GlobMatches(line, Slash(p[..|p| - 1]))
  {
    var k :| 1 <= k < |p| && GlobMatches(line, Slash(p[..k]));
    var parent := p[..|p| - 1];
    if k < |parent| {
      NoNewlineJoin(parent[k..]);
      assert parent[..k] == p[..k];
      SlashSplit(parent, k);
      MatchesBeneath(line, Slash(parent[..k]), Slash(parent[k..]));
    } else {
      assert parent == p[..k];
    }
  }

  /** When a folder-only line decides a file as it should: exactly when the pattern matches some
      folder above it. That fails for a name at the top whose pattern also matches ".", because
      `path.Dir` answers "." where there is no folder. */
  lemma FolderOnlyIff(rule: Rule, line: Line, p: seq<string>)
    requires ValidPath(p) && forall i :: 0 <= i < |p| ==> NoNewline(p[i])
    requires Means(rule, line) && line.dirOnly
    ensures (Applies(rule, Slash(p), false) <==> FolderAboveMatches(line, p))
            <==> |p| > 1 || !(GlobMatches(line, ".") && GlobMatches(line, p[0]))
  {
    DirOfPath(p);
    if |p| > 1 {
      var parent := p[..|p| - 1];
      if GlobMatches(line, Slash(parent)) {
        assert p == parent + [p[|p| - 1]];
        JoinSnoc(parent, p[|p| - 1], '/');
        MatchesBeneath(line, Slash(parent), p[|p| - 1]);
        assert FolderAboveMatches(line, p);
      }
      if FolderAboveMatches(line, p) {
        FolderMatchReachesParent(line, p);
      }
    }
  }

  /** A line that names folders only, yet ignores a file at the top. */
  lemma FolderOnlyIgnoresATopFile()
    ensures CompileLine("*/").Some? && CompileLine("*/").value.dirOnly
    ensures Applies(CompileLine("*/").value, "notes", false)
    ensures !FolderAboveMatches(ReadLine("*/").value, ["notes"])
  {
    var text, line := "*/", Line("*", false, false, true);
    assert TrimRight(text, BLANKS) == text && TrimSuffix(text, "/") == "*";
    assert ReadLine(text) == Some(line);
    LineCompiles(text);
    forall s: string | s == "." || s == "notes"
      ensures GlobMatches(line, s)
    {
      assert GlobAt("*"[1..], s, |s|);
      assert Consumes("*", s, 0, |s|);
      assert ComponentStart(s, 0) && GlobAt("*", s, 0);
    }
    DirOfPath(["notes"]);
  }
}
