/** What the generated edge configuration is on disk: which files differ from a rendering, how the
    difference is installed, and how it is taken back. */
module EdgeConfig {
  import opened Prelude
  import opened Text
  import opened Sorting

  /** Paths under the install directory, with the contents rendered for them or found there. */
  type Files = map<string, string>

  const ZONES_DIR := "coredns/zones/"
  const CHALLENGE_PREFIX := ZONES_DIR + "_acme-challenge."
  const MARKER := "generated, do not edit"
  const MANIFEST := "created"

  datatype Action = Create | Update | Remove

  datatype Change = Change(path: string, action: Action, before: string, after: string)

  function Get(disk: Files, p: string): Option<string> {
    if p in disk then Some(disk[p]) else None
  }

  // ── What differs ──────────────────────────────────────────────────────────

  /** Written once and then left alone: Caddy keeps its challenges in it. */
  predicate SeedOnly(p: string) {
    HasPrefix(p, CHALLENGE_PREFIX)
  }

  predicate IsZonePath(p: string) {
    HasPrefix(p, ZONES_DIR) && |p| > |ZONES_DIR| && '/' !in p[|ZONES_DIR|..]
  }

  /** A zone an earlier rendering left: in the zones' folder, and carrying the header of one. */
  predicate Stale(p: string, body: string) {
    IsZonePath(p) && Contains(body, MARKER)
  }

  function ChangeAt(files: Files, disk: Files, p: string): Option<Change> {
    if p in files then
      if p !in disk then Some(Change(p, Create, "", files[p]))
      else if SeedOnly(p) || disk[p] == files[p] then None
      else Some(Change(p, Update, disk[p], files[p]))
    else if p in disk && Stale(p, disk[p]) then Some(Change(p, Remove, disk[p], ""))
    else None
  }

  predicate ByPath(a: Change, b: Change) {
    Less(a.path, b.path)
  }

  /** A plan is every difference, in order of path. */
  ghost predicate IsPlan(changes: seq<Change>, files: Files, disk: Files) {
    Ordered(changes, ByPath) && forall c :: c in changes <==> ChangeAt(files, disk, c.path) == Some(c)
  }

  lemma ByPathStrict()
    ensures Strict(ByPath)
  {
    forall a: Change, b: Change | ByPath(a, b)
      ensures !ByPath(b, a)
    {
      LessAsymmetric(a.path, b.path);
    }
    forall a: Change, b: Change, c: Change | ByPath(a, b) && ByPath(b, c)
      ensures ByPath(a, c)
    {
      LessTransitive(a.path, b.path, c.path);
    }
  }

  predicate DistinctPaths(changes: seq<Change>) {
    forall i, j :: 0 <= i < j < |changes| ==> changes[i].path != changes[j].path
  }

  /** Differences found in any order, once each, make the plan when sorted. */
  lemma SortedIsPlan(found: seq<Change>, files: Files, disk: Files)
    requires DistinctPaths(found) && forall c :: c in found <==> ChangeAt(files, disk, c.path) == Some(c)
    ensures IsPlan(Sorted(found, ByPath), files, disk)
  {
    ByPathStrict();
    forall i, j | 0 <= i < j < |found|
      ensures ByPath(found[i], found[j]) || ByPath(found[j], found[i])
    {
      LessTotal(found[i].path, found[j].path);
    }
    SortedOrdered(found, ByPath);
    SortedKeeps(found, ByPath);
  }

  /** What has been found after looking at these paths. */
  ghost predicate Found(found: seq<Change>, files: Files, disk: Files, seen: set<string>) {
    DistinctPaths(found) && forall c :: c in found <==> c.path in seen && ChangeAt(files, disk, c.path) == Some(c)
  }

  lemma FindsOne(found: seq<Change>, files: Files, disk: Files, seen: set<string>, p: string)
    requires Found(found, files, disk, seen) && p !in seen
    ensures var at := ChangeAt(files, disk, p);
            Found(if at.Some? then found + [at.value] else found, files, disk, seen + {p})
  {
    var at := ChangeAt(files, disk, p);
    if at.Some? {
      assert forall c :: c in found + [at.value] <==> c in found || c == at.value;
      forall i | 0 <= i < |found|
        ensures found[i].path != p
      {
        assert found[i] in found;
      }
    }
  }

  /** `Plan` and `staleZones`, every file being readable. */
  method Plan(files: Files, disk: Files) returns (changes: seq<Change>)
    ensures IsPlan(changes, files, disk)
  {
    changes := [];
    var todo := files.Keys;
    ghost var seen: set<string> := {};
    while todo != {}
      invariant seen + todo == files.Keys && seen !! todo && Found(changes, files, disk, seen)
      decreases todo
    {
      var p :| p in todo;
      FindsOne(changes, files, disk, seen, p);
      if p !in disk {
        changes := changes + [Change(p, Create, "", files[p])];
      } else if !SeedOnly(p) && disk[p] != files[p] {
        changes := changes + [Change(p, Update, disk[p], files[p])];
      }
      todo, seen := todo - {p}, seen + {p};
    }
    todo := disk.Keys - files.Keys;
    while todo != {}
      invariant seen + todo == files.Keys + disk.Keys && seen !! todo && todo <= disk.Keys - files.Keys
      invariant Found(changes, files, disk, seen)
      decreases todo
    {
      var p :| p in todo;
      FindsOne(changes, files, disk, seen, p);
      if Stale(p, disk[p]) {
        changes := changes + [Change(p, Remove, disk[p], "")];
      }
      todo, seen := todo - {p}, seen + {p};
    }
    SortedIsPlan(changes, files, disk);
    changes := Sorted(changes, ByPath);
  }

  // ── What installing gives ─────────────────────────────────────────────────

  function ApplyOne(disk: Files, c: Change): Files {
    if c.action.Remove? then disk - {c.path} else disk[c.path := c.after]
  }

  function Applied(disk: Files, changes: seq<Change>): Files {
    if changes == [] then disk
    else ApplyOne(Applied(disk, changes[..|changes| - 1]), changes[|changes| - 1])
  }

  function Effect(c: Change): Option<string> {
    if c.action.Remove? then None else Some(c.after)
  }

  lemma {:induction false} AppliedMiss(disk: Files, changes: seq<Change>, p: string)
    requires forall c <- changes :: c.path != p
    ensures Get(Applied(disk, changes), p) == Get(disk, p)
  {
    if changes != [] {
      var n := |changes| - 1;
      AppliedMiss(disk, changes[..n], p);
      assert changes[n] in changes;
    }
  }

  lemma {:induction false} AppliedHit(disk: Files, changes: seq<Change>, i: nat)
    requires DistinctPaths(changes) && i < |changes|
    ensures Get(Applied(disk, changes), changes[i].path) == Effect(changes[i])
  {
    var n := |changes| - 1;
    if i < n {
      AppliedHit(disk, changes[..n], i);
      assert changes[..n][i] == changes[i];
    }
  }

  /** What is on disk once the rendering is in place: the rendered files, but for challenge zones
      already there; of the rest, all but the stale zones. */
  function After(files: Files, disk: Files): Files {
    map p | p in files.Keys + disk.Keys && (p in files || !Stale(p, disk[p])) ::
      if p in files && !(p in disk && SeedOnly(p)) then files[p] else disk[p]
  }

  /** The disk is what the rendering says. */
  predicate Serves(files: Files, disk: Files) {
    && (forall p <- files :: p in disk && (SeedOnly(p) || disk[p] == files[p]))
    && (forall p <- disk :: p in files || !Stale(p, disk[p]))
  }

  lemma OrderedDistinct(changes: seq<Change>)
    requires Ordered(changes, ByPath)
    ensures DistinctPaths(changes)
  {
    forall i, j | 0 <= i < j < |changes|
      ensures changes[i].path != changes[j].path
    {
      assert ByPath(changes[i], changes[j]);
      LessIrreflexive(changes[i].path);
    }
  }

  lemma PlannedAt(changes: seq<Change>, files: Files, disk: Files, p: string)
    requires IsPlan(changes, files, disk)
    ensures Get(Applied(disk, changes), p) ==
              match ChangeAt(files, disk, p) case Some(c) => Effect(c) case None => Get(disk, p)
  {
    OrderedDistinct(changes);
    var at := ChangeAt(files, disk, p);
    if at.Some? {
      assert at.value in changes;
      var i :| 0 <= i < |changes| && changes[i] == at.value;
      AppliedHit(disk, changes, i);
    } else {
      AppliedMiss(disk, changes, p);
    }
  }

  lemma SameFiles(a: Files, b: Files)
    requires forall p :: Get(a, p) == Get(b, p)
    ensures a == b
  {
    forall p
      ensures p in a <==> p in b
      ensures p in a ==> a[p] == b[p]
    {
      assert Get(a, p) == Get(b, p);
    }
    assert a.Keys == b.Keys;
  }

  /** Installing a plan puts the rendering in place and touches nothing else. */
  lemma PlanGivesAfter(changes: seq<Change>, files: Files, disk: Files)
    requires IsPlan(changes, files, disk)
    ensures Applied(disk, changes) == After(files, disk)
  {
    forall p
      ensures Get(Applied(disk, changes), p) == Get(After(files, disk), p)
    {
      PlannedAt(changes, files, disk, p);
    }
    SameFiles(Applied(disk, changes), After(files, disk));
  }

  /** A zone a rendering no longer has, told from the disk: a file of the zones' folder that says it was
      generated. */
  ghost predicate IsLeftover(files: Files, disk: Files, p: string) {
    && p in disk && p !in files
    && (exists zone: string :: zone != "" && '/' !in zone && p == "coredns/zones/" + zone)
    && exists i: nat :: StandsAt(disk[p], "generated, do not edit", i)
  }

  ghost predicate IsChallenge(p: string) {
    exists zone: string :: p == "coredns/zones/_acme-challenge." + zone
  }

  lemma ZonePathIs(p: string, dir: string)
    requires dir == ZONES_DIR
    ensures IsZonePath(p) <==> exists zone: string :: zone != "" && '/' !in zone && p == dir + zone
  {
    if IsZonePath(p) { assert p == dir + p[|dir|..]; }
    if zone: string :| zone != "" && '/' !in zone && p == dir + zone { assert p[|dir|..] == zone && p[..|dir|] == dir; }
  }

  lemma SeedOnlyIs(p: string, prefix: string)
    requires prefix == CHALLENGE_PREFIX
    ensures SeedOnly(p) <==> exists zone: string :: p == prefix + zone
  {
    if SeedOnly(p) { assert p == prefix + p[|prefix|..]; }
    if zone: string :| p == prefix + zone { assert p[..|prefix|] == prefix; }
  }

  /** What an install does to each file, told from what is on disk: a zone that is left over goes; a challenge
      zone that is there stays as it is, rendered or not unless it is left over; whatever else is rendered
      is written; and every other file stays as it is. */
  lemma InstallDoes(changes: seq<Change>, files: Files, disk: Files, p: string)
    requires IsPlan(changes, files, disk)
    ensures Get(Applied(disk, changes), p)
            == if IsLeftover(files, disk, p) then None
               else if p in files && !(p in disk && IsChallenge(p)) then Some(files[p])
               else Get(disk, p)
  {
    PlanGivesAfter(changes, files, disk);
    ZonePathIs(p, ZONES_DIR);
    SeedOnlyIs(p, CHALLENGE_PREFIX);
    if p in disk { ContainsIff(disk[p], MARKER); }
    assert CHALLENGE_PREFIX == "coredns/zones/_acme-challenge.";
  }

  lemma AfterServes(files: Files, disk: Files)
    ensures Serves(files, After(files, disk))
  {
  }

  /** Nothing is planned exactly when the disk is what the rendering says, and then installing would
      change nothing. */
  lemma NothingPlannedIff(changes: seq<Change>, files: Files, disk: Files)
    requires IsPlan(changes, files, disk)
    ensures changes == [] <==> Serves(files, disk)
    ensures Serves(files, disk) <==> After(files, disk) == disk
  {
    AfterServes(files, disk);
    if changes == [] {
      PlanGivesAfter(changes, files, disk);
    } else {
      assert changes[0] in changes;
      assert ChangeAt(files, disk, changes[0].path).Some?;
    }
    if Serves(files, disk) {
      assert After(files, disk) == disk;
    }
  }

  // ── Taking it back ────────────────────────────────────────────────────────

  /** What the changes replace, under the paths it stood at. */
  function Saved(changes: seq<Change>): Files {
    if changes == [] then map[]
    else
      var (rest, c) := (Saved(changes[..|changes| - 1]), changes[|changes| - 1]);
      if c.action.Create? then rest else rest[c.path := c.before]
  }

  function CreatedIn(changes: seq<Change>): seq<string> {
    if changes == [] then []
    else
      var (rest, c) := (CreatedIn(changes[..|changes| - 1]), changes[|changes| - 1]);
      if c.action.Create? then rest + [c.path] else rest
  }

  function ManifestOf(created: seq<string>): string {
    Join(created, '\n') + ['\n']
  }

  /** The backup folder: what was replaced, and the list of what was created, if anything was. */
  function BackupOf(changes: seq<Change>): Files {
    if CreatedIn(changes) == [] then Saved(changes)
    else Saved(changes)[MANIFEST := ManifestOf(CreatedIn(changes))]
  }

  function NonBlank(names: seq<string>): set<string> {
    set p <- names | p != ""
  }

  lemma NonBlankSnoc(names: seq<string>, i: nat)
    requires i < |names|
    ensures NonBlank(names[..i + 1]) == NonBlank(names[..i]) + if names[i] == "" then {} else {names[i]}
  {
    assert names[..i + 1] == names[..i] + [names[i]];
  }

  /** The lines of a manifest. */
  function LinesOf(manifest: Option<string>): seq<string> {
    if manifest.Some? then Split(TrimSpace(manifest.value), '\n') else []
  }

  /** `Restore`'s result: what the manifest lists is gone, and what was saved is back. Blank lines
      are passed over. */
  function Restored(disk: Files, backup: Files): Files {
    Undone(disk, NonBlank(LinesOf(Get(backup, MANIFEST))), backup - {MANIFEST})
  }

  function Undone(disk: Files, gone: set<string>, saved: Files): Files {
    (disk - gone) + saved
  }

  /** A path a manifest can carry. Everything rendered has one. */
  predicate PlainPath(p: string) {
    '/' in p && forall c <- p :: c !in SPACE
  }

  lemma TrimsToItself(s: string, nl: char, cut: set<char>)
    requires s != "" && s[0] !in cut && s[|s| - 1] !in cut && nl in cut
    ensures Trim(s + [nl], cut) == s
  {
    var t := s + [nl];
    assert t[0] == s[0];
    assert TrimLeft(t, cut) == t;
    var r := TrimRight(t, cut);
    TrimRightIs(t, cut);
    assert t[|s| - 1] == s[|s| - 1];
    assert |r| == |s|;
  }

  lemma ConcatEnds(a: string, sep: char, b: string)
    requires a != "" && b != ""
    ensures var s := a + [sep] + b;
            s != "" && s[0] == a[0] && s[|s| - 1] == b[|b| - 1]
  {
  }

  lemma {:induction false} JoinEnds(parts: seq<string>, sep: char)
    requires parts != [] && forall i :: 0 <= i < |parts| ==> parts[i] != ""
    ensures Join(parts, sep) != "" && Join(parts, sep)[0] == parts[0][0]
    ensures var last := parts[|parts| - 1];
            Join(parts, sep)[|Join(parts, sep)| - 1] == last[|last| - 1]
  {
    if |parts| > 1 {
      JoinEnds(parts[1..], sep);
      ConcatEnds(parts[0], sep, Join(parts[1..], sep));
      assert parts[1..][|parts| - 2] == parts[|parts| - 1];
    }
  }

  lemma JoinedLinesRead(lines: seq<string>, nl: char, cut: set<char>)
    requires nl in cut && lines != []
    requires forall i :: 0 <= i < |lines| ==> lines[i] != "" && forall c <- lines[i] :: c !in cut
    ensures Split(Trim(Join(lines, nl) + [nl], cut), nl) == lines
  {
    var first, last := lines[0], lines[|lines| - 1];
    JoinEnds(lines, nl);
    assert first[0] in first && last[|last| - 1] in last;
    TrimsToItself(Join(lines, nl), nl, cut);
    SplitJoin(lines, nl);
  }

  /** A manifest lists exactly what was created. */
  lemma ManifestListsCreated(created: seq<string>)
    requires created != [] && forall p <- created :: PlainPath(p)
    ensures LinesOf(Some(ManifestOf(created))) == created
  {
    forall i | 0 <= i < |created|
      ensures created[i] != "" && forall c <- created[i] :: c !in SPACE
    {
      assert created[i] in created;
    }
    JoinedLinesRead(created, '\n', SPACE);
  }

  lemma {:induction false} CreatedInIs(changes: seq<Change>, p: string)
    ensures p in CreatedIn(changes) <==> exists c <- changes :: c.action.Create? && c.path == p
  {
    if changes != [] {
      var n := |changes| - 1;
      CreatedInIs(changes[..n], p);
      assert changes == changes[..n] + [changes[n]];
    }
  }

  lemma {:induction false} SavedMiss(changes: seq<Change>, p: string)
    requires forall c <- changes :: c.path == p ==> c.action.Create?
    ensures p !in Saved(changes)
  {
    if changes != [] {
      SavedMiss(changes[..|changes| - 1], p);
      assert changes[|changes| - 1] in changes;
    }
  }

  lemma {:induction false} SavedHit(changes: seq<Change>, i: nat)
    requires DistinctPaths(changes) && i < |changes| && !changes[i].action.Create?
    ensures Get(Saved(changes), changes[i].path) == Some(changes[i].before)
  {
    var n := |changes| - 1;
    if i < n {
      SavedHit(changes[..n], i);
      assert changes[..n][i] == changes[i];
    }
  }

  /** Every change sits at a path the backup can carry. */
  predicate PathsFit(changes: seq<Change>) {
    forall c <- changes :: if c.action.Create? then PlainPath(c.path) else c.path != MANIFEST
  }

  lemma ManifestNotPath(changes: seq<Change>)
    requires PathsFit(changes)
    ensures forall c <- changes :: c.path != MANIFEST
  {
    assert '/' !in MANIFEST;
  }

  lemma BackupParts(changes: seq<Change>)
    requires PathsFit(changes)
    ensures BackupOf(changes) - {MANIFEST} == Saved(changes)
    ensures Get(BackupOf(changes), MANIFEST)
            == if CreatedIn(changes) == [] then None else Some(ManifestOf(CreatedIn(changes)))
  {
    ManifestNotPath(changes);
    SavedMiss(changes, MANIFEST);
  }

  lemma ListedIs(changes: seq<Change>)
    requires PathsFit(changes)
    ensures LinesOf(Get(BackupOf(changes), MANIFEST)) == CreatedIn(changes)
  {
    BackupParts(changes);
    forall p | p in CreatedIn(changes)
      ensures PlainPath(p)
    {
      CreatedInIs(changes, p);
    }
    if CreatedIn(changes) != [] { ManifestListsCreated(CreatedIn(changes)); }
  }

  lemma UndoneAt(disk: Files, gone: set<string>, saved: Files, p: string)
    ensures Get(Undone(disk, gone, saved), p)
            == if p in saved then Some(saved[p]) else if p in gone then None else Get(disk, p)
  {
  }

  lemma RestoredAt(disk: Files, changes: seq<Change>, p: string)
    requires PathsFit(changes)
    ensures Get(Restored(disk, BackupOf(changes)), p) ==
              if p in Saved(changes) then Some(Saved(changes)[p])
              else if p != "" && p in CreatedIn(changes) then None
              else Get(disk, p)
  {
    BackupParts(changes);
    ListedIs(changes);
    UndoneAt(disk, NonBlank(CreatedIn(changes)), Saved(changes), p);
  }

  lemma CreatedNotBlank(changes: seq<Change>)
    requires PathsFit(changes)
    ensures "" !in CreatedIn(changes)
  {
    CreatedInIs(changes, "");
  }

  /** Restoring undoes an install, wherever the install stopped: the files are exactly what they were,
      those created gone again, those removed back. */
  lemma RestoreUndoes(changes: seq<Change>, files: Files, disk: Files, k: nat)
    requires IsPlan(changes, files, disk) && PathsFit(changes) && k <= |changes|
    ensures Restored(Applied(disk, changes[..k]), BackupOf(changes)) == disk
  {
    OrderedDistinct(changes);
    var part := Applied(disk, changes[..k]);
    forall p
      ensures Get(Restored(part, BackupOf(changes)), p) == Get(disk, p)
    {
      RestoredAt(part, changes, p);
      CreatedNotBlank(changes);
      CreatedInIs(changes, p);
      PlannedPath(changes, files, disk, p);
      if ChangeAt(files, disk, p).None? {
        AppliedMiss(disk, changes[..k], p);
      }
    }
    SameFiles(Restored(part, BackupOf(changes)), disk);
  }

  /** What the backup holds of a path. */
  lemma PlannedPath(changes: seq<Change>, files: Files, disk: Files, p: string)
    requires IsPlan(changes, files, disk)
    ensures match ChangeAt(files, disk, p)
            case None => p !in Saved(changes) && forall c <- changes :: c.path != p
            case Some(c) =>
              if p in disk then Get(Saved(changes), p) == Some(disk[p])
              else p !in Saved(changes) && c.action.Create? && c in changes && c.path == p
  {
    OrderedDistinct(changes);
    var at := ChangeAt(files, disk, p);
    if at.Some? && p in disk {
      assert at.value in changes;
      var i :| 0 <= i < |changes| && changes[i] == at.value;
      SavedHit(changes, i);
    } else {
      SavedMiss(changes, p);
    }
  }

  /** How many operations succeed before one fails, if one fails. */
  type Fault = Option<nat>

  /** The same, one operation later. */
  function Later(f: Fault): Fault {
    if f.Some? && f.value > 0 then Some(f.value - 1) else f
  }

  // ── Doing it ──────────────────────────────────────────────────────────────

  class InstallDir {
    var disk: Files
    var backup: Option<Files>

    constructor (found: Files)
      ensures disk == found && backup == None
    {
      disk, backup := found, None;
    }

    /** The first half of `Install`: saves what the changes replace, and lists what they create. */
    method Save(changes: seq<Change>, fault: Fault) returns (ok: bool, left: Fault)
      modifies this`backup
      ensures ok ==> backup == Some(BackupOf(changes))
      ensures fault.None? ==> ok && left.None?
    {
      left := fault;
      if left == Some(0) {
        return false, left;
      }
      backup, left := None, Later(left);
      if left == Some(0) {
        return false, left;
      }
      left := Later(left);
      var saved: Files, created := map[], [];
      backup := Some(saved);
      for i := 0 to |changes|
        invariant saved == Saved(changes[..i]) && created == CreatedIn(changes[..i]) && backup == Some(saved)
        invariant fault.None? ==> left.None?
      {
        assert changes[..i + 1][..i] == changes[..i];
        var c := changes[i];
        if c.action.Create? {
          created := created + [c.path];
        } else {
          if left == Some(0) {
            return false, left;
          }
          left := Later(left);
          saved := saved[c.path := c.before];
          backup := Some(saved);
        }
      }
      assert changes[..|changes|] == changes;
      if created != [] {
        if left == Some(0) {
          return false, left;
        }
        left := Later(left);
        backup := Some(saved[MANIFEST := ManifestOf(created)]);
      }
      return true, left;
    }

    /** `Install`. */
    method Install(changes: seq<Change>, fault: Fault) returns (ok: bool)
      modifies this
      ensures ok ==> disk == Applied(old(disk), changes) && backup == Some(BackupOf(changes))
      ensures !ok ==> exists k :: 0 <= k <= |changes| && disk == Applied(old(disk), changes[..k])
                                  && (k > 0 ==> backup == Some(BackupOf(changes)))
      ensures fault.None? ==> ok
    {
      var left;
      ok, left := Save(changes, fault);
      assert changes[..0] == [];
      if !ok {
        return;
      }
      for i := 0 to |changes|
        invariant disk == Applied(old(disk), changes[..i]) && backup == Some(BackupOf(changes))
        invariant fault.None? ==> left.None?
      {
        if left == Some(0) {
          return false;
        }
        assert changes[..i + 1][..i] == changes[..i];
        left := Later(left);
        var c := changes[i];
        if c.action == Remove {
          disk := disk - {c.path};
        } else {
          disk := disk[c.path := c.after];
        }
      }
      assert changes[..|changes|] == changes;
    }

    /** The first half of `Restore`: removes what the manifest lists. */
    method RemoveCreated(names: seq<string>, fault: Fault) returns (ok: bool, left: Fault)
      modifies this`disk
      ensures ok ==> disk == old(disk) - NonBlank(names)
      ensures fault.None? ==> ok && left.None?
    {
      left := fault;
      for i := 0 to |names|
        invariant disk == old(disk) - NonBlank(names[..i])
        invariant fault.None? ==> left.None?
      {
        NonBlankSnoc(names, i);
        if names[i] != "" {
          if left == Some(0) {
            return false, left;
          }
          left := Later(left);
          disk := disk - {names[i]};
        }
      }
      assert names[..|names|] == names;
      return true, left;
    }

    /** The second half of `Restore`: writes back what was saved. */
    method WriteBack(saved: Files, fault: Fault) returns (ok: bool)
      modifies this`disk
      ensures ok ==> disk == old(disk) + (saved - {MANIFEST})
      ensures fault.None? ==> ok
    {
      var left, todo := fault, saved.Keys - {MANIFEST};
      ghost var done: Files := map[];
      while todo != {}
        invariant todo <= saved.Keys - {MANIFEST} && done == saved - {MANIFEST} - todo && disk == old(disk) + done
        invariant fault.None? ==> left.None?
        decreases todo
      {
        var p :| p in todo;
        if left == Some(0) {
          return false;
        }
        left := Later(left);
        disk := disk[p := saved[p]];
        done := done[p := saved[p]];
        todo := todo - {p};
      }
      assert done == saved - {MANIFEST};
      return true;
    }

    /** `Restore`. */
    method Restore(fault: Fault) returns (ok: bool)
      modifies this`disk
      ensures ok ==> backup.Some? && disk == Restored(old(disk), backup.value)
      ensures backup.None? ==> disk == old(disk)
      ensures fault.None? && backup.Some? ==> ok
    {
      if backup.None? {
        return false;
      }
      var saved, left := backup.value, fault;
      ok, left := RemoveCreated(LinesOf(Get(saved, MANIFEST)), fault);
      if !ok {
        return;
      }
      ok := WriteBack(saved, left);
    }
  }
}
