/** Requests the API leaves for the host agent: their shape, their file names, and how the agent
    reads one. */
module Requests {
  import opened Prelude

  datatype Request = Request(id: string, kind: string, requestedBy: string, args: map<string, string>)

  const REQUEST_TYPES := [
    "migrate.detect", "migrate.plan", "migrate.credential",
    "migrate.prepare", "migrate.move", "migrate.cutover", "migrate.rollback",
    "migrate.finish", "domain.apply", "registry.gc"]

  /** Files of the inbox that are not requests: the migration's token, the domain set to serve and
      the DNS providers' tokens. */
  const CREDENTIAL_FILE := "migration-token.json"
  const EDGE_DESIRED_FILE := "edge.json"
  const DNS_CREDENTIALS_FILE := "dns-credentials.json"

  predicate Reserved(name: string) {
    (name != "" && name[0] == '.') || name == CREDENTIAL_FILE || name == EDGE_DESIRED_FILE || name == DNS_CREDENTIALS_FILE
  }

  predicate IsLower(c: char) {
    'a' <= c <= 'z'
  }

  predicate IsUpper(c: char) {
    'A' <= c <= 'Z'
  }

  predicate IsDigit(c: char) {
    '0' <= c <= '9'
  }

  predicate IsHex(c: char) {
    IsDigit(c) || 'a' <= c <= 'f'
  }

  function LowerChar(c: char): char {
    if IsUpper(c) then c + 32 as char else c
  }

  /** `strings.ToLower`, of ASCII. */
  function Lower(s: string): string {
    seq(|s|, i requires 0 <= i < |s| => LowerChar(s[i]))
  }

  /** 8-4-4-4-12 lower-case hexadecimal digits. */
  predicate IsUuid(s: string) {
    |s| == 36 && forall i :: 0 <= i < 36 ==> if i == 8 || i == 13 || i == 18 || i == 23 then s[i] == '-' else IsHex(s[i])
  }

  /** Two runs of lower-case letters joined by a dot. */
  predicate IsTypeName(s: string) {
    exists dot :: 0 < dot < |s| - 1 && s[dot] == '.' && forall i :: 0 <= i < |s| && i != dot ==> IsLower(s[i])
  }

  predicate IsArgName(s: string) {
    1 <= |s| <= 32 && IsLower(s[0]) && forall c <- s :: IsLower(c) || IsDigit(c) || c == '_'
  }

  /** `RequestFileName`. */
  function FileName(r: Request): string {
    r.kind + "-" + r.id + ".json"
  }

  /** The pattern a request's file name matches: a type name, a dash, 36 hexadecimal digits or
      dashes, and ".json". */
  predicate IsRequestName(name: string) {
    |name| >= 42
    && IsTypeName(name[..|name| - 42]) && name[|name| - 42] == '-'
    && (forall c <- name[|name| - 41..|name| - 5] :: IsHex(c) || c == '-')
    && name[|name| - 5..] == ".json"
  }

  predicate ValidArgs(args: map<string, string>) {
    forall k <- args :: IsArgName(k) && |args[k]| <= 200
  }

  /** A request the agent runs; `name` is its file's name, or empty when it has none. */
  predicate ValidRequest(r: Request, name: string) {
    r.kind in REQUEST_TYPES && IsUuid(r.id) && (name == "" || name == FileName(r))
    && |r.requestedBy| <= 128 && |r.args| <= 8 && ValidArgs(r.args)
  }

  datatype Problem = UnknownType | NotAUuid | NameMismatch | RequestedByTooLong | TooManyArguments | BadArgument(key: string)

  /** The first check a request fails. */
  predicate ProblemIs(r: Request, name: string, p: Problem) {
    if r.kind !in REQUEST_TYPES then p.UnknownType?
    else if !IsUuid(r.id) then p.NotAUuid?
    else if name != "" && name != FileName(r) then p.NameMismatch?
    else if |r.requestedBy| > 128 then p.RequestedByTooLong?
    else if |r.args| > 8 then p.TooManyArguments?
    else p.BadArgument? && p.key in r.args && !(IsArgName(p.key) && |r.args[p.key]| <= 200)
  }

  /** `ValidateRequest`. */
  method ValidateRequest(r: Request, name: string) returns (p: Option<Problem>)
    ensures p.None? <==> ValidRequest(r, name)
    ensures p.Some? ==> ProblemIs(r, name, p.value)
  {
    var known := false;
    for i := 0 to |REQUEST_TYPES|
      invariant known <==> r.kind in REQUEST_TYPES[..i]
    {
      known := known || r.kind == REQUEST_TYPES[i];
      assert REQUEST_TYPES[..i + 1] == REQUEST_TYPES[..i] + [REQUEST_TYPES[i]];
    }
    assert REQUEST_TYPES[..|REQUEST_TYPES|] == REQUEST_TYPES;
    if !known {
      return Some(UnknownType);
    } else if !IsUuid(r.id) {
      return Some(NotAUuid);
    } else if name != "" && name != FileName(r) {
      return Some(NameMismatch);
    } else if |r.requestedBy| > 128 {
      return Some(RequestedByTooLong);
    } else if |r.args| > 8 {
      return Some(TooManyArguments);
    }
    var todo := r.args.Keys;
    while todo != {}
      invariant todo <= r.args.Keys
      invariant forall k <- r.args :: k in todo || (IsArgName(k) && |r.args[k]| <= 200)
      decreases todo
    {
      var k :| k in todo;
      if !IsArgName(k) || |r.args[k]| > 200 {
        return Some(BadArgument(k));
      }
      todo := todo - {k};
    }
    return None;
  }

  /** What stands under a name in the inbox. `Text` is a regular file within the size limit that
      holds one JSON object of a request's fields. */
  datatype Content = NotRegular | TooLarge | NotJson | Text(request: Request)

  /** `ReadRequestFile`. */
  function ReadRequest(name: string, content: Content): Option<Request> {
    if IsRequestName(name) && content.Text? && ValidRequest(content.request, name) then Some(content.request) else None
  }

  /** A file name says which request it is: no two pairs of type and id share one. */
  lemma FileNameInjective(a: Request, b: Request)
    requires IsUuid(a.id) && IsUuid(b.id) && FileName(a) == FileName(b)
    ensures a.kind == b.kind && a.id == b.id
  {
    var n := FileName(a);
    assert a.kind == n[..|n| - 42] == b.kind;
    assert a.id == n[|n| - 41..|n| - 5] == b.id;
  }

  /** Without the id's fixed length it would not be so. */
  lemma FileNameNeedsTheIdLength()
    ensures var a, b := Request("b-c", "a", "", map[]), Request("c", "a-b", "", map[]);
            a.kind != b.kind && FileName(a) == FileName(b)
  {
    assert "a" + "-" + "b-c" == "a-b" + "-" + "c";
  }

  predicate Letters(s: string) {
    s != "" && forall c <- s :: IsLower(c)
  }

  lemma TwoWords(kind: string, a: string, b: string)
    requires kind == a + ['.'] + b && Letters(a) && Letters(b)
    ensures IsTypeName(kind)
  {
    assert kind[|a|] == '.';
    forall i | 0 <= i < |kind| && i != |a|
      ensures IsLower(kind[i])
    {
      if i < |a| { assert kind[i] in a; } else { assert kind[i] == b[i - |a| - 1]; }
    }
  }

  lemma KnownTypesAreTypeNames(kind: string)
    requires kind in REQUEST_TYPES
    ensures IsTypeName(kind)
  {
    if kind == "domain.apply" {
      TwoWords(kind, "domain", "apply");
    } else if kind == "registry.gc" {
      TwoWords(kind, "registry", "gc");
    } else {
      MigrateTypes(kind);
      TwoWords(kind, "migrate", kind[8..]);
    }
  }

  const STAGES := ["detect", "plan", "credential", "prepare", "move", "cutover", "rollback", "finish"]

  lemma MigrateTypes(kind: string)
    requires kind in REQUEST_TYPES && kind != "domain.apply" && kind != "registry.gc"
    ensures |kind| > 8 && kind == "migrate" + ['.'] + kind[8..] && Letters(kind[8..])
  {
    assert kind[8..] in STAGES;
    StagesAreWords(kind[8..]);
  }

  lemma StagesAreWords(stage: string)
    requires stage in STAGES
    ensures Letters(stage)
  {
    var i :| 0 <= i < |STAGES| && stage == STAGES[i];
    forall c | c in stage
      ensures IsLower(c)
    {
    }
  }

  /** The file a valid request is left in is always read as one: its name matches the pattern, and
      is none of the names the sweep leaves alone. */
  lemma ValidRequestIsRead(r: Request)
    requires ValidRequest(r, "")
    ensures ReadRequest(FileName(r), Text(r)) == Some(r) && !Reserved(FileName(r)) && FileName(r) != ""
  {
    var n := FileName(r);
    KnownTypesAreTypeNames(r.kind);
    assert n[..|n| - 42] == r.kind;
    assert n[|n| - 41..|n| - 5] == r.id;
    assert n[|n| - 5..] == ".json";
    assert n[0] == r.kind[0];
    assert |n| > 42;
  }
}
