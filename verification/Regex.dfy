/** The regular expressions an ignore line compiles to: their syntax, read from the text the
    compiler writes, and what they match.

    The syntax is the part of RE2's that needs no flags: literals, `\` before a punctuation
    character, `.`, `[^c]`, `^`, `$`, `(…)`, `|`, and one `*` or `?` after an atom. Anything
    else is refused. `.` matches any character but a newline; `[^c]` matches a newline too. */
module Regex {
  import opened Prelude

  datatype Re =
    | Empty
    | Chr(c: char)
    | Dot
    | NoneOf(c: char)
    | Bol
    | Eol
    | Cat(left: Re, right: Re)
    | Alt(left: Re, right: Re)
    | Star(body: Re)
    | Opt(body: Re)

  // ── Matching ──────────────────────────────────────────────────────────────

  /** `re` matches exactly `s[i..j]`, seen as a part of the whole text `s`. */
  predicate Matches(re: Re, s: string, i: nat, j: nat)
    requires i <= j <= |s|
    decreases re, j - i
  {
    match re
    case Empty => i == j
    case Chr(c) => j == i + 1 && s[i] == c
    case Dot => j == i + 1 && s[i] != '\n'
    case NoneOf(c) => j == i + 1 && s[i] != c
    case Bol => i == j == 0
    case Eol => i == j == |s|
    case Cat(a, b) => exists k :: i <= k <= j && Matches(a, s, i, k) && Matches(b, s, k, j)
    case Alt(a, b) => Matches(a, s, i, j) || Matches(b, s, i, j)
    case Star(a) => i == j || exists k :: i < k <= j && Matches(a, s, i, k) && Matches(re, s, k, j)
    case Opt(a) => i == j || Matches(a, s, i, j)
  }

  /** `MatchString`: an unanchored search. */
  predicate Search(re: Re, s: string) {
    exists i, j :: 0 <= i <= j <= |s| && Matches(re, s, i, j)
  }

  // ── Reading the syntax ────────────────────────────────────────────────────

  datatype Parsed = Bad | Got(re: Re, rest: string)

  predicate IsRepeat(c: char) {
    c in "*?+{"
  }

  function ParseAlt(s: string): (p: Parsed)
    ensures p.Got? ==> |p.rest| <= |s|
    decreases |s|, 3
  {
    match ParseCat(s)
    case Bad => Bad
    case Got(a, rest) =>
      if rest == "" || rest[0] != '|' then Got(a, rest)
      else
        match ParseAlt(rest[1..])
        case Bad => Bad
        case Got(b, rest') => Got(Alt(a, b), rest')
  }

  function ParseCat(s: string): (p: Parsed)
    ensures p.Got? ==> |p.rest| <= |s|
    decreases |s|, 2
  {
    if s == "" || s[0] == '|' || s[0] == ')' then Got(Empty, s)
    else
      match ParseRepeat(s)
      case Bad => Bad
      case Got(a, rest) =>
        match ParseCat(rest)
        case Bad => Bad
        case Got(b, rest') => Got(Cat(a, b), rest')
  }

  function ParseRepeat(s: string): (p: Parsed)
    requires s != ""
    ensures p.Got? ==> |p.rest| < |s|
    decreases |s|, 1
  {
    match ParseAtom(s)
    case Bad => Bad
    case Got(a, rest) =>
      if rest == "" || !IsRepeat(rest[0]) then Got(a, rest)
      else if |rest| > 1 && IsRepeat(rest[1]) then Bad
      else if rest[0] == '*' then Got(Star(a), rest[1..])
      else if rest[0] == '?' then Got(Opt(a), rest[1..])
      else Bad
  }

  function ParseAtom(s: string): (p: Parsed)
    requires s != ""
    ensures p.Got? ==> |p.rest| < |s|
    decreases |s|, 0
  {
    if s[0] == '(' then
      match ParseAlt(s[1..])
      case Bad => Bad
      case Got(a, rest) => if rest != "" && rest[0] == ')' then Got(a, rest[1..]) else Bad
    else if s[0] == '.' then Got(Dot, s[1..])
    else if s[0] == '^' then Got(Bol, s[1..])
    else if s[0] == '$' then Got(Eol, s[1..])
    else if s[0] == '[' then
      if |s| >= 4 && s[1] == '^' && s[2] !in "]\\-[^" && s[3] == ']' then Got(NoneOf(s[2]), s[4..]) else Bad
    else if s[0] == '\\' then
      if |s| >= 2 && IsPunctuation(s[1]) then Got(Chr(s[1]), s[2..]) else Bad
    else if IsRepeat(s[0]) || s[0] == ')' || s[0] == '|' then Bad
    else Got(Chr(s[0]), s[1..])
  }

  /** The ASCII characters that are neither letters, digits, blanks nor controls. */
  predicate IsPunctuation(c: char) {
    '!' <= c <= '/' || ':' <= c <= '@' || '[' <= c <= '`' || '{' <= c <= '~'
  }

  /** `regexp.Compile`. */
  function Compile(s: string): Option<Re> {
    match ParseAlt(s)
    case Got(re, "") => Some(re)
    case _ => None
  }

  /** `regexp.QuoteMeta` of one character. */
  function Quote(c: char): string {
    if c in "\\.+*?()|[]{}^$" then ['\\', c] else [c]
  }
}
