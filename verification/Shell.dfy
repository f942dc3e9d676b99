/** Quoting for a remote shell: what the quoting means to a shell that reads the command line by
    sections 2.2.2 and 2.2.3 of the POSIX.1-2017 Shell Command Language. */
module Shell {
  import opened Prelude
  import opened Text

  // ── How a shell reads words ───────────────────────────────────────────────

  datatype Mode = Plain | Single | Double

  /** The words read so far and the one being read. */
  datatype Reading = Reading(mode: Mode, words: seq<string>, word: Option<string>)

  predicate IsBlank(c: char) {
    c == ' ' || c == '\t'
  }

  /** Characters that stand for themselves outside quotes. All others may mean something to a shell. */
  predicate IsOrdinary(c: char) {
    'a' <= c <= 'z' || 'A' <= c <= 'Z' || '0' <= c <= '9' || c == '_' || c == '=' || c == '-' || c == '.' || c == '/'
  }

  function Put(r: Reading, c: char): Reading {
    r.(word := Some((if r.word.Some? then r.word.value else "") + [c]))
  }

  /** Begins a word, if none is begun: quotes do even when they hold nothing. */
  function Begun(r: Reading): Reading {
    r.(word := Some(if r.word.Some? then r.word.value else ""))
  }

  /** Ends the word being read, if there is one. */
  function Ended(r: Reading): Reading {
    r.(words := if r.word.Some? then r.words + [r.word.value] else r.words, word := None)
  }

  /** One character. None is one that no command line can hold, or that may mean something else than
      a character of a word. */
  function Read(r: Reading, c: char): Option<Reading> {
    if c == '\0' then None
    else
      match r.mode
      case Plain =>
        if c == '\'' then Some(Begun(r).(mode := Single))
        else if c == '"' then Some(Begun(r).(mode := Double))
        else if IsBlank(c) then Some(Ended(r))
        else if IsOrdinary(c) then Some(Put(r, c))
        else None
      case Single => if c == '\'' then Some(r.(mode := Plain)) else Some(Put(r, c))
      case Double =>
        if c == '"' then Some(r.(mode := Plain))
        else if c == '$' || c == '`' || c == '\\' then None
        else Some(Put(r, c))
  }

  function ReadAll(r: Reading, s: string): Option<Reading>
    decreases |s|
  {
    if s == "" then Some(r)
    else
      match Read(r, s[0])
      case None => None
      case Some(next) => ReadAll(next, s[1..])
  }

  /** The words of a command line. */
  function WordsOf(line: string): Option<seq<string>> {
    match ReadAll(Reading(Plain, [], None), line)
    case None => None
    case Some(r) => if r.mode == Plain then Some(Ended(r).words) else None
  }

  lemma {:induction false} ReadConcat(r: Reading, a: string, b: string)
    ensures ReadAll(r, a + b) == match ReadAll(r, a) case None => None case Some(next) => ReadAll(next, b)
    decreases |a|
  {
    if a == "" {
      assert a + b == b;
    } else {
      assert (a + b)[1..] == a[1..] + b;
      if Read(r, a[0]).Some? { ReadConcat(Read(r, a[0]).value, a[1..], b); }
    }
  }

  lemma ReadOne(r: Reading, c: char)
    ensures ReadAll(r, [c]) == Read(r, c)
  {
    assert [c][1..] == "";
  }

  // ── Quoting ───────────────────────────────────────────────────────────────

  /** What a single quote inside single quotes is written as: close, a quote in double quotes, open. */
  const QUOTE := ['\'', '"', '\'', '"', '\'']

  function Escaped(s: string): string {
    if s == "" then "" else (if s[0] == '\'' then QUOTE else [s[0]]) + Escaped(s[1..])
  }

  /** `shellQuote`. */
  function ShellQuote(s: string): string {
    ['\''] + Escaped(s) + ['\'']
  }

  predicate HasNul(s: string) {
    '\0' in s
  }

  lemma EscapedQuoteReads(words: seq<string>, w: string)
    ensures ReadAll(Reading(Single, words, Some(w)), QUOTE) == Some(Reading(Single, words, Some(w + ['\''])))
  {
    var r := Reading(Single, words, Some(w));
    assert QUOTE == ['\''] + (['"'] + (['\''] + (['"'] + ['\''])));
    ReadConcat(r, ['\''], ['"'] + (['\''] + (['"'] + ['\''])));
    ReadOne(r, '\'');
    var plain := r.(mode := Plain);
    ReadConcat(plain, ['"'], ['\''] + (['"'] + ['\'']));
    ReadOne(plain, '"');
    var double := r.(mode := Double);
    ReadConcat(double, ['\''], ['"'] + ['\'']);
    ReadOne(double, '\'');
    var more := Reading(Double, words, Some(w + ['\'']));
    ReadConcat(more, ['"'], ['\'']);
    ReadOne(more, '"');
    ReadOne(more.(mode := Plain), '\'');
  }

  lemma {:induction false} EscapedReads(words: seq<string>, w: string, s: string)
    ensures ReadAll(Reading(Single, words, Some(w)), Escaped(s))
            == if HasNul(s) then None else Some(Reading(Single, words, Some(w + s)))
    decreases |s|
  {
    if s == "" {
      assert w + s == w;
    } else {
      var r, c, rest := Reading(Single, words, Some(w)), s[0], Escaped(s[1..]);
      assert s == [c] + s[1..];
      if c == '\'' {
        EscapedQuoteReads(words, w);
        ReadConcat(r, QUOTE, rest);
      } else {
        ReadOne(r, c);
        ReadConcat(r, [c], rest);
      }
      EscapedReads(words, w + [c], s[1..]);
      assert w + [c] + s[1..] == w + s;
    }
  }

  /** A quoted string continues the word it stands in by exactly that string. */
  lemma QuotedReads(r: Reading, s: string)
    requires r.mode == Plain
    ensures ReadAll(r, ShellQuote(s))
            == if HasNul(s) then None else Some(r.(word := Some(Begun(r).word.value + s)))
  {
    var open := Begun(r).(mode := Single);
    assert ShellQuote(s) == ['\''] + (Escaped(s) + ['\'']);
    ReadOne(r, '\'');
    ReadConcat(r, ['\''], Escaped(s) + ['\'']);
    EscapedReads(r.words, open.word.value, s);
    ReadConcat(open, Escaped(s), ['\'']);
    if !HasNul(s) { ReadOne(open.(word := Some(open.word.value + s)), '\''); }
  }

  /** A shell reads a quoted string back as that string, one word, exactly when it can be passed at all:
      when it holds no NUL. */
  lemma QuoteReadsBack(s: string)
    ensures WordsOf(ShellQuote(s)) == if HasNul(s) then None else Some([s])
  {
    var r := Reading(Plain, [], None);
    QuotedReads(r, s);
    assert Begun(r).word.value + s == s;
    if !HasNul(s) { assert Ended(r.(word := Some(s))).words == [s]; }
  }

  // ── The remote command ────────────────────────────────────────────────────

  /** Environment variables, in whatever order the map gives them. */
  type Env = seq<(string, string)>

  predicate OrdinaryWord(s: string) {
    s != "" && forall i :: 0 <= i < |s| ==> IsOrdinary(s[i])
  }

  function Part(v: (string, string)): string {
    v.0 + ['='] + ShellQuote(v.1)
  }

  function Parts(vars: Env): seq<string> {
    seq(|vars|, i requires 0 <= i < |vars| => Part(vars[i]))
  }

  function Assignments(vars: Env): seq<string> {
    seq(|vars|, i requires 0 <= i < |vars| => vars[i].0 + ['='] + vars[i].1)
  }

  /** The loop that builds the variables for `env`. */
  method EnvParts(vars: Env) returns (parts: seq<string>)
    ensures parts == Parts(vars)
  {
    parts := [];
    for i := 0 to |vars|
      invariant parts == Parts(vars)[..i]
    {
      parts := parts + [Part(vars[i])];
    }
  }

  const BEFORE := "env"
  const AFTER := ["bash", "-s", "--", "--auto"]

  function RemoteCommand(vars: Env): string {
    BEFORE + [' '] + Join(Parts(vars), ' ') + Spaced(AFTER)
  }

  lemma {:induction false} OrdinaryReads(r: Reading, w: string)
    requires r.mode == Plain && forall i :: 0 <= i < |w| ==> IsOrdinary(w[i])
    ensures ReadAll(r, w) == Some(if w == "" then r else r.(word := Some(Begun(r).word.value + w)))
    decreases |w|
  {
    if w != "" {
      var before, next := Begun(r).word.value, Put(r, w[0]);
      assert IsOrdinary(w[0]) && Read(r, w[0]) == Some(next) && next.word == Some(before + [w[0]]);
      OrdinaryReads(next, w[1..]);
      if w[1..] == "" {
        assert w == [w[0]];
      } else {
        assert before + [w[0]] + w[1..] == before + w;
        assert ReadAll(next, w[1..]) == Some(next.(word := Some(before + w)));
      }
      assert ReadAll(r, w) == ReadAll(next, w[1..]);
    }
  }

  lemma BlankReads(r: Reading)
    requires r.mode == Plain
    ensures ReadAll(r, [' ']) == Some(Ended(r))
  {
    ReadOne(r, ' ');
  }

  /** One variable is read as one word. */
  lemma PartReads(words: seq<string>, v: (string, string))
    requires OrdinaryWord(v.0) && !HasNul(v.1)
    ensures ReadAll(Reading(Plain, words, None), Part(v)) == Some(Reading(Plain, words, Some(v.0 + ['='] + v.1)))
  {
    var r := Reading(Plain, words, None);
    var name := v.0 + ['='];
    OrdinaryReads(r, name);
    assert "" + name == name;
    ReadConcat(r, name, ShellQuote(v.1));
    QuotedReads(r.(word := Some(name)), v.1);
  }

  predicate GoodEnv(vars: Env) {
    forall i :: 0 <= i < |vars| ==> OrdinaryWord(vars[i].0) && !HasNul(vars[i].1)
  }

  /** The variables, one blank after another, are read as exactly their list. */
  lemma {:induction false} JoinedReads(words: seq<string>, vars: Env)
    requires vars != [] && GoodEnv(vars)
    ensures ReadAll(Reading(Plain, words, None), Join(Parts(vars), ' ')).Some?
    ensures var r := ReadAll(Reading(Plain, words, None), Join(Parts(vars), ' ')).value;
            r.mode == Plain && Ended(r) == Reading(Plain, words + Assignments(vars), None)
    decreases |vars|
  {
    var r, v := Reading(Plain, words, None), vars[0];
    var word := v.0 + ['='] + v.1;
    PartReads(words, v);
    assert Parts(vars)[0] == Part(v);
    if |vars| == 1 {
      assert Assignments(vars) == [word];
    } else {
      var rest := Join(Parts(vars[1..]), ' ');
      assert Parts(vars)[1..] == Parts(vars[1..]);
      assert Join(Parts(vars), ' ') == Part(v) + ([' '] + rest);
      ReadConcat(r, Part(v), [' '] + rest);
      ReadConcat(r.(word := Some(word)), [' '], rest);
      BlankReads(r.(word := Some(word)));
      JoinedReads(words + [word], vars[1..]);
      assert words + [word] + Assignments(vars[1..]) == words + Assignments(vars);
    }
  }

  lemma {:induction false} SpacedReads(r: Reading, ws: seq<string>)
    requires r.mode == Plain && forall i :: 0 <= i < |ws| ==> OrdinaryWord(ws[i])
    ensures ReadAll(r, Spaced(ws)).Some?
    ensures var after := ReadAll(r, Spaced(ws)).value;
            after.mode == Plain && Ended(after).words == Ended(r).words + ws
    decreases |ws|
  {
    if ws != [] {
      var e, w, rest := Ended(r), ws[0], Spaced(ws[1..]);
      assert Spaced(ws) == [' '] + (w + rest);
      ReadConcat(r, [' '], w + rest);
      BlankReads(r);
      ReadConcat(e, w, rest);
      OrdinaryReads(e, w);
      assert "" + w == w;
      SpacedReads(e.(word := Some(w)), ws[1..]);
      assert e.words + [w] + ws[1..] == e.words + ws;
    }
  }

  lemma WordReads(words: seq<string>, w: string, rest: string)
    requires OrdinaryWord(w)
    ensures ReadAll(Reading(Plain, words, None), w + ([' '] + rest)) == ReadAll(Reading(Plain, words + [w], None), rest)
  {
    var r := Reading(Plain, words, None);
    OrdinaryReads(r, w);
    assert "" + w == w;
    ReadConcat(r, w, [' '] + rest);
    ReadConcat(r.(word := Some(w)), [' '], rest);
    BlankReads(r.(word := Some(w)));
  }

  lemma VarsRead(words: seq<string>, vars: Env)
    requires GoodEnv(vars)
    ensures ReadAll(Reading(Plain, words, None), Join(Parts(vars), ' ')).Some?
    ensures var r := ReadAll(Reading(Plain, words, None), Join(Parts(vars), ' ')).value;
            r.mode == Plain && Ended(r).words == words + Assignments(vars)
  {
    if vars == [] {
      assert Join(Parts(vars), ' ') == "" && words + Assignments(vars) == words;
    } else {
      JoinedReads(words, vars);
    }
  }

  lemma RestReads(words: seq<string>, vars: Env, after: seq<string>)
    requires GoodEnv(vars) && forall i :: 0 <= i < |after| ==> OrdinaryWord(after[i])
    ensures ReadAll(Reading(Plain, words, None), Join(Parts(vars), ' ') + Spaced(after)).Some?
    ensures var r := ReadAll(Reading(Plain, words, None), Join(Parts(vars), ' ') + Spaced(after)).value;
            r.mode == Plain && Ended(r).words == words + Assignments(vars) + after
  {
    var r, middle := Reading(Plain, words, None), Join(Parts(vars), ' ');
    VarsRead(words, vars);
    ReadConcat(r, middle, Spaced(after));
    SpacedReads(ReadAll(r, middle).value, after);
  }

  lemma FirstWordReads(before: string, rest: string, words: seq<string>)
    requires OrdinaryWord(before)
    requires ReadAll(Reading(Plain, [before], None), rest).Some?
    requires var r := ReadAll(Reading(Plain, [before], None), rest).value;
             r.mode == Plain && Ended(r).words == words
    ensures WordsOf(before + ([' '] + rest)) == Some(words)
  {
    WordReads([], before, rest);
    assert [] + [before] == [before];
  }

  lemma Regrouped(a: string, b: string, c: string)
    ensures a + [' '] + b + c == a + ([' '] + (b + c))
  {
  }

  lemma CommandReads(before: string, vars: Env, after: seq<string>)
    requires OrdinaryWord(before) && GoodEnv(vars) && forall i :: 0 <= i < |after| ==> OrdinaryWord(after[i])
    ensures WordsOf(before + [' '] + Join(Parts(vars), ' ') + Spaced(after)) == Some([before] + Assignments(vars) + after)
  {
    RestReads([before], vars, after);
    FirstWordReads(before, Join(Parts(vars), ' ') + Spaced(after), [before] + Assignments(vars) + after);
    Regrouped(before, Join(Parts(vars), ' '), Spaced(after));
  }

  lemma InstallerWords(before: string, after: seq<string>)
    requires before == BEFORE && after == AFTER
    ensures OrdinaryWord(before) && forall i :: 0 <= i < |after| ==> OrdinaryWord(after[i])
  {
  }

  /** The remote shell reads the whole command as: env, each variable with its value whatever that
      holds, and the installer's own words. */
  lemma RemoteCommandReads(vars: Env)
    requires GoodEnv(vars)
    ensures WordsOf(RemoteCommand(vars)) == Some(["env"] + Assignments(vars) + ["bash", "-s", "--", "--auto"])
  {
    InstallerWords(BEFORE, AFTER);
    CommandReads(BEFORE, vars, AFTER);
  }
}
