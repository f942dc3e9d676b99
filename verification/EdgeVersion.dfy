/** The counts the edge follows: writers move a count in the transaction of their write, and a
    follower polls the count and reloads what it serves when it moved. */
module EdgeVersion {
  import opened Prelude

  // ── Which counts a table moves ────────────────────────────────────────────

  /** The counts each table is watched for. A name may stand twice for one table. */
  type Watches = map<string, seq<string>>

  function NamesFor(w: Watches, table: string): seq<string> {
    if table in w then w[table] else []
  }

  function Watched(w: Watches, name: string, tables: seq<string>): Watches
    decreases |tables|
  {
    if tables == [] then w
    else Watched(w[tables[0] := NamesFor(w, tables[0]) + [name]], name, tables[1..])
  }

  class EdgeTables {
    var watches: Watches

    constructor (initial: Watches)
      ensures watches == initial
    {
      watches := initial;
    }

    /** `WatchEdgeTables`. */
    method WatchEdgeTables(name: string, tables: seq<string>)
      modifies this
      ensures watches == Watched(old(watches), name, tables)
    {
      for i := 0 to |tables|
        invariant Watched(watches, name, tables[i..]) == Watched(old(watches), name, tables)
      {
        assert tables[i..][1..] == tables[i + 1..];
        watches := watches[tables[i] := NamesFor(watches, tables[i]) + [name]];
      }
    }

    /** `countsFor`. */
    method CountsFor(table: string) returns (names: seq<string>)
      ensures names == if table in watches then watches[table] else []
    {
      names := if table in watches then watches[table] else [];
    }
  }

  // ── Count rows ────────────────────────────────────────────────────────────

  type Rows = map<string, int>

  /** `EdgeVersionOf`: a count's value, zero before its first change. */
  function Value(rows: Rows, name: string): int {
    if name in rows then rows[name] else 0
  }

  function Bumped(rows: Rows, names: seq<string>): Rows
    decreases |names|
  {
    if names == [] then rows else Bumped(rows[names[0] := Value(rows, names[0]) + 1], names[1..])
  }

  /** How many times `n` stands in `names`. */
  function Times(n: string, names: seq<string>): nat {
    if names == [] then 0 else (if names[0] == n then 1 else 0) + Times(n, names[1..])
  }

  lemma {:induction false} BumpedValue(rows: Rows, names: seq<string>, n: string)
    ensures Value(Bumped(rows, names), n) == Value(rows, n) + Times(n, names)
    decreases |names|
  {
    if names != [] {
      BumpedValue(rows[names[0] := Value(rows, names[0]) + 1], names[1..], n);
    }
  }

  lemma {:induction false} TimesConcat(n: string, a: seq<string>, b: seq<string>)
    ensures Times(n, a + b) == Times(n, a) + Times(n, b)
  {
    if a == [] {
      assert a + b == b;
    } else {
      assert (a + b)[1..] == a[1..] + b;
      TimesConcat(n, a[1..], b);
    }
  }

  lemma {:induction false} TimesPositive(n: string, names: seq<string>)
    ensures Times(n, names) > 0 <==> n in names
  {
    if names != [] {
      TimesPositive(n, names[1..]);
      assert names == [names[0]] + names[1..];
    }
  }

  /** The table is watched for the count `n`. A statement that names no table is for none. */
  predicate IsWatched(w: Watches, table: string, n: string) {
    table != "" && table in w && n in w[table]
  }

  /** How many times a table is watched for the count. */
  function TimesWatched(w: Watches, table: string, n: string): nat {
    if table in w then Times(n, w[table]) else 0
  }

  /** Registering tables adds the name once for each time a table is listed, and takes nothing away. */
  lemma {:induction false} WatchedAdds(w: Watches, name: string, tables: seq<string>, table: string, n: string)
    ensures TimesWatched(Watched(w, name, tables), table, n)
            == TimesWatched(w, table, n) + if n == name then Times(table, tables) else 0
    decreases |tables|
  {
    if tables != [] {
      var next := w[tables[0] := NamesFor(w, tables[0]) + [name]];
      WatchedAdds(next, name, tables[1..], table, n);
      TimesConcat(n, NamesFor(w, tables[0]), [name]);
      assert [name][1..] == [];
    }
  }

  /** The counts a write to a table moves. A statement that names no table moves none. */
  function CountsOf(w: Watches, table: string): seq<string> {
    if table == "" then [] else NamesFor(w, table)
  }

  lemma CountsOfIff(w: Watches, table: string, n: string)
    ensures n in CountsOf(w, table) <==> IsWatched(w, table, n)
  {
  }

  /** A write moves each count by the number of times its table is watched for it. */
  lemma WriteMoves(rows: Rows, w: Watches, table: string, n: string)
    requires table != ""
    ensures Value(Bumped(rows, CountsOf(w, table)), n) == Value(rows, n) + TimesWatched(w, table, n)
  {
    BumpedValue(rows, CountsOf(w, table), n);
  }

  /** A database session: the count rows as its transaction sees them. */
  class Session {
    var rows: Rows

    constructor (seen: Rows)
      ensures rows == seen
    {
      rows := seen;
    }

    /** `bumpEdgeVersions`, after a write of `affected` rows to `table`. The `stop`th update of a
        count row fails. */
    method BumpEdgeVersions(watches: EdgeTables, failed: bool, affected: nat, table: string, stop: nat)
      returns (ok: bool)
      requires watches as object != this as object
      modifies this
      ensures failed || affected == 0 ==> ok && rows == old(rows)
      ensures !failed && affected > 0 ==>
                var names := CountsOf(watches.watches, table);
                ok == (stop >= |names|) && rows == Bumped(old(rows), if ok then names else names[..stop])
      ensures !failed && affected > 0 && table != "" && ok ==>
                forall n: string :: Value(rows, n) == Value(old(rows), n) + TimesWatched(watches.watches, table, n)
    {
      if table != "" { EachMoves(rows, watches.watches, table); }
      if failed || affected == 0 || table == "" {
        return true;
      }
      var names := watches.CountsFor(table);
      if |names| == 0 {
        return true;
      }
      for i := 0 to |names|
        invariant i <= stop
        invariant rows == Bumped(old(rows), names[..i])
      {
        if i == stop {
          return false;
        }
        BumpedSnoc(old(rows), names[..i], names[i]);
        assert names[..i + 1] == names[..i] + [names[i]];
        rows := rows[names[i] := Value(rows, names[i]) + 1];
      }
      assert names[..|names|] == names;
      return true;
    }
  }

  lemma EachMoves(rows: Rows, w: Watches, table: string)
    requires table != ""
    ensures forall n: string :: Value(Bumped(rows, CountsOf(w, table)), n) == Value(rows, n) + TimesWatched(w, table, n)
  {
    forall n: string
      ensures Value(Bumped(rows, CountsOf(w, table)), n) == Value(rows, n) + TimesWatched(w, table, n)
    {
      WriteMoves(rows, w, table, n);
    }
  }

  lemma {:induction false} BumpedSnoc(rows: Rows, names: seq<string>, n: string)
    ensures Bumped(rows, names + [n]) == Bumped(rows, names)[n := Value(Bumped(rows, names), n) + 1]
    decreases |names|
  {
    if names == [] {
      assert (names + [n])[1..] == [];
    } else {
      assert (names + [n])[1..] == names[1..] + [n];
      BumpedSnoc(rows[names[0] := Value(rows, names[0]) + 1], names[1..], n);
    }
  }

  // ── The follower ──────────────────────────────────────────────────────────

  /** One check of the count, read as `read` or not at all: the count last seen, when the follower
      last reloaded, and whether it reloads now. */
  function Checked(seen: int, last: int, full: int, read: Option<int>, now: int): (int, int, bool) {
    if (read.Some? && read.value != seen) || now - last >= full then
      (if read.Some? then read.value else seen, now, true)
    else
      (seen, last, false)
  }

  class Follower {
    var seen: int
    var last: int
    const full: int

    /** `FollowEdgeVersion`, up to its loop. */
    constructor (full: int, now: int)
      ensures seen == -1 && last == now && this.full == full
    {
      this.full := full;
      seen, last := -1, now;
    }

    /** One turn of the loop. Afterwards what was read is what was seen, and less than `full` has gone
        by since the last reload; it reloads for nothing else. */
    method Check(read: Option<int>, now: int) returns (reload: bool)
      modifies this
      ensures seen == if read.Some? then read.value else old(seen)
      ensures full > 0 ==> now - last < full
      ensures last == if reload then now else old(last)
      ensures reload ==> seen != old(seen) || now - old(last) >= full
      ensures (seen, last, reload) == Checked(old(seen), old(last), full, read, now)
    {
      reload := false;
      if (read.Some? && read.value != seen) || now - last >= full {
        if read.Some? {
          seen := read.value;
        }
        last := now;
        reload := true;
      }
    }
  }

  /** What one turn of the loop has to go by. */
  datatype Turn = Turn(read: Option<int>, now: int)

  /** The count seen and the time of the last reload, after some turns. */
  function AfterTurns(seen: int, last: int, full: int, turns: seq<Turn>): (int, int) {
    if turns == [] then (seen, last)
    else
      var (s, l) := AfterTurns(seen, last, full, turns[..|turns| - 1]);
      var (s', l', _) := Checked(s, l, full, turns[|turns| - 1].read, turns[|turns| - 1].now);
      (s', l')
  }

  /** The last count any of them read. */
  function LastRead(seen: int, turns: seq<Turn>): int {
    if turns == [] then seen
    else if turns[|turns| - 1].read.Some? then turns[|turns| - 1].read.value
    else LastRead(seen, turns[..|turns| - 1])
  }

  /** The turns at which the follower reloads. */
  predicate ReloadsAt(seen: int, last: int, full: int, turns: seq<Turn>, i: nat)
    requires i < |turns|
  {
    var (s, l) := AfterTurns(seen, last, full, turns[..i]);
    Checked(s, l, full, turns[i].read, turns[i].now).2
  }

  /** However the reads go: what the follower has seen is the last count read, it reloads at every turn
      that reads another count than the last one read before, and never is `full` past a reload. */
  lemma {:induction false} TurnsKeepUp(seen: int, last: int, full: int, turns: seq<Turn>)
    requires full > 0
    ensures AfterTurns(seen, last, full, turns).0 == LastRead(seen, turns)
    ensures turns != [] ==> turns[|turns| - 1].now - AfterTurns(seen, last, full, turns).1 < full
    ensures forall i :: 0 <= i < |turns| && turns[i].read.Some? && turns[i].read.value != LastRead(seen, turns[..i])
                        ==> ReloadsAt(seen, last, full, turns, i)
  {
    if turns != [] {
      var n := |turns| - 1;
      TurnsKeepUp(seen, last, full, turns[..n]);
      forall i | 0 <= i < |turns| && turns[i].read.Some? && turns[i].read.value != LastRead(seen, turns[..i])
        ensures ReloadsAt(seen, last, full, turns, i)
      {
        if i < n { assert turns[..n][..i] == turns[..i] && ReloadsAt(seen, last, full, turns[..n], i); }
      }
    }
  }

  // ── Writers and a follower together ───────────────────────────────────────

  /** An open transaction: the tables it wrote, the counts its last write has yet to move, those it
      moved, the count rows it holds with their new values, and whether a statement of it failed. */
  datatype Tx = Tx(wrote: seq<string>, todo: seq<string>, moved: seq<string>, rows: Rows, failed: bool)

  /** A change to the database. Only one made through GORM is counted. */
  datatype Commit = Commit(wrote: seq<string>, moved: seq<string>, counted: bool, at: int)

  datatype Phase = Idle | Loading(todo: set<string>)

  /** What is fixed: the watches, the count followed, the tables the follower serves from memory,
      the two intervals, and the count rows before the first commit of the log. */
  datatype Config = Config(watches: Watches, name: string, served: set<string>, full: int, tick: int, base: Rows)

  /** What the follower holds: the count last seen, when it last reloaded and last checked, what it
      is loading, and for each table how many of the log's changes it serves the table with. `readAt`
      is how many there were at its last check whose read of the count succeeded. */
  datatype Reader = Reader(
    start: int, seen: int, last: int, polled: int, phase: Phase, cache: map<string, nat>, readAt: nat)

  /** `log` is every change the database has had since the follower's caller loaded for itself. */
  datatype State = State(rows: Rows, txs: map<nat, Tx>, log: seq<Commit>, now: int, reader: Reader)

  datatype Step =
    | Begin(id: nat)
    | Write(id: nat, table: string, affected: nat)
    | Bump(id: nat)
    | Fail(id: nat)
    | CommitTx(id: nat)
    | Rollback(id: nat)
    | Outside(tables: seq<string>)
    | Advance(to: int)
    | Poll(ok: bool)
    | Load(table: string)

  /** Only the holder of a count row may move it until the holder ends. */
  predicate RowFree(txs: map<nat, Tx>, id: nat, name: string) {
    forall other <- txs :: other != id ==> name !in txs[other].rows
  }

  function WriteTx(w: Watches, tx: Tx, table: string, affected: nat): Option<Tx> {
    if tx.todo != [] || tx.failed then None
    else if affected == 0 then Some(tx)
    else Some(tx.(wrote := tx.wrote + [table], todo := CountsOf(w, table)))
  }

  function BumpTx(rows: Rows, tx: Tx): Option<Tx> {
    if tx.todo == [] || tx.failed then None
    else
      var n := tx.todo[0];
      var held := if n in tx.rows then tx.rows[n] else Value(rows, n);
      Some(tx.(todo := tx.todo[1..], moved := tx.moved + [n], rows := tx.rows[n := held + 1]))
  }

  /** The bumps of a transaction's last write, one after another. */
  function BumpedAll(rows: Rows, tx: Tx): Tx
    requires !tx.failed
    decreases |tx.todo|
  {
    if tx.todo == [] then tx else BumpedAll(rows, BumpTx(rows, tx).value)
  }

  lemma Overlay(rows: Rows, held: Rows, n: string, v: int)
    ensures rows + held[n := v] == (rows + held)[n := v]
  {
  }

  lemma OverlayValue(rows: Rows, held: Rows, n: string)
    ensures Value(rows + held, n) == if n in held then held[n] else Value(rows, n)
  {
  }

  /** They leave the rows, as the transaction sees them, as `bumpEdgeVersions` does. */
  lemma {:induction false} BumpsAreBumped(rows: Rows, tx: Tx)
    requires !tx.failed
    ensures rows + BumpedAll(rows, tx).rows == Bumped(rows + tx.rows, tx.todo)
    ensures BumpedAll(rows, tx) == tx.(todo := [], moved := tx.moved + tx.todo, rows := BumpedAll(rows, tx).rows)
    decreases |tx.todo|
  {
    if tx.todo == [] {
      assert tx.moved + [] == tx.moved;
    } else {
      var next, n := BumpTx(rows, tx).value, tx.todo[0];
      BumpsAreBumped(rows, next);
      Overlay(rows, tx.rows, n, next.rows[n]);
      OverlayValue(rows, tx.rows, n);
      assert tx.moved + [n] + tx.todo[1..] == tx.moved + tx.todo;
    }
  }

  function PollReader(c: Config, s: State, ok: bool): Reader {
    var read := if ok then Some(Value(s.rows, c.name)) else None;
    var (seen, last, reload) := Checked(s.reader.seen, s.reader.last, c.full, read, s.now);
    s.reader.(seen := seen, last := last, polled := s.now,
              readAt := if ok then |s.log| else s.reader.readAt,
              phase := if reload && c.served != {} then Loading(c.served) else Idle)
  }

  function LoadReader(r: Reader, table: string, position: nat): Reader
    requires r.phase.Loading?
  {
    var todo := r.phase.todo - {table};
    r.(cache := r.cache[table := position], phase := if todo == {} then Idle else Loading(todo))
  }

  function StepOf(c: Config, s: State, step: Step): Option<State> {
    match step
    case Begin(id) =>
      if id in s.txs then None else Some(s.(txs := s.txs[id := Tx([], [], [], map[], false)]))
    case Write(id, table, affected) =>
      if id !in s.txs || WriteTx(c.watches, s.txs[id], table, affected).None? then None
      else Some(s.(txs := s.txs[id := WriteTx(c.watches, s.txs[id], table, affected).value]))
    case Bump(id) =>
      if id !in s.txs || BumpTx(s.rows, s.txs[id]).None? || !RowFree(s.txs, id, s.txs[id].todo[0]) then None
      else Some(s.(txs := s.txs[id := BumpTx(s.rows, s.txs[id]).value]))
    case Fail(id) =>
      if id !in s.txs then None else Some(s.(txs := s.txs[id := s.txs[id].(failed := true)]))
    case CommitTx(id) =>
      if id !in s.txs || s.txs[id].todo != [] || s.txs[id].failed then None
      else
        var tx := s.txs[id];
        Some(s.(rows := s.rows + tx.rows, txs := s.txs - {id},
                log := s.log + [Commit(tx.wrote, tx.moved, true, s.now)]))
    case Rollback(id) =>
      if id !in s.txs then None else Some(s.(txs := s.txs - {id}))
    case Outside(tables) => Some(s.(log := s.log + [Commit(tables, [], false, s.now)]))
    case Advance(to) =>
      // The ticker fires on time, and a reload ends before the next tick.
      if s.now <= to <= s.reader.polled + c.tick then Some(s.(now := to)) else None
    case Poll(ok) =>
      if !s.reader.phase.Idle? then None else Some(s.(reader := PollReader(c, s, ok)))
    case Load(table) =>
      if !s.reader.phase.Loading? || table !in s.reader.phase.todo then None
      else Some(s.(reader := LoadReader(s.reader, table, |s.log|)))
  }

  function Run(c: Config, s: State, steps: seq<Step>): Option<State>
    decreases |steps|
  {
    if steps == [] then Some(s)
    else
      match StepOf(c, s, steps[0])
      case None => None
      case Some(t) => Run(c, t, steps[1..])
  }

  // ── What every step keeps ─────────────────────────────────────────────────

  function NamesOfAll(w: Watches, tables: seq<string>): seq<string> {
    if tables == [] then []
    else NamesOfAll(w, tables[..|tables| - 1]) + CountsOf(w, tables[|tables| - 1])
  }

  function Moves(n: string, log: seq<Commit>): nat {
    if log == [] then 0 else Moves(n, log[..|log| - 1]) + Times(n, log[|log| - 1].moved)
  }

  ghost predicate LogOk(w: Watches, log: seq<Commit>) {
    forall i :: 0 <= i < |log| ==> log[i].moved == if log[i].counted then NamesOfAll(w, log[i].wrote) else []
  }

  /** A count row is what the log says it should be: no update of it was lost. */
  ghost predicate RowsOk(base: Rows, rows: Rows, log: seq<Commit>) {
    forall n {:trigger Value(rows, n)} :: Value(rows, n) == Value(base, n) + Moves(n, log)
  }

  /** A transaction holds, for each count it moved, the committed value plus its own moves. */
  ghost predicate TxOk(w: Watches, rows: Rows, tx: Tx) {
    && tx.moved + tx.todo == NamesOfAll(w, tx.wrote)
    && forall n :: if n in tx.rows then tx.rows[n] == Value(rows, n) + Times(n, tx.moved) else n !in tx.moved
  }

  ghost predicate TxsOk(w: Watches, rows: Rows, txs: map<nat, Tx>) {
    && (forall id <- txs :: TxOk(w, rows, txs[id]))
    && (forall a, b :: a in txs && b in txs && a != b ==> txs[a].rows.Keys !! txs[b].rows.Keys)
  }

  function Pending(r: Reader): set<string> {
    if r.phase.Loading? then r.phase.todo else {}
  }

  /** Every counted change to table `t` among the first `upTo` is in what is served of it. */
  ghost predicate Fresh(log: seq<Commit>, upTo: nat, t: string, position: nat) {
    forall i :: 0 <= i < upTo && i < |log| && log[i].counted && t in log[i].wrote ==> i < position
  }

  /** Every change from `position` on was made at `since` or later. */
  ghost predicate Recent(log: seq<Commit>, position: nat, since: int) {
    forall i :: position <= i < |log| ==> log[i].at >= since
  }

  ghost predicate TableOk(c: Config, log: seq<Commit>, r: Reader, t: string) {
    && t in r.cache
    && (r.last == r.start || Recent(log, r.cache[t], r.last))
    && (IsWatched(c.watches, t, c.name) ==> Fresh(log, r.readAt, t, r.cache[t]))
  }

  ghost predicate SeenOk(c: Config, log: seq<Commit>, r: Reader) {
    && r.readAt <= |log|
    && if r.seen == -1 then r.readAt == 0 else r.seen == Value(c.base, c.name) + Moves(c.name, log[..r.readAt])
  }

  ghost predicate ReaderOk(c: Config, log: seq<Commit>, r: Reader) {
    && SeenOk(c, log, r) && c.served <= r.cache.Keys && Pending(r) <= c.served
    && (forall t <- c.served - Pending(r) :: TableOk(c, log, r, t))
  }

  ghost predicate ClockOk(c: Config, now: int, r: Reader) {
    r.start <= r.last <= r.polled <= now <= r.polled + c.tick && r.polled - r.last < c.full
  }

  ghost predicate Inv(c: Config, s: State) {
    && LogOk(c.watches, s.log) && RowsOk(c.base, s.rows, s.log) && TxsOk(c.watches, s.rows, s.txs)
    && ReaderOk(c, s.log, s.reader) && ClockOk(c, s.now, s.reader)
  }

  ghost predicate ConfigOk(c: Config) {
    c.full > 0 && c.tick >= 0 && forall n :: Value(c.base, n) >= 0
  }

  /** Where a follower starts: nothing read yet, the caller's load behind it, whatever was committed
      between that load and now already in the log, and any transactions open. */
  ghost predicate Init(c: Config, s: State) {
    && ConfigOk(c) && TxsOk(c.watches, s.rows, s.txs) && LogOk(c.watches, s.log) && RowsOk(c.base, s.rows, s.log)
    && s.reader.seen == -1 && s.reader.readAt == 0 && s.reader.phase.Idle? && c.served <= s.reader.cache.Keys
    && s.reader.start == s.reader.last == s.reader.polled == s.now
  }

  lemma InitInv(c: Config, s: State)
    requires Init(c, s)
    ensures Inv(c, s)
  {
  }

  // ── Proof of the invariant ────────────────────────────────────────────────

  lemma NamesOfAllSnoc(w: Watches, tables: seq<string>, table: string)
    ensures NamesOfAll(w, tables + [table]) == NamesOfAll(w, tables) + CountsOf(w, table)
  {
    assert (tables + [table])[..|tables|] == tables;
  }

  lemma {:induction false} NamesOfAllHas(w: Watches, tables: seq<string>, n: string)
    ensures n in NamesOfAll(w, tables) <==> exists t <- tables :: IsWatched(w, t, n)
  {
    if tables != [] {
      var init, t := tables[..|tables| - 1], tables[|tables| - 1];
      NamesOfAllHas(w, init, n);
      assert tables == init + [t];
      CountsOfIff(w, t, n);
      assert IsWatched(w, t, n) ==> t in tables;
    }
  }

  lemma MovesSnoc(n: string, log: seq<Commit>, commit: Commit)
    ensures Moves(n, log + [commit]) == Moves(n, log) + Times(n, commit.moved)
  {
    assert (log + [commit])[..|log|] == log;
  }

  /** A count only grows, and grows past every commit that moves it. */
  lemma {:induction false} MovesGrow(n: string, log: seq<Commit>, i: nat)
    requires i <= |log|
    ensures Moves(n, log[..i]) <= Moves(n, log)
    ensures Moves(n, log[..i]) == Moves(n, log) ==> forall j :: i <= j < |log| ==> n !in log[j].moved
    decreases |log| - i
  {
    if i == |log| {
      assert log[..i] == log;
    } else {
      MovesGrow(n, log, i + 1);
      assert log[..i + 1] == log[..i] + [log[i]];
      MovesSnoc(n, log[..i], log[i]);
      TimesPositive(n, log[i].moved);
    }
  }

  lemma LogGrows(c: Config, log: seq<Commit>, r: Reader, commit: Commit)
    requires ReaderOk(c, log, r) && commit.at >= r.last
    ensures ReaderOk(c, log + [commit], r)
  {
    var log' := log + [commit];
    assert log'[..r.readAt] == log[..r.readAt];
    forall t | t in c.served - Pending(r)
      ensures TableOk(c, log', r, t)
    {
      assert TableOk(c, log, r, t);
    }
  }

  lemma LogOkGrows(w: Watches, log: seq<Commit>, commit: Commit)
    requires LogOk(w, log) && commit.moved == if commit.counted then NamesOfAll(w, commit.wrote) else []
    ensures LogOk(w, log + [commit])
  {
  }

  /** Replacing one transaction by one that is right, and holds no row another holds. */
  lemma TxReplaced(w: Watches, rows: Rows, txs: map<nat, Tx>, id: nat, tx: Tx)
    requires TxsOk(w, rows, txs) && TxOk(w, rows, tx)
    requires forall other <- txs :: other != id ==> txs[other].rows.Keys !! tx.rows.Keys
    ensures TxsOk(w, rows, txs[id := tx])
  {
  }

  lemma WriteKeeps(w: Watches, rows: Rows, tx: Tx, table: string, affected: nat)
    requires TxOk(w, rows, tx) && WriteTx(w, tx, table, affected).Some?
    ensures TxOk(w, rows, WriteTx(w, tx, table, affected).value)
  {
    NamesOfAllSnoc(w, tx.wrote, table);
    assert tx.moved + [] == tx.moved;
  }

  lemma BumpKeeps(w: Watches, rows: Rows, tx: Tx)
    requires TxOk(w, rows, tx) && BumpTx(rows, tx).Some?
    ensures TxOk(w, rows, BumpTx(rows, tx).value)
  {
    var n, tx' := tx.todo[0], BumpTx(rows, tx).value;
    assert tx'.moved + tx'.todo == tx.moved + tx.todo;
    forall m
      ensures if m in tx'.rows then tx'.rows[m] == Value(rows, m) + Times(m, tx'.moved) else m !in tx'.moved
    {
      assert if m in tx.rows then tx.rows[m] == Value(rows, m) + Times(m, tx.moved) else m !in tx.moved;
      TimesConcat(m, tx.moved, [n]);
      TimesPositive(m, tx.moved);
    }
  }

  /** What a transaction committed was held by no other, so the others' own values still stand. */
  lemma CommitTxs(w: Watches, rows: Rows, txs: map<nat, Tx>, id: nat)
    requires TxsOk(w, rows, txs) && id in txs
    ensures TxsOk(w, rows + txs[id].rows, txs - {id})
  {
    var rows', txs' := rows + txs[id].rows, txs - {id};
    forall other | other in txs'
      ensures TxOk(w, rows', txs'[other])
    {
      assert TxOk(w, rows, txs[other]);
      assert forall n :: n in txs[other].rows ==> Value(rows', n) == Value(rows, n);
    }
  }

  lemma CommitRows(w: Watches, base: Rows, rows: Rows, log: seq<Commit>, tx: Tx, commit: Commit)
    requires RowsOk(base, rows, log) && TxOk(w, rows, tx) && commit.moved == tx.moved
    ensures RowsOk(base, rows + tx.rows, log + [commit])
  {
    forall n
      ensures Value(rows + tx.rows, n) == Value(base, n) + Moves(n, log + [commit])
    {
      MovesSnoc(n, log, commit);
      TimesPositive(n, tx.moved);
      assert Value(rows, n) == Value(base, n) + Moves(n, log);
    }
  }

  lemma OutsideRows(base: Rows, rows: Rows, log: seq<Commit>, commit: Commit)
    requires RowsOk(base, rows, log) && commit.moved == []
    ensures RowsOk(base, rows, log + [commit])
  {
    forall n
      ensures Value(rows, n) == Value(base, n) + Moves(n, log + [commit])
    {
      MovesSnoc(n, log, commit);
      assert Value(rows, n) == Value(base, n) + Moves(n, log);
    }
  }

  /** A check that finds the count where it was has missed no change to a watched table. */
  lemma UnmovedIsFresh(c: Config, log: seq<Commit>, r: Reader, table: string)
    requires LogOk(c.watches, log) && TableOk(c, log, r, table) && r.readAt <= |log|
    requires IsWatched(c.watches, table, c.name)
    requires Moves(c.name, log[..r.readAt]) == Moves(c.name, log)
    ensures Fresh(log, |log|, table, r.cache[table])
  {
    MovesGrow(c.name, log, r.readAt);
    forall i | 0 <= i < |log| && log[i].counted && table in log[i].wrote
      ensures i < r.cache[table]
    {
      NamesOfAllHas(c.watches, log[i].wrote, c.name);
      assert c.name in log[i].moved;
    }
  }

  lemma PollKeeps(c: Config, s: State, ok: bool)
    requires ConfigOk(c) && Inv(c, s) && s.reader.phase.Idle?
    ensures ReaderOk(c, s.log, PollReader(c, s, ok)) && ClockOk(c, s.now, PollReader(c, s, ok))
  {
    var r, r' := s.reader, PollReader(c, s, ok);
    assert Value(s.rows, c.name) == Value(c.base, c.name) + Moves(c.name, s.log);
    assert s.log[..|s.log|] == s.log;
    forall t | t in c.served - Pending(r')
      ensures TableOk(c, s.log, r', t)
    {
      assert t in c.served - Pending(r) && TableOk(c, s.log, r, t);
      if ok && IsWatched(c.watches, t, c.name) { UnmovedIsFresh(c, s.log, r, t); }
    }
  }

  lemma LoadKeeps(c: Config, log: seq<Commit>, r: Reader, table: string)
    requires ReaderOk(c, log, r) && r.phase.Loading? && table in r.phase.todo
    ensures ReaderOk(c, log, LoadReader(r, table, |log|))
  {
    var r' := LoadReader(r, table, |log|);
    forall t | t in c.served - Pending(r')
      ensures TableOk(c, log, r', t)
    {
      if t != table { assert TableOk(c, log, r, t); }
    }
  }

  lemma TxStepKeeps(c: Config, s: State, step: Step, t: State)
    requires Inv(c, s) && StepOf(c, s, step) == Some(t)
    requires step.Begin? || step.Write? || step.Bump? || step.Fail? || step.Rollback?
    ensures TxsOk(c.watches, t.rows, t.txs) && t == s.(txs := t.txs)
  {
    var id := step.id;
    if id in s.txs { assert TxOk(c.watches, s.rows, s.txs[id]); }
    match step {
      case Begin(_) => TxReplaced(c.watches, s.rows, s.txs, id, t.txs[id]);
      case Write(_, table, affected) =>
        WriteKeeps(c.watches, s.rows, s.txs[id], table, affected);
        TxReplaced(c.watches, s.rows, s.txs, id, t.txs[id]);
      case Bump(_) =>
        BumpKeeps(c.watches, s.rows, s.txs[id]);
        TxReplaced(c.watches, s.rows, s.txs, id, t.txs[id]);
      case Fail(_) => TxReplaced(c.watches, s.rows, s.txs, id, t.txs[id]);
      case Rollback(_) =>
    }
  }

  lemma CommitKeeps(c: Config, s: State, id: nat, t: State)
    requires Inv(c, s) && StepOf(c, s, CommitTx(id)) == Some(t)
    ensures Inv(c, t)
  {
    var tx := s.txs[id];
    assert TxOk(c.watches, s.rows, tx) && tx.moved + [] == tx.moved;
    CommitTxs(c.watches, s.rows, s.txs, id);
    CommitLogged(c, s, tx, Commit(tx.wrote, tx.moved, true, s.now));
  }

  lemma CommitLogged(c: Config, s: State, tx: Tx, commit: Commit)
    requires Inv(c, s) && TxOk(c.watches, s.rows, tx) && commit == Commit(tx.wrote, tx.moved, true, s.now)
    requires tx.moved == NamesOfAll(c.watches, tx.wrote)
    ensures LogOk(c.watches, s.log + [commit]) && RowsOk(c.base, s.rows + tx.rows, s.log + [commit])
    ensures ReaderOk(c, s.log + [commit], s.reader)
  {
    LogOkGrows(c.watches, s.log, commit);
    CommitRows(c.watches, c.base, s.rows, s.log, tx, commit);
    LogGrows(c, s.log, s.reader, commit);
  }

  lemma OutsideKeeps(c: Config, s: State, tables: seq<string>, t: State)
    requires Inv(c, s) && StepOf(c, s, Outside(tables)) == Some(t)
    ensures Inv(c, t)
  {
    var commit := Commit(tables, [], false, s.now);
    LogOkGrows(c.watches, s.log, commit);
    OutsideRows(c.base, s.rows, s.log, commit);
    LogGrows(c, s.log, s.reader, commit);
  }

  lemma StepKeeps(c: Config, s: State, step: Step, t: State)
    requires ConfigOk(c) && Inv(c, s) && StepOf(c, s, step) == Some(t)
    ensures Inv(c, t)
  {
    match step
    case CommitTx(id) => CommitKeeps(c, s, id, t);
    case Outside(tables) => OutsideKeeps(c, s, tables, t);
    case Advance(_) =>
    case Poll(ok) => PollKeeps(c, s, ok);
    case Load(table) => LoadKeeps(c, s.log, s.reader, table);
    case _ => TxStepKeeps(c, s, step, t);
  }

  /** One state comes after another: the log only grows, and reads only move forward in it. */
  ghost predicate After(s: State, t: State) {
    s.log <= t.log && s.reader.readAt <= t.reader.readAt && s.reader.start == t.reader.start
  }

  lemma StepAfter(c: Config, s: State, step: Step, t: State)
    requires Inv(c, s) && StepOf(c, s, step) == Some(t)
    ensures After(s, t)
  {
  }

  /** Every state of every run keeps the invariant. */
  lemma {:induction false} RunKeeps(c: Config, s: State, steps: seq<Step>)
    requires ConfigOk(c) && Inv(c, s) && Run(c, s, steps).Some?
    ensures Inv(c, Run(c, s, steps).value) && After(s, Run(c, s, steps).value)
    decreases |steps|
  {
    if steps != [] {
      var t := StepOf(c, s, steps[0]).value;
      StepKeeps(c, s, steps[0], t);
      StepAfter(c, s, steps[0], t);
      RunKeeps(c, t, steps[1..]);
    }
  }

  // ── What the protocol is for ──────────────────────────────────────────────

  /** A count moves in a step exactly when the step commits a transaction that wrote a table
      watched for it. */
  lemma CountMovesIff(c: Config, s: State, step: Step, t: State, n: string)
    requires ConfigOk(c) && Inv(c, s) && StepOf(c, s, step) == Some(t)
    ensures Value(t.rows, n) != Value(s.rows, n)
            <==> step.CommitTx? && exists table <- s.txs[step.id].wrote :: IsWatched(c.watches, table, n)
    ensures Value(t.rows, n) >= Value(s.rows, n)
  {
    if step.CommitTx? {
      var tx := s.txs[step.id];
      assert TxOk(c.watches, s.rows, tx) && tx.moved + [] == tx.moved;
      NamesOfAllHas(c.watches, tx.wrote, n);
      TimesPositive(n, tx.moved);
    }
  }

  /** The first check that reads the count reloads, whatever the count is, so a change made between
      the caller's own load and the first check is not left for the full interval. */
  lemma FirstReadReloads(c: Config, s: State, t: State)
    requires ConfigOk(c) && Inv(c, s) && s.reader.seen == -1 && StepOf(c, s, Poll(true)) == Some(t)
    ensures Pending(t.reader) == c.served
  {
    assert Value(s.rows, c.name) == Value(c.base, c.name) + Moves(c.name, s.log);
  }

  lemma ReadAtPoll(c: Config, mid: State, after: seq<Step>, end: State)
    requires ConfigOk(c) && Inv(c, mid) && Run(c, mid, [Poll(true)] + after) == Some(end)
    ensures Inv(c, end) && mid.log <= end.log && |mid.log| <= end.reader.readAt
  {
    var polled := mid.(reader := PollReader(c, mid, true));
    assert ([Poll(true)] + after)[1..] == after;
    StepKeeps(c, mid, Poll(true), polled);
    RunKeeps(c, polled, after);
  }

  /** No lost update. In every interleaving: once a check whose read of the count succeeded is over,
      reload included, every counted change to a watched table committed before that check is in
      what the follower serves. */
  lemma ServedAfterCheck(c: Config, s: State, before: seq<Step>, after: seq<Step>, mid: State, end: State, i: nat, table: string)
    requires Init(c, s) && Run(c, s, before) == Some(mid) && Run(c, mid, [Poll(true)] + after) == Some(end)
    requires end.reader.phase.Idle? && table in c.served && IsWatched(c.watches, table, c.name)
    requires i < |mid.log| && mid.log[i].counted && table in mid.log[i].wrote
    ensures |mid.log| <= |end.log| && end.log[i] == mid.log[i]
    ensures table in end.reader.cache && i < end.reader.cache[table]
  {
    InitInv(c, s);
    RunKeeps(c, s, before);
    ReadAtPoll(c, mid, after, end);
    assert TableOk(c, end.log, end.reader, table);
    assert end.log[i] == end.log[..|mid.log|][i] == mid.log[i];
  }

  /** Bounded staleness. In every interleaving, even if no read of the count ever succeeds and
      whether or not a change was counted: a change the follower does not serve between reloads is
      less than `full` and one tick old, or that much after the follower's start. */
  lemma StaleFor(c: Config, s: State, steps: seq<Step>, end: State, table: string, i: nat)
    requires Init(c, s) && Run(c, s, steps) == Some(end) && end.reader.phase.Idle? && table in c.served
    requires table in end.reader.cache && end.reader.cache[table] <= i < |end.log|
    ensures var since := if end.log[i].at > s.reader.start then end.log[i].at else s.reader.start;
            end.now - since < c.full + c.tick
  {
    InitInv(c, s);
    RunKeeps(c, s, steps);
    assert TableOk(c, end.log, end.reader, table);
  }

  /** From the change itself there is no such bound, for one made before the follower started: a run of
      one tick in which such a change is older than `full` and one tick, and not served. */
  lemma StaleFromBeforeTheStart(c: Config, table: string) returns (s: State, end: State)
    requires ConfigOk(c) && table in c.served
    ensures Init(c, s) && Run(c, s, [Advance(s.now + c.tick)]) == Some(end) && end.reader.phase.Idle?
    ensures table in end.reader.cache && end.reader.cache[table] == 0 < |end.log|
    ensures end.now - end.log[0].at > c.full + c.tick
  {
    var change := Commit([table], [], false, -c.full - 1);
    var reader := Reader(0, -1, 0, 0, Idle, map t | t in c.served :: 0, 0);
    s := State(c.base, map[], [change], 0, reader);
    end := s.(now := c.tick);
    OutsideRows(c.base, c.base, [], change);
    assert [] + [change] == [change];
    assert [Advance(c.tick)][1..] == [];
  }
}
