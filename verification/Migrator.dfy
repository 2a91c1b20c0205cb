/**
 The block explorer's background migration (blockexplorer/store/migrator.go): rows of
 the old transaction table are copied day by day into the new one, each day in one
 database transaction, and the old table is dropped at the end.

 Tables are sets of rows. Instants are microseconds, the resolution of the database.
 */
module Migrations {
  import opened Common

  const DAY: int := 86_400_000_000

  datatype Block = Block(height: nat, createdAt: int)

  datatype Tx = Tx(rowid: int, blockId: int, index: int, createdAt: int, data: string)

  datatype Row = Row(tx: Tx, height: nat)

  datatype Db = Db(blocks: map<int, Block>, legacy: Option<set<Tx>>, table: set<Row>, dates: map<int, bool>)

  function DayOf(at: int): int {
    at / DAY
  }

  /** The two uniqueness constraints: the row id, and the place within a block. */
  predicate Clash(a: Tx, b: Tx) {
    a.rowid == b.rowid || (a.blockId == b.blockId && a.index == b.index)
  }

  predicate Keyed(s: set<Tx>) {
    forall a, b :: a in s && b in s && Clash(a, b) ==> a == b
  }

  predicate Free(t: Tx, table: set<Row>) {
    forall r :: r in table ==> !Clash(t, r.tx)
  }

  predicate HasBlocks(s: set<Tx>, blocks: map<int, Block>) {
    forall t :: t in s ==> t.blockId in blocks
  }

  /** The new table keeps its constraints, and every row carries the height of its block. */
  predicate SoundTable(table: set<Row>, blocks: map<int, Block>) {
    && (forall r :: r in table ==> r.tx.blockId in blocks && r.height == blocks[r.tx.blockId].height)
    && (forall a, b :: a in table && b in table && Clash(a.tx, b.tx) ==> a == b)
  }

  predicate SoundLegacy(legacy: Option<set<Tx>>, blocks: map<int, Block>) {
    legacy.Some? ==> Keyed(legacy.value) && HasBlocks(legacy.value, blocks)
  }

  predicate Sound(db: Db) {
    SoundTable(db.table, db.blocks) && SoundLegacy(db.legacy, db.blocks)
  }

  /** A row once inserted: a trigger copies the height from the block it refers to. */
  function Stored(blocks: map<int, Block>, t: Tx): Row {
    Row(t, if t.blockId in blocks then blocks[t.blockId].height else 0)
  }

  /** `insert … on conflict do nothing`, for rows that do not clash with each other. */
  function InsertIgnore(table: set<Row>, rows: set<Row>, blocks: map<int, Block>): set<Row> {
    table + set r | r in rows && Free(r.tx, table) :: Stored(blocks, r.tx)
  }

  /** The old rows of `[from, to)` that clash with nothing, as stored. */
  function Moved(table: set<Row>, rows: set<Tx>, blocks: map<int, Block>, from: int, to: int): set<Row> {
    table + set t | t in rows && from <= t.createdAt < to && Free(t, table) :: Stored(blocks, t)
  }

  function MigrateDay(db: Db, d: int): Db
    requires db.legacy.Some?
  {
    db.(table := Moved(db.table, db.legacy.value, db.blocks, d * DAY, (d + 1) * DAY), dates := db.dates[d := true])
  }

  function BlockDays(blocks: map<int, Block>): set<int> {
    set b | b in blocks :: DayOf(blocks[b].createdAt)
  }

  /** Record the days of all blocks that are not recorded yet, as not migrated. */
  function WithDates(db: Db): Db {
    db.(dates := map d | d in db.dates.Keys + BlockDays(db.blocks) :: d in db.dates && db.dates[d])
  }

  predicate Descending(s: seq<int>) {
    forall i, j :: 0 <= i < j < |s| ==> s[i] > s[j]
  }

  /** The recorded days still to do, latest first. */
  ghost predicate IsPending(dates: map<int, bool>, pending: seq<int>) {
    Descending(pending) && forall d :: d in pending <==> d in dates && !dates[d]
  }

  // ------------------------------------------------------- the chunk loop

  /** Adjoining half-open intervals from `start`, the last of them the first to reach `end`. */
  predicate Tiling(chunks: seq<(int, int)>, start: int, end: int) {
    && (chunks == [] <==> start >= end)
    && (forall i :: 0 <= i < |chunks| ==> chunks[i].0 < chunks[i].1 && chunks[i].0 < end)
    && (chunks != [] ==> chunks[0].0 == start && chunks[|chunks| - 1].1 >= end)
    && (forall i :: 0 < i < |chunks| ==> chunks[i - 1].1 == chunks[i].0)
  }

  method Chunks(start: int, end: int, step: int) returns (chunks: seq<(int, int)>)
    requires step > 0
    ensures Tiling(chunks, start, end)
    ensures forall i :: 0 <= i < |chunks| ==> chunks[i].1 == chunks[i].0 + step
  {
    chunks := [];
    var moveStart := start;
    while moveStart < end
      invariant |chunks| == 0 ==> moveStart == start
      invariant |chunks| > 0 ==> start < end && chunks[0].0 == start && chunks[|chunks| - 1].1 == moveStart
      invariant forall i :: 0 <= i < |chunks| ==> chunks[i].1 == chunks[i].0 + step && chunks[i].0 < end
      invariant forall i :: 0 < i < |chunks| ==> chunks[i - 1].1 == chunks[i].0
      decreases end - moveStart
    {
      chunks := chunks + [(moveStart, moveStart + step)];
      moveStart := moveStart + step;
    }
  }

  predicate Holds(chunk: (int, int), at: int) {
    chunk.0 <= at < chunk.1
  }

  lemma {:induction false} StartsAscend(chunks: seq<(int, int)>, start: int, end: int, i: nat, j: nat)
    requires Tiling(chunks, start, end) && i < j < |chunks|
    ensures chunks[i].1 <= chunks[j].0
  {
    if i + 1 == j {
    } else {
      StartsAscend(chunks, start, end, i, j - 1);
    }
  }

  lemma {:induction false} SomeChunkUpTo(chunks: seq<(int, int)>, start: int, end: int, at: int, n: nat)
    requires Tiling(chunks, start, end) && 0 < n <= |chunks| && start <= at < chunks[n - 1].1
    ensures exists i :: 0 <= i < n && Holds(chunks[i], at)
    decreases n
  {
    if n > 1 && at < chunks[n - 1].0 {
      SomeChunkUpTo(chunks, start, end, at, n - 1);
    } else {
      assert Holds(chunks[n - 1], at);
    }
  }

  /** No gap and no overlap: each instant of the day lies in exactly one chunk. */
  lemma EachInstantInOneChunk(chunks: seq<(int, int)>, start: int, end: int, at: int)
    requires Tiling(chunks, start, end) && start <= at < end
    ensures exists i :: 0 <= i < |chunks| && Holds(chunks[i], at)
    ensures forall i, j :: 0 <= i < j < |chunks| ==> !(Holds(chunks[i], at) && Holds(chunks[j], at))
  {
    SomeChunkUpTo(chunks, start, end, at, |chunks|);
    forall i, j | 0 <= i < j < |chunks|
      ensures !(Holds(chunks[i], at) && Holds(chunks[j], at))
    {
      StartsAscend(chunks, start, end, i, j);
    }
  }

  // ---------------------------------------------------------- moving chunks

  lemma MovedNothing(table: set<Row>, rows: set<Tx>, blocks: map<int, Block>, from: int)
    ensures Moved(table, rows, blocks, from, from) == table
  {
  }

  lemma MoveChunk(table: set<Row>, rows: set<Tx>, blocks: map<int, Block>, from: int, mid: int, to: int, temp: set<Row>)
    requires Keyed(rows) && from <= mid <= to
    requires forall r :: r in temp ==> r.tx in rows && mid <= r.tx.createdAt < to
    requires forall t :: t in rows && mid <= t.createdAt < to ==> exists r :: r in temp && r.tx == t
    ensures InsertIgnore(Moved(table, rows, blocks, from, mid), temp, blocks) == Moved(table, rows, blocks, from, to)
  {
  }

  /** Chunks past the end of the day find nothing there. */
  lemma MovedWithin(table: set<Row>, rows: set<Tx>, blocks: map<int, Block>, from: int, end: int, to: int)
    requires end <= to && forall t :: t in rows ==> t.createdAt < end
    ensures Moved(table, rows, blocks, from, to) == Moved(table, rows, blocks, from, end)
  {
  }

  lemma MovedFromDay(table: set<Row>, rows: set<Tx>, day: set<Tx>, blocks: map<int, Block>, from: int, to: int)
    requires day == set t | t in rows && from <= t.createdAt < to
    ensures Moved(table, day, blocks, from, to) == Moved(table, rows, blocks, from, to)
  {
  }

  // ------------------------------------------------------------- the agent

  function InsertDown(x: int, s: seq<int>): seq<int> {
    if s == [] || x > s[0] then [x] + s else [s[0]] + InsertDown(x, s[1..])
  }

  lemma {:induction false} InsertDownDescending(x: int, s: seq<int>)
    requires Descending(s) && x !in s
    ensures Descending(InsertDown(x, s))
    ensures forall y :: y in InsertDown(x, s) <==> y == x || y in s
  {
    if s == [] || x > s[0] {
    } else {
      assert s == [s[0]] + s[1..];
      InsertDownDescending(x, s[1..]);
      var rest := InsertDown(x, s[1..]);
      forall j | 0 <= j < |rest|
        ensures s[0] > rest[j]
      {
        assert rest[j] in rest;
      }
    }
  }

  function AllDays(db: Db, days: seq<int>): (r: Db)
    requires db.legacy.Some?
    ensures r.legacy == db.legacy
  {
    if days == [] then db else MigrateDay(AllDays(db, days[..|days| - 1]), days[|days| - 1])
  }

  class Migrator {
    var blocks: map<int, Block>
    var legacy: Option<set<Tx>>
    var table: set<Row>
    var dates: map<int, bool>
    /** The configured length of a chunk. */
    const step: int

    ghost function View(): Db
      reads this
    {
      Db(blocks, legacy, table, dates)
    }

    ghost predicate Valid()
      reads this
    {
      step > 0 && Sound(View())
    }

    constructor (blocks: map<int, Block>, rows: set<Tx>, step: int)
      requires step > 0 && Keyed(rows) && HasBlocks(rows, blocks)
      ensures Valid() && View() == Db(blocks, Some(rows), {}, map[])
    {
      this.blocks, this.legacy, this.table, this.dates, this.step := blocks, Some(rows), {}, map[], step;
    }

    method GetMigrationDates() returns (pending: seq<int>)
      modifies this`dates
      ensures View() == WithDates(old(View())) && IsPending(dates, pending)
      ensures forall i, j :: 0 <= i < j < |pending| ==> pending[i] > pending[j]
    {
      dates := map d | d in dates.Keys + BlockDays(blocks) :: d in dates && dates[d];
      pending := [];
      var left := set d | d in dates && !dates[d];
      while left != {}
        invariant View() == WithDates(old(View())) && Descending(pending)
        invariant forall d :: d in pending ==> d !in left
        invariant forall d :: d in pending || d in left <==> d in dates && !dates[d]
      {
        SomeMember(left);
        var d :| d in left;
        InsertDownDescending(d, pending);
        pending, left := InsertDown(d, pending), left - {d};
      }
    }

    /** One day in one database transaction; `commits` tells whether it goes through or is rolled back. */
    method DoMigration(date: int, commits: bool) returns (ok: bool)
      requires Valid() && legacy.Some?
      modifies this`table, this`dates
      ensures ok == commits
      ensures View() == if ok then MigrateDay(old(View()), date) else old(View())
    {
      var startDate, endDate := date * DAY, (date + 1) * DAY;
      var blocksTemp := map b | b in blocks && startDate <= blocks[b].createdAt < endDate :: blocks[b];
      var day := set t | t in legacy.value && startDate <= t.createdAt < endDate;
      var temp := set t | t in day :: Stored(blocksTemp, t);
      var moves := Chunks(startDate, endDate, step);
      var moved := table;
      MovedNothing(table, day, blocks, startDate);
      assert Keyed(day) by {
        LegacyIsKeyed();
      }
      TilingEnds(moves, startDate, endDate);
      hide Moved, InsertIgnore, Stored, Sound, Keyed, Tiling, Holds;
      for i := 0 to |moves|
        invariant View() == old(View())
        invariant moved == Moved(table, day, blocks, startDate, if i == 0 then startDate else moves[i - 1].1)
      {
        var chunk := set r | r in temp && Holds(moves[i], r.tx.createdAt);
        ChunkOf(day, blocksTemp, temp, chunk, moves[i]);
        MoveChunk(table, day, blocks, startDate, moves[i].0, moves[i].1, chunk);
        moved := InsertIgnore(moved, chunk, blocks);
      }
      if !commits {
        return false;
      }
      MovedWithin(table, day, blocks, startDate, endDate, moves[|moves| - 1].1);
      MovedFromDay(table, legacy.value, day, blocks, startDate, endDate);
      table, dates := moved, dates[date := true];
      return true;
    }

    lemma LegacyIsKeyed()
      requires Valid() && legacy.Some?
      ensures forall day: set<Tx> :: day <= legacy.value ==> Keyed(day)
    {
    }

    /**
     A whole session. `commits[i]` tells whether the transaction of the i-th day goes
     through; a failure ends the session, as a crash would.
     */
    method Migrate(commits: seq<bool>, drops: bool) returns (pending: seq<int>, done: nat)
      requires Valid()
      modifies this
      ensures Valid()
      ensures old(legacy).None? ==> View() == old(View())
      ensures old(legacy).Some? ==>
        && IsPending(WithDates(old(View())).dates, pending) && done <= |pending|
        && (if legacy.None? then done == |pending| && View() == AllDays(WithDates(old(View())), pending).(legacy := None)
            else View() == AllDays(WithDates(old(View())), pending[..done]))
    {
      pending, done := [], 0;
      if legacy.None? {
        return;
      }
      pending := GetMigrationDates();
      ghost var start := View();
      assert pending[..0] == [];
      while done < |pending|
        invariant done <= |pending| && legacy == old(legacy) && Valid()
        invariant View() == AllDays(start, pending[..done])
      {
        hide MigrateDay, Sound;
        assert pending[..done + 1][..done] == pending[..done];
        DayKeepsSound(View(), pending[done]);
        var ok := DoMigration(pending[done], done < |commits| && commits[done]);
        if !ok {
          return;
        }
        done := done + 1;
      }
      assert pending[..done] == pending;
      if drops {
        legacy := None;
      }
    }
  }

  lemma ChunkOf(day: set<Tx>, blocksTemp: map<int, Block>, temp: set<Row>, chunk: set<Row>, move: (int, int))
    requires temp == set t | t in day :: Stored(blocksTemp, t)
    requires chunk == set r | r in temp && Holds(move, r.tx.createdAt)
    ensures forall r :: r in chunk ==> r.tx in day && move.0 <= r.tx.createdAt < move.1
    ensures forall t :: t in day && move.0 <= t.createdAt < move.1 ==> exists r :: r in chunk && r.tx == t
  {
    forall t | t in day && move.0 <= t.createdAt < move.1
      ensures exists r :: r in chunk && r.tx == t
    {
      assert Stored(blocksTemp, t) in chunk;
    }
  }

  lemma TilingEnds(chunks: seq<(int, int)>, start: int, end: int)
    requires Tiling(chunks, start, end) && start < end
    ensures chunks != [] && chunks[|chunks| - 1].1 >= end
    ensures forall i :: 0 <= i < |chunks| ==> start <= chunks[i].0 <= chunks[i].1
    ensures forall i :: 0 <= i < |chunks| ==> chunks[i].0 == if i == 0 then start else chunks[i - 1].1
  {
    forall i | 0 < i < |chunks|
      ensures start <= chunks[i].0
    {
      StartsAscend(chunks, start, end, 0, i);
    }
  }

  lemma DayKeepsSound(db: Db, d: int)
    requires Sound(db) && db.legacy.Some?
    ensures Sound(MigrateDay(db, d))
  {
  }
}
