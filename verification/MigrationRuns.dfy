/**
 Whole lives of the migration: sessions that crash between commits and are started
 again, with blocks and transactions arriving meanwhile.
 */
module MigrationRuns {
  import opened Common
  import opened Migrations

  datatype State = State(db: Db, pending: Option<seq<int>>)

  datatype Event =
    | NewBlock(id: int, block: Block)
    | NewTx(tx: Tx)
    | Open(days: seq<int>)
    | Commit
    | Crash
    | DropOld

  /** One step; a step whose conditions do not hold changes nothing. */
  ghost function Step(s: State, e: Event): State {
    match e
    case NewBlock(id, b) =>
      if id in s.db.blocks then s else s.(db := s.db.(blocks := s.db.blocks[id := b]))
    case NewTx(t) =>
      if t.blockId in s.db.blocks && Free(t, s.db.table)
      then s.(db := s.db.(table := s.db.table + {Stored(s.db.blocks, t)})) else s
    case Open(days) =>
      if s.pending.None? && s.db.legacy.Some? && IsPending(WithDates(s.db).dates, days)
      then State(WithDates(s.db), Some(days)) else s
    case Commit =>
      if s.pending.Some? && s.pending.value != [] && s.db.legacy.Some?
      then State(MigrateDay(s.db, s.pending.value[0]), Some(s.pending.value[1..])) else s
    case Crash => s.(pending := None)
    case DropOld =>
      if s.pending == Some([]) then State(s.db.(legacy := None), None) else s
  }

  ghost function Run(s: State, es: seq<Event>): State {
    if es == [] then s else Step(Run(s, es[..|es| - 1]), es[|es| - 1])
  }

  function Start(blocks: map<int, Block>, rows: set<Tx>): State {
    State(Db(blocks, Some(rows), {}, map[]), None)
  }

  /** The transactions that arrive during the run. */
  function Arrivals(es: seq<Event>): set<Tx> {
    set e | e in es && e.NewTx? :: e.tx
  }

  predicate IsMigrated(db: Db, d: int) {
    d in db.dates && db.dates[d]
  }

  /** What holds of the old rows `rows` throughout; `live` are the transactions that arrived. */
  ghost predicate Keeps(s: State, rows: set<Tx>, live: set<Tx>) {
    && Sound(s.db)
    && HasBlocks(rows, s.db.blocks)
    && (s.db.legacy.Some? ==> s.db.legacy.value == rows)
    && (forall t :: t in rows && IsMigrated(s.db, DayOf(t.createdAt)) ==> !Free(t, s.db.table))
    && (forall r :: r in s.db.table ==> r.tx in live || (r.tx in rows && IsMigrated(s.db, DayOf(r.tx.createdAt))))
  }

  /** What holds of the recorded days; `first` are the days of the blocks at the start. */
  ghost predicate Tracks(s: State, first: set<int>) {
    && s.db.dates.Keys <= BlockDays(s.db.blocks)
    && first <= BlockDays(s.db.blocks)
    && (s.pending.Some? ==> s.db.legacy.Some? && IsPending(s.db.dates, s.pending.value) && first <= s.db.dates.Keys)
    && (s.db.legacy.None? ==> first <= s.db.dates.Keys && forall d :: d in s.db.dates ==> s.db.dates[d])
  }

  /** A session that commits its first `k` days. */
  function Session(days: seq<int>, k: nat): seq<Event> {
    if k == 0 then [Open(days)] else Session(days, k - 1) + [Commit]
  }

  /** What `Migrator.Migrate` computes is such a run. */
  lemma {:induction false} SessionIsARun(db: Db, days: seq<int>, k: nat)
    requires db.legacy.Some? && IsPending(WithDates(db).dates, days) && k <= |days|
    ensures Run(State(db, None), Session(days, k)) == State(AllDays(WithDates(db), days[..k]), Some(days[k..]))
  {
    assert WithDates(db).legacy.Some?;
    hide IsPending, WithDates, MigrateDay, Free, Stored;
    if k == 0 {
      assert days[..0] == [] && days[0..] == days && [Open(days)][..0] == [];
    } else {
      SessionIsARun(db, days, k - 1);
      var es := Session(days, k - 1);
      assert (es + [Commit])[..|es|] == es;
      var s := Run(State(db, None), es);
      assert Run(State(db, None), Session(days, k)) == Step(s, Commit);
      hide Run, Session;
      assert days[..k][..k - 1] == days[..k - 1] && days[k - 1..][1..] == days[k..];
    }
  }

  // ------------------------------------------------------ one step at a time

  lemma BlockKeeps(s: State, e: Event, rows: set<Tx>, live: set<Tx>)
    requires Keeps(s, rows, live) && (e.NewBlock? || e.NewTx?)
    ensures Keeps(Step(s, e), rows, if e.NewTx? then live + {e.tx} else live)
  {
    if e.NewBlock? {
      assert Sound(Step(s, e).db);
    } else {
      var table := Step(s, e).db.table;
      assert s.db.table <= table;
      forall a, b | a in table && b in table && Clash(a.tx, b.tx)
        ensures a == b
      {
      }
      forall t | t in rows && IsMigrated(s.db, DayOf(t.createdAt))
        ensures !Free(t, table)
      {
        var r :| r in s.db.table && Clash(t, r.tx);
        assert r in table;
      }
    }
  }

  lemma CommitOrigin(db: Db, d: int, r: Row)
    requires db.legacy.Some? && r in MigrateDay(db, d).table && r !in db.table
    ensures r.tx in db.legacy.value && DayOf(r.tx.createdAt) == d
  {
  }

  lemma CommitKeeps(s: State, rows: set<Tx>, live: set<Tx>)
    requires Keeps(s, rows, live)
    ensures Keeps(Step(s, Commit), rows, live)
  {
  }

  lemma StepKeeps(s: State, e: Event, rows: set<Tx>, live: set<Tx>)
    requires Keeps(s, rows, live)
    ensures Keeps(Step(s, e), rows, if e.NewTx? then live + {e.tx} else live)
  {
    match e {
      case NewBlock(_, _) => BlockKeeps(s, e, rows, live);
      case NewTx(_) => BlockKeeps(s, e, rows, live);
      case Commit => CommitKeeps(s, rows, live);
      case Open(_) =>
        hide Free;
      case Crash =>
      case DropOld =>
    }
  }

  lemma CommitTracks(s: State, first: set<int>)
    requires Tracks(s, first)
    ensures Tracks(Step(s, Commit), first)
  {
  }

  lemma StepTracks(s: State, e: Event, first: set<int>)
    requires Tracks(s, first)
    ensures Tracks(Step(s, e), first)
  {
    match e {
      case NewBlock(id, b) =>
        if id !in s.db.blocks {
          DaysGrow(s.db.blocks, id, b);
        }
      case Commit => CommitTracks(s, first);
      case NewTx(_) =>
      case Open(_) =>
      case Crash =>
      case DropOld =>
    }
  }

  lemma DaysGrow(blocks: map<int, Block>, id: int, b: Block)
    requires id !in blocks
    ensures BlockDays(blocks) <= BlockDays(blocks[id := b])
  {
    var more := blocks[id := b];
    forall d | d in BlockDays(blocks)
      ensures d in BlockDays(more)
    {
      var k :| k in blocks && DayOf(blocks[k].createdAt) == d;
      assert k in more && more[k] == blocks[k];
    }
  }

  // -------------------------------------------------------------- all runs

  lemma {:induction false} RunKeeps(blocks: map<int, Block>, rows: set<Tx>, es: seq<Event>)
    requires Keyed(rows) && HasBlocks(rows, blocks)
    ensures Keeps(Run(Start(blocks, rows), es), rows, Arrivals(es))
    ensures Tracks(Run(Start(blocks, rows), es), BlockDays(blocks))
  {
    if es == [] {
    } else {
      var init, e := es[..|es| - 1], es[|es| - 1];
      assert es == init + [e];
      hide Keeps, Tracks;
      RunKeeps(blocks, rows, init);
      StepKeeps(Run(Start(blocks, rows), init), e, rows, Arrivals(init));
      StepTracks(Run(Start(blocks, rows), init), e, BlockDays(blocks));
      ArrivalsSnoc(init, e);
    }
  }

  lemma ArrivalsSnoc(es: seq<Event>, e: Event)
    ensures Arrivals(es + [e]) == if e.NewTx? then Arrivals(es) + {e.tx} else Arrivals(es)
  {
  }

  /** No transaction that arrives has the row id, or the place in a block, of an old row. */
  predicate Apart(rows: set<Tx>, live: set<Tx>) {
    forall t, x :: t in rows && x in live ==> !Clash(t, x)
  }

  /**
   In every run, whatever crashes and restarts it has and whatever arrives meanwhile, an
   old row is in the new table, with the height of its block, exactly when its day is
   marked as migrated. The new table never breaks its constraints.
   */
  lemma RowIsMovedIffDayIsMarked(blocks: map<int, Block>, rows: set<Tx>, es: seq<Event>, t: Tx)
    requires Keyed(rows) && HasBlocks(rows, blocks) && Apart(rows, Arrivals(es)) && t in rows
    ensures
      var db := Run(Start(blocks, rows), es).db;
      && Sound(db) && t.blockId in db.blocks
      && (Row(t, db.blocks[t.blockId].height) in db.table <==> IsMigrated(db, DayOf(t.createdAt)))
  {
    RunKeeps(blocks, rows, es);
    var db := Run(Start(blocks, rows), es).db;
    hide Run, Tracks;
    assert Clash(t, t);
    if IsMigrated(db, DayOf(t.createdAt)) {
      var r :| r in db.table && Clash(t, r.tx);
      assert r.tx !in Arrivals(es);
      assert r.tx == t;
    }
  }

  /** Whatever arrives, a migrated day leaves none of its rows without a row under the same key. */
  lemma MarkedDaysAreCovered(blocks: map<int, Block>, rows: set<Tx>, es: seq<Event>, t: Tx)
    requires Keyed(rows) && HasBlocks(rows, blocks) && t in rows
    ensures
      var db := Run(Start(blocks, rows), es).db;
      IsMigrated(db, DayOf(t.createdAt)) ==> exists r :: r in db.table && Clash(t, r.tx) && (r.tx == t || r.tx in Arrivals(es))
  {
    RunKeeps(blocks, rows, es);
    var db := Run(Start(blocks, rows), es).db;
    hide Run, Tracks;
    if IsMigrated(db, DayOf(t.createdAt)) {
      var r :| r in db.table && Clash(t, r.tx);
      assert r.tx == t || r.tx in Arrivals(es);
    }
  }

  /**
   The old table is gone only once every recorded day is migrated; and then no old row is
   lost exactly when the day of each is recorded. The recorded days lie between those
   of the blocks at the start and those of the blocks now.
   */
  lemma NothingLostIffDaysRecorded(blocks: map<int, Block>, rows: set<Tx>, es: seq<Event>)
    requires Keyed(rows) && HasBlocks(rows, blocks) && Apart(rows, Arrivals(es))
    ensures
      var db := Run(Start(blocks, rows), es).db;
      db.legacy.None? ==>
        && (forall d :: d in db.dates ==> db.dates[d])
        && BlockDays(blocks) <= db.dates.Keys <= BlockDays(db.blocks)
        && ((forall t :: t in rows ==> Stored(db.blocks, t) in db.table) <==> (forall t :: t in rows ==> DayOf(t.createdAt) in db.dates))
  {
    RunKeeps(blocks, rows, es);
    var db := Run(Start(blocks, rows), es).db;
    if db.legacy.None? {
      hide Run;
      forall t | t in rows
        ensures Stored(db.blocks, t) in db.table <==> DayOf(t.createdAt) in db.dates
      {
        RowIsMovedIffDayIsMarked(blocks, rows, es, t);
      }
    }
  }

  lemma {:induction false} RunConcat(s: State, es: seq<Event>, more: seq<Event>)
    ensures Run(s, es + more) == Run(Run(s, es), more)
    decreases |more|
  {
    if more == [] {
      assert es + more == es;
    } else {
      var init := more[..|more| - 1];
      assert (es + more)[..|es + more| - 1] == es + init && (es + more)[|es + more| - 1] == more[|more| - 1];
      RunConcat(s, es, init);
    }
  }

  lemma {:induction false} SessionArrivals(es: seq<Event>, days: seq<int>, k: nat)
    ensures Arrivals(es + Session(days, k)) == Arrivals(es)
  {
    if k == 0 {
      ArrivalsSnoc(es, Open(days));
    } else {
      SessionArrivals(es, days, k - 1);
      ArrivalsSnoc(es + Session(days, k - 1), Commit);
      assert es + Session(days, k) == (es + Session(days, k - 1)) + [Commit];
    }
  }

  lemma {:induction false} AllDaysDates(db: Db, days: seq<int>)
    requires db.legacy.Some? && forall d :: d in days ==> d in db.dates
    ensures AllDays(db, days).dates.Keys == db.dates.Keys && AllDays(db, days).blocks == db.blocks
  {
    if days == [] {
    } else {
      assert days[|days| - 1] in days;
      AllDaysDates(db, days[..|days| - 1]);
    }
  }

  /** A session that runs to its end, whatever came before it, loses no row exactly when the day of every old row is
      recorded already or is the day of a block. */
  lemma FullSessionLosesNothingIff(blocks: map<int, Block>, rows: set<Tx>, es: seq<Event>, days: seq<int>)
    requires Keyed(rows) && HasBlocks(rows, blocks) && Apart(rows, Arrivals(es))
    requires var s := Run(Start(blocks, rows), es);
      s.pending.None? && s.db.legacy.Some? && IsPending(WithDates(s.db).dates, days)
    ensures var before := Run(Start(blocks, rows), es).db;
      var after := Run(Start(blocks, rows), es + Session(days, |days|) + [DropOld]).db;
      && after.legacy.None?
      && ((forall t :: t in rows ==> Stored(after.blocks, t) in after.table) <==>
          (forall t :: t in rows ==> DayOf(t.createdAt) in before.dates || DayOf(t.createdAt) in BlockDays(before.blocks)))
  {
    var s, n := Run(Start(blocks, rows), es), |days|;
    var all := es + Session(days, n) + [DropOld];
    RunConcat(Start(blocks, rows), es, Session(days, n));
    RunConcat(Start(blocks, rows), es + Session(days, n), [DropOld]);
    assert [DropOld][..0] == [];
    SessionIsARun(s.db, days, n);
    assert days[..n] == days && days[n..] == [];
    AllDaysDates(WithDates(s.db), days);
    SessionArrivals(es, days, n);
    ArrivalsSnoc(es + Session(days, n), DropOld);
    hide Run, AllDays, IsPending;
    var after := Run(Start(blocks, rows), all).db;
    assert after == AllDays(WithDates(s.db), days).(legacy := None) by {
      DropsAll(AllDays(WithDates(s.db), days));
    }
    assert after.dates.Keys == s.db.dates.Keys + BlockDays(s.db.blocks);
    NothingLostIffDaysRecorded(blocks, rows, all);
  }

  lemma DropsAll(db: Db)
    ensures Run(State(db, Some([])), [DropOld]) == State(db.(legacy := None), None)
  {
    assert [DropOld][..0] == [];
  }

  /** A transaction logged just after midnight, its block just before, and no block after: it is lost. */
  lemma RowOfDayWithoutBlockIsLost()
    ensures
      var t := Tx(1, 7, 0, DAY, "");
      var start := Start(map[7 := Block(5, DAY - 1)], {t});
      var db := Run(start, [Open([0]), Commit, DropOld]).db;
      db.legacy.None? && forall r :: r in db.table ==> r.tx != t
  {
    var t := Tx(1, 7, 0, DAY, "");
    var blocks := map[7 := Block(5, DAY - 1)];
    var s0 := Start(blocks, {t});
    var es := [Open([0]), Commit, DropOld];
    assert es[..2] == [Open([0]), Commit] && es[..2][..1] == [Open([0])] && es[..1][..0] == [];
    OnlyDayZero(blocks);
    assert WithDates(s0.db).dates == map[0 := false];
    var s1 := Step(s0, Open([0]));
    assert s1 == State(s0.db.(dates := map[0 := false]), Some([0]));
    var s2 := Step(s1, Commit);
    assert [0][1..] == [] && s2.pending == Some([]);
    forall r | r in s2.db.table
      ensures r.tx != t
    {
      CommitOrigin(s1.db, 0, r);
    }
    assert Run(s0, es[..1]) == Step(Run(s0, []), Open([0])) == s1;
    assert Run(s0, es[..2]) == s2;
    assert Run(s0, es) == Step(s2, DropOld);
  }

  lemma OnlyDayZero(blocks: map<int, Block>)
    requires blocks == map[7 := Block(5, DAY - 1)]
    ensures BlockDays(blocks) == {0}
  {
    assert 7 in blocks && DayOf(blocks[7].createdAt) == 0;
  }

  /** In every reachable state no two rows of the new table share a row id, or a place in a block. */
  lemma KeysStayUnique(blocks: map<int, Block>, rows: set<Tx>, es: seq<Event>, a: Row, b: Row)
    requires Keyed(rows) && HasBlocks(rows, blocks)
    requires a in Run(Start(blocks, rows), es).db.table && b in Run(Start(blocks, rows), es).db.table && a != b
    ensures a.tx.rowid != b.tx.rowid && (a.tx.blockId != b.tx.blockId || a.tx.index != b.tx.index)
  {
    RunKeeps(blocks, rows, es);
  }
}
