/**
 What a page consists of (blockexplorer/store/transactions.go), row by row and in
 plain heights and indexes: which rows it may hold, which of them it takes when there
 are more than the limit, and how many.
 */
module PageContents {
  import opened Common
  import opened Ordering
  import opened TxCursors
  import opened Paging
  import opened PageWalk

  predicate Older(a: TxRow, b: TxRow) {
    a.block < b.block || (a.block == b.block && a.index < b.index)
  }

  /** On the right side of both cursors, which are left out themselves. */
  predicate Asked(r: TxRow, q: Query) {
    && (q.before.Some? ==> Older(r, TxRow(q.before.value.block, q.before.value.index, true, "")))
    && (q.after.Some? ==> Older(TxRow(q.after.value.block, q.after.value.index, true, ""), r))
  }

  lemma OlderIsPosition(a: TxRow, b: TxRow)
    requires InRange(CursorOf(a)) && InRange(CursorOf(b))
    ensures Older(a, b) <==> Oldest(a) < Oldest(b)
  {
    PositionIsChainOrder(CursorOf(a), CursorOf(b));
  }

  /** The stretch of the sorted selection a page is decoded from. */
  function Stretch(rows: seq<TxRow>, q: Query): seq<TxRow> {
    var n := Limited(LimitOf(q), |rows|);
    if FromOldest(q) then rows[|rows| - n..] else rows[..n]
  }

  lemma StretchPart(rows: seq<TxRow>, q: Query)
    ensures |Stretch(rows, q)| == Limited(LimitOf(q), |rows|) && forall r :: r in Stretch(rows, q) ==> r in rows
  {
  }

  lemma PageIsStretch(s: seq<TxRow>, matches: TxRow -> bool, q: Query)
    ensures Page(s, matches, q) == Decodable(Stretch(StableSort(Newest, Where(s, matches, q)), q))
  {
    hide StableSort, Where, Decodable;
  }

  lemma SelectionSorted(s: seq<TxRow>, matches: TxRow -> bool, q: Query)
    requires Table(s)
    ensures var rows := StableSort(Newest, Where(s, matches, q));
      && (forall i, j :: 0 <= i < j < |rows| ==> Older(rows[j], rows[i]))
      && (forall r :: r in rows <==> r in s && matches(r) && Asked(r, q))
  {
    var selected := Where(s, matches, q);
    var rows := StableSort(Newest, selected);
    WhereIsTable(s, matches, q);
    WhereMembers(s, matches, q);
    SortedTable(selected);
    StableSortMembers(Newest, selected);
    hide StableSort, Where, Position, Older, InRange;
    forall i, j | 0 <= i < j < |rows|
      ensures Older(rows[j], rows[i])
    {
      OlderIsPosition(rows[j], rows[i]);
    }
    forall r
      ensures Within(r, q) <==> Asked(r, q)
    {
      WithinIsAsked(r, q);
    }
  }

  lemma WithinIsAsked(r: TxRow, q: Query)
    ensures Within(r, q) <==> Asked(r, q)
  {
  }

  /** A page holds rows that were asked for, newest first. What it leaves out of them is newer than all of the page when the
      limit counts from the oldest, as after a cursor, and older otherwise. */
  lemma PageTakesNearest(s: seq<TxRow>, matches: TxRow -> bool, q: Query)
    requires Table(s)
    ensures var page := Page(s, matches, q);
      && (forall r :: r in page ==> r in s && matches(r) && Asked(r, q) && r.decodable)
      && (forall x, y :: x in page && y in s && matches(y) && Asked(y, q) && y.decodable && y !in page ==>
            if q.after.Some? || (q.before.None? && q.first == 0 && q.last > 0) then Older(x, y) else Older(y, x))
  {
    var rows := StableSort(Newest, Where(s, matches, q));
    var stretch := Stretch(rows, q);
    SelectionSorted(s, matches, q);
    DecodableMembers(stretch);
    StretchPart(rows, q);
    PageIsStretch(s, matches, q);
    hide StableSort, Where, Older, Asked, Decodable, Table, Stretch, Page;
    forall x, y | x in stretch && y in rows && y !in stretch
      ensures if FromOldest(q) then Older(x, y) else Older(y, x)
    {
      LeftOutBeyond(rows, q, x, y);
    }
  }

  lemma LeftOutBeyond(rows: seq<TxRow>, q: Query, x: TxRow, y: TxRow)
    requires forall i, j :: 0 <= i < j < |rows| ==> Older(rows[j], rows[i])
    requires x in Stretch(rows, q) && y in rows && y !in Stretch(rows, q)
    ensures if FromOldest(q) then Older(x, y) else Older(y, x)
  {
    hide Older;
    var n := Limited(LimitOf(q), |rows|);
    var from := if FromOldest(q) then |rows| - n else 0;
    var stretch := Stretch(rows, q);
    assert stretch == rows[from..from + n];
    var i :| 0 <= i < |stretch| && stretch[i] == x;
    var j :| 0 <= j < |rows| && rows[j] == y;
    forall k | from <= k < from + n
      ensures rows[k] in stretch
    {
      assert stretch[k - from] == rows[k];
    }
    assert rows[from + i] == x;
  }

  /** The rows asked for, wherever they stand. */
  function Matching(s: seq<TxRow>, matches: TxRow -> bool, q: Query): set<TxRow> {
    set r | r in s && matches(r) && Asked(r, q)
  }

  lemma MatchingHead(s: seq<TxRow>, matches: TxRow -> bool, q: Query)
    requires s != [] && s[0] !in s[1..]
    ensures |Matching(s, matches, q)| == |Matching(s[1..], matches, q)| + if matches(s[0]) && Asked(s[0], q) then 1 else 0
  {
    hide Asked;
    assert s == [s[0]] + s[1..];
    var head := if matches(s[0]) && Asked(s[0], q) then {s[0]} else {};
    assert Matching(s, matches, q) == head + Matching(s[1..], matches, q);
  }

  lemma {:induction false} WhereCounts(s: seq<TxRow>, matches: TxRow -> bool, q: Query)
    requires Table(s)
    ensures |Where(s, matches, q)| == |Matching(s, matches, q)|
  {
    if s == [] {
      assert Matching(s, matches, q) == {};
    } else {
      ElsewhereInTable(s);
      hide Table, Within, Asked, InRange, Matching;
      WhereCounts(s[1..], matches, q);
      WithinIsAsked(s[0], q);
      MatchingHead(s, matches, q);
    }
  }

  /** With every row decodable a page is as long as its limit allows: `first` if there is one, `last` if not, and all that was
      asked for if there is no limit. */
  lemma PageIsFull(s: seq<TxRow>, matches: TxRow -> bool, q: Query)
    requires Table(s) && forall r :: r in s ==> r.decodable
    ensures var asked := |Matching(s, matches, q)|;
      |Page(s, matches, q)| == if q.first > 0 then Min(q.first, asked) else if q.last > 0 then Min(q.last, asked) else asked
  {
    var selected := Where(s, matches, q);
    var rows := StableSort(Newest, selected);
    WhereMembers(s, matches, q);
    StableSortMembers(Newest, selected);
    WhereCounts(s, matches, q);
    SortKeepsLength(Newest, selected);
    StretchPart(rows, q);
    PageIsStretch(s, matches, q);
    hide StableSort, Where, Asked, Older, Decodable, Table, Matching, Within, Stretch, Page;
    AllDecodable(Stretch(rows, q));
  }

  /** The request for the first `n` after a cursor: with every row decodable, the answer is the `n` oldest rows beyond it, newest
      first, or all of them if there are fewer. */
  lemma FirstAfterCursor(s: seq<TxRow>, matches: TxRow -> bool, size: nat, n: nat, c: TxCursor)
    requires Table(s) && n > 0 && InRange(c) && forall r :: r in s ==> r.decodable
    ensures var answer := Answer(s, matches, size, Request(n, 0, None, Some(Print(c))));
      var beyond := set r | r in s && matches(r) && (c.block < r.block || (c.block == r.block && c.index < r.index));
      && answer.Ok? && |answer.value| == Min(n, |beyond|)
      && (forall r :: r in answer.value ==> r in beyond)
      && (forall x, y :: x in answer.value && y in beyond && y !in answer.value ==> Older(x, y))
  {
    var q := Query(n, 0, None, Some(c));
    PrintThenParse(c);
    assert Interpret(Request(n, 0, None, Some(Print(c))), size) == Ok(q);
    var beyond := set r | r in s && matches(r) && (c.block < r.block || (c.block == r.block && c.index < r.index));
    assert beyond == Matching(s, matches, q);
    PageTakesNearest(s, matches, q);
    PageIsFull(s, matches, q);
    hide Page, Interpret, Print;
  }

  // ---------------------------------------------------------- what is answered

  /** A request is refused exactly if it sets a limit on a window or two limits, names a cursor that does not parse, bounds a
      window, or asks for the first before or the last after a cursor. */
  lemma RefusedIff(r: Request, size: nat)
    ensures Interpret(r, size).Err? <==>
      || (r.before.Some? && r.after.Some? && (r.first > 0 || r.last > 0))
      || (r.first > 0 && r.last > 0)
      || (r.before.Some? && Parse(r.before.value).Err?)
      || (r.after.Some? && Parse(r.after.value).Err?)
      || (r.before.Some? && r.after.Some? && AreValidCursorBoundaries(Parse(r.after.value).value, Parse(r.before.value).value))
      || (r.first > 0 && r.before.Some?)
      || (r.last > 0 && r.after.Some?)
  {
    hide Parse, AreValidCursorBoundaries;
  }

  /** What an accepted request comes down to: its cursors, the limit it sets or else the default one, and counting from the
      oldest exactly after a cursor or for the last of all. */
  lemma AcceptedMeans(r: Request, size: nat)
    requires Interpret(r, size).Ok?
    ensures var q := Interpret(r, size).value;
      && (if r.before.Some? then Parse(r.before.value).Ok? && q.before == Some(Parse(r.before.value).value) else q.before == None)
      && (if r.after.Some? then Parse(r.after.value).Ok? && q.after == Some(Parse(r.after.value).value) else q.after == None)
      && (if q.first > 0 then q.first else q.last) == (if r.first > 0 then r.first else if r.last > 0 then r.last else size)
      && (FromOldest(q) <==> r.after.Some? || (r.before.None? && r.last > 0))
  {
    hide Parse, AreValidCursorBoundaries;
  }

  /** With every row decodable, an accepted request is answered with as many rows as it asks for, or the default page size, the
      nearest to where it counts from. */
  lemma AnsweredWithNearest(s: seq<TxRow>, matches: TxRow -> bool, size: nat, r: Request)
    requires Table(s) && size > 0 && Interpret(r, size).Ok? && forall x :: x in s ==> x.decodable
    ensures var answer := Answer(s, matches, size, r);
      var asked := Matching(s, matches, Interpret(r, size).value);
      && answer.Ok? && |answer.value| == Min(if r.first > 0 then r.first else if r.last > 0 then r.last else size, |asked|)
      && (forall x :: x in answer.value ==> x in asked)
      && (forall x, y :: x in answer.value && y in asked && y !in answer.value ==>
            if r.after.Some? || (r.before.None? && r.last > 0) then Older(x, y) else Older(y, x))
  {
    var q := Interpret(r, size).value;
    AcceptedMeans(r, size);
    PageTakesNearest(s, matches, q);
    PageIsFull(s, matches, q);
    hide Page, Interpret, Asked, Older, Parse;
  }
}
