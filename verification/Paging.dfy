/**
 Listing transactions page by page (blockexplorer/store/transactions.go), and the
 interpretation of a request's limits and cursors that precedes it
 (blockexplorer/api/grpc/implementation.go).

 The table is a sequence of rows in storage order. The SQL query is what it means:
 a filter, an order and a limit.
 */
module Paging {
  import opened Common
  import opened Ordering
  import opened TxCursors

  datatype TxRow = TxRow(block: nat, index: nat, decodable: bool, data: string)

  function CursorOf(r: TxRow): TxCursor {
    TxCursor(r.block, r.index)
  }

  function Oldest(r: TxRow): int {
    Position(CursorOf(r))
  }

  function Newest(r: TxRow): int {
    -Position(CursorOf(r))
  }

  /** 64-bit heights, 32-bit indexes, and no two rows at the same place in the chain. */
  predicate Table(s: seq<TxRow>) {
    && (forall i :: 0 <= i < |s| ==> InRange(CursorOf(s[i])))
    && (forall i, j :: 0 <= i < j < |s| ==> CursorOf(s[i]) != CursorOf(s[j]))
  }

  /** What reaches the store: limits (zero for none) and cursors. */
  datatype Query = Query(first: nat, last: nat, before: Option<TxCursor>, after: Option<TxCursor>)

  predicate Within(r: TxRow, q: Query) {
    && (q.before.Some? ==> AreValidCursorBoundaries(CursorOf(r), q.before.value))
    && (q.after.Some? ==> AreValidCursorBoundaries(q.after.value, CursorOf(r)))
  }

  function Where(s: seq<TxRow>, matches: TxRow -> bool, q: Query): seq<TxRow> {
    if s == [] then []
    else (if matches(s[0]) && Within(s[0], q) then [s[0]] else []) + Where(s[1..], matches, q)
  }

  function Decodable(s: seq<TxRow>): seq<TxRow> {
    if s == [] then [] else (if s[0].decodable then [s[0]] else []) + Decodable(s[1..])
  }

  function Limited(limit: nat, n: nat): nat {
    if limit == 0 then n else Min(limit, n)
  }

  function LimitOf(q: Query): nat {
    if q.first > 0 then q.first else q.last
  }

  /** Whether the limit counts from the oldest row of the selection. */
  predicate FromOldest(q: Query) {
    q.after.Some? || (q.before.None? && q.first == 0 && q.last > 0)
  }

  /**
   The answer, said without any query: of the selected rows, newest first, the leading
   or the trailing stretch of the asked length, less what cannot be decoded.
   */
  function Page(s: seq<TxRow>, matches: TxRow -> bool, q: Query): seq<TxRow> {
    var rows := StableSort(Newest, Where(s, matches, q));
    var n := Limited(LimitOf(q), |rows|);
    Decodable(if FromOldest(q) then rows[|rows| - n..] else rows[..n])
  }

  method ListTransactions(s: seq<TxRow>, matches: TxRow -> bool, q: Query) returns (txs: seq<TxRow>)
    requires Table(s)
    ensures txs == Page(s, matches, q)
  {
    hide Page;
    var limit, ascending := 0, false;
    if q.first > 0 {
      limit := q.first;
    } else if q.last > 0 {
      limit, ascending := q.last, true;
    }
    if q.before.Some? {
      ascending := false;
    }
    if q.after.Some? {
      ascending := true;
    }
    var selected := Where(s, matches, q);
    var ordered := StableSort(if ascending then Oldest else Newest, selected);
    var rows := ordered[..Limited(limit, |ordered|)];
    txs := [];
    for i := 0 to |rows|
      invariant txs == Decodable(rows[..i])
    {
      DecodableSnoc(rows, i);
      if rows[i].decodable {
        txs := txs + [rows[i]];
      }
    }
    assert rows[..|rows|] == rows;
    txs := StableSort(Newest, txs);
    FinalSort(s, matches, q, ordered);
  }

  // --------------------------------------------------------------- selecting

  lemma {:induction false} WhereMembers(s: seq<TxRow>, matches: TxRow -> bool, q: Query)
    ensures forall r :: r in Where(s, matches, q) <==> r in s && matches(r) && Within(r, q)
  {
    if s == [] {
    } else {
      WhereMembers(s[1..], matches, q);
      assert s == [s[0]] + s[1..];
    }
  }

  /** A row of the rest of a table stands elsewhere in the chain than the first row. */
  lemma ElsewhereInTable(s: seq<TxRow>)
    requires Table(s) && s != []
    ensures Table(s[1..]) && InRange(CursorOf(s[0]))
    ensures forall r :: r in s[1..] ==> CursorOf(r) != CursorOf(s[0])
  {
  }

  lemma ConsTable(r: TxRow, s: seq<TxRow>)
    requires Table(s) && InRange(CursorOf(r))
    requires forall x :: x in s ==> CursorOf(x) != CursorOf(r)
    ensures Table([r] + s)
  {
  }

  lemma {:induction false} WhereIsTable(s: seq<TxRow>, matches: TxRow -> bool, q: Query)
    requires Table(s)
    ensures Table(Where(s, matches, q))
  {
    hide Table, Within, InRange;
    if s == [] {
      EmptyTable();
    } else {
      ElsewhereInTable(s);
      WhereIsTable(s[1..], matches, q);
      WhereMembers(s[1..], matches, q);
      ConsTable(s[0], Where(s[1..], matches, q));
      assert Where(s, matches, q) == [s[0]] + Where(s[1..], matches, q) || Where(s, matches, q) == Where(s[1..], matches, q);
    }
  }

  lemma EmptyTable()
    ensures Table([])
  {
  }

  lemma {:induction false} DecodableMembers(s: seq<TxRow>)
    ensures forall r :: r in Decodable(s) <==> r in s && r.decodable
  {
    if s == [] {
    } else {
      DecodableMembers(s[1..]);
      assert s == [s[0]] + s[1..];
    }
  }

  lemma {:induction false} DecodableConcat(a: seq<TxRow>, b: seq<TxRow>)
    ensures Decodable(a + b) == Decodable(a) + Decodable(b)
  {
    if a == [] {
      assert a + b == b;
    } else {
      assert (a + b)[0] == a[0] && (a + b)[1..] == a[1..] + b;
      DecodableConcat(a[1..], b);
      var head := if a[0].decodable then [a[0]] else [];
      assert head + (Decodable(a[1..]) + Decodable(b)) == (head + Decodable(a[1..])) + Decodable(b);
    }
  }

  lemma DecodableSnoc(s: seq<TxRow>, i: nat)
    requires i < |s|
    ensures Decodable(s[..i + 1]) == Decodable(s[..i]) + if s[i].decodable then [s[i]] else []
  {
    TakeNext(s, i);
    DecodableConcat(s[..i], [s[i]]);
  }

  lemma {:induction false} DecodableIsTable(s: seq<TxRow>)
    requires Table(s)
    ensures Table(Decodable(s))
  {
    hide Table, InRange;
    if s == [] {
      EmptyTable();
    } else {
      ElsewhereInTable(s);
      DecodableIsTable(s[1..]);
      DecodableMembers(s[1..]);
      ConsTable(s[0], Decodable(s[1..]));
      assert Decodable(s) == [s[0]] + Decodable(s[1..]) || Decodable(s) == Decodable(s[1..]);
    }
  }

  // ---------------------------------------------------------------- ordering

  /** At each place in the chain at most one row. */
  lemma {:induction false} OneRowPerPlace(s: seq<TxRow>, k: int)
    requires Table(s)
    ensures |WithKey(Newest, s, k)| <= 1
    ensures WithKey(Oldest, s, -k) == WithKey(Newest, s, k)
  {
    if s == [] {
    } else {
      OneRowPerPlace(s[1..], k);
      if Newest(s[0]) == k {
        forall r | r in s[1..]
          ensures Newest(r) != k
        {
          var i :| 0 <= i < |s[1..]| && s[1..][i] == r;
          assert s[i + 1] == r;
          PositionIsChainOrder(CursorOf(s[0]), CursorOf(r));
        }
        WithKeyNone(Newest, s[1..], k);
      }
    }
  }

  ghost predicate NewestFirst(s: seq<TxRow>) {
    forall i, j :: 0 <= i < j < |s| ==> Oldest(s[j]) < Oldest(s[i])
  }

  function Reverse(s: seq<TxRow>): (r: seq<TxRow>)
    ensures |r| == |s|
    ensures forall i :: 0 <= i < |s| ==> r[i] == s[|s| - 1 - i]
  {
    if s == [] then [] else Reverse(s[1..]) + [s[0]]
  }

  lemma {:induction false} ReverseWithKey(s: seq<TxRow>, k: int)
    requires Table(s)
    ensures WithKey(Newest, Reverse(s), k) == WithKey(Newest, s, k)
  {
    hide Position, InRange;
    if s == [] {
    } else {
      ElsewhereInTable(s);
      hide Table;
      ReverseWithKey(s[1..], k);
      WithKeyConcat(Newest, Reverse(s[1..]), [s[0]], k);
      OneRowPerPlace(s, k);
      assert WithKey(Newest, [s[0]], k) == if Newest(s[0]) == k then [s[0]] else [];
      assert WithKey(Newest, s, k) == WithKey(Newest, [s[0]], k) + WithKey(Newest, s[1..], k);
    }
  }

  lemma DecodableOne(r: TxRow)
    ensures Decodable([r]) == if r.decodable then [r] else []
  {
    assert [r][1..] == [];
  }

  lemma {:induction false} ReverseDecodable(s: seq<TxRow>)
    ensures Decodable(Reverse(s)) == Reverse(Decodable(s))
  {
    if s == [] {
    } else {
      ReverseDecodable(s[1..]);
      DecodableConcat(Reverse(s[1..]), [s[0]]);
      DecodableOne(s[0]);
      var rest := Decodable(s[1..]);
      if s[0].decodable {
        assert Decodable(s) == [s[0]] + rest && ([s[0]] + rest)[1..] == rest;
      } else {
        assert Decodable(s) == rest && Reverse(rest) + [] == Reverse(rest);
      }
    }
  }

  /** A stretch of a newest-first list of rows is one too, and so is what can be decoded of it. */
  lemma {:induction false} DecodableNewestFirst(s: seq<TxRow>)
    requires NewestFirst(s)
    ensures NewestFirst(Decodable(s))
  {
    if s == [] {
    } else {
      DecodableNewestFirst(s[1..]);
      DecodableMembers(s[1..]);
    }
  }

  lemma SortingSorted(s: seq<TxRow>)
    requires NewestFirst(s)
    ensures StableSort(Newest, s) == s
  {
  }

  lemma SortingReversed(s: seq<TxRow>)
    requires Table(s) && NewestFirst(Reverse(s))
    ensures StableSort(Newest, s) == Reverse(s)
  {
    forall k
      ensures WithKey(Newest, Reverse(s), k) == WithKey(Newest, s, k)
    {
      ReverseWithKey(s, k);
    }
    SortIsTheStableSort(Newest, Reverse(s), s);
  }

  lemma NewestFirstIsTable(t: seq<TxRow>)
    requires NewestFirst(t) && forall r :: r in t ==> InRange(CursorOf(r))
    ensures Table(t)
  {
  }

  lemma TableKeys(s: seq<TxRow>)
    requires Table(s)
    ensures DistinctKeys(Newest, s)
  {
    forall i, j | 0 <= i < j < |s|
      ensures Newest(s[i]) != Newest(s[j])
    {
      PositionIsChainOrder(CursorOf(s[i]), CursorOf(s[j]));
    }
  }

  /** Sorting a table, newest first, gives a table in strict reverse chain order. */
  lemma SortedTable(s: seq<TxRow>)
    requires Table(s)
    ensures NewestFirst(StableSort(Newest, s)) && Table(StableSort(Newest, s))
  {
    hide Position, InRange, AreValidCursorBoundaries;
    var t := StableSort(Newest, s);
    StableSortCorrect(Newest, s);
    StableSortMembers(Newest, s);
    TableKeys(s);
    StableSortDistinct(Newest, s);
    NewestFirstIsTable(t);
  }

  lemma BackwardsWithKey(s: seq<TxRow>, k: int)
    requires Table(s)
    ensures WithKey(Oldest, Reverse(StableSort(Newest, s)), k) == WithKey(Oldest, s, k)
  {
    hide Table, Position, StableSort, InRange, WithKey;
    var down := StableSort(Newest, s);
    SortedTable(s);
    StableSortCorrect(Newest, s);
    ReversedIsTable(down);
    OneRowPerPlace(s, -k);
    OneRowPerPlace(Reverse(down), -k);
    ReverseWithKey(down, -k);
  }

  /** Ascending order is descending order backwards. */
  lemma OldestIsReversed(s: seq<TxRow>)
    requires Table(s)
    ensures Reverse(StableSort(Oldest, s)) == StableSort(Newest, s)
    ensures Table(StableSort(Oldest, s))
  {
    hide Table, Position, StableSort, InRange, WithKey;
    var down := StableSort(Newest, s);
    var back := Reverse(down);
    SortedTable(s);
    forall k
      ensures WithKey(Oldest, back, k) == WithKey(Oldest, s, k)
    {
      BackwardsWithKey(s, k);
    }
    assert SortedBy(Oldest, back);
    SortIsTheStableSort(Oldest, back, s);
    ReversedIsTable(down);
    assert Reverse(back) == down;
  }

  lemma ReversedIsTable(s: seq<TxRow>)
    requires Table(s)
    ensures Table(Reverse(s))
  {
  }

  /** The closing sort puts either order into the stretch that `Page` describes. */
  lemma FinalSort(s: seq<TxRow>, matches: TxRow -> bool, q: Query, ordered: seq<TxRow>)
    requires Table(s)
    requires ordered == StableSort(if FromOldest(q) then Oldest else Newest, Where(s, matches, q))
    ensures StableSort(Newest, Decodable(ordered[..Limited(LimitOf(q), |ordered|)])) == Page(s, matches, q)
  {
    hide Position, InRange, AreValidCursorBoundaries, StableSort, Where;
    WhereIsTable(s, matches, q);
    var selected := Where(s, matches, q);
    var down := StableSort(Newest, selected);
    SortedTable(selected);
    OldestIsReversed(selected);
    var n := Limited(LimitOf(q), |ordered|);
    if FromOldest(q) {
      SortTail(ordered, down, n);
    } else {
      DecodableNewestFirst(down[..n]);
      SortingSorted(Decodable(down[..n]));
    }
  }

  lemma HeadIsTable(s: seq<TxRow>, n: nat)
    requires Table(s) && n <= |s|
    ensures Table(s[..n])
  {
    hide InRange;
  }

  lemma TailNewestFirst(s: seq<TxRow>, i: nat)
    requires NewestFirst(s) && i <= |s|
    ensures NewestFirst(s[i..])
  {
    hide Position;
  }

  lemma SortTail(up: seq<TxRow>, down: seq<TxRow>, n: nat)
    requires Table(up) && Reverse(up) == down && NewestFirst(down) && n <= |up|
    ensures StableSort(Newest, Decodable(up[..n])) == Decodable(down[|down| - n..])
  {
    hide Table, Oldest, StableSort, Decodable, NewestFirst, Reverse;
    var head := up[..n];
    HeadIsTable(up, n);
    TailNewestFirst(down, |down| - n);
    assert Reverse(head) == down[|down| - n..];
    ReverseDecodable(head);
    DecodableNewestFirst(Reverse(head));
    DecodableIsTable(head);
    SortingReversed(Decodable(head));
  }
}
