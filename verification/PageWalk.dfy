/**
 Requests for pages, and the client that walks the whole list: the first page, then
 again and again the page before the oldest transaction it received, with the cursor
 passed through its printed form.
 */
module PageWalk {
  import opened Common
  import opened Ordering
  import opened TxCursors
  import opened Paging

  // ------------------------------------------------------------ requests

  /** A limit of zero is an absent limit. */
  datatype Request = Request(first: nat, last: nat, before: Option<string>, after: Option<string>)

  datatype RequestError = LimitsOnWindow | TwoLimits | BadCursor | BadWindow | FirstWithBefore | LastWithAfter

  function ParseOptional(s: Option<string>): Result<Option<TxCursor>, RequestError> {
    if s.None? then Ok(None)
    else
      var c := Parse(s.value);
      if c.Ok? then Ok(Some(c.value)) else Err(BadCursor)
  }

  /** How the request's limits and cursors become a query; `size` is the default page size. */
  function Interpret(r: Request, size: nat): Result<Query, RequestError> {
    var window := r.before.Some? && r.after.Some?;
    if window && (r.first > 0 || r.last > 0) then Err(LimitsOnWindow)
    else if r.first > 0 && r.last > 0 then Err(TwoLimits)
    else
      var before, after := ParseOptional(r.before), ParseOptional(r.after);
      if before.Err? then Err(before.error)
      else if after.Err? then Err(after.error)
      else if window && AreValidCursorBoundaries(after.value.value, before.value.value) then Err(BadWindow)
      else if r.first > 0 && r.before.Some? then Err(FirstWithBefore)
      else if r.first == 0 && r.last > 0 && r.after.Some? then Err(LastWithAfter)
      else
        var first := if r.first > 0 then r.first else if r.after.Some? then size else 0;
        var last := if r.first == 0 && r.last > 0 then r.last else if r.before.Some? then size else 0;
        Ok(Query(if !window && first == 0 && last == 0 then size else first, last, before.value, after.value))
  }

  function Answer(s: seq<TxRow>, matches: TxRow -> bool, size: nat, r: Request): Result<seq<TxRow>, RequestError> {
    var q := Interpret(r, size);
    if q.Err? then Err(q.error) else Ok(Page(s, matches, q.value))
  }

  /** The rows strictly between two cursors, newest first: what a window asks for. */
  function Between(s: seq<TxRow>, matches: TxRow -> bool, after: TxCursor, before: TxCursor): seq<TxRow> {
    Decodable(StableSort(Newest, Where(s, matches, Query(0, 0, Some(before), Some(after)))))
  }

  lemma {:induction false} EmptyWindow(s: seq<TxRow>, matches: TxRow -> bool, q: Query)
    requires q.before.Some? && q.after.Some? && !AreValidCursorBoundaries(q.after.value, q.before.value)
    ensures Where(s, matches, q) == []
  {
    if s == [] {
    } else {
      EmptyWindow(s[1..], matches, q);
    }
  }

  /**
   A request for the window between two cursors is answered with that window exactly
   when the cursors do not bound one: `after` older than `before` is refused, and
   every window that is let through selects nothing.
   */
  lemma WindowsAnsweredIffEmpty(s: seq<TxRow>, matches: TxRow -> bool, size: nat, after: TxCursor, before: TxCursor)
    requires InRange(after) && InRange(before)
    ensures
      var r := Request(0, 0, Some(Print(before)), Some(Print(after)));
      && (Answer(s, matches, size, r) == Ok(Between(s, matches, after, before)) <==> !AreValidCursorBoundaries(after, before))
      && (Answer(s, matches, size, r).Ok? ==> Answer(s, matches, size, r).value == [])
  {
    PrintThenParse(before);
    PrintThenParse(after);
    hide Parse, Print;
    var r := Request(0, 0, Some(Print(before)), Some(Print(after)));
    if !AreValidCursorBoundaries(after, before) {
      EmptyWindow(s, matches, Interpret(r, size).value);
      EmptyWindow(s, matches, Query(0, 0, Some(before), Some(after)));
    }
  }

  /** The window of the source's own example, after 3.1 and before 4.2, is refused. */
  lemma ExampleWindowRefused(size: nat)
    ensures Interpret(Request(0, 0, Some("4.2"), Some("3.1")), size) == Err(BadWindow)
  {
    PrintThenParse(TxCursor(4, 2));
    PrintThenParse(TxCursor(3, 1));
    assert Print(TxCursor(4, 2)) == "4.2" && Print(TxCursor(3, 1)) == "3.1";
  }

  // ------------------------------------------------------------- the walk

  function FirstPage(n: nat): Request {
    Request(n, 0, None, None)
  }

  function PageBefore(n: nat, c: TxCursor): Request {
    Request(0, n, Some(Print(c)), None)
  }

  /** What `before` selects: everything at first, then the rows older than the last one seen. */
  function Left(s: seq<TxRow>, matches: TxRow -> bool, before: Option<TxCursor>): seq<TxRow> {
    Where(s, matches, Query(0, 0, before, None))
  }

  function NextRequest(n: nat, before: Option<TxCursor>): Request {
    if before.None? then FirstPage(n) else PageBefore(n, before.value)
  }

  lemma {:induction false} WhereIgnoresLimits(s: seq<TxRow>, matches: TxRow -> bool, q: Query, first: nat, last: nat)
    ensures Where(s, matches, q) == Where(s, matches, q.(first := first, last := last))
  {
    if s == [] {
    } else {
      WhereIgnoresLimits(s[1..], matches, q, first, last);
    }
  }

  /** The newest `n` rows that are left, as far as they can be decoded. */
  function NewestLeft(s: seq<TxRow>, matches: TxRow -> bool, n: nat, before: Option<TxCursor>): seq<TxRow> {
    var rows := StableSort(Newest, Left(s, matches, before));
    Decodable(rows[..Min(n, |rows|)])
  }

  /** Each request of the walk is accepted, and answered with the newest rows that are left. */
  lemma NextPage(s: seq<TxRow>, matches: TxRow -> bool, size: nat, n: nat, before: Option<TxCursor>)
    requires n > 0 && (before.Some? ==> InRange(before.value))
    ensures Answer(s, matches, size, NextRequest(n, before)) == Ok(NewestLeft(s, matches, n, before))
  {
    if before.Some? {
      PrintThenParse(before.value);
    }
    hide Parse, Print, StableSort, Decodable, Where, InRange;
    var q := if before.None? then Query(n, 0, None, None) else Query(0, n, before, None);
    assert Interpret(NextRequest(n, before), size) == Ok(q);
    WhereIgnoresLimits(s, matches, q, 0, 0);
  }

  lemma {:induction false} FewerRows(s: seq<TxRow>, matches: TxRow -> bool, wide: Query, narrow: Query, r: TxRow)
    requires forall x :: x in s && Within(x, narrow) ==> Within(x, wide)
    ensures |Where(s, matches, narrow)| <= |Where(s, matches, wide)|
    ensures r in s && matches(r) && Within(r, wide) && !Within(r, narrow) ==> |Where(s, matches, narrow)| < |Where(s, matches, wide)|
  {
    hide Within;
    if s == [] {
    } else {
      assert s == [s[0]] + s[1..];
      FewerRows(s[1..], matches, wide, narrow, r);
    }
  }

  /** The rows of a page are among those left, so fewer are left after it. */
  lemma FewerLeft(s: seq<TxRow>, matches: TxRow -> bool, n: nat, before: Option<TxCursor>)
    requires Table(s)
    ensures
      var page := NewestLeft(s, matches, n, before);
      page != [] ==>
        var c := CursorOf(page[|page| - 1]);
        InRange(c) && |Left(s, matches, Some(c))| < |Left(s, matches, before)|
  {
    hide InRange;
    var page := NewestLeft(s, matches, n, before);
    var rows := StableSort(Newest, Left(s, matches, before));
    if page != [] {
      var r := page[|page| - 1];
      assert r in page;
      DecodableMembers(rows[..Min(n, |rows|)]);
      StableSortMembers(Newest, Left(s, matches, before));
      assert r in rows;
      WhereMembers(s, matches, Query(0, 0, before, None));
      FewerRows(s, matches, Query(0, 0, before, None), Query(0, 0, Some(CursorOf(r)), None), r);
    }
  }

  /** All transactions a client receives, in the order received, until a page comes back empty. */
  function Walk(s: seq<TxRow>, matches: TxRow -> bool, size: nat, n: nat, before: Option<TxCursor>): seq<TxRow>
    requires Table(s) && n > 0 && (before.Some? ==> InRange(before.value))
    decreases |Left(s, matches, before)|
  {
    NextPage(s, matches, size, n, before);
    FewerLeft(s, matches, n, before);
    var page := Answer(s, matches, size, NextRequest(n, before)).value;
    if page == [] then [] else page + Walk(s, matches, size, n, Some(CursorOf(page[|page| - 1])))
  }

  // --------------------------------------------- the walk over a sorted list

  /** No decodable row stands after `n` rows in a row that cannot be decoded. */
  ghost predicate NoLongGap(t: seq<TxRow>, n: nat) {
    forall i :: 0 <= i && i + n <= |t| && Decodable(t[i..i + n]) == [] ==> Decodable(t[i..]) == []
  }

  /** The walk on the list itself: take `n`, go on after the last one that decodes. */
  function Strides(t: seq<TxRow>, n: nat): seq<TxRow>
    requires n > 0
    decreases |t|
  {
    var k := LastDecodable(t[..Min(n, |t|)]);
    if k < 0 then [] else Decodable(t[..Min(n, |t|)]) + Strides(t[k + 1..], n)
  }

  function LastDecodable(t: seq<TxRow>): (k: int)
    ensures -1 <= k < |t|
    ensures k >= 0 ==> t[k].decodable
    ensures forall i :: k < i < |t| ==> !t[i].decodable
  {
    if t == [] then -1 else if t[|t| - 1].decodable then |t| - 1 else LastDecodable(t[..|t| - 1])
  }

  lemma {:induction false} NoneDecodable(t: seq<TxRow>)
    ensures Decodable(t) == [] <==> forall i :: 0 <= i < |t| ==> !t[i].decodable
  {
    DecodableMembers(t);
    forall i | 0 <= i < |t|
      ensures Decodable(t) == [] ==> !t[i].decodable
    {
      assert t[i] in t;
    }
    if forall i :: 0 <= i < |t| ==> !t[i].decodable {
      NothingIn(t);
    }
  }

  lemma {:induction false} NothingIn(t: seq<TxRow>)
    requires forall i :: 0 <= i < |t| ==> !t[i].decodable
    ensures Decodable(t) == []
  {
    if t == [] {
    } else {
      NothingIn(t[1..]);
    }
  }

  lemma DecodableUpTo(t: seq<TxRow>, k: int)
    requires -1 <= k < |t| && (k >= 0 ==> t[k].decodable) && forall i :: k < i < |t| ==> !t[i].decodable
    ensures Decodable(t) == Decodable(t[..k + 1])
    ensures k >= 0 ==> Decodable(t) != [] && Decodable(t)[|Decodable(t)| - 1] == t[k]
    ensures k < 0 ==> Decodable(t) == []
  {
    assert t == t[..k + 1] + t[k + 1..];
    DecodableConcat(t[..k + 1], t[k + 1..]);
    NoneDecodable(t[k + 1..]);
    if k >= 0 {
      DecodableSnoc(t, k);
    }
  }

  /** Gaps that matter lie behind the last decodable row of the first stretch. */
  lemma GapsBehind(t: seq<TxRow>, n: nat, k: nat)
    requires k < n && k < |t| && t[k].decodable
    ensures NoLongGap(t, n) <==> NoLongGap(t[k + 1..], n)
  {
    var rest := t[k + 1..];
    forall i | 0 <= i && i + n <= |t|
      ensures i <= k ==> Decodable(t[i..i + n]) != []
      ensures i > k ==> t[i..i + n] == rest[i - k - 1..i - k - 1 + n] && t[i..] == rest[i - k - 1..]
    {
      if i <= k {
        NoneDecodable(t[i..i + n]);
        assert t[i..i + n][k - i] == t[k];
      }
    }
    forall j | 0 <= j && j + n <= |rest|
      ensures rest[j..j + n] == t[j + k + 1..j + k + 1 + n] && rest[j..] == t[j + k + 1..]
    {
    }
  }

  lemma {:induction false} StridesCoverIff(t: seq<TxRow>, n: nat)
    requires n > 0
    ensures Strides(t, n) == Decodable(t) <==> NoLongGap(t, n)
    decreases |t|
  {
    hide Decodable, NoLongGap, LastDecodable;
    var m := Min(n, |t|);
    var k := LastDecodable(t[..m]);
    DecodableUpTo(t[..m], k);
    if k < 0 {
      StuckAtStart(t, n);
    } else {
      StridesCoverIff(t[k + 1..], n);
      GapsBehind(t, n, k);
      assert t[..m][..k + 1] == t[..k + 1] && t == t[..k + 1] + t[k + 1..];
      DecodableConcat(t[..k + 1], t[k + 1..]);
      SamePrefix(Decodable(t[..k + 1]), Strides(t[k + 1..], n), Decodable(t[k + 1..]));
    }
  }

  lemma SamePrefix<T>(p: seq<T>, a: seq<T>, b: seq<T>)
    ensures p + a == p + b <==> a == b
  {
    assert (p + a)[|p|..] == a && (p + b)[|p|..] == b;
  }

  lemma StuckAtStart(t: seq<TxRow>, n: nat)
    requires n > 0 && Decodable(t[..Min(n, |t|)]) == []
    ensures Decodable(t) == [] <==> NoLongGap(t, n)
  {
    assert t[0..] == t;
    if |t| < n {
      assert t[..|t|] == t;
    } else {
      assert t[0..n] == t[..n];
      NoneDecodable(t);
      forall i | 0 <= i <= |t|
        ensures Decodable(t) == [] ==> Decodable(t[i..]) == []
      {
        NoneDecodable(t[i..]);
      }
    }
  }

  // ------------------------------------------------------------ the theorem

  lemma {:induction false} OlderWithKey(s: seq<TxRow>, matches: TxRow -> bool, c: TxCursor, k: int)
    requires Table(s) && InRange(c)
    ensures WithKey(Newest, Left(s, matches, Some(c)), k) == if k > -Position(c) then WithKey(Newest, Left(s, matches, None), k) else []
  {
    if s == [] {
    } else {
      OlderWithKey(s[1..], matches, c, k);
      PositionIsChainOrder(CursorOf(s[0]), c);
      hide Position, AreValidCursorBoundaries, InRange;
      var rest, older := Left(s[1..], matches, None), Left(s[1..], matches, Some(c));
      assert Left(s, matches, None) == if matches(s[0]) then [s[0]] + rest else rest;
      assert Left(s, matches, Some(c)) == if matches(s[0]) && AreValidCursorBoundaries(CursorOf(s[0]), c) then [s[0]] + older else older;
      assert WithKey(Newest, [s[0]] + rest, k) == (if Newest(s[0]) == k then [s[0]] else []) + WithKey(Newest, rest, k) by {
        assert ([s[0]] + rest)[1..] == rest;
      }
      assert WithKey(Newest, [s[0]] + older, k) == (if Newest(s[0]) == k then [s[0]] else []) + WithKey(Newest, older, k) by {
        assert ([s[0]] + older)[1..] == older;
      }
    }
  }

  lemma {:induction false} KeysOfSuffix(t: seq<TxRow>, i: nat, k: int)
    requires NewestFirst(t) && i < |t|
    ensures WithKey(Newest, t[i + 1..], k) == if k > Newest(t[i]) then WithKey(Newest, t, k) else []
  {
    hide Position;
    assert t == t[..i + 1] + t[i + 1..];
    WithKeyConcat(Newest, t[..i + 1], t[i + 1..], k);
    if k > Newest(t[i]) {
      forall r | r in t[..i + 1]
        ensures Newest(r) != k
      {
      }
      WithKeyNone(Newest, t[..i + 1], k);
    } else {
      forall r | r in t[i + 1..]
        ensures Newest(r) != k
      {
      }
      WithKeyNone(Newest, t[i + 1..], k);
    }
  }

  /** The rows before a cursor taken from the sorted list are the rest of that list. */
  lemma OlderIsTheRest(s: seq<TxRow>, matches: TxRow -> bool, i: nat)
    requires Table(s) && i < |StableSort(Newest, Left(s, matches, None))|
    ensures
      var t := StableSort(Newest, Left(s, matches, None));
      InRange(CursorOf(t[i])) && StableSort(Newest, Left(s, matches, Some(CursorOf(t[i])))) == t[i + 1..]
  {
    hide Position, InRange, StableSort, Left;
    var all := Left(s, matches, None);
    var t := StableSort(Newest, all);
    WhereIsTable(s, matches, Query(0, 0, None, None));
    assert Table(all) by {
      LeftAll(s, matches);
    }
    SortedTable(all);
    StableSortCorrect(Newest, all);
    var c := CursorOf(t[i]);
    var older := Left(s, matches, Some(c));
    forall k
      ensures WithKey(Newest, t[i + 1..], k) == WithKey(Newest, older, k)
    {
      KeysOfSuffix(t, i, k);
      OlderWithKey(s, matches, c, k);
    }
    SortIsTheStableSort(Newest, t[i + 1..], older);
  }

  lemma LeftAll(s: seq<TxRow>, matches: TxRow -> bool)
    requires Table(s)
    ensures Table(Left(s, matches, None))
  {
    WhereIsTable(s, matches, Query(0, 0, None, None));
  }

  lemma PageOfRest(s: seq<TxRow>, matches: TxRow -> bool, n: nat, before: Option<TxCursor>, i: nat)
    requires Table(s)
    requires var t := StableSort(Newest, Left(s, matches, None));
             i <= |t| && (if before.None? then i == 0 else i > 0 && before.value == CursorOf(t[i - 1]))
    ensures
      var rest := StableSort(Newest, Left(s, matches, None))[i..];
      0 <= Min(n, |rest|) <= |rest| && NewestLeft(s, matches, n, before) == Decodable(rest[..Min(n, |rest|)])
  {
    hide Decodable, Left, StableSort, InRange, Table;
    if before.Some? {
      OlderIsTheRest(s, matches, i - 1);
    }
    assert StableSort(Newest, Left(s, matches, before)) == StableSort(Newest, Left(s, matches, None))[i..];
  }

  /** The walk through requests and printed cursors is the walk along the sorted list. */
  lemma {:induction false} WalkIsStrides(s: seq<TxRow>, matches: TxRow -> bool, size: nat, n: nat, before: Option<TxCursor>, i: nat)
    requires Table(s) && n > 0 && (before.Some? ==> InRange(before.value))
    requires var t := StableSort(Newest, Left(s, matches, None));
             i <= |t| && (if before.None? then i == 0 else i > 0 && before.value == CursorOf(t[i - 1]))
    ensures Walk(s, matches, size, n, before) == Strides(StableSort(Newest, Left(s, matches, None))[i..], n)
    decreases |Left(s, matches, before)|
  {
    hide Decodable, Answer, NextRequest, Left, StableSort, InRange, LastDecodable, Table, NewestLeft, Min;
    var t := StableSort(Newest, Left(s, matches, None));
    var rest := t[i..];
    var m := Min(n, |rest|);
    PageOfRest(s, matches, n, before, i);
    var page := Decodable(rest[..m]);
    NextPage(s, matches, size, n, before);
    FewerLeft(s, matches, n, before);
    var k := LastDecodable(rest[..m]);
    DecodableUpTo(rest[..m], k);
    if k < 0 {
    } else {
      var c := CursorOf(page[|page| - 1]);
      assert c == CursorOf(t[i + k]);
      WalkIsStrides(s, matches, size, n, Some(c), i + k + 1);
      assert rest[k + 1..] == t[i + k + 1..];
    }
  }

  /**
   Walking the list with pages of any size receives every decodable transaction once, in
   reverse chain order, exactly when no page-long run of undecodable rows has a
   decodable row behind it.
   */
  lemma WalkReceivesAllIff(s: seq<TxRow>, matches: TxRow -> bool, size: nat, n: nat)
    requires Table(s) && n > 0
    ensures
      var t := StableSort(Newest, Left(s, matches, None));
      Walk(s, matches, size, n, None) == Decodable(t) <==> NoLongGap(t, n)
  {
    var t := StableSort(Newest, Left(s, matches, None));
    WalkIsStrides(s, matches, size, n, None, 0);
    assert t[0..] == t;
    StridesCoverIff(t, n);
  }

  /** Pages of one: an undecodable newest row hides the transaction behind it. */
  lemma UndecodableRowEndsTheWalk(size: nat)
    ensures
      var behind, broken := TxRow(1, 0, true, ""), TxRow(2, 0, false, "");
      Table([behind, broken]) && Walk([behind, broken], r => true, size, 1, None) == []
  {
    var behind, broken := TxRow(1, 0, true, ""), TxRow(2, 0, false, "");
    var s, all := [behind, broken], (r: TxRow) => true;
    assert s[1..] == [broken] && Table(s);
    assert Where([broken], all, Query(0, 0, None, None)) == [broken];
    assert Left(s, all, None) == [behind] + [broken] == s;
    assert StableSort(Newest, [broken]) == [broken];
    assert Insert(Newest, behind, [broken]) == [broken] + Insert(Newest, behind, []) == [broken, behind];
    assert StableSort(Newest, s) == [broken, behind];
    assert [broken, behind][..1] == [broken];
    assert Decodable([broken]) == [];
    NextPage(s, all, size, 1, None);
  }

  lemma {:induction false} AllDecodable(t: seq<TxRow>)
    requires forall r :: r in t ==> r.decodable
    ensures Decodable(t) == t
  {
    if t == [] {
    } else {
      assert t == [t[0]] + t[1..] && t[0] in t;
      AllDecodable(t[1..]);
    }
  }

  /** With every row decodable, the walk is the whole selection, once, newest first. */
  lemma WalkReceivesTheTable(s: seq<TxRow>, matches: TxRow -> bool, size: nat, n: nat)
    requires Table(s) && n > 0 && forall r :: r in s ==> r.decodable
    ensures
      var walk := Walk(s, matches, size, n, None);
      && NewestFirst(walk)
      && (forall r :: r in walk <==> r in s && matches(r))
  {
    hide Walk, Decodable, Position, InRange, NoLongGap, StableSort;
    var all := Left(s, matches, None);
    var t := StableSort(Newest, all);
    StableSortMembers(Newest, all);
    WhereMembers(s, matches, Query(0, 0, None, None));
    AllDecodable(t);
    assert NoLongGap(t, n) by {
      NoGapAtAll(t, n);
    }
    WalkReceivesAllIff(s, matches, size, n);
    LeftAll(s, matches);
    SortedTable(all);
  }

  lemma NoGapAtAll(t: seq<TxRow>, n: nat)
    requires n > 0 && forall r :: r in t ==> r.decodable
    ensures NoLongGap(t, n)
  {
  }
}
