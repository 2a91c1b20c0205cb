/**
 Sorting as the Go code uses it: `sort.SliceStable` by an integer key, and
 `sort.Strings` over the keys of a map.

 A stable sort is pinned down by two facts that do not mention any algorithm:
 the keys are in order, and for every key the elements carrying it come out in
 their original order. `StableSortUnique` says nothing else satisfies both.
 */
module Ordering {

  predicate SortedBy<T>(key: T -> int, s: seq<T>) {
    forall i, j :: 0 <= i < j < |s| ==> key(s[i]) <= key(s[j])
  }

  /** The elements of `s` whose key is `k`, in order. */
  function WithKey<T>(key: T -> int, s: seq<T>, k: int): (r: seq<T>) {
    if s == [] then []
    else (if key(s[0]) == k then [s[0]] else []) + WithKey(key, s[1..], k)
  }

  /** `out` holds the elements of `s` sorted by key, equal keys first in first out. */
  ghost predicate IsStableSort<T>(key: T -> int, out: seq<T>, s: seq<T>) {
    SortedBy(key, out) && forall k :: WithKey(key, out, k) == WithKey(key, s, k)
  }

  function Insert<T>(key: T -> int, x: T, s: seq<T>): (r: seq<T>) {
    if s == [] || key(x) <= key(s[0]) then [x] + s else [s[0]] + Insert(key, x, s[1..])
  }

  function StableSort<T>(key: T -> int, s: seq<T>): (r: seq<T>) {
    if s == [] then [] else Insert(key, s[0], StableSort(key, s[1..]))
  }

  lemma {:induction false} WithKeyConcat<T>(key: T -> int, a: seq<T>, b: seq<T>, k: int)
    ensures WithKey(key, a + b, k) == WithKey(key, a, k) + WithKey(key, b, k)
  {
    if a == [] {
      assert a + b == b;
    } else {
      var head := if key(a[0]) == k then [a[0]] else [];
      assert (a + b)[0] == a[0] && (a + b)[1..] == a[1..] + b;
      WithKeyConcat(key, a[1..], b, k);
      var x, y := WithKey(key, a[1..], k), WithKey(key, b, k);
      assert WithKey(key, a + b, k) == head + (x + y);
      assert head + (x + y) == (head + x) + y;
    }
  }

  lemma {:induction false} WithKeyMembers<T>(key: T -> int, s: seq<T>, k: int)
    ensures forall x :: x in WithKey(key, s, k) <==> x in s && key(x) == k
  {
    if s == [] {
    } else {
      WithKeyMembers(key, s[1..], k);
      assert s == [s[0]] + s[1..];
    }
  }

  lemma {:induction false} WithKeyAll<T>(key: T -> int, s: seq<T>, k: int)
    requires forall x :: x in s ==> key(x) == k
    ensures WithKey(key, s, k) == s
    ensures forall k' :: k' != k ==> WithKey(key, s, k') == []
  {
    if s == [] {
    } else {
      assert s == [s[0]] + s[1..];
      WithKeyAll(key, s[1..], k);
    }
  }

  lemma {:induction false} WithKeyNone<T>(key: T -> int, s: seq<T>, k: int)
    requires forall x :: x in s ==> key(x) != k
    ensures WithKey(key, s, k) == []
  {
    if s == [] {
    } else {
      assert s[0] in s;
      WithKeyNone(key, s[1..], k);
    }
  }

  lemma {:induction false} InsertSorted<T>(key: T -> int, x: T, s: seq<T>)
    requires SortedBy(key, s)
    ensures SortedBy(key, Insert(key, x, s))
    ensures Insert(key, x, s)[0] == x || (s != [] && Insert(key, x, s)[0] == s[0])
  {
    if s == [] || key(x) <= key(s[0]) {
    } else {
      InsertSorted(key, x, s[1..]);
    }
  }

  lemma WithKeyCons<T>(key: T -> int, x: T, s: seq<T>, k: int)
    ensures WithKey(key, [x] + s, k) == if key(x) == k then [x] + WithKey(key, s, k) else WithKey(key, s, k)
  {
    assert ([x] + s)[1..] == s;
  }

  lemma {:induction false} InsertWithKey<T>(key: T -> int, x: T, s: seq<T>, k: int)
    ensures WithKey(key, Insert(key, x, s), k) == if key(x) == k then [x] + WithKey(key, s, k) else WithKey(key, s, k)
  {
    hide WithKey;
    if s == [] || key(x) <= key(s[0]) {
      WithKeyCons(key, x, s, k);
    } else {
      InsertWithKey(key, x, s[1..], k);
      WithKeyCons(key, s[0], Insert(key, x, s[1..]), k);
      WithKeyCons(key, s[0], s[1..], k);
      assert s == [s[0]] + s[1..];
    }
  }

  lemma {:induction false} StableSortCorrect<T>(key: T -> int, s: seq<T>)
    ensures IsStableSort(key, StableSort(key, s), s)
  {
    if s == [] {
    } else {
      var rest := StableSort(key, s[1..]);
      StableSortCorrect(key, s[1..]);
      InsertSorted(key, s[0], rest);
      forall k
        ensures WithKey(key, StableSort(key, s), k) == WithKey(key, s, k)
      {
        InsertWithKey(key, s[0], rest, k);
      }
    }
  }

  lemma EmptyHasNoKeys<T>(key: T -> int, s: seq<T>)
    ensures s == [] <==> forall k :: WithKey(key, s, k) == []
  {
    if s != [] {
      assert WithKey(key, s, key(s[0]))[0] == s[0];
    }
  }

  /** The head of a sorted sequence has the least key that occurs. */
  lemma SameHead<T>(key: T -> int, a: seq<T>, b: seq<T>)
    requires SortedBy(key, a) && SortedBy(key, b) && a != [] && b != []
    requires forall k :: WithKey(key, a, k) == WithKey(key, b, k)
    ensures a[0] == b[0]
  {
    assert WithKey(key, a, key(a[0]))[0] == a[0];
    assert WithKey(key, b, key(b[0]))[0] == b[0];
    KeyOccurs(key, b, key(a[0]));
    KeyOccurs(key, a, key(b[0]));
  }

  lemma {:induction false} KeyOccurs<T>(key: T -> int, s: seq<T>, k: int)
    requires SortedBy(key, s) && WithKey(key, s, k) != []
    ensures s != [] && key(s[0]) <= k
  {
    if s == [] || key(s[0]) == k {
    } else {
      KeyOccurs(key, s[1..], k);
      assert s[1] == s[1..][0];
    }
  }

  lemma SameTail<T>(key: T -> int, a: seq<T>, b: seq<T>, k: int)
    requires a != [] && b != [] && a[0] == b[0]
    requires WithKey(key, a, k) == WithKey(key, b, k)
    ensures WithKey(key, a[1..], k) == WithKey(key, b[1..], k)
  {
    var head := if key(a[0]) == k then [a[0]] else [];
    assert WithKey(key, a, k) == head + WithKey(key, a[1..], k);
    assert WithKey(key, b, k) == head + WithKey(key, b[1..], k);
    assert WithKey(key, a[1..], k) == WithKey(key, a, k)[|head|..];
    assert WithKey(key, b[1..], k) == WithKey(key, b, k)[|head|..];
  }

  /** Sorted by key and first in first out within a key: there is only one such sequence. */
  lemma {:induction false} StableSortUnique<T>(key: T -> int, a: seq<T>, b: seq<T>)
    requires SortedBy(key, a) && SortedBy(key, b)
    requires forall k :: WithKey(key, a, k) == WithKey(key, b, k)
    ensures a == b
  {
    EmptyHasNoKeys(key, a);
    EmptyHasNoKeys(key, b);
    if a == [] || b == [] {
    } else {
      SameHead(key, a, b);
      forall k
        ensures WithKey(key, a[1..], k) == WithKey(key, b[1..], k)
      {
        SameTail(key, a, b, k);
      }
      StableSortUnique(key, a[1..], b[1..]);
      assert a == [a[0]] + a[1..] && b == [b[0]] + b[1..];
    }
  }

  lemma SortIsTheStableSort<T>(key: T -> int, out: seq<T>, s: seq<T>)
    requires IsStableSort(key, out, s)
    ensures out == StableSort(key, s)
  {
    StableSortCorrect(key, s);
    StableSortUnique(key, out, StableSort(key, s));
  }

  lemma StableSortMembers<T>(key: T -> int, s: seq<T>)
    ensures forall x :: x in StableSort(key, s) <==> x in s
  {
    StableSortCorrect(key, s);
    forall x
      ensures x in StableSort(key, s) <==> x in s
    {
      WithKeyMembers(key, s, key(x));
      WithKeyMembers(key, StableSort(key, s), key(x));
    }
  }

  lemma {:induction false} InsertLength<T>(key: T -> int, x: T, s: seq<T>)
    ensures |Insert(key, x, s)| == |s| + 1
  {
    if s == [] || key(x) <= key(s[0]) {
    } else {
      InsertLength(key, x, s[1..]);
    }
  }

  lemma {:induction false} SortKeepsLength<T>(key: T -> int, s: seq<T>)
    ensures |StableSort(key, s)| == |s|
  {
    if s == [] {
    } else {
      SortKeepsLength(key, s[1..]);
      InsertLength(key, s[0], StableSort(key, s[1..]));
    }
  }

  ghost predicate DistinctKeys<T>(key: T -> int, s: seq<T>) {
    forall i, j :: 0 <= i < j < |s| ==> key(s[i]) != key(s[j])
  }

  lemma {:induction false} KeyOnce<T>(key: T -> int, s: seq<T>, k: int)
    requires DistinctKeys(key, s)
    ensures |WithKey(key, s, k)| <= 1
  {
    if s == [] {
    } else {
      KeyOnce(key, s[1..], k);
      if key(s[0]) == k {
        forall x | x in s[1..]
          ensures key(x) != k
        {
          var i :| 0 <= i < |s[1..]| && s[1..][i] == x;
          assert s[i + 1] == x;
        }
        WithKeyNone(key, s[1..], k);
      }
    }
  }

  lemma KeyTwice<T>(key: T -> int, s: seq<T>, i: nat, j: nat)
    requires i < j < |s| && key(s[i]) == key(s[j])
    ensures |WithKey(key, s, key(s[i]))| >= 2
  {
    var k := key(s[i]);
    assert s == s[..j] + s[j..];
    WithKeyConcat(key, s[..j], s[j..], k);
    WithKeyMembers(key, s[..j], k);
    WithKeyMembers(key, s[j..], k);
    assert s[..j][i] in s[..j] && s[j..][0] in s[j..];
  }

  /** Sorting keeps keys apart. */
  lemma StableSortDistinct<T>(key: T -> int, s: seq<T>)
    requires DistinctKeys(key, s)
    ensures DistinctKeys(key, StableSort(key, s))
  {
    var t := StableSort(key, s);
    StableSortCorrect(key, s);
    hide StableSort, WithKey, DistinctKeys;
    forall i, j | 0 <= i < j < |t|
      ensures key(t[i]) != key(t[j])
    {
      KeyOnce(key, s, key(t[i]));
      if key(t[i]) == key(t[j]) {
        KeyTwice(key, t, i, j);
      }
    }
    assert DistinctKeys(key, t) by {
      Apart(key, t);
    }
  }

  lemma Apart<T>(key: T -> int, s: seq<T>)
    requires forall i, j :: 0 <= i < j < |s| ==> key(s[i]) != key(s[j])
    ensures DistinctKeys(key, s)
  {
  }

  lemma TakeNext<T>(s: seq<T>, i: nat)
    requires i < |s|
    ensures s[..i + 1] == s[..i] + [s[i]]
  {
  }

  // ---------------------------------------------------------------- strings

  /** Go's `<` on strings. */
  predicate StringLess(a: string, b: string) {
    b != "" && (a == "" || a[0] < b[0] || (a[0] == b[0] && StringLess(a[1..], b[1..])))
  }

  lemma {:induction false} StringLessTransitive(a: string, b: string, c: string)
    requires StringLess(a, b) && StringLess(b, c)
    ensures StringLess(a, c)
  {
    if a == "" || a[0] != b[0] || b[0] != c[0] {
    } else {
      StringLessTransitive(a[1..], b[1..], c[1..]);
    }
  }

  lemma {:induction false} StringLessIrreflexive(a: string)
    ensures !StringLess(a, a)
  {
    if a == "" {
    } else {
      StringLessIrreflexive(a[1..]);
    }
  }

  lemma {:induction false} StringLessTotal(a: string, b: string)
    ensures a == b || StringLess(a, b) || StringLess(b, a)
  {
    if a == "" || b == "" || a[0] != b[0] {
    } else {
      StringLessTotal(a[1..], b[1..]);
      assert a == [a[0]] + a[1..] && b == [b[0]] + b[1..];
    }
  }

  predicate StringsAscending(s: seq<string>) {
    forall i, j :: 0 <= i < j < |s| ==> StringLess(s[i], s[j])
  }

  /** A set of strings has one ascending enumeration, so sorting makes a map's iteration order irrelevant. */
  lemma {:induction false} AscendingUnique(a: seq<string>, b: seq<string>)
    requires StringsAscending(a) && StringsAscending(b)
    requires forall x :: x in a <==> x in b
    ensures a == b
  {
    NonEmptyHasMember(a);
    NonEmptyHasMember(b);
    if a == [] {
    } else {
      assert a[0] in b && b != [] && b[0] in a;
      var i :| 0 <= i < |b| && b[i] == a[0];
      var j :| 0 <= j < |a| && a[j] == b[0];
      if i != 0 && j != 0 {
        StringLessTransitive(a[0], b[0], a[0]);
        StringLessIrreflexive(a[0]);
        assert false;
      }
      assert a[0] == b[0];
      forall x
        ensures x in a[1..] <==> x in b[1..]
      {
        StringLessIrreflexive(a[0]);
        assert x in a[1..] <==> x in a && x != a[0] by { HeadNotInTail(a); }
        assert x in b[1..] <==> x in b && x != b[0] by { HeadNotInTail(b); }
      }
      AscendingUnique(a[1..], b[1..]);
      assert a == [a[0]] + a[1..] && b == [b[0]] + b[1..];
    }
  }

  lemma NonEmptyHasMember<T>(s: seq<T>)
    ensures s != [] <==> exists x :: x in s
  {
    if s != [] {
      assert s[0] in s;
    }
  }

  lemma HeadNotInTail(a: seq<string>)
    requires StringsAscending(a) && a != []
    ensures forall x :: x in a[1..] <==> x in a && x != a[0]
  {
    StringLessIrreflexive(a[0]);
    assert a == [a[0]] + a[1..];
  }

  /** Inserting keeps an ascending sequence ascending. */
  function InsertString(x: string, s: seq<string>): (r: seq<string>)
    requires StringsAscending(s) && x !in s
    ensures StringsAscending(r)
    ensures forall y :: y in r <==> y == x || y in s
  {
    if s == [] then [x]
    else if StringLess(x, s[0]) then
      assert forall y :: y in s[1..] ==> StringLess(x, y) by {
        forall y | y in s[1..] ensures StringLess(x, y) { StringLessTransitive(x, s[0], y); }
      }
      [x] + s
    else
      StringLessTotal(x, s[0]);
      assert s == [s[0]] + s[1..];
      assert forall y :: y in s[1..] ==> StringLess(s[0], y);
      [s[0]] + InsertString(x, s[1..])
  }

  /** The ascending enumeration of a set of strings. */
  ghost function Ascending(members: set<string>): (r: seq<string>)
    ensures StringsAscending(r) && forall x :: x in r <==> x in members
  {
    if members == {} then []
    else
      var x :| x in members;
      InsertString(x, Ascending(members - {x}))
  }

  /** `maps.Keys` in whatever order the map yields them, then `sort.Strings`. */
  method SortedKeys(members: set<string>) returns (keys: seq<string>)
    ensures keys == Ascending(members)
  {
    keys := [];
    var rest := members;
    while rest != {}
      invariant rest <= members
      invariant StringsAscending(keys)
      invariant forall x :: x in keys <==> x in members - rest
      decreases rest
    {
      var x :| x in rest;
      keys := InsertString(x, keys);
      rest := rest - {x};
    }
    AscendingUnique(keys, Ascending(members));
  }
}
