/**
 The cursor of the block explorer's transaction list
 (blockexplorer/entities/transaction.go): printed as "block.index" and parsed back.
 */
module TxCursors {
  import opened Common

  const BLOCK_LIMIT: nat := 0x1_0000_0000_0000_0000
  const INDEX_LIMIT: nat := 0x1_0000_0000

  /** A 64-bit block number and a 32-bit index within the block. */
  datatype TxCursor = TxCursor(block: nat, index: nat)

  predicate InRange(c: TxCursor) {
    c.block < BLOCK_LIMIT && c.index < INDEX_LIMIT
  }

  datatype CursorError = InvalidCursor | InvalidBlock | InvalidIndex

  // ------------------------------------------------------------ printing

  function Digit(d: nat): char
    requires d < 10
  {
    "0123456789"[d]
  }

  /** `%d` for an unsigned number. */
  function Decimal(n: nat): string {
    if n < 10 then [Digit(n)] else Decimal(n / 10) + [Digit(n % 10)]
  }

  function Print(c: TxCursor): string {
    Decimal(c.block) + "." + Decimal(c.index)
  }

  // ------------------------------------------------------------- parsing

  /** `strings.Split(s, ".")`. */
  function Split(s: string): (parts: seq<string>)
    ensures parts != []
  {
    if s == "" then [""]
    else
      var rest := Split(s[1..]);
      if s[0] == '.' then [""] + rest else [[s[0]] + rest[0]] + rest[1..]
  }

  predicate IsDigit(ch: char) {
    '0' <= ch <= '9'
  }

  predicate AllDigits(s: string) {
    forall i :: 0 <= i < |s| ==> IsDigit(s[i])
  }

  function Value(s: string): nat
    requires AllDigits(s)
  {
    if s == "" then 0 else 10 * Value(s[..|s| - 1]) + (s[|s| - 1] as int - '0' as int)
  }

  /** `strconv.ParseUint(s, 10, bits)`, where `limit` is two to the power of `bits`. */
  function ParseUint(s: string, limit: nat): Option<nat> {
    if s == "" || !AllDigits(s) then None
    else if Value(s) >= limit then None
    else Some(Value(s))
  }

  function Parse(s: string): Result<TxCursor, CursorError> {
    var parts := Split(s);
    if |parts| != 2 then Err(InvalidCursor)
    else
      var block := ParseUint(parts[0], BLOCK_LIMIT);
      if block.None? then Err(InvalidBlock)
      else
        var index := ParseUint(parts[1], INDEX_LIMIT);
        if index.None? then Err(InvalidIndex) else Ok(TxCursor(block.value, index.value))
  }

  // ----------------------------------------------------------- round trips

  /** A decimal print is digits only, without a superfluous leading zero. */
  predicate Canonical(s: string) {
    s != "" && AllDigits(s) && (|s| > 1 ==> s[0] != '0')
  }

  lemma ValueSnoc(s: string, d: nat)
    requires AllDigits(s) && d < 10
    ensures AllDigits(s + [Digit(d)]) && Value(s + [Digit(d)]) == 10 * Value(s) + d
  {
    assert (s + [Digit(d)])[..|s|] == s;
  }

  lemma {:induction false} DecimalRoundTrip(n: nat)
    ensures Canonical(Decimal(n)) && Value(Decimal(n)) == n && (n > 0 ==> Decimal(n)[0] != '0')
  {
    hide Value;
    if n < 10 {
      ValueSnoc("", n);
      assert "" + [Digit(n)] == Decimal(n);
      EmptyValue();
    } else {
      DecimalRoundTrip(n / 10);
      ValueSnoc(Decimal(n / 10), n % 10);
    }
  }

  lemma EmptyValue()
    ensures Value("") == 0
  {
  }

  lemma {:induction false} CanonicalIsDecimal(s: string)
    requires Canonical(s)
    ensures Decimal(Value(s)) == s
    decreases |s|
  {
    var init, last := s[..|s| - 1], s[|s| - 1];
    assert s == init + [last];
    var d := last as int - '0' as int;
    assert Digit(d) == last;
    if |s| == 1 {
      assert init == "" && Value(s) == d;
    } else {
      CanonicalIsDecimal(init);
      ValuePositive(init);
      assert Value(s) / 10 == Value(init) && Value(s) % 10 == d;
    }
  }

  lemma {:induction false} ValuePositive(s: string)
    requires Canonical(s) && s[0] != '0'
    ensures Value(s) > 0
    decreases |s|
  {
    if |s| > 1 {
      ValuePositive(s[..|s| - 1]);
    } else {
      assert s[..0] == "";
    }
  }

  lemma {:induction false} SplitPlain(s: string)
    requires '.' !in s
    ensures Split(s) == [s]
  {
    if s == "" {
    } else {
      SplitPlain(s[1..]);
      assert s == [s[0]] + s[1..];
    }
  }

  lemma {:induction false} SplitAtDot(a: string, b: string)
    requires '.' !in a && '.' !in b
    ensures Split(a + "." + b) == [a, b]
    decreases |a|
  {
    var s := a + "." + b;
    if a == "" {
      assert s[1..] == b;
      SplitPlain(b);
    } else {
      assert s[1..] == a[1..] + "." + b && s[0] == a[0];
      SplitAtDot(a[1..], b);
      assert a == [a[0]] + a[1..];
    }
  }

  /** Parsing what was printed gives the cursor back, for every 64-bit block and 32-bit index. */
  lemma PrintThenParse(c: TxCursor)
    requires InRange(c)
    ensures Parse(Print(c)) == Ok(c)
  {
    DecimalRoundTrip(c.block);
    DecimalRoundTrip(c.index);
    assert '.' !in Decimal(c.block) && '.' !in Decimal(c.index);
    SplitAtDot(Decimal(c.block), Decimal(c.index));
  }

  /** A printed cursor parses exactly if its block fits in 64 bits and its index in 32. */
  lemma PrintedParsesIff(c: TxCursor)
    ensures Parse(Print(c)).Ok? <==> c.block < 18_446_744_073_709_551_616 && c.index < 4_294_967_296
  {
    DecimalRoundTrip(c.block);
    DecimalRoundTrip(c.index);
    assert '.' !in Decimal(c.block) && '.' !in Decimal(c.index);
    SplitAtDot(Decimal(c.block), Decimal(c.index));
  }

  lemma {:induction false} SplitJoins(s: string)
    ensures Join(Split(s)) == s
  {
    if s == "" {
    } else {
      SplitJoins(s[1..]);
      var rest := Split(s[1..]);
      if s[0] == '.' {
        assert ([""] + rest)[1..] == rest;
        assert s == "." + s[1..];
      } else {
        JoinLonger(s[0], rest);
        assert s == [s[0]] + s[1..];
      }
    }
  }

  lemma JoinLonger(ch: char, parts: seq<string>)
    requires parts != []
    ensures Join([[ch] + parts[0]] + parts[1..]) == [ch] + Join(parts)
  {
    var longer := [[ch] + parts[0]] + parts[1..];
    assert longer[1..] == parts[1..];
    if |parts| > 1 {
      assert [ch] + (parts[0] + "." + Join(parts[1..])) == ([ch] + parts[0]) + "." + Join(parts[1..]);
    }
  }

  function Join(parts: seq<string>): string
    requires parts != []
  {
    if |parts| == 1 then parts[0] else parts[0] + "." + Join(parts[1..])
  }

  /** What parses is in range, and prints back to the same text exactly when that text has no superfluous zeros. */
  lemma ParseThenPrint(s: string)
    requires Parse(s).Ok?
    ensures InRange(Parse(s).value)
    ensures Print(Parse(s).value) == s <==> forall p :: p in Split(s) ==> Canonical(p)
  {
    var parts := Split(s);
    var c := Parse(s).value;
    SplitJoins(s);
    assert parts[1..] == [parts[1]];
    assert s == parts[0] + "." + parts[1];
    DecimalRoundTrip(c.block);
    DecimalRoundTrip(c.index);
    if Canonical(parts[0]) && Canonical(parts[1]) {
      CanonicalIsDecimal(parts[0]);
      CanonicalIsDecimal(parts[1]);
    }
    if Print(c) == s {
      assert '.' !in Decimal(c.block) && '.' !in Decimal(c.index);
      SplitAtDot(Decimal(c.block), Decimal(c.index));
      assert parts == [Decimal(c.block), Decimal(c.index)];
    }
  }

  // ------------------------------------------------------------ boundaries

  /** The start lies strictly before the end, in chain order. */
  predicate AreValidCursorBoundaries(start: TxCursor, end: TxCursor) {
    if start.block == end.block then start.index < end.index else start.block < end.block
  }

  /** Chain order as a single number. */
  function Position(c: TxCursor): int {
    c.block * INDEX_LIMIT + c.index
  }

  lemma PositionIsChainOrder(a: TxCursor, b: TxCursor)
    requires InRange(a) && InRange(b)
    ensures AreValidCursorBoundaries(a, b) <==> Position(a) < Position(b)
    ensures Position(a) == Position(b) <==> a == b
  {
  }
}
