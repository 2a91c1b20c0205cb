module Common {
  datatype Option<+T> = None | Some(value: T)

  /** A call either succeeds or returns the Go error it names. */
  datatype Result<+T, +E> = Ok(value: T) | Err(error: E)

  function Min(a: int, b: int): int {
    if a < b then a else b
  }

  function Max(a: int, b: int): int {
    if a > b then a else b
  }

  /** `num.Decimal` is exact here, and `num.UintFromDecimal` keeps the whole part of a non-negative amount. */
  function UintFromDecimal(d: real): nat
    requires d >= 0.0
  {
    d.Floor
  }

  lemma MulNonNegative(a: real, b: real)
    requires a >= 0.0 && b >= 0.0
    ensures a * b >= 0.0
  {
  }

  lemma MulShrinks(f: real, x: real)
    requires 0.0 <= f <= 1.0 && x >= 0.0
    ensures f * x <= x
  {
    MulNonNegative(1.0 - f, x);
    assert (1.0 - f) * x == x - f * x;
  }

  lemma FloorWithin(d: real, n: nat)
    requires 0.0 <= d <= n as real
    ensures UintFromDecimal(d) <= n
  {
  }

  lemma SomeMember(s: set<int>)
    ensures s != {} <==> exists k :: k in s
  {
    if forall k :: k !in s {
      assert s == {};
    }
  }
}
