/** Numbers as the body modules treat them: checked inputs, Python's rounding, and square
    roots. Floating point is modelled by the reals. */
module Numbers {
  import opened Basics

  /** A numeric argument as it arrives. */
  datatype Number = NotNumeric | NotFinite | Finite(value: real)

  predicate IsUnit(x: real) {
    0.0 <= x <= 1.0
  }

  /** `_unit`: the value, if it is a finite number within 0..1. */
  function Unit(n: Number): Option<real> {
    if n.Finite? && IsUnit(n.value) then Some(n.value) else None
  }

  function Min(a: real, b: real): real {
    if a <= b then a else b
  }

  function Max(a: real, b: real): real {
    if a >= b then a else b
  }

  /** Python's `round(x)`: to the nearest integer, ties to even. */
  function RoundHalfEven(x: real): int {
    var f := x.Floor;
    if x - f as real < 0.5 then f
    else if x - f as real > 0.5 then f + 1
    else if f % 2 == 0 then f else f + 1
  }

  /** Rounding never crosses an integer. */
  lemma RoundKeepsBounds(x: real, k: int)
    ensures k as real <= x ==> k <= RoundHalfEven(x)
    ensures x <= k as real ==> RoundHalfEven(x) <= k
    ensures x == k as real ==> RoundHalfEven(x) == k
  {
  }

  /** Python's `round(x, 6)`. */
  function Round6(x: real): real {
    RoundHalfEven(x * 1000000.0) as real / 1000000.0
  }

  /** Rounding to six decimals keeps bounds that have at most six decimals, and leaves
      such numbers alone. `k` counts millionths. */
  lemma Round6KeepsBounds(x: real, k: int)
    ensures k as real / 1000000.0 <= x ==> k as real / 1000000.0 <= Round6(x)
    ensures x <= k as real / 1000000.0 ==> Round6(x) <= k as real / 1000000.0
    ensures x == k as real / 1000000.0 ==> Round6(x) == x
  {
    RoundKeepsBounds(x * 1000000.0, k);
  }

  /** `sqrt` over the reals. */
  ghost predicate IsSqrt(sqrt: real -> real) {
    forall x | x >= 0.0 :: sqrt(x) >= 0.0 && sqrt(x) * sqrt(x) == x
  }

  lemma RootsAgree(a: real, b: real)
    requires a >= 0.0 && b >= 0.0 && a * a == b * b
    ensures a == b
  {
    assert (a - b) * (a + b) == 0.0;
    if a + b == 0.0 { } else { assert a - b == 0.0; }
  }

  /** Square roots scale: the root of c*c*x is c times the root of x. */
  lemma SqrtScales(sqrt: real -> real, c: real, x: real, y: real)
    requires IsSqrt(sqrt) && c >= 0.0 && x >= 0.0 && y >= 0.0 && y == c * c * x
    ensures sqrt(y) == c * sqrt(x)
  {
    var r := sqrt(x);
    assert (c * r) * (c * r) == c * c * (r * r);
    RootsAgree(sqrt(y), c * r);
  }

  // ----- quotients -----

  lemma QuotientSign(a: real, b: real)
    requires b > 0.0
    ensures a >= 0.0 <==> a / b >= 0.0
  {
    assert a == (a / b) * b;
  }

  /** x * b == a determines the quotient. */
  lemma QuotientIs(a: real, b: real, x: real)
    requires b > 0.0 && x * b == a
    ensures a / b == x
  {
    assert (a / b - x) * b == 0.0;
  }

  lemma QuotientOrder(a: real, b: real, r: real)
    requires r > 0.0
    ensures a <= b <==> a / r <= b / r
    ensures a < b <==> a / r < b / r
  {
    assert a == (a / r) * r && b == (b / r) * r;
  }

  lemma QuotientOfDifference(a: real, b: real, r: real)
    requires r > 0.0
    ensures a / r - b / r == (a - b) / r
  {
    assert (a / r - b / r) * r == a - b;
    QuotientIs(a - b, r, a / r - b / r);
  }

  lemma ProductOrder(c: real, a: real, b: real)
    requires c > 0.0
    ensures a <= b <==> c * a <= c * b
    ensures a < b <==> c * a < c * b
  {
    assert c * b - c * a == c * (b - a);
  }

  lemma ProductSign(a: real, b: real)
    requires a >= 0.0 && b >= 0.0
    ensures a * b >= 0.0
  {
  }

  lemma ProductAsReal(a: int, b: int)
    ensures (a * b) as real == a as real * b as real
  {
  }
}
