// Facts about products of reals. Each product is passed as a named argument, so
// that the solver sees it as one term.
module Reals {
  predicate IsScore(x: real) { 0.0 <= x <= 1.0 }

  function Min(a: real, b: real): real { if b < a then b else a }

  function Max(a: real, b: real): real { if b > a then b else a }

  // A product the solver need not multiply out where the function is hidden.
  function Times(x: real, y: real): real { x * y }

  lemma SameSignProduct(x: real, y: real, product: real)
    requires (x > 0.0 && y > 0.0) || (x < 0.0 && y < 0.0)
    requires product == x * y
    ensures product > 0.0
  {
  }

  lemma NonNegativeProduct(x: real, y: real, product: real)
    requires x >= 0.0 && y >= 0.0 && product == x * y
    ensures product >= 0.0
  {
    if x > 0.0 && y > 0.0 { SameSignProduct(x, y, product); }
  }

  lemma MonotoneProduct(x: real, y: real, z: real, xy: real, xz: real)
    requires x >= 0.0 && y <= z && xy == x * y && xz == x * z
    ensures xy <= xz
  {
    NonNegativeProduct(x, z - y, x * (z - y));
    assert x * (z - y) == xz - xy;
  }

  lemma UnitProduct(a: real, b: real, product: real)
    requires IsScore(a) && IsScore(b) && product == a * b
    ensures 0.0 <= product <= a && product <= b
  {
    NonNegativeProduct(a, b, product);
    MonotoneProduct(a, b, 1.0, product, a * 1.0);
    MonotoneProduct(b, a, 1.0, b * a, b * 1.0);
  }

  // Python's round: to the nearest integer, halves to the even one.
  function Round(x: real): (n: int)
    ensures -0.5 <= n as real - x <= 0.5
  {
    var below := x.Floor;
    var part := x - below as real;
    if part < 0.5 || (part == 0.5 && below % 2 == 0) then below else below + 1
  }

  lemma RoundExact(n: int)
    ensures Round(n as real) == n
  {
  }

  // The nearest integer, and the even one of two that are equally near.
  lemma RoundMeans(x: real, n: int)
    ensures Round(x) == n <==> -0.5 <= n as real - x <= 0.5 && (n as real - x == 0.5 || n as real - x == -0.5 ==> n % 2 == 0)
  {
  }

  lemma RoundMonotone(x: real, y: real)
    requires x <= y
    ensures Round(x) <= Round(y)
  {
  }
}
