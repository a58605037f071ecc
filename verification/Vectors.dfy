// Dense real vectors and matrices as the regression code builds them: a matrix
// is a list of rows and every sum is an inner product.
module Vectors {
  import opened Reals

  type Vec = seq<real>
  type Matrix = seq<Vec>

  ghost predicate Rectangular(m: Matrix, width: nat) {
    forall i :: 0 <= i < |m| ==> |m[i]| == width
  }

  function Dot(a: Vec, b: Vec): real
    requires |a| == |b|
  {
    if a == [] then 0.0 else a[0] * b[0] + Dot(a[1..], b[1..])
  }

  // a + s * b
  function Axpy(a: Vec, s: real, b: Vec): (r: Vec)
    requires |a| == |b|
    ensures |r| == |a|
    ensures forall i :: 0 <= i < |r| ==> r[i] == a[i] + s * b[i]
  {
    if a == [] then [] else [a[0] + s * b[0]] + Axpy(a[1..], s, b[1..])
  }

  function Zeros(n: nat): (r: Vec)
    ensures |r| == n && forall i :: 0 <= i < n ==> r[i] == 0.0
  {
    seq(n, _ => 0.0)
  }

  function SquareNorm(a: Vec): real { Dot(a, a) }

  function Column(m: Matrix, c: nat): (r: Vec)
    requires forall i :: 0 <= i < |m| ==> c < |m[i]|
    ensures |r| == |m| && forall i :: 0 <= i < |m| ==> r[i] == m[i][c]
  {
    if m == [] then [] else [m[0][c]] + Column(m[1..], c)
  }

  // The matrix-vector product.
  function Apply(m: Matrix, v: Vec): (r: Vec)
    requires Rectangular(m, |v|)
    ensures |r| == |m| && forall i :: 0 <= i < |m| ==> r[i] == Dot(m[i], v)
  {
    if m == [] then [] else [Dot(m[0], v)] + Apply(m[1..], v)
  }

  // The product with the transpose: one inner product per column.
  function ApplyT(m: Matrix, width: nat, u: Vec): (r: Vec)
    requires Rectangular(m, width) && |u| == |m|
    ensures |r| == width && forall c :: 0 <= c < width ==> r[c] == Dot(Column(m, c), u)
  {
    seq(width, c requires 0 <= c < width => Dot(Column(m, c), u))
  }

  lemma {:induction false} DotCommutes(a: Vec, b: Vec)
    requires |a| == |b|
    ensures Dot(a, b) == Dot(b, a)
  {
    if a != [] { DotCommutes(a[1..], b[1..]); }
  }

  lemma {:induction false} DotAxpy(a: Vec, s: real, b: Vec, y: Vec)
    requires |a| == |b| == |y|
    ensures Dot(Axpy(a, s, b), y) == Dot(a, y) + s * Dot(b, y)
  {
    if a != [] {
      DotAxpy(a[1..], s, b[1..], y[1..]);
      var p, q := Dot(b[1..], y[1..]), b[0] * y[0];
      assert (a[0] + s * b[0]) * y[0] == a[0] * y[0] + s * q;
      assert s * (q + p) == s * q + s * p;
    }
  }

  lemma {:induction false} SquareNormNonNegative(a: Vec)
    ensures SquareNorm(a) >= 0.0
    ensures SquareNorm(a) == 0.0 ==> a == Zeros(|a|)
  {
    if a != [] {
      SquareNormNonNegative(a[1..]);
      var head := a[0] * a[0];
      if a[0] != 0.0 { SameSignProduct(a[0], a[0], head); }
      assert head >= 0.0;
      assert a == [a[0]] + a[1..];
    }
  }

  lemma SquareNormAxpy(a: Vec, s: real, b: Vec)
    requires |a| == |b|
    ensures SquareNorm(Axpy(a, s, b)) == SquareNorm(a) + 2.0 * s * Dot(a, b) + s * s * SquareNorm(b)
  {
    hide Dot, Axpy;
    var r := Axpy(a, s, b);
    DotAxpy(a, s, b, r);
    DotCommutes(a, r);
    DotCommutes(b, r);
    DotAxpy(a, s, b, a);
    DotAxpy(a, s, b, b);
    DotCommutes(b, a);
    Expand(Dot(a, a), Dot(a, b), Dot(b, b), s);
  }

  lemma Expand(aa: real, ab: real, bb: real, s: real)
    ensures aa + s * ab + s * (ab + s * bb) == aa + 2.0 * s * ab + s * s * bb
  {
    assert s * (ab + s * bb) == s * ab + s * (s * bb);
  }

  lemma {:induction false} DotZeros(a: Vec)
    ensures Dot(a, Zeros(|a|)) == 0.0
  {
    if a != [] {
      assert Zeros(|a|)[1..] == Zeros(|a| - 1);
      DotZeros(a[1..]);
    }
  }

  lemma DotCons(x: real, a: Vec, u: Vec)
    requires |u| == |a| + 1
    ensures Dot([x] + a, u) == Dot(a, u[1..]) + u[0] * x
  {
    var t := [x] + a;
    DotHead(x, a, t, u, u[0] * x);
  }

  lemma DotHead(x: real, a: Vec, t: Vec, u: Vec, product: real)
    requires t == [x] + a && |u| == |t| && product == u[0] * x
    ensures Dot(t, u) == Dot(a, u[1..]) + product
  {
    assert t[1..] == a && t[0] == x;
  }

  lemma ColumnCons(m: Matrix, width: nat, c: nat)
    requires m != [] && Rectangular(m, width) && c < width
    ensures Column(m, c) == [m[0][c]] + Column(m[1..], c)
  {
  }

  lemma AxpyEntry(a: Vec, s: real, b: Vec, i: nat, r: Vec)
    requires |a| == |b| && i < |a| && r == Axpy(a, s, b)
    ensures |r| == |a| && r[i] == a[i] + s * b[i]
  {
    hide Axpy;
  }

  lemma ApplyTEntry(m: Matrix, width: nat, u: Vec, c: nat, r: Vec)
    requires m != [] && Rectangular(m, width) && |u| == |m| && c < width
    requires r == Axpy(ApplyT(m[1..], width, u[1..]), u[0], m[0])
    ensures |r| == width && ApplyT(m, width, u)[c] == r[c]
  {
    hide Dot, Axpy, Column;
    AxpyEntry(ApplyT(m[1..], width, u[1..]), u[0], m[0], c, r);
    ColumnCons(m, width, c);
    DotCons(m[0][c], Column(m[1..], c), u);
  }

  lemma ApplyTCons(m: Matrix, width: nat, u: Vec)
    requires m != [] && Rectangular(m, width) && |u| == |m|
    ensures ApplyT(m, width, u) == Axpy(ApplyT(m[1..], width, u[1..]), u[0], m[0])
  {
    var l, r := ApplyT(m, width, u), Axpy(ApplyT(m[1..], width, u[1..]), u[0], m[0]);
    hide Dot, Axpy, Column, ApplyT;
    forall c | 0 <= c < width ensures l[c] == r[c] { ApplyTEntry(m, width, u, c, r); }
    assert l == r;
  }

  // Apply and ApplyT are adjoint.
  lemma {:induction false} Adjoint(m: Matrix, d: Vec, u: Vec)
    requires Rectangular(m, |d|) && |u| == |m|
    ensures Dot(Apply(m, d), u) == Dot(d, ApplyT(m, |d|, u))
  {
    if m == [] {
      assert ApplyT(m, |d|, u) == Zeros(|d|);
      DotZeros(d);
    } else {
      var z := ApplyT(m[1..], |d|, u[1..]);
      calc {
        Dot(Apply(m, d), u);
        { assert Apply(m, d)[1..] == Apply(m[1..], d); }
        Dot(m[0], d) * u[0] + Dot(Apply(m[1..], d), u[1..]);
        { Adjoint(m[1..], d, u[1..]); DotCommutes(z, d); }
        Dot(z, d) + u[0] * Dot(m[0], d);
        { DotAxpy(z, u[0], m[0], d); }
        Dot(Axpy(z, u[0], m[0]), d);
        { ApplyTCons(m, |d|, u); DotCommutes(d, Axpy(z, u[0], m[0])); }
        Dot(d, ApplyT(m, |d|, u));
      }
    }
  }

  lemma DotRightAxpy(row: Vec, a: Vec, s: real, b: Vec)
    requires |row| == |a| == |b|
    ensures Dot(row, Axpy(a, s, b)) == Dot(row, a) + s * Dot(row, b)
  {
    hide Dot, Axpy;
    DotCommutes(row, Axpy(a, s, b));
    DotAxpy(a, s, b, row);
    DotCommutes(row, a);
    DotCommutes(row, b);
  }

  lemma DotRightSub(row: Vec, a: Vec, b: Vec)
    requires |row| == |a| == |b|
    ensures Dot(row, Axpy(a, -1.0, b)) == Dot(row, a) - Dot(row, b)
  {
    var minus := -1.0;
    DotRightMinus(row, a, minus, b);
    hide *;
  }

  lemma DotRightMinus(row: Vec, a: Vec, minus: real, b: Vec)
    requires |row| == |a| == |b| && minus == -1.0
    ensures Dot(row, Axpy(a, minus, b)) == Dot(row, a) - Dot(row, b)
  {
    hide Dot, Axpy;
    var product := minus * Dot(row, b);
    Negate(minus, Dot(row, b), product);
    DotRightAxpy(row, a, minus, b);
  }

  lemma Negate(minus: real, x: real, product: real)
    requires minus == -1.0 && product == minus * x
    ensures product == -x
  {
  }

  lemma ApplyAxpy(m: Matrix, a: Vec, s: real, b: Vec)
    requires |a| == |b| && Rectangular(m, |a|)
    ensures Apply(m, Axpy(a, s, b)) == Axpy(Apply(m, a), s, Apply(m, b))
  {
    hide Dot, Axpy, Apply;
    var l, r := Apply(m, Axpy(a, s, b)), Axpy(Apply(m, a), s, Apply(m, b));
    forall i | 0 <= i < |m| ensures l[i] == r[i] { DotRightAxpy(m[i], a, s, b); }
    assert l == r;
  }
}
