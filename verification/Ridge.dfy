// Ridge regression on a design matrix: the weights are the solution of the
// regularised normal equations, and that solution is the minimiser of the loss.
module Ridge {
  import opened Reals
  import opened Wrappers
  import opened Vectors
  import Solver

  function Transpose(m: Matrix, width: nat): (r: Matrix)
    requires Rectangular(m, width)
    ensures |r| == width && forall c :: 0 <= c < width ==> r[c] == Column(m, c)
  {
    seq(width, c requires 0 <= c < width => Column(m, c))
  }

  function MatMul(left: Matrix, right: Matrix, width: nat): (r: Matrix)
    requires Rectangular(left, |right|) && Rectangular(right, width)
    ensures |r| == |left| && Rectangular(r, width)
    ensures forall i, j :: 0 <= i < |left| && 0 <= j < width ==> r[i][j] == Dot(left[i], Column(right, j))
  {
    seq(|left|, i requires 0 <= i < |left| =>
      seq(width, j requires 0 <= j < width => Dot(left[i], Column(right, j))))
  }

  // Transposing twice gives the matrix back.
  lemma TransposeTwice(m: Matrix, width: nat)
    requires Rectangular(m, width)
    ensures Rectangular(Transpose(m, width), |m|) && Transpose(Transpose(m, width), |m|) == m
  {
    hide Column;
    var t := Transpose(m, width);
    var back := Transpose(t, |m|);
    forall r | 0 <= r < |m| ensures back[r] == m[r] {
      assert forall c :: 0 <= c < width ==> back[r][c] == t[c][r] == m[r][c];
    }
  }

  lemma ProductRow(left: Vec, right: Matrix, v: Vec, row: Vec)
    requires Rectangular(right, |v|) && |left| == |right| && |row| == |v|
    requires forall j :: 0 <= j < |v| ==> row[j] == Dot(left, Column(right, j))
    ensures Dot(row, v) == Dot(left, Apply(right, v))
  {
    hide Dot, Apply, Column, ApplyT;
    forall j | 0 <= j < |v| ensures row[j] == ApplyT(right, |v|, left)[j] { DotCommutes(left, Column(right, j)); }
    assert row == ApplyT(right, |v|, left);
    Adjoint(right, v, left);
    DotCommutes(row, v);
    DotCommutes(left, Apply(right, v));
  }

  // The product of two matrices applies one after the other.
  lemma ProductApplies(left: Matrix, right: Matrix, v: Vec)
    requires Rectangular(left, |right|) && Rectangular(right, |v|)
    ensures Apply(MatMul(left, right, |v|), v) == Apply(left, Apply(right, v))
  {
    hide Dot, Apply, Column, MatMul;
    var product := MatMul(left, right, |v|);
    forall i | 0 <= i < |left| ensures Apply(product, v)[i] == Apply(left, Apply(right, v))[i] {
      ProductRow(left[i], right, v, product[i]);
    }
  }

  lemma TimesExpands(a: real, p: real, q: real, r: real)
    ensures Times(a, p + 2.0 * q + r) == Times(a, p) + 2.0 * Times(a, q) + Times(a, r)
  {
  }

  // Predictions minus targets.
  function Residual(x: Matrix, y: Vec, w: Vec): (r: Vec)
    requires Rectangular(x, |w|) && |x| == |y|
    ensures |r| == |x|
  {
    Axpy(Apply(x, w), -1.0, y)
  }

  // Training squared error plus alpha times the squared non-intercept weights.
  function Loss(x: Matrix, y: Vec, alpha: real, w: Vec): real
    requires w != [] && Rectangular(x, |w|) && |x| == |y|
  {
    SquareNorm(Residual(x, y, w)) + Times(alpha, SquareNorm(w[1..]))
  }

  // How far v is from w.
  function Step(w: Vec, v: Vec): (d: Vec)
    requires |v| == |w|
    ensures |d| == |w|
  {
    Axpy(v, -1.0, w)
  }

  // The part of the gradient that comes from the ridge term: none at the intercept.
  function Pull(alpha: real, w: Vec, c: nat): real
    requires c < |w|
  {
    if c == 0 then 0.0 else Times(alpha, w[c])
  }

  // The gradient condition of the loss, one equation per column.
  ghost predicate NormalEquations(x: Matrix, y: Vec, alpha: real, w: Vec)
    requires w != [] && Rectangular(x, |w|) && |x| == |y|
  {
    forall c :: 0 <= c < |w| ==>
      Dot(Column(x, c), Residual(x, y, w)) == -Pull(alpha, w, c)
  }

  // The regularised Gram matrix that is handed to the solver.
  ghost predicate RidgeGram(x: Matrix, alpha: real, gram: Matrix, width: nat) {
    && Rectangular(x, width) && |gram| == width && Rectangular(gram, width)
    && forall i, j :: 0 <= i < width && 0 <= j < width ==>
         gram[i][j] == Dot(Column(x, i), Column(x, j)) + (if i == j && i > 0 then alpha else 0.0)
  }

  function GramOf(x: Matrix, alpha: real, width: nat): (gram: Matrix)
    requires Rectangular(x, width)
    ensures RidgeGram(x, alpha, gram, width)
  {
    seq(width, i requires 0 <= i < width => seq(width, j requires 0 <= j < width =>
      Dot(Column(x, i), Column(x, j)) + (if i == j && i > 0 then alpha else 0.0)))
  }

  lemma GramUnique(x: Matrix, alpha: real, gram: Matrix, width: nat)
    requires Rectangular(x, width) && RidgeGram(x, alpha, gram, width)
    ensures gram == GramOf(x, alpha, width)
  {
    hide Dot, Column;
    var other := GramOf(x, alpha, width);
    forall i | 0 <= i < width ensures gram[i] == other[i] {
      assert forall j :: 0 <= j < width ==> gram[i][j] == other[i][j];
    }
  }

  // c-th column of the plain Gram matrix times w is column c against the predictions.
  lemma GramRow(x: Matrix, c: nat, w: Vec)
    requires Rectangular(x, |w|) && c < |w|
    ensures Dot(ApplyT(x, |w|, Column(x, c)), w) == Dot(Column(x, c), Apply(x, w))
  {
    hide Dot, Apply, ApplyT, Column;
    Adjoint(x, w, Column(x, c));
    DotCommutes(w, ApplyT(x, |w|, Column(x, c)));
    DotCommutes(Apply(x, w), Column(x, c));
  }

  function Unit(n: nat, c: nat): (e: Vec)
    requires c < n
    ensures |e| == n && forall k :: 0 <= k < n ==> e[k] == (if k == c then 1.0 else 0.0)
  {
    seq(n, k => if k == c then 1.0 else 0.0)
  }

  lemma ShiftedRow(plain: Vec, row: Vec, alpha: real, w: Vec, c: nat)
    requires |plain| == |row| == |w| && c < |w|
    requires forall j :: 0 <= j < |w| ==> row[j] == plain[j] + (if j == c && j > 0 then alpha else 0.0)
    ensures Dot(row, w) == Dot(plain, w) + Pull(alpha, w, c)
  {
    hide Dot, Axpy, Unit;
    if c == 0 {
      assert row == plain;
    } else {
      UnitShift(plain, row, alpha, c);
      UnitShiftDot(plain, alpha, w, c);
    }
  }

  lemma UnitShiftDot(plain: Vec, alpha: real, w: Vec, c: nat)
    requires |plain| == |w| && c < |w|
    ensures Dot(Axpy(plain, alpha, Unit(|w|, c)), w) == Dot(plain, w) + Times(alpha, w[c])
  {
    hide Dot, Axpy, Unit;
    DotAxpy(plain, alpha, Unit(|w|, c), w);
    Solver.DotUnit(Unit(|w|, c), c, w);
  }

  lemma UnitShift(plain: Vec, row: Vec, alpha: real, c: nat)
    requires |plain| == |row| && 0 < c < |row|
    requires forall j :: 0 <= j < |row| ==> row[j] == plain[j] + (if j == c then alpha else 0.0)
    ensures row == Axpy(plain, alpha, Unit(|row|, c))
  {
    hide Axpy, Unit;
    forall j | 0 <= j < |row| ensures row[j] == Axpy(plain, alpha, Unit(|row|, c))[j] {
      if j == c { assert alpha * 1.0 == alpha; } else { assert alpha * 0.0 == 0.0; }
    }
  }

  lemma RidgeRow(x: Matrix, alpha: real, gram: Matrix, w: Vec, c: nat)
    requires RidgeGram(x, alpha, gram, |w|) && c < |w|
    ensures Dot(gram[c], w) == Dot(Column(x, c), Apply(x, w)) + Pull(alpha, w, c)
  {
    hide Dot, Apply, Column, ApplyT, Pull;
    var plain := ApplyT(x, |w|, Column(x, c));
    forall j | 0 <= j < |w| ensures plain[j] == Dot(Column(x, c), Column(x, j)) {
      DotCommutes(Column(x, j), Column(x, c));
    }
    ShiftedRow(plain, gram[c], alpha, w, c);
    GramRow(x, c, w);
  }

  lemma NormalRow(x: Matrix, y: Vec, alpha: real, gram: Matrix, w: Vec, c: nat)
    requires |x| == |y| && RidgeGram(x, alpha, gram, |w|) && c < |w|
    ensures Dot(gram[c], w) == Dot(Column(x, c), y)
            <==> Dot(Column(x, c), Residual(x, y, w)) == -Pull(alpha, w, c)
  {
    hide Dot, Apply, Column, Residual, Pull;
    RidgeRow(x, alpha, gram, w, c);
    ResidualDot(Column(x, c), x, y, w);
  }

  lemma ResidualDot(u: Vec, x: Matrix, y: Vec, w: Vec)
    requires |u| == |x| == |y| && Rectangular(x, |w|)
    ensures Dot(u, Residual(x, y, w)) == Dot(u, Apply(x, w)) - Dot(u, y)
  {
    hide Dot, Apply, Axpy;
    DotRightSub(u, Apply(x, w), y);
  }

  lemma SolutionMeetsNormalEquations(x: Matrix, y: Vec, alpha: real, gram: Matrix, rhs: Vec, w: Vec)
    requires w != [] && |x| == |y| && RidgeGram(x, alpha, gram, |w|)
    requires |rhs| == |w| && forall c :: 0 <= c < |w| ==> rhs[c] == Dot(Column(x, c), y)
    ensures Solver.Solves(gram, rhs, w) <==> NormalEquations(x, y, alpha, w)
  {
    hide Dot, Column, Residual, Pull;
    forall c | 0 <= c < |w|
      ensures Dot(gram[c], w) == rhs[c] <==> Dot(Column(x, c), Residual(x, y, w)) == -Pull(alpha, w, c)
    {
      NormalRow(x, y, alpha, gram, w, c);
    }
  }

  // Moving away from w by d costs the squared size of the move, whenever w meets
  // the normal equations: the cross terms cancel.
  lemma CrossTermsCancel(x: Matrix, y: Vec, alpha: real, w: Vec, d: Vec)
    requires w != [] && |d| == |w| && Rectangular(x, |w|) && |x| == |y|
    requires NormalEquations(x, y, alpha, w)
    ensures Dot(Residual(x, y, w), Apply(x, d)) == -Times(alpha, Dot(w[1..], d[1..]))
  {
    hide Dot, Apply, Column, ApplyT, Axpy, Zeros;
    var res := Residual(x, y, w);
    Adjoint(x, d, res);
    DotCommutes(res, Apply(x, d));
    GradientVector(x, alpha, w, res);
    GradientDot(alpha, w, d);
  }

  lemma GradientDot(alpha: real, w: Vec, d: Vec)
    requires w != [] && |d| == |w|
    ensures Dot(d, Axpy(Zeros(|w|), -alpha, [0.0] + w[1..])) == -Times(alpha, Dot(w[1..], d[1..]))
  {
    DotLeadingZero(d, w);
    hide Dot, Axpy, Zeros;
    DotRightAxpy(d, Zeros(|w|), -alpha, [0.0] + w[1..]);
    DotZeros(d);
    DotCommutes(d[1..], w[1..]);
  }

  lemma GradientVector(x: Matrix, alpha: real, w: Vec, res: Vec)
    requires w != [] && Rectangular(x, |w|) && |res| == |x|
    requires forall c :: 0 <= c < |w| ==> Dot(Column(x, c), res) == -Pull(alpha, w, c)
    ensures ApplyT(x, |w|, res) == Axpy(Zeros(|w|), -alpha, [0.0] + w[1..])
  {
    hide Dot, Column, ApplyT, Axpy, Zeros;
    var g, p := ApplyT(x, |w|, res), [0.0] + w[1..];
    var r := Axpy(Zeros(|w|), -alpha, p);
    forall c | 0 <= c < |w| ensures g[c] == r[c] {
      assert p[c] == (if c == 0 then 0.0 else w[c]);
    }
    assert g == r;
  }

  lemma DotLeadingZero(d: Vec, w: Vec)
    requires w != [] && |d| == |w|
    ensures Dot(d, [0.0] + w[1..]) == Dot(d[1..], w[1..])
  {
    assert ([0.0] + w[1..])[1..] == w[1..];
  }

  lemma MoveBack(v: Vec, w: Vec)
    requires |v| == |w| && w != []
    ensures v == Axpy(w, 1.0, Axpy(v, -1.0, w))
    ensures v[1..] == Axpy(w[1..], 1.0, Axpy(v, -1.0, w)[1..])
  {
    hide Axpy;
    var d := Axpy(v, -1.0, w);
    forall k | 0 <= k < |v| ensures v[k] == Axpy(w, 1.0, d)[k] { assert d[k] == v[k] - w[k]; }
    assert v == Axpy(w, 1.0, d);
    forall k | 0 <= k < |v| - 1 ensures v[1..][k] == Axpy(w[1..], 1.0, d[1..])[k] { assert d[k + 1] == v[k + 1] - w[k + 1]; }
  }

  lemma MoveResidual(xw: Vec, xd: Vec, y: Vec)
    requires |xw| == |xd| == |y|
    ensures Axpy(Axpy(xw, 1.0, xd), -1.0, y) == Axpy(Axpy(xw, -1.0, y), 1.0, xd)
  {
    hide Axpy;
  }

  lemma ErrorExpansion(x: Matrix, y: Vec, w: Vec, v: Vec)
    requires w != [] && |v| == |w| && Rectangular(x, |w|) && |x| == |y|
    ensures var d, res := Step(w, v), Residual(x, y, w);
            SquareNorm(Residual(x, y, v)) == SquareNorm(res) + 2.0 * Dot(res, Apply(x, d)) + SquareNorm(Apply(x, d))
  {
    hide Dot, Apply, Axpy, SquareNorm;
    var d := Axpy(v, -1.0, w);
    MoveBack(v, w);
    ApplyAxpy(x, w, 1.0, d);
    MoveResidual(Apply(x, w), Apply(x, d), y);
    SquareNormAxpy(Axpy(Apply(x, w), -1.0, y), 1.0, Apply(x, d));
  }

  lemma PenaltyExpansion(w: Vec, v: Vec)
    requires w != [] && |v| == |w|
    ensures var d := Step(w, v);
            SquareNorm(v[1..]) == SquareNorm(w[1..]) + 2.0 * Dot(w[1..], d[1..]) + SquareNorm(d[1..])
  {
    hide Dot, Axpy, SquareNorm;
    MoveBack(v, w);
    SquareNormAxpy(w[1..], 1.0, Axpy(v, -1.0, w)[1..]);
  }

  lemma LossExpansion(x: Matrix, y: Vec, alpha: real, w: Vec, v: Vec)
    requires w != [] && |v| == |w| && Rectangular(x, |w|) && |x| == |y|
    requires NormalEquations(x, y, alpha, w)
    ensures var d := Step(w, v);
            Loss(x, y, alpha, v) == Loss(x, y, alpha, w) + SquareNorm(Apply(x, d)) + Times(alpha, SquareNorm(d[1..]))
  {
    hide Dot, Apply, Residual, Step, NormalEquations, SquareNorm, Times;
    var d := Step(w, v);
    ErrorExpansion(x, y, w, v);
    PenaltyExpansion(w, v);
    CrossTermsCancel(x, y, alpha, w, d);
    TimesExpands(alpha, SquareNorm(w[1..]), Dot(w[1..], d[1..]), SquareNorm(d[1..]));
  }

  // The optimality theorem: no weight vector has a smaller loss, and when the
  // normal equations have one solution only, no other vector ties with it.
  lemma RidgeOptimal(x: Matrix, y: Vec, alpha: real, w: Vec, v: Vec)
    requires alpha >= 0.0
    requires w != [] && |v| == |w| && Rectangular(x, |w|) && |x| == |y|
    requires NormalEquations(x, y, alpha, w)
    ensures Loss(x, y, alpha, w) <= Loss(x, y, alpha, v)
    ensures Loss(x, y, alpha, v) == Loss(x, y, alpha, w) ==> NormalEquations(x, y, alpha, v)
  {
    hide Dot, Apply, Axpy, NormalEquations, Loss, SquareNorm;
    LossExpansion(x, y, alpha, w, v);
    var d := Step(w, v);
    SquareNormNonNegative(Apply(x, d));
    SquareNormNonNegative(d[1..]);
    var penalty := Times(alpha, SquareNorm(d[1..]));
    if alpha > 0.0 && SquareNorm(d[1..]) > 0.0 {
      SameSignProduct(alpha, SquareNorm(d[1..]), penalty);
    }
    assert penalty >= 0.0;
    if Loss(x, y, alpha, v) == Loss(x, y, alpha, w) {
      assert Apply(x, d) == Zeros(|x|);
      assert alpha == 0.0 || d[1..] == Zeros(|d| - 1);
      TieMeetsNormalEquations(x, y, alpha, w, v);
    }
  }

  lemma TieMeetsNormalEquations(x: Matrix, y: Vec, alpha: real, w: Vec, v: Vec)
    requires w != [] && |v| == |w| && Rectangular(x, |w|) && |x| == |y|
    requires NormalEquations(x, y, alpha, w)
    requires Apply(x, Axpy(v, -1.0, w)) == Zeros(|x|)
    requires alpha == 0.0 || Axpy(v, -1.0, w)[1..] == Zeros(|w| - 1)
    ensures NormalEquations(x, y, alpha, v)
  {
    hide Dot, Apply, Axpy, Column, Zeros, Pull;
    ApplyAxpy(x, v, -1.0, w);
    ZeroDifference(Apply(x, v), Apply(x, w));
    forall c | 0 <= c < |w| ensures Pull(alpha, v, c) == Pull(alpha, w, c) { SamePull(alpha, v, w, c); }
  }

  lemma ZeroDifference(a: Vec, b: Vec)
    requires |a| == |b| && Axpy(a, -1.0, b) == Zeros(|a|)
    ensures a == b
  {
    forall i | 0 <= i < |a| ensures a[i] == b[i] { assert Axpy(a, -1.0, b)[i] == 0.0; }
  }

  lemma SamePull(alpha: real, v: Vec, w: Vec, c: nat)
    requires w != [] && |v| == |w| && c < |w|
    requires alpha == 0.0 || Axpy(v, -1.0, w)[1..] == Zeros(|w| - 1)
    ensures Pull(alpha, v, c) == Pull(alpha, w, c)
  {
    hide Axpy;
    if c > 0 && alpha != 0.0 {
      assert v[c] == w[c] by { assert Axpy(v, -1.0, w)[1..][c - 1] == 0.0; }
    }
  }

  // With a positive alpha and an intercept column of ones the Gram matrix is
  // never singular, so the solver can then only fail on its pivot tolerance.
  lemma PositiveAlphaNonsingular(x: Matrix, alpha: real, gram: Matrix, width: nat)
    requires alpha > 0.0 && width > 0 && x != [] && RidgeGram(x, alpha, gram, width)
    requires forall r :: 0 <= r < |x| ==> x[r][0] == 1.0
    ensures !Solver.Singular(gram)
  {
    hide Dot, Apply, Residual, NormalEquations, RidgeGram, Zeros;
    forall v | Solver.KernelVector(gram, v) ensures false {
      assert |v| == width by { assert RidgeGram(x, alpha, gram, width); RidgeGramWidth(x, alpha, gram, width); }
      KernelIsZero(x, alpha, gram, v);
    }
  }

  lemma RidgeGramWidth(x: Matrix, alpha: real, gram: Matrix, width: nat)
    requires RidgeGram(x, alpha, gram, width)
    ensures |gram| == width && Rectangular(x, width) && Rectangular(gram, width)
  {
  }

  lemma KernelIsZero(x: Matrix, alpha: real, gram: Matrix, v: Vec)
    requires alpha > 0.0 && v != [] && x != [] && RidgeGram(x, alpha, gram, |v|)
    requires forall r :: 0 <= r < |x| ==> x[r][0] == 1.0
    requires Solver.Solves(gram, Zeros(|v|), v)
    ensures v == Zeros(|v|)
  {
    hide Dot, Apply, Residual, NormalEquations, Zeros, Column, SquareNorm, Times;
    var zero := Zeros(|x|);
    forall c | 0 <= c < |v| ensures Dot(Column(x, c), zero) == 0.0 { DotZeros(Column(x, c)); }
    SolutionMeetsNormalEquations(x, zero, alpha, gram, Zeros(|v|), v);
    EnergyVanishes(x, alpha, v);
    SquareNormNonNegative(Apply(x, v));
    SquareNormNonNegative(v[1..]);
    if SquareNorm(v[1..]) > 0.0 { PositiveTimes(alpha, SquareNorm(v[1..])); }
    ZeroTimes(alpha);
    assert v[1..] == Zeros(|v| - 1) && Apply(x, v)[0] == 0.0;
    InterceptOnly(x[0], v);
    assert v == [v[0]] + v[1..];
  }

  lemma PositiveTimes(a: real, b: real)
    requires a > 0.0 && b > 0.0
    ensures Times(a, b) > 0.0
  {
    SameSignProduct(a, b, Times(a, b));
  }

  lemma ZeroTimes(a: real)
    ensures Times(a, 0.0) == 0.0
  {
  }

  lemma InterceptOnly(row: Vec, v: Vec)
    requires |row| == |v| && v != [] && row[0] == 1.0 && v[1..] == Zeros(|v| - 1)
    ensures Dot(row, v) == v[0]
  {
    hide Zeros;
    DotZeros(row[1..]);
  }

  lemma EnergyVanishes(x: Matrix, alpha: real, v: Vec)
    requires v != [] && Rectangular(x, |v|) && NormalEquations(x, Zeros(|x|), alpha, v)
    ensures SquareNorm(Apply(x, v)) == -Times(alpha, SquareNorm(v[1..]))
  {
    hide Dot, Apply, NormalEquations, Zeros, Times;
    CrossTermsCancel(x, Zeros(|x|), alpha, v, v);
    assert Residual(x, Zeros(|x|), v) == Apply(x, v);
  }

  lemma AxpyAt(a: Vec, s: real, b: Vec, i: nat, r: Vec)
    requires |a| == |b| && i < |a| && r == Axpy(a, s, b)
    ensures |r| == |a| && r[i] == a[i] + Times(s, b[i])
  {
    hide Axpy;
  }

  lemma PullAt(alpha: real, v: Vec, pull: Vec, c: nat)
    requires v != [] && pull == [0.0] + v[1..] && c < |v|
    ensures Times(alpha, pull[c]) == Pull(alpha, v, c)
  {
    hide Times;
    ZeroTimes(alpha);
    assert pull[c] == if c == 0 then 0.0 else v[c];
  }

  lemma GramApplied(x: Matrix, alpha: real, gram: Matrix, v: Vec, pull: Vec)
    requires v != [] && RidgeGram(x, alpha, gram, |v|) && pull == [0.0] + v[1..]
    ensures Apply(gram, v) == Axpy(ApplyT(x, |v|, Apply(x, v)), alpha, pull)
  {
    var g, plain := Apply(gram, v), ApplyT(x, |v|, Apply(x, v));
    var r := Axpy(plain, alpha, pull);
    forall c | 0 <= c < |v| ensures g[c] == r[c] {
      hide Dot, Apply, Column, ApplyT, Axpy, Pull, Times;
      RidgeRow(x, alpha, gram, v, c);
      AxpyAt(plain, alpha, pull, c, r);
      PullAt(alpha, v, pull, c);
    }
    hide *;
  }

  lemma EnergySplit(v: Vec, plain: Vec, alpha: real, pull: Vec, whole: Vec)
    requires |plain| == |v| == |pull| && whole == Axpy(plain, alpha, pull)
    ensures Dot(v, whole) == Dot(v, plain) + Times(alpha, Dot(v, pull))
  {
    hide Dot, Axpy;
    DotRightAxpy(v, plain, alpha, pull);
  }

  // The quadratic form of the regularised Gram matrix is a sum of squares.
  lemma GramEnergy(x: Matrix, alpha: real, gram: Matrix, v: Vec)
    requires v != [] && RidgeGram(x, alpha, gram, |v|)
    ensures Dot(v, Apply(gram, v)) == SquareNorm(Apply(x, v)) + Times(alpha, SquareNorm(v[1..]))
  {
    hide Dot, Apply, ApplyT, Axpy, Times, Column;
    var u, pull := Apply(x, v), [0.0] + v[1..];
    DotLeadingZero(v, v);
    GramApplied(x, alpha, gram, v, pull);
    EnergySplit(v, ApplyT(x, |v|, u), alpha, pull, Apply(gram, v));
    Adjoint(x, v, u);
  }

  // Adds alpha to the diagonal from the first non-intercept weight on.
  method AddRidge(gram: Matrix, alpha: real) returns (r: Matrix)
    requires Rectangular(gram, |gram|)
    ensures |r| == |gram| && Rectangular(r, |gram|)
    ensures forall i, j :: 0 <= i < |r| && 0 <= j < |r| ==>
              r[i][j] == gram[i][j] + (if i == j && i > 0 then alpha else 0.0)
  {
    r := gram;
    var index := 1;
    while index < |gram|
      invariant 1 <= index && |r| == |gram| && Rectangular(r, |gram|)
      invariant forall i, j :: 0 <= i < |r| && 0 <= j < |r| ==>
                  r[i][j] == gram[i][j] + (if i == j && 0 < i < index then alpha else 0.0)
    {
      r := r[index := r[index][index := r[index][index] + alpha]];
      index := index + 1;
    }
  }

  // The Gram matrix, the right-hand side and the solve of the regression. When
  // it answers, the answer is the one and only minimiser of the ridge loss; it
  // answers exactly when the elimination of the system runs through.
  method FitWeights(x: Matrix, y: Vec, alpha: real, width: nat) returns (r: Result<Vec, string>)
    requires width > 0 && x != [] && Rectangular(x, width) && |x| == |y| && alpha >= 0.0
    ensures r.Ok? ==> |r.value| == width && NormalEquations(x, y, alpha, r.value)
    ensures r.Ok? ==> forall v: Vec | |v| == width ::
              Loss(x, y, alpha, r.value) <= Loss(x, y, alpha, v)
    ensures r.Ok? ==> forall v: Vec | |v| == width && v != r.value ::
              Loss(x, y, alpha, r.value) < Loss(x, y, alpha, v)
    ensures r.Ok? <==> Solver.Runs(GramOf(x, alpha, width), ApplyT(x, width, y))
  {
    hide Dot, Apply, Column, Loss, NormalEquations, Solver.Stuck, Solver.Runs, GramOf;
    var gram := MatMul(Transpose(x, width), x, width);
    gram := AddRidge(gram, alpha);
    assert RidgeGram(x, alpha, gram, width);
    GramUnique(x, alpha, gram, width);
    var rhs := ApplyT(x, width, y);
    r := Solver.Solve(gram, rhs);
    if r.Ok? {
      var w := r.value;
      assert Solver.Solves(gram, rhs, w);
      SolutionMeetsNormalEquations(x, y, alpha, gram, rhs, w);
      forall v: Vec | |v| == width
        ensures Loss(x, y, alpha, w) <= Loss(x, y, alpha, v)
        ensures v != w ==> Loss(x, y, alpha, w) < Loss(x, y, alpha, v)
      {
        RidgeOptimal(x, y, alpha, w, v);
        SolutionMeetsNormalEquations(x, y, alpha, gram, rhs, v);
      }
    }
  }
}
