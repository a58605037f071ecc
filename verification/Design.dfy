// The standardised design matrix of the regression, and what centring its
// columns means for the fitted intercept.
module Design {
  import opened Reals
  import opened Wrappers
  import opened Vectors
  import opened Ridge
  import Solver

  function Total(v: Vec): real { if v == [] then 0.0 else v[0] + Total(v[1..]) }

  function Mean(v: Vec): real
    requires v != []
  {
    Total(v) / |v| as real
  }

  function Ones(n: nat): (r: Vec)
    ensures |r| == n && forall i :: 0 <= i < n ==> r[i] == 1.0
  {
    seq(n, _ => 1.0)
  }

  function Scale(value: real, mean: real, deviation: real): real
    requires deviation != 0.0
  {
    (value - mean) / deviation
  }

  // One standardised feature.
  function ScaleAll(column: Vec, mean: real, deviation: real): (r: Vec)
    requires deviation != 0.0
    ensures |r| == |column| && forall i :: 0 <= i < |r| ==> r[i] == Scale(column[i], mean, deviation)
  {
    if column == [] then [] else [Scale(column[0], mean, deviation)] + ScaleAll(column[1..], mean, deviation)
  }

  // A row of the design: the constant, then every feature standardised.
  function DesignRow(row: Vec, means: Vec, deviations: Vec): (r: Vec)
    requires |row| == |means| == |deviations| && forall i :: 0 <= i < |deviations| ==> deviations[i] != 0.0
    ensures |r| == |row| + 1 && r[0] == 1.0
    ensures forall i :: 0 <= i < |row| ==> r[i + 1] == Scale(row[i], means[i], deviations[i])
  {
    [1.0] + seq(|row|, i requires 0 <= i < |row| => Scale(row[i], means[i], deviations[i]))
  }

  function Build(rows: Matrix, means: Vec, deviations: Vec): (x: Matrix)
    requires Rectangular(rows, |means|) && |means| == |deviations|
    requires forall i :: 0 <= i < |deviations| ==> deviations[i] != 0.0
    ensures |x| == |rows| && Rectangular(x, |means| + 1)
    ensures forall r :: 0 <= r < |x| ==> x[r] == DesignRow(rows[r], means, deviations)
  {
    seq(|rows|, r requires 0 <= r < |rows| => DesignRow(rows[r], means, deviations))
  }

  // The means are those of the training columns.
  ghost predicate AreMeans(rows: Matrix, means: Vec) {
    rows != [] && Rectangular(rows, |means|) && forall c :: 0 <= c < |means| ==> means[c] == Mean(Column(rows, c))
  }

  lemma AddQuotients(a: real, b: real, d: real)
    requires d != 0.0
    ensures a / d + b / d == (a + b) / d
  {
    var x, y := a / d, b / d;
    assert x * d == a && y * d == b;
    assert (x + y) * d == a + b;
  }

  lemma {:induction false} TotalScaled(column: Vec, mean: real, deviation: real)
    requires deviation != 0.0
    ensures Total(ScaleAll(column, mean, deviation)) == (Total(column) - |column| as real * mean) / deviation
  {
    if column != [] {
      var rest := column[1..];
      TotalScaled(rest, mean, deviation);
      assert ScaleAll(column, mean, deviation)[1..] == ScaleAll(rest, mean, deviation);
      assert |column| as real == |rest| as real + 1.0;
      assert |column| as real * mean == |rest| as real * mean + mean;
      AddQuotients(column[0] - mean, Total(rest) - |rest| as real * mean, deviation);
    }
  }

  lemma CentredTotal(column: Vec, deviation: real)
    requires column != [] && deviation != 0.0
    ensures Total(ScaleAll(column, Mean(column), deviation)) == 0.0
  {
    TotalScaled(column, Mean(column), deviation);
    hide Total, ScaleAll;
    var n, t := |column| as real, Total(column);
    assert n * (t / n) == t;
  }

  lemma {:induction false} DotOnes(v: Vec)
    ensures Dot(v, Ones(|v|)) == Total(v)
  {
    if v != [] {
      DotOnes(v[1..]);
      assert Ones(|v|)[1..] == Ones(|v| - 1);
    }
  }

  lemma DesignColumn(rows: Matrix, means: Vec, deviations: Vec, c: nat)
    requires Rectangular(rows, |means|) && |means| == |deviations| && c < |means|
    requires forall i :: 0 <= i < |deviations| ==> deviations[i] != 0.0
    ensures Column(Build(rows, means, deviations), c + 1) == ScaleAll(Column(rows, c), means[c], deviations[c])
  {
    hide Column, ScaleAll, Scale;
  }

  // The column totals: the number of rows for the constant, zero for every feature.
  lemma ColumnTotals(rows: Matrix, means: Vec, deviations: Vec)
    requires AreMeans(rows, means) && |means| == |deviations|
    requires forall i :: 0 <= i < |deviations| ==> deviations[i] != 0.0
    ensures var x := Build(rows, means, deviations);
            ApplyT(x, |means| + 1, Ones(|x|)) == [|rows| as real] + Zeros(|means|)
  {
    var x := Build(rows, means, deviations);
    var totals := ApplyT(x, |means| + 1, Ones(|x|));
    hide Column, Build, Ones, Dot, Total;
    forall c | 0 <= c < |totals| ensures totals[c] == ([|rows| as real] + Zeros(|means|))[c] {
      DotOnes(Column(x, c));
      ColumnTotal(rows, means, deviations, c);
    }
  }

  lemma ColumnTotal(rows: Matrix, means: Vec, deviations: Vec, c: nat)
    requires AreMeans(rows, means) && |means| == |deviations| && c <= |means|
    requires forall i :: 0 <= i < |deviations| ==> deviations[i] != 0.0
    ensures Total(Column(Build(rows, means, deviations), c)) == if c == 0 then |rows| as real else 0.0
  {
    hide Column, Build, Ones, Dot, Total, ScaleAll;
    if c > 0 {
      DesignColumn(rows, means, deviations, c - 1);
      CentredTotal(Column(rows, c - 1), deviations[c - 1]);
    } else {
      FirstColumn(rows, means, deviations);
      TotalOnes(|rows|);
    }
  }

  lemma FirstColumn(rows: Matrix, means: Vec, deviations: Vec)
    requires Rectangular(rows, |means|) && |means| == |deviations|
    requires forall i :: 0 <= i < |deviations| ==> deviations[i] != 0.0
    ensures Column(Build(rows, means, deviations), 0) == Ones(|rows|)
  {
    hide Column, Scale;
  }

  lemma {:induction false} TotalOnes(n: nat)
    ensures Total(Ones(n)) == n as real
  {
    if n > 0 {
      TotalOnes(n - 1);
      assert Ones(n)[1..] == Ones(n - 1);
    }
  }

  lemma DotFirst(w: Vec, t: real)
    requires w != []
    ensures Dot(w, [t] + Zeros(|w| - 1)) == Times(w[0], t)
  {
    DotZeros(w[1..]);
  }

  // The equation of the constant column: the residuals sum to zero.
  lemma ResidualsCancel(rows: Matrix, means: Vec, deviations: Vec, y: Vec, alpha: real, w: Vec)
    requires Rectangular(rows, |means|) && |means| == |deviations| && |y| == |rows| && |w| == |means| + 1
    requires forall i :: 0 <= i < |deviations| ==> deviations[i] != 0.0
    requires NormalEquations(Build(rows, means, deviations), y, alpha, w)
    ensures Dot(Ones(|rows|), Residual(Build(rows, means, deviations), y, w)) == 0.0
  {
    var x := Build(rows, means, deviations);
    FirstColumn(rows, means, deviations);
    hide Column, Build, Ones, Dot, Apply;
    assert Dot(Column(x, 0), Residual(x, y, w)) == -Pull(alpha, w, 0) == 0.0;
  }

  // When all columns but the first sum to zero, predictions sum to the first weight times the first sum.
  lemma PredictionTotal(x: Matrix, w: Vec, ones: Vec, n: real)
    requires w != [] && Rectangular(x, |w|) && |ones| == |x|
    requires ApplyT(x, |w|, ones) == [n] + Zeros(|w| - 1)
    ensures Dot(ones, Apply(x, w)) == Times(w[0], n)
  {
    hide Dot, Apply, ApplyT, Zeros, Times;
    Adjoint(x, w, ones);
    DotFirst(w, n);
    DotCommutes(ones, Apply(x, w));
  }

  // With centred features the unpenalised intercept of any solution is the mean target.
  lemma InterceptIsMean(rows: Matrix, means: Vec, deviations: Vec, y: Vec, alpha: real, w: Vec)
    requires AreMeans(rows, means) && |means| == |deviations| && |y| == |rows| && |w| == |means| + 1
    requires forall i :: 0 <= i < |deviations| ==> deviations[i] != 0.0
    requires NormalEquations(Build(rows, means, deviations), y, alpha, w)
    ensures w[0] == Mean(y)
  {
    var x, ones := Build(rows, means, deviations), Ones(|rows|);
    hide Column, Build, Ones, Dot, NormalEquations, Apply, AreMeans, ApplyT, Zeros, Total;
    ResidualsCancel(rows, means, deviations, y, alpha, w);
    ColumnTotals(rows, means, deviations);
    PredictionTotal(x, w, ones, |rows| as real);
    DotRightSub(ones, Apply(x, w), y);
    DotCommutes(ones, y);
    DotOnes(y);
    Quotient(w[0], |rows| as real, Total(y));
  }

  lemma Quotient(w: real, n: real, total: real)
    requires n > 0.0 && w * n == total
    ensures w == total / n
  {
  }

  // ---------- A ridge that always goes through ----------

  lemma {:induction false} LargestEntry(v: Vec) returns (m: nat)
    requires v != []
    ensures m < |v| && forall i :: 0 <= i < |v| ==> Solver.Abs(v[i]) <= Solver.Abs(v[m])
  {
    m := 0;
    for k := 1 to |v|
      invariant m < k <= |v| && forall i :: 0 <= i < k ==> Solver.Abs(v[i]) <= Solver.Abs(v[m])
    {
      if Solver.Abs(v[k]) > Solver.Abs(v[m]) { m := k; }
    }
  }

  lemma ProductBelow(a: real, b: real, most: real, bound: real)
    requires Solver.Abs(a) <= most && Solver.Abs(b) < bound && most > 0.0
    ensures Times(a, b) < Times(most, bound)
  {
    var x, y := Solver.Abs(a), Solver.Abs(b);
    assert a * b <= x * y by { Solver.AbsProduct(a, b); assert Times(a, b) == a * b; }
    MonotoneProduct(y, x, most, y * x, y * most);
    SameSignProduct(most, bound - y, most * (bound - y));
    assert most * (bound - y) == most * bound - most * y;
  }

  lemma {:induction false} DotBelow(v: Vec, g: Vec, most: real, bound: real)
    requires v != [] && |g| == |v| && most > 0.0
    requires forall i :: 0 <= i < |v| ==> Solver.Abs(v[i]) <= most && Solver.Abs(g[i]) < bound
    ensures Dot(v, g) < Times(|v| as real, Times(most, bound))
  {
    var t := Times(most, bound);
    ProductBelow(v[0], g[0], most, bound);
    assert Dot(v, g) == Times(v[0], g[0]) + Dot(v[1..], g[1..]);
    hide Dot, Solver.Abs;
    if |v| == 1 {
      assert v[1..] == [] && g[1..] == [];
      EmptyDot();
      OneMore(0.0, t);
    } else {
      DotBelow(v[1..], g[1..], most, bound);
      OneMore(|v[1..]| as real, t);
    }
  }

  lemma EmptyDot()
    ensures Dot([], []) == 0.0
  {
  }

  lemma OneMore(n: real, t: real)
    ensures Times(n + 1.0, t) == Times(n, t) + t && Times(0.0, t) == 0.0
  {
  }

  lemma {:induction false} NormAtLeast(v: Vec, m: nat)
    requires m < |v|
    ensures SquareNorm(v) >= Times(v[m], v[m])
  {
    SquareNormNonNegative(v[1..]);
    Square(v[0]);
    if m > 0 { NormAtLeast(v[1..], m - 1); }
  }

  lemma Square(a: real)
    ensures Times(a, a) >= 0.0
  {
    if a > 0.0 { SameSignProduct(a, a, a * a); } else if a < 0.0 { SameSignProduct(a, a, a * a); }
  }

  lemma NonPositiveProduct(a: real, b: real, product: real)
    requires a >= 0.0 && b <= 0.0 && product == a * b
    ensures product <= 0.0
  {
    NonNegativeProduct(a, -b, a * -b);
    assert a * -b == -product;
  }

  // With m the largest size, m >= 1: alpha m^2 below width m tolerance bounds alpha.
  lemma AlphaBelow(alpha: real, width: real, m: real, tolerance: real)
    requires alpha >= 0.0 && m >= 1.0 && Times(alpha, Times(m, m)) < Times(width, Times(m, tolerance))
    ensures alpha < Times(width, tolerance)
  {
    var gap := width * tolerance - alpha * m;
    assert width * (m * tolerance) - alpha * (m * m) == m * gap;
    if gap <= 0.0 { NonPositiveProduct(m, gap, m * gap); }
    MonotoneProduct(alpha, 1.0, m, alpha * 1.0, alpha * m);
  }

  lemma InterceptBelow(v0: real, n: real, tolerance: real)
    requires n >= 1.0 && Solver.Abs(Times(v0, n)) < tolerance
    ensures Solver.Abs(v0) < tolerance
  {
    var a := Solver.Abs(v0);
    Solver.AbsProduct(v0, n);
    MonotoneProduct(a, 1.0, n, a * 1.0, a * n);
  }

  lemma SameSize(a: real)
    ensures Times(a, a) == Times(Solver.Abs(a), Solver.Abs(a))
  {
  }

  // The first product of a vector with the Gram matrix of a centred design.
  lemma FirstProduct(rows: Matrix, means: Vec, deviations: Vec, alpha: real, gram: Matrix, v: Vec)
    requires AreMeans(rows, means) && |means| == |deviations| && |v| == |means| + 1
    requires forall i :: 0 <= i < |deviations| ==> deviations[i] != 0.0
    requires RidgeGram(Build(rows, means, deviations), alpha, gram, |v|)
    ensures Dot(gram[0], v) == Times(v[0], |rows| as real)
  {
    var x := Build(rows, means, deviations);
    FirstColumn(rows, means, deviations);
    ColumnTotals(rows, means, deviations);
    hide Column, Build, Ones, Dot, Apply, AreMeans, ApplyT, Zeros, RidgeGram, Times;
    RidgeRow(x, alpha, gram, v, 0);
    PredictionTotal(x, v, Ones(|rows|), |rows| as real);
  }

  // A ridge strength of at least the number of weights times the pivot tolerance never raises.
  lemma StrongRidgeRuns(rows: Matrix, means: Vec, deviations: Vec, y: Vec, alpha: real)
    requires AreMeans(rows, means) && |means| == |deviations| && |y| == |rows|
    requires forall i :: 0 <= i < |deviations| ==> deviations[i] != 0.0
    requires alpha >= Times((|deviations| + 1) as real, 0.000000000001)
    ensures var x := Build(rows, means, deviations);
            Solver.Runs(GramOf(x, alpha, |deviations| + 1), ApplyT(x, |deviations| + 1, y))
  {
    var x, width := Build(rows, means, deviations), |deviations| + 1;
    var gram, rhs := GramOf(x, alpha, width), ApplyT(x, width, y);
    hide Solver.Runs, Build, GramOf, ApplyT, Solver.NearlyDependent, AreMeans;
    Solver.RunsMeans(gram, rhs);
    if !Solver.Runs(gram, rhs) {
      var k :| Solver.NearlyDependent(gram, k, Solver.PIVOT_TOLERANCE);
      NotNearlyDependent(rows, means, deviations, alpha, gram, k);
    }
  }

  lemma NotNearlyDependent(rows: Matrix, means: Vec, deviations: Vec, alpha: real, gram: Matrix, k: nat)
    requires AreMeans(rows, means) && |means| == |deviations|
    requires forall i :: 0 <= i < |deviations| ==> deviations[i] != 0.0
    requires RidgeGram(Build(rows, means, deviations), alpha, gram, |deviations| + 1)
    requires alpha >= Times((|deviations| + 1) as real, Solver.PIVOT_TOLERANCE)
    ensures !Solver.NearlyDependent(gram, k, Solver.PIVOT_TOLERANCE)
  {
    hide Build, AreMeans, Times, Dot, RidgeGram;
    RidgeGramWidth(Build(rows, means, deviations), alpha, gram, |deviations| + 1);
    PositiveThreshold(|deviations| + 1);
    forall v ensures !Solver.Combines(gram, v, k, Solver.PIVOT_TOLERANCE) {
      if Solver.Combines(gram, v, k, Solver.PIVOT_TOLERANCE) {
        CombinationBoundsAlpha(rows, means, deviations, alpha, gram, v, k);
      }
    }
  }

  lemma PositiveThreshold(width: nat)
    ensures Times(width as real, Solver.PIVOT_TOLERANCE) >= 0.0
  {
  }

  lemma CombinationBoundsAlpha(rows: Matrix, means: Vec, deviations: Vec, alpha: real, gram: Matrix, v: Vec, k: nat)
    requires AreMeans(rows, means) && |means| == |deviations|
    requires forall i :: 0 <= i < |deviations| ==> deviations[i] != 0.0
    requires RidgeGram(Build(rows, means, deviations), alpha, gram, |deviations| + 1)
    requires alpha >= 0.0 && Solver.Combines(gram, v, k, Solver.PIVOT_TOLERANCE)
    ensures alpha < Times((|deviations| + 1) as real, Solver.PIVOT_TOLERANCE)
  {
    var x := Build(rows, means, deviations);
    assert |rows| >= 1 && |v| == |gram| && v[k] == 1.0;
    RidgeGramWidth(x, alpha, gram, |deviations| + 1);
    assert forall i :: 0 <= i < |v| ==> Solver.Abs(Apply(gram, v)[i]) < Solver.PIVOT_TOLERANCE;
    hide Build, AreMeans, Times, Dot, RidgeGram, Apply, SquareNorm, Solver.Combines;
    FirstProduct(rows, means, deviations, alpha, gram, v);
    InterceptBelow(v[0], |rows| as real, Solver.PIVOT_TOLERANCE);
    var m := LargestEntry(v);
    EnergyBoundsAlpha(x, alpha, gram, v, m);
  }

  lemma EnergyBoundsAlpha(x: Matrix, alpha: real, gram: Matrix, v: Vec, m: nat)
    requires RidgeGram(x, alpha, gram, |v|) && alpha >= 0.0
    requires 0 < m < |v| && Solver.Abs(v[m]) >= 1.0 && forall i :: 0 <= i < |v| ==> Solver.Abs(v[i]) <= Solver.Abs(v[m])
    requires forall i :: 0 <= i < |v| ==> Solver.Abs(Apply(gram, v)[i]) < Solver.PIVOT_TOLERANCE
    ensures alpha < Times(|v| as real, Solver.PIVOT_TOLERANCE)
  {
    hide RidgeGram, Times, Dot, Apply, SquareNorm;
    RidgeGramWidth(x, alpha, gram, |v|);
    var size := Solver.Abs(v[m]);
    GramEnergy(x, alpha, gram, v);
    SquareNormNonNegative(Apply(x, v));
    DotBelow(v, Apply(gram, v), size, Solver.PIVOT_TOLERANCE);
    NormAtLeast(v[1..], m - 1);
    SameSize(v[m]);
    TimesMonotone(alpha, Times(size, size), SquareNorm(v[1..]));
    hide Solver.Abs;
    AlphaBelow(alpha, |v| as real, size, Solver.PIVOT_TOLERANCE);
  }

  lemma TimesMonotone(a: real, b: real, c: real)
    requires a >= 0.0 && b <= c
    ensures Times(a, b) <= Times(a, c)
  {
    MonotoneProduct(a, b, c, Times(a, b), Times(a, c));
  }

  method Means(rows: Matrix, width: nat) returns (means: Vec)
    requires rows != [] && Rectangular(rows, width)
    ensures |means| == width && AreMeans(rows, means)
  {
    hide Column, Total;
    means := seq(width, c requires 0 <= c < width => Mean(Column(rows, c)));
  }

  // ---------- The deviations ----------

  // The squared distances from the mean.
  function Spread(column: Vec, mean: real): real {
    if column == [] then 0.0 else Times(column[0] - mean, column[0] - mean) + Spread(column[1..], mean)
  }

  function Freedom(n: nat): (r: real)
    ensures r >= 1.0
  {
    if n > 2 then (n - 1) as real else 1.0
  }

  function Variance(column: Vec): real
    requires column != []
  {
    Spread(column, Mean(column)) / Freedom(|column|)
  }

  // The square root is handed in; a root of zero gives way to one.
  function Deviation(sqrt: real -> real, column: Vec): (d: real)
    requires column != []
    ensures d != 0.0
  {
    var root := sqrt(Variance(column));
    if root == 0.0 then 1.0 else root
  }

  ghost predicate AreDeviations(sqrt: real -> real, rows: Matrix, deviations: Vec) {
    && rows != [] && Rectangular(rows, |deviations|)
    && forall c :: 0 <= c < |deviations| ==> deviations[c] == Deviation(sqrt, Column(rows, c))
  }

  lemma SquareOfQuotient(a: real, d: real, z: real)
    requires d != 0.0 && z == a / d
    ensures Times(Times(z, z), Times(d, d)) == Times(a, a)
  {
    assert z * d == a;
    assert (z * z) * (d * d) == (z * d) * (z * d);
  }

  lemma TimesDistributes(a: real, b: real, c: real)
    ensures Times(a + b, c) == Times(a, c) + Times(b, c)
  {
  }

  lemma NormCons(v: Vec)
    requires v != []
    ensures SquareNorm(v) == Times(v[0], v[0]) + SquareNorm(v[1..])
  {
  }

  lemma {:induction false} ScaledSpread(column: Vec, mean: real, d: real)
    requires d != 0.0
    ensures Times(SquareNorm(ScaleAll(column, mean, d)), Times(d, d)) == Spread(column, mean)
  {
    var scaled := ScaleAll(column, mean, d);
    if column == [] {
      assert SquareNorm([]) == 0.0 && Times(0.0, Times(d, d)) == 0.0;
    } else {
      assert scaled[1..] == ScaleAll(column[1..], mean, d);
      hide Times, ScaleAll, SquareNorm;
      ScaledSpread(column[1..], mean, d);
      NormCons(scaled);
      SquareOfQuotient(column[0] - mean, d, scaled[0]);
      TimesDistributes(Times(scaled[0], scaled[0]), SquareNorm(scaled[1..]), Times(d, d));
    }
  }

  lemma CancelFactor(norm: real, v: real, freedom: real)
    requires v != 0.0 && Times(norm, v) == Times(v, freedom)
    ensures norm == freedom
  {
    assert v * (norm - freedom) == 0.0;
  }

  lemma SpreadOfVariance(column: Vec)
    requires column != []
    ensures Times(Variance(column), Freedom(|column|)) == Spread(column, Mean(column))
  {
    hide Spread, Mean, Freedom;
    Requotient(Spread(column, Mean(column)), Freedom(|column|));
  }

  lemma Requotient(spread: real, freedom: real)
    requires freedom != 0.0
    ensures Times(spread / freedom, freedom) == spread
  {
  }

  lemma ZeroTimes(a: real)
    ensures Times(0.0, a) == 0.0 && Times(a, Times(1.0, 1.0)) == a
  {
  }

  lemma NormFromSpread(norm: real, v: real, freedom: real, root: real, d: real)
    requires Times(root, root) == v && d == (if root == 0.0 then 1.0 else root)
    requires Times(norm, Times(d, d)) == Times(v, freedom)
    ensures norm == if v == 0.0 then 0.0 else freedom
  {
    ZeroTimes(freedom);
    ZeroTimes(norm);
    hide Times;
    if v == 0.0 {
      RootOfZero(root);
    } else {
      assert root != 0.0 by { if root == 0.0 { ZeroTimes(0.0); } }
      CancelFactor(norm, v, freedom);
    }
  }

  // Standardised with a true square root, every feature that varies has the sample variance one,
  // and a constant feature becomes zero.
  lemma StandardisedFeature(sqrt: real -> real, column: Vec)
    requires column != []
    requires var v := Variance(column); Times(sqrt(v), sqrt(v)) == v
    ensures SquareNorm(ScaleAll(column, Mean(column), Deviation(sqrt, column))) ==
            if Variance(column) == 0.0 then 0.0 else if |column| == 1 then 1.0 else |column| as real - 1.0
  {
    assert Freedom(|column|) == if |column| == 1 then 1.0 else |column| as real - 1.0;
    hide Times, ScaleAll, SquareNorm, Spread, Freedom, Mean, Variance;
    var v, d := Variance(column), Deviation(sqrt, column);
    ScaledSpread(column, Mean(column), d);
    SpreadOfVariance(column);
    NormFromSpread(SquareNorm(ScaleAll(column, Mean(column), d)), v, Freedom(|column|), sqrt(v), d);
  }

  lemma RootOfZero(root: real)
    requires Times(root, root) == 0.0
    ensures root == 0.0
  {
    if root != 0.0 { SameSignProduct(root, root, root * root); }
  }

  method Deviations(rows: Matrix, width: nat, sqrt: real -> real) returns (deviations: Vec)
    requires rows != [] && Rectangular(rows, width)
    ensures |deviations| == width && AreDeviations(sqrt, rows, deviations)
  {
    hide Column, Variance;
    deviations := [];
    for c := 0 to width
      invariant |deviations| == c && forall i :: 0 <= i < c ==> deviations[i] == Deviation(sqrt, Column(rows, i))
    {
      var root := sqrt(Variance(Column(rows, c)));
      deviations := deviations + [if root == 0.0 then 1.0 else root];
    }
  }

  // The training half of the regression, for any function in place of the square root.
  method Fit(rows: Matrix, y: Vec, width: nat, sqrt: real -> real, alpha: real)
    returns (means: Vec, deviations: Vec, r: Result<Vec, string>)
    requires rows != [] && Rectangular(rows, width) && |y| == |rows| && alpha >= 0.0
    ensures |means| == |deviations| == width && AreMeans(rows, means) && AreDeviations(sqrt, rows, deviations)
    ensures forall i :: 0 <= i < width ==> deviations[i] != 0.0
    ensures var x := Build(rows, means, deviations);
            r.Ok? <==> Solver.Runs(GramOf(x, alpha, width + 1), ApplyT(x, width + 1, y))
    ensures alpha >= Times((width + 1) as real, 0.000000000001) ==> r.Ok?
    ensures r.Ok? ==> |r.value| == width + 1 && r.value[0] == Mean(y)
    ensures r.Ok? ==> forall v: Vec | |v| == |r.value| && v != r.value ::
              Loss(Build(rows, means, deviations), y, alpha, r.value) < Loss(Build(rows, means, deviations), y, alpha, v)
  {
    means := Means(rows, width);
    deviations := Deviations(rows, width, sqrt);
    hide Column, Build, Loss, Total, AreMeans, NormalEquations, Solver.Runs, GramOf, ApplyT, Deviation, Times;
    r := FitDesign(rows, y, means, deviations, alpha);
  }

  method FitDesign(rows: Matrix, y: Vec, means: Vec, deviations: Vec, alpha: real) returns (r: Result<Vec, string>)
    requires rows != [] && Rectangular(rows, |deviations|) && |y| == |rows| && alpha >= 0.0
    requires |means| == |deviations| && AreMeans(rows, means)
    requires forall i :: 0 <= i < |deviations| ==> deviations[i] != 0.0
    ensures var x := Build(rows, means, deviations);
            r.Ok? <==> Solver.Runs(GramOf(x, alpha, |deviations| + 1), ApplyT(x, |deviations| + 1, y))
    ensures alpha >= Times((|deviations| + 1) as real, 0.000000000001) ==> r.Ok?
    ensures r.Ok? ==> |r.value| == |deviations| + 1 && r.value[0] == Mean(y)
    ensures r.Ok? ==> forall v: Vec | |v| == |r.value| && v != r.value ::
              Loss(Build(rows, means, deviations), y, alpha, r.value) < Loss(Build(rows, means, deviations), y, alpha, v)
  {
    hide Column, Build, Loss, Total, AreMeans, NormalEquations, Solver.Runs, GramOf, ApplyT;
    var x := Build(rows, means, deviations);
    r := FitWeights(x, y, alpha, |deviations| + 1);
    if alpha >= Times((|deviations| + 1) as real, Solver.PIVOT_TOLERANCE) { StrongRidgeRuns(rows, means, deviations, y, alpha); }
    if r.Ok? { InterceptIsMean(rows, means, deviations, y, alpha, r.value); }
  }
}
