// Gauss-Jordan elimination with partial pivoting, in place on the rows of the
// augmented matrix.
module Solver {
  import opened Wrappers
  import opened Reals
  import opened Vectors

  const PIVOT_TOLERANCE := 0.000000000001

  ghost predicate Square(a: Matrix, b: Vec) {
    |a| == |b| && Rectangular(a, |b|)
  }

  ghost predicate Solves(a: Matrix, b: Vec, x: Vec) {
    Square(a, b) && |x| == |b| && forall i :: 0 <= i < |a| ==> Dot(a[i], x) == b[i]
  }

  // A nonzero vector that the matrix sends to zero.
  ghost predicate KernelVector(a: Matrix, v: Vec) {
    Solves(a, Zeros(|v|), v) && v != Zeros(|v|)
  }

  ghost predicate Singular(a: Matrix) {
    exists v :: KernelVector(a, v)
  }

  function Abs(x: real): real { if x < 0.0 then -x else x }

  function Augment(a: Matrix, b: Vec): (r: Matrix)
    requires |a| == |b|
    ensures |r| == |a| && forall i :: 0 <= i < |r| ==> r[i] == a[i] + [b[i]]
  {
    if a == [] then [] else [a[0] + [b[0]]] + Augment(a[1..], b[1..])
  }

  // ---------- Row operations keep the kernel of the augmented matrix ----------

  ghost predicate InKernel(rows: Matrix, y: Vec) {
    Rectangular(rows, |y|) && forall i :: 0 <= i < |rows| ==> Dot(rows[i], y) == 0.0
  }

  ghost predicate SameKernel(r: Matrix, s: Matrix, width: nat) {
    && |r| == |s| && Rectangular(r, width) && Rectangular(s, width)
    && forall y: Vec | |y| == width :: InKernel(r, y) <==> InKernel(s, y)
  }

  lemma SwapKeepsKernel(rows: Matrix, i: nat, j: nat, width: nat)
    requires i < |rows| && j < |rows| && Rectangular(rows, width)
    ensures SameKernel(rows, rows[i := rows[j]][j := rows[i]], width)
  {
    var s := rows[i := rows[j]][j := rows[i]];
    forall y: Vec | |y| == width ensures InKernel(rows, y) <==> InKernel(s, y) {
      assert s[i] == rows[j] && s[j] == rows[i];
      assert forall k :: 0 <= k < |rows| && k != i && k != j ==> s[k] == rows[k];
    }
  }

  // row / divisor
  function Divide(row: Vec, divisor: real): (r: Vec)
    requires divisor != 0.0
    ensures |r| == |row| && forall k :: 0 <= k < |r| ==> r[k] == row[k] / divisor
  {
    seq(|row|, k requires 0 <= k < |row| => row[k] / divisor)
  }

  lemma {:induction false} DotDivide(row: Vec, d: real, y: Vec)
    requires d != 0.0 && |row| == |y|
    ensures d * Dot(Divide(row, d), y) == Dot(row, y)
  {
    if row != [] {
      DotDivide(row[1..], d, y[1..]);
      assert Divide(row, d)[1..] == Divide(row[1..], d);
      var q, rest := row[0] / d, Dot(Divide(row, d)[1..], y[1..]);
      assert d * (q * y[0] + rest) == (d * q) * y[0] + d * rest;
    }
  }

  lemma DivideKeepsZero(row: Vec, d: real, y: Vec)
    requires d != 0.0 && |row| == |y|
    ensures Dot(row, y) == 0.0 <==> Dot(Divide(row, d), y) == 0.0
  {
    DotDivide(row, d, y);
  }

  lemma DivideKeepsKernel(rows: Matrix, i: nat, d: real, width: nat)
    requires i < |rows| && d != 0.0 && Rectangular(rows, width)
    ensures SameKernel(rows, rows[i := Divide(rows[i], d)], width)
  {
    var s := rows[i := Divide(rows[i], d)];
    forall y: Vec | |y| == width ensures InKernel(rows, y) <==> InKernel(s, y) {
      DivideKeepsZero(rows[i], d, y);
      assert forall k :: 0 <= k < |rows| && k != i ==> s[k] == rows[k];
    }
  }

  lemma EliminateKeepsKernel(rows: Matrix, i: nat, p: nat, factor: real, width: nat)
    requires i < |rows| && p < |rows| && i != p && Rectangular(rows, width)
    ensures SameKernel(rows, rows[i := Axpy(rows[i], -factor, rows[p])], width)
  {
    var s := rows[i := Axpy(rows[i], -factor, rows[p])];
    forall y: Vec | |y| == width ensures InKernel(rows, y) <==> InKernel(s, y) {
      DotAxpy(rows[i], -factor, rows[p], y);
      assert s[p] == rows[p];
      assert forall k :: 0 <= k < |rows| && k != i ==> s[k] == rows[k];
      assert Dot(rows[p], y) == 0.0 ==> Dot(s[i], y) == Dot(rows[i], y);
    }
  }

  lemma SameKernelTrans(r: Matrix, s: Matrix, t: Matrix, width: nat)
    requires SameKernel(r, s, width) && SameKernel(s, t, width)
    ensures SameKernel(r, t, width)
  {
  }

  // ---------- Columns already reduced ----------

  // Column c is the c-th unit column.
  ghost predicate UnitColumn(rows: Matrix, c: nat) {
    forall i :: 0 <= i < |rows| ==> c < |rows[i]| && rows[i][c] == (if i == c then 1.0 else 0.0)
  }

  ghost predicate Reduced(rows: Matrix, columns: nat) {
    forall c: nat :: c < columns ==> UnitColumn(rows, c)
  }

  // No entry on or below the diagonal of this column is a usable pivot.
  ghost predicate NoPivot(rows: Matrix, c: nat) {
    forall i :: c <= i < |rows| ==> c < |rows[i]| && Abs(rows[i][c]) < PIVOT_TOLERANCE
  }

  // What a raised "singular" error tells: some row-equivalent system has its
  // first c columns reduced and no usable pivot in column c.
  ghost predicate Stuck(rows: Matrix, a: Matrix, b: Vec, c: nat) {
    && Square(a, b) && c < |a| && SameKernel(Augment(a, b), rows, |b| + 1)
    && Reduced(rows, c) && NoPivot(rows, c)
  }

  // ---------- Reading the solution off a fully reduced matrix ----------

  lemma DotSingle(x: real, y: real)
    ensures Dot([x], [y]) == x * y
  {
    assert Dot([x][1..], [y][1..]) == 0.0;
  }

  lemma {:induction false} DotConcat(a: Vec, b: Vec, p: Vec, q: Vec)
    requires |a| == |b| && |p| == |q|
    ensures Dot(a + p, b + q) == Dot(a, b) + Dot(p, q)
  {
    if a == [] {
      assert a + p == p && b + q == q;
    } else {
      DotConcat(a[1..], b[1..], p, q);
      assert (a + p)[1..] == a[1..] + p && (b + q)[1..] == b[1..] + q;
    }
  }

  lemma DotAppend(a: Vec, b: Vec, p: real, q: real)
    requires |a| == |b|
    ensures Dot(a + [p], b + [q]) == Dot(a, b) + p * q
  {
    DotConcat(a, b, [p], [q]);
    DotSingle(p, q);
  }

  lemma {:induction false} DotUnit(row: Vec, i: nat, x: Vec)
    requires |row| == |x| && i < |row|
    requires forall k :: 0 <= k < |row| ==> row[k] == (if k == i then 1.0 else 0.0)
    ensures Dot(row, x) == x[i]
  {
    if i == 0 {
      assert row[1..] == Zeros(|row| - 1);
      DotCommutes(row[1..], x[1..]);
      DotZeros(x[1..]);
    } else {
      DotUnit(row[1..], i - 1, x[1..]);
    }
  }

  lemma SolvesIffKernel(a: Matrix, b: Vec, x: Vec)
    requires Square(a, b) && |x| == |b|
    ensures Solves(a, b, x) <==> InKernel(Augment(a, b), x + [-1.0])
  {
    forall i | 0 <= i < |a| ensures Dot(a[i] + [b[i]], x + [-1.0]) == Dot(a[i], x) - b[i] {
      DotAppend(a[i], x, b[i], -1.0);
    }
  }

  lemma ReducedKernel(rows: Matrix, x: Vec)
    requires Rectangular(rows, |rows| + 1) && |x| == |rows| && Reduced(rows, |rows|)
    ensures InKernel(rows, x + [-1.0]) <==> forall i :: 0 <= i < |rows| ==> x[i] == rows[i][|rows|]
  {
    var n := |rows|;
    forall i | 0 <= i < n ensures Dot(rows[i], x + [-1.0]) == x[i] - rows[i][n] {
      var row := rows[i][..n];
      assert rows[i] == row + [rows[i][n]];
      DotAppend(row, x, rows[i][n], -1.0);
      forall k | 0 <= k < n ensures row[k] == (if k == i then 1.0 else 0.0) {
        assert UnitColumn(rows, k);
      }
      DotUnit(row, i, x);
    }
  }

  lemma ReducedSolution(a: Matrix, b: Vec, rows: Matrix, x: Vec)
    requires Square(a, b) && |x| == |b|
    requires SameKernel(Augment(a, b), rows, |b| + 1) && Reduced(rows, |b|)
    ensures Solves(a, b, x) <==> forall i :: 0 <= i < |rows| ==> x[i] == rows[i][|rows|]
  {
    SolvesIffKernel(a, b, x);
    ReducedKernel(rows, x);
    var y := x + [-1.0];
    assert |y| == |b| + 1;
    assert InKernel(Augment(a, b), y) <==> InKernel(rows, y);
  }

  function LastColumn(rows: Matrix): (x: Vec)
    requires forall i :: 0 <= i < |rows| ==> rows[i] != []
    ensures |x| == |rows| && forall i :: 0 <= i < |x| ==> x[i] == rows[i][|rows[i]| - 1]
  {
    seq(|rows|, i requires 0 <= i < |rows| => rows[i][|rows[i]| - 1])
  }

  // Adding a kernel vector to a solution gives another one, so a uniquely
  // solvable matrix is not singular.
  lemma UniqueMeansNonsingular(a: Matrix, b: Vec, x: Vec)
    requires forall z :: Solves(a, b, z) <==> z == x
    ensures !Singular(a)
  {
    assert Solves(a, b, x);
    forall v | Solves(a, Zeros(|v|), v) ensures v == Zeros(|v|) {
      var z := Axpy(x, 1.0, v);
      forall i | 0 <= i < |a| ensures Dot(a[i], z) == b[i] { DotRightAxpy(a[i], x, 1.0, v); }
      assert Solves(a, b, z);
      assert z == x;
      assert forall k :: 0 <= k < |v| ==> z[k] == x[k] + 1.0 * v[k];
    }
  }

  lemma ReducedIsSolved(a: Matrix, b: Vec, rows: Matrix)
    requires Square(a, b)
    requires SameKernel(Augment(a, b), rows, |b| + 1) && Reduced(rows, |b|)
    ensures forall x :: Solves(a, b, x) <==> x == LastColumn(rows)
    ensures !Singular(a)
  {
    hide Dot, Reduced;
    forall x ensures Solves(a, b, x) <==> x == LastColumn(rows) {
      if |x| == |b| { ReducedSolution(a, b, rows, x); }
    }
    UniqueMeansNonsingular(a, b, LastColumn(rows));
  }

  // The kernel vector read off a reduced matrix whose column c has no pivot.
  function FreeVector(rows: Matrix, c: nat): (v: Vec)
    requires c < |rows| && forall i :: 0 <= i < |rows| ==> c < |rows[i]|
    ensures |v| == |rows| && v[c] == 1.0
    ensures forall j :: 0 <= j < c ==> v[j] == -rows[j][c]
    ensures forall j :: c < j < |v| ==> v[j] == 0.0
  {
    seq(|rows|, j requires 0 <= j < |rows| => if j < c then -rows[j][c] else if j == c then 1.0 else 0.0)
  }

  // A row whose first c entries are those of the i-th unit row, against a vector
  // that ends in a one at position c.
  lemma FreeVectorRow(row: Vec, v: Vec, i: nat, c: nat)
    requires |row| == |v| + 1 && c < |v| && v[c] == 1.0
    requires forall k :: 0 <= k < c ==> row[k] == (if k == i then 1.0 else 0.0)
    requires forall j :: c < j < |v| ==> v[j] == 0.0
    ensures Dot(row, v + [0.0]) == row[c] + (if i < c then v[i] else 0.0)
  {
    hide Dot, Zeros;
    var left, right := row[..c], row[c + 1..];
    if i < c {
      DotUnit(left, i, v[..c]);
    } else {
      assert left == Zeros(c);
      DotCommutes(left, v[..c]);
      DotZeros(v[..c]);
    }
    assert v[c + 1..] + [0.0] == Zeros(|right|);
    DotZeros(right);
    DotSingle(row[c], 1.0);
    DotConcat([row[c]], [1.0], right, Zeros(|right|));
    DotConcat(left, v[..c], [row[c]] + right, [1.0] + Zeros(|right|));
    assert row == left + ([row[c]] + right);
    assert v + [0.0] == v[..c] + ([1.0] + Zeros(|right|));
  }

  // When the column without a pivot is exactly zero there, the matrix is singular.
  lemma StuckAtZeroIsSingular(rows: Matrix, a: Matrix, b: Vec, c: nat)
    requires Stuck(rows, a, b, c)
    requires forall i :: c <= i < |rows| ==> rows[i][c] == 0.0
    ensures Singular(a)
  {
    var v := FreeVector(rows, c);
    forall i | 0 <= i < |rows| ensures Dot(rows[i], v + [0.0]) == 0.0 {
      forall k | 0 <= k < c ensures rows[i][k] == (if k == i then 1.0 else 0.0) {
        assert UnitColumn(rows, k);
      }
      FreeVectorRow(rows[i], v, i, c);
    }
    assert InKernel(rows, v + [0.0]);
    KernelDropsRightSide(a, b, v);
    assert v[c] != Zeros(|v|)[c];
    assert KernelVector(a, v);
  }

  lemma KernelDropsRightSide(a: Matrix, b: Vec, v: Vec)
    requires Square(a, b) && |v| == |b| && InKernel(Augment(a, b), v + [0.0])
    ensures Solves(a, Zeros(|v|), v)
  {
    forall i | 0 <= i < |a| ensures Dot(a[i], v) == 0.0 {
      DotAppend(a[i], v, b[i], 0.0);
      assert Dot(Augment(a, b)[i], v + [0.0]) == 0.0;
    }
  }

  // The threshold is absolute, so the error message is not exact: this
  // one-by-one system has a unique solution and raises all the same.
  lemma TinyPivotIsRejected()
    ensures var a, b := [[0.0000000000001]], [1.0];
            Stuck(Augment(a, b), a, b, 0) && !Runs(a, b) && !Singular(a)
  {
    var e := 0.0000000000001;
    var a, b := [[e]], [1.0];
    assert NoPivot(Augment(a, b), 0);
    NoPivotIff(Augment(a, b), 0);
    EliminatedStep(Augment(a, b), 0);
    forall v | Solves(a, Zeros(|v|), v) ensures v == Zeros(|v|) {
      assert v == [v[0]];
      DotSingle(e, v[0]);
      assert Dot(a[0], v) == e * v[0];
    }
  }

  // ---------- The elimination as a function of the rows ----------

  // The first row of [c, k) with the largest entry in column c.
  function PivotAmong(rows: Matrix, c: nat, k: nat): (p: nat)
    requires c < k <= |rows| && forall i :: 0 <= i < |rows| ==> c < |rows[i]|
    ensures c <= p < k
  {
    if k == c + 1 then c
    else
      var p := PivotAmong(rows, c, k - 1);
      if Abs(rows[k - 1][c]) > Abs(rows[p][c]) then k - 1 else p
  }

  function Swapped(rows: Matrix, c: nat, p: nat): Matrix
    requires c < |rows| && p < |rows|
  {
    rows[c := rows[p]][p := rows[c]]
  }

  function Scaled(rows: Matrix, c: nat): Matrix
    requires c < |rows| && c < |rows[c]| && rows[c][c] != 0.0
  {
    rows[c := Divide(rows[c], rows[c][c])]
  }

  // row - factor * pivot
  function ClearRow(row: Vec, factor: real, pivot: Vec): (r: Vec)
    requires |row| == |pivot|
    ensures |r| == |row|
  {
    Axpy(row, -factor, pivot)
  }

  // Column c cleared from every row but row c.
  function Cleared(rows: Matrix, c: nat): (r: Matrix)
    requires c < |rows| && Rectangular(rows, |rows| + 1)
    ensures |r| == |rows| && Rectangular(r, |rows| + 1)
    ensures forall i :: 0 <= i < |r| ==> r[i] == if i == c then rows[c] else ClearRow(rows[i], rows[i][c], rows[c])
  {
    seq(|rows|, i requires 0 <= i < |rows| => if i == c then rows[c] else ClearRow(rows[i], rows[i][c], rows[c]))
  }

  // One turn of the column loop; None is the raise.
  function ColumnStep(rows: Matrix, c: nat): (r: Option<Matrix>)
    requires c < |rows| && Rectangular(rows, |rows| + 1)
    ensures r.Some? ==> |r.value| == |rows| && Rectangular(r.value, |rows| + 1)
  {
    var p := PivotAmong(rows, c, |rows|);
    if Abs(rows[p][c]) < PIVOT_TOLERANCE then None else Some(Cleared(Scaled(Swapped(rows, c, p), c), c))
  }

  // The columns from c on.
  function Eliminated(rows: Matrix, c: nat): (r: Option<Matrix>)
    requires c <= |rows| && Rectangular(rows, |rows| + 1)
    decreases |rows| - c
  {
    if c == |rows| then Some(rows) else
      match ColumnStep(rows, c)
      case None => None
      case Some(next) => Eliminated(next, c + 1)
  }

  // ---------- The solver ----------

  // The first row at or below `column` with the largest entry in that column.
  method PivotRow(aug: array<Vec>, column: nat) returns (pivot: nat)
    requires column < aug.Length && forall i :: 0 <= i < aug.Length ==> column < |aug[i]|
    ensures column <= pivot < aug.Length
    ensures forall i :: column <= i < aug.Length ==> Abs(aug[i][column]) <= Abs(aug[pivot][column])
    ensures forall i :: column <= i < pivot ==> Abs(aug[i][column]) < Abs(aug[pivot][column])
    ensures pivot == PivotAmong(aug[..], column, aug.Length)
  {
    pivot := column;
    for row := column + 1 to aug.Length
      invariant column <= pivot < row && pivot == PivotAmong(aug[..], column, row)
      invariant forall i :: column <= i < row ==> Abs(aug[i][column]) <= Abs(aug[pivot][column])
      invariant forall i :: column <= i < pivot ==> Abs(aug[i][column]) < Abs(aug[pivot][column])
    {
      if Abs(aug[row][column]) > Abs(aug[pivot][column]) { pivot := row; }
    }
  }

  // Column c cleared from the first k rows only.
  function ClearedTo(rows: Matrix, c: nat, k: nat): (r: Matrix)
    requires c < |rows| && k <= |rows| && Rectangular(rows, |rows| + 1)
    ensures |r| == |rows| && Rectangular(r, |rows| + 1) && r[c] == rows[c]
    ensures forall i :: 0 <= i < |r| ==> r[i] == if i == c || i >= k then rows[i] else ClearRow(rows[i], rows[i][c], rows[c])
  {
    seq(|rows|, i requires 0 <= i < |rows| => if i == c || i >= k then rows[i] else ClearRow(rows[i], rows[i][c], rows[c]))
  }

  lemma ClearedToStep(rows: Matrix, c: nat, k: nat)
    requires c < |rows| && k < |rows| && Rectangular(rows, |rows| + 1)
    ensures var s := ClearedTo(rows, c, k);
            ClearedTo(rows, c, k + 1) == if k == c then s else s[k := ClearRow(s[k], s[k][c], s[c])]
  {
    hide ClearRow;
  }

  lemma SameKernelRefl(rows: Matrix, width: nat)
    requires Rectangular(rows, width)
    ensures SameKernel(rows, rows, width)
  {
    hide InKernel;
  }

  lemma ClearOne(s: Matrix, i: nat, c: nat, t: Matrix)
    requires i < |s| && c < |s| && i != c && Rectangular(s, |s| + 1) && Reduced(s, c)
    requires t == s[i := ClearRow(s[i], s[i][c], s[c])]
    ensures SameKernel(s, t, |s| + 1) && Reduced(t, c)
  {
    hide Axpy, Reduced, SameKernel;
    EliminateKeepsKernel(s, i, c, s[i][c], |s| + 1);
    EliminateKeepsReduced(s, i, c, s[i][c]);
  }

  lemma {:induction false} ClearedToKeeps(rows: Matrix, c: nat, k: nat)
    requires c < |rows| && k <= |rows| && Rectangular(rows, |rows| + 1) && Reduced(rows, c)
    ensures SameKernel(rows, ClearedTo(rows, c, k), |rows| + 1) && Reduced(ClearedTo(rows, c, k), c)
  {
    hide ClearRow, Reduced, SameKernel;
    if k == 0 {
      assert ClearedTo(rows, c, 0) == rows;
      SameKernelRefl(rows, |rows| + 1);
    } else {
      hide ClearedTo;
      ClearedToKeeps(rows, c, k - 1);
      ClearedToStep(rows, c, k - 1);
      if k - 1 != c {
        var s, t := ClearedTo(rows, c, k - 1), ClearedTo(rows, c, k);
        ClearOne(s, k - 1, c, t);
        SameKernelTrans(rows, s, t, |rows| + 1);
      }
    }
  }

  lemma ClearedKeeps(rows: Matrix, c: nat)
    requires c < |rows| && Rectangular(rows, |rows| + 1) && rows[c][c] == 1.0 && Reduced(rows, c)
    ensures SameKernel(rows, Cleared(rows, c), |rows| + 1) && Reduced(Cleared(rows, c), c + 1)
  {
    hide Reduced, SameKernel;
    ClearedToKeeps(rows, c, |rows|);
    assert ClearedTo(rows, c, |rows|) == Cleared(rows, c);
    ReducedExtends(Cleared(rows, c), c);
  }

  // The inner loop: clears the column from every row but the pivot row.
  method ClearRows(aug: array<Vec>, column: nat)
    requires column < aug.Length && Rectangular(aug[..], aug.Length + 1)
    modifies aug
    ensures aug[..] == Cleared(old(aug[..]), column)
  {
    hide ClearRow;
    var n := aug.Length;
    ghost var start := aug[..];
    for row := 0 to n
      invariant aug[column] == start[column]
      invariant forall i :: 0 <= i < row ==> aug[i] == Cleared(start, column)[i]
      invariant forall i :: row <= i < n ==> aug[i] == start[i]
    {
      if row != column {
        var factor := aug[row][column];
        aug[row] := ClearRow(aug[row], factor, aug[column]);
      }
    }
    assert aug[..] == Cleared(start, column);
  }

  // Clears `column`, which becomes a unit column.
  method EliminateColumn(aug: array<Vec>, column: nat)
    requires column < aug.Length && Rectangular(aug[..], aug.Length + 1)
    requires aug[column][column] == 1.0 && Reduced(aug[..], column)
    modifies aug
    ensures SameKernel(old(aug[..]), aug[..], aug.Length + 1)
    ensures Reduced(aug[..], column + 1)
    ensures aug[..] == Cleared(old(aug[..]), column)
  {
    ClearedKeeps(aug[..], column);
    hide Reduced, SameKernel;
    ClearRows(aug, column);
  }

  lemma EliminateKeepsReduced(rows: Matrix, i: nat, p: nat, factor: real)
    requires i < |rows| && p < |rows| && i != p && Rectangular(rows, |rows| + 1)
    requires Reduced(rows, p)
    ensures Reduced(rows[i := Axpy(rows[i], -factor, rows[p])], p)
  {
    var s := rows[i := Axpy(rows[i], -factor, rows[p])];
    forall c: nat | c < p ensures UnitColumn(s, c) {
      assert UnitColumn(rows, c);
      assert rows[p][c] == 0.0;
      assert s[i][c] == rows[i][c] + (-factor) * rows[p][c];
    }
  }

  lemma ReducedExtends(rows: Matrix, column: nat)
    requires column < |rows| && Rectangular(rows, |rows| + 1) && Reduced(rows, column)
    requires rows[column][column] == 1.0
    requires forall i :: 0 <= i < |rows| && i != column ==> rows[i][column] == 0.0
    ensures Reduced(rows, column + 1)
  {
    assert UnitColumn(rows, column);
  }

  // Exchanges the pivot row with the row at the diagonal.
  method SwapRows(aug: array<Vec>, column: nat, pivot: nat)
    requires column <= pivot < aug.Length && Rectangular(aug[..], aug.Length + 1)
    requires Reduced(aug[..], column)
    modifies aug
    ensures SameKernel(old(aug[..]), aug[..], aug.Length + 1)
    ensures Reduced(aug[..], column) && aug[..] == Swapped(old(aug[..]), column, pivot)
  {
    ghost var start := aug[..];
    aug[column], aug[pivot] := aug[pivot], aug[column];
    assert aug[..] == start[column := start[pivot]][pivot := start[column]];
    SwapKeepsKernel(start, column, pivot, aug.Length + 1);
    SwapKeepsReduced(start, column, pivot);
  }

  lemma SwapKeepsReduced(rows: Matrix, column: nat, pivot: nat)
    requires column <= pivot < |rows| && Reduced(rows, column)
    ensures Reduced(Swapped(rows, column, pivot), column)
  {
    forall c: nat | c < column ensures UnitColumn(Swapped(rows, column, pivot), c) {
      assert UnitColumn(rows, c);
    }
  }

  lemma DivideKeepsReduced(rows: Matrix, column: nat, d: real)
    requires column < |rows| && Rectangular(rows, |rows| + 1) && Reduced(rows, column) && d != 0.0
    ensures Reduced(rows[column := Divide(rows[column], d)], column)
  {
    var s := rows[column := Divide(rows[column], d)];
    forall c: nat | c < column ensures UnitColumn(s, c) {
      assert UnitColumn(rows, c);
      assert rows[column][c] == 0.0;
    }
  }

  lemma SelfDivision(d: real)
    requires d != 0.0
    ensures d / d == 1.0
  {
  }

  // Scales the row at the diagonal to a leading one.
  method ScaleRow(aug: array<Vec>, column: nat)
    requires column < aug.Length && Rectangular(aug[..], aug.Length + 1)
    requires Reduced(aug[..], column) && aug[column][column] != 0.0
    modifies aug
    ensures SameKernel(old(aug[..]), aug[..], aug.Length + 1)
    ensures Reduced(aug[..], column) && aug[column][column] == 1.0
    ensures aug[..] == Scaled(old(aug[..]), column)
  {
    ghost var start := aug[..];
    var divisor := aug[column][column];
    aug[column] := Divide(aug[column], divisor);
    assert aug[..] == start[column := Divide(start[column], divisor)];
    DivideKeepsKernel(start, column, divisor, aug.Length + 1);
    DivideKeepsReduced(start, column, divisor);
    SelfDivision(divisor);
    assert aug[column][column] == divisor / divisor;
  }

  // One pass of the outer loop: false when the column has no usable pivot.
  method ReduceColumn(aug: array<Vec>, column: nat) returns (ok: bool)
    requires column < aug.Length && Rectangular(aug[..], aug.Length + 1)
    requires Reduced(aug[..], column)
    modifies aug
    ensures SameKernel(old(aug[..]), aug[..], aug.Length + 1)
    ensures if ok then Reduced(aug[..], column + 1) else Reduced(aug[..], column) && NoPivot(aug[..], column)
    ensures ok <==> ColumnStep(old(aug[..]), column).Some?
    ensures ok ==> aug[..] == ColumnStep(old(aug[..]), column).value
  {
    hide Dot, InKernel;
    ghost var start := aug[..];
    var pivot := PivotRow(aug, column);
    if Abs(aug[pivot][column]) < PIVOT_TOLERANCE {
      return false;
    }
    SwapRows(aug, column, pivot);
    ghost var swapped := aug[..];
    ScaleRow(aug, column);
    ghost var scaled := aug[..];
    EliminateColumn(aug, column);
    SameKernelTrans(start, swapped, scaled, aug.Length + 1);
    SameKernelTrans(start, scaled, aug[..], aug.Length + 1);
    return true;
  }

  lemma EliminatedStep(rows: Matrix, c: nat)
    requires c <= |rows| && Rectangular(rows, |rows| + 1)
    ensures c == |rows| ==> Eliminated(rows, c) == Some(rows)
    ensures c < |rows| && ColumnStep(rows, c).None? ==> Eliminated(rows, c) == None
    ensures c < |rows| && ColumnStep(rows, c).Some? ==> Eliminated(rows, c) == Eliminated(ColumnStep(rows, c).value, c + 1)
  {
    hide ColumnStep;
  }

  // The elimination of the augmented system runs through.
  predicate Runs(a: Matrix, b: Vec)
    requires |a| == |b| && Rectangular(a, |b|)
  {
    Eliminated(Augment(a, b), 0).Some?
  }

  // The outer loop. It runs through exactly when the elimination does.
  method ReduceAll(aug: array<Vec>) returns (ok: bool, ghost stuck: nat)
    requires Rectangular(aug[..], aug.Length + 1)
    modifies aug
    ensures Rectangular(aug[..], aug.Length + 1) && SameKernel(old(aug[..]), aug[..], aug.Length + 1)
    ensures ok ==> Reduced(aug[..], aug.Length) && Eliminated(old(aug[..]), 0) == Some(aug[..])
    ensures !ok ==> stuck < aug.Length && Reduced(aug[..], stuck) && NoPivot(aug[..], stuck) && Eliminated(old(aug[..]), 0) == None
  {
    hide Dot, InKernel, Reduced, SameKernel, NoPivot, ColumnStep, Eliminated;
    ghost var start := aug[..];
    NothingReduced(start);
    stuck := 0;
    for column := 0 to aug.Length
      invariant Rectangular(aug[..], aug.Length + 1) && SameKernel(start, aug[..], aug.Length + 1)
      invariant Reduced(aug[..], column)
      invariant Eliminated(aug[..], column) == Eliminated(start, 0)
    {
      ghost var was := aug[..];
      EliminatedStep(was, column);
      ok := ReduceColumn(aug, column);
      SameKernelTrans(start, was, aug[..], aug.Length + 1);
      if !ok { return false, column; }
    }
    EliminatedStep(aug[..], aug.Length);
    ok := true;
  }

  lemma NothingReduced(rows: Matrix)
    requires Rectangular(rows, |rows| + 1)
    ensures Reduced(rows, 0) && SameKernel(rows, rows, |rows| + 1)
  {
    SameKernelRefl(rows, |rows| + 1);
  }

  // ---------- What a raise says about the matrix ----------

  lemma {:induction false} PivotLargest(rows: Matrix, c: nat, k: nat, i: nat)
    requires c < k <= |rows| && forall j :: 0 <= j < |rows| ==> c < |rows[j]|
    requires c <= i < k
    ensures Abs(rows[i][c]) <= Abs(rows[PivotAmong(rows, c, k)][c])
    decreases k
  {
    if k > c + 1 && i < k - 1 { PivotLargest(rows, c, k - 1, i); }
  }

  lemma NoPivotIff(rows: Matrix, c: nat)
    requires c < |rows| && Rectangular(rows, |rows| + 1)
    ensures ColumnStep(rows, c).None? <==> NoPivot(rows, c)
  {
    hide Cleared, PivotAmong;
    forall i | c <= i < |rows| ensures Abs(rows[i][c]) <= Abs(rows[PivotAmong(rows, c, |rows|)][c]) {
      PivotLargest(rows, c, |rows|, i);
    }
  }

  lemma TimesZero(a: real)
    ensures Times(a, 0.0) == 0.0
  {
  }

  lemma DotScaled(row: Vec, d: real, y: Vec)
    requires d != 0.0 && |row| == |y|
    ensures Dot(row, y) == Times(d, Dot(Divide(row, d), y))
  {
    DotDivide(row, d, y);
  }

  lemma TimesNegate(factor: real, u: real, v: real, w: real)
    requires w == v + -factor * u
    ensures w == v - Times(factor, u)
  {
    assert (-factor) * u == -(factor * u);
  }

  lemma DotMinus(row: Vec, minus: real, factor: real, pivot: Vec, y: Vec)
    requires |row| == |pivot| == |y| && minus == -factor
    ensures Dot(Axpy(row, minus, pivot), y) == Dot(row, y) - Times(factor, Dot(pivot, y))
  {
    hide Dot, Axpy, Times;
    DotAxpy(row, minus, pivot, y);
    TimesNegate(factor, Dot(pivot, y), Dot(row, y), Dot(Axpy(row, minus, pivot), y));
  }

  lemma DotCleared(row: Vec, factor: real, pivot: Vec, y: Vec)
    requires |row| == |pivot| == |y|
    ensures Dot(ClearRow(row, factor, pivot), y) == Dot(row, y) - Times(factor, Dot(pivot, y))
  {
    var minus := -factor;
    ClearRowMinus(row, minus, factor, pivot);
    hide Dot, Axpy, Times, ClearRow;
    DotMinus(row, minus, factor, pivot, y);
  }

  lemma ClearRowMinus(row: Vec, minus: real, factor: real, pivot: Vec)
    requires |row| == |pivot| && minus == -factor
    ensures ClearRow(row, factor, pivot) == Axpy(row, minus, pivot)
  {
    hide Axpy;
  }

  lemma ClearedDots(t: Matrix, c: nat, y: Vec)
    requires c < |t| && Rectangular(t, |t| + 1) && |y| == |t| + 1
    ensures Cleared(t, c)[c] == t[c]
    ensures forall i :: 0 <= i < |t| && i != c ==> Dot(Cleared(t, c)[i], y) == Dot(t[i], y) - Times(t[i][c], Dot(t[c], y))
  {
    hide Dot, ClearRow, Cleared, Times;
    forall i | 0 <= i < |t| && i != c ensures Dot(Cleared(t, c)[i], y) == Dot(t[i], y) - Times(t[i][c], Dot(t[c], y)) {
      DotCleared(t[i], t[i][c], t[c], y);
    }
  }

  lemma StepShape(rows: Matrix, c: nat, next: Matrix, s: Matrix)
    requires c < |rows| && Rectangular(rows, |rows| + 1)
    requires ColumnStep(rows, c) == Some(next) && s == Swapped(rows, c, PivotAmong(rows, c, |rows|))
    ensures |next| == |s| == |rows| && Rectangular(next, |rows| + 1) && Rectangular(s, |rows| + 1)
    ensures s[c][c] != 0.0 && next == Cleared(s[c := Divide(s[c], s[c][c])], c)
  {
    hide ClearRow, PivotAmong, Cleared, Divide;
  }

  lemma ReplacedDots(s: Matrix, c: nat, row: Vec, next: Matrix, y: Vec)
    requires c < |s| && Rectangular(s, |s| + 1) && |y| == |s| + 1 == |row|
    requires Rectangular(s[c := row], |s| + 1) && next == Cleared(s[c := row], c)
    ensures next[c] == row
    ensures forall i :: 0 <= i < |s| && i != c ==> Dot(next[i], y) == Dot(s[i], y) - Times(s[i][c], Dot(row, y))
  {
    hide ClearRow, Dot, Times, Cleared;
    var t := s[c := row];
    ClearedDots(t, c, y);
    forall i | 0 <= i < |s| && i != c ensures Dot(next[i], y) == Dot(s[i], y) - Times(s[i][c], Dot(row, y)) {
      assert t[i] == s[i];
    }
  }

  // The scaled pivot row, without the division.
  lemma StepRow(rows: Matrix, c: nat, next: Matrix, s: Matrix, y: Vec) returns (row: Vec)
    requires c < |rows| && Rectangular(rows, |rows| + 1) && |y| == |rows| + 1
    requires ColumnStep(rows, c) == Some(next) && s == Swapped(rows, c, PivotAmong(rows, c, |rows|))
    ensures |next| == |s| == |rows| && Rectangular(next, |y|) && Rectangular(s, |y|)
    ensures |row| == |y| && Rectangular(s[c := row], |s| + 1) && next == Cleared(s[c := row], c)
    ensures Dot(s[c], y) == Times(s[c][c], Dot(row, y))
  {
    StepShape(rows, c, next, s);
    row := Divide(s[c], s[c][c]);
    hide ClearRow, Dot, PivotAmong, Times, Divide, Cleared, ColumnStep, Swapped;
    DotScaled(s[c], s[c][c], y);
  }

  // How one turn changes the products of the rows with a vector.
  lemma StepDots(rows: Matrix, c: nat, next: Matrix, s: Matrix, y: Vec)
    requires c < |rows| && Rectangular(rows, |rows| + 1) && |y| == |rows| + 1
    requires ColumnStep(rows, c) == Some(next) && s == Swapped(rows, c, PivotAmong(rows, c, |rows|))
    ensures |next| == |s| == |rows| && Rectangular(next, |y|) && Rectangular(s, |y|)
    ensures Dot(s[c], y) == Times(s[c][c], Dot(next[c], y))
    ensures forall i :: 0 <= i < |rows| && i != c ==> Dot(next[i], y) == Dot(s[i], y) - Times(s[i][c], Dot(next[c], y))
  {
    hide ClearRow, Dot, PivotAmong, Times, Cleared, ColumnStep, Swapped;
    var row := StepRow(rows, c, next, s, y);
    hide Rectangular;
    ReplacedDots(s, c, row, next, y);
  }

  // Zero against the first c rows, and below the tolerance against all.
  ghost predicate Small(rows: Matrix, y: Vec, c: nat)
    requires Rectangular(rows, |y|)
  {
    && (forall i :: 0 <= i < c && i < |rows| ==> Dot(rows[i], y) == 0.0)
    && (forall i :: 0 <= i < |rows| ==> Abs(Dot(rows[i], y)) < PIVOT_TOLERANCE)
  }

  lemma SwappedSmall(rows: Matrix, c: nat, p: nat, y: Vec)
    requires c <= p < |rows| && Rectangular(rows, |y|)
    requires Rectangular(Swapped(rows, c, p), |y|) && Small(Swapped(rows, c, p), y, c)
    ensures Small(rows, y, c)
  {
    hide Dot, Abs;
    var s := Swapped(rows, c, p);
    forall i | 0 <= i < |rows| ensures Abs(Dot(rows[i], y)) < PIVOT_TOLERANCE && (i < c ==> Dot(rows[i], y) == 0.0) {
      var at := if i == c then p else if i == p then c else i;
      assert rows[i] == s[at];
    }
  }

  // Rows that get away with subtracting nothing are as small as before.
  lemma SameDotsSmall(s: Matrix, c: nat, next: Matrix, y: Vec)
    requires c < |s| == |next| && |y| == |s| + 1 && Rectangular(s, |y|) && Rectangular(next, |y|) && Small(next, y, c + 1)
    requires Dot(s[c], y) == Times(s[c][c], Dot(next[c], y))
    requires forall i :: 0 <= i < |s| && i != c ==> Dot(next[i], y) == Dot(s[i], y) - Times(s[i][c], Dot(next[c], y))
    ensures Small(s, y, c)
  {
    hide Dot, Times;
    assert Dot(next[c], y) == 0.0;
    TimesZero(s[c][c]);
    forall i | 0 <= i < |s| && i != c ensures Dot(s[i], y) == Dot(next[i], y) { TimesZero(s[i][c]); }
  }

  lemma StepSmall(rows: Matrix, c: nat, next: Matrix, y: Vec)
    requires c < |rows| && Rectangular(rows, |rows| + 1) && |y| == |rows| + 1
    requires ColumnStep(rows, c) == Some(next) && Rectangular(next, |y|) && Small(next, y, c + 1)
    ensures Small(rows, y, c)
  {
    var p := PivotAmong(rows, c, |rows|);
    var s := Swapped(rows, c, p);
    hide ClearRow, ColumnStep, Dot, Times, PivotAmong, Swapped, Small;
    StepDots(rows, c, next, s, y);
    hide Rectangular;
    SameDotsSmall(s, c, next, y);
    SwappedSmall(rows, c, p, y);
  }

  lemma StepReduced(rows: Matrix, c: nat, next: Matrix)
    requires c < |rows| && Rectangular(rows, |rows| + 1) && Reduced(rows, c) && ColumnStep(rows, c) == Some(next)
    ensures |next| == |rows| && Rectangular(next, |rows| + 1) && Reduced(next, c + 1)
  {
    hide ClearRow, Reduced, PivotAmong, SameKernel;
    var s := Swapped(rows, c, PivotAmong(rows, c, |rows|));
    SwapKeepsReduced(rows, c, PivotAmong(rows, c, |rows|));
    DivideKeepsReduced(s, c, s[c][c]);
    SelfDivision(s[c][c]);
    ClearedKeeps(Scaled(s, c), c);
  }

  // Ends in a one at position k.
  ghost predicate EndsAt(v: Vec, k: nat) {
    k < |v| && v[k] == 1.0 && forall j :: k < j < |v| ==> v[j] == 0.0
  }

  lemma StuckSmall(rows: Matrix, c: nat)
    requires c < |rows| && Rectangular(rows, |rows| + 1) && Reduced(rows, c) && NoPivot(rows, c)
    ensures EndsAt(FreeVector(rows, c), c) && Small(rows, FreeVector(rows, c) + [0.0], c)
  {
    var v := FreeVector(rows, c);
    forall i | 0 <= i < |rows| ensures Dot(rows[i], v + [0.0]) == if i < c then 0.0 else rows[i][c] {
      forall k | 0 <= k < c ensures rows[i][k] == (if k == i then 1.0 else 0.0) {
        assert UnitColumn(rows, k);
      }
      FreeVectorRow(rows[i], v, i, c);
    }
    hide Dot;
  }

  // When the elimination gives up, some vector that ends in a one is almost in the kernel.
  lemma {:induction false} GivesUpSmall(rows: Matrix, c: nat) returns (k: nat, v: Vec)
    requires c <= |rows| && Rectangular(rows, |rows| + 1) && Reduced(rows, c) && Eliminated(rows, c) == None
    ensures |v| == |rows| && EndsAt(v, k) && Small(rows, v + [0.0], c)
    decreases |rows| - c
  {
    hide Reduced, Small, NoPivot, ColumnStep, Eliminated;
    EliminatedStep(rows, c);
    NoPivotIff(rows, c);
    if ColumnStep(rows, c).None? {
      k, v := c, FreeVector(rows, c);
      StuckSmall(rows, c);
    } else {
      var next := ColumnStep(rows, c).value;
      StepReduced(rows, c, next);
      k, v := GivesUpSmall(next, c + 1);
      StepSmall(rows, c, next, v + [0.0]);
    }
  }

  // Column k is within the bound, entry by entry, of a combination of the columns before it.
  ghost predicate Combines(a: Matrix, v: Vec, k: nat, bound: real) {
    |v| == |a| && Rectangular(a, |v|) && EndsAt(v, k) && forall i :: 0 <= i < |a| ==> Abs(Dot(a[i], v)) < bound
  }

  ghost predicate NearlyDependent(a: Matrix, k: nat, bound: real) { exists v :: Combines(a, v, k, bound) }

  lemma AugmentedDot(a: Matrix, b: Vec, v: Vec, i: nat)
    requires Square(a, b) && |v| == |b| && i < |a|
    ensures Dot(Augment(a, b)[i], v + [0.0]) == Dot(a[i], v)
  {
    assert Augment(a, b)[i] == a[i] + [b[i]];
    hide Dot, Augment;
    DotAppend(a[i], v, b[i], 0.0);
    assert b[i] * 0.0 == 0.0;
  }

  lemma SmallCombines(a: Matrix, b: Vec, k: nat, v: Vec)
    requires Square(a, b) && |v| == |a| && EndsAt(v, k) && Rectangular(Augment(a, b), |v| + 1) && Small(Augment(a, b), v + [0.0], 0)
    ensures Combines(a, v, k, PIVOT_TOLERANCE)
  {
    hide Dot, Augment, EndsAt;
    forall i | 0 <= i < |a| ensures Abs(Dot(a[i], v)) < PIVOT_TOLERANCE { AugmentedDot(a, b, v, i); }
  }

  lemma AugmentedShape(a: Matrix, b: Vec)
    requires Square(a, b)
    ensures Rectangular(Augment(a, b), |a| + 1)
  {
    hide Augment;
  }

  // A raise: some column is within the tolerance of a combination of the columns before it.
  lemma RaiseMeansDependent(a: Matrix, b: Vec)
    requires Square(a, b) && !Runs(a, b)
    ensures exists k :: NearlyDependent(a, k, 0.000000000001)
  {
    var rows := Augment(a, b);
    assert Eliminated(rows, 0) == None;
    hide Eliminated, Reduced, SameKernel, Small, Augment, Combines, EndsAt, Runs;
    AugmentedShape(a, b);
    NothingReduced(rows);
    var k, v := GivesUpSmall(rows, 0);
    SmallCombines(a, b, k, v);
    assert NearlyDependent(a, k, PIVOT_TOLERANCE);
  }

  // ---------- And the other way, up to the growth that pivoting allows ----------

  ghost predicate Bounded(rows: Matrix, y: Vec, c: nat, bound: real)
    requires Rectangular(rows, |y|)
  {
    forall i :: c <= i < |rows| ==> Abs(Dot(rows[i], y)) < bound
  }

  // The multiplier of a pivoting step is at most one in size.
  lemma SmallMultiplier(entry: real, d: real, u: real)
    requires Abs(entry) <= Abs(d)
    ensures Abs(Times(entry, u)) <= Abs(Times(d, u))
  {
    var e, f, w := Abs(entry), Abs(d), Abs(u);
    AbsProduct(entry, u);
    AbsProduct(d, u);
    assert w >= 0.0;
    hide Abs, Times;
    MonotoneProduct(w, e, f, w * e, w * f);
  }

  lemma AbsProduct(a: real, b: real)
    ensures Abs(Times(a, b)) == Abs(a) * Abs(b)
  {
    if a >= 0.0 && b >= 0.0 { assert a * b >= 0.0; }
    else if a >= 0.0 { assert a * -b >= 0.0; }
    else if b >= 0.0 { assert -a * b >= 0.0; }
    else { assert -a * -b >= 0.0; }
  }

  lemma SmallStep(x: real, u: real, entry: real, d: real, bound: real, next: real)
    requires Abs(entry) <= Abs(d) && Abs(x) < bound && Abs(Times(d, u)) < bound && next == x - Times(entry, u)
    ensures Abs(next) < bound + bound
  {
    SmallMultiplier(entry, d, u);
    hide Times;
  }

  // What the exchange leaves below row c, and that no entry there exceeds the pivot.
  lemma SwappedBounded(rows: Matrix, c: nat, s: Matrix, y: Vec, bound: real)
    requires c < |rows| && Rectangular(rows, |rows| + 1) && |y| == |rows| + 1 && Bounded(rows, y, c, bound)
    requires s == Swapped(rows, c, PivotAmong(rows, c, |rows|)) && Rectangular(s, |y|)
    ensures Bounded(s, y, c, bound) && forall i :: c <= i < |s| ==> Abs(s[i][c]) <= Abs(s[c][c])
  {
    hide Dot, Abs, PivotAmong;
    var p := PivotAmong(rows, c, |rows|);
    forall i | c <= i < |s| ensures Abs(s[i][c]) <= Abs(s[c][c]) && Abs(Dot(s[i], y)) < bound {
      var at := if i == c then p else if i == p then c else i;
      assert s[i] == rows[at] && s[c] == rows[p];
      PivotLargest(rows, c, |rows|, at);
    }
  }

  lemma StepBounded(rows: Matrix, c: nat, next: Matrix, y: Vec, bound: real)
    requires c < |rows| && Rectangular(rows, |rows| + 1) && |y| == |rows| + 1 && Bounded(rows, y, c, bound)
    requires ColumnStep(rows, c) == Some(next) && |next| == |rows| && Rectangular(next, |y|)
    ensures Bounded(next, y, c + 1, bound + bound)
  {
    var s := Swapped(rows, c, PivotAmong(rows, c, |rows|));
    hide ClearRow, ColumnStep, Dot, Times, PivotAmong, Swapped, Abs;
    StepDots(rows, c, next, s, y);
    SwappedBounded(rows, c, s, y, bound);
    forall i | c < i < |rows| ensures Abs(Dot(next[i], y)) < bound + bound {
      SmallStep(Dot(s[i], y), Dot(next[c], y), s[i][c], s[c][c], bound, Dot(next[i], y));
    }
  }

  lemma ColumnBounded(rows: Matrix, c: nat, v: Vec, bound: real)
    requires c < |rows| == |v| && Rectangular(rows, |rows| + 1) && Reduced(rows, c) && EndsAt(v, c)
    requires Bounded(rows, v + [0.0], c, bound) && bound <= PIVOT_TOLERANCE
    ensures NoPivot(rows, c)
  {
    forall i | c <= i < |rows| ensures Dot(rows[i], v + [0.0]) == rows[i][c] {
      forall k | 0 <= k < c ensures rows[i][k] == (if k == i then 1.0 else 0.0) {
        assert UnitColumn(rows, k);
      }
      FreeVectorRow(rows[i], v, i, c);
    }
    hide Dot;
  }

  function Power2(n: nat): (p: nat)
    ensures p > 0
  {
    if n == 0 then 1 else 2 * Power2(n - 1)
  }

  // 2^n times the bound is within the tolerance.
  predicate WithinPower(n: nat, bound: real) { Power2(n) as real * bound <= 0.000000000001 }

  lemma PowerStep(n: nat, bound: real)
    requires n > 0 && WithinPower(n, bound)
    ensures WithinPower(n - 1, bound + bound)
  {
    var p := Power2(n - 1) as real;
    assert Power2(n) as real == 2.0 * p;
    assert (2.0 * p) * bound == p * (bound + bound);
  }

  lemma PowerZero(bound: real)
    requires WithinPower(0, bound)
    ensures bound <= PIVOT_TOLERANCE
  {
    assert Power2(0) as real * bound == bound;
  }

  lemma {:induction false} BoundedGivesUp(rows: Matrix, c: nat, v: Vec, k: nat, bound: real)
    requires c <= k < |rows| == |v| && Rectangular(rows, |rows| + 1) && Reduced(rows, c) && EndsAt(v, k)
    requires Bounded(rows, v + [0.0], c, bound) && WithinPower(k - c, bound)
    ensures Eliminated(rows, c) == None
    decreases |rows| - c
  {
    hide Reduced, Bounded, NoPivot, ColumnStep, Eliminated, EndsAt, WithinPower;
    EliminatedStep(rows, c);
    NoPivotIff(rows, c);
    if c == k {
      PowerZero(bound);
      ColumnBounded(rows, c, v, bound);
    } else if ColumnStep(rows, c).Some? {
      var next := ColumnStep(rows, c).value;
      StepReduced(rows, c, next);
      StepBounded(rows, c, next, v + [0.0], bound);
      PowerStep(k - c, bound);
      BoundedGivesUp(next, c + 1, v, k, bound + bound);
    }
  }

  lemma CombinesBounded(a: Matrix, b: Vec, k: nat, v: Vec, bound: real)
    requires Square(a, b) && Combines(a, v, k, bound) && Rectangular(Augment(a, b), |v| + 1)
    ensures Bounded(Augment(a, b), v + [0.0], 0, bound)
  {
    hide Dot, Augment, EndsAt;
    forall i | 0 <= i < |a| ensures Abs(Dot(Augment(a, b)[i], v + [0.0])) < bound { AugmentedDot(a, b, v, i); }
  }

  // A column k so dependent that 2^k times the bound is within the tolerance makes the call raise.
  lemma DependentRaises(a: Matrix, b: Vec, k: nat, bound: real)
    requires Square(a, b) && NearlyDependent(a, k, bound) && WithinPower(k, bound)
    ensures !Runs(a, b)
  {
    var v :| Combines(a, v, k, bound);
    var rows := Augment(a, b);
    assert |v| == |a| && EndsAt(v, k) && k < |v|;
    hide Eliminated, Reduced, SameKernel, Augment, WithinPower, Combines, EndsAt, Bounded;
    AugmentedShape(a, b);
    NothingReduced(rows);
    CombinesBounded(a, b, k, v, bound);
    BoundedGivesUp(rows, 0, v, k, bound);
  }

  // Some column is within the tolerance of a combination of earlier ones.
  ghost predicate HasNearColumn(a: Matrix) { exists k :: NearlyDependent(a, k, 0.000000000001) }

  // No column k is within 2^-k times the tolerance of a combination of earlier ones.
  ghost predicate ColumnsApart(a: Matrix) {
    forall k: nat, bound: real :: NearlyDependent(a, k, bound) ==> !WithinPower(k, bound)
  }

  lemma IsStuck(rows: Matrix, a: Matrix, b: Vec, c: nat)
    requires Square(a, b) && c < |a| && SameKernel(Augment(a, b), rows, |b| + 1) && Reduced(rows, c) && NoPivot(rows, c)
    ensures Stuck(rows, a, b, c)
  {
  }

  lemma RunsMeans(a: Matrix, b: Vec)
    requires Square(a, b)
    ensures if Runs(a, b) then ColumnsApart(a) else HasNearColumn(a)
  {
    hide Runs, NearlyDependent, WithinPower;
    if !Runs(a, b) {
      RaiseMeansDependent(a, b);
    } else {
      forall k: nat, bound: real | NearlyDependent(a, k, bound) ensures !WithinPower(k, bound) {
        if WithinPower(k, bound) { DependentRaises(a, b, k, bound); }
      }
    }
  }

  // A returned vector is the only solution of the system; hence a singular
  // matrix is never answered. An error is raised exactly when the elimination
  // runs out of pivots of size PIVOT_TOLERANCE; then some column is that close to
  // a combination of earlier ones, and every column 2^k times closer raises.
  method Solve(matrix: Matrix, vector: Vec) returns (r: Result<Vec, string>)
    requires Square(matrix, vector)
    ensures r.Ok? ==> forall x :: Solves(matrix, vector, x) <==> x == r.value
    ensures r.Ok? ==> !Singular(matrix)
    ensures r.Ok? <==> Runs(matrix, vector)
    ensures r.Err? ==> exists rows, c :: Stuck(rows, matrix, vector, c)
    ensures if r.Ok? then ColumnsApart(matrix) else HasNearColumn(matrix)
  {
    hide ColumnsApart, HasNearColumn, Stuck, Singular, Solves, KernelVector;
    hide Dot, InKernel, Eliminated, SameKernel, Reduced, NoPivot, Augment;
    RunsMeans(matrix, vector);
    var n := |matrix|;
    ghost var start := Augment(matrix, vector);
    var aug := new Vec[n](i requires 0 <= i < n => matrix[i] + [vector[i]]);
    assert aug[..] == start;
    var ok, stuck := ReduceAll(aug);
    if !ok {
      IsStuck(aug[..], matrix, vector, stuck);
      return Err("regression design matrix is singular; increase ridge_alpha");
    }
    var x := LastColumn(aug[..]);
    ReducedIsSolved(matrix, vector, aug[..]);
    return Ok(x);
  }
}
