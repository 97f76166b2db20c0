/**
 Gauss-Jordan elimination with partial pivoting (app/portfolio.py, _solve_linear).

 Rows carry the right-hand side as their last entry. Every step keeps the solution set, so a
 returned vector is the one and only exact solution.
 */
module LinearSolver {
  import opened Options
  import opened RealSums

  const PIVOT_FLOOR: real := 0.000000000000001

  ghost predicate Augmented(rows: seq<seq<real>>, n: nat) {
    |rows| == n && forall r | 0 <= r < n :: |rows[r]| == n + 1
  }

  ghost predicate Satisfies(row: seq<real>, x: seq<real>)
    requires |row| == |x| + 1
  {
    Apply(row, x, |x|) == row[|x|]
  }

  ghost predicate Solves(rows: seq<seq<real>>, x: seq<real>)
    requires Augmented(rows, |x|)
  {
    forall r | 0 <= r < |x| :: Satisfies(rows[r], x)
  }

  /** Two augmented systems with the same solutions. */
  ghost predicate Equivalent(a: seq<seq<real>>, b: seq<seq<real>>, n: nat) {
    && Augmented(a, n) && Augmented(b, n)
    && forall x: seq<real> | |x| == n :: Solves(a, x) <==> Solves(b, x)
  }

  /** Columns before `col` hold a non-zero pivot on the diagonal and zeros elsewhere. */
  ghost predicate Cleared(rows: seq<seq<real>>, n: nat, col: nat)
    requires Augmented(rows, n) && col <= n
  {
    && (forall c | 0 <= c < col :: rows[c][c] != 0.0)
    && (forall r, c | 0 <= r < n && 0 <= c < col && r != c :: rows[r][c] == 0.0)
  }

  function Abs(v: real): real { if v < 0.0 then -v else v }

  function Augment(matrix: seq<seq<real>>, rhs: seq<real>): (rows: seq<seq<real>>)
    requires |matrix| == |rhs| && forall r | 0 <= r < |rhs| :: |matrix[r]| == |rhs|
    ensures Augmented(rows, |rhs|)
  {
    seq(|rhs|, i requires 0 <= i < |rhs| => matrix[i] + [rhs[i]])
  }

  /** The row after subtracting `factor` times the pivot row from column `col` on. */
  function Eliminated(row: seq<real>, pivot: seq<real>, factor: real, col: nat): (r: seq<real>)
    requires |row| == |pivot|
    ensures |r| == |row|
  {
    seq(|row|, k requires 0 <= k < |row| => if k < col then row[k] else row[k] - factor * pivot[k])
  }

  // ---- elementary steps keep the solution set --------------------------------------------

  lemma {:induction false} ApplyEliminated(row: seq<real>, pivot: seq<real>, factor: real, col: nat,
                                           x: seq<real>, k: nat)
    requires |row| == |pivot| && k <= |row| && k <= |x|
    requires forall c | 0 <= c < col && c < |pivot| :: pivot[c] == 0.0
    ensures Apply(Eliminated(row, pivot, factor, col), x, k)
         == Apply(row, x, k) - factor * Apply(pivot, x, k)
  {
    if k > 0 {
      ApplyEliminated(row, pivot, factor, col, x, k - 1);
      var next := Eliminated(row, pivot, factor, col)[k - 1];
      assert k - 1 < col ==> factor * pivot[k - 1] == 0.0;
      hide Eliminated;
      EliminationAlgebra(Apply(row, x, k - 1), Apply(pivot, x, k - 1), row[k - 1], pivot[k - 1],
                         factor, next, x[k - 1]);
    }
  }

  lemma EliminationAlgebra(s: real, p: real, a: real, b: real, factor: real, next: real, v: real)
    requires next == a - factor * b
    ensures s - factor * p + next * v == (s + a * v) - factor * (p + b * v)
  {
  }

  lemma SatisfiesEliminated(row: seq<real>, pivot: seq<real>, factor: real, col: nat, x: seq<real>)
    requires |row| == |pivot| == |x| + 1 && col <= |x|
    requires forall c | 0 <= c < col :: pivot[c] == 0.0
    requires Satisfies(pivot, x)
    ensures Satisfies(Eliminated(row, pivot, factor, col), x) <==> Satisfies(row, x)
  {
    ApplyEliminated(row, pivot, factor, col, x, |x|);
  }

  lemma EliminateKeeps(rows: seq<seq<real>>, n: nat, row: nat, col: nat, factor: real)
    requires Augmented(rows, n) && row < n && col < n && row != col
    requires forall c | 0 <= c < col :: rows[col][c] == 0.0
    ensures Equivalent(rows, rows[row := Eliminated(rows[row], rows[col], factor, col)], n)
  {
    var after := rows[row := Eliminated(rows[row], rows[col], factor, col)];
    forall x: seq<real> | |x| == n ensures Solves(rows, x) <==> Solves(after, x) {
      if Satisfies(rows[col], x) {
        SatisfiesEliminated(rows[row], rows[col], factor, col, x);
        if Solves(rows, x) {
          assert Satisfies(rows[row], x);
        }
        if Solves(after, x) {
          assert Satisfies(after[row], x);
          forall r | 0 <= r < n ensures Satisfies(rows[r], x) {
            assert Satisfies(after[r], x);
          }
        }
      } else {
        assert !Satisfies(after[col], x);
      }
    }
  }

  lemma SwapKeeps(rows: seq<seq<real>>, n: nat, i: nat, j: nat)
    requires Augmented(rows, n) && i < n && j < n
    ensures Equivalent(rows, rows[i := rows[j]][j := rows[i]], n)
  {
    var after := rows[i := rows[j]][j := rows[i]];
    forall x: seq<real> | |x| == n ensures Solves(rows, x) <==> Solves(after, x) {
      if Solves(after, x) {
        forall r | 0 <= r < n ensures Satisfies(rows[r], x) {
          assert Satisfies(after[if r == i then j else if r == j then i else r], x);
        }
      }
    }
  }

  // ---- reading the solution off the diagonal ---------------------------------------------

  lemma {:induction false} ApplyDiagonal(row: seq<real>, x: seq<real>, i: nat, k: nat)
    requires k <= |x| <= |row| && i < |x|
    requires forall c | 0 <= c < |x| && c != i :: row[c] == 0.0
    ensures Apply(row, x, k) == if k > i then row[i] * x[i] else 0.0
  {
    if k > 0 {
      ApplyDiagonal(row, x, i, k - 1);
      assert k - 1 != i ==> row[k - 1] * x[k - 1] == 0.0;
    }
  }

  lemma DiagonalRow(row: seq<real>, x: seq<real>, i: nat)
    requires |row| == |x| + 1 && i < |x| && row[i] != 0.0
    requires forall c | 0 <= c < |x| && c != i :: row[c] == 0.0
    ensures Satisfies(row, x) <==> x[i] == row[|x|] / row[i]
  {
    hide Apply;
    ApplyDiagonal(row, x, i, |x|);
    Divided(row[i], x[i], row[|x|]);
  }

  lemma Divided(a: real, v: real, b: real)
    requires a != 0.0
    ensures a * v == b <==> v == b / a
  {
    assert b / a * a == b;
    if a * v == b {
      assert a * (v - b / a) == 0.0;
    }
  }

  function ReadOff(rows: seq<seq<real>>, n: nat): (x: seq<real>)
    requires Augmented(rows, n) && Cleared(rows, n, n)
    ensures |x| == n && forall i | 0 <= i < n :: x[i] == rows[i][n] / rows[i][i]
  {
    seq(n, i requires 0 <= i < n && |rows[i]| == n + 1 && rows[i][i] != 0.0 => rows[i][n] / rows[i][i])
  }

  lemma DiagonalSolution(rows: seq<seq<real>>, n: nat, x: seq<real>)
    requires Augmented(rows, n) && Cleared(rows, n, n) && |x| == n
    requires forall i | 0 <= i < n :: x[i] == rows[i][n] / rows[i][i]
    ensures forall z: seq<real> | |z| == n :: Solves(rows, z) <==> z == x
  {
    forall z: seq<real> | |z| == n ensures Solves(rows, z) <==> z == x {
      forall i | 0 <= i < n ensures Satisfies(rows[i], z) <==> z[i] == x[i] {
        DiagonalRow(rows[i], z, i);
      }
      if Solves(rows, z) {
        forall i | 0 <= i < n ensures z[i] == x[i] { assert Satisfies(rows[i], z); }
      }
    }
  }

  // ---- the elimination's own states ------------------------------------------------------

  /** First row from col on, below k, whose entry in the column is largest in magnitude. */
  function PivotOf(rows: seq<seq<real>>, n: nat, col: nat, k: nat): (pivot: nat)
    requires Augmented(rows, n) && col < k <= n
    ensures col <= pivot < k
    ensures forall r | col <= r < k :: Abs(rows[r][col]) <= Abs(rows[pivot][col])
    ensures forall r | col <= r < pivot :: Abs(rows[r][col]) < Abs(rows[pivot][col])
  {
    if k == col + 1 then col
    else
      var before := PivotOf(rows, n, col, k - 1);
      if Abs(rows[k - 1][col]) > Abs(rows[before][col]) then k - 1 else before
  }

  function Swapped(rows: seq<seq<real>>, i: nat, j: nat): (r: seq<seq<real>>)
    requires i < |rows| && j < |rows|
    ensures |r| == |rows|
  {
    rows[i := rows[j]][j := rows[i]]
  }

  /** The multiple of the pivot row taken from another row; 0 where there is no pivot to divide by. */
  function Factor(entry: real, pivot: real): real { if pivot == 0.0 then 0.0 else entry / pivot }

  /** The rows after the first k of them, except the pivot's own, have lost the column. */
  function ClearedTo(rows: seq<seq<real>>, n: nat, col: nat, k: nat): (r: seq<seq<real>>)
    requires Augmented(rows, n) && col < n && k <= n
    ensures Augmented(r, n)
    ensures forall i | 0 <= i < n && (i >= k || i == col) :: r[i] == rows[i]
    ensures forall i | 0 <= i < k && i != col ::
              r[i] == Eliminated(rows[i], rows[col], Factor(rows[i][col], rows[col][col]), col)
  {
    seq(n, i requires 0 <= i < n => if i < k && i != col
                                    then Eliminated(rows[i], rows[col], Factor(rows[i][col], rows[col][col]), col)
                                    else rows[i])
  }

  /** What one column does: the pivot row is swapped up and the column cleared in all other rows. */
  function Advanced(rows: seq<seq<real>>, n: nat, col: nat): (r: seq<seq<real>>)
    requires Augmented(rows, n) && col < n
    ensures Augmented(r, n)
  {
    ClearedTo(Swapped(rows, col, PivotOf(rows, n, col, n)), n, col, n)
  }

  /** The rows when the elimination reaches column `col`. */
  function Reduced(rows: seq<seq<real>>, n: nat, col: nat): (r: seq<seq<real>>)
    requires Augmented(rows, n) && col <= n
    ensures Augmented(r, n)
  {
    if col == 0 then rows else Advanced(Reduced(rows, n, col - 1), n, col - 1)
  }

  /** Every entry of the column at or below the diagonal is under the pivot floor. */
  ghost predicate NoPivot(rows: seq<seq<real>>, n: nat, col: nat)
    requires Augmented(rows, n) && col < n
  {
    forall r | col <= r < n :: Abs(rows[r][col]) < PIVOT_FLOOR
  }

  /** Every column before `col` had a usable pivot when it was reached. */
  ghost predicate Usable(rows: seq<seq<real>>, n: nat, col: nat)
    requires Augmented(rows, n) && col <= n
  {
    forall c | 0 <= c < col :: !NoPivot(Reduced(rows, n, c), n, c)
  }

  /** The system has exactly one solution. */
  ghost predicate Determined(rows: seq<seq<real>>, n: nat)
    requires Augmented(rows, n)
  {
    exists x: seq<real> :: |x| == n && forall z: seq<real> | |z| == n :: Solves(rows, z) <==> z == x
  }

  /** The elimination meets a column without a usable pivot. */
  ghost predicate Stuck(rows: seq<seq<real>>, n: nat)
    requires Augmented(rows, n)
  {
    exists col | 0 <= col < n :: NoPivot(Reduced(rows, n, col), n, col)
  }

  lemma {:induction false} ClearedToKeeps(rows: seq<seq<real>>, n: nat, col: nat, k: nat)
    requires Augmented(rows, n) && col < n && k <= n && Cleared(rows, n, col) && rows[col][col] != 0.0
    ensures Equivalent(rows, ClearedTo(rows, n, col, k), n)
  {
    hide Solves, Eliminated;
    var after := ClearedTo(rows, n, col, k);
    if k == 0 {
      assert after == rows;
    } else {
      var before := ClearedTo(rows, n, col, k - 1);
      ClearedToKeeps(rows, n, col, k - 1);
      if k - 1 == col {
        assert after == before;
      } else {
        var factor := Factor(rows[k - 1][col], rows[col][col]);
        EliminateKeeps(before, n, k - 1, col, factor);
        assert after == before[k - 1 := Eliminated(before[k - 1], before[col], factor, col)];
      }
    }
  }

  lemma ColumnCleared(rows: seq<seq<real>>, n: nat, col: nat)
    requires Augmented(rows, n) && col < n && Cleared(rows, n, col) && rows[col][col] != 0.0
    ensures Cleared(ClearedTo(rows, n, col, n), n, col + 1)
  {
    var after, p := ClearedTo(rows, n, col, n), rows[col][col];
    forall r | 0 <= r < n && r != col
      ensures after[r][col] == 0.0 && forall c | 0 <= c < col :: after[r][c] == rows[r][c]
    {
      assert rows[r][col] / p * p == rows[r][col];
    }
  }

  lemma AdvancedKeeps(rows: seq<seq<real>>, n: nat, col: nat)
    requires Augmented(rows, n) && col < n && Cleared(rows, n, col) && !NoPivot(rows, n, col)
    ensures Equivalent(rows, Advanced(rows, n, col), n) && Cleared(Advanced(rows, n, col), n, col + 1)
  {
    hide Solves, ClearedTo;
    var pivot := PivotOf(rows, n, col, n);
    var swapped := Swapped(rows, col, pivot);
    SwapKeeps(rows, n, col, pivot);
    assert swapped[col][col] != 0.0;
    ClearedToKeeps(swapped, n, col, n);
    ColumnCleared(swapped, n, col);
  }

  /** As long as every column had a usable pivot, the solutions are kept and the columns clear. */
  lemma {:induction false} ReducedKeeps(rows: seq<seq<real>>, n: nat, col: nat)
    requires Augmented(rows, n) && col <= n
    requires Usable(rows, n, col)
    ensures Equivalent(rows, Reduced(rows, n, col), n) && Cleared(Reduced(rows, n, col), n, col)
  {
    hide Solves, Advanced, NoPivot;
    if col > 0 {
      ReducedKeeps(rows, n, col - 1);
      AdvancedKeeps(Reduced(rows, n, col - 1), n, col - 1);
    }
  }

  /** What is read off at the end is the exact and only solution of the system as given. */
  lemma ReadOffSolves(rows: seq<seq<real>>, n: nat)
    requires Augmented(rows, n) && Usable(rows, n, n)
    ensures Cleared(Reduced(rows, n, n), n, n)
    ensures forall z: seq<real> | |z| == n :: Solves(rows, z) <==> z == ReadOff(Reduced(rows, n, n), n)
    ensures Determined(rows, n)
  {
    hide Solves, Reduced, NoPivot;
    ReducedKeeps(rows, n, n);
    var x := ReadOff(Reduced(rows, n, n), n);
    DiagonalSolution(Reduced(rows, n, n), n, x);
    assert forall z: seq<real> | |z| == n :: Solves(rows, z) <==> z == x;
  }

  /** A system without exactly one solution always leaves some column without a usable pivot. */
  lemma UndeterminedIsStuck(rows: seq<seq<real>>, n: nat)
    requires Augmented(rows, n) && !Determined(rows, n)
    ensures Stuck(rows, n)
  {
    hide Solves, Reduced, Determined;
    if !Stuck(rows, n) {
      ReadOffSolves(rows, n);
      assert false;
    }
  }

  /** The floor refuses more: a solvable system is stuck when its only coefficient is under it. */
  lemma TinyPivotRefused(a: real, b: real)
    requires a != 0.0
    ensures Solves([[a, b]], [b / a]) && (Stuck([[a, b]], 1) <==> Abs(a) < PIVOT_FLOOR)
  {
    var rows := [[a, b]];
    DiagonalRow(rows[0], [b / a], 0);
    assert Reduced(rows, 1, 0) == rows;
    assert NoPivot(rows, 1, 0) <==> Abs(rows[0][0]) < PIVOT_FLOOR;
  }

  // ---- the in-place elimination ----------------------------------------------------------

  /** First row at or below the diagonal whose entry in the column is largest in magnitude. */
  method PivotRow(a: array<seq<real>>, col: nat) returns (pivot: nat)
    requires col < a.Length && Augmented(a[..], a.Length)
    ensures pivot == PivotOf(a[..], a.Length, col, a.Length)
    ensures col <= pivot < a.Length
    ensures forall r | col <= r < a.Length :: Abs(a[r][col]) <= Abs(a[pivot][col])
    ensures forall r | col <= r < pivot :: Abs(a[r][col]) < Abs(a[pivot][col])
  {
    assert forall r | 0 <= r < a.Length :: a[r] == a[..][r];
    pivot := col;
    for r := col + 1 to a.Length
      invariant col <= pivot < r && pivot == PivotOf(a[..], a.Length, col, r)
    {
      if Abs(a[r][col]) > Abs(a[pivot][col]) { pivot := r; }
    }
  }

  /** Subtracts the pivot row from one other row, entry by entry. */
  method EliminateRow(a: array<seq<real>>, row: nat, col: nat, factor: real)
    requires row < a.Length && col < a.Length && row != col && Augmented(a[..], a.Length)
    modifies a
    ensures a[..] == old(a[..])[row := Eliminated(old(a[row]), old(a[col]), factor, col)]
  {
    assert forall r | 0 <= r < a.Length :: a[r] == a[..][r];
    var n := a.Length;
    for k := col to n + 1
      invariant |a[row]| == n + 1
      invariant forall c | 0 <= c < n + 1 ::
        a[row][c] == if col <= c < k then old(a[row])[c] - factor * old(a[col])[c] else old(a[row])[c]
      invariant forall r | 0 <= r < n && r != row :: a[r] == old(a[r])
    {
      a[row] := a[row][k := a[row][k] - factor * a[col][k]];
    }
    ghost var target := Eliminated(old(a[row]), old(a[col]), factor, col);
    assert |a[row]| == |target| && forall c | 0 <= c < n + 1 :: a[row][c] == target[c];
    assert a[row] == target;
  }

  /** The largest entry decides whether the elimination goes on, and how. */
  lemma ColumnStep(rows: seq<seq<real>>, n: nat, col: nat)
    requires Augmented(rows, n) && col < n && Usable(rows, n, col)
    ensures var now := Reduced(rows, n, col); var pivot := PivotOf(now, n, col, n);
            && Reduced(rows, n, col + 1) == ClearedTo(Swapped(now, col, pivot), n, col, n)
            && (Abs(now[pivot][col]) < PIVOT_FLOOR ==> Stuck(rows, n))
            && (Abs(now[pivot][col]) >= PIVOT_FLOOR ==> now[pivot][col] != 0.0 && Usable(rows, n, col + 1))
  {
    hide Reduced, PivotOf;
    ReducedNext(rows, n, col);
    var now := Reduced(rows, n, col);
    if Abs(now[PivotOf(now, n, col, n)][col]) < PIVOT_FLOOR { assert NoPivot(now, n, col); }
  }

  lemma ReducedNext(rows: seq<seq<real>>, n: nat, col: nat)
    requires Augmented(rows, n) && col < n
    ensures Reduced(rows, n, 0) == rows && Reduced(rows, n, col + 1) == Advanced(Reduced(rows, n, col), n, col)
  {
  }

  /** Clears the column in every row but the pivot's. */
  method ClearColumn(a: array<seq<real>>, col: nat)
    requires col < a.Length && Augmented(a[..], a.Length) && a[col][col] != 0.0
    modifies a
    ensures a[..] == ClearedTo(old(a[..]), a.Length, col, a.Length)
  {
    var n := a.Length;
    ghost var before := a[..];
    var pivotValue := a[col][col];
    for row := 0 to n
      invariant a[..] == ClearedTo(before, n, col, row)
    {
      assert forall r | 0 <= r < n :: a[r] == a[..][r];
      ghost var current := a[..];
      if row != col {
        var factor := a[row][col] / pivotValue;
        if factor != 0.0 {
          EliminateRow(a, row, col, factor);
        } else {
          assert current[row] == Eliminated(current[row], current[col], 0.0, col);
        }
      }
      assert a[..] == ClearedTo(before, n, col, row + 1);
    }
  }

  /** Refuses exactly when the elimination is stuck; otherwise the exact and only solution. */
  method SolveLinear(matrix: seq<seq<real>>, rhs: seq<real>) returns (x: Option<seq<real>>)
    requires |matrix| == |rhs| && forall r | 0 <= r < |rhs| :: |matrix[r]| == |rhs|
    ensures x.Some? ==> |x.value| == |rhs|
    ensures x.Some? ==> forall z: seq<real> | |z| == |rhs| ::
                          Solves(Augment(matrix, rhs), z) <==> z == x.value
    ensures x.None? <==> Stuck(Augment(matrix, rhs), |rhs|)
  {
    hide Solves, Cleared, ClearedTo, NoPivot, PivotOf, Equivalent, Abs, Usable, Stuck, Reduced, ReadOff;
    var n := |rhs|;
    ghost var original := Augment(matrix, rhs);
    var a := new seq<real>[n](i requires 0 <= i < n => matrix[i] + [rhs[i]]);
    assert a[..] == original;
    UsableStart(original, n);
    for col := 0 to n
      invariant a[..] == Reduced(original, n, col) && Usable(original, n, col)
    {
      ghost var current := a[..];
      var pivot := PivotRow(a, col);
      ColumnStep(original, n, col);
      assert a[pivot] == current[pivot];
      if Abs(a[pivot][col]) < PIVOT_FLOOR { return None; }
      a[col], a[pivot] := a[pivot], a[col];
      assert a[..] == Swapped(current, col, pivot);
      ClearColumn(a, col);
    }
    ReadOffSolves(original, n);
    UsableNotStuck(original, n);
    x := Some(ReadOff(a[..], n));
  }

  lemma UsableStart(rows: seq<seq<real>>, n: nat)
    requires Augmented(rows, n)
    ensures Reduced(rows, n, 0) == rows && Usable(rows, n, 0)
  {
  }

  lemma UsableNotStuck(rows: seq<seq<real>>, n: nat)
    requires Augmented(rows, n) && Usable(rows, n, n)
    ensures !Stuck(rows, n)
  {
  }
}
