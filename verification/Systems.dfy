/** Linear systems as the decoder keeps them: rows of coefficients and, for every byte column of the
    shards, the right-hand sides. */
module Systems {
  import opened Gf256
  import opened Gf256Tables
  import opened Elimination

  lemma {:induction false} DotSnoc(r: Vec, v: Vec, n: nat)
    requires n < |r| == |v|
    ensures Dot(r[..n + 1], v[..n + 1]) == Xor(Dot(r[..n], v[..n]), Mul(r[n], v[n]))
  {
    var a, b := r[..n + 1], v[..n + 1];
    if n == 0 {
      XorLaws(Mul(r[0], v[0]), 0, 0);
    } else {
      assert a[1..] == r[1..][..n] && b[1..] == v[1..][..n];
      assert r[..n][1..] == r[1..][..n - 1] && v[..n][1..] == v[1..][..n - 1];
      DotSnoc(r[1..], v[1..], n - 1);
      XorLaws(Mul(r[0], v[0]), Dot(r[1..][..n - 1], v[1..][..n - 1]), Mul(r[n], v[n]));
    }
  }

  // ----- index lists

  /** The indices below n whose mark is want, in ascending order. */
  ghost function Picked(marks: seq<bool>, lo: nat, n: nat, want: bool): (r: seq<nat>)
    requires lo <= n <= |marks|
    ensures |r| <= n - lo
    ensures forall k :: 0 <= k < |r| ==> lo <= r[k] < n && marks[r[k]] == want
    decreases n
  {
    if n == lo then [] else
      var r := Picked(marks, lo, n - 1, want);
      if marks[n - 1] == want then r + [n - 1] else r
  }

  ghost predicate Ascending(r: seq<nat>) {
    forall k, l :: 0 <= k < l < |r| ==> r[k] < r[l]
  }

  lemma {:induction false} PickedSorted(marks: seq<bool>, lo: nat, n: nat, want: bool)
    requires lo <= n <= |marks|
    ensures Ascending(Picked(marks, lo, n, want))
    decreases n
  {
    if lo < n {
      PickedSorted(marks, lo, n - 1, want);
      var r, r' := Picked(marks, lo, n - 1, want), Picked(marks, lo, n, want);
      assert r' == if marks[n - 1] == want then r + [n - 1] else r;
      assert forall k :: 0 <= k < |r| ==> r[k] < n - 1;
      forall k, l | 0 <= k < l < |r'|
        ensures r'[k] < r'[l]
      {
        assert r'[k] == r[k];
        if l < |r| { assert r[k] < r[l]; } else { assert r'[l] == n - 1; }
      }
    }
  }

  lemma {:induction false} PickedComplete(marks: seq<bool>, lo: nat, n: nat, i: nat)
    requires lo <= i < n <= |marks|
    ensures i in Picked(marks, lo, n, marks[i])
    decreases n
  {
    if i < n - 1 {
      PickedComplete(marks, lo, n - 1, i);
      var r := Picked(marks, lo, n - 1, marks[i]);
      var k :| 0 <= k < |r| && r[k] == i;
      assert Picked(marks, lo, n, marks[i])[k] == i;
    } else {
      var r := Picked(marks, lo, n, marks[i]);
      assert r[|r| - 1] == i;
    }
  }

  lemma {:induction false} PickedCounts(marks: seq<bool>, lo: nat, n: nat)
    requires lo <= n <= |marks|
    ensures |Picked(marks, lo, n, false)| + |Picked(marks, lo, n, true)| == n - lo
    decreases n
  {
    if lo < n { PickedCounts(marks, lo, n - 1); }
  }

  lemma {:induction false} PickedPrefix(marks: seq<bool>, lo: nat, m: nat, n: nat, want: bool)
    requires lo <= m <= n <= |marks|
    ensures Picked(marks, lo, m, want) <= Picked(marks, lo, n, want)
    decreases n
  {
    if m < n { PickedPrefix(marks, lo, m, n - 1, want); }
  }

  lemma {:induction false} PickedSame(first: seq<bool>, marks: seq<bool>, lo: nat, n: nat, want: bool)
    requires lo <= n <= |first| <= |marks| && first == marks[..|first|]
    ensures Picked(first, lo, n, want) == Picked(marks, lo, n, want)
    decreases n
  {
    if lo < n { PickedSame(first, marks, lo, n - 1, want); }
  }

  ghost predicate Below(idx: seq<nat>, n: nat) {
    forall k :: 0 <= k < |idx| ==> idx[k] < n
  }

  ghost function Gather(v: Vec, idx: seq<nat>): (r: Vec)
    requires Below(idx, |v|)
    ensures |r| == |idx| && forall k :: 0 <= k < |idx| ==> r[k] == v[idx[k]]
  {
    seq(|idx|, k requires 0 <= k < |idx| => v[idx[k]])
  }

  lemma DotGatherSnoc(r: Vec, v: Vec, idx: seq<nat>, i: nat)
    requires |r| == |v| && Below(idx, |r|) && i < |r|
    ensures Below(idx + [i], |r|)
    ensures Dot(Gather(r, idx + [i]), Gather(v, idx + [i])) == Xor(Dot(Gather(r, idx), Gather(v, idx)), Mul(r[i], v[i]))
  {
    var a, b := Gather(r, idx + [i]), Gather(v, idx + [i]);
    var n := |idx|;
    DotSnoc(a, b, n);
    assert a[..n + 1] == a && b[..n + 1] == b;
    assert a[..n] == Gather(r, idx) && b[..n] == Gather(v, idx);
  }

  /** A dot product is the sum over the unmarked and over the marked indices. */
  lemma {:induction false} DotSplits(r: Vec, v: Vec, marks: seq<bool>, n: nat)
    requires n <= |r| == |v| && n <= |marks|
    ensures var f, e := Picked(marks, 0, n, false), Picked(marks, 0, n, true);
      Dot(r[..n], v[..n]) == Xor(Dot(Gather(r, f), Gather(v, f)), Dot(Gather(r, e), Gather(v, e)))
  {
    if n == 0 {
      XorLaws(0, 0, 0);
    } else {
      DotSplits(r, v, marks, n - 1);
      DotSnoc(r, v, n - 1);
      var f, e := Picked(marks, 0, n - 1, false), Picked(marks, 0, n - 1, true);
      var df, de, x := Dot(Gather(r, f), Gather(v, f)), Dot(Gather(r, e), Gather(v, e)), Mul(r[n - 1], v[n - 1]);
      if marks[n - 1] {
        DotGatherSnoc(r, v, e, n - 1);
        XorLaws(df, de, x);
      } else {
        DotGatherSnoc(r, v, f, n - 1);
        XorLaws(df, de, x); XorLaws(de, x, 0); XorLaws(df, x, de);
      }
    }
  }

  // ----- systems

  /** The vectors of a list, all of the same length. */
  ghost predicate Shaped(m: seq<Vec>, rows: nat, columns: nat) {
    |m| == rows && forall i :: 0 <= i < rows ==> |m[i]| == columns
  }

  ghost function Column(m: seq<Vec>, columns: nat, t: nat): (r: Vec)
    requires Shaped(m, |m|, columns) && t < columns
    ensures |r| == |m| && forall i :: 0 <= i < |m| ==> r[i] == m[i][t]
  {
    seq(|m|, i requires 0 <= i < |m| => m[i][t])
  }

  /** In every byte column of good, the unknowns solve the equations. */
  ghost predicate Solves(rows: Matrix, vals: seq<Vec>, unknowns: seq<Vec>, w: nat, bs: nat, good: set<nat>)
    requires Square(rows, w) && Shaped(vals, w, bs) && Shaped(unknowns, w, bs)
  {
    forall i, t :: 0 <= i < w && t in good && t < bs ==> Dot(rows[i], Column(unknowns, bs, t)) == vals[i][t]
  }

  lemma SolvesScaled(rows: Matrix, vals: seq<Vec>, unknowns: seq<Vec>, w: nat, bs: nat, good: set<nat>, x: nat, u: Byte)
    requires Square(rows, w) && Shaped(vals, w, bs) && Shaped(unknowns, w, bs) && x < w
    requires Solves(rows, vals, unknowns, w, bs, good)
    ensures Solves(rows[x := Scaled(rows[x], u)], vals[x := Scaled(vals[x], u)], unknowns, w, bs, good)
  {
    forall t | t in good && t < bs
      ensures Dot(Scaled(rows[x], u), Column(unknowns, bs, t)) == Scaled(vals[x], u)[t]
    {
      DotScaled(rows[x], u, Column(unknowns, bs, t));
    }
  }

  lemma SolvesAdded(rows: Matrix, vals: seq<Vec>, unknowns: seq<Vec>, w: nat, bs: nat, good: set<nat>, r: nat, x: nat,
                    u: Byte)
    requires Square(rows, w) && Shaped(vals, w, bs) && Shaped(unknowns, w, bs) && x < w && r < w
    requires Solves(rows, vals, unknowns, w, bs, good)
    ensures Solves(rows[r := AddScaled(rows[r], rows[x], u)], vals[r := AddScaled(vals[r], vals[x], u)], unknowns, w,
                   bs, good)
  {
    forall t | t in good && t < bs
      ensures Dot(AddScaled(rows[r], rows[x], u), Column(unknowns, bs, t)) == AddScaled(vals[r], vals[x], u)[t]
    {
      DotAddScaled(rows[r], rows[x], u, Column(unknowns, bs, t));
    }
  }

  // ----- the shape of the matrix during the forward pass

  /** Rows above x are unit upper triangular, and columns left of x are cleared in the rest. */
  ghost predicate Cleared(rows: Matrix, w: nat, x: nat)
    requires Square(rows, w) && x <= w
  {
    && (forall i :: 0 <= i < x ==> rows[i][i] == 1)
    && (forall i, j :: 0 <= j < i < w && j < x ==> rows[i][j] == 0)
  }

  /** Rows from lo on agree, from column x on, with the residual matrix that starts at row x. */
  ghost predicate Trailing(rows: Matrix, w: nat, x: nat, lo: nat, res: Matrix)
    requires Square(rows, w) && x <= lo <= w && Square(res, w - x)
  {
    forall i, j :: lo <= i < w && x <= j < w ==> rows[i][j] == res[i - x][j - x]
  }

  /** Inside step x: rows x+1 .. row-1 have been reduced, the pivot row is scaled. */
  ghost predicate MidStep(rows: Matrix, w: nat, x: nat, row: nat, res: Matrix)
    requires Square(rows, w) && x < row <= w && Square(res, w - x)
  {
    && Cleared(rows, w, x)
    && (forall j :: x <= j < w ==> rows[x][j] == PivotRow(res)[j - x])
    && (forall i :: x < i < row ==> rows[i][x] == 0)
    && (forall i, j :: x < i < row && x < j < w ==> rows[i][j] == Residual(res, w - x - 1)[i - x - 1][j - x - 1])
    && Trailing(rows, w, x, row, res)
  }

  lemma StepBegins(rows: Matrix, w: nat, x: nat, res: Matrix)
    requires Square(rows, w) && x < w && Square(res, w - x)
    requires Cleared(rows, w, x) && Trailing(rows, w, x, x, res) && res[0][0] != 0
    ensures MidStep(rows[x := Scaled(rows[x], Recip(rows[x][x]))], w, x, x + 1, res)
  {
    var u := Recip(rows[x][x]);
    MulZero(u);
    var rows' := rows[x := Scaled(rows[x], u)];
    assert rows[x][x] == res[0][0];
    forall j | x <= j < w
      ensures rows'[x][j] == PivotRow(res)[j - x]
    {
      assert rows[x][j] == res[0][j - x];
    }
  }

  lemma StepReduces(rows: Matrix, w: nat, x: nat, row: nat, res: Matrix)
    requires Square(rows, w) && x < row < w && Square(res, w - x)
    requires MidStep(rows, w, x, row, res) && res[0][0] != 0
    ensures MidStep(rows[row := AddScaled(rows[row], rows[x], rows[row][x])], w, x, row + 1, res)
  {
    var u := rows[row][x];
    var q := AddScaled(rows[row], rows[x], u);
    var rows' := rows[row := q];
    MulZero(u); XorLaws(0, 0, 0);
    assert rows[row][x] == res[row - x][0];
    MulCommutes(Recip(res[0][0]), res[0][0]);
    assert PivotRow(res)[0] == 1;
    assert q[x] == 0 by { MulOneRight(u); XorLaws(u, 0, 0); }
    forall j | x < j < w
      ensures q[j] == Residual(res, w - x - 1)[row - x - 1][j - x - 1]
    {
      assert rows[row][j] == res[row - x][j - x];
    }
  }

  lemma StepEnds(rows: Matrix, w: nat, x: nat, res: Matrix)
    requires Square(rows, w) && x < w && Square(res, w - x)
    requires MidStep(rows, w, x, w, res) && res[0][0] != 0
    ensures Cleared(rows, w, x + 1) && Trailing(rows, w, x + 1, x + 1, Residual(res, w - x - 1))
  {
    MulCommutes(Recip(res[0][0]), res[0][0]);
    assert PivotRow(res)[0] == 1;
  }

  // ----- back substitution

  lemma {:induction false} DotZeros(r: Vec, v: Vec)
    requires |r| == |v| && forall i :: 0 <= i < |r| ==> r[i] == 0
    ensures Dot(r, v) == 0
  {
    if r != [] {
      MulZero(v[0]); XorLaws(0, 0, 0);
      DotZeros(r[1..], v[1..]);
    }
  }

  /** From row x on, rows hold their unknown. A row i above x still holds the sum of its first terms:
      x + 1 of them until the loop over the rows has passed it, then x. */
  ghost predicate SolvedRow(rows: Matrix, vals: seq<Vec>, unknowns: seq<Vec>, w: nat, bs: nat, t: nat, i: nat, x: nat,
                            row: nat)
    requires Square(rows, w) && Shaped(vals, w, bs) && Shaped(unknowns, w, bs)
    requires i < w && x <= w && (row < x ==> x < w) && t < bs
  {
    vals[i][t] ==
      if i >= x then unknowns[i][t]
      else if i < row then Dot(rows[i][..x], Column(unknowns, bs, t)[..x])
      else Dot(rows[i][..x + 1], Column(unknowns, bs, t)[..x + 1])
  }

  ghost predicate BackSolved(rows: Matrix, vals: seq<Vec>, unknowns: seq<Vec>, w: nat, bs: nat, good: set<nat>, x: nat,
                             row: nat)
    requires Square(rows, w) && Shaped(vals, w, bs) && Shaped(unknowns, w, bs) && x <= w && (row < x ==> x < w)
  {
    forall i, t :: 0 <= i < w && t in good && t < bs ==> SolvedRow(rows, vals, unknowns, w, bs, t, i, x, row)
  }

  lemma BackBegins(rows: Matrix, vals: seq<Vec>, unknowns: seq<Vec>, w: nat, bs: nat, good: set<nat>)
    requires Square(rows, w) && Shaped(vals, w, bs) && Shaped(unknowns, w, bs)
    requires Solves(rows, vals, unknowns, w, bs, good)
    ensures BackSolved(rows, vals, unknowns, w, bs, good, w, w)
  {
    forall i, t | 0 <= i < w && t in good && t < bs
      ensures SolvedRow(rows, vals, unknowns, w, bs, t, i, w, w)
    {
      assert rows[i][..w] == rows[i] && Column(unknowns, bs, t)[..w] == Column(unknowns, bs, t);
    }
  }

  /** Row x needs no work: only its unit diagonal is left. */
  lemma BackRowSolved(rows: Matrix, vals: seq<Vec>, unknowns: seq<Vec>, w: nat, bs: nat, good: set<nat>, x: nat)
    requires Square(rows, w) && Shaped(vals, w, bs) && Shaped(unknowns, w, bs) && x < w
    requires Cleared(rows, w, w)
    requires BackSolved(rows, vals, unknowns, w, bs, good, x + 1, x + 1)
    ensures BackSolved(rows, vals, unknowns, w, bs, good, x, 0)
  {
    forall i, t | 0 <= i < w && t in good && t < bs
      ensures SolvedRow(rows, vals, unknowns, w, bs, t, i, x, 0)
    {
      assert SolvedRow(rows, vals, unknowns, w, bs, t, i, x + 1, x + 1);
      if i == x {
        var v := Column(unknowns, bs, t);
        DotSnoc(rows[x], v, x);
        DotZeros(rows[x][..x], v[..x]);
        MulOne(v[x]); XorLaws(v[x], 0, 0);
      }
    }
  }

  lemma BackRowReduced(rows: Matrix, vals: seq<Vec>, unknowns: seq<Vec>, w: nat, bs: nat, good: set<nat>, x: nat,
                       row: nat)
    requires Square(rows, w) && Shaped(vals, w, bs) && Shaped(unknowns, w, bs) && row < x < w
    requires BackSolved(rows, vals, unknowns, w, bs, good, x, row)
    ensures BackSolved(rows, vals[row := AddScaled(vals[row], vals[x], rows[row][x])], unknowns, w, bs, good, x,
                       row + 1)
  {
    var u := rows[row][x];
    var vals', next := vals[row := AddScaled(vals[row], vals[x], u)], row + 1;
    forall i, t | 0 <= i < w && t in good && t < bs
      ensures SolvedRow(rows, vals', unknowns, w, bs, t, i, x, next)
    {
      assert SolvedRow(rows, vals, unknowns, w, bs, t, i, x, row);
      if i == row {
        assert SolvedRow(rows, vals, unknowns, w, bs, t, x, x, row);
        var v := Column(unknowns, bs, t);
        DotSnoc(rows[row], v, x);
        var d, m := Dot(rows[row][..x], v[..x]), Mul(u, v[x]);
        XorLaws(d, m, m); XorLaws(m, 0, 0); XorLaws(d, 0, 0);
      }
    }
  }
}
