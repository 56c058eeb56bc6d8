/** Vectors and square matrices over the field of 256 elements, and the theory behind solving a
    linear system by elimination that never swaps rows. */
module Elimination {
  import opened Gf256
  import opened Gf256Tables

  type Vec = seq<Byte>

  ghost function Dot(r: Vec, v: Vec): Byte
    requires |r| == |v|
  {
    if r == [] then 0 else Xor(Mul(r[0], v[0]), Dot(r[1..], v[1..]))
  }

  ghost function Scaled(r: Vec, u: Byte): (q: Vec)
    ensures |q| == |r| && forall i :: 0 <= i < |r| ==> q[i] == Mul(u, r[i])
  {
    seq(|r|, i requires 0 <= i < |r| => Mul(u, r[i]))
  }

  /** r plus u times s. */
  ghost function AddScaled(r: Vec, s: Vec, u: Byte): (q: Vec)
    requires |r| == |s|
    ensures |q| == |r| && forall i :: 0 <= i < |r| ==> q[i] == Xor(r[i], Mul(u, s[i]))
  {
    seq(|r|, i requires 0 <= i < |r| => Xor(r[i], Mul(u, s[i])))
  }

  lemma {:induction false} DotScaled(r: Vec, u: Byte, v: Vec)
    requires |r| == |v|
    ensures Dot(Scaled(r, u), v) == Mul(u, Dot(r, v))
  {
    if r == [] {
      MulZero(u);
    } else {
      assert Scaled(r, u)[1..] == Scaled(r[1..], u);
      DotScaled(r[1..], u, v[1..]);
      MulAssociates(u, r[0], v[0]);
      MulXorRight(u, Mul(r[0], v[0]), Dot(r[1..], v[1..]));
    }
  }

  lemma {:induction false} DotAddScaled(r: Vec, s: Vec, u: Byte, v: Vec)
    requires |r| == |s| == |v|
    ensures Dot(AddScaled(r, s, u), v) == Xor(Dot(r, v), Mul(u, Dot(s, v)))
  {
    if r == [] {
      MulZero(u); XorLaws(0, 0, 0);
    } else {
      var q := AddScaled(r, s, u);
      assert q[1..] == AddScaled(r[1..], s[1..], u);
      DotAddScaled(r[1..], s[1..], u, v[1..]);
      MulXorLeft(r[0], Mul(u, s[0]), v[0]);
      MulAssociates(u, s[0], v[0]);
      XorSwap(Mul(r[0], v[0]), Mul(u, Mul(s[0], v[0])), Dot(r[1..], v[1..]), Mul(u, Dot(s[1..], v[1..])));
      MulXorRight(u, Mul(s[0], v[0]), Dot(s[1..], v[1..]));
    }
  }

  // ----- elimination without pivoting

  type Matrix = seq<Vec>

  ghost predicate Square(m: Matrix, n: nat) {
    |m| == n && forall i :: 0 <= i < n ==> |m[i]| == n
  }

  /** The first row divided by the pivot. */
  ghost function PivotRow(m: Matrix): Vec
    requires |m| > 0 && |m[0]| > 0
  {
    Scaled(m[0], Recip(m[0][0]))
  }

  /** What is left of rows 1.. and columns 1.. after one elimination step. */
  ghost function Residual(m: Matrix, n: nat): (q: Matrix)
    requires Square(m, n + 1)
    ensures Square(q, n)
    ensures forall i, j :: 0 <= i < n && 0 <= j < n ==>
      q[i][j] == Xor(m[i + 1][j + 1], Mul(m[i + 1][0], PivotRow(m)[j + 1]))
  {
    seq(n, i requires 0 <= i < n => AddScaled(m[i + 1], PivotRow(m), m[i + 1][0])[1..])
  }

  /** No step of the elimination meets a zero pivot. */
  ghost predicate Eliminable(m: Matrix, n: nat)
    requires Square(m, n)
    decreases n
  {
    n == 0 || (m[0][0] != 0 && Eliminable(Residual(m, n - 1), n - 1))
  }

  // ----- Cauchy matrices

  ghost predicate Distinct(x: Vec) {
    forall i, j :: 0 <= i < j < |x| ==> x[i] != x[j]
  }

  ghost predicate Disjoint(x: Vec, y: Vec) {
    forall i, j :: 0 <= i < |x| && 0 <= j < |y| ==> x[i] != y[j]
  }

  ghost predicate NonZero(r: Vec) {
    forall i :: 0 <= i < |r| ==> r[i] != 0
  }

  ghost function CauchyEntry(r: Byte, s: Byte, x: Byte, y: Byte): Byte {
    Mul(Mul(r, s), Recip(Xor(x, y)))
  }

  /** Entry (i, j) is r[i] * s[j] / (x[i] + y[j]). */
  ghost predicate Cauchy(m: Matrix, n: nat, r: Vec, s: Vec, x: Vec, y: Vec)
    requires Square(m, n)
  {
    && |r| == |s| == |x| == |y| == n
    && NonZero(r) && NonZero(s) && Distinct(x) && Distinct(y) && Disjoint(x, y)
    && forall i, j :: 0 <= i < n && 0 <= j < n ==> m[i][j] == CauchyEntry(r[i], s[j], x[i], y[j])
  }

  lemma MulSwap(a: Byte, b: Byte, c: Byte, d: Byte)
    ensures Mul(Mul(a, b), Mul(c, d)) == Mul(Mul(a, c), Mul(b, d))
  {
    calc {
      Mul(Mul(a, b), Mul(c, d));
      { MulAssociates(a, b, Mul(c, d)); }
      Mul(a, Mul(b, Mul(c, d)));
      { MulAssociates(b, c, d); MulCommutes(b, c); MulAssociates(c, b, d); }
      Mul(a, Mul(c, Mul(b, d)));
      { MulAssociates(a, c, Mul(b, d)); }
      Mul(Mul(a, c), Mul(b, d));
    }
  }

  lemma NonZeroProduct(a: Byte, b: Byte)
    requires a != 0 && b != 0
    ensures Mul(a, b) != 0
    ensures Recip(Mul(a, b)) == Mul(Recip(a), Recip(b))
  {
    MulSwap(a, b, Recip(a), Recip(b));
    MulOne(1);
    RecipUnique(Mul(a, b), Mul(Recip(a), Recip(b)));
  }

  lemma NonZeroRecip(a: Byte)
    requires a != 0
    ensures Recip(a) != 0 && Recip(Recip(a)) == a
  {
    MulCommutes(a, Recip(a));
    RecipUnique(Recip(a), a);
  }

  /** X (Y + Z) + Y (X + Z) == (X + Y) Z in characteristic 2. */
  lemma CrossSum(x: Byte, y: Byte, z: Byte)
    ensures Xor(Mul(x, Xor(y, z)), Mul(y, Xor(x, z))) == Mul(Xor(x, y), z)
  {
    MulXorRight(x, y, z); MulXorRight(y, x, z); MulXorLeft(x, y, z);
    MulCommutes(x, y);
    XorSwap(Mul(x, y), Mul(x, z), Mul(x, y), Mul(y, z));
    XorLaws(Mul(x, y), 0, 0); XorLaws(Xor(Mul(x, z), Mul(y, z)), 0, 0);
  }

  /** 1/a + (1/b) (c (1/e)) == (p ((1/b) (1/e))) (1/a) when b e + c a == p. */
  lemma SumOfFractions(a: Byte, b: Byte, c: Byte, e: Byte, p: Byte)
    requires a != 0 && b != 0 && e != 0
    requires Xor(Mul(b, e), Mul(c, a)) == p
    ensures Xor(Recip(a), Mul(Recip(b), Mul(c, Recip(e)))) == Mul(Mul(p, Mul(Recip(b), Recip(e))), Recip(a))
  {
    var ra, rb, re := Recip(a), Recip(b), Recip(e);
    var q := Mul(rb, re);
    calc {
      Mul(Mul(p, q), ra);
      { MulXorLeft(Mul(b, e), Mul(c, a), q); }
      Mul(Xor(Mul(Mul(b, e), q), Mul(Mul(c, a), q)), ra);
      { MulSwap(b, e, rb, re); MulOne(1); }
      Mul(Xor(1, Mul(Mul(c, a), q)), ra);
      { MulXorLeft(1, Mul(Mul(c, a), q), ra); MulOne(ra); }
      Xor(ra, Mul(Mul(Mul(c, a), q), ra));
      { MulCommutes(Mul(c, a), q); MulAssociates(q, Mul(c, a), ra); MulAssociates(c, a, ra); MulOneRight(c); }
      Xor(ra, Mul(q, c));
      { MulAssociates(rb, re, c); MulCommutes(re, c); }
      Xor(ra, Mul(rb, Mul(c, re)));
    }
  }

  /** The pivot row of a Cauchy matrix: the factor of the first row is gone. */
  lemma CauchyPivotEntry(r0: Byte, s0: Byte, sj: Byte, c: Byte, e: Byte)
    requires r0 != 0 && s0 != 0 && c != 0
    ensures Mul(Recip(Mul(Mul(r0, s0), Recip(c))), Mul(Mul(r0, sj), Recip(e)))
         == Mul(Mul(Recip(s0), sj), Mul(c, Recip(e)))
  {
    NonZeroProduct(r0, s0); NonZeroRecip(c);
    NonZeroProduct(Mul(r0, s0), Recip(c));
    var k := Mul(Recip(r0), Recip(s0));
    MulSwap(k, c, Mul(r0, sj), Recip(e));
    MulSwap(Recip(r0), Recip(s0), r0, sj);
    MulCommutes(Recip(r0), r0);
    MulOne(Mul(Recip(s0), sj));
  }

  /** One elimination step takes a Cauchy entry to a Cauchy entry with the same denominator. */
  lemma CauchyStepEntry(r0: Byte, s0: Byte, ri: Byte, sj: Byte, x0: Byte, y0: Byte, xi: Byte, yj: Byte)
    requires r0 != 0 && s0 != 0
    requires x0 != y0 && xi != y0 && x0 != yj && xi != yj
    ensures Xor(CauchyEntry(ri, sj, xi, yj),
                Mul(CauchyEntry(ri, s0, xi, y0), Mul(Recip(CauchyEntry(r0, s0, x0, y0)), CauchyEntry(r0, sj, x0, yj))))
         == CauchyEntry(Mul(ri, Mul(Xor(xi, x0), Recip(Xor(xi, y0)))), Mul(sj, Mul(Xor(y0, yj), Recip(Xor(x0, yj)))),
                        xi, yj)
  {
    var a, b, c, e := Xor(xi, yj), Xor(xi, y0), Xor(x0, y0), Xor(x0, yj);
    var px, py := Xor(xi, x0), Xor(y0, yj);
    var k := Mul(ri, sj);
    XorNonZero(xi, yj); XorNonZero(xi, y0); XorNonZero(x0, y0); XorNonZero(x0, yj);
    CauchyPivotEntry(r0, s0, sj, c, e);
    var pivot := Mul(Mul(Recip(s0), sj), Mul(c, Recip(e)));
    calc {
      Mul(CauchyEntry(ri, s0, xi, y0), pivot);
      { MulSwap(Mul(ri, s0), Recip(b), Mul(Recip(s0), sj), Mul(c, Recip(e))); }
      Mul(Mul(Mul(ri, s0), Mul(Recip(s0), sj)), Mul(Recip(b), Mul(c, Recip(e))));
      { MulCommutes(Recip(s0), sj); MulSwap(ri, s0, sj, Recip(s0)); MulOneRight(k); }
      Mul(k, Mul(Recip(b), Mul(c, Recip(e))));
    }
    calc {
      Xor(CauchyEntry(ri, sj, xi, yj), Mul(CauchyEntry(ri, s0, xi, y0), pivot));
      { MulXorRight(k, Recip(a), Mul(Recip(b), Mul(c, Recip(e)))); }
      Mul(k, Xor(Recip(a), Mul(Recip(b), Mul(c, Recip(e)))));
      { CauchyNumerator(x0, y0, xi, yj); SumOfFractions(a, b, c, e, Mul(px, py)); }
      Mul(k, Mul(Mul(Mul(px, py), Mul(Recip(b), Recip(e))), Recip(a)));
      { MulAssociates(k, Mul(Mul(px, py), Mul(Recip(b), Recip(e))), Recip(a)); MulSwap(px, py, Recip(b), Recip(e)); }
      Mul(Mul(k, Mul(Mul(px, Recip(b)), Mul(py, Recip(e)))), Recip(a));
      { MulSwap(ri, sj, Mul(px, Recip(b)), Mul(py, Recip(e))); }
      CauchyEntry(Mul(ri, Mul(px, Recip(b))), Mul(sj, Mul(py, Recip(e))), xi, yj);
    }
  }

  lemma XorNonZero(a: Byte, b: Byte)
    requires a != b
    ensures Xor(a, b) != 0
  {
    XorLaws(a, b, b); XorLaws(b, 0, 0); XorLaws(a, 0, 0);
  }

  lemma XorCancels(a: Byte, b: Byte, c: Byte)
    ensures Xor(Xor(a, c), Xor(c, b)) == Xor(a, b)
  {
    XorLaws(a, c, Xor(c, b)); XorLaws(c, c, b); XorLaws(b, 0, 0); XorLaws(c, 0, 0);
  }

  lemma CauchyNumerator(x0: Byte, y0: Byte, xi: Byte, yj: Byte)
    ensures Xor(Mul(Xor(xi, y0), Xor(x0, yj)), Mul(Xor(x0, y0), Xor(xi, yj))) == Mul(Xor(xi, x0), Xor(y0, yj))
  {
    CrossSum(Xor(xi, y0), Xor(x0, y0), Xor(y0, yj));
    XorCancels(x0, yj, y0); XorCancels(xi, yj, y0);
    XorLaws(x0, y0, 0);
    XorCancels(xi, x0, y0);
  }

  lemma CauchyPivot(m: Matrix, n: nat, r: Vec, s: Vec, x: Vec, y: Vec)
    requires Square(m, n) && n > 0
    requires Cauchy(m, n, r, s, x, y)
    ensures m[0][0] != 0
  {
    XorNonZero(x[0], y[0]);
    NonZeroRecip(Xor(x[0], y[0]));
    NonZeroProduct(r[0], s[0]);
    NonZeroProduct(Mul(r[0], s[0]), Recip(Xor(x[0], y[0])));
  }

  lemma CauchyResidual(m: Matrix, n: nat, r: Vec, s: Vec, x: Vec, y: Vec)
    requires Square(m, n) && n > 0
    requires Cauchy(m, n, r, s, x, y)
    ensures Cauchy(Residual(m, n - 1), n - 1, NextRows(r, x, y), NextColumns(s, x, y), x[1..], y[1..])
  {
    var k := n - 1;
    var q := Residual(m, k);
    var r', s' := NextRows(r, x, y), NextColumns(s, x, y);
    NextNonZero(r, s, x, y);
    forall i, j | 0 <= i < k && 0 <= j < k
      ensures q[i][j] == CauchyEntry(r'[i], s'[j], x[1..][i], y[1..][j])
    {
      CauchyStepEntry(r[0], s[0], r[i + 1], s[j + 1], x[0], y[0], x[i + 1], y[j + 1]);
    }
  }

  /** A Cauchy matrix stays one under elimination, so no pivot is ever zero. */
  lemma {:induction false} CauchyEliminable(m: Matrix, n: nat, r: Vec, s: Vec, x: Vec, y: Vec)
    requires Square(m, n)
    requires Cauchy(m, n, r, s, x, y)
    ensures Eliminable(m, n)
    decreases n
  {
    if n > 0 {
      CauchyPivot(m, n, r, s, x, y);
      CauchyResidual(m, n, r, s, x, y);
      CauchyEliminable(Residual(m, n - 1), n - 1, NextRows(r, x, y), NextColumns(s, x, y), x[1..], y[1..]);
    }
  }

  ghost function NextRows(r: Vec, x: Vec, y: Vec): (q: Vec)
    requires |r| == |x| == |y| > 0
    ensures |q| == |r| - 1
    ensures forall i :: 0 <= i < |q| ==> q[i] == Mul(r[i + 1], Mul(Xor(x[i + 1], x[0]), Recip(Xor(x[i + 1], y[0]))))
  {
    seq(|r| - 1, i requires 0 <= i < |r| - 1 => Mul(r[i + 1], Mul(Xor(x[i + 1], x[0]), Recip(Xor(x[i + 1], y[0])))))
  }

  ghost function NextColumns(s: Vec, x: Vec, y: Vec): (q: Vec)
    requires |s| == |x| == |y| > 0
    ensures |q| == |s| - 1
    ensures forall j :: 0 <= j < |q| ==> q[j] == Mul(s[j + 1], Mul(Xor(y[0], y[j + 1]), Recip(Xor(x[0], y[j + 1]))))
  {
    seq(|s| - 1, j requires 0 <= j < |s| - 1 => Mul(s[j + 1], Mul(Xor(y[0], y[j + 1]), Recip(Xor(x[0], y[j + 1])))))
  }

  lemma NextNonZero(r: Vec, s: Vec, x: Vec, y: Vec)
    requires |r| == |s| == |x| == |y| > 0
    requires NonZero(r) && NonZero(s) && Distinct(x) && Distinct(y) && Disjoint(x, y)
    ensures NonZero(NextRows(r, x, y)) && NonZero(NextColumns(s, x, y))
  {
    forall i | 0 <= i < |r| - 1
      ensures NextRows(r, x, y)[i] != 0 && NextColumns(s, x, y)[i] != 0
    {
      NonZeroFactor(r[i + 1], x[i + 1], x[0], x[i + 1], y[0]);
      NonZeroFactor(s[i + 1], y[0], y[i + 1], x[0], y[i + 1]);
    }
  }

  /** r (a + b) / (c + d) is not zero. */
  lemma NonZeroFactor(r: Byte, a: Byte, b: Byte, c: Byte, d: Byte)
    requires r != 0 && a != b && c != d
    ensures Mul(r, Mul(Xor(a, b), Recip(Xor(c, d)))) != 0
  {
    XorNonZero(a, b); XorNonZero(c, d);
    NonZeroRecip(Xor(c, d));
    NonZeroProduct(Xor(a, b), Recip(Xor(c, d)));
    NonZeroProduct(r, Mul(Xor(a, b), Recip(Xor(c, d))));
  }
}
