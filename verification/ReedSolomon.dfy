/** The erasure codec of rs.c: a Cauchy parity matrix, encoding by matrix product, and decoding by
    elimination without pivoting in the scratch half of the codec's own buffer. */
module ReedSolomon {
  import opened Gf256
  import opened Gf256Tables
  import opened Oblas
  import opened Elimination
  import opened Systems

  const DATA_SHARDS_MAX := 255

  // ----- the buffer as rows

  /** Where row r starts when rows of length w are laid out one after the other. */
  function RowStart(r: nat, w: nat): nat {
    if r == 0 then 0 else RowStart(r - 1, w) + w
  }

  lemma {:induction false} RowStartIsProduct(r: nat, w: nat)
    ensures RowStart(r, w) == r * w
  {
    if r > 0 {
      RowStartIsProduct(r - 1, w);
      assert r * w == (r - 1) * w + w;
    }
  }

  lemma {:induction false} RowsApart(i: nat, j: nat, w: nat)
    requires i < j
    ensures RowStart(i, w) + w <= RowStart(j, w)
    decreases j - i
  {
    if i + 1 < j {
      RowsApart(i + 1, j, w);
      assert RowStart(i + 1, w) == RowStart(i, w) + w;
    }
  }

  /** Row j of a matrix of rows of length w. */
  ghost function RowOf(m: seq<Byte>, base: nat, w: nat, j: nat): Vec
    requires base + RowStart(j, w) + w <= |m|
  {
    m[base + RowStart(j, w)..base + RowStart(j, w) + w]
  }

  /** The square matrix rows is stored from base on. */
  ghost predicate Stored(m: seq<Byte>, base: nat, w: nat, rows: Matrix)
    requires base + RowStart(w, w) <= |m|
  {
    && Square(rows, w)
    && forall i, j :: 0 <= i < w && 0 <= j < w ==> RowEntry(m, base, w, i, j) == rows[i][j]
  }

  ghost function RowEntry(m: seq<Byte>, base: nat, w: nat, i: nat, j: nat): Byte
    requires base + RowStart(w, w) <= |m| && i < w && j < w
  {
    RowsApart(i, w, w);
    m[base + RowStart(i, w) + j]
  }

  lemma StoredRow(m: seq<Byte>, base: nat, w: nat, rows: Matrix, x: nat)
    requires base + RowStart(w, w) <= |m| && x < w && Stored(m, base, w, rows)
    ensures base + RowStart(x, w) + w <= |m| && m[base + RowStart(x, w)..base + RowStart(x, w) + w] == rows[x]
  {
    RowsApart(x, w, w);
    forall j | 0 <= j < w
      ensures m[base + RowStart(x, w) + j] == rows[x][j]
    {
      assert RowEntry(m, base, w, x, j) == rows[x][j];
    }
  }

  ghost predicate StoredRows(m: seq<Byte>, base: nat, w: nat, rows: Matrix, n: nat)
    requires base + RowStart(w, w) <= |m| && n <= w && Square(rows, w)
  {
    forall i, j :: 0 <= i < n && 0 <= j < w ==> RowEntry(m, base, w, i, j) == rows[i][j]
  }

  lemma StoredNextRow(m: seq<Byte>, m': seq<Byte>, base: nat, w: nat, rows: Matrix, n: nat)
    requires base + RowStart(w, w) <= |m| == |m'| && n < w && Square(rows, w)
    requires StoredRows(m, base, w, rows, n)
    requires base + RowStart(n, w) + w <= |m|
    requires m'[..base + RowStart(n, w)] == m[..base + RowStart(n, w)]
    requires m'[base + RowStart(n, w)..base + RowStart(n, w) + w] == rows[n]
    ensures StoredRows(m', base, w, rows, n + 1)
  {
    forall i, j | 0 <= i < n + 1 && 0 <= j < w
      ensures RowEntry(m', base, w, i, j) == rows[i][j]
    {
      if i < n {
        RowsApart(i, n, w);
        assert m'[..base + RowStart(n, w)][base + RowStart(i, w) + j]
          == m[..base + RowStart(n, w)][base + RowStart(i, w) + j];
        assert RowEntry(m, base, w, i, j) == rows[i][j];
      } else {
        assert m'[base + RowStart(n, w)..base + RowStart(n, w) + w][j] == rows[n][j];
      }
    }
  }

  lemma TwoRows(w: nat, r: nat, x: nat)
    requires r < w && x < w && r != x
    ensures RowStart(r, w) + w <= RowStart(w, w) && RowStart(x, w) + w <= RowStart(w, w)
    ensures RowStart(r, w) + w <= RowStart(x, w) || RowStart(x, w) + w <= RowStart(r, w)
  {
    RowsApart(r, w, w); RowsApart(x, w, w);
    if r < x { RowsApart(r, x, w); } else { RowsApart(x, r, w); }
  }

  /** Adding a multiple of row x to row r, in the buffer. */
  lemma StoredAdded(s0: seq<Byte>, s1: seq<Byte>, base: nat, w: nat, rows: Matrix, r: nat, x: nat, u: Byte)
    requires base + RowStart(w, w) <= |s0| && r < w && x < w && r != x
    requires Stored(s0, base, w, rows)
    requires base + RowStart(r, w) + w <= |s0| && AddedAt(s0, s1, base + RowStart(r, w), rows[x], u)
    ensures |s1| == |s0| && Stored(s1, base, w, rows[r := AddScaled(rows[r], rows[x], u)])
    ensures s1[..base] == s0[..base]
  {
    var rows' := rows[r := AddScaled(rows[r], rows[x], u)];
    forall i, j | 0 <= i < w && 0 <= j < w
      ensures RowEntry(s1, base, w, i, j) == rows'[i][j]
    {
      assert RowEntry(s0, base, w, i, j) == rows[i][j];
      AddedEntry(s0, s1, base, w, rows[x], r, i, j, u);
    }
  }

  /** An addition to row r changes the entries of row r alone. */
  lemma AddedEntry(s0: seq<Byte>, s1: seq<Byte>, base: nat, w: nat, row: Vec, r: nat, i: nat, j: nat, u: Byte)
    requires base + RowStart(w, w) <= |s0| && r < w && i < w && j < w && |row| == w
    requires base + RowStart(r, w) + w <= |s0| && AddedAt(s0, s1, base + RowStart(r, w), row, u)
    ensures RowEntry(s1, base, w, i, j) ==
      if i == r then Xor(RowEntry(s0, base, w, i, j), Mul(u, row[j])) else RowEntry(s0, base, w, i, j)
  {
    RowsApart(i, w, w);
    if i < r { RowsApart(i, r, w); } else if r < i { RowsApart(r, i, w); }
  }

  /** Scaling w bytes from the pivot (x, x) on runs into row x + 1, where it meets only zeros. */
  lemma StoredScaled(s0: seq<Byte>, s1: seq<Byte>, base: nat, w: nat, rows: Matrix, x: nat, u: Byte)
    requires base + RowStart(w, w) <= |s0| && x < w
    requires Stored(s0, base, w, rows) && Cleared(rows, w, x)
    requires base + RowStart(x, w) + x + w <= |s0| && ScaledAt(s0, s1, base + RowStart(x, w) + x, w, u)
    ensures |s1| == |s0| && Stored(s1, base, w, rows[x := Scaled(rows[x], u)])
    ensures s1[..base] == s0[..base]
  {
    var rows' := rows[x := Scaled(rows[x], u)];
    MulZero(u);
    forall i, j | 0 <= i < w && 0 <= j < w
      ensures RowEntry(s1, base, w, i, j) == rows'[i][j]
    {
      RowsApart(i, w, w);
      assert RowEntry(s0, base, w, i, j) == rows[i][j];
      if i < x {
        RowsApart(i, x, w);
      } else if i > x {
        RowsApart(x, i, w);
        if i > x + 1 { RowsApart(x + 1, i, w); }
      }
    }
  }

  /** Rows d and columns e of a parity matrix with rows of length ds. */
  ghost function SubMatrix(m: seq<Byte>, ds: nat, ps: nat, d: seq<nat>, e: seq<nat>): (r: Matrix)
    requires RowStart(ps, ds) <= |m| && Below(d, ps) && Below(e, ds)
    ensures Shaped(r, |d|, |e|)
    ensures forall i :: 0 <= i < |d| ==> r[i] == Gather(ParityRow(m, ds, ps, d[i]), e)
  {
    seq(|d|, i requires 0 <= i < |d| => Gather(ParityRow(m, ds, ps, d[i]), e))
  }

  lemma SubMatrixOfPrefix(m: seq<Byte>, m': seq<Byte>, ds: nat, ps: nat, d: seq<nat>, e: seq<nat>)
    requires RowStart(ps, ds) <= |m| && RowStart(ps, ds) <= |m'| && m[..RowStart(ps, ds)] == m'[..RowStart(ps, ds)]
    requires Below(d, ps) && Below(e, ds)
    ensures SubMatrix(m, ds, ps, d, e) == SubMatrix(m', ds, ps, d, e)
  {
    forall i | 0 <= i < |d|
      ensures ParityRow(m, ds, ps, d[i]) == ParityRow(m', ds, ps, d[i])
    {
      ParityRowOfPrefix(m, m', ds, ps, d[i]);
    }
  }

  lemma ParityRowOfPrefix(m: seq<Byte>, m': seq<Byte>, ds: nat, ps: nat, j: nat)
    requires RowStart(ps, ds) <= |m| && RowStart(ps, ds) <= |m'| && m[..RowStart(ps, ds)] == m'[..RowStart(ps, ds)]
    requires j < ps
    ensures ParityRow(m, ds, ps, j) == ParityRow(m', ds, ps, j)
  {
    RowsApart(j, ps, ds);
    assert RowOf(m, 0, ds, j) == m[..RowStart(ps, ds)][RowStart(j, ds)..RowStart(j, ds) + ds];
    assert RowOf(m', 0, ds, j) == m'[..RowStart(ps, ds)][RowStart(j, ds)..RowStart(j, ds) + ds];
  }

  ghost function ParityRow(m: seq<Byte>, ds: nat, ps: nat, j: nat): (r: Vec)
    requires RowStart(ps, ds) <= |m| && j < ps
    ensures |r| == ds
  {
    RowsApart(j, ps, ds);
    RowOf(m, 0, ds, j)
  }

  // ----- shards

  /** Shard buffers of at least bs bytes, no two of them the same. */
  ghost predicate Buffers(shards: seq<array<Byte>>, bs: nat) {
    && (forall i :: 0 <= i < |shards| ==> bs <= shards[i].Length)
    && (forall i, j :: 0 <= i < j < |shards| ==> shards[i] != shards[j])
  }

  ghost function Contents(shards: seq<array<Byte>>, bs: nat): (c: seq<Vec>)
    requires Buffers(shards, bs)
    reads shards
    ensures Shaped(c, |shards|, bs)
    ensures forall i :: 0 <= i < |shards| ==> c[i] == shards[i][..bs]
  {
    seq(|shards|, i requires 0 <= i < |shards| && bs <= shards[i].Length reads shards => shards[i][..bs])
  }

  method ScaleShard(shards: seq<array<Byte>>, x: nat, u: Byte, bs: nat, width: nat)
    requires VectorWidth(width) && Buffers(shards, bs) && x < |shards| && u != 0
    modifies shards[x]
    ensures Contents(shards, bs) == old(Contents(shards, bs))[x := Scaled(old(shards[x][..bs]), u)]
  {
    ghost var before := Contents(shards, bs);
    Scal(shards[x], 0, u, bs, width);
    assert shards[x][..bs] == Scaled(before[x], u);
    assert forall i :: 0 <= i < |shards| && i != x ==> shards[i][..bs] == before[i];
  }

  method AddShard(shards: seq<array<Byte>>, r: nat, x: nat, u: Byte, bs: nat, width: nat)
    requires VectorWidth(width) && Buffers(shards, bs) && x < |shards| && r < |shards| && r != x
    modifies shards[r]
    ensures Contents(shards, bs) == old(Contents(shards, bs))[r := AddScaled(old(shards[r][..bs]), old(shards[x][..bs]),
        u)]
  {
    ghost var before := Contents(shards, bs);
    Axpy(shards[r], 0, shards[x], 0, u, bs, width);
    assert shards[r][..bs] == AddScaled(before[r], before[x], u);
    assert forall i :: 0 <= i < |shards| && i != r ==> shards[i][..bs] == before[i];
  }

  // ----- the wrappers around the kernels

  lemma AddedZero(s: seq<Byte>, at: nat, src: seq<Byte>)
    requires at + |src| <= |s|
    ensures AddedAt(s, s, at, src, 0)
  {
    forall i | 0 <= i < |src|
      ensures s[at + i] == Xor(s[at + i], Mul(0, src[i]))
    {
      MulZero(src[i]); XorLaws(s[at + i], 0, 0);
    }
  }

  method Axpy(a: array<Byte>, ao: nat, b: array<Byte>, bo: nat, u: Byte, k: nat, width: nat)
    requires VectorWidth(width)
    requires Separate(a, ao, b, bo, k)
    modifies a
    ensures AddedAt(old(a[..]), a[..], ao, old(b[bo..bo + k]), u)
  {
    if u == 0 {
      AddedZero(a[..], ao, b[bo..bo + k]);
      return;
    }
    OblAxpy(a, ao, b, bo, u, k, width);
  }

  method Scal(a: array<Byte>, ao: nat, u: Byte, k: nat, width: nat)
    requires VectorWidth(width)
    requires ao + k <= a.Length
    modifies a
    ensures u == 0 ==> a[..] == old(a[..])
    ensures u != 0 ==> ScaledAt(old(a[..]), a[..], ao, k, u)
  {
    if u < 2 {
      forall i | ao <= i < ao + k
        ensures Mul(1, a[i]) == a[i]
      {
        MulOne(a[i]);
      }
      return;
    }
    OblScal(a, ao, u, k, width);
  }

  /** The part of a parity byte that the shards listed in known contribute. */
  ghost function KnownSum(row: Vec, c: seq<Vec>, ds: nat, bs: nat, known: seq<nat>, t: nat): Byte
    requires |row| == ds <= |c| && Shaped(c, |c|, bs) && Below(known, ds) && t < bs
  {
    Dot(Gather(row, known), Gather(Column(c, bs, t), known))
  }

  lemma KnownSumSnoc(row: Vec, c: seq<Vec>, ds: nat, bs: nat, known: seq<nat>, k: nat, t: nat)
    requires |row| == ds <= |c| && Shaped(c, |c|, bs) && Below(known, ds) && t < bs && k < |known|
    ensures KnownSum(row, c, ds, bs, known[..k + 1], t)
         == Xor(KnownSum(row, c, ds, bs, known[..k], t), Mul(row[known[k]], c[known[k]][t]))
  {
    var v := Column(c, bs, t)[..ds];
    assert known[..k + 1] == known[..k] + [known[k]];
    DotGatherSnoc(row, v, known[..k], known[k]);
    assert Gather(v, known[..k]) == Gather(Column(c, bs, t), known[..k]);
    assert Gather(v, known[..k + 1]) == Gather(Column(c, bs, t), known[..k + 1]);
  }

  /** A parity byte less the known shards' part is the erased shards' part. */
  lemma ErasedPart(row: Vec, orig: seq<Vec>, c: seq<Vec>, ds: nat, bs: nat, marks: seq<bool>, t: nat)
    requires |row| == ds <= |c| && Shaped(c, |c|, bs) && Shaped(orig, ds, bs) && ds <= |marks| && t < bs
    requires forall k :: 0 <= k < ds && !marks[k] ==> c[k][t] == orig[k][t]
    ensures var known, e := Picked(marks, 0, ds, false), Picked(marks, 0, ds, true);
      Xor(Dot(row, Column(orig, bs, t)), KnownSum(row, c, ds, bs, known, t))
        == Dot(Gather(row, e), Gather(Column(orig, bs, t), e))
  {
    var known, e := Picked(marks, 0, ds, false), Picked(marks, 0, ds, true);
    var v := Column(orig, bs, t);
    assert row[..ds] == row && v[..ds] == v;
    DotSplits(row, v, marks, ds);
    assert Gather(Column(c, bs, t), known) == Gather(v, known);
    var a, b := Dot(Gather(row, known), Gather(v, known)), Dot(Gather(row, e), Gather(v, e));
    XorLaws(a, b, a); XorLaws(b, a, a); XorLaws(a, 0, 0); XorLaws(b, 0, 0);
  }

  /** v is shard number to with the known shards' part of parity row taken out. */
  ghost predicate Reduced(v: Vec, before: seq<Vec>, row: Vec, ds: nat, bs: nat, known: seq<nat>, to: nat)
    requires |row| == ds <= |before| && Shaped(before, |before|, bs) && Below(known, ds) && to < |before| && |v| == bs
  {
    forall t :: 0 <= t < bs ==> v[t] == Xor(before[to][t], KnownSum(row, before, ds, bs, known, t))
  }

  lemma ReducedSnoc(v: Vec, before: seq<Vec>, row: Vec, ds: nat, bs: nat, known: seq<nat>, k: nat, to: nat)
    requires |row| == ds <= |before| && Shaped(before, |before|, bs) && Below(known, ds) && to < |before| && |v| == bs
    requires k < |known| && Reduced(v, before, row, ds, bs, known[..k], to)
    ensures Reduced(AddScaled(v, before[known[k]], row[known[k]]), before, row, ds, bs, known[..k + 1], to)
  {
    forall t | 0 <= t < bs
      ensures Xor(v[t], Mul(row[known[k]], before[known[k]][t]))
           == Xor(before[to][t], KnownSum(row, before, ds, bs, known[..k + 1], t))
    {
      KnownSumSnoc(row, before, ds, bs, known, k, t);
      XorLaws(before[to][t], KnownSum(row, before, ds, bs, known[..k], t), Mul(row[known[k]], before[known[k]][t]));
    }
  }

  /** In the good columns the unmarked data shards are the original's, and shard e[i] holds the
      original's parity d[i]. */
  ghost predicate Consistent(c: seq<Vec>, m: seq<Byte>, ds: nat, ps: nat, bs: nat, marks: seq<bool>,
                             e: seq<nat>, d: seq<nat>, orig: seq<Vec>, good: set<nat>)
    requires ds <= |c| && Shaped(c, |c|, bs) && RowStart(ps, ds) <= |m| && ds <= |marks| && Shaped(orig, ds, bs)
    requires Below(d, ps) && Below(e, ds) && |d| == |e|
  {
    && (forall k, t :: 0 <= k < ds && !marks[k] && t in good && t < bs ==> c[k][t] == orig[k][t])
    && (forall i, t :: 0 <= i < |e| && t in good && t < bs ==>
          c[e[i]][t] == Dot(ParityRow(m, ds, ps, d[i]), Column(orig, bs, t)))
  }

  lemma ReducedOfPrefix(vals: seq<Vec>, after: seq<Vec>, before: seq<Vec>, m: seq<Byte>, m': seq<Byte>, ds: nat,
                        ps: nat, bs: nat,
                        known: seq<nat>, e: seq<nat>, d: seq<nat>)
    requires RowStart(ps, ds) <= |m| && RowStart(ps, ds) <= |m'| && m[..RowStart(ps, ds)] == m'[..RowStart(ps, ds)]
    requires ds <= |before| == |after| && Shaped(before, |before|, bs) && Shaped(after, |before|, bs)
    requires Below(known, ds) && Below(e, ds) && Below(d, ps) && |d| == |e| == |vals| && Shaped(vals, |e|, bs)
    requires forall i :: 0 <= i < |e| ==> vals[i] == after[e[i]]
    requires forall i :: 0 <= i < |e| ==> Reduced(after[e[i]], before, ParityRow(m', ds, ps, d[i]), ds, bs, known, e[i])
    ensures forall i :: 0 <= i < |e| ==> Reduced(vals[i], before, ParityRow(m, ds, ps, d[i]), ds, bs, known, e[i])
  {
    forall i | 0 <= i < |e|
      ensures Reduced(vals[i], before, ParityRow(m, ds, ps, d[i]), ds, bs, known, e[i])
    {
      ParityRowOfPrefix(m, m', ds, ps, d[i]);
      assert Reduced(after[e[i]], before, ParityRow(m', ds, ps, d[i]), ds, bs, known, e[i]);
    }
  }

  lemma SystemHolds(before: seq<Vec>, vals: seq<Vec>, m: seq<Byte>, ds: nat, ps: nat, bs: nat, marks: seq<bool>,
                    e: seq<nat>, d: seq<nat>, orig: seq<Vec>, unknowns: seq<Vec>, good: set<nat>)
    requires ds <= |before| && Shaped(before, |before|, bs) && RowStart(ps, ds) <= |m| && ds <= |marks|
    requires Shaped(orig, ds, bs)
    requires Below(d, ps) && |d| == |e| && e == Picked(marks, 0, ds, true)
    requires Consistent(before, m, ds, ps, bs, marks, e, d, orig, good)
    requires Shaped(vals, |e|, bs) && |unknowns| == |e| && forall i :: 0 <= i < |e| ==> unknowns[i] == orig[e[i]]
    requires forall i :: 0 <= i < |e| ==>
      Reduced(vals[i], before, ParityRow(m, ds, ps, d[i]), ds, bs, Picked(marks, 0, ds, false), e[i])
    ensures Solves(SubMatrix(m, ds, ps, d, e), vals, unknowns, |e|, bs, good)
  {
    forall i, t | 0 <= i < |e| && t in good && t < bs
      ensures Dot(SubMatrix(m, ds, ps, d, e)[i], Column(unknowns, bs, t)) == vals[i][t]
    {
      ErasedPart(ParityRow(m, ds, ps, d[i]), orig, before, ds, bs, marks, t);
      assert Column(unknowns, bs, t) == Gather(Column(orig, bs, t), e);
      assert before[e[i]][t] == Dot(ParityRow(m, ds, ps, d[i]), Column(orig, bs, t));
    }
  }

  /** Byte t of parity shard j is the combination of the data shards orig with row j. */
  ghost predicate HoldsParityAt(c: seq<Vec>, orig: seq<Vec>, m: seq<Byte>, ds: nat, ps: nat, bs: nat, j: nat, t: nat)
    requires ds + ps <= |c| && Shaped(c, |c|, bs) && Shaped(orig, ds, bs) && RowStart(ps, ds) <= |m| && j < ps && t < bs
  {
    c[ds + j][t] == Dot(ParityRow(m, ds, ps, j), Column(orig, bs, t))
  }

  ghost predicate HoldsParity(c: seq<Vec>, orig: seq<Vec>, m: seq<Byte>, ds: nat, ps: nat, bs: nat, j: nat)
    requires ds + ps <= |c| && Shaped(c, |c|, bs) && Shaped(orig, ds, bs) && RowStart(ps, ds) <= |m| && j < ps
  {
    forall t :: 0 <= t < bs ==> HoldsParityAt(c, orig, m, ds, ps, bs, j, t)
  }

  /** The first n parity shards hold the combinations of orig. */
  ghost predicate ParityUpTo(c: seq<Vec>, orig: seq<Vec>, m: seq<Byte>, ds: nat, ps: nat, bs: nat, n: nat)
    requires ds + ps <= |c| && Shaped(c, |c|, bs) && Shaped(orig, ds, bs) && RowStart(ps, ds) <= |m| && n <= ps
  {
    forall j :: 0 <= j < n ==> HoldsParity(c, orig, m, ds, ps, bs, j)
  }

  lemma ParityKept(c: seq<Vec>, c': seq<Vec>, orig: seq<Vec>, m: seq<Byte>, ds: nat, ps: nat, bs: nat, j: nat)
    requires ds + ps <= |c| && Shaped(c, |c|, bs) && Shaped(c', |c|, bs) && Shaped(orig, ds, bs)
    requires RowStart(ps, ds) <= |m| && j < ps
    requires HoldsParity(c, orig, m, ds, ps, bs, j) && c'[ds + j] == c[ds + j]
    ensures HoldsParity(c', orig, m, ds, ps, bs, j)
  {
    forall t | 0 <= t < bs
      ensures HoldsParityAt(c', orig, m, ds, ps, bs, j, t)
    {
      assert HoldsParityAt(c, orig, m, ds, ps, bs, j, t);
    }
  }

  lemma ReducedFromZero(v: Vec, c: seq<Vec>, orig: seq<Vec>, row: Vec, ds: nat, bs: nat, to: nat)
    requires |row| == ds <= |c| && Shaped(c, |c|, bs) && orig == c[..ds] && to < |c| && |v| == bs
    requires forall t :: 0 <= t < bs ==> c[to][t] == 0
    requires Reduced(v, c, row, ds, bs, seq(ds, i => i), to)
    ensures forall t :: 0 <= t < bs ==> v[t] == Dot(row, Column(orig, bs, t))
  {
    var all := seq(ds, i => i);
    forall t | 0 <= t < bs
      ensures v[t] == Dot(row, Column(orig, bs, t))
    {
      assert Gather(row, all) == row && Gather(Column(c, bs, t), all) == Column(orig, bs, t);
      XorLaws(Dot(row, Column(orig, bs, t)), 0, 0);
    }
  }

  /** Parity rows as shard numbers. */
  ghost function Raised(rows: seq<nat>, start: nat): (r: seq<nat>)
    ensures |r| == |rows|
  {
    if rows == [] then [] else Raised(rows[..|rows| - 1], start) + [rows[|rows| - 1] + start]
  }

  lemma {:induction false} RaisedAt(rows: seq<nat>, start: nat, k: nat)
    requires k < |rows|
    ensures Raised(rows, start)[k] == rows[k] + start
  {
    if k < |rows| - 1 { RaisedAt(rows[..|rows| - 1], start, k); }
  }

  lemma RaisedNext(marks: seq<bool>, rows: seq<nat>, ds: nat, j: nat, row: nat)
    requires j == ds + row < |marks| && !marks[j] && Picked(marks, ds, j, false) == Raised(rows, ds)
    ensures Picked(marks, ds, j + 1, false) == Raised(rows + [row], ds)
  {
    assert (rows + [row])[..|rows + [row]| - 1] == rows;
  }

  /** In c' shard ds + d[i] has been copied over the lost data shard e[i], as far as d goes; the shards
      received, which are those with no mark, are as in c. */
  ghost predicate Copied(c: seq<Vec>, c': seq<Vec>, ds: nat, marks: seq<bool>, e: seq<nat>, d: seq<nat>)
  {
    && |c'| == |c| == |marks| && |d| <= |e|
    && (forall i :: 0 <= i < |d| ==> CopiedOne(c, c', ds, e[i], d[i]))
    && (forall k :: 0 <= k < |c| && !marks[k] ==> c'[k] == c[k])
  }

  ghost predicate CopiedOne(c: seq<Vec>, c': seq<Vec>, ds: nat, to: nat, row: nat) {
    to < |c'| && ds + row < |c| && c'[to] == c[ds + row]
  }

  lemma CopiedNext(c: seq<Vec>, c': seq<Vec>, c'': seq<Vec>, ds: nat, marks: seq<bool>, e: seq<nat>, d: seq<nat>,
                   row: nat)
    requires ds <= |marks| && e == Picked(marks, 0, ds, true) && |d| < |e| && Copied(c, c', ds, marks, e, d)
    requires ds + row < |c| && !marks[ds + row] && c'' == c'[e[|d|] := c'[ds + row]]
    ensures Copied(c, c'', ds, marks, e, d + [row])
  {
    PickedSorted(marks, 0, ds, true);
    var d' := d + [row];
    forall l | 0 <= l < |d'|
      ensures CopiedOne(c, c'', ds, e[l], d'[l])
    {
      if l < |d| {
        assert CopiedOne(c, c', ds, e[l], d[l]);
        assert e[l] < e[|d|];
      }
    }
  }

  method CopyShard(shards: seq<array<Byte>>, to: nat, from: nat, bs: nat)
    requires Buffers(shards, bs) && to < |shards| && from < |shards|
    modifies shards[to]
    ensures Contents(shards, bs) == old(Contents(shards, bs))[to := old(shards[from][..bs])]
  {
    ghost var before := Contents(shards, bs);
    forall t | 0 <= t < bs {
      shards[to][t] := shards[from][t];
    }
    assert shards[to][..bs] == before[from];
    assert forall i :: 0 <= i < |shards| && i != to ==> shards[i][..bs] == before[i];
  }

  /** Byte column t of the surviving shards belongs to the code word of orig. */
  ghost predicate HonestColumn(c: seq<Vec>, m: seq<Byte>, ds: nat, ps: nat, marks: seq<bool>, orig: seq<Vec>, bs: nat,
                               t: nat)
    requires |c| == |marks| == ds + ps && Shaped(c, ds + ps, bs) && RowStart(ps, ds) <= |m| && Shaped(orig, ds, bs)
    requires t < bs
  {
    && (forall i :: 0 <= i < ds && !marks[i] ==> c[i][t] == orig[i][t])
    && (forall j :: 0 <= j < ps && !marks[ds + j] ==> HoldsParityAt(c, orig, m, ds, ps, bs, j, t))
  }

  ghost function HonestColumns(c: seq<Vec>, m: seq<Byte>, ds: nat, ps: nat, marks: seq<bool>, orig: seq<Vec>,
                               bs: nat): (good: set<nat>)
    requires |c| == |marks| == ds + ps && Shaped(c, ds + ps, bs) && RowStart(ps, ds) <= |m| && Shaped(orig, ds, bs)
    ensures forall t: nat :: t in good <==> t < bs && HonestColumn(c, m, ds, ps, marks, orig, bs, t)
  {
    set t: nat | t < bs && HonestColumn(c, m, ds, ps, marks, orig, bs, t)
  }

  /** In every honest byte column of c the data shards of c' are the original's. */
  ghost predicate Restored(c: seq<Vec>, c': seq<Vec>, m: seq<Byte>, ds: nat, ps: nat, marks: seq<bool>, orig: seq<Vec>,
                           bs: nat)
    requires |c| == |c'| == |marks| == ds + ps && Shaped(c, ds + ps, bs) && Shaped(c', ds + ps, bs)
    requires RowStart(ps, ds) <= |m| && Shaped(orig, ds, bs)
  {
    forall t, i :: 0 <= t < bs && 0 <= i < ds && HonestColumn(c, m, ds, ps, marks, orig, bs, t) ==>
      c'[i][t] == orig[i][t]
  }

  /** In the good columns the shards listed in e hold the original's bytes. */
  ghost predicate BackAt(c: seq<Vec>, orig: seq<Vec>, ds: nat, bs: nat, e: seq<nat>, good: set<nat>)
    requires ds <= |c| && Shaped(c, |c|, bs) && Shaped(orig, ds, bs) && Below(e, ds)
  {
    forall i, t :: 0 <= i < |e| && t in good && t < bs ==> c[e[i]][t] == orig[e[i]][t]
  }

  ghost predicate KeptUnmarked(c: seq<Vec>, c': seq<Vec>, ds: nat, marks: seq<bool>)
    requires ds <= |c| && ds <= |c'| && ds <= |marks|
  {
    forall k :: 0 <= k < ds && !marks[k] ==> c'[k] == c[k]
  }

  /** Copying surviving parity shards over the lost data shards of a code word. */
  lemma CopiedConsistent(c: seq<Vec>, c': seq<Vec>, m: seq<Byte>, ds: nat, ps: nat, bs: nat, marks: seq<bool>,
                         e: seq<nat>, d: seq<nat>, orig: seq<Vec>, good: set<nat>)
    requires |c| == |marks| == ds + ps && Shaped(c, |c|, bs) && Shaped(c', |c|, bs)
    requires RowStart(ps, ds) <= |m| && Shaped(orig, ds, bs)
    requires e == Picked(marks, 0, ds, true) && |d| == |e| && Below(d, ps)
    requires (forall i :: 0 <= i < |d| ==> !marks[ds + d[i]]) && Copied(c, c', ds, marks, e, d)
    requires good == HonestColumns(c, m, ds, ps, marks, orig, bs)
    ensures Consistent(c', m, ds, ps, bs, marks, e, d, orig, good)
  {
    forall i, t | 0 <= i < |e| && t in good && t < bs
      ensures c'[e[i]][t] == Dot(ParityRow(m, ds, ps, d[i]), Column(orig, bs, t))
    {
      assert CopiedOne(c, c', ds, e[i], d[i]) && HoldsParityAt(c, orig, m, ds, ps, bs, d[i], t);
    }
  }

  lemma CopiedKeeps(c: seq<Vec>, c': seq<Vec>, ds: nat, marks: seq<bool>, e: seq<nat>, d: seq<nat>)
    requires ds <= |c| && Copied(c, c', ds, marks, e, d)
    ensures KeptUnmarked(c, c', ds, marks)
  {}

  lemma HonestOfPrefix(c: seq<Vec>, m: seq<Byte>, m': seq<Byte>, ds: nat, ps: nat, marks: seq<bool>, orig: seq<Vec>,
                       bs: nat, t: nat)
    requires |c| == |marks| == ds + ps && Shaped(c, ds + ps, bs) && Shaped(orig, ds, bs) && t < bs
    requires RowStart(ps, ds) <= |m| && RowStart(ps, ds) <= |m'| && m[..RowStart(ps, ds)] == m'[..RowStart(ps, ds)]
    requires HonestColumn(c, m', ds, ps, marks, orig, bs, t)
    ensures HonestColumn(c, m, ds, ps, marks, orig, bs, t)
  {
    forall j | 0 <= j < ps && !marks[ds + j]
      ensures HoldsParityAt(c, orig, m, ds, ps, bs, j, t)
    {
      ParityRowOfPrefix(m, m', ds, ps, j);
      assert HoldsParityAt(c, orig, m', ds, ps, bs, j, t);
    }
  }

  lemma RestoredAll(c: seq<Vec>, copied: seq<Vec>, c': seq<Vec>, m: seq<Byte>, m': seq<Byte>, ds: nat, ps: nat,
                    marks: seq<bool>,
                    orig: seq<Vec>, bs: nat, good: set<nat>)
    requires |c| == |copied| == |c'| == |marks| == ds + ps && Shaped(c, ds + ps, bs) && Shaped(c', ds + ps, bs)
    requires RowStart(ps, ds) <= |m| && RowStart(ps, ds) <= |m'| && m[..RowStart(ps, ds)] == m'[..RowStart(ps, ds)]
    requires Shaped(orig, ds, bs)
    requires good == HonestColumns(c, m, ds, ps, marks, orig, bs)
    requires KeptUnmarked(c, copied, ds, marks) && KeptUnmarked(copied, c', ds, marks)
    requires BackAt(c', orig, ds, bs, Picked(marks, 0, ds, true), good)
    ensures Restored(c, c', m', ds, ps, marks, orig, bs)
  {
    forall t, i | 0 <= t < bs && 0 <= i < ds && HonestColumn(c, m', ds, ps, marks, orig, bs, t)
      ensures c'[i][t] == orig[i][t]
    {
      HonestOfPrefix(c, m, m', ds, ps, marks, orig, bs, t);
      if marks[i] { PickedComplete(marks, 0, ds, i); }
    }
  }

  lemma SurvivorsUntouched(data: seq<array<Byte>>, marks: seq<bool>, bs: nat, ds: nat, e: seq<nat>)
    requires Buffers(data, bs) && ds <= |data| == |marks| && e == Picked(marks, 0, ds, true)
    ensures var touched := set i | 0 <= i < |e| :: data[e[i]];
      forall k :: 0 <= k < ds && !marks[k] ==> data[k] !in touched
  {
    var touched := set i | 0 <= i < |e| :: data[e[i]];
    forall k | 0 <= k < ds && !marks[k]
      ensures data[k] !in touched
    {
      forall i | 0 <= i < |e|
        ensures data[e[i]] != data[k]
      {
        assert marks[e[i]];
        assert if e[i] < k then data[e[i]] != data[k] else data[k] != data[e[i]];
      }
    }
  }

  // ----- the codec

  class Codec {
    const ds: nat
    const ps: nat
    const ts: nat
    // The size of the parity matrix.
    const half: nat
    // The parity matrix in the first ps * ds bytes, scratch space behind it.
    const p: array<Byte>
    // How many bytes the vector registers of this build hold.
    const width: nat

    ghost predicate Valid() {
      && 0 < ds && 0 < ps && ts == ds + ps <= DATA_SHARDS_MAX
      && half == RowStart(ps, ds) && p.Length >= 2 * half
      && VectorWidth(width)
    }

    constructor (ds: nat, ps: nat, room: nat, width: nat)
      requires 0 < ds && 0 < ps && ds + ps <= DATA_SHARDS_MAX && room >= 2 * RowStart(ps, ds) && VectorWidth(width)
      ensures Valid() && fresh(p)
      ensures this.ds == ds && this.ps == ps && p.Length == room && this.width == width
    {
      this.ds, this.ps, this.ts, this.half := ds, ps, ds + ps, RowStart(ps, ds);
      this.p := new Byte[room](_ => 0);
      this.width := width;
    }

    // ----- the scratch matrix

    method ScaleRow(w: nat, x: nat, u: Byte, ghost rows: Matrix)
      requires Valid() && x < w && u != 0
      requires half + RowStart(w, w) + w - 1 <= p.Length
      requires Stored(p[..], half, w, rows) && Cleared(rows, w, x)
      modifies p
      ensures Stored(p[..], half, w, rows[x := Scaled(rows[x], u)])
      ensures p[..half] == old(p[..half])
    {
      PivotFits(w, x);
      Scal(p, half + RowStart(x, w) + x, u, w, width);
      StoredScaled(old(p[..]), p[..], half, w, rows, x, u);
      assert p[..half] == p[..][..half];
    }

    method AddRow(w: nat, r: nat, x: nat, u: Byte, ghost rows: Matrix)
      requires Valid() && x < w && r < w && r != x
      requires half + RowStart(w, w) <= p.Length
      requires Stored(p[..], half, w, rows)
      modifies p
      ensures Stored(p[..], half, w, rows[r := AddScaled(rows[r], rows[x], u)])
      ensures p[..half] == old(p[..half])
    {
      var base := half;
      TwoRows(w, r, x);
      StoredRow(p[..], base, w, rows, x);
      var to, from := base + RowStart(r, w), base + RowStart(x, w);
      assert p[from..from + w] == rows[x];
      Axpy(p, to, p, from, u, w, width);
      StoredAdded(old(p[..]), p[..], base, w, rows, r, x, u);
      assert p[..base] == p[..][..base];
    }

    method Coefficient(w: nat, row: nat, x: nat, ghost rows: Matrix) returns (u: Byte)
      requires Valid() && x < w && row < w && half + RowStart(w, w) <= p.Length
      requires Square(rows, w) && Stored(p[..], half, w, rows)
      ensures u == rows[row][x]
    {
      RowsApart(row, w, w);
      u := p[half + RowStart(row, w) + x];
      assert RowEntry(p[..], half, w, row, x) == rows[row][x];
    }

    method ParityEntry(j: nat, i: nat) returns (u: Byte)
      requires Valid() && j < ps && i < ds
      ensures u == ParityRow(p[..], ds, ps, j)[i]
    {
      RowsApart(j, ps, ds);
      u := p[RowStart(j, ds) + i];
    }

    /** One row operation on the matrix and the shards alike keeps every solution of the system. */
    method EliminateRow(tgt: seq<array<Byte>>, w: nat, bs: nat, row: nat, x: nat, ghost rows: Matrix,
                        ghost unknowns: seq<Vec>, ghost good: set<nat>)
      requires Valid() && Buffers(tgt, bs) && p !in tgt && |tgt| == w && x < w && row < w && row != x
      requires half + RowStart(w, w) <= p.Length
      requires Square(rows, w) && Shaped(unknowns, w, bs)
      requires Stored(p[..], half, w, rows) && Solves(rows, Contents(tgt, bs), unknowns, w, bs, good)
      modifies p, tgt
      ensures p[..half] == old(p[..half])
      ensures Stored(p[..], half, w, rows[row := AddScaled(rows[row], rows[x], rows[row][x])])
      ensures Solves(rows[row := AddScaled(rows[row], rows[x], rows[row][x])], Contents(tgt, bs), unknowns, w, bs, good)
    {
      var u := Coefficient(w, row, x, rows);
      SolvesAdded(rows, Contents(tgt, bs), unknowns, w, bs, good, row, x, u);
      AddRow(w, row, x, u, rows);
      AddShard(tgt, row, x, u, bs, width);
    }

    method ScalePivot(tgt: seq<array<Byte>>, w: nat, bs: nat, x: nat, ghost rows: Matrix,
                      ghost unknowns: seq<Vec>, ghost good: set<nat>)
      requires Valid() && Buffers(tgt, bs) && p !in tgt && |tgt| == w && x < w
      requires half + RowStart(w, w) + w - 1 <= p.Length
      requires Square(rows, w) && Cleared(rows, w, x) && rows[x][x] != 0 && Shaped(unknowns, w, bs)
      requires Stored(p[..], half, w, rows) && Solves(rows, Contents(tgt, bs), unknowns, w, bs, good)
      modifies p, tgt
      ensures p[..half] == old(p[..half])
      ensures Stored(p[..], half, w, rows[x := Scaled(rows[x], Recip(rows[x][x]))])
      ensures Solves(rows[x := Scaled(rows[x], Recip(rows[x][x]))], Contents(tgt, bs), unknowns, w, bs, good)
    {
      RowsApart(x, w, w);
      assert RowEntry(p[..], half, w, x, x) == rows[x][x];
      var u := Gf28Inv(p[half + RowStart(x, w) + x]);
      NonZeroRecip(rows[x][x]);
      SolvesScaled(rows, Contents(tgt, bs), unknowns, w, bs, good, x, u);
      ScaleRow(w, x, u, rows);
      ScaleShard(tgt, x, u, bs, width);
    }

    /** Rows row.. of step x: clear column x below the scaled pivot. */
    method ReduceBelow(tgt: seq<array<Byte>>, w: nat, bs: nat, x: nat, ghost rows0: Matrix, ghost res: Matrix,
                       ghost unknowns: seq<Vec>, ghost good: set<nat>)
      returns (ghost rows: Matrix)
      requires Valid() && Buffers(tgt, bs) && p !in tgt && |tgt| == w && x < w
      requires half + RowStart(w, w) <= p.Length
      requires Square(rows0, w) && Square(res, w - x) && res[0][0] != 0 && Shaped(unknowns, w, bs)
      requires Stored(p[..], half, w, rows0) && MidStep(rows0, w, x, x + 1, res)
      requires Solves(rows0, Contents(tgt, bs), unknowns, w, bs, good)
      modifies p, tgt
      ensures p[..half] == old(p[..half])
      ensures Square(rows, w) && Stored(p[..], half, w, rows) && MidStep(rows, w, x, w, res)
      ensures Solves(rows, Contents(tgt, bs), unknowns, w, bs, good)
    {
      rows := rows0;
      for row := x + 1 to w
        invariant p[..half] == old(p[..half])
        invariant Square(rows, w) && Stored(p[..], half, w, rows) && MidStep(rows, w, x, row, res)
        invariant Solves(rows, Contents(tgt, bs), unknowns, w, bs, good)
      {
        StepReduces(rows, w, x, row, res);
        EliminateRow(tgt, w, bs, row, x, rows, unknowns, good);
        rows := rows[row := AddScaled(rows[row], rows[x], rows[row][x])];
      }
    }

    /** The forward pass: no pivot is zero, and the system keeps its solutions. */
    method ForwardPass(tgt: seq<array<Byte>>, w: nat, bs: nat, ghost rows0: Matrix, ghost unknowns: seq<Vec>,
                       ghost good: set<nat>)
      returns (ghost rows: Matrix)
      requires Valid() && Buffers(tgt, bs) && p !in tgt && |tgt| == w
      requires w > 0 ==> half + RowStart(w, w) + w - 1 <= p.Length
      requires Square(rows0, w) && Eliminable(rows0, w) && Shaped(unknowns, w, bs)
      requires Stored(p[..], half, w, rows0)
      requires Solves(rows0, Contents(tgt, bs), unknowns, w, bs, good)
      modifies p, tgt
      ensures p[..half] == old(p[..half])
      ensures Square(rows, w) && Stored(p[..], half, w, rows) && Cleared(rows, w, w)
      ensures Solves(rows, Contents(tgt, bs), unknowns, w, bs, good)
    {
      rows := rows0;
      ghost var res := rows0;
      for x := 0 to w
        invariant p[..half] == old(p[..half])
        invariant Square(rows, w) && Stored(p[..], half, w, rows) && Cleared(rows, w, x)
        invariant Square(res, w - x) && Eliminable(res, w - x) && Trailing(rows, w, x, x, res)
        invariant Solves(rows, Contents(tgt, bs), unknowns, w, bs, good)
      {
        assert rows[x][x] == res[0][0] != 0;
        StepBegins(rows, w, x, res);
        ScalePivot(tgt, w, bs, x, rows, unknowns, good);
        rows := rows[x := Scaled(rows[x], Recip(rows[x][x]))];
        rows := ReduceBelow(tgt, w, bs, x, rows, res, unknowns, good);
        StepEnds(rows, w, x, res);
        res := Residual(res, w - x - 1);
      }
    }

    /** Takes the solved unknown x out of the rows above. */
    method BackColumn(tgt: seq<array<Byte>>, w: nat, bs: nat, x: nat, ghost rows: Matrix, ghost unknowns: seq<Vec>,
                      ghost good: set<nat>)
      requires Valid() && Buffers(tgt, bs) && p !in tgt && |tgt| == w && x < w
      requires half + RowStart(w, w) <= p.Length
      requires Square(rows, w) && Cleared(rows, w, w) && Shaped(unknowns, w, bs)
      requires Stored(p[..], half, w, rows)
      requires BackSolved(rows, Contents(tgt, bs), unknowns, w, bs, good, x, 0)
      modifies tgt
      ensures BackSolved(rows, Contents(tgt, bs), unknowns, w, bs, good, x, x)
    {
      for row := 0 to x
        invariant Stored(p[..], half, w, rows)
        invariant BackSolved(rows, Contents(tgt, bs), unknowns, w, bs, good, x, row)
      {
        var u := Coefficient(w, row, x, rows);
        BackRowReduced(rows, Contents(tgt, bs), unknowns, w, bs, good, x, row);
        AddShard(tgt, row, x, u, bs, width);
      }
    }

    /** Back substitution from the last unknown up. */
    method BackPass(tgt: seq<array<Byte>>, w: nat, bs: nat, ghost rows: Matrix, ghost unknowns: seq<Vec>,
                    ghost good: set<nat>)
      requires Valid() && Buffers(tgt, bs) && p !in tgt && |tgt| == w
      requires half + RowStart(w, w) <= p.Length
      requires Square(rows, w) && Cleared(rows, w, w) && Shaped(unknowns, w, bs)
      requires Stored(p[..], half, w, rows)
      requires Solves(rows, Contents(tgt, bs), unknowns, w, bs, good)
      modifies tgt
      ensures forall i, t :: 0 <= i < w && t in good && t < bs ==> Contents(tgt, bs)[i][t] == unknowns[i][t]
    {
      BackBegins(rows, Contents(tgt, bs), unknowns, w, bs, good);
      for x := w downto 0
        invariant Stored(p[..], half, w, rows)
        invariant BackSolved(rows, Contents(tgt, bs), unknowns, w, bs, good, x, x)
      {
        BackRowSolved(rows, Contents(tgt, bs), unknowns, w, bs, good, x);
        BackColumn(tgt, w, bs, x, rows, unknowns, good);
      }
      forall i, t | 0 <= i < w && t in good && t < bs
        ensures Contents(tgt, bs)[i][t] == unknowns[i][t]
      {
        assert SolvedRow(rows, Contents(tgt, bs), unknowns, w, bs, t, i, 0, 0);
      }
    }

    method CopyRow(at: nat, from: nat, e: seq<nat>)
      requires from + ds <= at && at + |e| <= p.Length && Below(e, ds)
      modifies p
      ensures p[..at] == old(p[..at]) && p[at + |e|..] == old(p[at + |e|..])
      ensures p[at..at + |e|] == Gather(old(p[from..from + ds]), e)
    {
      for j := 0 to |e|
        invariant p[..at] == old(p[..at]) && p[at + |e|..] == old(p[at + |e|..])
        invariant forall k :: 0 <= k < j ==> p[at + k] == old(p[from..from + ds])[e[k]]
      {
        assert p[..at][from + e[j]] == old(p[..at])[from + e[j]];
        p[at + j] := p[from + e[j]];
      }
    }

    /** Row i of the scratch square: the columns e of parity row j. */
    method CopySubMatrixRow(w: nat, i: nat, j: nat, e: seq<nat>, ghost sub: Matrix)
      requires Valid() && i < w && j < ps && |e| == w && Below(e, ds)
      requires half + RowStart(w, w) <= p.Length && Square(sub, w)
      requires StoredRows(p[..], half, w, sub, i) && sub[i] == Gather(ParityRow(p[..], ds, ps, j), e)
      modifies p
      ensures p[..half] == old(p[..half])
      ensures StoredRows(p[..], half, w, sub, i + 1)
    {
      RowsApart(j, ps, ds); RowsApart(i, w, w);
      ghost var before := p[..];
      var at := half + RowStart(i, w);
      CopyRow(at, RowStart(j, ds), e);
      assert p[..half] == p[..at][..half] == before[..half];
      StoredNextRow(before, p[..], half, w, sub, i);
    }

    /** Copies the rows and columns of the erased subsystem into the scratch square. */
    method CopySubMatrix(w: nat, d: seq<nat>, e: seq<nat>)
      requires Valid() && |d| == |e| == w && Below(d, ps) && Below(e, ds)
      requires half + RowStart(w, w) <= p.Length
      modifies p
      ensures p[..half] == old(p[..half])
      ensures Stored(p[..], half, w, SubMatrix(p[..], ds, ps, d, e))
    {
      var base := half;
      ghost var sub := SubMatrix(p[..], ds, ps, d, e);
      for i := 0 to w
        invariant p[..base] == old(p[..base])
        invariant StoredRows(p[..], base, w, sub, i)
      {
        ParityRowOfPrefix(old(p[..]), p[..], ds, ps, d[i]);
        CopySubMatrixRow(w, i, d[i], e, sub);
      }
      SubMatrixOfPrefix(old(p[..]), p[..], ds, ps, d, e);
    }

    /** The inner loop of both gemm and the inversion's second phase: adds to one shard the combination
        of the known shards with the coefficients of parity row j. */
    method AddCombination(data: seq<array<Byte>>, to: nat, j: nat, known: seq<nat>, bs: nat, ghost before: seq<Vec>)
      requires Valid() && Buffers(data, bs) && p !in data
      requires to < |data| && ds <= |data| && j < ps && Below(known, ds) && to !in known
      requires Shaped(before, |data|, bs) && Contents(data, bs)[to] == before[to]
      requires forall k :: 0 <= k < |known| ==> Contents(data, bs)[known[k]] == before[known[k]]
      modifies data[to]
      ensures Contents(data, bs) == old(Contents(data, bs))[to := data[to][..bs]]
      ensures Reduced(data[to][..bs], before, ParityRow(p[..], ds, ps, j), ds, bs, known, to)
    {
      ghost var c, row := Contents(data, bs), ParityRow(p[..], ds, ps, j);
      forall t | 0 <= t < bs
        ensures before[to][t] == Xor(before[to][t], KnownSum(row, before, ds, bs, known[..0], t))
      {
        XorLaws(before[to][t], 0, 0);
      }
      for k := 0 to |known|
        invariant Contents(data, bs) == c[to := data[to][..bs]]
        invariant Reduced(data[to][..bs], before, row, ds, bs, known[..k], to)
      {
        var u := ParityEntry(j, known[k]);
        ghost var v := data[to][..bs];
        AddShard(data, to, known[k], u, bs, width);
        assert data[to][..bs] == Contents(data, bs)[to] == AddScaled(v, before[known[k]], u);
        ReducedSnoc(v, before, row, ds, bs, known, k, to);
      }
      assert known[..|known|] == known;
    }

    /** Phase two of the inversion: every target shard loses the contribution of the known ones. */
    method SubtractAllKnown(data: seq<array<Byte>>, known: seq<nat>, e: seq<nat>, d: seq<nat>, bs: nat)
      requires Valid() && Buffers(data, bs) && p !in data && ds <= |data|
      requires Below(known, ds) && Below(e, ds) && Below(d, ps) && |d| == |e|
      requires forall i, j :: 0 <= i < j < |e| ==> e[i] != e[j]
      requires forall i :: 0 <= i < |e| ==> e[i] !in known
      modifies set i | 0 <= i < |e| :: data[e[i]]
      ensures forall i :: 0 <= i < |e| ==>
          Reduced(Contents(data, bs)[e[i]], old(Contents(data, bs)), ParityRow(p[..], ds, ps, d[i]), ds, bs, known,
                  e[i])
    {
      ghost var before := Contents(data, bs);
      for i := 0 to |e|
        invariant forall k :: 0 <= k < |known| ==> Contents(data, bs)[known[k]] == before[known[k]]
        invariant forall l :: i <= l < |e| ==> Contents(data, bs)[e[l]] == before[e[l]]
        invariant forall l :: 0 <= l < i ==>
          Reduced(Contents(data, bs)[e[l]], before, ParityRow(p[..], ds, ps, d[l]), ds, bs, known, e[l])
      {
        AddCombination(data, e[i], d[i], known, bs, before);
      }
    }

    /** Phases one and two: the scratch square and the target shards form the erased subsystem. */
    method PrepareSystem(data: seq<array<Byte>>, bs: nat, known: seq<nat>, e: seq<nat>, d: seq<nat>,
                         tgt: seq<array<Byte>>,
                         ghost marks: seq<bool>, ghost orig: seq<Vec>, ghost unknowns: seq<Vec>, ghost good: set<nat>)
      requires Valid() && Buffers(data, bs) && p !in data && ds <= |data| && ds <= |marks|
      requires known == Picked(marks, 0, ds, false) && e == Picked(marks, 0, ds, true)
      requires Below(d, ps) && |d| == |e|
      requires |e| > 0 ==> half + RowStart(|e|, |e|) + |e| - 1 <= p.Length
      requires |tgt| == |e| && forall i :: 0 <= i < |e| ==> tgt[i] == data[e[i]]
      requires Shaped(orig, ds, bs) && Consistent(Contents(data, bs), p[..], ds, ps, bs, marks, e, d, orig, good)
      requires |unknowns| == |e| && forall i :: 0 <= i < |e| ==> unknowns[i] == orig[e[i]]
      modifies p, tgt
      ensures p[..half] == old(p[..half])
      ensures Buffers(tgt, bs)
      ensures Stored(p[..], half, |e|, SubMatrix(old(p[..]), ds, ps, d, e))
      ensures Solves(SubMatrix(old(p[..]), ds, ps, d, e), Contents(tgt, bs), unknowns, |e|, bs, good)
    {
      ghost var m, before := p[..], Contents(data, bs);
      CopySubMatrix(|e|, d, e);
      SubMatrixOfPrefix(m, p[..], ds, ps, d, e);
      assert Contents(data, bs) == before;
      PickedSorted(marks, 0, ds, true);
      SubtractAllKnown(data, known, e, d, bs);
      ReducedOfPrefix(Contents(tgt, bs), Contents(data, bs), before, m, p[..], ds, ps, bs, known, e, d);
      SystemHolds(before, Contents(tgt, bs), m, ds, ps, bs, marks, e, d, orig, unknowns, good);
    }

    /** invert_mat: the erased shards, which hold copies of parity shards, become the original data in
        every byte column in which the known data and the copied parity belong to one code word. */
    method InvertMat(data: seq<array<Byte>>, bs: nat, known: seq<nat>, e: seq<nat>, d: seq<nat>,
                     ghost marks: seq<bool>, ghost orig: seq<Vec>, ghost good: set<nat>)
      requires Valid() && Buffers(data, bs) && p !in data && ds <= |data| && ds <= |marks|
      requires known == Picked(marks, 0, ds, false) && e == Picked(marks, 0, ds, true)
      requires Below(d, ps) && |d| == |e|
      requires |e| > 0 ==> half + RowStart(|e|, |e|) + |e| - 1 <= p.Length
      requires Eliminable(SubMatrix(p[..], ds, ps, d, e), |e|)
      requires Shaped(orig, ds, bs) && Consistent(Contents(data, bs), p[..], ds, ps, bs, marks, e, d, orig, good)
      modifies p, set i | 0 <= i < |e| :: data[e[i]]
      ensures p[..half] == old(p[..half])
      ensures forall i, t :: 0 <= i < |e| && t in good && t < bs ==> Contents(data, bs)[e[i]][t] == orig[e[i]][t]
    {
      var tgt := seq(|e|, i requires 0 <= i < |e| => data[e[i]]);
      ghost var unknowns := seq(|e|, i requires 0 <= i < |e| => orig[e[i]]);
      ghost var rows := SubMatrix(p[..], ds, ps, d, e);
      PrepareSystem(data, bs, known, e, d, tgt, marks, orig, unknowns, good);
      rows := ForwardPass(tgt, |e|, bs, rows, unknowns, good);
      BackPass(tgt, |e|, bs, rows, unknowns, good);
      forall i, t | 0 <= i < |e| && t in good && t < bs
        ensures Contents(data, bs)[e[i]][t] == orig[e[i]][t]
      {
        assert Contents(tgt, bs)[i][t] == unknowns[i][t];
      }
    }

    // ----- encoding

    method ZeroShard(shards: seq<array<Byte>>, to: nat, bs: nat)
      requires Buffers(shards, bs) && to < |shards|
      modifies shards[to]
      ensures Contents(shards, bs) == old(Contents(shards, bs))[to := shards[to][..bs]]
      ensures forall t :: 0 <= t < bs ==> shards[to][..bs][t] == 0
    {
      ghost var before := Contents(shards, bs);
      forall t | 0 <= t < bs {
        shards[to][t] := 0;
      }
      assert forall i :: 0 <= i < |shards| && i != to ==> shards[i][..bs] == before[i];
    }

    /** One parity shard: zeroed, then the data shards added with the coefficients of its row. */
    method EncodeShard(shards: seq<array<Byte>>, j: nat, bs: nat, ghost orig: seq<Vec>)
      requires Valid() && Buffers(shards, bs) && p !in shards && j < ps && ts <= |shards|
      requires orig == Contents(shards, bs)[..ds]
      modifies shards[ds + j]
      ensures Contents(shards, bs) == old(Contents(shards, bs))[ds + j := shards[ds + j][..bs]]
      ensures HoldsParity(Contents(shards, bs), orig, p[..], ds, ps, bs, j)
    {
      var to := ds + j;
      ghost var c0 := Contents(shards, bs);
      ZeroShard(shards, to, bs);
      ghost var c := Contents(shards, bs);
      AddCombination(shards, to, j, seq(ds, i => i), bs, c);
      assert Contents(shards, bs) == c0[to := shards[to][..bs]];
      ReducedFromZero(shards[to][..bs], c, orig, ParityRow(p[..], ds, ps, j), ds, bs, to);
    }

    /** One more parity shard; those before it are kept. */
    method EncodeNext(shards: seq<array<Byte>>, j: nat, bs: nat, ghost orig: seq<Vec>)
      requires Valid() && Buffers(shards, bs) && p !in shards && j < ps && ts <= |shards|
      requires orig == Contents(shards, bs)[..ds]
      requires ParityUpTo(Contents(shards, bs), orig, p[..], ds, ps, bs, j)
      modifies shards[ds + j]
      ensures orig == Contents(shards, bs)[..ds]
      ensures ParityUpTo(Contents(shards, bs), orig, p[..], ds, ps, bs, j + 1)
    {
      ghost var c := Contents(shards, bs);
      EncodeShard(shards, j, bs, orig);
      forall k | 0 <= k < j
        ensures HoldsParity(Contents(shards, bs), orig, p[..], ds, ps, bs, k)
      {
        ParityKept(c, Contents(shards, bs), orig, p[..], ds, ps, bs, k);
      }
    }

    /** Every parity shard becomes its row's combination of the data shards; the data is untouched. */
    method Encode(shards: seq<array<Byte>>, bs: nat) returns (ret: int)
      requires Valid() && Buffers(shards, bs) && p !in shards
      modifies set i | ds <= i < ts && i < |shards| :: shards[i]
      ensures ret == if |shards| < ts then -1 else 0
      ensures ret == 0 ==> Contents(shards, bs)[..ds] == old(Contents(shards, bs)[..ds])
      ensures ret == 0 ==> ParityUpTo(Contents(shards, bs), Contents(shards, bs)[..ds], p[..], ds, ps, bs, ps)
    {
      if |shards| < ts {
        return -1;
      }
      ghost var orig := Contents(shards, bs)[..ds];
      for j := 0 to ps
        invariant Contents(shards, bs)[..ds] == orig
        invariant ParityUpTo(Contents(shards, bs), orig, p[..], ds, ps, bs, j)
      {
        EncodeNext(shards, j, bs, orig);
      }
      ret := 0;
    }

    /** There are as many surviving parity shards as lost data shards. */
    ghost predicate Recoverable(marks: seq<bool>)
      requires Valid()
    {
      ts <= |marks| && |Picked(marks, 0, ds, true)| <= |Picked(marks, ds, |marks|, false)|
    }

    /** The parity rows the decoder uses: the first surviving ones, one for each lost data shard. */
    ghost function RowsUsed(marks: seq<bool>): (d: seq<nat>)
      requires Valid() && Recoverable(marks) && |marks| == ts
      ensures |d| == |Picked(marks, 0, ds, true)|
      ensures forall i :: 0 <= i < |d| ==> d[i] + ds == Picked(marks, ds, ts, false)[i]
      ensures forall i :: 0 <= i < |d| ==> d[i] < ps && !marks[ds + d[i]]
    {
      var e, f := Picked(marks, 0, ds, true), Picked(marks, ds, |marks|, false);
      seq(|e|, i requires 0 <= i < |e| => f[i] - ds)
    }

    /** What decoding demands of the matrix and of the scratch space behind it. */
    ghost predicate Decodable(marks: seq<bool>)
      requires Valid() && Recoverable(marks) && |marks| == ts
      reads p
    {
      SystemReady(marks, RowsUsed(marks), Picked(marks, 0, ds, true))
    }

    /** The parity rows, all received, make a system for the lost shards that can be solved in place. */
    ghost predicate SystemReady(marks: seq<bool>, rows: seq<nat>, erasures: seq<nat>)
      requires Valid() && |marks| == ts
      reads p
    {
      && |rows| == |erasures| && Below(rows, ps) && Below(erasures, ds)
      && (forall i :: 0 <= i < |rows| ==> !marks[ds + rows[i]])
      && Eliminable(SubMatrix(p[..], ds, ps, rows, erasures), |rows|) && ScratchSuffices(|rows|)
    }

    /** The square of the lost shards fits behind the matrix, with what scaling the last pivot overruns. */
    ghost predicate ScratchSuffices(gaps: nat) {
      gaps > 0 ==> half + RowStart(gaps, gaps) + gaps - 1 <= p.Length
    }

    method FindErasures(marks: seq<bool>) returns (erasures: seq<nat>)
      requires ds <= |marks|
      ensures erasures == Picked(marks, 0, ds, true)
    {
      erasures := [];
      for i := 0 to ds
        invariant erasures == Picked(marks, 0, i, true)
      {
        if marks[i] {
          erasures := erasures + [i];
        }
      }
    }

    method FindSurvivors(marks: seq<bool>, gaps: nat) returns (survivors: seq<nat>)
      requires ds <= |marks| && gaps == |Picked(marks, 0, ds, true)|
      ensures survivors == Picked(marks, 0, ds, false)
    {
      PickedCounts(marks, 0, ds);
      survivors := [];
      var i, j := 0, 0;
      while i < ds - gaps
        invariant j <= ds && i == |survivors| <= ds - gaps
        invariant survivors == Picked(marks, 0, j, false)
      {
        while marks[j]
          invariant j < ds
          invariant survivors == Picked(marks, 0, j, false)
          decreases ds - j
        {
          j := j + 1;
        }
        survivors := survivors + [j];
        i, j := i + 1, j + 1;
      }
      PickedPrefix(marks, 0, j, ds, false);
    }

    /** The next parity shard from j on that survived. The source compares j with the number of shards only
        after the search has stopped. */
    method NextSurvivor(marks: seq<bool>, start: nat) returns (j: nat)
      requires Valid() && |marks| == ts && ds <= start <= ts
      ensures start <= j <= ts && (j < ts ==> !marks[j])
      ensures Picked(marks, ds, j, false) == Picked(marks, ds, start, false)
    {
      j := start;
      while j < ts && marks[j]
        invariant start <= j <= ts
        invariant Picked(marks, ds, j, false) == Picked(marks, ds, start, false)
      {
        j := j + 1;
      }
    }

    lemma RowsFound(marks: seq<bool>, j: nat, rows: seq<nat>)
      requires Valid() && |marks| == ts && ds <= j <= ts
      requires Picked(marks, ds, j, false) == Raised(rows, ds) && |rows| <= |Picked(marks, 0, ds, true)|
      requires |rows| == |Picked(marks, 0, ds, true)| || j == ts
      ensures |rows| == |Picked(marks, 0, ds, true)| <==> Recoverable(marks)
      ensures Recoverable(marks) ==> rows == RowsUsed(marks)
    {
      PickedPrefix(marks, ds, j, ts, false);
      forall k | 0 <= k < |rows|
        ensures Picked(marks, ds, j, false)[k] == rows[k] + ds
      {
        RaisedAt(rows, ds, k);
      }
    }

    /** Copies parity shard row over the next lost data shard; c is what was received. */
    method CopyOver(data: seq<array<Byte>>, marks: seq<bool>, bs: nat, erasures: seq<nat>, row: nat, ghost c: seq<Vec>,
                    rows: seq<nat>)
      requires Valid() && Buffers(data, bs) && |data| == |marks| == ts
      requires erasures == Picked(marks, 0, ds, true) && |rows| < |erasures| && ds + row < ts && !marks[ds + row]
      requires Copied(c, Contents(data, bs), ds, marks, erasures, rows)
      modifies data[erasures[|rows|]]
      ensures Copied(c, Contents(data, bs), ds, marks, erasures, rows + [row])
    {
      ghost var before := Contents(data, bs);
      CopyShard(data, erasures[|rows|], ds + row, bs);
      CopiedNext(c, before, Contents(data, bs), ds, marks, erasures, rows, row);
    }

    /** rows lists the surviving parity among the shards before j, and the first lost data shards hold
        copies of it; c is what was received. */
    ghost predicate CopiedSoFar(c: seq<Vec>, now: seq<Vec>, marks: seq<bool>, erasures: seq<nat>, j: nat,
                                rows: seq<nat>)
    {
      && ds <= j <= ts <= |marks| && |rows| <= |erasures|
      && Picked(marks, ds, j, false) == Raised(rows, ds)
      && Copied(c, now, ds, marks, erasures, rows)
    }

    method CopyNext(data: seq<array<Byte>>, marks: seq<bool>, bs: nat, erasures: seq<nat>, j: nat, rows: seq<nat>,
                    ghost c: seq<Vec>)
      returns (found: bool, j': nat, rows': seq<nat>)
      requires Valid() && Buffers(data, bs) && |data| == |marks| == ts
      requires erasures == Picked(marks, 0, ds, true) && |rows| < |erasures|
      requires CopiedSoFar(c, Contents(data, bs), marks, erasures, j, rows)
      modifies set i | 0 <= i < ds && marks[i] :: data[i]
      ensures CopiedSoFar(c, Contents(data, bs), marks, erasures, j', rows')
      ensures if found then |rows'| == |rows| + 1 else j' == ts && rows' == rows
    {
      var next := NextSurvivor(marks, j);
      NothingSkipped(c, Contents(data, bs), marks, erasures, j, next, rows);
      if next >= ts {
        return false, next, rows;
      }
      j', rows' := CopyFound(data, marks, bs, erasures, next, rows, c);
      found := true;
    }

    lemma NothingSkipped(c: seq<Vec>, now: seq<Vec>, marks: seq<bool>, erasures: seq<nat>, j: nat, next: nat,
                         rows: seq<nat>)
      requires CopiedSoFar(c, now, marks, erasures, j, rows) && j <= next <= ts
      requires Picked(marks, ds, next, false) == Picked(marks, ds, j, false)
      ensures CopiedSoFar(c, now, marks, erasures, next, rows)
    {}

    method CopyFound(data: seq<array<Byte>>, marks: seq<bool>, bs: nat, erasures: seq<nat>, j: nat, rows: seq<nat>,
                     ghost c: seq<Vec>)
      returns (j': nat, rows': seq<nat>)
      requires Valid() && Buffers(data, bs) && |data| == |marks| == ts
      requires erasures == Picked(marks, 0, ds, true) && |rows| < |erasures|
      requires ds <= j < ts && !marks[j] && CopiedSoFar(c, Contents(data, bs), marks, erasures, j, rows)
      modifies set i | 0 <= i < ds && marks[i] :: data[i]
      ensures CopiedSoFar(c, Contents(data, bs), marks, erasures, j', rows')
      ensures |rows'| == |rows| + 1
    {
      var row: nat := j - ds;
      CopyOver(data, marks, bs, erasures, row, c, rows);
      CopiedOneMore(c, Contents(data, bs), marks, erasures, j, rows, row);
      j', rows' := j + 1, rows + [row];
    }

    lemma CopiedOneMore(c: seq<Vec>, now: seq<Vec>, marks: seq<bool>, erasures: seq<nat>, j: nat, rows: seq<nat>,
                        row: nat)
      requires |marks| == ts && ds <= j == ds + row < ts && !marks[j] && |rows| < |erasures|
      requires Picked(marks, ds, j, false) == Raised(rows, ds)
      requires Copied(c, now, ds, marks, erasures, rows + [row])
      ensures CopiedSoFar(c, now, marks, erasures, j + 1, rows + [row])
    {
      RaisedNext(marks, rows, ds, j, row);
    }

    /** Copies a surviving parity shard over each lost data shard, as long as there are enough. */
    method CopyParity(data: seq<array<Byte>>, marks: seq<bool>, bs: nat, erasures: seq<nat>) returns (rows: seq<nat>)
      requires Valid() && Buffers(data, bs) && |data| == |marks| == ts
      requires erasures == Picked(marks, 0, ds, true)
      modifies set i | 0 <= i < ds && marks[i] :: data[i]
      ensures |rows| == |erasures| <==> Recoverable(marks)
      ensures Recoverable(marks) ==> rows == RowsUsed(marks)
      ensures |rows| <= |erasures| && Copied(old(Contents(data, bs)), Contents(data, bs), ds, marks, erasures, rows)
    {
      ghost var c := Contents(data, bs);
      var found, j := true, ds;
      rows := [];
      while |rows| < |erasures| && found
        invariant CopiedSoFar(c, Contents(data, bs), marks, erasures, j, rows)
        invariant !found ==> j == ts
        decreases |erasures| - |rows|, found
      {
        found, j, rows := CopyNext(data, marks, bs, erasures, j, rows, c);
      }
      RowsFound(marks, j, rows);
    }

    /** Whether there are as many survivors behind the data shards as lost data shards. */
    method EnoughSurvive(marks: seq<bool>) returns (enough: bool)
      requires Valid() && ts <= |marks|
      ensures enough <==> Recoverable(marks)
    {
      var lost, surviving := 0, 0;
      for i := 0 to ds
        invariant lost == |Picked(marks, 0, i, true)|
      {
        lost := lost + if marks[i] then 1 else 0;
      }
      for i := ds to |marks|
        invariant surviving == |Picked(marks, ds, i, false)|
      {
        surviving := surviving + if marks[i] then 0 else 1;
      }
      enough := lost <= surviving;
    }

    /** reed_solomon_decode: with enough surviving shards every data shard gets back the bytes of the
        code word, in each byte column in which the surviving shards belong to one; survivors and the
        parity matrix are left alone. If shards beyond the ts of the codec are needed, the source takes them for
        further rows of the matrix: it returns 0, and what the lost shards then hold is left open. With too few
        survivors it also looks at marks past the last shard before it gives up. */
    method Decode(data: seq<array<Byte>>, marks: seq<bool>, bs: nat, ghost orig: seq<Vec>) returns (ret: int)
      requires Valid() && Buffers(data, bs) && p !in data && |data| == |marks|
      requires |data| >= ts && Recoverable(marks[..ts]) ==> Decodable(marks[..ts])
      requires Shaped(orig, ds, bs)
      modifies p, set i | 0 <= i < ds && i < |marks| && marks[i] :: data[i]
      ensures ret == if |data| >= ts && Recoverable(marks) then 0 else -1
      ensures p[..half] == old(p[..half])
      ensures |data| >= ts && Recoverable(marks[..ts]) ==>
        ret == 0 &&
        Restored(old(Contents(data[..ts], bs)), Contents(data[..ts], bs), p[..], ds, ps, marks[..ts], orig, bs)
    {
      if |data| < ts {
        return -1;
      }
      FirstSuffice(marks);
      ret := DecodeFirst(data[..ts], marks[..ts], bs, orig);
      if ret != 0 {
        var enough := EnoughSurvive(marks);
        ret := if enough then 0 else -1;
      }
    }

    /** What the codec's own shards make up for, all shards do. */
    lemma FirstSuffice(marks: seq<bool>)
      requires Valid() && ts <= |marks|
      ensures Recoverable(marks[..ts]) ==> Recoverable(marks)
    {
      var first := marks[..ts];
      PickedSame(first, marks, 0, ds, true);
      PickedSame(first, marks, ds, ts, false);
      PickedPrefix(marks, ds, ts, |marks|, false);
    }

    /** Decoding from exactly the shards of the codec. */
    method DecodeFirst(data: seq<array<Byte>>, marks: seq<bool>, bs: nat, ghost orig: seq<Vec>) returns (ret: int)
      requires Valid() && Buffers(data, bs) && p !in data && |data| == |marks| == ts
      requires Recoverable(marks) ==> Decodable(marks)
      requires Shaped(orig, ds, bs)
      modifies p, set i | 0 <= i < ds && marks[i] :: data[i]
      ensures ret == if Recoverable(marks) then 0 else -1
      ensures p[..half] == old(p[..half])
      ensures ret == 0 ==> Restored(old(Contents(data, bs)), Contents(data, bs), p[..], ds, ps, marks, orig, bs)
    {
      var erasures := FindErasures(marks);
      var survivors := FindSurvivors(marks, |erasures|);
      var ok := CopyAndRecover(data, marks, bs, survivors, erasures, orig);
      ret := if ok then 0 else -1;
    }

    /** Copies the parity that is needed into the places of the lost shards, and inverts. */
    method CopyAndRecover(data: seq<array<Byte>>, marks: seq<bool>, bs: nat, survivors: seq<nat>, erasures: seq<nat>,
                          ghost orig: seq<Vec>)
      returns (ok: bool)
      requires Valid() && Buffers(data, bs) && p !in data && |data| == |marks| == ts
      requires survivors == Picked(marks, 0, ds, false) && erasures == Picked(marks, 0, ds, true)
      requires Recoverable(marks) ==> Decodable(marks)
      requires Shaped(orig, ds, bs)
      modifies p, set i | 0 <= i < ds && marks[i] :: data[i]
      ensures ok <==> Recoverable(marks)
      ensures p[..half] == old(p[..half])
      ensures ok ==> Restored(old(Contents(data, bs)), Contents(data, bs), p[..], ds, ps, marks, orig, bs)
    {
      ghost var c := Contents(data, bs);
      var rows := CopyParity(data, marks, bs, erasures);
      if |rows| < |erasures| {
        return false;
      }
      Recover(data, marks, bs, survivors, erasures, rows, c, orig);
      return true;
    }

    /** The inversion, seen from all shards: the survivors keep their bytes. */
    method RecoverErased(data: seq<array<Byte>>, marks: seq<bool>, bs: nat, survivors: seq<nat>, erasures: seq<nat>,
                         rows: seq<nat>,
                         ghost orig: seq<Vec>, ghost good: set<nat>)
      requires Valid() && Buffers(data, bs) && p !in data && |data| == |marks| == ts
      requires survivors == Picked(marks, 0, ds, false) && erasures == Picked(marks, 0, ds, true)
      requires SystemReady(marks, rows, erasures)
      requires Shaped(orig, ds, bs)
      requires Consistent(Contents(data, bs), p[..], ds, ps, bs, marks, erasures, rows, orig, good)
      modifies p, set i | 0 <= i < ds && marks[i] :: data[i]
      ensures p[..half] == old(p[..half])
      ensures BackAt(Contents(data, bs), orig, ds, bs, erasures, good)
      ensures KeptUnmarked(old(Contents(data, bs)), Contents(data, bs), ds, marks)
    {
      SurvivorsUntouched(data, marks, bs, ds, erasures);
      InvertMat(data, bs, survivors, erasures, rows, marks, orig, good);
    }

    /** The same, starting from the copied parity; good are the columns honest in what was received. */
    method RecoverCopied(data: seq<array<Byte>>, marks: seq<bool>, bs: nat, survivors: seq<nat>, erasures: seq<nat>,
                         rows: seq<nat>,
                         ghost c: seq<Vec>, ghost copied: seq<Vec>, ghost orig: seq<Vec>, ghost good: set<nat>)
      requires Valid() && Buffers(data, bs) && p !in data && |data| == |marks| == ts
      requires survivors == Picked(marks, 0, ds, false) && erasures == Picked(marks, 0, ds, true)
      requires SystemReady(marks, rows, erasures)
      requires Shaped(c, ts, bs) && Shaped(orig, ds, bs) && copied == Contents(data, bs)
      requires Copied(c, copied, ds, marks, erasures, rows) && good == HonestColumns(c, p[..], ds, ps, marks, orig, bs)
      modifies p, set i | 0 <= i < ds && marks[i] :: data[i]
      ensures p[..half] == old(p[..half])
      ensures BackAt(Contents(data, bs), orig, ds, bs, erasures, good)
      ensures KeptUnmarked(copied, Contents(data, bs), ds, marks)
    {
      CopiedConsistent(c, copied, p[..], ds, ps, bs, marks, erasures, rows, orig, good);
      RecoverErased(data, marks, bs, survivors, erasures, rows, orig, good);
    }

    method Recover(data: seq<array<Byte>>, marks: seq<bool>, bs: nat, survivors: seq<nat>, erasures: seq<nat>,
                   rows: seq<nat>,
                   ghost c: seq<Vec>, ghost orig: seq<Vec>)
      requires Valid() && Buffers(data, bs) && p !in data && |data| == |marks| == ts
      requires survivors == Picked(marks, 0, ds, false) && erasures == Picked(marks, 0, ds, true)
      requires SystemReady(marks, rows, erasures)
      requires Shaped(c, ts, bs) && Shaped(orig, ds, bs) && Copied(c, Contents(data, bs), ds, marks, erasures, rows)
      modifies p, set i | 0 <= i < ds && marks[i] :: data[i]
      ensures p[..half] == old(p[..half])
      ensures Restored(c, Contents(data, bs), p[..], ds, ps, marks, orig, bs)
    {
      ghost var m, copied := p[..], Contents(data, bs);
      ghost var good := HonestColumns(c, m, ds, ps, marks, orig, bs);
      RecoverCopied(data, marks, bs, survivors, erasures, rows, c, copied, orig, good);
      ghost var m', restored := p[..], Contents(data, bs);
      assert m[..half] == m'[..half];
      CopiedKeeps(c, copied, ds, marks, erasures, rows);
      RestoredAll(c, copied, restored, m, m', ds, ps, marks, orig, bs, good);
    }
  }

  lemma PivotFits(w: nat, x: nat)
    requires x < w
    ensures RowStart(x, w) + x + w <= RowStart(w, w) + w - 1
  {
    RowsApart(x, w, w);
  }

  // ----- the Cauchy matrix

  /** Entry (j, i) of the matrix is the reciprocal of (ps + i) xor j. */
  ghost predicate IsCauchyRow(m: seq<Byte>, ds: nat, ps: nat, j: nat)
    requires ds + ps <= DATA_SHARDS_MAX && RowStart(ps, ds) <= |m| && j < ps
  {
    forall i :: 0 <= i < ds ==> ParityRow(m, ds, ps, j)[i] == Recip(Xor(ps + i, j))
  }

  ghost predicate IsCauchy(m: seq<Byte>, ds: nat, ps: nat)
    requires ds + ps <= DATA_SHARDS_MAX && RowStart(ps, ds) <= |m|
  {
    forall j :: 0 <= j < ps ==> IsCauchyRow(m, ds, ps, j)
  }

  lemma CauchySubEntries(m: seq<Byte>, ds: nat, ps: nat, d: seq<nat>, e: seq<nat>, ones: Vec, x: Vec, y: Vec)
    requires ds + ps <= DATA_SHARDS_MAX && RowStart(ps, ds) <= |m| && IsCauchy(m, ds, ps)
    requires |d| == |e| == |ones| == |x| == |y| && Below(d, ps) && Below(e, ds)
    requires forall i :: 0 <= i < |d| ==> ones[i] == 1 && x[i] == d[i] && y[i] == ps + e[i]
    ensures forall i, j :: 0 <= i < |d| && 0 <= j < |d| ==>
      SubMatrix(m, ds, ps, d, e)[i][j] == CauchyEntry(ones[i], ones[j], x[i], y[j])
  {
    forall i, j | 0 <= i < |d| && 0 <= j < |d|
      ensures SubMatrix(m, ds, ps, d, e)[i][j] == CauchyEntry(ones[i], ones[j], x[i], y[j])
    {
      CauchySubEntry(m, ds, ps, d, e, i, j, x[i], y[j]);
      UnitCauchyEntry(ones[i], ones[j], x[i], y[j]);
    }
  }

  lemma CauchySubEntry(m: seq<Byte>, ds: nat, ps: nat, d: seq<nat>, e: seq<nat>, i: nat, j: nat, x: Byte, y: Byte)
    requires ds + ps <= DATA_SHARDS_MAX && RowStart(ps, ds) <= |m| && IsCauchy(m, ds, ps)
    requires |d| == |e| && Below(d, ps) && Below(e, ds) && i < |d| && j < |d| && x == d[i] && y == ps + e[j]
    ensures SubMatrix(m, ds, ps, d, e)[i][j] == Recip(Xor(y, x))
  {
    assert IsCauchyRow(m, ds, ps, d[i]);
    assert Gather(ParityRow(m, ds, ps, d[i]), e)[j] == ParityRow(m, ds, ps, d[i])[e[j]];
  }

  lemma UnitCauchyEntry(r: Byte, s: Byte, x: Byte, y: Byte)
    requires r == 1 && s == 1
    ensures CauchyEntry(r, s, x, y) == Recip(Xor(y, x))
  {
    MulOne(1); MulOne(Recip(Xor(x, y)));
    XorLaws(x, y, 0);
  }

  /** Every choice of distinct rows and columns can be eliminated without pivoting. */
  lemma CauchySubMatrix(m: seq<Byte>, ds: nat, ps: nat, d: seq<nat>, e: seq<nat>)
    requires ds + ps <= DATA_SHARDS_MAX && RowStart(ps, ds) <= |m| && IsCauchy(m, ds, ps)
    requires |d| == |e| && Below(d, ps) && Below(e, ds)
    requires forall i, j :: 0 <= i < j < |d| ==> d[i] != d[j] && e[i] != e[j]
    ensures Eliminable(SubMatrix(m, ds, ps, d, e), |d|)
  {
    var n := |d|;
    CauchyChoice(m, ds, ps, d, e, Numbers(seq(n, i => 1), 0), Numbers(d, 0), Numbers(e, ps));
  }

  /** Indices, moved up by an offset, as elements of the field. */
  ghost function Numbers(idx: seq<nat>, offset: nat): (v: Vec)
    requires forall i :: 0 <= i < |idx| ==> offset + idx[i] < 256
    ensures |v| == |idx| && forall i :: 0 <= i < |idx| ==> v[i] == offset + idx[i]
  {
    seq(|idx|, i requires 0 <= i < |idx| => offset + idx[i])
  }

  lemma CauchyChoice(m: seq<Byte>, ds: nat, ps: nat, d: seq<nat>, e: seq<nat>, ones: Vec, x: Vec, y: Vec)
    requires ds + ps <= DATA_SHARDS_MAX && RowStart(ps, ds) <= |m| && IsCauchy(m, ds, ps)
    requires |d| == |e| == |ones| == |x| == |y| && Below(d, ps) && Below(e, ds)
    requires forall i, j :: 0 <= i < j < |d| ==> d[i] != d[j] && e[i] != e[j]
    requires forall i :: 0 <= i < |d| ==> ones[i] == 1 && x[i] == d[i] && y[i] == ps + e[i]
    ensures Eliminable(SubMatrix(m, ds, ps, d, e), |d|)
  {
    CauchySubEntries(m, ds, ps, d, e, ones, x, y);
    CauchyEliminable(SubMatrix(m, ds, ps, d, e), |d|, ones, ones, x, y);
  }

  lemma CauchyDecodable(rs: Codec, marks: seq<bool>)
    requires rs.Valid() && |marks| == rs.ts && rs.Recoverable(marks)
    requires IsCauchy(rs.p[..], rs.ds, rs.ps) && rs.ScratchSuffices(|Picked(marks, 0, rs.ds, true)|)
    ensures rs.Decodable(marks)
  {
    var e, d := Picked(marks, 0, rs.ds, true), rs.RowsUsed(marks);
    PickedSorted(marks, 0, rs.ds, true);
    PickedSorted(marks, rs.ds, rs.ts, false);
    assert forall i :: 0 <= i < |d| ==> d[i] + rs.ds == Picked(marks, rs.ds, rs.ts, false)[i];
    CauchySubMatrix(rs.p[..], rs.ds, rs.ps, d, e);
  }

  /** In a buffer of exactly the size the codec asks for, the scratch half suffices for every number
      of lost shards, except when as many are lost as there are of data and of parity alike. */
  lemma ScratchFits(rs: Codec, gaps: nat)
    requires rs.Valid() && rs.p.Length == 2 * rs.half && gaps <= rs.ds && gaps <= rs.ps
    ensures rs.ScratchSuffices(gaps) <==> !(gaps == rs.ds == rs.ps && gaps > 1)
  {
    var ds, ps := rs.ds, rs.ps;
    RowStartIsProduct(gaps, gaps); RowStartIsProduct(ps, ds);
    if gaps < ds {
      RowsApart(gaps, ds, gaps);
      RowStartIsProduct(ds, gaps); RowStartIsProduct(gaps, ds);
      if gaps < ps { RowsApart(gaps, ps, ds); }
    } else if gaps < ps {
      RowsApart(gaps, ps, ds);
      RowStartIsProduct(gaps, ds);
    }
  }

  method FillRow(rs: Codec, j: nat)
    requires rs.Valid() && j < rs.ps
    modifies rs.p
    ensures IsCauchyRow(rs.p[..], rs.ds, rs.ps, j)
    ensures RowStart(j, rs.ds) <= rs.p.Length && rs.p[..RowStart(j, rs.ds)] == old(rs.p[..])[..RowStart(j, rs.ds)]
  {
    var ds, ps, at := rs.ds, rs.ps, RowStart(j, rs.ds);
    RowsApart(j, ps, ds);
    for i := 0 to ds
      invariant forall k :: at <= k < at + i ==> rs.p[k] == Recip(Xor(ps + (k - at), j))
      invariant rs.p[..at] == old(rs.p[..at])
    {
      rs.p[at + i] := Gf28Inv(Xor(ps + i, j));
    }
  }

  lemma CauchyRowKept(m: seq<Byte>, m': seq<Byte>, ds: nat, ps: nat, j: nat, k: nat)
    requires ds + ps <= DATA_SHARDS_MAX && RowStart(ps, ds) <= |m| == |m'| && k < j <= ps && RowStart(j, ds) <= |m|
    requires m[..RowStart(j, ds)] == m'[..RowStart(j, ds)] && IsCauchyRow(m, ds, ps, k)
    ensures IsCauchyRow(m', ds, ps, k)
  {
    RowsApart(k, j, ds); RowsApart(k, ps, ds);
    assert ParityRow(m, ds, ps, k) == m[..RowStart(j, ds)][RowStart(k, ds)..RowStart(k, ds) + ds];
    assert ParityRow(m', ds, ps, k) == m'[..RowStart(j, ds)][RowStart(k, ds)..RowStart(k, ds) + ds];
  }

  /** reed_solomon_new_static: no codec for an impossible shape or a short buffer, else the Cauchy one.
      room counts the bytes of the buffer behind the header. */
  method NewStatic(ds: int, ps: int, room: nat, width: nat) returns (rs: Codec?)
    requires VectorWidth(width)
    ensures rs == null <==> ds + ps > DATA_SHARDS_MAX || ds <= 0 || ps <= 0 || room < 2 * (ps * ds)
    ensures rs != null ==> fresh(rs) && fresh(rs.p) && rs.Valid() && rs.ds == ds && rs.ps == ps && rs.p.Length == room
    ensures rs != null ==> IsCauchy(rs.p[..], rs.ds, rs.ps)
  {
    if ds + ps > DATA_SHARDS_MAX || ds <= 0 || ps <= 0 || room < 2 * (ps * ds) {
      return null;
    }
    RowStartIsProduct(ps, ds);
    var codec := new Codec(ds, ps, room, width);
    for j := 0 to codec.ps
      invariant forall k :: 0 <= k < j ==> IsCauchyRow(codec.p[..], codec.ds, codec.ps, k)
    {
      ghost var before := codec.p[..];
      RowsApart(j, codec.ps, codec.ds);
      FillRow(codec, j);
      ghost var after := codec.p[..];
      assert after[..RowStart(j, codec.ds)] == codec.p[..RowStart(j, codec.ds)] == before[..RowStart(j, codec.ds)];
      forall k | 0 <= k < j
        ensures IsCauchyRow(after, codec.ds, codec.ps, k)
      {
        CauchyRowKept(before, after, codec.ds, codec.ps, j, k);
      }
    }
    rs := codec;
  }

  method ReadShards(shards: seq<array<Byte>>, bs: nat) returns (bodies: seq<Vec>)
    requires Buffers(shards, bs)
    ensures bodies == Contents(shards, bs)
  {
    bodies := [];
    for i := 0 to |shards|
      invariant |bodies| == i && forall k :: 0 <= k < i ==> bodies[k] == shards[k][..bs]
    {
      bodies := bodies + [shards[i][..bs]];
    }
  }

  /** The surviving parity shards are the data's parity, the lost ones hold what they held when they were lost. */
  ghost predicate ParityLeft(now: seq<Vec>, orig: seq<Vec>, m: seq<Byte>, ds: nat, ps: nat, marks: seq<bool>, bs: nat,
                             lost: seq<Vec>)
    requires |now| == |marks| == |lost| == ds + ps && Shaped(now, ds + ps, bs) && Shaped(orig, ds, bs)
    requires RowStart(ps, ds) <= |m|
  {
    forall i :: ds <= i < ds + ps ==>
      if marks[i] then now[i] == lost[i] else HoldsParity(now, orig, m, ds, ps, bs, i - ds)
  }

  /** Shards of an encoded frame, with anything in the lost ones. */
  ghost predicate PartlyLost(encoded: seq<Vec>, now: seq<Vec>, marks: seq<bool>, lost: seq<Vec>)
    requires |encoded| == |now| == |marks| == |lost|
  {
    forall i :: 0 <= i < |now| ==> now[i] == if marks[i] then lost[i] else encoded[i]
  }

  /** The codec's purpose: encode, lose any shards as long as ds of the ts survive, decode. The lost
      buffers may hold anything; all data comes back, the surviving parity still is the data's, the lost parity
      is left as it was, and the matrix is unchanged. */
  method EncodeLoseDecode(rs: Codec, shards: seq<array<Byte>>, marks: seq<bool>, bs: nat, lost: seq<Vec>)
    requires rs.Valid() && Buffers(shards, bs) && rs.p !in shards && |shards| == |marks| == rs.ts
    requires IsCauchy(rs.p[..], rs.ds, rs.ps) && rs.Recoverable(marks) && Shaped(lost, rs.ts, bs)
    requires rs.ScratchSuffices(|Picked(marks, 0, rs.ds, true)|)
    modifies rs.p, shards
    ensures Contents(shards, bs)[..rs.ds] == old(Contents(shards, bs))[..rs.ds]
    ensures rs.p[..rs.half] == old(rs.p[..rs.half])
    ensures ParityLeft(Contents(shards, bs), old(Contents(shards, bs))[..rs.ds], old(rs.p[..]), rs.ds, rs.ps, marks, bs,
                       lost)
  {
    ghost var orig, m := Contents(shards, bs)[..rs.ds], rs.p[..];
    ghost var encoded := EncodeAndLose(rs, shards, marks, bs, lost);
    ghost var received := Contents(shards, bs);
    EncodedHonest(encoded, received, orig, m, rs.ds, rs.ps, marks, bs, lost);
    DecodeHonest(rs, shards, marks, bs, orig);
    ParityStays(encoded, received, Contents(shards, bs), orig, m, rs.ds, rs.ps, marks, bs, lost);
  }

  /** Encodes, and overwrites the lost shards. */
  method EncodeAndLose(rs: Codec, shards: seq<array<Byte>>, marks: seq<bool>, bs: nat, lost: seq<Vec>)
    returns (ghost encoded: seq<Vec>)
    requires rs.Valid() && Buffers(shards, bs) && rs.p !in shards && |shards| == |marks| == rs.ts
    requires Shaped(lost, rs.ts, bs)
    modifies shards
    ensures |encoded| == rs.ts && Shaped(encoded, rs.ts, bs)
    ensures encoded[..rs.ds] == old(Contents(shards, bs))[..rs.ds]
    ensures ParityUpTo(encoded, encoded[..rs.ds], rs.p[..], rs.ds, rs.ps, bs, rs.ps)
    ensures PartlyLost(encoded, Contents(shards, bs), marks, lost)
  {
    var ret := rs.Encode(shards, bs);
    encoded := Contents(shards, bs);
    LoseShards(shards, marks, bs, lost);
  }

  /** Parity shards that are as they were encoded still are the data's parity. */
  lemma ParityStays(encoded: seq<Vec>, received: seq<Vec>, now: seq<Vec>, orig: seq<Vec>, m: seq<Byte>, ds: nat,
                    ps: nat, marks: seq<bool>, bs: nat, lost: seq<Vec>)
    requires |encoded| == |received| == |now| == |marks| == |lost| == ds + ps
    requires Shaped(encoded, ds + ps, bs) && Shaped(now, ds + ps, bs) && Shaped(orig, ds, bs) && RowStart(ps, ds) <= |m|
    requires ParityUpTo(encoded, orig, m, ds, ps, bs, ps) && PartlyLost(encoded, received, marks, lost)
    requires forall i :: ds <= i < ds + ps ==> now[i] == received[i]
    ensures ParityLeft(now, orig, m, ds, ps, marks, bs, lost)
  {
    forall i | ds <= i < ds + ps && !marks[i]
      ensures HoldsParity(now, orig, m, ds, ps, bs, i - ds)
    {
      ParityKept(encoded, now, orig, m, ds, ps, bs, i - ds);
    }
  }

  /** Decodes what is left of a frame whose survivors are honest in every byte column. */
  method DecodeHonest(rs: Codec, shards: seq<array<Byte>>, marks: seq<bool>, bs: nat, ghost orig: seq<Vec>)
    requires rs.Valid() && Buffers(shards, bs) && rs.p !in shards && |shards| == |marks| == rs.ts
    requires IsCauchy(rs.p[..], rs.ds, rs.ps) && rs.Recoverable(marks) && Shaped(orig, rs.ds, bs)
    requires rs.ScratchSuffices(|Picked(marks, 0, rs.ds, true)|)
    requires forall t :: 0 <= t < bs ==> HonestColumn(Contents(shards, bs), rs.p[..], rs.ds, rs.ps, marks, orig, bs, t)
    modifies rs.p, set i | 0 <= i < rs.ds && marks[i] :: shards[i]
    ensures Contents(shards, bs)[..rs.ds] == orig && rs.p[..rs.half] == old(rs.p[..rs.half])
    ensures forall i :: rs.ds <= i < rs.ts ==> Contents(shards, bs)[i] == old(Contents(shards, bs))[i]
  {
    ghost var received, m := Contents(shards, bs), rs.p[..];
    CauchyDecodable(rs, marks);
    assert shards[..rs.ts] == shards && marks[..rs.ts] == marks;
    var ret := rs.Decode(shards, marks, bs, orig);
    HonestRestored(received, Contents(shards, bs), orig, m, rs.p[..], rs.ds, rs.ps, marks, bs);
  }

  /** What survives of an encoded frame is honest in every byte column. */
  lemma EncodedHonest(encoded: seq<Vec>, received: seq<Vec>, orig: seq<Vec>, m: seq<Byte>, ds: nat, ps: nat,
                      marks: seq<bool>, bs: nat, lost: seq<Vec>)
    requires |encoded| == |received| == |marks| == |lost| == ds + ps && Shaped(encoded, ds + ps, bs)
    requires Shaped(received, ds + ps, bs)
    requires RowStart(ps, ds) <= |m| && orig == encoded[..ds]
    requires ParityUpTo(encoded, orig, m, ds, ps, bs, ps) && PartlyLost(encoded, received, marks, lost)
    ensures forall t :: 0 <= t < bs ==> HonestColumn(received, m, ds, ps, marks, orig, bs, t)
  {
    forall t, j | 0 <= t < bs && 0 <= j < ps && !marks[ds + j]
      ensures HoldsParityAt(received, orig, m, ds, ps, bs, j, t)
    {
      assert HoldsParity(encoded, orig, m, ds, ps, bs, j);
      assert HoldsParityAt(encoded, orig, m, ds, ps, bs, j, t);
    }
  }

  lemma HonestRestored(c: seq<Vec>, c': seq<Vec>, orig: seq<Vec>, m: seq<Byte>, m': seq<Byte>, ds: nat, ps: nat,
                       marks: seq<bool>, bs: nat)
    requires |c| == |c'| == |marks| == ds + ps && Shaped(c, ds + ps, bs) && Shaped(c', ds + ps, bs)
    requires Shaped(orig, ds, bs)
    requires RowStart(ps, ds) <= |m| && RowStart(ps, ds) <= |m'| && m[..RowStart(ps, ds)] == m'[..RowStart(ps, ds)]
    requires forall t :: 0 <= t < bs ==> HonestColumn(c, m, ds, ps, marks, orig, bs, t)
    requires Restored(c, c', m', ds, ps, marks, orig, bs)
    ensures c'[..ds] == orig
  {
    forall i | 0 <= i < ds
      ensures c'[i] == orig[i]
    {
      forall t | 0 <= t < bs
        ensures c'[i][t] == orig[i][t]
      {
        HonestOfPrefix(c, m', m, ds, ps, marks, orig, bs, t);
      }
    }
  }

  method LoseShards(shards: seq<array<Byte>>, marks: seq<bool>, bs: nat, lost: seq<Vec>)
    requires Buffers(shards, bs) && |shards| == |marks| && Shaped(lost, |shards|, bs)
    modifies shards
    ensures forall i :: 0 <= i < |shards| ==>
      Contents(shards, bs)[i] == if marks[i] then lost[i] else old(Contents(shards, bs)[i])
  {
    ghost var before := Contents(shards, bs);
    for i := 0 to |shards|
      invariant forall k :: 0 <= k < |shards| ==>
        Contents(shards, bs)[k] == if k < i && marks[k] then lost[k] else before[k]
    {
      ghost var c := Contents(shards, bs);
      if marks[i] {
        forall t | 0 <= t < bs {
          shards[i][t] := lost[i][t];
        }
        assert shards[i][..bs] == lost[i];
        assert forall k :: 0 <= k < |shards| && k != i ==> shards[k][..bs] == c[k];
      }
    }
  }
}
