/** The byte-vector kernels of oblas_lite.c: adding a multiple of one buffer to another, and scaling
    a buffer in place, both done sixteen, thirty-two or sixty-four bytes at a time by looking up
    products of nibbles. */
module Oblas {
  import opened Gf256
  import opened Gf256Tables

  // ----- what the kernels compute

  /** after is before with u times src added to the bytes from position at on. */
  ghost predicate AddedAt(before: seq<Byte>, after: seq<Byte>, at: nat, src: seq<Byte>, u: Byte)
    requires at + |src| <= |before|
  {
    && |after| == |before|
    && (forall i :: 0 <= i < at ==> after[i] == before[i])
    && (forall i :: 0 <= i < |src| ==> after[at + i] == Xor(before[at + i], Mul(u, src[i])))
    && (forall i :: at + |src| <= i < |before| ==> after[i] == before[i])
  }

  /** The same with the source bytes given by their place in a buffer. */
  ghost predicate AddedFrom(before: seq<Byte>, after: seq<Byte>, at: nat, src: seq<Byte>, from: nat, k: nat, u: Byte)
    requires at + k <= |before| && from + k <= |src|
  {
    && |after| == |before|
    && forall t :: 0 <= t < |before| ==>
         after[t] == if at <= t < at + k then Xor(before[t], Mul(u, src[from + (t - at)])) else before[t]
  }

  lemma AddedFromJoins(s0: seq<Byte>, s1: seq<Byte>, s2: seq<Byte>, at: nat, src: seq<Byte>, from: nat, k: nat, l: nat,
                       u: Byte)
    requires at + k + l <= |s0| == |s1| && from + k + l <= |src|
    requires AddedFrom(s0, s1, at, src, from, k, u) && AddedFrom(s1, s2, at + k, src, from + k, l, u)
    ensures AddedFrom(s0, s2, at, src, from, k + l, u)
  {
    forall t | 0 <= t < |s0|
      ensures s2[t] == if at <= t < at + k + l then Xor(s0[t], Mul(u, src[from + (t - at)])) else s0[t]
    {
      assert s1[t] == if at <= t < at + k then Xor(s0[t], Mul(u, src[from + (t - at)])) else s0[t];
      assert from + k + (t - (at + k)) == from + (t - at);
    }
  }

  lemma AddedFromIsAdded(s0: seq<Byte>, s1: seq<Byte>, at: nat, src: seq<Byte>, from: nat, k: nat, u: Byte)
    requires at + k <= |s0| && from + k <= |src| && AddedFrom(s0, s1, at, src, from, k, u)
    ensures AddedAt(s0, s1, at, src[from..from + k], u)
  {
    var range := src[from..from + k];
    forall i | 0 <= i < k
      ensures s1[at + i] == Xor(s0[at + i], Mul(u, range[i]))
    {
      assert from + (at + i - at) == from + i;
    }
  }

  /** after is before with the k bytes from position at on multiplied by u. */
  ghost predicate ScaledAt(before: seq<Byte>, after: seq<Byte>, at: nat, k: nat, u: Byte)
    requires at + k <= |before|
  {
    && |after| == |before|
    && (forall i :: 0 <= i < at ==> after[i] == before[i])
    && (forall i :: at <= i < at + k ==> after[i] == Mul(u, before[i]))
    && (forall i :: at + k <= i < |before| ==> after[i] == before[i])
  }

  lemma ScaledAtJoins(s0: seq<Byte>, s1: seq<Byte>, s2: seq<Byte>, at: nat, k: nat, l: nat, u: Byte)
    requires at + k + l <= |s0| == |s1|
    requires ScaledAt(s0, s1, at, k, u) && ScaledAt(s1, s2, at + k, l, u)
    ensures ScaledAt(s0, s2, at, k + l, u)
  {}

  // ----- one vector register

  function LaneValue(b: seq<Byte>): nat {
    if b == [] then 0 else b[0] + 256 * LaneValue(b[1..])
  }

  function ByteOf(n: nat, i: nat): Byte {
    if i == 0 then n % 256 else ByteOf(n / 256, i - 1)
  }

  /** A register holds 64-bit little-endian lanes; each is shifted right by four bits as a whole. */
  function ShiftLanes(v: seq<Byte>): (r: seq<Byte>)
    requires |v| % 8 == 0
    ensures |r| == |v|
  {
    seq(|v|, i requires 0 <= i < |v| =>
      var lane := i / 8 * 8;
      ByteOf(LaneValue(v[lane..lane + 8]) / 16, i % 8))
  }

  /** Every byte combined with the mask 0x0f. */
  function LowNibbles(v: seq<Byte>): (r: seq<Byte>)
    ensures |r| == |v|
  {
    seq(|v|, i requires 0 <= i < |v| => v[i] % 16)
  }

  /** The byte shuffle: an index with its top bit set selects zero, any other its low nibble's entry. */
  function Shuffle(table: seq<Byte>, v: seq<Byte>): (r: seq<Byte>)
    requires |table| == 16
    ensures |r| == |v|
  {
    seq(|v|, i requires 0 <= i < |v| => if v[i] >= 128 then 0 else table[v[i] % 16])
  }

  /** Rows of the two nibble tables: the products of u with the low and with the high nibbles. */
  function ShufLo(u: Byte): (t: seq<Byte>)
    ensures |t| == 16
  {
    seq(16, n requires 0 <= n < 16 => Mul(u, n))
  }

  function ShufHi(u: Byte): (t: seq<Byte>)
    ensures |t| == 16
  {
    seq(16, n requires 0 <= n < 16 => Mul(u, 16 * n))
  }

  function RegisterXor(v: seq<Byte>, w: seq<Byte>): (r: seq<Byte>)
    requires |v| == |w|
    ensures |r| == |v|
  {
    seq(|v|, i requires 0 <= i < |v| => Xor(v[i], w[i]))
  }

  /** The products of u with all bytes of a register, as the kernels compute them. */
  function RegisterProduct(u: Byte, v: seq<Byte>): (r: seq<Byte>)
    requires |v| % 8 == 0
    ensures |r| == |v|
  {
    RegisterXor(Shuffle(ShufLo(u), LowNibbles(v)), Shuffle(ShufHi(u), LowNibbles(ShiftLanes(v))))
  }

  lemma DivisionsCommute(n: nat)
    ensures n / 16 / 256 == n / 256 / 16
  {}

  lemma LowestByte(b: Byte, rest: nat)
    ensures (b + 256 * rest) / 256 == rest && (b + 256 * rest) % 256 == b
    ensures (b + 256 * rest) / 16 == b / 16 + 16 * rest
  {}

  lemma NibbleParts(lo: nat, h: nat)
    requires lo < 16 && h < 16
    ensures (16 * h + lo) / 16 == h && (16 * h + lo) % 16 == lo
  {}

  lemma HighNibble(h: nat, rest: nat)
    requires h < 16
    ensures (h + 16 * rest) % 256 % 16 == h
  {
    var low, high := rest % 16, rest / 16;
    LowestByte(h + 16 * low, high);
    assert h + 16 * rest == h + 16 * low + 256 * high;
    NibbleParts(h, low);
  }

  /** The shift moves each byte's high nibble down; the mask removes what came from its neighbour. */
  lemma {:induction false} ShiftedNibble(b: seq<Byte>, i: nat)
    requires i < |b|
    ensures ByteOf(LaneValue(b) / 16, i) % 16 == b[i] / 16
  {
    var n, rest := LaneValue(b), LaneValue(b[1..]);
    LowestByte(b[0], rest);
    if i > 0 {
      DivisionsCommute(n);
      assert ByteOf(n / 16, i) == ByteOf(rest / 16, i - 1);
      ShiftedNibble(b[1..], i - 1);
    } else {
      HighNibble(b[0] / 16, rest);
      assert ByteOf(n / 16, 0) == (b[0] / 16 + 16 * rest) % 256;
    }
  }

  lemma FromNibbles(x: nat, lo: nat, h: nat)
    requires x / 16 == h && x % 16 == lo
    ensures x == 16 * h + lo
  {}

  lemma NibblesXor(lo: nat, h: nat)
    requires lo < 16 && h < 16
    ensures BitXor(lo, 16 * h) == 16 * h + lo
  {
    NibbleParts(lo, 0); NibbleParts(0, h); 
    XorNibbles(lo, 16 * h);
    XorUnfold(0, h); BitXorZero(lo);
    FromNibbles(BitXor(lo, 16 * h), lo, h);
  }

  /** The two table rows give the field product. */
  lemma NibbleProduct(u: Byte, b: Byte)
    ensures Xor(ShufLo(u)[b % 16], ShufHi(u)[b / 16]) == Mul(u, b)
  {
    var lo: Byte, hi: Byte := b % 16, 16 * (b / 16);
    NibblesXor(b % 16, b / 16);
    assert Xor(lo, hi) == b;
    MulXorRight(u, lo, hi);
  }

  lemma RegisterProductIsMul(u: Byte, v: seq<Byte>)
    requires |v| % 8 == 0
    ensures forall i :: 0 <= i < |v| ==> RegisterProduct(u, v)[i] == Mul(u, v[i])
  {
    forall i | 0 <= i < |v|
      ensures RegisterProduct(u, v)[i] == Mul(u, v[i])
    {
      var lane := i / 8 * 8;
      ShiftedNibble(v[lane..lane + 8], i % 8);
      NibbleProduct(u, v[i]);
    }
  }

  // ----- the kernels

  predicate VectorWidth(width: nat) {
    width == 16 || width == 32 || width == 64
  }

  method Gf28Mul(a: Byte, b: Byte) returns (r: Byte)
    ensures r == Mul(a, b)
  {
    LogExpProductIsMul(a, b);
    if a == 0 || b == 0 {
      return 0;
    }
    LogEntries(a); LogEntries(b);
    r := ExpTable(LogTable(a) + LogTable(b));
  }

  method Gf28Inv(a: Byte) returns (r: Byte)
    ensures r == Recip(a)
  {
    InvTableIsRecip(a);
    r := InvTable(a);
  }

  /** The ranges a call may touch: inside both buffers, and apart if the buffers are one. */
  ghost predicate Separate(a: array<Byte>, ao: nat, b: array<Byte>, bo: nat, k: nat) {
    ao + k <= a.Length && bo + k <= b.Length && (a == b ==> ao + k <= bo || bo + k <= ao)
  }

  /** The source range still holds what the snapshot src does. */
  ghost predicate SourceIntact(b: array<Byte>, src: seq<Byte>, from: nat, k: nat)
    reads b
  {
    from + k <= b.Length == |src| && forall t :: from <= t < from + k ==> b[t] == src[t]
  }

  /** The byte-wise reference; src is what b held before the whole operation. */
  method AxpyRef(a: array<Byte>, ao: nat, b: array<Byte>, bo: nat, u: Byte, k: nat, ghost src: seq<Byte>)
    requires Separate(a, ao, b, bo, k) && SourceIntact(b, src, bo, k)
    modifies a
    ensures AddedFrom(old(a[..]), a[..], ao, src, bo, k, u)
  {
    for i := 0 to k
      invariant AddedFrom(old(a[..]), a[..], ao, src, bo, i, u)
      invariant SourceIntact(b, src, bo, k)
    {
      var product := Gf28Mul(u, b[bo + i]);
      assert a[ao + i] == old(a[..])[ao + i] && b[bo + i] == src[bo + (ao + i - ao)];
      a[ao + i] := Xor(a[ao + i], product);
    }
  }

  method ScalRef(a: array<Byte>, ao: nat, u: Byte, k: nat)
    requires ao + k <= a.Length
    modifies a
    ensures ScaledAt(old(a[..]), a[..], ao, k, u)
  {
    for i := 0 to k
      invariant ScaledAt(old(a[..]), a[..], ao, i, u)
    {
      a[ao + i] := Gf28Mul(u, a[ao + i]);
    }
  }

  /** k % width, for the register widths there are. */
  function Remainder(k: nat, width: nat): (r: nat)
    requires VectorWidth(width)
    ensures r < width && r <= k
  {
    if width == 16 then k % 16 else if width == 32 then k % 32 else k % 64
  }

  /** n bytes are a whole number of registers. */
  predicate Registers(n: nat, width: nat) {
    n == 0 || (0 < width <= n && Registers(n - width, width))
  }

  lemma {:induction false} Multiples(q: nat, width: nat)
    requires width > 0
    ensures Registers(q * width, width)
  {
    if q > 0 {
      assert q * width == (q - 1) * width + width;
      Multiples(q - 1, width);
    }
  }

  lemma WholeRegisters(k: nat, width: nat)
    requires VectorWidth(width)
    ensures Registers(k - Remainder(k, width), width)
  {
    if width == 16 {
      Multiples(k / 16, 16);
    } else if width == 32 {
      Multiples(k / 32, 32);
    } else {
      Multiples(k / 64, 64);
    }
  }

  /** One register: load both, multiply, add, store. */
  method AxpyRegister(a: array<Byte>, at: nat, b: array<Byte>, from: nat, u: Byte, width: nat, ghost src: seq<Byte>)
    requires VectorWidth(width) && at + width <= a.Length && SourceIntact(b, src, from, width)
    modifies a
    ensures AddedFrom(old(a[..]), a[..], at, src, from, width, u)
  {
    var v := b[from..from + width];
    var sum := RegisterXor(a[at..at + width], RegisterProduct(u, v));
    RegisterProductIsMul(u, v);
    forall i | 0 <= i < width {
      a[at + i] := sum[i];
    }
    forall t | at <= t < at + width
      ensures a[t] == Xor(old(a[..])[t], Mul(u, src[from + (t - at)]))
    {
      assert a[at + (t - at)] == sum[t - at] && v[t - at] == src[from + (t - at)];
    }
  }

  /** The register loop, over a length that is a whole number of registers. */
  method AxpyRegisters(a: array<Byte>, ao: nat, b: array<Byte>, bo: nat, u: Byte, m: nat, width: nat,
                       ghost src: seq<Byte>)
    requires VectorWidth(width) && Registers(m, width)
    requires Separate(a, ao, b, bo, m) && SourceIntact(b, src, bo, m)
    modifies a
    ensures AddedFrom(old(a[..]), a[..], ao, src, bo, m, u)
  {
    var done := 0;
    ghost var s0 := a[..];
    while done < m
      invariant done <= m && Registers(m - done, width)
      invariant AddedFrom(s0, a[..], ao, src, bo, done, u)
      invariant SourceIntact(b, src, bo, m)
    {
      ghost var before := a[..];
      AxpyRegister(a, ao + done, b, bo + done, u, width, src);
      AddedFromJoins(s0, before, a[..], ao, src, bo, done, width, u);
      done := done + width;
    }
  }

  /** Whole registers first, then the reference for the last k % width bytes. */
  method ShufAxpy(a: array<Byte>, ao: nat, b: array<Byte>, bo: nat, u: Byte, k: nat, width: nat, ghost src: seq<Byte>)
    requires VectorWidth(width)
    requires Separate(a, ao, b, bo, k) && SourceIntact(b, src, bo, k)
    modifies a
    ensures AddedFrom(old(a[..]), a[..], ao, src, bo, k, u)
  {
    var m := k - Remainder(k, width);
    WholeRegisters(k, width);
    AxpyRegisters(a, ao, b, bo, u, m, width, src);
    ghost var s1 := a[..];
    AxpyRef(a, ao + m, b, bo + m, u, k - m, src);
    AddedFromJoins(old(a[..]), s1, a[..], ao, src, bo, m, k - m, u);
  }

  method ScalRegister(a: array<Byte>, at: nat, u: Byte, width: nat)
    requires VectorWidth(width) && at + width <= a.Length
    modifies a
    ensures ScaledAt(old(a[..]), a[..], at, width, u)
  {
    var v := a[at..at + width];
    var product := RegisterProduct(u, v);
    RegisterProductIsMul(u, v);
    forall i | 0 <= i < width {
      a[at + i] := product[i];
    }
  }

  method ShufScal(a: array<Byte>, ao: nat, u: Byte, k: nat, width: nat)
    requires VectorWidth(width)
    requires ao + k <= a.Length
    modifies a
    ensures ScaledAt(old(a[..]), a[..], ao, k, u)
  {
    var done, m := 0, k - Remainder(k, width);
    ghost var s0 := a[..];
    WholeRegisters(k, width);
    while done < m
      invariant done <= m && Registers(m - done, width)
      invariant ScaledAt(s0, a[..], ao, done, u)
    {
      ghost var before := a[..];
      ScalRegister(a, ao + done, u, width);
      ScaledAtJoins(s0, before, a[..], ao, done, width, u);
      done := done + width;
    }
    ghost var before := a[..];
    ScalRef(a, ao + m, u, k - m);
    ScaledAtJoins(s0, before, a[..], ao, m, k - m, u);
  }

  method OblAxpy(a: array<Byte>, ao: nat, b: array<Byte>, bo: nat, u: Byte, k: nat, width: nat)
    requires VectorWidth(width)
    requires Separate(a, ao, b, bo, k)
    modifies a
    ensures AddedAt(old(a[..]), a[..], ao, old(b[bo..bo + k]), u)
  {
    ghost var src := b[..];
    if u == 1 {
      for i := 0 to k
        invariant AddedFrom(old(a[..]), a[..], ao, src, bo, i, u)
        invariant SourceIntact(b, src, bo, k)
      {
        MulOne(b[bo + i]);
        assert a[ao + i] == old(a[..])[ao + i] && b[bo + i] == src[bo + (ao + i - ao)];
        a[ao + i] := Xor(a[ao + i], b[bo + i]);
      }
    } else {
      ShufAxpy(a, ao, b, bo, u, k, width, src);
    }
    AddedFromIsAdded(old(a[..]), a[..], ao, src, bo, k, u);
  }

  method OblScal(a: array<Byte>, ao: nat, u: Byte, k: nat, width: nat)
    requires VectorWidth(width)
    requires ao + k <= a.Length
    modifies a
    ensures ScaledAt(old(a[..]), a[..], ao, k, u)
  {
    ShufScal(a, ao, u, k, width);
  }
}
