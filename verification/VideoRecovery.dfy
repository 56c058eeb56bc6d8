/** Recovering the lost data packets of a block of the video stream, byte column by byte column. */
module VideoRecovery {
  import opened Gf256
  import opened Gf256Tables
  import opened Oblas
  import opened Elimination
  import opened Systems
  import opened ReedSolomon
  import opened SequenceNumbers
  import opened VideoFlags
  import opened VideoWindow

  // ----- the sender's block

  /** The sender's data packets of one block, as buffers of the receive size padded with zeros. */
  type Word = seq<Vec>

  /** Row j of the sender's parity matrix. */
  ghost function CauchyRow(ds: nat, ps: nat, j: nat): (r: Vec)
    requires ds + ps <= DATA_SHARDS_MAX && j < ps
    ensures |r| == ds && forall i :: 0 <= i < ds ==> r[i] == Recip(Xor(ps + i, j))
  {
    seq(ds, i requires 0 <= i < ds => MatrixEntry(ps, i, j))
  }

  ghost function MatrixEntry(ps: nat, i: nat, j: nat): Byte
    requires ps + i < 256 && j < 256
  {
    Recip(Xor(ps + i, j))
  }

  /** Byte t of parity packet j. */
  ghost function ParityByte(word: Word, ds: nat, ps: nat, size: nat, j: nat, t: nat): Byte
    requires Shaped(word, ds, size) && ds + ps <= DATA_SHARDS_MAX && j < ps && t < size
  {
    Dot(CauchyRow(ds, ps, j), Column(word, size, t))
  }

  /** A received buffer, filled up with zeros. */
  function Padded(bytes: seq<Byte>, size: nat): (r: Vec)
    requires |bytes| <= size
    ensures |r| == size && forall t :: 0 <= t < size ==> r[t] == if t < |bytes| then bytes[t] else 0
  {
    seq(size, t requires 0 <= t < size => if t < |bytes| then bytes[t] else 0)
  }

  ghost predicate Fits(pending: seq<Entry>, low: U16, total: nat, size: nat) {
    forall e :: e in pending ==> |e.packet.bytes| <= size && OffsetOf(low, e) < total
  }

  /** In byte column t every packet is the one of the sender with its number. */
  ghost predicate HonestAt(pending: seq<Entry>, low: U16, ds: nat, ps: nat, word: Word, size: nat, t: nat)
    requires Shaped(word, ds, size) && ds + ps <= DATA_SHARDS_MAX && t < size && Fits(pending, low, ds + ps, size)
  {
    forall e :: e in pending ==>
      Padded(e.packet.bytes, size)[t] ==
        if OffsetOf(low, e) < ds then word[OffsetOf(low, e)][t]
          else ParityByte(word, ds, ps, size, OffsetOf(low, e) - ds, t)
  }

  // ----- the shards

  /** marks and shards after the first n packets have been put in their places. */
  ghost predicate Gathered(pending: seq<Entry>, n: nat, low: U16, total: nat, size: nat, c: seq<Vec>, marks: seq<bool>)
    requires n <= |pending| && Fits(pending, low, total, size)
  {
    && |c| == |marks| == total
    && (forall k :: 0 <= k < n ==>
      !marks[OffsetOf(low, pending[k])] && c[OffsetOf(low, pending[k])] == Padded(pending[k].packet.bytes, size))
    && (forall i :: 0 <= i < total && !marks[i] ==> PlacedAt(pending, n, low, i))
  }

  ghost predicate PlacedAt(pending: seq<Entry>, n: nat, low: U16, i: nat)
    requires n <= |pending|
  {
    exists k :: 0 <= k < n && OffsetOf(low, pending[k]) == i
  }

  method NewShards(total: nat, size: nat) returns (shards: seq<array<Byte>>)
    ensures |shards| == total && Buffers(shards, size)
    ensures forall i :: 0 <= i < total ==> fresh(shards[i]) && shards[i].Length == size
  {
    shards := [];
    for i := 0 to total
      invariant |shards| == i
      invariant forall k :: 0 <= k < i ==> fresh(shards[k]) && shards[k].Length == size
      invariant forall k, l :: 0 <= k < l < i ==> shards[k] != shards[l]
    {
      var a := new Byte[size](_ => 0);
      shards := shards + [a];
    }
  }

  method FillShard(shards: seq<array<Byte>>, at: nat, bytes: seq<Byte>, size: nat)
    requires Buffers(shards, size) && at < |shards| && |bytes| <= size
    modifies shards[at]
    ensures Contents(shards, size) == old(Contents(shards, size))[at := Padded(bytes, size)]
  {
    ghost var before := Contents(shards, size);
    forall t | 0 <= t < size {
      shards[at][t] := if t < |bytes| then bytes[t] else 0;
    }
    assert shards[at][..size] == Padded(bytes, size);
    assert forall i :: 0 <= i < |shards| && i != at ==> shards[i][..size] == before[i];
  }

  lemma GatheredNext(pending: seq<Entry>, n: nat, low: U16, total: nat, size: nat, c: seq<Vec>, marks: seq<bool>)
    requires n < |pending| && Fits(pending, low, total, size) && DistinctNumbers(pending)
    requires Gathered(pending, n, low, total, size, c, marks)
    ensures var o := OffsetOf(low, pending[n]);
      o < total && Gathered(pending, n + 1, low, total, size, c[o := Padded(pending[n].packet.bytes, size)],
                            marks[o := false])
  {
    var o := OffsetOf(low, pending[n]);
    assert pending[n] in pending;
    var c', marks' := c[o := Padded(pending[n].packet.bytes, size)], marks[o := false];
    forall k | 0 <= k < n + 1
      ensures !marks'[OffsetOf(low, pending[k])]
      ensures c'[OffsetOf(low, pending[k])] == Padded(pending[k].packet.bytes, size)
    {
      assert pending[k] in pending;
      DistanceInjective(low, pending[k].packet.seqNum, pending[n].packet.seqNum);
    }
    forall i | 0 <= i < total && !marks'[i]
      ensures PlacedAt(pending, n + 1, low, i)
    {
      if i == o {
        assert OffsetOf(low, pending[n]) == i;
      } else {
        assert PlacedAt(pending, n, low, i);
        var k :| 0 <= k < n && OffsetOf(low, pending[k]) == i;
        assert k < n + 1 && OffsetOf(low, pending[k]) == i;
      }
    }
  }

  /** The buffers the decoder works on: every packet in its place, the other places marked as lost. */
  method GatherShards(pending: seq<Entry>, low: U16, total: nat, size: nat)
    returns (shards: seq<array<Byte>>, marks: seq<bool>)
    requires Fits(pending, low, total, size) && DistinctNumbers(pending)
    ensures |shards| == |marks| == total && Buffers(shards, size)
    ensures forall i :: 0 <= i < total ==> fresh(shards[i])
    ensures Gathered(pending, |pending|, low, total, size, Contents(shards, size), marks)
  {
    shards := NewShards(total, size);
    marks := seq(total, i => true);
    for n := 0 to |pending|
      invariant |marks| == total
      invariant Gathered(pending, n, low, total, size, Contents(shards, size), marks)
    {
      var o := OffsetOf(low, pending[n]);
      GatheredNext(pending, n, low, total, size, Contents(shards, size), marks);
      FillShard(shards, o, pending[n].packet.bytes, size);
      marks := marks[o := false];
    }
  }

  lemma ParityRowIsCauchy(m: seq<Byte>, ds: nat, ps: nat, j: nat)
    requires ds + ps <= DATA_SHARDS_MAX && RowStart(ps, ds) <= |m| && IsCauchy(m, ds, ps) && j < ps
    ensures ParityRow(m, ds, ps, j) == CauchyRow(ds, ps, j)
  {
    assert IsCauchyRow(m, ds, ps, j);
  }

  /** A column in which all packets are the sender's belongs to a code word. */
  lemma HonestColumnGathered(pending: seq<Entry>, low: U16, ds: nat, ps: nat, word: Word, size: nat, t: nat,
                             c: seq<Vec>, marks: seq<bool>, m: seq<Byte>)
    requires Shaped(word, ds, size) && ds + ps <= DATA_SHARDS_MAX && t < size && Fits(pending, low, ds + ps, size)
    requires RowStart(ps, ds) <= |m| && IsCauchy(m, ds, ps)
    requires Shaped(c, ds + ps, size) && Gathered(pending, |pending|, low, ds + ps, size, c, marks)
    requires HonestAt(pending, low, ds, ps, word, size, t)
    ensures HonestColumn(c, m, ds, ps, marks, word, size, t)
  {
    forall i | 0 <= i < ds + ps && !marks[i]
      ensures c[i][t] == if i < ds then word[i][t] else ParityByte(word, ds, ps, size, i - ds, t)
    {
      assert PlacedAt(pending, |pending|, low, i);
      var k :| 0 <= k < |pending| && OffsetOf(low, pending[k]) == i;
      assert pending[k] in pending;
    }
    forall j | 0 <= j < ps && !marks[ds + j]
      ensures HoldsParityAt(c, word, m, ds, ps, size, j, t)
    {
      ParityRowIsCauchy(m, ds, ps, j);
      assert c[ds + j][t] == ParityByte(word, ds, ps, size, j, t);
    }
  }

  // ----- enough packets are enough shards

  ghost function Elements(s: seq<nat>): (r: set<nat>)
    ensures forall x: nat :: x in r <==> x in s
  {
    if s == [] then {} else Elements(s[1..]) + {s[0]}
  }

  lemma {:induction false} DistinctSize(s: seq<nat>)
    requires forall i, j :: 0 <= i < j < |s| ==> s[i] != s[j]
    ensures |Elements(s)| == |s|
  {
    if s != [] {
      DistinctSize(s[1..]);
      assert s[0] !in s[1..];
    }
  }

  lemma {:induction false} PickedJoin(marks: seq<bool>, m: nat, n: nat, want: bool)
    requires m <= n <= |marks|
    ensures Picked(marks, 0, n, want) == Picked(marks, 0, m, want) + Picked(marks, m, n, want)
    decreases n
  {
    if m < n { PickedJoin(marks, m, n - 1, want); }
  }

  /** No more packets than unmarked places. */
  lemma UnmarkedCount(pending: seq<Entry>, low: U16, total: nat, size: nat, c: seq<Vec>, marks: seq<bool>)
    requires Fits(pending, low, total, size) && DistinctNumbers(pending)
    requires Gathered(pending, |pending|, low, total, size, c, marks)
    ensures |pending| <= |Picked(marks, 0, total, false)|
  {
    var offs, picked := Offsets(low, pending), Picked(marks, 0, total, false);
    OffsetsDistinct(low, pending);
    DistinctSize(offs);
    PickedSorted(marks, 0, total, false);
    DistinctSize(picked);
    forall o | o in Elements(offs)
      ensures o in Elements(picked)
    {
      var k :| 0 <= k < |offs| && offs[k] == o;
      assert pending[k] in pending;
      PickedComplete(marks, 0, total, o);
    }
    SubsetSize(Elements(offs), Elements(picked));
  }

  lemma EnoughToRecover(pending: seq<Entry>, low: U16, size: nat, c: seq<Vec>, marks: seq<bool>, rs: Codec)
    requires rs.Valid() && Fits(pending, low, rs.ts, size) && DistinctNumbers(pending)
    requires Gathered(pending, |pending|, low, rs.ts, size, c, marks) && |pending| >= rs.ds
    ensures rs.Recoverable(marks)
  {
    UnmarkedCount(pending, low, rs.ts, size, c, marks);
    PickedJoin(marks, rs.ds, rs.ts, false);
    PickedCounts(marks, 0, rs.ds);
  }

  lemma {:induction false} AllMarked(marks: seq<bool>, n: nat)
    requires n <= |marks|
    ensures |Picked(marks, 0, n, true)| == n <==> forall i :: 0 <= i < n ==> marks[i]
  {
    if n > 0 { AllMarked(marks, n - 1); }
  }

  // ----- decoding

  /** NoCodec: the shape of the block is beyond the codec. Overrun: the codec's scratch space is too small
      for the number of lost packets, and the source does not define what happens. */
  datatype Outcome = NoCodec | Overrun | Decoded

  /** Some data packet has been received. */
  ghost predicate SomeData(pending: seq<Entry>, low: U16, ds: nat) {
    exists e :: e in pending && OffsetOf(low, e) < ds
  }

  predicate CodecShape(ds: nat, ps: nat) {
    ds + ps <= DATA_SHARDS_MAX && 0 < ds && 0 < ps
  }

  lemma SomeDataMarks(pending: seq<Entry>, low: U16, ds: nat, total: nat, size: nat, c: seq<Vec>, marks: seq<bool>)
    requires ds <= total && Fits(pending, low, total, size)
    requires Gathered(pending, |pending|, low, total, size, c, marks)
    ensures |Picked(marks, 0, ds, true)| == ds <==> !SomeData(pending, low, ds)
  {
    AllMarked(marks, ds);
    if SomeData(pending, low, ds) {
      var e :| e in pending && OffsetOf(low, e) < ds;
      var k :| 0 <= k < |pending| && pending[k] == e;
      assert !marks[OffsetOf(low, pending[k])];
    }
    forall i | 0 <= i < ds && !marks[i]
      ensures SomeData(pending, low, ds)
    {
      assert PlacedAt(pending, |pending|, low, i);
      var k :| 0 <= k < |pending| && OffsetOf(low, pending[k]) == i;
      assert pending[k] in pending;
    }
  }

  lemma ReadyToDecode(pending: seq<Entry>, low: U16, size: nat, c: seq<Vec>, marks: seq<bool>, rs: Codec)
    requires rs.Valid() && rs.p.Length == 2 * rs.half && IsCauchy(rs.p[..], rs.ds, rs.ps)
    requires Fits(pending, low, rs.ts, size) && DistinctNumbers(pending) && |pending| >= rs.ds
    requires Gathered(pending, |pending|, low, rs.ts, size, c, marks)
    requires SomeData(pending, low, rs.ds) || rs.ds != rs.ps || rs.ds <= 1
    ensures rs.Recoverable(marks) && rs.Decodable(marks)
  {
    EnoughToRecover(pending, low, size, c, marks, rs);
    SomeDataMarks(pending, low, rs.ds, rs.ts, size, c, marks);
    PickedCounts(marks, rs.ds, rs.ts);
    ScratchFits(rs, |Picked(marks, 0, rs.ds, true)|);
    CauchyDecodable(rs, marks);
  }

  /** Every column in which all packets are the sender's comes back. */
  ghost predicate ColumnsBack(pending: seq<Entry>, low: U16, ds: nat, ps: nat, word: Word, size: nat, bodies: seq<Vec>)
    requires Shaped(word, ds, size) && ds + ps <= DATA_SHARDS_MAX && Fits(pending, low, ds + ps, size)
    requires Shaped(bodies, ds + ps, size)
  {
    forall t, i :: 0 <= t < size && 0 <= i < ds && HonestAt(pending, low, ds, ps, word, size, t) ==>
      bodies[i][t] == word[i][t]
  }

  /** Gathers the packets into buffers, and decodes those. */
  method DecodePackets(rs: Codec, pending: seq<Entry>, low: U16, size: nat, ghost word: Word)
    returns (marks: seq<bool>, bodies: seq<Vec>)
    requires rs.Valid() && rs.p.Length == 2 * rs.half && IsCauchy(rs.p[..], rs.ds, rs.ps)
    requires Fits(pending, low, rs.ts, size) && DistinctNumbers(pending) && |pending| >= rs.ds
    requires SomeData(pending, low, rs.ds) || rs.ds != rs.ps || rs.ds <= 1
    requires Shaped(word, rs.ds, size)
    modifies rs.p
    ensures Shaped(bodies, rs.ts, size) && ColumnsBack(pending, low, rs.ds, rs.ps, word, size, bodies)
    ensures |marks| == rs.ts && forall i :: 0 <= i < rs.ts ==> (!marks[i] <==> PlacedAt(pending, |pending|, low, i))
  {
    var shards;
    shards, marks := GatherShards(pending, low, rs.ts, size);
    ghost var c, m := Contents(shards, size), rs.p[..];
    ReadyToDecode(pending, low, size, c, marks, rs);
    assert shards[..rs.ts] == shards && marks[..rs.ts] == marks;
    var ret := rs.Decode(shards, marks, size, word);
    bodies := ReadShards(shards, size);
    ColumnsComeBack(pending, low, rs.ds, rs.ps, word, size, c, marks, m, rs.p[..], bodies);
  }

  /** The decoding part of reconstructFrame. */
  method DecodeBlock(pending: seq<Entry>, low: U16, ds: nat, ps: nat, someData: bool, size: nat, width: nat,
                     ghost word: Word)
    returns (outcome: Outcome, marks: seq<bool>, bodies: seq<Vec>)
    requires VectorWidth(width) && Fits(pending, low, ds + ps, size) && DistinctNumbers(pending) && |pending| >= ds
    requires someData <==> SomeData(pending, low, ds)
    requires Shaped(word, ds, size)
    ensures outcome == if !CodecShape(ds, ps) then NoCodec else if !someData && ds == ps &&
      ds > 1 then Overrun else Decoded
    ensures outcome == Decoded ==>
      Shaped(bodies, ds + ps, size) && ColumnsBack(pending, low, ds, ps, word, size, bodies)
    ensures outcome == Decoded ==> |marks| == ds + ps && forall i :: 0 <= i < ds + ps ==> (!marks[i] <==>
      PlacedAt(pending, |pending|, low, i))
  {
    marks, bodies := [], [];
    var rs := NewStatic(ds, ps, 2 * (ps * ds), width);
    if rs == null {
      return NoCodec, marks, bodies;
    }
    if !someData && ds == ps && ds > 1 {
      return Overrun, marks, bodies;
    }
    RowStartIsProduct(ps, ds);
    marks, bodies := DecodePackets(rs, pending, low, size, word);
    outcome := Decoded;
  }

  lemma ColumnsComeBack(pending: seq<Entry>, low: U16, ds: nat, ps: nat, word: Word, size: nat,
                        c: seq<Vec>, marks: seq<bool>, m: seq<Byte>, m': seq<Byte>, bodies: seq<Vec>)
    requires Shaped(word, ds, size) && ds + ps <= DATA_SHARDS_MAX && Fits(pending, low, ds + ps, size)
    requires RowStart(ps, ds) <= |m| && RowStart(ps, ds) <= |m'| && m[..RowStart(ps, ds)] == m'[..RowStart(ps, ds)]
    requires IsCauchy(m, ds, ps)
    requires Shaped(c, ds + ps, size) && Shaped(bodies, ds + ps, size)
    requires Gathered(pending, |pending|, low, ds + ps, size, c, marks)
    requires Restored(c, bodies, m', ds, ps, marks, word, size)
    ensures ColumnsBack(pending, low, ds, ps, word, size, bodies)
  {
    forall t, i | 0 <= t < size && 0 <= i < ds && HonestAt(pending, low, ds, ps, word, size, t)
      ensures bodies[i][t] == word[i][t]
    {
      HonestColumnGathered(pending, low, ds, ps, word, size, t, c, marks, m);
      HonestOfPrefix(c, m', m, ds, ps, marks, word, size, t);
    }
  }

  // ----- the packets made of the decoded shards

  const MAX_RTP_HEADER_SIZE := 16
  const NV_HEADER_SIZE := 16

  /** Where the video header of a packet starts. */
  function DataOffset(header: U8): nat {
    if HasFlag(header, FLAG_EXTENSION) then 16 else 12
  }

  /** The checks a recovered packet must pass; it is number i of n. */
  predicate Sane(flags: Byte, i: nat, n: nat) {
    && (i == 0 ==> HasFlag(flags, FLAG_SOF))
    && (i == n - 1 ==> HasFlag(flags, FLAG_EOF))
    && (0 < i < n - 1 ==> HasFlag(flags, FLAG_CONTAINS_PIC_DATA))
    && flags < 8
  }

  /** What recovered packets are made of: the decoded shards, and what their headers are rebuilt from. */
  datatype Recovery = Recovery(ds: nat, marks: seq<bool>, bodies: seq<Vec>, low: U16, head: Packet, frame: U32,
                               last: nat, cur: nat, packetSize: nat)

  ghost predicate RecoveryOk(r: Recovery) {
    && r.ds <= |r.marks| == |r.bodies| && Shaped(r.bodies, |r.bodies|, r.packetSize + MAX_RTP_HEADER_SIZE)
    && r.last < 4 && r.cur < 4 && r.packetSize >= NV_HEADER_SIZE
  }

  function FlagsOf(r: Recovery, i: nat): Byte
    requires i < |r.bodies| && |r.bodies[i]| == r.packetSize + MAX_RTP_HEADER_SIZE && r.packetSize >= NV_HEADER_SIZE
  {
    r.bodies[i][DataOffset(r.head.header) + 8]
  }

  /** Recovered packet i: the payload as decoded, the header fields rebuilt. */
  function Rebuilt(r: Recovery, i: nat): Entry
    requires i < |r.bodies| && |r.bodies[i]| == r.packetSize + MAX_RTP_HEADER_SIZE && r.last < 4 && r.cur < 4
  {
    Entry(Packet(Wrap16(r.low + i), r.head.header, r.head.timestamp, r.head.ssrc, r.frame, (r.last * 4 + r.cur) * 16,
                 r.bodies[i][..r.packetSize + DataOffset(r.head.header)]), false)
  }

  predicate IsRebuilt(r: Recovery, i: nat)
    requires i < |r.bodies| == |r.marks| && |r.bodies[i]| == r.packetSize + MAX_RTP_HEADER_SIZE
    requires r.packetSize >= NV_HEADER_SIZE
  {
    r.marks[i] && i < r.ds && Sane(FlagsOf(r, i), i, r.ds)
  }

  /** The packets recovered at places below n. */
  ghost function Rebuilds(r: Recovery, n: nat): seq<Entry>
    requires RecoveryOk(r) && n <= |r.bodies|
  {
    if n == 0 then []
    else Rebuilds(r, n - 1) + if IsRebuilt(r, n - 1) then [Rebuilt(r, n - 1)] else []
  }

  lemma {:induction false} RebuildsFrom(r: Recovery, n: nat, k: nat) returns (i: nat)
    requires RecoveryOk(r) && n <= |r.bodies| && k < |Rebuilds(r, n)|
    ensures i < n && IsRebuilt(r, i) && Rebuilds(r, n)[k] == Rebuilt(r, i)
  {
    if k < |Rebuilds(r, n - 1)| {
      i := RebuildsFrom(r, n - 1, k);
    } else {
      i := n - 1;
    }
  }

  lemma {:induction false} RebuildsHave(r: Recovery, n: nat, i: nat)
    requires RecoveryOk(r) && i < n <= |r.bodies| && IsRebuilt(r, i)
    ensures Rebuilt(r, i) in Rebuilds(r, n)
  {
    if i < n - 1 { RebuildsHave(r, n - 1, i); } else { assert Rebuilds(r, n)[|Rebuilds(r, n - 1)|] == Rebuilt(r, i); }
  }

  /** A rebuilt packet has the place it was decoded at. */
  lemma RebuiltPlace(r: Recovery, i: nat)
    requires RecoveryOk(r) && i < |r.bodies| < WINDOW_LIMIT
    ensures OffsetOf(r.low, Rebuilt(r, i)) == i
  {}

  /** marks are those of the packets in pending. */
  ghost predicate MarksOf(marks: seq<bool>, pending: seq<Entry>, low: U16) {
    forall i :: 0 <= i < |marks| ==> (!marks[i] <==> PlacedAt(pending, |pending|, low, i))
  }

  /** The packet recovered next is new. */
  lemma RebuiltIsNew(r: Recovery, pending: seq<Entry>, n: nat)
    requires RecoveryOk(r) && n < |r.bodies| < WINDOW_LIMIT && IsRebuilt(r, n) && MarksOf(r.marks, pending, r.low)
    ensures !Duplicate(pending + Rebuilds(r, n), Rebuilt(r, n).packet.seqNum)
  {
    var all, e := pending + Rebuilds(r, n), Rebuilt(r, n);
    RebuiltPlace(r, n);
    forall k | 0 <= k < |all|
      ensures all[k].packet.seqNum != e.packet.seqNum
    {
      if k < |pending| {
        assert !PlacedAt(pending, |pending|, r.low, n);
        assert OffsetOf(r.low, pending[k]) != n;
      } else {
        var i := RebuildsFrom(r, n, k - |pending|);
        RebuiltPlace(r, i);
      }
    }
  }

  lemma DistinctSnoc(s: seq<Entry>, e: Entry)
    requires DistinctNumbers(s) && !Duplicate(s, e.packet.seqNum)
    ensures DistinctNumbers(s + [e])
  {}

  lemma {:induction false} RebuildsDistinct(r: Recovery, pending: seq<Entry>, n: nat)
    requires RecoveryOk(r) && n <= |r.bodies| < WINDOW_LIMIT && MarksOf(r.marks, pending, r.low)
    requires DistinctNumbers(pending)
    ensures DistinctNumbers(pending + Rebuilds(r, n))
  {
    if n == 0 {
      assert pending + [] == pending;
    } else {
      RebuildsDistinct(r, pending, n - 1);
      var before := pending + Rebuilds(r, n - 1);
      if IsRebuilt(r, n - 1) {
        RebuiltIsNew(r, pending, n - 1);
        assert pending + Rebuilds(r, n) == before + [Rebuilt(r, n - 1)];
        DistinctSnoc(before, Rebuilt(r, n - 1));
      } else {
        assert pending + Rebuilds(r, n) == before;
      }
    }
  }
}
