/** The fixed parity matrix of the audio stream, and what the sender's packets look like. */
module AudioFec {
  import opened Gf256
  import opened Gf256Tables
  import opened Elimination
  import opened Systems
  import opened ReedSolomon
  import opened SequenceNumbers
  import AudioControl

  const PAYLOAD_AUDIO: U8 := 97
  const PAYLOAD_FEC: U8 := 127
  const FEC_HEADER_SIZE := 12

  /** The 2 x 4 parity matrix of the sender, which replaces the codec's own. */
  const OPENFEC: seq<Byte> := [0x77, 0x40, 0x38, 0x0e, 0xc7, 0xa7, 0x0d, 0x6c]

  // ----- every square submatrix can be eliminated

  lemma OneByOneEliminable(m: Matrix)
    requires Square(m, 1) && m[0][0] != 0
    ensures Eliminable(m, 1)
  {
    assert Eliminable(Residual(m, 0), 0);
  }

  lemma TwoByTwoEliminable(m: Matrix)
    requires Square(m, 2) && m[0][0] != 0
    requires Mul(m[0][0], m[1][1]) != Mul(m[1][0], m[0][1])
    ensures Eliminable(m, 2)
  {
    var a, b, c, r := m[0][0], m[0][1], m[1][0], Recip(m[0][0]);
    var part := Mul(c, Mul(r, b));
    calc {
      Mul(a, part);
      { MulAssociates(a, c, Mul(r, b)); MulCommutes(a, c); MulAssociates(c, a, Mul(r, b)); }
      Mul(c, Mul(a, Mul(r, b)));
      { MulAssociates(a, r, b); MulOne(b); }
      Mul(c, b);
    }
    XorNonZero(m[1][1], part);
    var q := Residual(m, 1);
    assert PivotRow(m)[1] == Mul(r, b);
    assert q[0][0] == Xor(m[1][1], part);
    OneByOneEliminable(q);
  }

  lemma Product(a: Byte, la: nat, b: Byte, lb: nat, c: Byte)
    requires la + lb < 510 && ExpTable(la) == a && ExpTable(lb) == b && ExpTable(la + lb) == c
    ensures Mul(a, b) == c
  {
    ExpIsPower(la); ExpIsPower(lb); ExpIsPower(la + lb);
    PowerAdds(la, lb);
  }

  /** The products in the determinants, one lemma each, from the logarithms of their factors. */
  lemma Product77a7(a: Byte, b: Byte)
    requires a == 0x77 && b == 0xa7
    ensures Mul(a, b) == 27
  {
    Product(a, 43, b, 205, 27);
  }

  lemma Productc740(a: Byte, b: Byte)
    requires a == 0xc7 && b == 0x40
    ensures Mul(a, b) == 151
  {
    Product(a, 118, b, 6, 151);
  }

  lemma Product770d(a: Byte, b: Byte)
    requires a == 0x77 && b == 0x0d
    ensures Mul(a, b) == 41
  {
    Product(a, 43, b, 104, 41);
  }

  lemma Productc738(a: Byte, b: Byte)
    requires a == 0xc7 && b == 0x38
    ensures Mul(a, b) == 95
  {
    Product(a, 118, b, 201, 95);
  }

  lemma Product776c(a: Byte, b: Byte)
    requires a == 0x77 && b == 0x6c
    ensures Mul(a, b) == 148
  {
    Product(a, 43, b, 250, 148);
  }

  lemma Productc70e(a: Byte, b: Byte)
    requires a == 0xc7 && b == 0x0e
    ensures Mul(a, b) == 222
  {
    Product(a, 118, b, 199, 222);
  }

  lemma Product400d(a: Byte, b: Byte)
    requires a == 0x40 && b == 0x0d
    ensures Mul(a, b) == 103
  {
    Product(a, 6, b, 104, 103);
  }

  lemma Producta738(a: Byte, b: Byte)
    requires a == 0xa7 && b == 0x38
    ensures Mul(a, b) == 170
  {
    Product(a, 205, b, 201, 170);
  }

  lemma Product406c(a: Byte, b: Byte)
    requires a == 0x40 && b == 0x6c
    ensures Mul(a, b) == 2
  {
    Product(a, 6, b, 250, 2);
  }

  lemma Producta70e(a: Byte, b: Byte)
    requires a == 0xa7 && b == 0x0e
    ensures Mul(a, b) == 164
  {
    Product(a, 205, b, 199, 164);
  }

  lemma Product386c(a: Byte, b: Byte)
    requires a == 0x38 && b == 0x6c
    ensures Mul(a, b) == 200
  {
    Product(a, 201, b, 250, 200);
  }

  lemma Product0d0e(a: Byte, b: Byte)
    requires a == 0x0d && b == 0x0e
    ensures Mul(a, b) == 70
  {
    Product(a, 104, b, 199, 70);
  }

  /** The square submatrix that two lost packets lead to has these entries. */
  predicate Entries(s: Matrix, a: Byte, b: Byte, c: Byte, d: Byte) {
    |s| == 2 && s[0] == [a, b] && s[1] == [c, d]
  }

  /** One lemma for each pair of columns: its determinant is not zero. */
  lemma Columns01(s: Matrix)
    requires Entries(s, 0x77, 0x40, 0xc7, 0xa7)
    ensures Eliminable(s, 2)
  {
    Product77a7(s[0][0], s[1][1]);
    Productc740(s[1][0], s[0][1]);
    TwoByTwoEliminable(s);
  }

  lemma Columns02(s: Matrix)
    requires Entries(s, 0x77, 0x38, 0xc7, 0x0d)
    ensures Eliminable(s, 2)
  {
    Product770d(s[0][0], s[1][1]);
    Productc738(s[1][0], s[0][1]);
    TwoByTwoEliminable(s);
  }

  lemma Columns03(s: Matrix)
    requires Entries(s, 0x77, 0x0e, 0xc7, 0x6c)
    ensures Eliminable(s, 2)
  {
    Product776c(s[0][0], s[1][1]);
    Productc70e(s[1][0], s[0][1]);
    TwoByTwoEliminable(s);
  }

  lemma Columns12(s: Matrix)
    requires Entries(s, 0x40, 0x38, 0xa7, 0x0d)
    ensures Eliminable(s, 2)
  {
    Product400d(s[0][0], s[1][1]);
    Producta738(s[1][0], s[0][1]);
    TwoByTwoEliminable(s);
  }

  lemma Columns13(s: Matrix)
    requires Entries(s, 0x40, 0x0e, 0xa7, 0x6c)
    ensures Eliminable(s, 2)
  {
    Product406c(s[0][0], s[1][1]);
    Producta70e(s[1][0], s[0][1]);
    TwoByTwoEliminable(s);
  }

  lemma Columns23(s: Matrix)
    requires Entries(s, 0x38, 0x0e, 0x0d, 0x6c)
    ensures Eliminable(s, 2)
  {
    Product386c(s[0][0], s[1][1]);
    Product0d0e(s[1][0], s[0][1]);
    TwoByTwoEliminable(s);
  }

  lemma ParityRowEntry(m: seq<Byte>, j: nat, i: nat)
    requires 8 <= |m| && m[..8] == OPENFEC && j < 2 && i < 4
    ensures ParityRow(m, 4, 2, j)[i] == OPENFEC[4 * j + i]
  {
    RowStartIsProduct(j, 4);
    assert m[RowStart(j, 4) + i] == m[..8][4 * j + i];
  }

  /** With two lost packets, both parity rows make the system. */
  lemma TwoLost(s: Matrix, i: nat, j: nat)
    requires i < j < 4 && Entries(s, OPENFEC[i], OPENFEC[j], OPENFEC[4 + i], OPENFEC[4 + j])
    ensures Eliminable(s, 2)
  {
    if i == 0 {
      if j == 1 { Columns01(s); } else if j == 2 { Columns02(s); } else { Columns03(s); }
    } else if i == 1 {
      if j == 2 { Columns12(s); } else { Columns13(s); }
    } else {
      Columns23(s);
    }
  }

  /** Whatever two packets of parity and whichever data packets are lost, decoding meets no zero pivot. */
  lemma OpenFecDecodable(rs: Codec, marks: seq<bool>)
    requires rs.Valid() && rs.ds == 4 && rs.ps == 2 && rs.p[..8] == OPENFEC
    requires |marks| == 6 && rs.Recoverable(marks)
    ensures rs.Decodable(marks)
  {
    var e, d, m := Picked(marks, 0, 4, true), rs.RowsUsed(marks), rs.p[..];
    assert m[..8] == rs.p[..8];
    var s := SubMatrix(m, 4, 2, d, e);
    assert |e| == |d| <= 2;
    if |e| == 1 {
      ParityRowEntry(m, d[0], e[0]);
      OneByOneEliminable(s);
    } else if |e| == 2 {
      assert d[0] + 4 < d[1] + 4;
      assert d[0] == 0 && d[1] == 1;
      ParityRowEntry(m, 0, e[0]); ParityRowEntry(m, 0, e[1]);
      ParityRowEntry(m, 1, e[0]); ParityRowEntry(m, 1, e[1]);
      TwoLost(s, e[0], e[1]);
    }
  }

  // ----- counting shards

  lemma {:induction false} PresentSnoc(marks: seq<bool>, mark: bool)
    ensures AudioControl.Present(marks + [mark]) == AudioControl.Present(marks) + if mark then 0 else 1
  {
    if marks == [] {
      assert [mark][1..] == [];
    } else {
      assert (marks + [mark])[1..] == marks[1..] + [mark];
      PresentSnoc(marks[1..], mark);
    }
  }

  lemma {:induction false} PresentPicked(marks: seq<bool>, lo: nat, n: nat)
    requires lo <= n <= |marks|
    ensures |Picked(marks, lo, n, false)| == AudioControl.Present(marks[lo..n])
    decreases n
  {
    if lo < n {
      PresentPicked(marks, lo, n - 1);
      PresentSnoc(marks[lo..n - 1], marks[n - 1]);
      assert marks[lo..n] == marks[lo..n - 1] + [marks[n - 1]];
    }
  }

  /** Any four of the six shards recover the others. */
  lemma FourSuffice(rs: Codec, marks: seq<bool>)
    requires rs.Valid() && rs.ds == 4 && rs.ps == 2 && |marks| == 6
    ensures rs.Recoverable(marks) <==> AudioControl.Present(marks[..4]) + AudioControl.Present(marks[4..]) >= 4
  {
    PresentPicked(marks, 0, 4);
    PresentPicked(marks, 4, 6);
    PickedCounts(marks, 0, 4);
    assert marks[0..4] == marks[..4] && marks[4..6] == marks[4..];
  }

  // ----- the sender's side

  datatype Packet = Packet(header: U8, kind: U8, seqNum: U16, timestamp: U32, ssrc: U32, body: seq<Byte>)

  /** Four consecutive packets of the sender, by what they have in common and their payloads. */
  datatype Word = Word(timestamp: U32, ssrc: U32, size: nat, payloads: seq<Vec>)

  ghost predicate WordOk(w: Word) {
    Shaped(w.payloads, 4, w.size)
  }

  /** The timestamp i packets of the given duration later. */
  function TimeAt(timestamp: U32, i: nat, duration: nat): U32 {
    if i == 0 then timestamp else Wrap32(TimeAt(timestamp, i - 1, duration) + duration)
  }

  lemma {:induction false} TimeAtIsProduct(timestamp: U32, i: nat, duration: nat)
    ensures TimeAt(timestamp, i, duration) == Wrap32(timestamp + i * duration)
  {
    if i > 0 {
      TimeAtIsProduct(timestamp, i - 1, duration);
      assert i * duration == (i - 1) * duration + duration;
      WrapAdds(timestamp + (i - 1) * duration, duration);
    }
  }

  lemma WrapAdds(x: int, y: int)
    ensures Wrap32(Wrap32(x) + y) == Wrap32(x + y)
  {}

  /** Packet i of the word that starts at base. */
  function PacketOf(w: Word, base: U16, i: nat, duration: nat): Packet
    requires i < |w.payloads|
  {
    Packet(0x80, PAYLOAD_AUDIO, Wrap16(base + i), TimeAt(w.timestamp, i, duration), w.ssrc, w.payloads[i])
  }

  ghost function ParityOf(w: Word, j: nat): (r: Vec)
    requires WordOk(w) && j < 2
    ensures |r| == w.size
  {
    seq(w.size, t requires 0 <= t < w.size => Dot(ParityRow(OPENFEC, 4, 2, j), Column(w.payloads, w.size, t)))
  }

  function Be16(b: seq<Byte>, at: nat): U16
    requires at + 2 <= |b|
  {
    (b[at] as int) * 0x100 + b[at + 1] as int
  }

  function Be32(b: seq<Byte>, at: nat): U32
    requires at + 4 <= |b|
  {
    (Be16(b, at) as int) * 0x1_0000 + Be16(b, at + 2) as int
  }

  /** The header in front of the parity bytes. */
  datatype FecHeader = FecHeader(shard: U8, kind: U8, base: U16, timestamp: U32, ssrc: U32)

  function ParseFecHeader(body: seq<Byte>): FecHeader
    requires |body| >= FEC_HEADER_SIZE
  {
    FecHeader(body[0], body[1], Be16(body, 2), Be32(body, 4), Be32(body, 8))
  }

  type Words = map<U16, Word>

  ghost predicate HonestData(p: Packet, words: Words, duration: nat) {
    var base := AudioControl.BaseOf(p.seqNum);
    base in words && WordOk(words[base]) && p == PacketOf(words[base], base, p.seqNum % 4, duration)
  }

  ghost predicate HonestFec(h: FecHeader, parity: Vec, words: Words) {
    && h.base in words && WordOk(words[h.base]) && h.kind == PAYLOAD_AUDIO && h.shard < 2
    && h.timestamp == words[h.base].timestamp && h.ssrc == words[h.base].ssrc
    && parity == ParityOf(words[h.base], h.shard)
  }

  /** A packet the sender of these words may have sent. */
  ghost predicate HonestPacket(p: Packet, words: Words, duration: nat) {
    && (p.kind == PAYLOAD_AUDIO ==> HonestData(p, words, duration))
    && (p.kind == PAYLOAD_FEC && |p.body| >= FEC_HEADER_SIZE ==>
          HonestFec(ParseFecHeader(p.body), p.body[FEC_HEADER_SIZE..], words))
  }
}
