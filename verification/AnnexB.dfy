/** Annex B byte streams as VideoDepacketizer.c cuts them up: start codes, and the slow path that takes the
    first packet of an IDR frame apart. */
module AnnexB {
  import opened Gf256

  datatype Codec = H264 | H265 | Other

  /** What a NAL unit is, as far as the depacketizer cares. */
  datatype NalKind = Delimiter | Sei | Vps | Sps | Pps | IdrSlice | OtherNal

  function KindOf(codec: Codec, header: Byte): NalKind {
    match codec
    case H264 =>
      var t := header % 0x20;
      if t == 5 then IdrSlice else if t == 6 then Sei else if t == 7 then Sps else if t == 8 then Pps
      else if t == 9 then Delimiter else OtherNal
    case H265 =>
      var t := header % 0x80 / 2;
      if 16 <= t <= 21 then IdrSlice else if t == 32 then Vps else if t == 33 then Sps else if t == 34 then Pps
      else if t == 35 then Delimiter else if t == 39 then Sei else OtherNal
    case Other => OtherNal
  }

  // ----- start codes

  /** The length of the start code at the position, 0 if there is none; a start code counts only with the
      header byte of its NAL unit behind it. */
  function StartLength(d: seq<Byte>, at: nat, end: nat): (n: nat)
    requires at <= end <= |d|
    ensures n > 0 ==> at + n < end
  {
    if end - at <= 3 || d[at] != 0 || d[at + 1] != 0 then 0
    else if d[at + 2] == 0 then (if end - at > 4 && d[at + 3] == 1 then 4 else 0)
    else if d[at + 2] == 1 then 3
    else 0
  }

  /** A start code in the sense of Annex B.1 of ITU-T H.264, with or without its leading zero byte. */
  ghost predicate StartsHere(d: seq<Byte>, at: nat, end: nat)
    requires at <= end <= |d|
  {
    || (at + 3 < end && d[at..at + 3] == [0, 0, 1])
    || (at + 4 < end && d[at..at + 4] == [0, 0, 0, 1])
  }

  lemma StartLengthExact(d: seq<Byte>, at: nat, end: nat)
    requires at <= end <= |d|
    ensures StartLength(d, at, end) > 0 <==> StartsHere(d, at, end)
    ensures StartsHere(d, at, end) ==>
      d[at + StartLength(d, at, end) - 3..at + StartLength(d, at, end)] == [0, 0, 1]
  {
    if at + 3 < end { assert d[at..at + 3] == [d[at], d[at + 1], d[at + 2]]; }
    if at + 4 < end { assert d[at..at + 4] == [d[at], d[at + 1], d[at + 2], d[at + 3]]; }
    if StartLength(d, at, end) == 4 { assert d[at + 1..at + 4] == [d[at + 1], d[at + 2], d[at + 3]]; }
  }

  /** The NAL unit that starts at the position. */
  function NalAt(codec: Codec, d: seq<Byte>, at: nat, end: nat): NalKind
    requires at <= end <= |d|
  {
    if StartLength(d, at, end) == 0 then OtherNal else KindOf(codec, d[at + StartLength(d, at, end)])
  }

  /** The first start code from the position on, or the end. */
  function Scan(d: seq<Byte>, at: nat, end: nat): (r: nat)
    requires at <= end <= |d|
    ensures at <= r <= end && (r < end ==> StartLength(d, r, end) > 0)
    ensures forall k :: at <= k < r ==> StartLength(d, k, end) == 0
    decreases end - at
  {
    if at == end || StartLength(d, at, end) > 0 then at else Scan(d, at + 1, end)
  }

  /** Where the next NAL unit starts, coming from the position. */
  function NextNal(d: seq<Byte>, at: nat, end: nat): (r: nat)
    requires at <= end <= |d|
    ensures at <= r <= end && (at < end ==> at < r) && (r < end ==> StartLength(d, r, end) > 0)
  {
    Scan(d, at + StartLength(d, at, end), end)
  }

  /** skipToNextNalOrEnd. */
  method SkipToNextNalOrEnd(d: seq<Byte>, at: nat, end: nat) returns (r: nat)
    requires at <= end <= |d|
    ensures r == NextNal(d, at, end)
  {
    r := at + StartLength(d, at, end);
    while StartLength(d, r, end) == 0
      invariant r <= end && Scan(d, r, end) == NextNal(d, at, end)
      decreases end - r
    {
      if r == end {
        return;
      }
      r := r + 1;
    }
  }

  // ----- taking a packet apart

  datatype BufferType = PicData | BufferSps | BufferPps | BufferVps

  /** getBufferFlags, of the piece from start to end. */
  function TypeOf(codec: Codec, d: seq<Byte>, start: nat, end: nat): BufferType
    requires start <= end <= |d|
  {
    match NalAt(codec, d, start, end)
    case Sps => BufferSps
    case Pps => BufferPps
    case Vps => BufferVps
    case _ => PicData
  }

  /** One element of the chain that goes to the decoder; reused tells that it takes the packet's own buffer. */
  datatype Fragment = Fragment(data: seq<Byte>, kind: BufferType, reused: bool)

  function FragmentOf(codec: Codec, d: seq<Byte>, start: nat, end: nat, reused: bool): Fragment
    requires start <= end <= |d|
  {
    Fragment(d[start..end], TypeOf(codec, d, start, end), reused)
  }

  predicate IsSkipped(codec: Codec, d: seq<Byte>, at: nat, end: nat)
    requires at <= end <= |d|
  {
    NalAt(codec, d, at, end) == Delimiter || NalAt(codec, d, at, end) == Sei
  }

  datatype PieceKind = Padding | Skipped | Kept | Picture

  /** A stretch of the packet, and what becomes of it. */
  datatype Piece = Piece(start: nat, end: nat, kind: PieceKind)

  /** The way through a packet: padding in front of a start code, delimiters and SEI are left out, an IDR slice
      takes all the rest, and anything else is a piece of its own. */
  function Pieces(codec: Codec, d: seq<Byte>, at: nat, end: nat): seq<Piece>
    requires at <= end <= |d|
    decreases end - at, 0
  {
    var next := NextNal(d, at, end);
    if at == end then []
    else if StartLength(d, at, end) == 0 then [Piece(at, next, Padding)] + AfterSkipped(codec, d, next, end)
    else if IsSkipped(codec, d, at, end) then [Piece(at, next, Skipped)] + AfterSkipped(codec, d, next, end)
    else if NalAt(codec, d, at, end) == IdrSlice then [Piece(at, end, Picture)]
    else [Piece(at, next, Kept)] + Pieces(codec, d, next, end)
  }

  /** After something has been left out, even an empty rest makes a piece. */
  function AfterSkipped(codec: Codec, d: seq<Byte>, at: nat, end: nat): seq<Piece>
    requires at <= end <= |d|
    decreases end - at, 1
  {
    if at == end then [Piece(end, end, Kept)] else Pieces(codec, d, at, end)
  }

  function KeptOf(codec: Codec, d: seq<Byte>, pieces: seq<Piece>): seq<Fragment>
    requires forall i :: 0 <= i < |pieces| ==> pieces[i].start <= pieces[i].end <= |d|
  {
    if pieces == [] then []
    else
      var p := pieces[0];
      (if p.kind == Kept || p.kind == Picture then [FragmentOf(codec, d, p.start, p.end, p.kind == Picture)] else [])
        + KeptOf(codec, d, pieces[1..])
  }

  // ----- what the pieces are

  /** The piece is what its kind says, up to the next start code. */
  ghost predicate PieceOk(codec: Codec, d: seq<Byte>, end: nat, p: Piece)
    requires end <= |d|
  {
    && p.start <= p.end <= end
    && match p.kind
       case Padding => StartLength(d, p.start, end) == 0 && p.end == NextNal(d, p.start, end)
       case Skipped => IsSkipped(codec, d, p.start, end) && p.end == NextNal(d, p.start, end)
       case Kept =>
         p.start < end ==>
           && StartLength(d, p.start, end) > 0 && !IsSkipped(codec, d, p.start, end)
           && NalAt(codec, d, p.start, end) != IdrSlice && p.end == NextNal(d, p.start, end)
       case Picture => NalAt(codec, d, p.start, end) == IdrSlice && p.end == end
  }

  /** The pieces lie one behind the other from at to end; only the first may be padding, and only the last
      empty or picture data. */
  ghost predicate Cover(codec: Codec, d: seq<Byte>, at: nat, end: nat, pieces: seq<Piece>)
    requires at <= end <= |d|
    decreases |pieces|
  {
    if pieces == [] then at == end
    else
      var p := pieces[0];
      && PieceOk(codec, d, end, p) && p.start == at && Cover(codec, d, p.end, end, pieces[1..])
      && (p.kind == Picture || p.start == p.end ==> |pieces| == 1)
      && forall i :: 1 <= i < |pieces| ==> pieces[i].kind != Padding
  }

  lemma {:induction false} PiecesCover(codec: Codec, d: seq<Byte>, at: nat, end: nat)
    requires at <= end <= |d|
    ensures Cover(codec, d, at, end, Pieces(codec, d, at, end))
    ensures at < end && StartLength(d, at, end) > 0 ==>
      forall i :: 0 <= i < |Pieces(codec, d, at, end)| ==> Pieces(codec, d, at, end)[i].kind != Padding
    decreases end - at, 1
  {
    if at < end {
      var pieces, next := Pieces(codec, d, at, end), NextNal(d, at, end);
      if StartLength(d, at, end) == 0 || IsSkipped(codec, d, at, end) {
        AfterSkippedCovers(codec, d, next, end);
        assert pieces[1..] == AfterSkipped(codec, d, next, end);
      } else if NalAt(codec, d, at, end) == IdrSlice {
        assert pieces[1..] == [];
      } else {
        PiecesCover(codec, d, next, end);
        assert pieces[1..] == Pieces(codec, d, next, end);
      }
    }
  }

  lemma {:induction false} AfterSkippedCovers(codec: Codec, d: seq<Byte>, at: nat, end: nat)
    requires at <= end <= |d| && (at < end ==> StartLength(d, at, end) > 0)
    ensures Cover(codec, d, at, end, AfterSkipped(codec, d, at, end))
    ensures AfterSkipped(codec, d, at, end) != []
    ensures forall i :: 0 <= i < |AfterSkipped(codec, d, at, end)| ==>
      AfterSkipped(codec, d, at, end)[i].kind != Padding
    decreases end - at, 2
  {
    if at == end {
      assert [Piece(end, end, Kept)][1..] == [];
    } else {
      PiecesCover(codec, d, at, end);
    }
  }

  lemma {:induction false} CoverInside(codec: Codec, d: seq<Byte>, at: nat, end: nat, pieces: seq<Piece>, i: nat)
    requires at <= end <= |d| && Cover(codec, d, at, end, pieces) && i < |pieces|
    ensures at <= pieces[i].start <= pieces[i].end <= end && PieceOk(codec, d, end, pieces[i])
    decreases i
  {
    if i > 0 { CoverInside(codec, d, pieces[0].end, end, pieces[1..], i - 1); }
  }

  // ----- the slow path

  ghost predicate Inside(d: seq<Byte>, pieces: seq<Piece>) {
    forall i :: 0 <= i < |pieces| ==> pieces[i].start <= pieces[i].end <= |d|
  }

  lemma CoverIsInside(codec: Codec, d: seq<Byte>, at: nat, end: nat, pieces: seq<Piece>)
    requires at <= end <= |d| && Cover(codec, d, at, end, pieces)
    ensures Inside(d, pieces)
  {
    forall i | 0 <= i < |pieces|
      ensures pieces[i].start <= pieces[i].end <= |d|
    {
      CoverInside(codec, d, at, end, pieces, i);
    }
  }

  /** The fragments that the packet leaves from the position on. */
  ghost function Rest(codec: Codec, d: seq<Byte>, at: nat, end: nat): seq<Fragment>
    requires at <= end <= |d|
  {
    PiecesCover(codec, d, at, end);
    CoverIsInside(codec, d, at, end, Pieces(codec, d, at, end));
    KeptOf(codec, d, Pieces(codec, d, at, end))
  }

  /** The same after something has been left out. */
  ghost function RestAfter(codec: Codec, d: seq<Byte>, at: nat, end: nat): seq<Fragment>
    requires at <= end <= |d|
  {
    if at == end then [FragmentOf(codec, d, end, end, false)] else Rest(codec, d, at, end)
  }

  lemma RestSkips(codec: Codec, d: seq<Byte>, at: nat, end: nat)
    requires at < end <= |d| && (StartLength(d, at, end) == 0 || IsSkipped(codec, d, at, end))
    ensures Rest(codec, d, at, end) == RestAfter(codec, d, NextNal(d, at, end), end)
  {
    var pieces, next := Pieces(codec, d, at, end), NextNal(d, at, end);
    assert pieces[1..] == AfterSkipped(codec, d, next, end);
    if next == end {
      var last := [Piece(end, end, Kept)];
      assert last[1..] == [] && KeptOf(codec, d, last)
        == [FragmentOf(codec, d, end, end, false)] + KeptOf(codec, d, []);
    }
  }

  lemma RestPicture(codec: Codec, d: seq<Byte>, at: nat, end: nat)
    requires at < end <= |d| && NalAt(codec, d, at, end) == IdrSlice
    ensures Rest(codec, d, at, end) == [FragmentOf(codec, d, at, end, true)]
  {
    var pieces := Pieces(codec, d, at, end);
    assert pieces[1..] == [] && KeptOf(codec, d, pieces)
      == [FragmentOf(codec, d, at, end, true)] + KeptOf(codec, d, []);
  }

  lemma RestKeeps(codec: Codec, d: seq<Byte>, at: nat, end: nat)
    requires at < end <= |d| && StartLength(d, at, end) > 0
    requires !IsSkipped(codec, d, at, end) && NalAt(codec, d, at, end) != IdrSlice
    ensures Rest(codec, d, at, end)
         == [FragmentOf(codec, d, at, NextNal(d, at, end), false)] + Rest(codec, d, NextNal(d, at, end), end)
  {
    assert Pieces(codec, d, at, end)[1..] == Pieces(codec, d, NextNal(d, at, end), end);
  }

  /** Past padding, delimiters and SEI. */
  method SkipLeftOut(codec: Codec, d: seq<Byte>, from: nat, end: nat) returns (at: nat)
    requires from < end <= |d|
    ensures from <= at <= end && (at < end ==> StartLength(d, at, end) > 0 && !IsSkipped(codec, d, at, end))
    ensures Rest(codec, d, from, end) == RestAfter(codec, d, at, end)
  {
    at := from;
    if StartLength(d, at, end) == 0 {
      RestSkips(codec, d, at, end);
      at := SkipToNextNalOrEnd(d, at, end);
    }
    while IsSkipped(codec, d, at, end)
      invariant from <= at <= end && (at < end ==> StartLength(d, at, end) > 0)
      invariant Rest(codec, d, from, end) == RestAfter(codec, d, at, end)
      decreases end - at
    {
      RestSkips(codec, d, at, end);
      at := SkipToNextNalOrEnd(d, at, end);
    }
  }

  /** Goes on from NAL unit to NAL unit until nothing is left. */
  method SkipAll(d: seq<Byte>, from: nat, end: nat) returns (at: nat)
    requires from <= end <= |d|
    ensures at == end
  {
    at := from;
    while at < end
      invariant at <= end
      decreases end - at
    {
      at := SkipToNextNalOrEnd(d, at, end);
    }
  }

  /** One round of the slow path: the next fragment, and whether it is picture data. */
  method TakePiece(codec: Codec, d: seq<Byte>, from: nat, end: nat) returns (at: nat, f: Fragment)
    requires from < end <= |d|
    ensures from < at <= end && (f.reused ==> at == end)
    ensures Rest(codec, d, from, end) == [f] + Rest(codec, d, at, end)
  {
    var start := SkipLeftOut(codec, d, from, end);
    var picture := NalAt(codec, d, start, end) == IdrSlice;
    at := SkipToNextNalOrEnd(d, start, end);
    if start < end {
      if picture { RestPicture(codec, d, start, end); } else { RestKeeps(codec, d, start, end); }
    }
    if picture {
      at := SkipAll(d, at, end);
    }
    f := FragmentOf(codec, d, start, at, picture);
  }

  /** processAvcHevcRtpPayloadSlow, from the packet's position on: the fragments, and whether an IDR slice was
      met. At most one fragment takes the packet's own buffer: the last one, with the IDR slice. */
  method ProcessSlow(codec: Codec, d: seq<Byte>, from: nat, end: nat) returns (fragments: seq<Fragment>, idr: bool)
    requires from <= end <= |d|
    ensures fragments == Rest(codec, d, from, end)
    ensures OnlyLastReused(fragments) && idr == EndsReused(fragments)
  {
    var at := from;
    fragments, idr := [], false;
    while at < end
      invariant from <= at <= end && (idr ==> at == end)
      invariant fragments + Rest(codec, d, at, end) == Rest(codec, d, from, end)
      invariant OnlyLastReused(fragments) && idr == EndsReused(fragments)
      decreases end - at
    {
      var f;
      at, f := TakePiece(codec, d, at, end);
      MoveOver(fragments, f, Rest(codec, d, at, end));
      LastReused(fragments, f);
      fragments, idr := fragments + [f], f.reused;
    }
  }

  lemma MoveOver(taken: seq<Fragment>, f: Fragment, rest: seq<Fragment>)
    ensures taken + ([f] + rest) == taken + [f] + rest
  {}

  /** Only the last fragment has the packet's own buffer, if any has. */
  ghost predicate OnlyLastReused(fragments: seq<Fragment>) {
    forall i :: 0 <= i < |fragments| - 1 ==> !fragments[i].reused
  }

  predicate EndsReused(fragments: seq<Fragment>) {
    fragments != [] && fragments[|fragments| - 1].reused
  }

  lemma LastReused(fragments: seq<Fragment>, f: Fragment)
    requires OnlyLastReused(fragments) && !EndsReused(fragments)
    ensures OnlyLastReused(fragments + [f]) && EndsReused(fragments + [f]) == f.reused
  {}

  function TotalLength(fragments: seq<Fragment>): nat {
    if fragments == [] then 0 else TotalLength(fragments[..|fragments| - 1]) + |fragments[|fragments| - 1].data|
  }

  lemma TotalSnoc(fragments: seq<Fragment>, f: Fragment)
    ensures TotalLength(fragments + [f]) == TotalLength(fragments) + |f.data|
  {
    assert (fragments + [f])[..|fragments + [f]| - 1] == fragments;
  }
}
