/** The bookkeeping of one FEC block of the video queue: which sequence numbers it accepts, what it
    counts, and when it must give the block up. */
module VideoWindow {
  import opened Gf256
  import opened SequenceNumbers

  datatype Packet = Packet(seqNum: U16, header: U8, timestamp: U32, ssrc: U32, frame: U32, blocks: U8, bytes: seq<Byte>)

  datatype Entry = Entry(packet: Packet, parity: bool)

  /** The state of the block: low is its first sequence number, next the one that continues what came in
      order, highest the last one received, and missing the number of holes below that. */
  datatype Window = Window(low: U16, data: nat, parity: nat, next: U16, fast: bool, pending: seq<Entry>,
                           receivedData: nat, receivedParity: nat, highest: U16, missing: int)

  const WINDOW_LIMIT := 0x4000

  function Offset(low: U16, x: int): U16 { Wrap16(x - low) }

  function OffsetOf(low: U16, e: Entry): U16 { Offset(low, e.packet.seqNum) }

  /** The last sequence number of the block. */
  function LastOf(w: Window): U16 { Wrap16(w.low + w.data + w.parity - 1) }

  function FirstParityOf(w: Window): U16 { Wrap16(w.low + w.data) }

  function EmptyWindow(low: U16, data: nat, parity: nat): Window {
    Window(low, data, parity, low, true, [], 0, 0, 0, 0)
  }

  function DataCount(pending: seq<Entry>): nat {
    if pending == [] then 0
    else DataCount(pending[..|pending| - 1]) + if pending[|pending| - 1].parity then 0 else 1
  }

  // ----- what holds at all times

  /** The first c packets are numbers 0 to c - 1 of the block; the others come later in it. */
  ghost predicate Placed(low: U16, total: nat, c: nat, pending: seq<Entry>) {
    && c <= |pending| && c <= total
    && (forall i :: 0 <= i < c ==> OffsetOf(low, pending[i]) == i)
    && (forall i :: c <= i < |pending| ==> c <= OffsetOf(low, pending[i]) < total)
  }

  ghost predicate DistinctNumbers(pending: seq<Entry>) {
    forall i, j :: 0 <= i < j < |pending| ==> pending[i].packet.seqNum != pending[j].packet.seqNum
  }

  ghost predicate ParityMarked(low: U16, data: nat, pending: seq<Entry>) {
    forall i :: 0 <= i < |pending| ==> (pending[i].parity <==> OffsetOf(low, pending[i]) >= data)
  }

  ghost predicate IsHighest(low: U16, highest: U16, pending: seq<Entry>) {
    && (exists i :: 0 <= i < |pending| && pending[i].packet.seqNum == highest)
    && forall i :: 0 <= i < |pending| ==> OffsetOf(low, pending[i]) <= Offset(low, highest)
  }

  ghost predicate CountsOk(w: Window) {
    && w.receivedData == DataCount(w.pending) && w.receivedData + w.receivedParity == |w.pending|
    && (if w.pending == [] then w.missing == 0
        else IsHighest(w.low, w.highest, w.pending) && w.missing == Offset(w.low, w.highest) + 1 - |w.pending|)
  }

  ghost predicate WindowInv(w: Window) {
    && w.data + w.parity < WINDOW_LIMIT
    && Placed(w.low, w.data + w.parity, Offset(w.low, w.next), w.pending)
    && DistinctNumbers(w.pending) && ParityMarked(w.low, w.data, w.pending)
    && (w.fast ==> Offset(w.low, w.next) == |w.pending|)
    && CountsOk(w)
  }

  lemma EmptyInv(low: U16, data: nat, parity: nat)
    requires data + parity < WINDOW_LIMIT
    ensures WindowInv(EmptyWindow(low, data, parity))
  {}

  // ----- which packets are accepted

  /** The two comparisons a packet must pass. */
  predicate InWindow(w: Window, seqNum: U16) {
    !IsBefore16(seqNum, w.next) && !IsBefore16(LastOf(w), seqNum)
  }

  predicate Duplicate(pending: seq<Entry>, seqNum: U16) {
    exists i :: 0 <= i < |pending| && pending[i].packet.seqNum == seqNum
  }

  lemma {:induction false} Bounded(offs: seq<nat>, total: nat)
    requires forall i :: 0 <= i < |offs| ==> offs[i] < total
    requires forall i, j :: 0 <= i < j < |offs| ==> offs[i] != offs[j]
    ensures |offs| <= total
    decreases total
  {
    if offs != [] {
      assert offs[0] < total;
      var last: nat := total - 1;
      if k :| 0 <= k < |offs| && offs[k] == last {
        var rest := offs[..k] + offs[k + 1..];
        forall i | 0 <= i < |rest|
          ensures rest[i] < last
        {
          assert rest[i] == if i < k then offs[i] else offs[i + 1];
        }
        forall i, j | 0 <= i < j < |rest|
          ensures rest[i] != rest[j]
        {
          assert rest[i] == if i < k then offs[i] else offs[i + 1];
          assert rest[j] == if j < k then offs[j] else offs[j + 1];
        }
        Bounded(rest, last);
      } else {
        Bounded(offs, last);
      }
    }
  }

  function Offsets(low: U16, pending: seq<Entry>): (offs: seq<nat>)
    ensures |offs| == |pending| && forall i :: 0 <= i < |pending| ==> offs[i] == OffsetOf(low, pending[i])
  {
    seq(|pending|, i requires 0 <= i < |pending| => OffsetOf(low, pending[i]))
  }

  lemma OffsetsDistinct(low: U16, pending: seq<Entry>)
    requires DistinctNumbers(pending)
    ensures var offs := Offsets(low, pending); forall i, j :: 0 <= i < j < |offs| ==> offs[i] != offs[j]
  {
    var offs := Offsets(low, pending);
    forall i, j | 0 <= i < j < |offs|
      ensures offs[i] != offs[j]
    {
      DistanceInjective(low, pending[i].packet.seqNum, pending[j].packet.seqNum);
    }
  }

  lemma PlacedBound(w: Window)
    requires WindowInv(w)
    ensures |w.pending| <= w.data + w.parity
  {
    var offs := Offsets(w.low, w.pending);
    OffsetsDistinct(w.low, w.pending);
    Bounded(offs, w.data + w.parity);
  }

  /** In spite of wrapping numbers, the comparisons accept exactly the places from the next one in order
      to the end of the block. */
  lemma WindowExact(w: Window, seqNum: U16)
    requires WindowInv(w)
    ensures InWindow(w, seqNum) <==> Offset(w.low, w.next) <= Offset(w.low, seqNum) < w.data + w.parity
  {
    WindowCompares(w.low, w.next, seqNum, w.data + w.parity);
  }

  lemma WindowCompares(low: U16, next: U16, seqNum: U16, total: nat)
    requires total < WINDOW_LIMIT && Offset(low, next) <= total
    ensures !IsBefore16(seqNum, next) && !IsBefore16(Wrap16(low + total - 1), seqNum) <==>
      Offset(low, next) <= Offset(low, seqNum) < total
  {}

  /** On the fast path the packets held are exactly those from the first to the one before next. */
  lemma FastIsContiguous(w: Window, i: nat)
    requires WindowInv(w) && w.fast && i < |w.pending|
    ensures w.pending[i].packet.seqNum == Wrap16(w.low + i)
    ensures w.next == Wrap16(w.low + |w.pending|)
  {
    assert OffsetOf(w.low, w.pending[i]) == i;
    OffsetBack(w.low, w.pending[i].packet.seqNum);
    OffsetBack(w.low, w.next);
  }

  /** On the fast path the next number in order cannot be a duplicate. */
  lemma FastIsNew(w: Window, seqNum: U16)
    requires WindowInv(w)
    ensures w.fast && seqNum == w.next ==> !Duplicate(w.pending, seqNum)
  {}

  lemma OffsetBack(low: U16, x: U16)
    ensures Wrap16(low + Offset(low, x)) == x
  {}

  // ----- taking a packet in

  /** The highest number after packet seqNum, the n-th of the block. */
  function HighestAfter(highest: U16, n: nat, seqNum: U16): U16 {
    if n == 1 || IsBefore16(highest, seqNum) then seqNum else highest
  }

  /** The number of holes below the highest number after that packet. */
  function MissingAfter(missing: int, low: U16, highest: U16, n: nat, seqNum: U16): int {
    if n == 1 then missing + Wrap16(seqNum - low)
    else if IsBefore16(highest, seqNum) then missing + Wrap16(seqNum - highest - 1)
    else missing - 1
  }

  function NextAfter(next: U16, fast: bool, seqNum: U16): U16 {
    if fast then Wrap16(seqNum + 1) else next
  }

  /** queuePacket and the counting that follows it, for a packet that is accepted. */
  function Enqueued(w: Window, e: Entry): Window {
    var seqNum, n := e.packet.seqNum, |w.pending + [e]|;
    var fast := w.fast && seqNum == w.next;
    var isData := IsBefore16(seqNum, FirstParityOf(w));
    Window(w.low, w.data, w.parity, NextAfter(w.next, fast, seqNum), fast, w.pending + [e],
           w.receivedData + if isData then 1 else 0, w.receivedParity + if isData then 0 else 1,
           HighestAfter(w.highest, n, seqNum), MissingAfter(w.missing, w.low, w.highest, n, seqNum))
  }

  lemma SameBounds(w: Window, e: Entry)
    ensures LastOf(Enqueued(w, e)) == LastOf(w) && FirstParityOf(Enqueued(w, e)) == FirstParityOf(w)
    ensures Enqueued(w, e).pending != []
  {}

  lemma IsEnqueued(w: Window, e: Entry, w': Window)
    requires w'.low == w.low && w'.data == w.data && w'.parity == w.parity && w'.pending == w.pending + [e]
    requires w'.fast == (w.fast && e.packet.seqNum == w.next) && w'.next == NextAfter(w.next, w'.fast, e.packet.seqNum)
    requires w'.highest == HighestAfter(w.highest, |w'.pending|, e.packet.seqNum)
    requires w'.missing == MissingAfter(w.missing, w.low, w.highest, |w'.pending|, e.packet.seqNum)
    requires w'.receivedData == w.receivedData + if IsBefore16(e.packet.seqNum, FirstParityOf(w)) then 1 else 0
    requires w'.receivedParity == w.receivedParity + if IsBefore16(e.packet.seqNum, FirstParityOf(w)) then 0 else 1
    ensures w' == Enqueued(w, e)
  {}

  lemma ComparesInBlock(low: U16, x: U16, y: U16)
    requires Offset(low, x) < WINDOW_LIMIT && Offset(low, y) < WINDOW_LIMIT
    ensures IsBefore16(x, y) <==> Offset(low, x) < Offset(low, y)
    ensures Offset(low, x) < Offset(low, y) ==> Wrap16(y - x - 1) == Offset(low, y) - Offset(low, x) - 1
  {
    BeforeInWindow(low, x, y);
  }

  lemma OffsetOfParity(low: U16, data: nat)
    requires data < WINDOW_LIMIT
    ensures Offset(low, Wrap16(low + data)) == data
  {}

  lemma NextOffset(low: U16, x: U16)
    requires Offset(low, x) < 0x8000
    ensures Offset(low, Wrap16(x + 1)) == Offset(low, x) + 1
  {}

  lemma EnqueuedPlaced(w: Window, e: Entry)
    requires WindowInv(w) && InWindow(w, e.packet.seqNum) && !Duplicate(w.pending, e.packet.seqNum)
    ensures var w' := Enqueued(w, e);
      && Placed(w.low, w.data + w.parity, Offset(w.low, w'.next), w'.pending) && DistinctNumbers(w'.pending)
      && (w'.fast ==> Offset(w.low, w'.next) == |w'.pending|)
  {
    WindowExact(w, e.packet.seqNum);
    NextOffset(w.low, e.packet.seqNum);
  }

  lemma EnqueuedMarks(w: Window, e: Entry)
    requires WindowInv(w) && InWindow(w, e.packet.seqNum)
    requires e.parity <==> !IsBefore16(e.packet.seqNum, FirstParityOf(w))
    ensures ParityMarked(w.low, w.data, w.pending + [e])
    ensures DataCount(w.pending + [e]) == DataCount(w.pending) + if e.parity then 0 else 1
  {
    WindowExact(w, e.packet.seqNum);
    OffsetOfParity(w.low, w.data);
    ComparesInBlock(w.low, e.packet.seqNum, FirstParityOf(w));
    assert (w.pending + [e])[..|w.pending + [e]| - 1] == w.pending;
  }

  lemma EnqueuedCounts(w: Window, e: Entry)
    requires WindowInv(w) && InWindow(w, e.packet.seqNum)
    requires e.parity <==> !IsBefore16(e.packet.seqNum, FirstParityOf(w))
    ensures CountsOk(Enqueued(w, e)) && ParityMarked(w.low, w.data, Enqueued(w, e).pending)
  {
    EnqueuedMarks(w, e);
    if w.pending == [] {
      assert w.pending + [e] == [e];
    } else {
      EnqueuedHighest(w, e);
    }
  }

  lemma EnqueuedHighest(w: Window, e: Entry)
    requires WindowInv(w) && InWindow(w, e.packet.seqNum) && w.pending != []
    ensures var w' := Enqueued(w, e);
      IsHighest(w.low, w'.highest, w'.pending) && w'.missing == Offset(w.low, w'.highest) + 1 - |w'.pending|
  {
    WindowExact(w, e.packet.seqNum);
    var k :| 0 <= k < |w.pending| && w.pending[k].packet.seqNum == w.highest;
    assert OffsetOf(w.low, w.pending[k]) < WINDOW_LIMIT;
    ComparesInBlock(w.low, w.highest, e.packet.seqNum);
    HighestJoins(w.low, w.highest, w.pending, e);
  }

  lemma HighestJoins(low: U16, highest: U16, pending: seq<Entry>, e: Entry)
    requires IsHighest(low, highest, pending)
    ensures OffsetOf(low, e) <= Offset(low, highest) ==> IsHighest(low, highest, pending + [e])
    ensures OffsetOf(low, e) >= Offset(low, highest) ==> IsHighest(low, e.packet.seqNum, pending + [e])
  {
    var k :| 0 <= k < |pending| && pending[k].packet.seqNum == highest;
    assert (pending + [e])[k] == pending[k] && (pending + [e])[|pending|] == e;
  }

  /** Taking in an accepted packet keeps everything. */
  lemma EnqueuedInv(w: Window, e: Entry)
    requires WindowInv(w) && InWindow(w, e.packet.seqNum) && !Duplicate(w.pending, e.packet.seqNum)
    requires e.parity <==> !IsBefore16(e.packet.seqNum, FirstParityOf(w))
    ensures WindowInv(Enqueued(w, e))
  {
    EnqueuedPlaced(w, e);
    EnqueuedCounts(w, e);
  }

  // ----- predicting that a block is lost

  /** The numbers from lo to hi - 1. */
  function Interval(lo: nat, hi: nat): (s: set<nat>)
    ensures forall o: nat :: o in s <==> lo <= o < hi
    ensures |s| == if lo <= hi then hi - lo else 0
    decreases hi - lo
  {
    if lo >= hi then {} else {lo} + Interval(lo + 1, hi)
  }

  /** The places in the block above everything received. */
  function AboveHighest(w: Window): set<nat> {
    Interval(Offset(w.low, w.highest) + 1, w.data + w.parity)
  }

  /** With fewer packets than needed, more holes than parity packets means exactly that no set of packets
      above the highest received could still complete the block. */
  lemma PredictionExact(w: Window)
    requires WindowInv(w) && w.pending != [] && |w.pending| < w.data
    ensures w.missing > w.parity <==> forall s: set<nat> :: s <= AboveHighest(w) ==> |w.pending| + |s| < w.data
  {
    var above := AboveHighest(w);
    var k :| 0 <= k < |w.pending| && w.pending[k].packet.seqNum == w.highest;
    assert OffsetOf(w.low, w.pending[k]) < w.data + w.parity;
    forall s: set<nat> | s <= above
      ensures |s| <= |above|
    {
      SubsetSize(s, above);
    }
    if w.missing <= w.parity {
      assert above <= above && |w.pending| + |above| >= w.data;
    }
  }

  lemma {:induction false} SubsetSize(s: set<nat>, t: set<nat>)
    requires s <= t
    ensures |s| <= |t|
    decreases s
  {
    if x :| x in s { SubsetSize(s - {x}, t - {x}); }
  }
}
