/** From a block with enough packets to the whole block in order: what recovery and staging achieve. */
module VideoCompletion {
  import opened Systems
  import opened ReedSolomon
  import opened SequenceNumbers
  import opened VideoWindow
  import opened VideoStaging
  import opened VideoRecovery

  function BlockNumber(blocks: U8): nat { blocks / 0x10 % 4 }

  ghost predicate OfBlock(pending: seq<Entry>, frame: U32, block: nat) {
    forall i :: 0 <= i < |pending| ==>
      pending[i].packet.frame == frame && BlockNumber(pending[i].packet.blocks) == block
  }

  /** All ds data packets of the block are there, each once. */
  ghost predicate DataComplete(pending: seq<Entry>, low: U16, ds: nat, frame: U32, block: nat) {
    && ds < WINDOW_LIMIT && Spread(low, pending) && DistinctNumbers(pending)
    && ParityMarked(low, ds, pending) && OfBlock(pending, frame, block) && |DataOf(pending)| == ds
  }

  /** n consecutive data packets of one frame and block, from number low on. */
  ghost predicate WholeBlock(es: seq<Entry>, low: U16, n: nat, frame: U32, block: nat) {
    |es| == n && forall i :: 0 <= i < n ==>
      !es[i].parity && es[i].packet.seqNum == Wrap16(low + i) && es[i].packet.frame == frame &&
        BlockNumber(es[i].packet.blocks) == block
  }

  lemma {:induction false} DataCounted(s: seq<Entry>)
    ensures |DataOf(s)| == DataCount(s)
  {
    if s != [] { DataCounted(s[..|s| - 1]); }
  }

  lemma FitsSpread(pending: seq<Entry>, low: U16, total: nat, size: nat)
    requires Fits(pending, low, total, size) && total <= WINDOW_LIMIT
    ensures Spread(low, pending)
  {
    forall i | 0 <= i < |pending|
      ensures OffsetOf(low, pending[i]) < 0x8000
    {
      assert pending[i] in pending;
    }
  }

  // ----- staging a complete block

  lemma StagedMember(pending: seq<Entry>, done: seq<Entry>, i: nat) returns (k: nat)
    requires multiset(done) == multiset(DataOf(pending)) && i < |done|
    ensures k < |pending| && pending[k] == done[i] && !done[i].parity
  {
    assert done[i] in multiset(done);
    assert done[i] in DataOf(pending);
    DataMembers(pending, done[i]);
    k :| 0 <= k < |pending| && pending[k] == done[i];
  }

  /** Staging turns complete data into the whole block, in order. */
  lemma StagedWhole(pending: seq<Entry>, done: seq<Entry>, low: U16, ds: nat, frame: U32, block: nat)
    requires DataComplete(pending, low, ds, frame, block)
    requires AscendingFrom(low, done) && multiset(done) == multiset(DataOf(pending))
    ensures WholeBlock(done, low, ds, frame, block)
  {
    assert |done| == |multiset(done)| == |multiset(DataOf(pending))| == ds;
    forall i | 0 <= i < ds
      ensures OffsetOf(low, done[i]) < ds
    {
      var k := StagedMember(pending, done, i);
    }
    AscendingIsIdentity(low, done, ds);
    forall i | 0 <= i < ds
      ensures !done[i].parity && done[i].packet.seqNum == Wrap16(low + i) && done[i].packet.frame == frame
      ensures BlockNumber(done[i].packet.blocks) == block
    {
      var k := StagedMember(pending, done, i);
      OffsetBack(low, done[i].packet.seqNum);
    }
  }

  // ----- what the recovered packets add

  lemma BlocksByte(last: nat, cur: nat)
    requires last < 4 && cur < 4
    ensures (last * 4 + cur) * 16 < 256 && BlockNumber((last * 4 + cur) * 16) == cur
  {}

  /** A packet with the place is among those that are not parity. */
  ghost predicate HasPlace(s: seq<Entry>, low: U16, o: nat) {
    exists k :: 0 <= k < |s| && OffsetOf(low, s[k]) == o
  }

  lemma {:induction false} UpTo(n: nat) returns (s: seq<nat>)
    ensures |s| == n && forall i :: 0 <= i < n ==> s[i] == i
  {
    if n == 0 { s := []; } else { var t := UpTo(n - 1); s := t + [n - 1]; }
  }

  /** Distinct packets below place ds that fill every place are ds many. */
  lemma FilledCount(s: seq<Entry>, low: U16, ds: nat)
    requires DistinctNumbers(s) && forall k :: 0 <= k < |s| ==> OffsetOf(low, s[k]) < ds
    requires forall o :: 0 <= o < ds ==> HasPlace(s, low, o)
    ensures |s| == ds
  {
    var offs := Offsets(low, s);
    OffsetsDistinct(low, s);
    Bounded(offs, ds);
    var all := UpTo(ds);
    DistinctSize(all); DistinctSize(offs);
    forall o | o in Elements(all)
      ensures o in Elements(offs)
    {
      assert HasPlace(s, low, o);
      var k :| 0 <= k < |s| && OffsetOf(low, s[k]) == o;
      assert offs[k] == o;
    }
    SubsetSize(Elements(all), Elements(offs));
  }

  /** Every lost data packet passes the checks. */
  ghost predicate AllSane(r: Recovery)
    requires RecoveryOk(r)
  {
    SaneUpTo(r, r.ds)
  }

  ghost predicate SaneUpTo(r: Recovery, n: nat)
    requires RecoveryOk(r)
  {
    forall i :: 0 <= i < n && i < r.ds && r.marks[i] ==> Sane(FlagsOf(r, i), i, r.ds)
  }

  lemma PlaceInJoin(a: seq<Entry>, b: seq<Entry>, low: U16, o: nat)
    ensures HasPlace(a, low, o) || HasPlace(b, low, o) ==> HasPlace(a + b, low, o)
  {
    if HasPlace(a, low, o) {
      var k :| 0 <= k < |a| && OffsetOf(low, a[k]) == o;
      assert OffsetOf(low, (a + b)[k]) == o;
    } else if HasPlace(b, low, o) {
      var k :| 0 <= k < |b| && OffsetOf(low, b[k]) == o;
      assert OffsetOf(low, (a + b)[|a| + k]) == o;
    }
  }

  lemma PlaceFilled(r: Recovery, pending: seq<Entry>, o: nat)
    requires RecoveryOk(r) && |r.bodies| < WINDOW_LIMIT && MarksOf(r.marks, pending, r.low) && AllSane(r) && o < r.ds
    ensures HasPlace(pending + Rebuilds(r, |r.bodies|), r.low, o)
  {
    var rebuilt := Rebuilds(r, |r.bodies|);
    if r.marks[o] {
      RebuildsHave(r, |r.bodies|, o);
      RebuiltPlace(r, o);
      var k :| 0 <= k < |rebuilt| && rebuilt[k] == Rebuilt(r, o);
      assert OffsetOf(r.low, rebuilt[k]) == o;
    } else {
      assert PlacedAt(pending, |pending|, r.low, o);
      var k :| 0 <= k < |pending| && OffsetOf(r.low, pending[k]) == o;
    }
    PlaceInJoin(pending, rebuilt, r.low, o);
  }

  /** What each packet is, after recovery: one that was there, or a rebuilt one. */
  lemma AfterRecovery(r: Recovery, pending: seq<Entry>, k: nat) returns (i: nat)
    requires RecoveryOk(r) && |r.bodies| < WINDOW_LIMIT && k < |pending + Rebuilds(r, |r.bodies|)|
    ensures var e := (pending + Rebuilds(r, |r.bodies|))[k];
      if k < |pending| then e == pending[k]
      else i < |r.bodies| && IsRebuilt(r, i) && e == Rebuilt(r, i) && OffsetOf(r.low, e) == i
  {
    if k < |pending| {
      i := 0;
    } else {
      i := RebuildsFrom(r, |r.bodies|, k - |pending|);
      RebuiltPlace(r, i);
    }
  }

  lemma RecoveredMarks(r: Recovery, pending: seq<Entry>)
    requires RecoveryOk(r) && |r.bodies| < WINDOW_LIMIT
    requires Spread(r.low, pending) && ParityMarked(r.low, r.ds, pending) && OfBlock(pending, r.frame, r.cur)
    ensures var all := pending + Rebuilds(r, |r.bodies|);
      Spread(r.low, all) && ParityMarked(r.low, r.ds, all) && OfBlock(all, r.frame, r.cur)
  {
    var all := pending + Rebuilds(r, |r.bodies|);
    BlocksByte(r.last, r.cur);
    forall k | 0 <= k < |all|
      ensures OffsetOf(r.low, all[k]) < 0x8000 && (all[k].parity <==> OffsetOf(r.low, all[k]) >= r.ds)
      ensures all[k].packet.frame == r.frame && BlockNumber(all[k].packet.blocks) == r.cur
    {
      var i := AfterRecovery(r, pending, k);
    }
  }

  /** Data entries are exactly those below place ds. */
  lemma DataPlaces(all: seq<Entry>, low: U16, ds: nat)
    requires ParityMarked(low, ds, all)
    ensures forall k :: 0 <= k < |DataOf(all)| ==> OffsetOf(low, DataOf(all)[k]) < ds
    ensures forall o :: 0 <= o < ds && HasPlace(all, low, o) ==> HasPlace(DataOf(all), low, o)
  {
    var data := DataOf(all);
    forall k | 0 <= k < |data|
      ensures OffsetOf(low, data[k]) < ds
    {
      DataMembers(all, data[k]);
      var l :| 0 <= l < |all| && all[l] == data[k];
    }
    forall o | 0 <= o < ds && HasPlace(all, low, o)
      ensures HasPlace(data, low, o)
    {
      var l :| 0 <= l < |all| && OffsetOf(low, all[l]) == o;
      DataMembers(all, all[l]);
      var k :| 0 <= k < |data| && data[k] == all[l];
    }
  }

  /** If all lost data packets pass the checks, recovery completes the block. */
  lemma RecoveryCompletes(r: Recovery, pending: seq<Entry>)
    requires RecoveryOk(r) && |r.bodies| < WINDOW_LIMIT && MarksOf(r.marks, pending, r.low) && AllSane(r)
    requires Spread(r.low, pending) && ParityMarked(r.low, r.ds, pending) && OfBlock(pending, r.frame, r.cur)
    requires DistinctNumbers(pending)
    ensures DataComplete(pending + Rebuilds(r, |r.bodies|), r.low, r.ds, r.frame, r.cur)
  {
    var all := pending + Rebuilds(r, |r.bodies|);
    RecoveredMarks(r, pending);
    RebuildsDistinct(r, pending, |r.bodies|);
    DataPlaces(all, r.low, r.ds);
    DataDistinct(all);
    forall o | 0 <= o < r.ds
      ensures HasPlace(DataOf(all), r.low, o)
    {
      PlaceFilled(r, pending, o);
    }
    FilledCount(DataOf(all), r.low, r.ds);
  }

  // ----- contents

  /** In byte column t the data packets are the sender's. */
  ghost predicate DataHonestAt(es: seq<Entry>, low: U16, ds: nat, word: Word, size: nat, t: nat)
    requires Shaped(word, ds, size) && t < size
  {
    forall i :: 0 <= i < |es| && OffsetOf(low, es[i]) < ds && t < |es[i].packet.bytes| ==>
      es[i].packet.bytes[t] == word[OffsetOf(low, es[i])][t]
  }

  /** In byte column t packet i of the block is the sender's packet i. */
  ghost predicate BlockHonestAt(es: seq<Entry>, ds: nat, word: Word, size: nat, t: nat)
    requires |es| == ds && Shaped(word, ds, size) && t < size
  {
    forall i :: 0 <= i < ds && t < |es[i].packet.bytes| ==> es[i].packet.bytes[t] == word[i][t]
  }

  lemma ReceivedHonest(pending: seq<Entry>, low: U16, ds: nat, ps: nat, word: Word, size: nat, t: nat)
    requires Shaped(word, ds, size) && ds + ps <= DATA_SHARDS_MAX && t < size && Fits(pending, low, ds + ps, size)
    requires HonestAt(pending, low, ds, ps, word, size, t)
    ensures DataHonestAt(pending, low, ds, word, size, t)
  {
    forall i | 0 <= i < |pending| && OffsetOf(low, pending[i]) < ds && t < |pending[i].packet.bytes|
      ensures pending[i].packet.bytes[t] == word[OffsetOf(low, pending[i])][t]
    {
      assert pending[i] in pending;
    }
  }

  /** An honest column stays honest through recovery. */
  lemma RecoveredHonest(r: Recovery, pending: seq<Entry>, ps: nat, word: Word, t: nat)
    requires RecoveryOk(r) && |r.bodies| == r.ds + ps <= DATA_SHARDS_MAX
    requires var size := r.packetSize + MAX_RTP_HEADER_SIZE;
      && Shaped(word, r.ds, size) && t < size && Fits(pending, r.low, r.ds + ps, size)
      && HonestAt(pending, r.low, r.ds, ps, word, size, t)
      && ColumnsBack(pending, r.low, r.ds, ps, word, size, r.bodies)
    ensures DataHonestAt(pending + Rebuilds(r, |r.bodies|), r.low, r.ds, word, r.packetSize + MAX_RTP_HEADER_SIZE, t)
  {
    var size, all := r.packetSize + MAX_RTP_HEADER_SIZE, pending + Rebuilds(r, |r.bodies|);
    ReceivedHonest(pending, r.low, r.ds, ps, word, size, t);
    forall k | 0 <= k < |all| && OffsetOf(r.low, all[k]) < r.ds && t < |all[k].packet.bytes|
      ensures all[k].packet.bytes[t] == word[OffsetOf(r.low, all[k])][t]
    {
      var i := AfterRecovery(r, pending, k);
    }
  }

  lemma StagedHonest(pending: seq<Entry>, done: seq<Entry>, low: U16, ds: nat, frame: U32, block: nat, word: Word,
                     size: nat, t: nat)
    requires WholeBlock(done, low, ds, frame, block) && multiset(done) == multiset(DataOf(pending)) && ds < WINDOW_LIMIT
    requires Shaped(word, ds, size) && t < size && DataHonestAt(pending, low, ds, word, size, t)
    ensures BlockHonestAt(done, ds, word, size, t)
  {
    forall i | 0 <= i < ds && t < |done[i].packet.bytes|
      ensures done[i].packet.bytes[t] == word[i][t]
    {
      var k := StagedMember(pending, done, i);
      PlaceOf(low, i);
    }
  }

  lemma PlaceOf(low: U16, i: nat)
    requires i < WINDOW_LIMIT
    ensures Offset(low, Wrap16(low + i)) == i
  {}

  /** The sender's flags pass the checks. */
  ghost predicate SenderSane(word: Word, ds: nat, size: nat, column: nat)
    requires Shaped(word, ds, size) && column < size
  {
    forall i :: 0 <= i < ds ==> Sane(word[i][column], i, ds)
  }

  /** With the column of the flags honest, every recovered packet passes. */
  lemma HonestIsSane(r: Recovery, pending: seq<Entry>, ps: nat, word: Word)
    requires RecoveryOk(r) && |r.bodies| == r.ds + ps <= DATA_SHARDS_MAX
    requires var size, column := r.packetSize + MAX_RTP_HEADER_SIZE, DataOffset(r.head.header) + 8;
      && Shaped(word, r.ds, size) && Fits(pending, r.low, r.ds + ps, size)
      && HonestAt(pending, r.low, r.ds, ps, word, size, column) && SenderSane(word, r.ds, size, column)
      && ColumnsBack(pending, r.low, r.ds, ps, word, size, r.bodies)
    ensures AllSane(r)
  {
    var size, column := r.packetSize + MAX_RTP_HEADER_SIZE, DataOffset(r.head.header) + 8;
    forall i | 0 <= i < r.ds
      ensures FlagsOf(r, i) == word[i][column]
    {}
  }

  // ----- the state of a block, as recovery needs it

  ghost predicate Collected(pending: seq<Entry>, low: U16, ds: nat, ps: nat, frame: U32, block: nat, size: nat) {
    && ds + ps < WINDOW_LIMIT && Fits(pending, low, ds + ps, size)
    && DistinctNumbers(pending) && ParityMarked(low, ds, pending) && OfBlock(pending, frame, block)
  }

  /** In byte column t all packets are the sender's, data and parity. */
  ghost predicate ColumnHonest(pending: seq<Entry>, low: U16, ds: nat, ps: nat, word: Word, size: nat, t: nat) {
    && Shaped(word, ds, size) && ds + ps <= DATA_SHARDS_MAX && t < size && Fits(pending, low, ds + ps, size)
    && HonestAt(pending, low, ds, ps, word, size, t)
  }

  /** Every column that was honest before holds the sender's data now. */
  ghost predicate StaysHonest(before: seq<Entry>, after: seq<Entry>, low: U16, ds: nat, ps: nat, word: Word, size: nat)
    requires Shaped(word, ds, size)
  {
    forall t :: 0 <= t < size && ColumnHonest(before, low, ds, ps, word, size, t) ==>
      DataHonestAt(after, low, ds, word, size, t)
  }

  /** The flags of the sender's packets, in an honest column, pass the checks. */
  ghost predicate FlagsHonest(pending: seq<Entry>, low: U16, ds: nat, ps: nat, word: Word, size: nat)
    requires pending != []
  {
    var column := DataOffset(pending[0].packet.header) + 8;
    ColumnHonest(pending, low, ds, ps, word, size, column) && SenderSane(word, ds, size, column)
  }

  lemma CollectedSpread(pending: seq<Entry>, low: U16, ds: nat, ps: nat, frame: U32, block: nat, size: nat)
    requires Collected(pending, low, ds, ps, frame, block, size)
    ensures Spread(low, pending)
  {
    FitsSpread(pending, low, ds + ps, size);
  }

  /** All there is to say about the packets after recovery. */
  lemma RecoveryResult(r: Recovery, pending: seq<Entry>, ps: nat, word: Word)
    requires RecoveryOk(r) && |r.bodies| == r.ds + ps <= DATA_SHARDS_MAX && pending != [] && r.head == pending[0].packet
    requires Collected(pending, r.low, r.ds, ps, r.frame, r.cur, r.packetSize + MAX_RTP_HEADER_SIZE)
    requires MarksOf(r.marks, pending, r.low) && Shaped(word, r.ds, r.packetSize + MAX_RTP_HEADER_SIZE)
    requires ColumnsBack(pending, r.low, r.ds, ps, word, r.packetSize + MAX_RTP_HEADER_SIZE, r.bodies)
    ensures AllSane(r) ==> DataComplete(pending + Rebuilds(r, |r.bodies|), r.low, r.ds, r.frame, r.cur)
    ensures StaysHonest(pending, pending + Rebuilds(r, |r.bodies|), r.low, r.ds, ps, word,
                        r.packetSize + MAX_RTP_HEADER_SIZE)
    ensures FlagsHonest(pending, r.low, r.ds, ps, word, r.packetSize + MAX_RTP_HEADER_SIZE) ==> AllSane(r)
  {
    var size := r.packetSize + MAX_RTP_HEADER_SIZE;
    CollectedSpread(pending, r.low, r.ds, ps, r.frame, r.cur, size);
    if AllSane(r) { RecoveryCompletes(r, pending); }
    forall t | 0 <= t < size && ColumnHonest(pending, r.low, r.ds, ps, word, size, t)
      ensures DataHonestAt(pending + Rebuilds(r, |r.bodies|), r.low, r.ds, word, size, t)
    {
      RecoveredHonest(r, pending, ps, word, t);
    }
    if FlagsHonest(pending, r.low, r.ds, ps, word, size) { HonestIsSane(r, pending, ps, word); }
  }

  lemma UnchangedHonest(pending: seq<Entry>, low: U16, ds: nat, ps: nat, word: Word, size: nat)
    requires Shaped(word, ds, size)
    ensures StaysHonest(pending, pending, low, ds, ps, word, size)
  {
    forall t | 0 <= t < size && ColumnHonest(pending, low, ds, ps, word, size, t)
      ensures DataHonestAt(pending, low, ds, word, size, t)
    {
      ReceivedHonest(pending, low, ds, ps, word, size, t);
    }
  }

  lemma {:induction false} DataCountSome(pending: seq<Entry>, low: U16, ds: nat)
    requires ParityMarked(low, ds, pending)
    ensures DataCount(pending) > 0 <==> SomeData(pending, low, ds)
  {
    if pending != [] {
      var front, last := pending[..|pending| - 1], pending[|pending| - 1];
      DataCountSome(front, low, ds);
      if SomeData(pending, low, ds) {
        var e :| e in pending && OffsetOf(low, e) < ds;
        assert e == last || e in front;
      } else {
        assert last in pending && forall e :: e in front ==> e in pending;
      }
    }
  }

  /** What holds of a block while its packets are collected. */
  ghost predicate CollectingOk(w: Window, frame: U32, block: nat, size: nat) {
    WindowInv(w) && OfBlock(w.pending, frame, block) && Fits(w.pending, w.low, w.data + w.parity, size)
  }

  lemma CollectedOf(w: Window, frame: U32, block: nat, size: nat)
    requires CollectingOk(w, frame, block, size)
    ensures Collected(w.pending, w.low, w.data, w.parity, frame, block, size)
    ensures w.receivedData > 0 <==> SomeData(w.pending, w.low, w.data)
    ensures w.receivedData == w.data ==> DataComplete(w.pending, w.low, w.data, frame, block)
  {
    DataCountSome(w.pending, w.low, w.data);
    DataCounted(w.pending);
    CollectedSpread(w.pending, w.low, w.data, w.parity, frame, block, size);
  }

  /** On the fast path enough packets are all data packets. */
  lemma FastNeedsNoRecovery(w: Window)
    requires WindowInv(w) && w.fast && |w.pending| >= w.data
    ensures w.receivedData == w.data
  {
    DataPlaces(w.pending, w.low, w.data);
    DataDistinct(w.pending);
    forall o | 0 <= o < w.data
      ensures HasPlace(DataOf(w.pending), w.low, o)
    {
      assert OffsetOf(w.low, w.pending[o]) == o;
    }
    FilledCount(DataOf(w.pending), w.low, w.data);
    DataCounted(w.pending);
  }

  lemma NothingCollected(low: U16, data: nat, parity: nat, frame: U32, block: nat, size: nat)
    requires data + parity < WINDOW_LIMIT
    ensures CollectingOk(EmptyWindow(low, data, parity), frame, block, size)
  {
    EmptyInv(low, data, parity);
  }

  /** A packet that fits into the block being collected. */
  ghost predicate FitsBlock(w: Window, e: Entry, frame: U32, block: nat, size: nat) {
    && InWindow(w, e.packet.seqNum) && (e.parity <==> !IsBefore16(e.packet.seqNum, FirstParityOf(w)))
    && e.packet.frame == frame && BlockNumber(e.packet.blocks) == block && |e.packet.bytes| <= size
  }

  /** The block with one more accepted packet. */
  lemma OneMore(w: Window, e: Entry, frame: U32, block: nat, size: nat)
    requires CollectingOk(w, frame, block, size) && FitsBlock(w, e, frame, block, size)
    requires !Duplicate(w.pending, e.packet.seqNum)
    ensures CollectingOk(Enqueued(w, e), frame, block, size)
  {
    EnqueuedInv(w, e);
    WindowExact(w, e.packet.seqNum);
    FitsSnoc(w.pending, e, w.low, w.data + w.parity, size);
  }

  lemma FitsSnoc(pending: seq<Entry>, e: Entry, low: U16, total: nat, size: nat)
    requires Fits(pending, low, total, size) && |e.packet.bytes| <= size && OffsetOf(low, e) < total
    ensures Fits(pending + [e], low, total, size)
  {
    assert forall x :: x in pending + [e] ==> x == e || x in pending;
  }

  /** The word if it has the block's shape, else one that has. */
  ghost function OfShape(word: Word, ds: nat, size: nat): (w: Word)
    ensures Shaped(w, ds, size) && (Shaped(word, ds, size) ==> w == word)
  {
    if Shaped(word, ds, size) then word else seq(ds, i => seq(size, t => 0))
  }

  /** Every column that was honest before is the sender's in the staged block. */
  ghost predicate StagedFaithful(before: seq<Entry>, done: seq<Entry>, low: U16, ds: nat, ps: nat, word: Word,
                                 size: nat)
    requires |done| == ds
  {
    forall t :: 0 <= t < size && ColumnHonest(before, low, ds, ps, word, size, t) ==>
      BlockHonestAt(done, ds, word, size, t)
  }

  lemma FaithfulBlock(before: seq<Entry>, after: seq<Entry>, done: seq<Entry>, low: U16, ds: nat, ps: nat,
                      frame: U32, block: nat, word: Word, size: nat)
    requires ds < WINDOW_LIMIT && WholeBlock(done, low, ds, frame, block) && multiset(done) == multiset(DataOf(after))
    requires StaysHonest(before, after, low, ds, ps, OfShape(word, ds, size), size)
    ensures StagedFaithful(before, done, low, ds, ps, word, size)
  {
    forall t | 0 <= t < size && ColumnHonest(before, low, ds, ps, word, size, t)
      ensures BlockHonestAt(done, ds, word, size, t)
    {
      StagedHonest(after, done, low, ds, frame, block, word, size, t);
    }
  }

  /** The received data packets are delivered as they came, each in its place, and, if all had come, nothing
      else is. */
  ghost predicate AsReceived(received: seq<Entry>, low: U16, allData: bool, done: seq<Entry>) {
    && (forall k :: 0 <= k < |received| && !received[k].parity ==> IsAt(done, OffsetOf(low, received[k]), received[k]))
    && (allData ==> forall i :: 0 <= i < |done| ==> IsAmong(received, done[i]))
  }

  predicate IsAt(es: seq<Entry>, i: nat, e: Entry) {
    i < |es| && es[i] == e
  }

  ghost predicate IsAmong(es: seq<Entry>, e: Entry) {
    exists k :: 0 <= k < |es| && es[k] == e
  }

  lemma StagedInPlace(after: seq<Entry>, done: seq<Entry>, low: U16, frame: U32, block: nat, k: nat)
    requires WholeBlock(done, low, |done|, frame, block) && |done| < WINDOW_LIMIT
    requires multiset(done) == multiset(DataOf(after))
    requires k < |after| && !after[k].parity
    ensures IsAt(done, OffsetOf(low, after[k]), after[k])
  {
    DataMembers(after, after[k]);
    assert after[k] in multiset(DataOf(after));
    assert after[k] in multiset(done);
    var i :| 0 <= i < |done| && done[i] == after[k];
    PlaceOf(low, i);
  }

  lemma StagedAsReceived(received: seq<Entry>, after: seq<Entry>, allData: bool, done: seq<Entry>, low: U16, frame: U32,
                         block: nat)
    requires received <= after && (allData ==> after == received) && multiset(done) == multiset(DataOf(after))
    requires WholeBlock(done, low, |done|, frame, block) && |done| < WINDOW_LIMIT
    ensures AsReceived(received, low, allData, done)
  {
    forall k | 0 <= k < |received| && !received[k].parity
      ensures IsAt(done, OffsetOf(low, received[k]), received[k])
    {
      assert received[k] == after[k];
      StagedInPlace(after, done, low, frame, block, k);
    }
    forall i | allData && 0 <= i < |done|
      ensures IsAmong(received, done[i])
    {
      var k := StagedMember(after, done, i);
    }
  }

  /** What staging makes of a complete block: the whole block, with everything received and every honest
      column in it. */
  lemma StagedResult(received: seq<Entry>, after: seq<Entry>, allData: bool, done: seq<Entry>, low: U16, ds: nat,
                     ps: nat,
                     frame: U32, block: nat, word: Word, size: nat)
    requires DataComplete(after, low, ds, frame, block) && AscendingFrom(low, done)
    requires multiset(done) == multiset(DataOf(after))
    requires received <= after && (allData ==> after == received)
    requires StaysHonest(received, after, low, ds, ps, OfShape(word, ds, size), size)
    ensures WholeBlock(done, low, ds, frame, block) && AsReceived(received, low, allData, done)
    ensures StagedFaithful(received, done, low, ds, ps, word, size)
  {
    StagedWhole(after, done, low, ds, frame, block);
    StagedAsReceived(received, after, allData, done, low, frame, block);
    FaithfulBlock(received, after, done, low, ds, ps, frame, block, word, size);
  }

  // ----- the block as the packets have made it

  /** The block can come about: packets that were new and fitted, taken in one after the other. */
  ghost predicate Reached(w: Window, frame: U32, block: nat, size: nat)
    decreases |w.pending|, 1
  {
    ReachedStep(w, frame, block, size)
  }

  ghost predicate ReachedStep(w: Window, frame: U32, block: nat, size: nat)
    decreases |w.pending|, 0
  {
    if w.pending == [] then w == EmptyWindow(w.low, w.data, w.parity) && w.data + w.parity < WINDOW_LIMIT
    else exists b: Window, e: Entry :: TakenIn(b, e, w, frame, block, size) && Reached(b, frame, block, size)
  }

  ghost predicate TakenIn(b: Window, e: Entry, w: Window, frame: U32, block: nat, size: nat) {
    |b.pending| < |w.pending| && FitsBlock(b, e, frame, block, size) && !Duplicate(b.pending, e.packet.seqNum) &&
      w == Enqueued(b, e)
  }

  /** The bounds kept beside the block. */
  ghost predicate Edges(w: Window, parityStart: U16, last: U16) {
    parityStart == FirstParityOf(w) && last == LastOf(w)
  }

  /** In every run, the invariant of the window holds. */
  lemma {:induction false} ReachedKeeps(w: Window, frame: U32, block: nat, size: nat)
    requires Reached(w, frame, block, size)
    ensures CollectingOk(w, frame, block, size)
    decreases |w.pending|
  {
    assert ReachedStep(w, frame, block, size);
    if w.pending == [] {
      NothingCollected(w.low, w.data, w.parity, frame, block, size);
    } else {
      var b, e :| TakenIn(b, e, w, frame, block, size) && Reached(b, frame, block, size);
      ReachedKeeps(b, frame, block, size);
      OneMore(b, e, frame, block, size);
    }
  }

  /** What reconstruction needs to know of a block with enough packets. */
  lemma ReachedCollected(w: Window, frame: U32, block: nat, size: nat)
    requires Reached(w, frame, block, size) && |w.pending| >= w.data
    ensures Collected(w.pending, w.low, w.data, w.parity, frame, block, size)
    ensures (w.receivedData > 0 <==> SomeData(w.pending, w.low, w.data)) && (w.fast ==> w.receivedData == w.data)
    ensures w.receivedData == w.data ==> DataComplete(w.pending, w.low, w.data, frame, block)
  {
    ReachedKeeps(w, frame, block, size);
    CollectedOf(w, frame, block, size);
    if w.fast { FastNeedsNoRecovery(w); }
  }

  lemma ReachedFirst(low: U16, data: nat, parity: nat, frame: U32, block: nat, size: nat)
    requires data + parity < WINDOW_LIMIT
    ensures Reached(EmptyWindow(low, data, parity), frame, block, size)
  {
    assert ReachedStep(EmptyWindow(low, data, parity), frame, block, size);
  }

  lemma ReachedNext(w: Window, e: Entry, frame: U32, block: nat, size: nat)
    requires Reached(w, frame, block, size) && FitsBlock(w, e, frame, block, size)
    ensures w.fast && e.packet.seqNum == w.next ==> !Duplicate(w.pending, e.packet.seqNum)
    ensures !Duplicate(w.pending, e.packet.seqNum) ==> Reached(Enqueued(w, e), frame, block, size)
  {
    ReachedKeeps(w, frame, block, size);
    FastIsNew(w, e.packet.seqNum);
    if !Duplicate(w.pending, e.packet.seqNum) {
      assert TakenIn(w, e, Enqueued(w, e), frame, block, size);
      assert ReachedStep(Enqueued(w, e), frame, block, size);
    }
  }

  lemma EdgesStay(w: Window, e: Entry, parityStart: U16, last: U16)
    requires Edges(w, parityStart, last)
    ensures Edges(Enqueued(w, e), parityStart, last)
  {
    SameBounds(w, e);
  }
}
