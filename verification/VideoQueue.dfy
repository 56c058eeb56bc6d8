/** The video receive queue of RtpVideoQueue.c: FEC blocks are collected, completed, put in order, and
    passed on to the depacketizer frame by frame. */
module VideoQueue {
  import opened Oblas
  import opened Elimination
  import opened Systems
  import opened ReedSolomon
  import opened SequenceNumbers
  import opened VideoWindow
  import opened VideoStaging
  import opened VideoRecovery
  import opened VideoCompletion

  const COOLDOWN_US := 300_000_000

  /** A packet as it arrives, with the fecInfo word of its video header. */
  datatype Incoming = Incoming(packet: Packet, fecInfo: U32)

  /** A report that a frame is lost; early tells whether it is a prediction. */
  datatype Loss = Loss(frame: U32, early: bool)

  /** A frame as the depacketizer gets it. */
  datatype Frame = Frame(number: U32, blocks: seq<seq<Entry>>)

  function FecDataPackets(fecInfo: U32): nat { fecInfo / 0x40_0000 }

  function FecIndex(fecInfo: U32): nat { fecInfo / 0x1000 % 0x400 }

  function FecPercentage(fecInfo: U32): nat { fecInfo / 0x10 % 0x100 }

  function FecParityPackets(fecInfo: U32): nat {
    (FecDataPackets(fecInfo) * FecPercentage(fecInfo) + 99) / 100
  }

  function LastBlockNumber(blocks: U8): nat { blocks / 0x40 }

  function PresentationTime(timestamp: U32): nat { timestamp * 1000 / 90 }

  lemma ShapeBound(fecInfo: U32)
    ensures FecDataPackets(fecInfo) + FecParityPackets(fecInfo) < WINDOW_LIMIT
  {
    var d, p := FecDataPackets(fecInfo), FecPercentage(fecInfo);
    assert d <= 1023 && p <= 255;
    assert d * p <= 1023 * 255 by { Product(d, p); }
  }

  lemma Product(d: nat, p: nat)
    requires d <= 1023 && p <= 255
    ensures d * p <= 1023 * 255
  {
    assert d * p <= 1023 * p <= 1023 * 255;
  }

  // ----- whole blocks and frames

  ghost predicate SomeWholeBlock(es: seq<Entry>, frame: U32, block: nat) {
    exists low: U16 :: WholeBlock(es, low, |es|, frame, block)
  }

  /** Blocks 0, 1, 2, ... of the frame. */
  ghost predicate BlocksInOrder(blocks: seq<seq<Entry>>, frame: U32) {
    forall k :: 0 <= k < |blocks| ==> SomeWholeBlock(blocks[k], frame, k)
  }

  ghost function Flat(blocks: seq<seq<Entry>>): seq<Entry> {
    if blocks == [] then [] else Flat(blocks[..|blocks| - 1]) + blocks[|blocks| - 1]
  }

  lemma FlatSnoc(blocks: seq<seq<Entry>>, es: seq<Entry>)
    ensures Flat(blocks + [es]) == Flat(blocks) + es
  {
    assert (blocks + [es])[..|blocks + [es]| - 1] == blocks;
  }

  ghost function FlatFrames(frames: seq<Frame>): seq<Entry> {
    if frames == [] then [] else FlatFrames(frames[..|frames| - 1]) + Flat(frames[|frames| - 1].blocks)
  }

  lemma FlatFramesSnoc(frames: seq<Frame>, f: Frame)
    ensures FlatFrames(frames + [f]) == FlatFrames(frames) + Flat(f.blocks)
  {
    assert (frames + [f])[..|frames + [f]| - 1] == frames;
  }

  ghost predicate WholeFrames(frames: seq<Frame>) {
    forall i :: 0 <= i < |frames| ==> frames[i].blocks != [] && BlocksInOrder(frames[i].blocks, frames[i].number)
  }

  /** The list holds the blocks, in order. */
  ghost predicate StagedOk(completed: seq<Entry>, staged: seq<seq<Entry>>, frame: U32) {
    completed == Flat(staged) && BlocksInOrder(staged, frame)
  }

  /** Only the packets of whole frames have been submitted. */
  ghost predicate FramesOk(submitted: seq<Entry>, frames: seq<Frame>) {
    submitted == FlatFrames(frames) && WholeFrames(frames)
  }

  lemma StagedOneMore(completed: seq<Entry>, staged: seq<seq<Entry>>, es: seq<Entry>, low: U16, frame: U32)
    requires StagedOk(completed, staged, frame) && WholeBlock(es, low, |es|, frame, |staged|)
    ensures StagedOk(completed + es, staged + [es], frame)
  {
    FlatSnoc(staged, es);
    assert SomeWholeBlock(es, frame, |staged|);
  }

  lemma SubmittedOneMore(submitted: seq<Entry>, frames: seq<Frame>, completed: seq<Entry>, staged: seq<seq<Entry>>,
                         frame: U32)
    requires FramesOk(submitted, frames) && StagedOk(completed, staged, frame) && staged != []
    ensures FramesOk(submitted + completed, frames + [Frame(frame, staged)])
  {
    FlatFramesSnoc(frames, Frame(frame, staged));
  }

  /** Strictly increasing frame numbers, all below limit. */
  ghost predicate IncreasingBelow(frames: seq<Frame>, limit: int) {
    && (forall i, j :: 0 <= i < j < |frames| ==> frames[i].number < frames[j].number)
    && (forall i :: 0 <= i < |frames| ==> frames[i].number < limit)
  }

  /** The frame number is close to the current one, and not the last there is. */
  predicate OnCourse(current: U32, frame: U32) {
    -0x8000 < frame - current < 0x8000 && frame + 1 < 0x1_0000_0000
  }

  /** A packet of a frame leads to that frame or the next, and submits at most that frame. */
  ghost predicate Onward(frame: U32, before: seq<Frame>, after: seq<Frame>, current: U32) {
    if current == frame then after == before
    else
      && current == Wrap32(frame + 1)
      && (after == before || (after != [] && after[..|after| - 1] == before && after[|after| - 1].number == frame))
  }

  lemma MovedOnward(block: nat, last: nat, frame: U32, blocks: seq<seq<Entry>>, frames: seq<Frame>)
    ensures var (_, current, _, after) := Moved(block, last, frame, blocks, frames);
      Onward(frame, frames, after, current)
  {
    var f := Frame(frame, blocks);
    assert (frames + [f])[..|frames + [f]| - 1] == frames;
  }

  lemma OnwardIncreasing(before: seq<Frame>, was: U32, frame: U32, after: seq<Frame>, current: U32)
    requires Onward(frame, before, after, current) && OnCourse(was, frame) && !IsBefore16(frame, was)
    requires IncreasingBelow(before, was)
    ensures IncreasingBelow(after, current)
  {}

  // ----- the queue

  class RtpVideoQueue {
    var pending: seq<Entry>
    var completed: seq<Entry>
    // The sequence numbers of the current FEC block.
    var low: U16
    var high: U16
    var firstParity: U16
    var dataPackets: nat
    var parityPackets: nat
    var receivedData: nat
    var receivedParity: nat
    var receivedHighest: U16
    var nextContiguous: U16
    var missing: int
    var useFast: bool
    var reportedLost: bool
    var currentFrame: U32
    var curBlock: nat
    var lastBlock: nat
    var lastOosPts: nat
    var receivedOos: bool
    const multiFecCapable: bool
    const appVersion: nat
    const packetSize: nat
    const width: nat
    // What other parts of the client are told: packets for the depacketizer, and lost frames.
    var submitted: seq<Entry>
    var lost: seq<Loss>
    // The completed blocks of the current frame, and the frames submitted.
    ghost var staged: seq<seq<Entry>>
    ghost var frames: seq<Frame>

    function Win(): Window
      reads this
    {
      Window(low, dataPackets, parityPackets, nextContiguous, useFast, pending, receivedData, receivedParity,
             receivedHighest, missing)
    }

    function ReceiveSize(): nat { packetSize + MAX_RTP_HEADER_SIZE }

    /** The bounds of the block agree, and every packet held belongs to it. */
    ghost predicate BlockInv()
      reads this
    {
      Reached(Win(), currentFrame, curBlock, ReceiveSize()) && Edges(Win(), firstParity, high)
    }

    ghost predicate Inv()
      reads this
    {
      && Settings()
      && (pending != [] ==> BlockInv())
      && ListsInv()
    }

    predicate Settings()
      reads this
    {
      VectorWidth(width) && curBlock < 4 && lastBlock < 4 && packetSize >= NV_HEADER_SIZE
    }

    /** The completed list holds the blocks before the current one, and only whole frames have gone out. */
    ghost predicate ListsInv()
      reads this
    {
      StagedOk(completed, staged, currentFrame) && |staged| == curBlock && FramesOk(submitted, frames)
    }

    constructor (multiFecCapable: bool, appVersion: nat, packetSize: nat, width: nat)
      requires VectorWidth(width) && packetSize >= NV_HEADER_SIZE
      ensures Inv() && IncreasingBelow(frames, currentFrame)
      ensures pending == [] && completed == [] && submitted == [] && lost == [] && currentFrame == 1 && curBlock == 0
      ensures staged == [] && frames == []
      ensures this.multiFecCapable == multiFecCapable && this.appVersion == appVersion && this.packetSize == packetSize
    {
      this.multiFecCapable, this.appVersion, this.packetSize, this.width := multiFecCapable, appVersion, packetSize,
        width;
      pending, completed, submitted, lost := [], [], [], [];
      low, high, firstParity, dataPackets, parityPackets := 0, 0, 0, 0, 0;
      receivedData, receivedParity, receivedHighest, nextContiguous, missing := 0, 0, 0, 0, 0;
      useFast, reportedLost, currentFrame, curBlock, lastBlock := false, false, 1, 0, 0;
      lastOosPts, receivedOos := 0, false;
      staged, frames := [], [];
    }

    // ----- taking packets in

    /** queuePacket: appends the entry unless it is a duplicate, and keeps track of reordering. */
    method QueuePacket(e: Entry, recovered: bool) returns (ok: bool)
      modifies `pending, `nextContiguous, `useFast, `lastOosPts, `receivedOos
      ensures ok <==>
        (old(useFast) && e.packet.seqNum == old(nextContiguous)) || !Duplicate(old(pending), e.packet.seqNum)
      ensures ok ==>
        pending == old(pending) + [e] && useFast == (old(useFast) && e.packet.seqNum == old(nextContiguous))
      ensures ok ==> nextContiguous == NextAfter(old(nextContiguous), useFast, e.packet.seqNum)
      ensures !ok ==> pending == old(pending) && useFast == old(useFast) && nextContiguous == old(nextContiguous)
      ensures !ok || recovered ==> receivedOos == old(receivedOos) && lastOosPts == old(lastOosPts)
      ensures ok && !recovered && !useFast && ComesLate(old(pending), e.packet.seqNum) ==>
        receivedOos && lastOosPts == PresentationTime(e.packet.timestamp)
      ensures ok && !recovered && (useFast || !ComesLate(old(pending), e.packet.seqNum)) ==>
        lastOosPts == old(lastOosPts) && receivedOos
          == (old(receivedOos) && PresentationTime(e.packet.timestamp) <= lastOosPts + COOLDOWN_US)
    {
      var late := false;
      var seqNum := e.packet.seqNum;
      if useFast && seqNum == nextContiguous {
        nextContiguous := Wrap16(e.packet.seqNum + 1);
      } else {
        var i := 0;
        while i < |pending|
          invariant i <= |pending| && !Duplicate(pending[..i], seqNum)
          invariant late <==> ComesLate(pending[..i], seqNum)
        {
          assert pending[..i + 1] == pending[..i] + [pending[i]];
          if seqNum == pending[i].packet.seqNum {
            assert Duplicate(pending, seqNum);
            return false;
          }
          late := late || IsBefore16(seqNum, pending[i].packet.seqNum);
          i := i + 1;
        }
        assert pending[..|pending|] == pending;
        useFast := false;
      }
      if !recovered {
        var pts := PresentationTime(e.packet.timestamp);
        if late {
          lastOosPts := pts;
          receivedOos := true;
        } else if receivedOos && pts > lastOosPts + COOLDOWN_US {
          receivedOos := false;
        }
      }
      pending := pending + [e];
      ok := true;
    }

    /** The bookkeeping after a packet has been taken in. */
    method CountPacket(seqNum: U16)
      requires pending != []
      modifies `missing, `receivedHighest, `receivedData, `receivedParity
      ensures receivedHighest == HighestAfter(old(receivedHighest), |pending|, seqNum)
      ensures missing == MissingAfter(old(missing), low, old(receivedHighest), |pending|, seqNum)
      ensures receivedData == old(receivedData) + if IsBefore16(seqNum, firstParity) then 1 else 0
      ensures receivedParity == old(receivedParity) + if IsBefore16(seqNum, firstParity) then 0 else 1
    {
      if |pending| == 1 {
        missing := missing + Wrap16(seqNum - low);
        receivedHighest := seqNum;
      } else if IsBefore16(receivedHighest, seqNum) {
        missing := missing + Wrap16(seqNum - receivedHighest - 1);
        receivedHighest := seqNum;
      } else {
        missing := missing - 1;
      }
      if IsBefore16(seqNum, firstParity) {
        receivedData := receivedData + 1;
      } else {
        receivedParity := receivedParity + 1;
      }
    }

    /** Takes in a packet of the current block; ok tells whether it was new. */
    method TakeIn(e: Entry) returns (ok: bool)
      requires Edges(Win(), firstParity, high)
      requires useFast && e.packet.seqNum == nextContiguous ==> !Duplicate(pending, e.packet.seqNum)
      modifies `pending, `nextContiguous, `useFast, `lastOosPts, `receivedOos, `missing, `receivedHighest,
        `receivedData, `receivedParity
      ensures ok <==> !Duplicate(old(pending), e.packet.seqNum)
      ensures Win() == if ok then Enqueued(old(Win()), e) else old(Win())
    {
      ghost var w := Win();
      ok := QueuePacket(e, false);
      if ok {
        CountPacket(e.packet.seqNum);
        IsEnqueued(w, e, Win());
      }
    }

    // ----- completing blocks

    /** Reports the frame lost when the packets already missed cannot be made up for in order. */
    method PredictLoss()
      modifies `lost, `reportedLost
      ensures if !old(reportedLost) && !receivedOos && missing > parityPackets
        then lost == old(lost) + [Loss(currentFrame, true)] && reportedLost
        else lost == old(lost) && reportedLost == old(reportedLost)
    {
      if !reportedLost && !receivedOos {
        if missing > parityPackets {
          lost := lost + [Loss(currentFrame, true)];
          reportedLost := true;
        }
      }
    }

    /** Turns the decoded shards of the lost data packets into packets. */
    method AddRecovered(r: Recovery) returns (ret: int)
      requires RecoveryOk(r) && |r.bodies| < WINDOW_LIMIT && MarksOf(r.marks, pending, r.low) && !useFast
      modifies `pending, `nextContiguous, `useFast, `lastOosPts, `receivedOos
      ensures pending == old(pending) + Rebuilds(r, |r.bodies|) && nextContiguous == old(nextContiguous)
      ensures ret == if AllSane(r) then 0 else -1
    {
      ghost var before := pending;
      ret := 0;
      assert before + [] == before;
      for i := 0 to |r.bodies|
        invariant pending == before + Rebuilds(r, i) && !useFast && nextContiguous == old(nextContiguous)
        invariant ret == if SaneUpTo(r, i) then 0 else -1
      {
        var sane := AddOne(r, i, before);
        ret := if sane then ret else -1;
      }
    }

    /** Queues shard i of the block if it is a lost data packet that passes the checks. */
    method AddOne(r: Recovery, i: nat, ghost before: seq<Entry>) returns (sane: bool)
      requires RecoveryOk(r) && i < |r.bodies| < WINDOW_LIMIT && MarksOf(r.marks, before, r.low) && !useFast
      requires pending == before + Rebuilds(r, i)
      modifies `pending, `nextContiguous, `useFast, `lastOosPts, `receivedOos
      ensures pending == before + Rebuilds(r, i + 1) && !useFast && nextContiguous == old(nextContiguous)
      ensures sane <==> (r.marks[i] && i < r.ds ==> Sane(FlagsOf(r, i), i, r.ds))
    {
      sane := true;
      if r.marks[i] && i < r.ds {
        sane := Sane(FlagsOf(r, i), i, r.ds);
        if sane {
          RebuiltIsNew(r, before, i);
          var ok := QueuePacket(Rebuilt(r, i), true);
          assert before + (Rebuilds(r, i) + [Rebuilt(r, i)]) == before + Rebuilds(r, i) + [Rebuilt(r, i)];
        }
      }
    }

    /** The recovery part of reconstructFrame. bad tells that a recovered packet failed the checks, after
        others may already have been added, or that the codec would write past its memory; what happens
        then is left open. */
    method RecoverBlock(ghost word: Word) returns (ret: int, ghost bad: bool)
      requires Settings()
      requires Collected(pending, low, dataPackets, parityPackets, currentFrame, curBlock, ReceiveSize())
      requires |pending| >= dataPackets && pending != [] && !useFast
      requires receivedData > 0 <==> SomeData(pending, low, dataPackets)
      requires Shaped(word, dataPackets, ReceiveSize())
      modifies `pending, `nextContiguous, `useFast, `lastOosPts, `receivedOos
      ensures ret == if !CodecShape(dataPackets, parityPackets) then -3 else if bad then ret else 0
      ensures (ret == 0 ==> !bad) && (Overflows(old(Win())) ==> bad)
      ensures bad ==> CodecShape(dataPackets, parityPackets)
      ensures bad ==>
        Overflows(old(Win())) || !FlagsHonest(old(pending), low, dataPackets, parityPackets, word, ReceiveSize())
      ensures ret == 0 ==> DataComplete(pending, low, dataPackets, currentFrame, curBlock) && old(pending) <= pending
      ensures ret == 0 ==> StaysHonest(old(pending), pending, low, dataPackets, parityPackets, word, ReceiveSize())
      ensures ret != 0 && !bad ==> Win() == old(Win())
      ensures nextContiguous == old(nextContiguous)
    {
      bad := false;
      var outcome, marks, bodies := DecodeBlock(pending, low, dataPackets, parityPackets, receivedData > 0,
                                                ReceiveSize(), width, word);
      if outcome == NoCodec {
        return -3, false;
      }
      if outcome == Overrun {
        return -5, true;
      }
      ret := RestorePackets(marks, bodies, word);
      bad := ret != 0;
    }

    /** Queues the lost data packets from the decoded buffers. */
    method RestorePackets(marks: seq<bool>, bodies: seq<Vec>, ghost word: Word) returns (ret: int)
      requires Settings() && pending != [] && !useFast && dataPackets + parityPackets <= DATA_SHARDS_MAX
      requires Collected(pending, low, dataPackets, parityPackets, currentFrame, curBlock, ReceiveSize())
      requires Shaped(word, dataPackets, ReceiveSize()) && Shaped(bodies, dataPackets + parityPackets, ReceiveSize())
      requires ColumnsBack(pending, low, dataPackets, parityPackets, word, ReceiveSize(), bodies)
      requires |marks| == dataPackets + parityPackets && MarksOf(marks, pending, low)
      modifies `pending, `nextContiguous, `useFast, `lastOosPts, `receivedOos
      ensures ret == 0 ==> DataComplete(pending, low, dataPackets, currentFrame, curBlock) && old(pending) <= pending
      ensures ret == 0 ==> StaysHonest(old(pending), pending, low, dataPackets, parityPackets, word, ReceiveSize())
      ensures ret != 0 ==> !FlagsHonest(old(pending), low, dataPackets, parityPackets, word, ReceiveSize())
      ensures nextContiguous == old(nextContiguous)
    {
      var r := Recovery(dataPackets, marks, bodies, low, pending[0].packet, currentFrame, lastBlock, curBlock,
                        packetSize);
      RecoveryResult(r, pending, parityPackets, word);
      ret := AddRecovered(r);
    }

    /** All data packets of the block are lost and there is as much parity as data: decoding writes past the
        end of the codec's memory. */
    predicate Overflows(w: Window) {
      CodecShape(w.data, w.parity) && w.receivedData == 0 && w.data == w.parity > 1
    }

    /** What it takes to complete the block, with the packets of w: all data packets, or as many packets as
        there are data packets and a block the codec can recover. */
    predicate Completes(w: Window) {
      |w.pending| >= w.data && (w.receivedData == w.data || (appVersion >= 5 && CodecShape(w.data, w.parity)))
    }

    /** The packets of w suffice, but make the codec overflow. */
    predicate Undefined(w: Window) {
      |w.pending| >= w.data && appVersion >= 5 && Overflows(w)
    }

    /** With a codec that can hold the block, as many packets as there are data packets complete it, whichever
        they are. */
    lemma EnoughCompletes(w: Window)
      requires WindowInv(w) && appVersion >= 5 && w.data + w.parity <= DATA_SHARDS_MAX
      ensures Completes(w) <==> |w.pending| >= w.data
    {
      if |w.pending| >= w.data && (w.data == 0 || w.parity == 0) { NoParityNeeded(w); }
    }

    /** Notes that a loss reported early turned out to be none. */
    method NoteWrongPrediction()
      requires pending != []
      modifies `receivedOos, `lastOosPts
      ensures receivedOos == (old(receivedOos) || reportedLost)
      ensures lastOosPts == if reportedLost &&
        !old(receivedOos) then PresentationTime(pending[0].packet.timestamp) else old(lastOosPts)
    {
      if reportedLost && !receivedOos {
        receivedOos := true;
        lastOosPts := PresentationTime(pending[0].packet.timestamp);
      }
    }

    /** What is known of a block that held w and has not been completed. */
    ghost predicate NotCompleted(w: Window, bad: bool, word: Word)
      reads this
    {
      if !Completes(w) then !bad && Win() == w
      else if Undefined(w) then bad
      else
        && bad && w.pending != [] && w.receivedData != w.data && CodecShape(w.data, w.parity)
        && !FlagsHonest(w.pending, w.low, w.data, w.parity, word, ReceiveSize())
    }

    /** The block that held w has all its data, and what was received of it is as it was. */
    ghost predicate Completed(w: Window, word: Word)
      reads this
    {
      && w.low == low && w.data == dataPackets && w.parity == parityPackets && w.next == nextContiguous
      && DataComplete(pending, low, dataPackets, currentFrame, curBlock)
      && w.pending <= pending && (w.receivedData == w.data ==> pending == w.pending)
      && StaysHonest(w.pending, pending, low, dataPackets, parityPackets, OfShape(word, dataPackets, ReceiveSize()),
                     ReceiveSize())
    }

    /** reconstructFrame: returns 0 if the data of the block is complete. */
    method ReconstructFrame(ghost word: Word) returns (ret: int, ghost bad: bool)
      requires Inv() && pending != []
      modifies `pending, `nextContiguous, `useFast, `lastOosPts, `receivedOos, `lost, `reportedLost
      ensures ret == 0 ==> !bad && Completes(old(Win())) && !Undefined(old(Win())) && Completed(old(Win()), word)
      ensures ret != 0 ==> NotCompleted(old(Win()), bad, word)
      ensures ret != 0 && !bad ==> Inv()
      ensures lost == old(lost) + Predicted(old(Win()), currentFrame, old(reportedLost), receivedOos)
    {
      if |pending| < dataPackets {
        KeepWaiting();
        return -1, false;
      }
      ret, bad := CompleteReached(word);
    }

    method KeepWaiting()
      requires Inv() && |pending| < dataPackets
      modifies `lost, `reportedLost
      ensures Inv() && Win() == old(Win())
      ensures lost == old(lost) + Predicted(old(Win()), currentFrame, old(reportedLost), receivedOos)
    {
      PredictLoss();
    }

    method CompleteReached(ghost word: Word) returns (ret: int, ghost bad: bool)
      requires Inv() && pending != [] && |pending| >= dataPackets
      modifies `pending, `nextContiguous, `useFast, `lastOosPts, `receivedOos
      ensures ret == 0 ==> !bad && Completes(old(Win())) && !Undefined(old(Win())) && Completed(old(Win()), word)
      ensures ret != 0 ==> NotCompleted(old(Win()), bad, word)
      ensures ret != 0 && !bad ==> Inv()
    {
      ReachedCollected(Win(), currentFrame, curBlock, ReceiveSize());
      ret, bad := CompleteBlock(word);
    }

    /** The rest of reconstructFrame, once there are enough packets. */
    method CompleteBlock(ghost word: Word) returns (ret: int, ghost bad: bool)
      requires Settings()
      requires Collected(pending, low, dataPackets, parityPackets, currentFrame, curBlock, ReceiveSize())
      requires |pending| >= dataPackets && pending != [] && (useFast ==> receivedData == dataPackets)
      requires receivedData > 0 <==> SomeData(pending, low, dataPackets)
      requires receivedData == dataPackets ==> DataComplete(pending, low, dataPackets, currentFrame, curBlock)
      modifies `pending, `nextContiguous, `useFast, `lastOosPts, `receivedOos
      ensures ret == 0 ==> !bad && Completes(old(Win())) && !Undefined(old(Win())) && Completed(old(Win()), word)
      ensures ret != 0 ==> NotCompleted(old(Win()), bad, word)
      ensures ret != 0 && !bad ==> Win() == old(Win())
    {
      bad := false;
      NoteWrongPrediction();
      ghost var orig := OfShape(word, dataPackets, ReceiveSize());
      if receivedData == dataPackets {
        UnchangedHonest(pending, low, dataPackets, parityPackets, orig, ReceiveSize());
        return 0, false;
      }
      if appVersion < 5 {
        return -1, false;
      }
      ret, bad := RecoverBlock(orig);
    }

    /** stageCompleteFecBlock: empties the pending list, dropping parity and appending the data packets to
        the completed list, lowest number first. */
    method StageCompleteFecBlock() returns (ghost done: seq<Entry>)
      requires Spread(low, pending) && DistinctNumbers(pending)
      modifies `pending, `completed
      ensures pending == [] && completed == old(completed) + done
      ensures AscendingFrom(low, done) && multiset(done) == multiset(DataOf(old(pending)))
    {
      var moved := StageAll(pending, low);
      pending, completed, done := [], completed + moved, moved;
    }

    // ----- passing blocks and frames on

    /** submitCompletedFrame: hands every completed packet to the depacketizer. */
    method SubmitCompletedFrame()
      modifies `completed, `submitted
      ensures completed == [] && submitted == old(submitted) + old(completed)
    {
      while |completed| > 0
        invariant submitted + completed == old(submitted) + old(completed)
      {
        var e := completed[0];
        assert submitted + completed == (submitted + [e]) + completed[1..];
        completed := completed[1..];
        submitted := submitted + [e];
      }
    }

    /** Stages the completed block; w is the block as received. */
    method StageBlock(ghost w: Window, ghost word: Word) returns (ghost done: seq<Entry>)
      requires Completed(w, word) && StagedOk(completed, staged, currentFrame) && |staged| == curBlock
      modifies `pending, `completed, `staged
      ensures pending == [] && staged == old(staged) + [done] && StagedOk(completed, staged, currentFrame)
      ensures WholeBlock(done, w.low, w.data, currentFrame, curBlock)
      ensures AsReceived(w.pending, w.low, w.receivedData == w.data, done)
      ensures StagedFaithful(w.pending, done, w.low, w.data, w.parity, word, ReceiveSize())
    {
      ghost var after := pending;
      done := StageCompleteFecBlock();
      StagedResult(w.pending, after, w.receivedData == w.data, done, w.low, w.data, w.parity, currentFrame, curBlock,
                   word, ReceiveSize());
      StagedOneMore(old(completed), staged, done, low, currentFrame);
      staged := staged + [done];
    }

    method SubmitFrame()
      requires StagedOk(completed, staged, currentFrame) && staged != [] && FramesOk(submitted, frames)
      modifies `completed, `submitted, `staged, `frames, `curBlock, `currentFrame
      ensures completed == [] && staged == [] && curBlock == 0 && currentFrame == Wrap32(old(currentFrame) + 1)
      ensures frames == old(frames) + [Frame(old(currentFrame), old(staged))] && FramesOk(submitted, frames)
    {
      SubmittedOneMore(submitted, frames, completed, staged, currentFrame);
      SubmitCompletedFrame();
      frames, staged := frames + [Frame(currentFrame, staged)], [];
      currentFrame := Wrap32(currentFrame + 1);
      curBlock := 0;
    }

    /** After a block has been staged: on to the next block, or, after the last one, to the next frame. */
    method MoveOn()
      requires StagedOk(completed, staged, currentFrame) && |staged| == curBlock + 1 && FramesOk(submitted, frames)
      modifies `completed, `submitted, `staged, `frames, `curBlock, `currentFrame
      ensures ListsInv()
      ensures (curBlock, currentFrame, staged, frames)
           == Moved(old(curBlock), lastBlock, old(currentFrame), old(staged), old(frames))
      ensures Onward(old(currentFrame), old(frames), frames, currentFrame)
    {
      MovedOnward(curBlock, lastBlock, currentFrame, staged, frames);
      if curBlock < lastBlock {
        curBlock := curBlock + 1;
      } else {
        SubmitFrame();
      }
    }

    /** Drops what is held of the current frame, and reports the frame lost unless that has been done. */
    method AbandonFrame(next: U32)
      modifies `pending, `completed, `staged, `lost, `reportedLost, `currentFrame, `curBlock
      ensures pending == [] && completed == [] && staged == [] && reportedLost && currentFrame == next && curBlock == 0
      ensures lost == old(lost) + GivenUp(old(currentFrame), old(reportedLost))
    {
      pending, completed, staged := [], [], [];
      if !reportedLost {
        lost := lost + [Loss(currentFrame, false)];
        reportedLost := true;
      }
      currentFrame, curBlock := next, 0;
    }

    /** Nothing received yet of the block. */
    method ResetCounts()
      modifies `pending, `receivedData, `receivedParity, `receivedHighest, `missing, `useFast
      ensures pending == [] && receivedData == 0 && receivedParity == 0 && receivedHighest == 0 && missing == 0
      ensures useFast
    {
      pending := [];
      receivedData, receivedParity, receivedHighest, missing := 0, 0, 0, 0;
      useFast := true;
    }

    /** Starts a new FEC block; first, parityStart and last are its sequence numbers. */
    method BeginBlock(first: U16, parityStart: U16, last: U16, data: nat, parity: nat)
      modifies `low, `nextContiguous, `dataPackets, `parityPackets, `firstParity, `high,
        `pending, `receivedData, `receivedParity, `receivedHighest, `missing, `useFast
      ensures Win() == EmptyWindow(first, data, parity) && firstParity == parityStart && high == last
    {
      ResetCounts();
      low, nextContiguous := first, first;
      dataPackets, parityPackets := data, parity;
      firstParity, high := parityStart, last;
    }

    /** Stages the completed block, and moves on; w is the block as received. */
    method FinishBlock(ghost w: Window, ghost word: Word) returns (ghost done: seq<Entry>)
      requires Completed(w, word) && ListsInv() && Settings()
      modifies `pending, `completed, `submitted, `staged, `frames, `curBlock, `currentFrame
      ensures Inv() && BlockDone(w, done, old(currentFrame), old(curBlock), old(staged), old(frames), word)
      ensures Onward(old(currentFrame), old(frames), frames, currentFrame)
    {
      done := StageBlock(w, word);
      MoveOn();
    }

    /** The block that held w has been staged as done, and the queue has moved on. */
    ghost predicate BlockDone(w: Window, done: seq<Entry>, frame: U32, block: nat, before: seq<seq<Entry>>,
                              submittedFrames: seq<Frame>, word: Word)
      reads this
    {
      && pending == [] && w.next == nextContiguous && WholeBlock(done, w.low, w.data, frame, block)
      && AsReceived(w.pending, w.low, w.receivedData == w.data, done)
      && StagedFaithful(w.pending, done, w.low, w.data, w.parity, word, ReceiveSize())
      && (curBlock, currentFrame, staged, frames) == Moved(block, lastBlock, frame, before + [done], submittedFrames)
    }

    /** Completes the block if its packets suffice, and moves on. */
    method TryComplete(ghost word: Word) returns (ghost bad: bool, ghost done: seq<Entry>)
      requires Inv() && pending != []
      modifies `pending, `nextContiguous, `useFast, `lastOosPts, `receivedOos, `lost, `reportedLost,
        `completed, `submitted, `staged, `frames, `curBlock, `currentFrame
      ensures !bad ==> Inv()
      ensures Outcome(old(Win()), bad, done, old(currentFrame), old(curBlock), old(staged), old(frames), word)
      ensures Onward(old(currentFrame), old(frames), frames, currentFrame)
      ensures lost == old(lost) + Predicted(old(Win()), old(currentFrame), old(reportedLost), receivedOos)
    {
      done := [];
      ghost var w := Win();
      var ret;
      ret, bad := ReconstructFrame(word);
      if ret == 0 {
        done := FinishBlock(w, word);
      }
    }

    ghost predicate ListsAre(block: nat, frame: U32, stagedBlocks: seq<seq<Entry>>, submittedFrames: seq<Frame>)
      reads this
    {
      curBlock == block && currentFrame == frame && staged == stagedBlocks && frames == submittedFrames
    }

    // ----- beginning a block

    /** The current frame, if it is not the packet's, is given up; the frame before the packet's is reported
        lost, unless that has been done. */
    method LeaveFrame(frame: U32)
      requires ListsInv()
      modifies `completed, `staged, `lost
      ensures currentFrame == frame ==> completed == old(completed) && staged == old(staged)
      ensures currentFrame != frame ==> completed == [] && staged == []
      ensures lost == old(lost) + Skipped(currentFrame, frame, reportedLost)
    {
      if currentFrame != frame {
        completed, staged := [], [];
        if Wrap32(currentFrame + 1) != frame || !reportedLost {
          lost := lost + [Loss(Wrap32(frame - 1), false)];
        }
      }
    }

    /** The packet may begin a block: it is the current one, or the first of a later frame, and nothing of a
        frame with several blocks is dropped for it. */
    predicate Begins(p: Packet)
      reads this
    {
      && !(pending != [] && lastBlock != 0 && currentFrame == p.frame)
      && BlockNumber(p.blocks) == if currentFrame == p.frame then curBlock else 0
    }

    /** The sequence numbers of the block a packet belongs to. */
    method Bounds(seqNum: U16, index: nat, data: nat, parity: nat) returns (first: U16, parityStart: U16, last: U16)
      ensures first == Wrap16(seqNum - index)
      ensures parityStart == FirstParityOf(EmptyWindow(first, data, parity))
      ensures last == LastOf(EmptyWindow(first, data, parity))
    {
      first := Wrap16(seqNum - index);
      parityStart := Wrap16(first as int + data);
      SameLast(first, data, parity);
      last := Wrap16(parityStart as int + parity - 1);
    }

    /** The packet's frame and block become the current ones. */
    method EnterFrame(p: Packet)
      requires ListsInv() && BlockNumber(p.blocks) == if currentFrame == p.frame then curBlock else 0
      modifies `completed, `staged, `lost, `reportedLost, `currentFrame, `curBlock, `lastBlock
      ensures ListsInv() && lastBlock == LastBlockNumber(p.blocks)
      ensures ListsAre(BlockNumber(p.blocks), p.frame, if old(currentFrame) == p.frame then old(staged) else [], frames)
      ensures lost == old(lost) + Skipped(old(currentFrame), p.frame, old(reportedLost)) && !reportedLost
    {
      LeaveFrame(p.frame);
      currentFrame, curBlock, lastBlock, reportedLost := p.frame, BlockNumber(p.blocks), LastBlockNumber(p.blocks),
        false;
    }

    /** Starts the block of a packet that may begin one. */
    method Restart(p: Packet, fecInfo: U32)
      requires ListsInv() && BlockNumber(p.blocks) == if currentFrame == p.frame then curBlock else 0
      modifies `low, `nextContiguous, `dataPackets, `parityPackets, `firstParity, `high, `pending, `receivedData,
        `receivedParity,
        `receivedHighest, `missing, `useFast, `completed, `staged, `lost, `reportedLost, `currentFrame, `curBlock,
          `lastBlock
      ensures ListsInv() && lastBlock == LastBlockNumber(p.blocks)
      ensures Win() == EmptyWindow(Wrap16(p.seqNum - FecIndex(fecInfo)), FecDataPackets(fecInfo),
                                   FecParityPackets(fecInfo))
      ensures Edges(Win(), firstParity, high)
      ensures ListsAre(BlockNumber(p.blocks), p.frame, if old(currentFrame) == p.frame then old(staged) else [], frames)
      ensures lost == old(lost) + Skipped(old(currentFrame), p.frame, old(reportedLost)) && !reportedLost
    {
      EnterFrame(p);
      var first, parityStart, last := Bounds(p.seqNum, FecIndex(fecInfo), FecDataPackets(fecInfo),
                                             FecParityPackets(fecInfo));
      BeginBlock(first, parityStart, last, FecDataPackets(fecInfo), FecParityPackets(fecInfo));
    }

    /** Gives up the current frame, or the packet's, when the packet shows that a block has been missed. */
    method CheckBegins(p: Packet) returns (go: bool)
      requires ListsInv() && curBlock < 4
      modifies `pending, `completed, `staged, `lost, `reportedLost, `currentFrame, `curBlock
      ensures go <==> old(Begins(p))
      ensures ListsInv() && curBlock < 4
      ensures go ==> ListsAre(old(curBlock), old(currentFrame), old(staged), frames) && pending == old(pending)
      ensures !go ==> pending == [] && ListsAre(0, Wrap32(p.frame + 1), [], frames)
      ensures if go then lost == old(lost) && reportedLost == old(reportedLost)
        else reportedLost && lost == old(lost) + GivenUp(old(currentFrame), old(reportedLost))
    {
      if pending != [] && lastBlock != 0 && currentFrame == p.frame {
        AbandonFrame(Wrap32(currentFrame + 1));
        return false;
      }
      var expected := if currentFrame == p.frame then curBlock else 0;
      if BlockNumber(p.blocks) != expected {
        AbandonFrame(Wrap32(p.frame + 1));
        return false;
      }
      return true;
    }

    // ----- RtpvAddPacket

    /** Whether two packets are of one block is told by frame and block number. */
    predicate Continues(p: Packet)
      reads this
    {
      pending != [] && currentFrame == p.frame && curBlock == BlockNumber(p.blocks)
    }

    /** What a packet must satisfy to be looked at: it is not behind, and has room for its header. */
    predicate Eligible(p: Packet)
      reads this
    {
      && !IsBefore16(p.seqNum, nextContiguous) && |p.bytes| >= DataOffset(p.header) + NV_HEADER_SIZE
      && !IsBefore16(p.frame, currentFrame) && !(p.frame == currentFrame && BlockNumber(p.blocks) < curBlock)
    }

    /** Hosts without several blocks to a frame do not fill the field. */
    function Fixed(p: Packet): Packet {
      if multiFecCapable then p else p.(blocks := 0)
    }

    /** The block the packet is for: the current one, or the one it begins. */
    function Start(p: Packet, fecInfo: U32): Window
      reads this
    {
      if Continues(p) then Win()
      else EmptyWindow(Wrap16(p.seqNum - FecIndex(fecInfo)), FecDataPackets(fecInfo), FecParityPackets(fecInfo))
    }

    /** The number of the last block of the packet's frame. */
    function LastFor(p: Packet): nat
      reads this
    {
      if Continues(p) then lastBlock else LastBlockNumber(p.blocks)
    }

    /** The completed blocks that are kept for a packet of a frame. */
    ghost function Kept(frame: U32): seq<seq<Entry>>
      reads this
    {
      if currentFrame == frame then staged else []
    }

    /** What is reported before the packet is looked at. */
    function ToldFirst(p: Packet): seq<Loss>
      reads this
    {
      if Continues(p) then []
      else if Begins(p) then Skipped(currentFrame, p.frame, reportedLost)
      else GivenUp(currentFrame, reportedLost)
    }

    /** Makes the block of the packet the current one; go tells that it is. */
    method Prepare(p: Packet, fecInfo: U32) returns (go: bool)
      requires Inv() && Eligible(p)
      modifies `low, `nextContiguous, `dataPackets, `parityPackets, `firstParity, `high, `pending, `receivedData,
        `receivedParity,
        `receivedHighest, `missing, `useFast, `completed, `staged, `lost, `reportedLost, `currentFrame, `curBlock,
          `lastBlock
      ensures Inv() && (go <==> old(Continues(p)) || old(Begins(p))) && lost == old(lost) + old(ToldFirst(p))
      ensures go ==> BlockInv() && Win() == old(Start(p, fecInfo)) && !IsBefore16(p.seqNum, nextContiguous)
      ensures go ==> ListsAre(BlockNumber(p.blocks), p.frame, old(Kept(p.frame)), frames)
      ensures go ==> reportedLost == (old(Continues(p)) && old(reportedLost)) && lastBlock == old(LastFor(p))
      ensures !go ==> pending == [] && ListsAre(0, Wrap32(p.frame + 1), [], frames)
    {
      if Continues(p) {
        return true;
      }
      go := CheckBegins(p);
      if go {
        Restart(p, fecInfo);
        ShapeBound(fecInfo);
        ReachedFirst(low, dataPackets, parityPackets, currentFrame, curBlock, ReceiveSize());
        IndexBefore(p.seqNum, FecIndex(fecInfo));
      }
    }

    /** Takes a packet into the current block unless it is a duplicate. */
    method TakeIntoBlock(e: Entry) returns (queued: bool)
      requires BlockInv() && FitsBlock(Win(), e, currentFrame, curBlock, ReceiveSize())
      modifies `pending, `nextContiguous, `useFast, `lastOosPts, `receivedOos, `missing, `receivedHighest,
        `receivedData, `receivedParity
      ensures queued <==> !Duplicate(old(pending), e.packet.seqNum)
      ensures BlockInv() && Win() == if queued then Enqueued(old(Win()), e) else old(Win())
    {
      ReachedNext(Win(), e, currentFrame, curBlock, ReceiveSize());
      EdgesStay(Win(), e, firstParity, high);
      queued := TakeIn(e);
    }

    /** Takes a packet in, and completes the block if that is possible now. */
    method Collect(e: Entry, ghost word: Word) returns (queued: bool, ghost bad: bool, ghost done: seq<Entry>)
      requires Inv() && BlockInv() && FitsBlock(Win(), e, currentFrame, curBlock, ReceiveSize())
      modifies `pending, `nextContiguous, `useFast, `lastOosPts, `receivedOos, `missing, `receivedHighest,
        `receivedData, `receivedParity,
        `lost, `reportedLost, `completed, `submitted, `staged, `frames, `curBlock, `currentFrame
      ensures queued <==> !Duplicate(old(pending), e.packet.seqNum)
      ensures !bad ==> Inv()
      ensures !queued ==>
        !bad && Win() == old(Win()) && ListsAre(old(curBlock), old(currentFrame), old(staged), old(frames))
      ensures queued ==>
        Outcome(Enqueued(old(Win()), e), bad, done, old(currentFrame), old(curBlock), old(staged), old(frames), word)
      ensures queued ==>
        lost == old(lost) + Predicted(Enqueued(old(Win()), e), old(currentFrame), old(reportedLost), receivedOos)
      ensures !queued ==> lost == old(lost)
      ensures Onward(old(currentFrame), old(frames), frames, currentFrame)
    {
      bad, done := false, [];
      queued := TakeIntoBlock(e);
      if queued {
        bad, done := TryComplete(word);
      }
    }

    /** RtpvAddPacket. done is the block completed by the packet, if one is, and word what its sender sent.
        Nothing but the invariant is promised of a packet that would make the codec overflow, and not even
        that if it is bad. */
    method AddPacket(incoming: Incoming, ghost word: Word)
      returns (queued: bool, ghost bad: bool, ghost done: seq<Entry>)
      requires Inv() && |incoming.packet.bytes| <= ReceiveSize()
      modifies this
      ensures !bad ==> Inv()
      ensures !old(Eligible(Fixed(incoming.packet))) ==> !queued && !bad && unchanged(this)
      ensures old(Eligible(Fixed(incoming.packet)) && !MeetsUndefined(Fixed(incoming.packet), incoming.fecInfo)) ==>
        AddedFrom(Fixed(incoming.packet), old(Considers(Fixed(incoming.packet))),
                  old(Start(Fixed(incoming.packet), incoming.fecInfo)),
                  old(LastFor(Fixed(incoming.packet))), queued, bad, done, old(Kept(incoming.packet.frame)),
                    old(frames), word)
      ensures old(Eligible(Fixed(incoming.packet)) && !MeetsUndefined(Fixed(incoming.packet), incoming.fecInfo)) ==>
        lost == old(lost) + old(ToldFirst(Fixed(incoming.packet)))
          + if queued
            then Predicted(EnqueuedBy(old(Start(Fixed(incoming.packet), incoming.fecInfo)), Fixed(incoming.packet)),
                           incoming.packet.frame, old(Continues(Fixed(incoming.packet)) && reportedLost), receivedOos)
            else []
    {
      queued, bad, done := false, false, [];
      var p := Fixed(incoming.packet);
      if Eligible(p) {
        queued, bad, done := AddEligible(p, incoming.fecInfo, word);
      }
    }

    /** The rest of RtpvAddPacket, for a packet that is not behind and has its header. */
    method AddEligible(p: Packet, fecInfo: U32, ghost word: Word)
      returns (queued: bool, ghost bad: bool, ghost done: seq<Entry>)
      requires Inv() && Eligible(p) && |p.bytes| <= ReceiveSize()
      modifies this
      ensures !bad ==> Inv()
      ensures !old(MeetsUndefined(p, fecInfo)) ==>
        AddedFrom(p, old(Considers(p)), old(Start(p, fecInfo)), old(LastFor(p)), queued, bad, done, old(Kept(p.frame)),
                  old(frames), word)
      ensures !old(MeetsUndefined(p, fecInfo)) ==>
        lost == old(lost) + old(ToldFirst(p))
          + if queued then Predicted(EnqueuedBy(old(Start(p, fecInfo)), p), p.frame, old(Continues(p) && reportedLost),
                                     receivedOos) else []
    {
      queued, bad, done := false, false, [];
      var go := Prepare(p, fecInfo);
      if go && !IsBefore16(high, p.seqNum) {
        var e := Entry(p, !IsBefore16(p.seqNum, firstParity));
        queued, bad, done := Collect(e, word);
      }
    }

    /** The packet is for a block that can be worked on. */
    predicate Considers(p: Packet)
      reads this
    {
      Eligible(p) && (Continues(p) || Begins(p))
    }

    /** The packet is taken in, and makes the codec overflow. */
    predicate MeetsUndefined(p: Packet, fecInfo: U32)
      reads this
    {
      Considers(p) && Accepts(Start(p, fecInfo), p.seqNum) && Undefined(EnqueuedBy(Start(p, fecInfo), p))
    }

    /** What became of a packet that was looked at. */
    ghost predicate AddedFrom(p: Packet, considered: bool, start: Window, last: nat, queued: bool, bad: bool,
                              done: seq<Entry>,
                              before: seq<seq<Entry>>, submittedFrames: seq<Frame>, word: Word)
      reads this
    {
      && Onward(p.frame, submittedFrames, frames, currentFrame)
      && if considered then Considered(p, start, queued, bad, done, before, submittedFrames, word) && lastBlock == last
         else !queued && !bad && pending == [] && ListsAre(0, Wrap32(p.frame + 1), [], submittedFrames)
    }

    /** What became of a packet for the block start: it is taken in just when it is inside and new. */
    ghost predicate Considered(p: Packet, start: Window, queued: bool, bad: bool, done: seq<Entry>,
                               before: seq<seq<Entry>>,
                               submittedFrames: seq<Frame>, word: Word)
      reads this
    {
      && (queued <==> Accepts(start, p.seqNum))
      && if queued then Outcome(EnqueuedBy(start, p), bad, done, p.frame, BlockNumber(p.blocks), before,
                                submittedFrames, word)
         else !bad && Win() == start && ListsAre(BlockNumber(p.blocks), p.frame, before, submittedFrames)
    }

    /** What became of the block that held w after the last packet was taken in. */
    ghost predicate Outcome(w: Window, bad: bool, done: seq<Entry>, frame: U32, block: nat, before: seq<seq<Entry>>,
                            submittedFrames: seq<Frame>, word: Word)
      reads this
    {
      if bad || !Completes(w) then
        NotCompleted(w, bad, word) && (!Undefined(w) ==> ListsAre(block, frame, before, submittedFrames))
      else BlockDone(w, done, frame, block, before, submittedFrames, word)
    }
  }

  /** What is reported when a packet of another frame begins a block. */
  function Skipped(current: U32, frame: U32, reported: bool): seq<Loss> {
    if current != frame && (Wrap32(current + 1) != frame || !reported) then [Loss(Wrap32(frame - 1), false)] else []
  }

  /** What is reported when the current frame is given up. */
  function GivenUp(current: U32, reported: bool): seq<Loss> {
    if reported then [] else [Loss(current, false)]
  }

  /** What is reported early, of a block with the packets of w. */
  function Predicted(w: Window, frame: U32, reported: bool, oos: bool): seq<Loss> {
    if |w.pending| < w.data && w.missing > w.parity && !reported && !oos then [Loss(frame, true)] else []
  }

  /** The number is inside the block, and new. */
  predicate Accepts(w: Window, seqNum: U16) {
    InWindow(w, seqNum) && !Duplicate(w.pending, seqNum)
  }

  /** The block with the packet taken in. */
  function EnqueuedBy(w: Window, p: Packet): Window {
    Enqueued(w, Entry(p, !IsBefore16(p.seqNum, FirstParityOf(w))))
  }

  lemma NoParityNeeded(w: Window)
    requires WindowInv(w) && |w.pending| >= w.data && (w.data == 0 || w.parity == 0)
    ensures w.receivedData == w.data
  {
    if w.data == 0 {
      NoData(w.pending, w.low);
    } else {
      PlacedBound(w);
      AllData(w.pending, w.low, w.data);
    }
  }

  lemma {:induction false} AllData(pending: seq<Entry>, low: U16, ds: nat)
    requires ParityMarked(low, ds, pending) && forall i :: 0 <= i < |pending| ==> OffsetOf(low, pending[i]) < ds
    ensures DataCount(pending) == |pending|
  {
    if pending != [] { AllData(pending[..|pending| - 1], low, ds); }
  }

  lemma {:induction false} NoData(pending: seq<Entry>, low: U16)
    requires ParityMarked(low, 0, pending)
    ensures DataCount(pending) == 0
  {
    if pending != [] { NoData(pending[..|pending| - 1], low); }
  }

  lemma IndexBefore(seqNum: U16, index: nat)
    requires index < 0x400
    ensures !IsBefore16(seqNum, Wrap16(seqNum - index))
  {}

  /** Block, frame, staged blocks and submitted frames after a block is staged as the last of blocks. */
  ghost function Moved(block: nat, last: nat, frame: U32, blocks: seq<seq<Entry>>, frames: seq<Frame>): (nat, U32,
                       seq<seq<Entry>>, seq<Frame>) {
    if block < last then (block + 1, frame, blocks, frames)
      else (0, Wrap32(frame + 1), [], frames + [Frame(frame, blocks)])
  }

  lemma SameLast(low: U16, ds: nat, ps: nat)
    ensures Wrap16(Wrap16(low + ds) + ps - 1) == Wrap16(low + ds + ps - 1)
  {}

  /** A packet with a higher number is already there. */
  predicate ComesLate(pending: seq<Entry>, seqNum: U16) {
    exists i :: 0 <= i < |pending| && IsBefore16(seqNum, pending[i].packet.seqNum)
  }
}
