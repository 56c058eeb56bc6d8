/** The video queue over whole runs: what it makes of the packets of an honest sender, whichever of them
    arrive, and in whatever order. */
module VideoDelivery {
  import opened Gf256
  import Oblas
  import opened Systems
  import opened ReedSolomon
  import opened SequenceNumbers
  import opened VideoWindow
  import opened VideoRecovery
  import opened VideoCompletion
  import opened VideoQueue

  // ----- what the sender has sent

  /** One FEC block of the sender: its first number, its data and parity packets, the last block of its frame,
      where the video headers of its packets start, and its data packets padded to the receive size. */
  datatype Sent = Sent(low: U16, data: nat, parity: nat, last: nat, offset: nat, word: Word)

  /** The blocks by frame and block number. */
  type Sender = map<(U32, nat), Sent>

  /** The columns that the receiver has not rewritten before decoding: the flags and the payload. */
  predicate Intact(s: Sent, t: nat) {
    t == s.offset + 8 || t >= s.offset + NV_HEADER_SIZE
  }

  ghost predicate SentOk(s: Sent, size: nat) {
    && s.data + s.parity < WINDOW_LIMIT && Shaped(s.word, s.data, size) && s.offset + 8 < size
    && SenderSane(s.word, s.data, size, s.offset + 8)
  }

  ghost predicate SenderOk(sender: Sender, size: nat) {
    forall key :: key in sender ==> SentOk(sender[key], size) && key.1 <= sender[key].last
  }

  /** Byte t of packet o of the block; of blocks too large for the codec only the data packets are known. */
  ghost predicate SentByte(s: Sent, size: nat, o: nat, t: nat, b: Byte)
    requires SentOk(s, size) && t < size
  {
    if o < s.data then b == s.word[o][t]
    else if o < s.data + s.parity <= DATA_SHARDS_MAX then b == ParityByte(s.word, s.data, s.parity, size, o - s.data, t)
    else true
  }

  /** The packet is the sender's packet of its number, in the intact columns. */
  ghost predicate HonestPacket(p: Packet, s: Sent, size: nat)
    requires SentOk(s, size)
  {
    && |p.bytes| <= size && DataOffset(p.header) == s.offset
    && forall t :: 0 <= t < size && Intact(s, t) ==>
      SentByte(s, size, Offset(s.low, p.seqNum), t, Padded(p.bytes, size)[t])
  }

  /** An arriving packet, as the queue reads it, is one of the sender's. */
  ghost predicate HonestArrival(p: Packet, fecInfo: U32, sender: Sender, size: nat)
    requires SenderOk(sender, size)
  {
    var key := (p.frame, BlockNumber(p.blocks));
    key in sender &&
    var s := sender[key];
    && EmptyWindow(Wrap16(p.seqNum - FecIndex(fecInfo)), FecDataPackets(fecInfo), FecParityPackets(fecInfo))
      == EmptyWindow(s.low, s.data, s.parity)
    && LastBlockNumber(p.blocks) == s.last && HonestPacket(p, s, size)
  }

  // ----- blocks of honest packets

  ghost predicate HonestBlock(w: Window, s: Sent, size: nat)
    requires SentOk(s, size)
  {
    && w.low == s.low && w.data == s.data && w.parity == s.parity
    && forall i :: 0 <= i < |w.pending| ==> HonestPacket(w.pending[i].packet, s, size)
  }

  lemma HonestNext(w: Window, p: Packet, s: Sent, size: nat)
    requires SentOk(s, size) && HonestBlock(w, s, size) && HonestPacket(p, s, size)
    ensures HonestBlock(EnqueuedBy(w, p), s, size)
  {}

  lemma HonestColumn(w: Window, s: Sent, size: nat, frame: U32, block: nat, t: nat)
    requires SentOk(s, size) && HonestBlock(w, s, size) && CollectingOk(w, frame, block, size)
    requires s.data + s.parity <= DATA_SHARDS_MAX && t < size && Intact(s, t)
    ensures ColumnHonest(w.pending, s.low, s.data, s.parity, s.word, size, t)
  {
    HonestPackets(w.pending, s, size, t);
  }

  lemma HonestPackets(pending: seq<Entry>, s: Sent, size: nat, t: nat)
    requires SentOk(s, size) && Fits(pending, s.low, s.data + s.parity, size)
    requires forall i :: 0 <= i < |pending| ==> HonestPacket(pending[i].packet, s, size)
    requires s.data + s.parity <= DATA_SHARDS_MAX && t < size && Intact(s, t)
    ensures HonestAt(pending, s.low, s.data, s.parity, s.word, size, t)
  {
    forall e | e in pending
      ensures Padded(e.packet.bytes, size)[t] ==
        if OffsetOf(s.low, e) < s.data then s.word[OffsetOf(s.low, e)][t]
        else ParityByte(s.word, s.data, s.parity, size, OffsetOf(s.low, e) - s.data, t)
    {
      HonestByte(e.packet, s, size, t);
    }
  }

  lemma HonestByte(p: Packet, s: Sent, size: nat, t: nat)
    requires SentOk(s, size) && HonestPacket(p, s, size)
    requires Offset(s.low, p.seqNum) < s.data + s.parity <= DATA_SHARDS_MAX
    requires t < size && Intact(s, t)
    ensures var o := Offset(s.low, p.seqNum);
      Padded(p.bytes, size)[t] == if o < s.data then s.word[o][t]
        else ParityByte(s.word, s.data, s.parity, size, o - s.data, t)
  {
    assert SentByte(s, size, Offset(s.low, p.seqNum), t, Padded(p.bytes, size)[t]);
  }

  /** No recovered packet fails the checks. */
  lemma HonestFlags(w: Window, s: Sent, size: nat, frame: U32, block: nat)
    requires SentOk(s, size) && HonestBlock(w, s, size) && CollectingOk(w, frame, block, size)
    requires s.data + s.parity <= DATA_SHARDS_MAX && w.pending != []
    ensures FlagsHonest(w.pending, w.low, w.data, w.parity, s.word, size)
  {
    assert HonestPacket(w.pending[0].packet, s, size);
    HonestColumn(w, s, size, frame, block, s.offset + 8);
  }

  /** The block is the sender's, packet by packet, in the intact columns. */
  ghost predicate Delivered(es: seq<Entry>, s: Sent, size: nat)
    requires SentOk(s, size)
  {
    |es| == s.data && forall t :: 0 <= t < size && Intact(s, t) ==> BlockHonestAt(es, s.data, s.word, size, t)
  }

  lemma DeliveredUnchanged(w: Window, done: seq<Entry>, s: Sent, size: nat, frame: U32, block: nat)
    requires SentOk(s, size) && HonestBlock(w, s, size) && WholeBlock(done, w.low, w.data, frame, block)
    requires AsReceived(w.pending, w.low, true, done)
    ensures Delivered(done, s, size)
  {
    forall t, i | 0 <= t < size && Intact(s, t) && 0 <= i < s.data && t < |done[i].packet.bytes|
      ensures done[i].packet.bytes[t] == s.word[i][t]
    {
      assert IsAmong(w.pending, done[i]);
      var k :| 0 <= k < |w.pending| && w.pending[k] == done[i];
      assert HonestPacket(w.pending[k].packet, s, size);
      PlaceOf(w.low, i);
      assert SentByte(s, size, i, t, Padded(done[i].packet.bytes, size)[t]);
    }
  }

  lemma DeliveredRecovered(w: Window, done: seq<Entry>, s: Sent, size: nat, frame: U32, block: nat)
    requires SentOk(s, size) && HonestBlock(w, s, size) && CollectingOk(w, frame, block, size)
    requires |done| == w.data && s.data + s.parity <= DATA_SHARDS_MAX
    requires StagedFaithful(w.pending, done, w.low, w.data, w.parity, s.word, size)
    ensures Delivered(done, s, size)
  {
    forall t | 0 <= t < size && Intact(s, t)
      ensures BlockHonestAt(done, s.data, s.word, size, t)
    {
      HonestColumn(w, s, size, frame, block, t);
    }
  }

  // ----- the state of the queue

  ghost predicate HonestPending(w: Window, frame: U32, block: nat, last: nat, sender: Sender, size: nat)
    requires SenderOk(sender, size)
  {
    w.pending != [] ==>
      (frame, block) in sender && HonestBlock(w, sender[(frame, block)], size) && last == sender[(frame, block)].last
  }

  ghost predicate HonestBlocks(blocks: seq<seq<Entry>>, frame: U32, sender: Sender, size: nat)
    requires SenderOk(sender, size)
  {
    forall k :: 0 <= k < |blocks| ==> (frame, k) in sender && Delivered(blocks[k], sender[(frame, k)], size)
  }

  /** All blocks of the frame, each the sender's. */
  ghost predicate HonestFrame(f: Frame, sender: Sender, size: nat)
    requires SenderOk(sender, size)
  {
    && f.blocks != [] && HonestBlocks(f.blocks, f.number, sender, size)
    && |f.blocks| == sender[(f.number, |f.blocks| - 1)].last + 1
  }

  ghost predicate HonestFrames(frames: seq<Frame>, sender: Sender, size: nat)
    requires SenderOk(sender, size)
  {
    forall i :: 0 <= i < |frames| ==> HonestFrame(frames[i], sender, size)
  }

  lemma BlocksOneMore(blocks: seq<seq<Entry>>, es: seq<Entry>, frame: U32, sender: Sender, size: nat)
    requires SenderOk(sender, size) && HonestBlocks(blocks, frame, sender, size)
    requires (frame, |blocks|) in sender && Delivered(es, sender[(frame, |blocks|)], size)
    ensures HonestBlocks(blocks + [es], frame, sender, size)
  {}

  /** A delivered block leads to an honest state: the next block, or one more honest frame. */
  lemma MovedHonest(block: nat, last: nat, frame: U32, blocks: seq<seq<Entry>>, frames: seq<Frame>, sender: Sender,
                    size: nat)
    requires SenderOk(sender, size) && |blocks| == block + 1 && HonestBlocks(blocks, frame, sender, size)
    requires last == sender[(frame, block)].last && HonestFrames(frames, sender, size)
    ensures var (block', frame', blocks', frames') := Moved(block, last, frame, blocks, frames);
      HonestBlocks(blocks', frame', sender, size) && HonestFrames(frames', sender, size)
  {
    if block >= last {
      assert HonestFrame(Frame(frame, blocks), sender, size);
    }
  }

  ghost predicate HonestQueue(q: RtpVideoQueue, sender: Sender)
    requires SenderOk(sender, q.ReceiveSize())
    reads q
  {
    && HonestPending(q.Win(), q.currentFrame, q.curBlock, q.lastBlock, sender, q.ReceiveSize())
    && HonestBlocks(q.staged, q.currentFrame, sender, q.ReceiveSize())
    && HonestFrames(q.frames, sender, q.ReceiveSize())
  }

  // ----- one packet

  /** The block a packet is for is honest, before the packet is looked at. */
  lemma StartHonest(q: RtpVideoQueue, p: Packet, fecInfo: U32, sender: Sender)
    requires q.Inv() && SenderOk(sender, q.ReceiveSize()) && HonestQueue(q, sender)
    requires q.Considers(p) && HonestArrival(p, fecInfo, sender, q.ReceiveSize())
    ensures var s := sender[(p.frame, BlockNumber(p.blocks))];
      && HonestBlock(q.Start(p, fecInfo), s, q.ReceiveSize()) && q.LastFor(p) == s.last
      && CollectingOk(q.Start(p, fecInfo), p.frame, BlockNumber(p.blocks), q.ReceiveSize())
    ensures HonestBlocks(q.Kept(p.frame), p.frame, sender, q.ReceiveSize())
    ensures |q.Kept(p.frame)| == BlockNumber(p.blocks)
  {
    if q.Continues(p) {
      ReachedKeeps(q.Win(), q.currentFrame, q.curBlock, q.ReceiveSize());
    } else {
      ShapeBound(fecInfo);
      NothingCollected(Wrap16(p.seqNum - FecIndex(fecInfo)), FecDataPackets(fecInfo), FecParityPackets(fecInfo),
                       p.frame, BlockNumber(p.blocks), q.ReceiveSize());
    }
  }

  /** The block with the packet taken in is honest. */
  lemma NextHonest(start: Window, p: Packet, s: Sent, size: nat)
    requires SentOk(s, size) && HonestBlock(start, s, size) && HonestPacket(p, s, size)
    requires CollectingOk(start, p.frame, BlockNumber(p.blocks), size) && Accepts(start, p.seqNum)
    ensures HonestBlock(EnqueuedBy(start, p), s, size) && EnqueuedBy(start, p).pending != []
    ensures CollectingOk(EnqueuedBy(start, p), p.frame, BlockNumber(p.blocks), size)
  {
    HonestNext(start, p, s, size);
    OneMore(start, Entry(p, !IsBefore16(p.seqNum, FirstParityOf(start))), p.frame, BlockNumber(p.blocks), size);
  }

  /** A block of honest packets that has been completed is the sender's. */
  lemma DoneHonest(q: RtpVideoQueue, w: Window, done: seq<Entry>, frame: U32, block: nat, before: seq<seq<Entry>>,
                   frames: seq<Frame>, s: Sent)
    requires SentOk(s, q.ReceiveSize()) && HonestBlock(w, s, q.ReceiveSize())
    requires CollectingOk(w, frame, block, q.ReceiveSize())
    requires q.Completes(w) && q.BlockDone(w, done, frame, block, before, frames, s.word)
    ensures Delivered(done, s, q.ReceiveSize())
  {
    if w.receivedData == w.data {
      DeliveredUnchanged(w, done, s, q.ReceiveSize(), frame, block);
    } else {
      DeliveredRecovered(w, done, s, q.ReceiveSize(), frame, block);
    }
  }

  /** What a packet of the block start leaves behind is honest. */
  lemma OutcomeHonest(q: RtpVideoQueue, start: Window, p: Packet, bad: bool, done: seq<Entry>, before: seq<seq<Entry>>,
                      frames: seq<Frame>, sender: Sender, s: Sent)
    requires SenderOk(sender, q.ReceiveSize()) && (p.frame, BlockNumber(p.blocks)) in sender
    requires s == sender[(p.frame, BlockNumber(p.blocks))] && q.lastBlock == s.last
    requires HonestBlock(start, s, q.ReceiveSize()) && HonestPacket(p, s, q.ReceiveSize())
    requires CollectingOk(start, p.frame, BlockNumber(p.blocks), q.ReceiveSize()) && Accepts(start, p.seqNum)
    requires !q.Undefined(EnqueuedBy(start, p))
    requires q.Outcome(EnqueuedBy(start, p), bad, done, p.frame, BlockNumber(p.blocks), before, frames, s.word)
    requires HonestBlocks(before, p.frame, sender, q.ReceiveSize()) && |before| == BlockNumber(p.blocks)
    requires HonestFrames(frames, sender, q.ReceiveSize())
    ensures !bad && HonestQueue(q, sender)
  {
    var w, size, block := EnqueuedBy(start, p), q.ReceiveSize(), BlockNumber(p.blocks);
    NextHonest(start, p, s, size);
    if q.Completes(w) {
      if bad {
        HonestFlags(w, s, size, p.frame, block);
        assert false;
      }
      DoneHonest(q, w, done, p.frame, block, before, frames, s);
      BlocksOneMore(before, done, p.frame, sender, size);
      MovedHonest(block, q.lastBlock, p.frame, before + [done], frames, sender, size);
    }
  }

  /** Everything that holds between packets of an honest sender. */
  ghost predicate Steady(q: RtpVideoQueue, sender: Sender)
    reads q
  {
    && q.Inv() && SenderOk(sender, q.ReceiveSize()) && HonestQueue(q, sender)
    && IncreasingBelow(q.frames, q.currentFrame)
  }

  /** The frame number is close to the current one, and the packet does not make the codec overflow. */
  predicate Safe(q: RtpVideoQueue, incoming: Incoming)
    reads q
  {
    var p := q.Fixed(incoming.packet);
    OnCourse(q.currentFrame, p.frame) && !q.MeetsUndefined(p, incoming.fecInfo)
  }

  /** One packet of an honest sender: what AddPacket says of it, and never a failed check. */
  method ReceiveOne(q: RtpVideoQueue, incoming: Incoming, ghost sender: Sender)
    returns (queued: bool, ghost done: seq<Entry>)
    requires Steady(q, sender) && Safe(q, incoming)
    requires HonestArrival(q.Fixed(incoming.packet), incoming.fecInfo, sender, q.ReceiveSize())
    modifies q
    ensures Steady(q, sender)
    ensures !old(q.Eligible(q.Fixed(incoming.packet))) ==> !queued && unchanged(q)
    ensures old(q.Eligible(q.Fixed(incoming.packet))) ==>
      var p := q.Fixed(incoming.packet);
      q.AddedFrom(p, old(q.Considers(p)), old(q.Start(p, incoming.fecInfo)), old(q.LastFor(p)), queued, false, done,
                  old(q.Kept(p.frame)), old(q.frames), sender[(p.frame, BlockNumber(p.blocks))].word)
  {
    ghost var p := q.Fixed(incoming.packet);
    ghost var s, start, before, frames := sender[(p.frame, BlockNumber(p.blocks))], q.Start(p, incoming.fecInfo),
      q.Kept(p.frame), q.frames;
    ghost var eligible, considered, current := q.Eligible(p), q.Considers(p), q.currentFrame;
    if considered { StartHonest(q, p, incoming.fecInfo, sender); }
    ghost var bad;
    queued, bad, done := q.AddPacket(incoming, s.word);
    if eligible {
      if queued { OutcomeHonest(q, start, p, bad, done, before, frames, sender, s); }
      OnwardIncreasing(frames, current, p.frame, q.frames, q.currentFrame);
    }
  }

  /** A run of the queue on an honest sender's packets, in any order, with any of them lost or repeated. It
      goes on as long as the packets are safe, and at every point the frames passed on are whole, the
      sender's in all their blocks, and numbered in increasing order. */
  method ReceiveAll(q: RtpVideoQueue, arrivals: seq<Incoming>, ghost sender: Sender) returns (n: nat)
    requires Steady(q, sender)
    requires forall i :: 0 <= i < |arrivals| ==>
      HonestArrival(q.Fixed(arrivals[i].packet), arrivals[i].fecInfo, sender, q.ReceiveSize())
    modifies q
    ensures n <= |arrivals| && (n < |arrivals| ==> !Safe(q, arrivals[n]))
    ensures Steady(q, sender) && HonestFrames(q.frames, sender, q.ReceiveSize()) && FramesOk(q.submitted, q.frames)
  {
    n := 0;
    while n < |arrivals| && Safe(q, arrivals[n])
      invariant n <= |arrivals| && Steady(q, sender)
    {
      var _, _ := ReceiveOne(q, arrivals[n], sender);
      n := n + 1;
    }
  }

  /** From the start of the stream. */
  method Stream(multiFecCapable: bool, appVersion: nat, packetSize: nat, width: nat, arrivals: seq<Incoming>,
                ghost sender: Sender)
    returns (q: RtpVideoQueue, n: nat)
    requires Oblas.VectorWidth(width) && packetSize >= NV_HEADER_SIZE
    requires SenderOk(sender, packetSize + MAX_RTP_HEADER_SIZE)
    requires forall i :: 0 <= i < |arrivals| ==>
      HonestArrival(if multiFecCapable then arrivals[i].packet
        else arrivals[i].packet.(blocks := 0), arrivals[i].fecInfo,
                    sender, packetSize + MAX_RTP_HEADER_SIZE)
    ensures n <= |arrivals| && (n < |arrivals| ==> !Safe(q, arrivals[n]))
    ensures Steady(q, sender) && HonestFrames(q.frames, sender, packetSize + MAX_RTP_HEADER_SIZE)
    ensures FramesOk(q.submitted, q.frames)
  {
    q := new RtpVideoQueue(multiFecCapable, appVersion, packetSize, width);
    n := ReceiveAll(q, arrivals, sender);
  }
}
