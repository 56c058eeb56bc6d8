/** The audio receive queue of RtpAudioQueue.c: its state, updated packet by packet as AudioControl
    specifies, and the packets it stores, recovers and hands out. */
module AudioQueue {
  import opened Gf256
  import opened Elimination
  import opened Systems
  import Oblas
  import opened ReedSolomon
  import opened SequenceNumbers
  import opened Wrappers
  import opened AudioControl
  import opened AudioFec

  /** A waiting FEC block: its control state, the header its packets share, and room for its six shards. */
  datatype FecBlock = FecBlock(ctl: Block, kind: U8, timestamp: U32, ssrc: U32, data: seq<Packet>, fec: seq<Vec>)

  predicate Slots(b: FecBlock) {
    && |b.data| == 4 && |b.fec| == 2
    && (forall i :: 0 <= i < 4 ==> |b.data[i].body| == b.ctl.size)
    && (forall j :: 0 <= j < 2 ==> |b.fec[j]| == b.ctl.size)
  }

  function Controls(blocks: seq<FecBlock>): (ctls: seq<Block>)
    ensures |ctls| == |blocks|
    ensures forall i :: 0 <= i < |blocks| ==> ctls[i] == blocks[i].ctl
  {
    seq(|blocks|, i requires 0 <= i < |blocks| => blocks[i].ctl)
  }

  /** What the block holds of its word is what the sender sent. */
  ghost predicate FaithfulBlock(b: FecBlock, words: Words, duration: nat)
    requires Slots(b) && |b.ctl.marks| == 6
  {
    b.ctl.base in words &&
    var w := words[b.ctl.base];
    && WordOk(w) && w.size == b.ctl.size
    && b.kind == PAYLOAD_AUDIO && b.timestamp == w.timestamp && b.ssrc == w.ssrc
    && (forall i :: 0 <= i < 4 && !b.ctl.marks[i] ==> b.data[i] == PacketOf(w, b.ctl.base, i, duration))
    && (forall j :: 0 <= j < 2 && !b.ctl.marks[4 + j] ==> b.fec[j] == ParityOf(w, j))
  }

  ghost predicate AllSlots(blocks: seq<FecBlock>) {
    forall i :: 0 <= i < |blocks| ==> Slots(blocks[i]) && BlockOk(blocks[i].ctl)
  }

  ghost predicate AllFaithful(blocks: seq<FecBlock>, words: Words, duration: nat)
    requires AllSlots(blocks)
  {
    forall i :: 0 <= i < |blocks| ==> FaithfulBlock(blocks[i], words, duration)
  }

  // ----- recovering a block

  /** The six shards of a block, as the decoder sees them. */
  function ShardsOf(b: FecBlock): (c: seq<Vec>)
    requires Slots(b)
    ensures Shaped(c, 6, b.ctl.size)
  {
    [b.data[0].body, b.data[1].body, b.data[2].body, b.data[3].body, b.fec[0], b.fec[1]]
  }

  lemma ParityMatches(w: Word, m: seq<Byte>, c: seq<Vec>, j: nat, t: nat)
    requires WordOk(w) && 8 <= |m| && m[..8] == OPENFEC && j < 2 && t < w.size
    requires Shaped(c, 6, w.size) && c[4 + j] == ParityOf(w, j)
    ensures HoldsParityAt(c, w.payloads, m, 4, 2, w.size, j, t)
  {
    assert OPENFEC[..8] == OPENFEC;
    ParityRowOfPrefix(m, OPENFEC, 4, 2, j);
  }

  /** Shards of a faithful block are honest in every byte column. */
  lemma FaithfulIsHonest(b: FecBlock, words: Words, duration: nat, m: seq<Byte>)
    requires Slots(b) && |b.ctl.marks| == 6 && FaithfulBlock(b, words, duration) && 8 <= |m| && m[..8] == OPENFEC
    ensures var w := words[b.ctl.base];
      forall t :: 0 <= t < w.size ==> HonestColumn(ShardsOf(b), m, 4, 2, b.ctl.marks, w.payloads, w.size, t)
  {
    var w, c := words[b.ctl.base], ShardsOf(b);
    forall t, j | 0 <= t < w.size && 0 <= j < 2 && !b.ctl.marks[4 + j]
      ensures HoldsParityAt(c, w.payloads, m, 4, 2, w.size, j, t)
    {
      ParityMatches(w, m, c, j, t);
    }
  }

  /** Slot i after recovery: the recovered payload under a header rebuilt from the block's. */
  function Rebuilt(b: FecBlock, i: nat, body: Vec, duration: nat): Packet
    requires i < 4
  {
    Packet(0x80, b.kind, Wrap16(b.ctl.base + i), Wrap32(b.timestamp + i * duration), b.ssrc, body)
  }

  lemma PayloadsBack(b: FecBlock, shards: seq<Vec>, words: Words, duration: nat, m: seq<Byte>, i: nat)
    requires Slots(b) && |b.ctl.marks| == 6 && FaithfulBlock(b, words, duration)
    requires 8 <= |m| && m[..8] == OPENFEC && Shaped(shards, 6, b.ctl.size) && i < 4
    requires Restored(ShardsOf(b), shards, m, 4, 2, b.ctl.marks, words[b.ctl.base].payloads, b.ctl.size)
    ensures shards[i] == words[b.ctl.base].payloads[i]
  {
    var w := words[b.ctl.base];
    FaithfulIsHonest(b, words, duration, m);
    forall t | 0 <= t < w.size
      ensures shards[i][t] == w.payloads[i][t]
    {
      assert HonestColumn(ShardsOf(b), m, 4, 2, b.ctl.marks, w.payloads, w.size, t);
    }
  }

  /** The block as recovery leaves it: lost slots are rebuilt, the others untouched. */
  predicate RecoveredTo(b: FecBlock, b': FecBlock, shards: seq<Vec>, duration: nat)
    requires Slots(b) && |b.ctl.marks| == 6 && |shards| == 6
  {
    && Slots(b') && b' == b.(ctl := b'.ctl, data := b'.data) && b'.ctl == Complete(b.ctl)
    && forall i :: 0 <= i < 4 ==> b'.data[i] == if b.ctl.marks[i] then Rebuilt(b, i, shards[i], duration) else b.data[i]
  }

  lemma RecoveredPackets(b: FecBlock, b': FecBlock, shards: seq<Vec>, words: Words, duration: nat, m: seq<Byte>)
    requires Slots(b) && BlockOk(b.ctl) && FaithfulBlock(b, words, duration)
    requires 8 <= |m| && m[..8] == OPENFEC && Shaped(shards, 6, b.ctl.size)
    requires Restored(ShardsOf(b), shards, m, 4, 2, b.ctl.marks, words[b.ctl.base].payloads, b.ctl.size)
    requires RecoveredTo(b, b', shards, duration)
    ensures forall i :: 0 <= i < 4 ==> b'.data[i] == PacketOf(words[b.ctl.base], b.ctl.base, i, duration)
  {
    forall i | 0 <= i < 4
      ensures b'.data[i] == PacketOf(words[b.ctl.base], b.ctl.base, i, duration)
    {
      PayloadsBack(b, shards, words, duration, m, i);
      TimeAtIsProduct(b.timestamp, i, duration);
    }
  }

  /** Recovery gives back exactly the sender's packets. */
  lemma RecoveryFaithful(b: FecBlock, b': FecBlock, shards: seq<Vec>, words: Words, duration: nat, m: seq<Byte>)
    requires Slots(b) && BlockOk(b.ctl) && FaithfulBlock(b, words, duration)
    requires 8 <= |m| && m[..8] == OPENFEC && Shaped(shards, 6, b.ctl.size)
    requires Restored(ShardsOf(b), shards, m, 4, 2, b.ctl.marks, words[b.ctl.base].payloads, b.ctl.size)
    requires RecoveredTo(b, b', shards, duration) && b'.ctl.reassembled
    ensures forall i :: 0 <= i < 4 ==> b'.data[i] == PacketOf(words[b.ctl.base], b.ctl.base, i, duration)
    ensures FaithfulBlock(b', words, duration)
  {
    RecoveredPackets(b, b', shards, words, duration, m);
    assert b'.ctl.marks[4] == b.ctl.marks[4] && b'.ctl.marks[5] == b.ctl.marks[5];
  }

  method MakeShard(v: Vec) returns (a: array<Byte>)
    ensures fresh(a) && a.Length == |v| && a[..] == v
  {
    a := new Byte[|v|](i requires 0 <= i < |v| => v[i]);
  }

  method MakeShards(b: FecBlock) returns (shards: seq<array<Byte>>)
    requires Slots(b)
    ensures |shards| == 6 && Buffers(shards, b.ctl.size)
    ensures forall i :: 0 <= i < 6 ==> fresh(shards[i]) && shards[i].Length == b.ctl.size
    ensures Contents(shards, b.ctl.size) == ShardsOf(b)
  {
    var c := ShardsOf(b);
    shards := [];
    for i := 0 to 6
      invariant |shards| == i
      invariant forall k :: 0 <= k < i ==> fresh(shards[k]) && shards[k].Length == b.ctl.size && shards[k][..] == c[k]
      invariant forall k, l :: 0 <= k < l < i ==> shards[k] != shards[l]
    {
      var a := MakeShard(c[i]);
      shards := shards + [a];
    }
    assert forall k :: 0 <= k < 6 ==> shards[k][..b.ctl.size] == shards[k][..];
  }

  // ----- the block list

  lemma ControlsUpdated(blocks: seq<FecBlock>, k: nat, b: FecBlock)
    requires k < |blocks|
    ensures Controls(blocks[k := b]) == Controls(blocks)[k := b.ctl]
  {}

  lemma ControlsTail(blocks: seq<FecBlock>)
    requires |blocks| > 0
    ensures Controls(blocks[1..]) == Controls(blocks)[1..]
  {}

  lemma ControlsInserted(blocks: seq<FecBlock>, k: nat, b: FecBlock)
    requires k <= |blocks|
    ensures Controls(blocks[..k] + [b] + blocks[k..]) == Controls(blocks)[..k] + [b.ctl] + Controls(blocks)[k..]
  {}

  /** What a packet is to the control logic. */
  function ArrivalOf(p: Packet): Arrival {
    if p.kind == PAYLOAD_AUDIO then Data(p.seqNum, |p.body|)
    else if p.kind == PAYLOAD_FEC && |p.body| >= FEC_HEADER_SIZE then
      var h := ParseFecHeader(p.body);
      Fec(h.base, h.shard, |p.body| - FEC_HEADER_SIZE)
    else Invalid(false)
  }

  /** The header fields an FEC block is set up with. */
  ghost predicate HonestHeader(words: Words, base: U16, kind: U8, timestamp: U32, ssrc: U32, size: nat) {
    && base in words && WordOk(words[base]) && words[base].size == size
    && kind == PAYLOAD_AUDIO && timestamp == words[base].timestamp && ssrc == words[base].ssrc
  }

  function EmptyPacket(size: nat): Packet {
    Packet(0, 0, 0, 0, 0, seq(size, i => 0))
  }

  function NewFecBlock(base: U16, kind: U8, timestamp: U32, ssrc: U32, size: nat, now: nat): FecBlock {
    var e := EmptyPacket(size);
    FecBlock(NewBlock(base, size, now), kind, timestamp, ssrc, [e, e, e, e], [e.body, e.body])
  }

  lemma NewFecBlockOk(base: U16, kind: U8, timestamp: U32, ssrc: U32, size: nat, now: nat, words: Words, duration: nat)
    requires base % 4 == 0
    ensures var b := NewFecBlock(base, kind, timestamp, ssrc, size, now);
      Slots(b) && BlockOk(b.ctl) && (HonestHeader(words, base, kind, timestamp, ssrc, size) ==>
        FaithfulBlock(b, words, duration))
  {
    var b := NewFecBlock(base, kind, timestamp, ssrc, size, now);
    assert b.ctl.marks[..4] == [true, true, true, true] && b.ctl.marks[4..] == [true, true];
    NonePresent(b.ctl.marks[..4]); NonePresent(b.ctl.marks[4..]);
  }

  /** What the caller gets for one packet: the packet, or an empty stand-in for a lost one. */
  datatype Output = Stored(packet: Packet) | Placeholder

  predicate Matches(o: Output, u: Unit) { o.Placeholder? <==> u.lost }

  /** Unless it is a stand-in, the output is the packet with that number as the sender sent it. */
  ghost predicate IsSenders(o: Output, n: U16, words: Words, duration: nat) {
    o.Stored? ==>
      BaseOf(n) in words && WordOk(words[BaseOf(n)]) &&
        o.packet == PacketOf(words[BaseOf(n)], BaseOf(n), n % 4, duration)
  }

  predicate AllMatch(out: seq<Output>, units: seq<Unit>) {
    |out| == |units| && forall i :: 0 <= i < |out| ==> Matches(out[i], units[i])
  }

  ghost predicate AllSenders(out: seq<Output>, units: seq<Unit>, words: Words, duration: nat)
    requires |out| == |units|
  {
    forall i :: 0 <= i < |out| ==> IsSenders(out[i], units[i].seqNum, words, duration)
  }

  function EventsOf(packets: seq<Packet>, times: seq<nat>): (events: seq<Event>)
    requires |packets| == |times|
    ensures |events| == |packets|
    ensures forall i :: 0 <= i < |packets| ==> events[i] == Event(ArrivalOf(packets[i]), times[i])
  {
    seq(|packets|, i requires 0 <= i < |packets| => Event(ArrivalOf(packets[i]), times[i]))
  }

  lemma AddIsData(q: Queue, p: Packet, now: nat, duration: nat)
    requires AllOk(q.blocks) && !q.incompatible && p.kind == PAYLOAD_AUDIO
    ensures Add(q, ArrivalOf(p), now, duration) == AddData(q, p.seqNum, |p.body|, now, duration)
  {
    assert ArrivalOf(p) == Data(p.seqNum, |p.body|);
  }

  lemma AddIsFec(q: Queue, p: Packet, h: FecHeader, now: nat, duration: nat)
    requires AllOk(q.blocks) && !q.incompatible
    requires p.kind == PAYLOAD_FEC && |p.body| >= FEC_HEADER_SIZE && h == ParseFecHeader(p.body)
    ensures Add(q, ArrivalOf(p), now, duration) == AddFec(q, h.base, h.shard, |p.body| - FEC_HEADER_SIZE, now, duration)
  {
    assert ArrivalOf(p) == Fec(h.base, h.shard, |p.body| - FEC_HEADER_SIZE);
  }

  // ----- the queue

  class RtpAudioQueue {
    var blocks: seq<FecBlock>
    var nextSeq: U16
    var oldestBase: U16
    var lastOos: U16
    var receivedOos: bool
    var synchronizing: bool
    var incompatible: bool
    const rs: Codec
    // Milliseconds of audio in a packet.
    const duration: nat

    /** The state that AudioControl speaks about. */
    function Ctl(): Queue
      reads this
    {
      Queue(Controls(blocks), nextSeq, oldestBase, lastOos, receivedOos, synchronizing, incompatible)
    }

    ghost predicate Valid()
      reads this, rs.p
    {
      CodecReady() && AllSlots(blocks)
    }

    ghost predicate CodecReady()
      reads rs.p
    {
      rs.Valid() && rs.ds == 4 && rs.ps == 2 && rs.p[..8] == OPENFEC
    }

    ghost predicate Faithful(words: Words)
      requires AllSlots(blocks)
      reads this
    {
      AllFaithful(blocks, words, duration)
    }

    /** RtpaInitializeQueue: an empty queue that waits for the start of the stream, and a codec whose
        matrix is the sender's. */
    constructor (oldServer: bool, packetDuration: nat, width: nat)
      requires Oblas.VectorWidth(width)
      ensures Valid() && fresh(rs) && fresh(rs.p)
      ensures Ctl() == InitialQueue(oldServer) && duration == packetDuration && blocks == []
      ensures Inv(Ctl()) && nextSeq == NumberAt(0)
    {
      var codec := new Codec(4, 2, 16, width);
      blocks, nextSeq, oldestBase, lastOos := [], 0, 0, 0;
      receivedOos, synchronizing, incompatible := false, true, oldServer;
      rs, duration := codec, packetDuration;
      new;
      for i := 0 to 8
        invariant fresh(rs.p) && rs.Valid() && rs.ds == 4 && rs.ps == 2 && rs.p.Length == 16
        invariant forall k :: 0 <= k < i ==> rs.p[k] == OPENFEC[k]
        invariant blocks == [] && Ctl() == InitialQueue(oldServer)
        invariant rs == codec && duration == packetDuration && fresh(rs)
      {
        rs.p[i] := OPENFEC[i];
      }
      assert rs.p[..8] == OPENFEC;
      InitialInv(oldServer);
    }

    /** The head may be one that has just been handed out completely. */
    method FreeFecBlockHead(ghost words: Words)
      requires CodecReady() && |blocks| > 0 && AllSlots(blocks[1..])
      modifies this
      ensures Valid() && Ctl() == FreeHead(old(Ctl()))
      ensures AllFaithful(old(blocks)[1..], words, duration) ==> Faithful(words)
    {
      ControlsTail(blocks);
      oldestBase := Wrap16(blocks[0].ctl.base + 4);
      blocks := blocks[1..];
      synchronizing := false;
    }

    method QueueHasPacketReady() returns (ready: bool)
      requires Valid()
      ensures ready <==> HasPacketReady(Ctl())
    {
      if |blocks| == 0 {
        return false;
      }
      var h := blocks[0].ctl;
      ready := (!h.marks[h.nextIndex] && h.base + h.nextIndex == nextSeq) || h.discontinuity;
    }

    method HandleMissingPackets(now: nat, ghost words: Words)
      requires Valid()
      modifies this
      ensures Valid() && Ctl() == HandleMissing(old(Ctl()), now, duration)
      ensures old(Faithful(words)) ==> Faithful(words)
    {
      if |blocks| == 0 {
        return;
      }
      var h := blocks[0];
      if IsBefore16(nextSeq, h.ctl.base) {
        nextSeq, oldestBase := h.ctl.base, h.ctl.base;
        return;
      }
      if |blocks| == 1 {
        return;
      }
      if !receivedOos || (now - h.ctl.queueTime) % 0x1_0000_0000_0000_0000 > duration * 4 + OOS_WAIT_TIME_MS * 1000 {
        var h' := h.(ctl := h.ctl.(discontinuity := true));
        ControlsUpdated(blocks, 0, h');
        blocks := blocks[0 := h'];
        assert Controls(blocks) == [h'.ctl] + old(Controls(blocks))[1..];
      }
    }

    /** Remembers late data packets. */
    method NoteDataOrder(seqNum: U16, ghost words: Words)
      requires Valid()
      modifies this
      ensures Valid() && Ctl() == NoteOutOfSequence(old(Ctl()), seqNum)
      ensures blocks == old(blocks)
      ensures old(Faithful(words)) ==> Faithful(words)
    {
      if !synchronizing && IsBefore16(seqNum, oldestBase) {
        lastOos := seqNum;
        receivedOos := true;
      } else if receivedOos && IsBefore16(oldestBase, lastOos) {
        receivedOos := false;
      }
    }

    /** The walk along the list: the first block with the base, or in front of which it belongs. */
    method WalkTo(base: U16) returns (k: nat)
      requires Valid()
      ensures k == FindPlace(Controls(blocks), base, 0)
    {
      k := 0;
      while k < |blocks| && blocks[k].ctl.base != base && !IsBefore16(base, blocks[k].ctl.base)
        invariant k <= |blocks| && FindPlace(Controls(blocks), base, 0) == FindPlace(Controls(blocks), base, k)
      {
        k := k + 1;
      }
    }

    method InsertBlock(k: nat, b: FecBlock, ghost words: Words)
      requires Valid() && k <= |blocks| && Slots(b) && BlockOk(b.ctl)
      modifies `blocks
      ensures Valid() && k < |blocks| && blocks[k] == b
      ensures Controls(blocks) == old(Controls(blocks))[..k] + [b.ctl] + old(Controls(blocks))[k..]
      ensures old(Faithful(words)) && FaithfulBlock(b, words, duration) ==> Faithful(words)
    {
      ControlsInserted(blocks, k, b);
      blocks := blocks[..k] + [b] + blocks[k..];
    }

    method InsertNewBlock(k: nat, base: U16, kind: U8, timestamp: U32, ssrc: U32, size: nat, now: nat,
                          ghost words: Words)
      requires Valid() && k <= |blocks| && base % 4 == 0
      modifies `blocks
      ensures Valid() && k < |blocks| && blocks[k].ctl == NewBlock(base, size, now)
      ensures Controls(blocks) == old(Controls(blocks))[..k] + [NewBlock(base, size, now)] + old(Controls(blocks))[k..]
      ensures old(Faithful(words)) && HonestHeader(words, base, kind, timestamp, ssrc, size) ==> Faithful(words)
    {
      NewFecBlockOk(base, kind, timestamp, ssrc, size, now, words, duration);
      InsertBlock(k, NewFecBlock(base, kind, timestamp, ssrc, size, now), words);
    }

    /** The block a packet belongs to, found or made; none when the packet is to be dropped. */
    method LocateBlock(base: U16, kind: U8, timestamp: U32, ssrc: U32, size: nat, now: nat, ghost words: Words)
      returns (place: Option<nat>)
      requires Valid() && base % 4 == 0
      modifies this
      ensures Valid() && (Ctl(), place) == GetBlock(old(Ctl()), base, size, now)
      ensures place.Some? ==> place.value < |blocks| && !blocks[place.value].ctl.reassembled
      ensures place.Some? ==> blocks[place.value].ctl.base == base && blocks[place.value].ctl.size == size
      ensures old(Faithful(words)) && HonestHeader(words, base, kind, timestamp, ssrc, size) ==> Faithful(words)
    {
      if synchronizing && oldestBase == 0 {
        nextSeq, oldestBase := Wrap16(base + 4), Wrap16(base + 4);
        return None;
      }
      if IsBefore16(base, oldestBase) {
        return None;
      }
      place := FindOrInsert(base, kind, timestamp, ssrc, size, now, words);
    }

    /** The search of the list, and the insertion if that finds no block. */
    method FindOrInsert(base: U16, kind: U8, timestamp: U32, ssrc: U32, size: nat, now: nat, ghost words: Words)
      returns (place: Option<nat>)
      requires Valid() && base % 4 == 0 && !(synchronizing && oldestBase == 0) && !IsBefore16(base, oldestBase)
      modifies this
      ensures Valid() && (Ctl(), place) == GetBlock(old(Ctl()), base, size, now)
      ensures place.Some? ==> place.value < |blocks| && !blocks[place.value].ctl.reassembled
      ensures place.Some? ==> blocks[place.value].ctl.base == base && blocks[place.value].ctl.size == size
      ensures old(Faithful(words)) && HonestHeader(words, base, kind, timestamp, ssrc, size) ==> Faithful(words)
    {
      var k := WalkTo(base);
      if k < |blocks| && blocks[k].ctl.base == base {
        if blocks[k].ctl.size != size {
          incompatible := true;
          return None;
        }
        return if blocks[k].ctl.reassembled then None else Some(k);
      }
      InsertNewBlock(k, base, kind, timestamp, ssrc, size, now, words);
      return Some(k);
    }

    method SetFecBlock(k: nat, b: FecBlock, ghost words: Words)
      requires Valid() && k < |blocks| && Slots(b) && BlockOk(b.ctl)
      modifies `blocks
      ensures Valid() && blocks == old(blocks)[k := b] && Ctl() == SetBlock(old(Ctl()), k, b.ctl)
      ensures old(Faithful(words)) && FaithfulBlock(b, words, duration) ==> Faithful(words)
    {
      ControlsUpdated(blocks, k, b);
      blocks := blocks[k := b];
    }

    /** Puts a data packet into its slot. */
    method StoreDataPacket(k: nat, pos: nat, packet: Packet, ghost words: Words)
      requires Valid() && k < |blocks| && !blocks[k].ctl.reassembled && pos < 4 && blocks[k].ctl.marks[pos]
      requires |packet.body| == blocks[k].ctl.size
      modifies `blocks
      ensures Valid() && Ctl() == SetBlock(old(Ctl()), k, StoreShard(old(blocks)[k].ctl, pos))
      ensures |blocks| == |old(blocks)| && blocks[k].data[pos] == packet
      ensures var base := old(blocks)[k].ctl.base;
        old(Faithful(words)) && packet == PacketOf(words[base], base, pos, duration) ==> Faithful(words)
    {
      var b := blocks[k];
      StoreOk(b.ctl, pos);
      SetFecBlock(k, b.(ctl := StoreShard(b.ctl, pos), data := b.data[pos := packet]), words);
    }

    /** Puts the bytes of a parity packet into its slot. */
    method StoreFecPacket(k: nat, shard: nat, parity: Vec, ghost words: Words)
      requires Valid() && k < |blocks| && !blocks[k].ctl.reassembled && shard < 2 && blocks[k].ctl.marks[4 + shard]
      requires |parity| == blocks[k].ctl.size
      modifies `blocks
      ensures Valid() && Ctl() == SetBlock(old(Ctl()), k, StoreShard(old(blocks)[k].ctl, 4 + shard))
      ensures |blocks| == |old(blocks)| && blocks[k].fec[shard] == parity
      ensures var base := old(blocks)[k].ctl.base;
        old(Faithful(words)) && parity == ParityOf(words[base], shard) ==> Faithful(words)
    {
      var b := blocks[k];
      StoreOk(b.ctl, 4 + shard);
      SetFecBlock(k, b.(ctl := StoreShard(b.ctl, 4 + shard), fec := b.fec[shard := parity]), words);
    }

    /** Decodes the shards of a block in buffers of their own. */
    method DecodeShards(b: FecBlock, ghost orig: seq<Vec>) returns (bodies: seq<Vec>)
      requires Valid() && Slots(b) && BlockOk(b.ctl) && !b.ctl.reassembled
      requires b.ctl.dataReceived + b.ctl.fecReceived >= 4 && Shaped(orig, 4, b.ctl.size)
      modifies rs.p
      ensures Valid() && Shaped(bodies, 6, b.ctl.size)
      ensures Restored(ShardsOf(b), bodies, rs.p[..], 4, 2, b.ctl.marks, orig, b.ctl.size)
    {
      var shards := MakeShards(b);
      FourSuffice(rs, b.ctl.marks);
      OpenFecDecodable(rs, b.ctl.marks);
      assert shards[..rs.ts] == shards && b.ctl.marks[..rs.ts] == b.ctl.marks;
      var ret := rs.Decode(shards, b.ctl.marks, b.ctl.size, orig);
      assert rs.p[..8] == OPENFEC;
      bodies := ReadShards(shards, b.ctl.size);
    }

    method RebuildPackets(b: FecBlock, bodies: seq<Vec>) returns (b': FecBlock)
      requires Slots(b) && BlockOk(b.ctl) && Shaped(bodies, 6, b.ctl.size)
      requires b.ctl.dataReceived + b.ctl.fecReceived >= 4 && b.ctl.dataReceived != 4
      ensures RecoveredTo(b, b', bodies, duration)
    {
      var data := b.data;
      for i := 0 to 4
        invariant |data| == 4
        invariant forall k :: 0 <= k < 4 ==>
          data[k] == if k < i && b.ctl.marks[k] then Rebuilt(b, k, bodies[k], duration) else b.data[k]
      {
        if b.ctl.marks[i] {
          data := data[i := Rebuilt(b, i, bodies[i], duration)];
        }
      }
      b' := b.(ctl := b.ctl.(marks := [false, false, false, false] + b.ctl.marks[4..], reassembled := true),
               data := data);
    }

    /** The lost data packets, decoded from the other shards and put under new headers. */
    method RecoverBlock(b: FecBlock, ghost words: Words) returns (b': FecBlock)
      requires Valid() && Slots(b) && BlockOk(b.ctl) && !b.ctl.reassembled
      requires b.ctl.dataReceived + b.ctl.fecReceived >= 4 && b.ctl.dataReceived != 4
      modifies rs.p
      ensures Valid() && Slots(b') && b'.ctl == Complete(b.ctl) && BlockOk(b'.ctl)
      ensures FaithfulBlock(b, words, duration) ==> FaithfulBlock(b', words, duration)
      ensures FaithfulBlock(b, words, duration) ==>
        forall i :: 0 <= i < 4 ==> b'.data[i] == PacketOf(words[b.ctl.base], b.ctl.base, i, duration)
    {
      ghost var orig := if FaithfulBlock(b, words, duration) then words[b.ctl.base].payloads else ShardsOf(b)[..4];
      var bodies := DecodeShards(b, orig);
      b' := RebuildPackets(b, bodies);
      CompleteOk(b.ctl);
      if FaithfulBlock(b, words, duration) {
        RecoveryFaithful(b, b', bodies, words, duration, rs.p[..]);
      }
    }

    /** completeFecBlock, with the caller's note that the block is complete. */
    method CompleteFecBlock(k: nat, ghost words: Words)
      requires Valid() && k < |blocks| && !blocks[k].ctl.reassembled
      modifies `blocks, rs.p
      ensures Valid() && Ctl() == SetBlock(old(Ctl()), k, Complete(old(blocks)[k].ctl))
      ensures old(Faithful(words)) ==> Faithful(words)
    {
      var b := blocks[k];
      CompleteOk(b.ctl);
      if b.ctl.dataReceived + b.ctl.fecReceived < 4 {
        SetFecBlock(k, b, words);
        return;
      }
      if b.ctl.dataReceived == 4 {
        SetFecBlock(k, b.(ctl := b.ctl.(reassembled := true)), words);
        return;
      }
      var b' := RecoverBlock(b, words);
      SetFecBlock(k, b', words);
    }

    /** The end of RtpaAddPacket for a packet that was stored in block k and not handed out. */
    method SettleBlock(k: nat, now: nat, ghost words: Words) returns (v: Verdict)
      requires Valid() && k < |blocks| && !blocks[k].ctl.reassembled && AllOk(Ctl().blocks)
      modifies this, rs.p
      ensures Valid() && (Ctl(), v) == Settle(old(Ctl()), k, now, duration)
      ensures old(Faithful(words)) ==> Faithful(words)
    {
      CompleteFecBlock(k, words);
      var ready := QueueHasPacketReady();
      if !ready {
        HandleMissingPackets(now, words);
      }
      ready := QueueHasPacketReady();
      v := if ready then Ready else Nothing;
    }

    /** Advances past the next packet of the head, which the caller has got hold of. */
    method AdvanceHead(ghost words: Words)
      requires Valid() && Inv(Ctl()) && |blocks| > 0 && blocks[0].ctl.base == oldestBase
      modifies this
      ensures Valid() && Ctl() == StepHead(old(Ctl()))
      ensures old(Faithful(words)) ==> Faithful(words)
    {
      PassNext(words);
      if blocks[0].ctl.nextIndex == DATA_SHARDS {
        FreeFecBlockHead(words);
      }
    }

    /** The numbers, moved on by one; the head may then have nothing left. */
    method PassNext(ghost words: Words)
      requires Valid() && |blocks| > 0
      modifies `blocks, `nextSeq
      ensures CodecReady() && |blocks| == |old(blocks)| && AllSlots(blocks[1..])
      ensures blocks[0].ctl == old(blocks)[0].ctl.(nextIndex := old(blocks)[0].ctl.nextIndex + 1)
      ensures Ctl() == SetBlock(old(Ctl()), 0, blocks[0].ctl).(next := Wrap16(old(nextSeq) + 1))
      ensures blocks[0].ctl.nextIndex < DATA_SHARDS ==> Valid()
      ensures old(Faithful(words)) ==> AllFaithful(blocks[1..], words, duration)
      ensures old(Faithful(words)) && blocks[0].ctl.nextIndex < DATA_SHARDS ==> Faithful(words)
    {
      var b := blocks[0];
      var b' := b.(ctl := b.ctl.(nextIndex := b.ctl.nextIndex + 1));
      nextSeq := Wrap16(nextSeq + 1);
      ControlsUpdated(blocks, 0, b');
      blocks := blocks[0 := b'];
    }

    lemma HandOutIsStep(k: nat, seqNum: U16)
      requires Valid() && Inv(Ctl()) && k < |blocks| && blocks[k].ctl.base == BaseOf(seqNum) && seqNum == nextSeq
      ensures k == 0 && blocks[0].ctl.base == oldestBase && HandOut(Ctl(), k, seqNum) == StepHead(Ctl())
    {
      NextIsInHead(Ctl(), k);
    }

    /** Stores a data packet in its block, and hands it out at once when it is the next one. */
    method PlaceDataPacket(k: nat, packet: Packet, now: nat, ghost words: Words) returns (v: Verdict)
      requires Valid() && Inv(Ctl()) && k < |blocks| && !blocks[k].ctl.reassembled
      requires blocks[k].ctl.base == BaseOf(packet.seqNum) && |packet.body| == blocks[k].ctl.size
      modifies this, rs.p
      ensures Valid()
      ensures (Ctl(), v) == PlaceData(old(Ctl()), k, packet.seqNum, now, duration)
      ensures var base := old(blocks)[k].ctl.base;
        old(Faithful(words)) && packet == PacketOf(words[base], base, packet.seqNum % 4, duration) ==> Faithful(words)
    {
      var pos := packet.seqNum % 4;
      if !blocks[k].ctl.marks[pos] {
        return Nothing;
      }
      StoreKeeps(Ctl(), k, pos);
      StoreDataPacket(k, pos, packet, words);
      if packet.seqNum == nextSeq {
        HandOutIsStep(k, packet.seqNum);
        AdvanceHead(words);
        return HandleNow;
      }
      v := SettleBlock(k, now, words);
    }

    /** The timestamp of the first packet of the block, if the sender's are one duration apart. */
    method BaseTimestamp(packet: Packet, ghost words: Words) returns (timestamp: U32)
      ensures packet.kind == PAYLOAD_AUDIO && HonestData(packet, words, duration) ==>
        HonestHeader(words, BaseOf(packet.seqNum), packet.kind, timestamp, packet.ssrc, |packet.body|)
    {
      timestamp := Wrap32(packet.timestamp - (packet.seqNum - BaseOf(packet.seqNum)) * duration);
      HonestDataHeader(packet, words, duration);
    }

    method AddDataPacket(packet: Packet, now: nat, ghost words: Words) returns (v: Verdict)
      requires Valid() && Inv(Ctl()) && !SentinelCollision(Ctl()) && packet.kind == PAYLOAD_AUDIO
      modifies this, rs.p
      ensures Valid()
      ensures (Ctl(), v) == AddData(old(Ctl()), packet.seqNum, |packet.body|, now, duration)
      ensures old(Faithful(words)) && HonestData(packet, words, duration) ==> Faithful(words)
    {
      var base := BaseOf(packet.seqNum);
      NoteKeeps(Ctl(), packet.seqNum);
      NoteDataOrder(packet.seqNum, words);
      GetBlockEffect(Ctl(), base, |packet.body|, now);
      var timestamp := BaseTimestamp(packet, words);
      var place := LocateBlock(base, packet.kind, timestamp, packet.ssrc, |packet.body|, now, words);
      if place == None {
        return Nothing;
      }
      v := PlaceDataPacket(place.value, packet, now, words);
    }

    method PlaceFecPacket(k: nat, shard: nat, parity: Vec, now: nat, ghost words: Words) returns (v: Verdict)
      requires Valid() && k < |blocks| && !blocks[k].ctl.reassembled
      requires shard < FEC_SHARDS && |parity| == blocks[k].ctl.size && AllOk(Ctl().blocks)
      modifies this, rs.p
      ensures Valid()
      ensures (Ctl(), v) == PlaceFec(old(Ctl()), k, shard, now, duration)
      ensures var base := old(blocks)[k].ctl.base;
        old(Faithful(words)) && parity == ParityOf(words[base], shard) ==> Faithful(words)
    {
      if !blocks[k].ctl.marks[4 + shard] {
        return Nothing;
      }
      StoreFecPacket(k, shard, parity, words);
      v := SettleBlock(k, now, words);
    }

    method AddFecPacket(packet: Packet, now: nat, ghost words: Words) returns (v: Verdict)
      requires Valid() && packet.kind == PAYLOAD_FEC && |packet.body| >= FEC_HEADER_SIZE && AllOk(Ctl().blocks)
      modifies this, rs.p
      ensures Valid()
      ensures var h := ParseFecHeader(packet.body);
        (Ctl(), v) == AddFec(old(Ctl()), h.base, h.shard, |packet.body| - FEC_HEADER_SIZE, now, duration)
      ensures old(Faithful(words)) && HonestFec(ParseFecHeader(packet.body), packet.body[FEC_HEADER_SIZE..], words) ==>
        Faithful(words)
    {
      var h, parity := ParseFecHeader(packet.body), packet.body[FEC_HEADER_SIZE..];
      if h.shard >= FEC_SHARDS {
        return Nothing;
      }
      if h.base % 4 != 0 {
        incompatible := true;
        return Nothing;
      }
      var place := LocateBlock(h.base, h.kind, h.timestamp, h.ssrc, |parity|, now, words);
      if place == None {
        return Nothing;
      }
      v := PlaceFecPacket(place.value, h.shard, parity, now, words);
    }

    /** RtpaAddPacket. */
    method AddPacket(packet: Packet, now: nat, ghost words: Words) returns (v: Verdict)
      requires Valid() && Inv(Ctl()) && !SentinelCollision(Ctl())
      modifies this, rs.p
      ensures Valid()
      ensures (Ctl(), v) == Add(old(Ctl()), ArrivalOf(packet), now, duration)
      ensures old(Faithful(words)) && HonestPacket(packet, words, duration) ==> Faithful(words)
    {
      if incompatible {
        return if packet.kind == PAYLOAD_AUDIO then HandleNow else Nothing;
      }
      if packet.kind == PAYLOAD_AUDIO {
        AddIsData(Ctl(), packet, now, duration);
        v := AddDataPacket(packet, now, words);
      } else if packet.kind == PAYLOAD_FEC && |packet.body| >= FEC_HEADER_SIZE {
        AddIsFec(Ctl(), packet, ParseFecHeader(packet.body), now, duration);
        v := AddFecPacket(packet, now, words);
      } else {
        v := Nothing;
      }
    }

    /** RtpaGetQueuedPacket: the next packet in order, or the placeholder of one given up as lost. */
    method GetQueuedPacket(ghost words: Words) returns (r: Option<Output>)
      requires Valid() && Inv(Ctl())
      modifies this
      ensures Valid() && Inv(Ctl()) && Ctl() == GetQueued(old(Ctl())).0
      ensures r.Some? <==> HasPacketReady(old(Ctl()))
      ensures r.Some? ==> Matches(r.value, GetQueued(old(Ctl())).1.value)
      ensures old(Faithful(words)) ==> Faithful(words)
      ensures old(Faithful(words)) && r.Some? ==> IsSenders(r.value, old(nextSeq), words, duration)
    {
      GetKeeps(Ctl());
      var ready := QueueHasPacketReady();
      if !ready {
        return None;
      }
      var b := blocks[0];
      HeadIsNext();
      r := Some(if b.ctl.discontinuity &&
        b.ctl.marks[b.ctl.nextIndex] then Placeholder else Stored(b.data[b.ctl.nextIndex]));
      AdvanceHead(words);
    }

    /** With a packet ready, the head starts at the oldest number and its next packet is the next one. */
    lemma HeadIsNext()
      requires Valid() && Inv(Ctl()) && HasPacketReady(Ctl())
      ensures |blocks| > 0 && blocks[0].ctl.base == oldestBase == BaseOf(nextSeq)
      ensures blocks[0].ctl.nextIndex == nextSeq % 4 && oldestBase + nextSeq % 4 == nextSeq
    {
      OldestOfNext(oldestBase, nextSeq);
    }

    /** One round of the caller's loop; out and taken are what earlier rounds have got. */
    method TakeNext(out: seq<Output>, ghost taken: seq<Unit>, ghost faithful: bool, ghost words: Words)
      returns (more: bool, out': seq<Output>, ghost taken': seq<Unit>)
      requires Valid() && Inv(Ctl()) && AllMatch(out, taken)
      requires faithful ==> Faithful(words) && AllSenders(out, taken, words, duration)
      modifies this
      ensures Valid() && Inv(Ctl()) && AllMatch(out', taken')
      ensures faithful ==> Faithful(words) && AllSenders(out', taken', words, duration)
      ensures Drained(Ctl()) == Drained(old(Ctl())) && taken' + DrainedUnits(Ctl()) == taken + DrainedUnits(old(Ctl()))
      ensures more ==> Remaining(Ctl()) < Remaining(old(Ctl()))
      ensures !more ==> Drained(Ctl()) == Ctl() && taken' + DrainedUnits(Ctl()) == taken'
    {
      ghost var q, u := Ctl(), GetQueued(Ctl()).1;
      GetKeeps(q);
      DrainStep(q, taken);
      var r := GetQueuedPacket(words);
      more := r.Some?;
      out', taken' := if more then out + [r.value] else out, if more then taken + [u.value] else taken;
    }

    /** The caller's loop: takes packets out until none is ready. */
    method TakeAll(ghost words: Words) returns (out: seq<Output>)
      requires Valid() && Inv(Ctl())
      modifies this
      ensures Valid() && Inv(Ctl()) && Ctl() == Drained(old(Ctl()))
      ensures AllMatch(out, DrainedUnits(old(Ctl())))
      ensures old(Faithful(words)) ==> Faithful(words) && AllSenders(out, DrainedUnits(old(Ctl())), words, duration)
    {
      out := [];
      ghost var q, taken, faithful := Ctl(), [], Faithful(words);
      var more := true;
      while more
        invariant Valid() && Inv(Ctl()) && AllMatch(out, taken)
        invariant faithful ==> Faithful(words) && AllSenders(out, taken, words, duration)
        invariant Drained(Ctl()) == Drained(q) && taken + DrainedUnits(Ctl()) == DrainedUnits(q)
        invariant !more ==> Drained(Ctl()) == Ctl() && taken + DrainedUnits(Ctl()) == taken
        decreases more, Remaining(Ctl())
      {
        more, out, taken := TakeNext(out, taken, faithful, words);
      }
    }

    /** What the receive loop does with one packet: adds it, and passes on what is then due. */
    method ReceivePacket(packet: Packet, now: nat, ghost words: Words) returns (out: seq<Output>)
      requires Valid() && CanReceive(Ctl())
      modifies this, rs.p
      ensures Valid() && Ctl() == Receive(old(Ctl()), Event(ArrivalOf(packet), now), duration).queue
      ensures AllMatch(out, Receive(old(Ctl()), Event(ArrivalOf(packet), now), duration).units)
      ensures old(Faithful(words)) && HonestPacket(packet, words, duration) ==>
        Faithful(words) && AllSenders(out, Receive(old(Ctl()), Event(ArrivalOf(packet), now), duration).units, words,
                                      duration)
    {
      ghost var q, a := Ctl(), ArrivalOf(packet);
      AddKeeps(q, a, now, duration);
      var v := AddPacket(packet, now, words);
      assert Receive(q, Event(a, now), duration) == ReceiptOf(q.next, a, Ctl(), v);
      match v
      case HandleNow => out := [Stored(packet)];
      case Ready => out := TakeAll(words);
      case Nothing => out := [];
    }
  }

  lemma HonestDataHeader(p: Packet, words: Words, duration: nat)
    ensures p.kind == PAYLOAD_AUDIO && HonestData(p, words, duration) ==>
      HonestHeader(words, BaseOf(p.seqNum), p.kind, Wrap32(p.timestamp - (p.seqNum - BaseOf(p.seqNum)) * duration),
                   p.ssrc, |p.body|)
  {
    if HonestData(p, words, duration) {
      var t := words[BaseOf(p.seqNum)].timestamp;
      TimeAtIsProduct(t, p.seqNum % 4, duration);
      TimestampBack(t, (p.seqNum % 4) * duration);
      assert p.seqNum - BaseOf(p.seqNum) == p.seqNum % 4;
    }
  }

  lemma TimestampBack(t: U32, d: int)
    ensures Wrap32(Wrap32(t + d) - d) == t
  {}
}
