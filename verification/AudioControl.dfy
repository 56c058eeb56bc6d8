/** The control state of the audio receive queue: which FEC blocks wait, which packets of each have
    come, and what is handed to the decoder next. Packet contents are in AudioQueue. */
module AudioControl {
  import opened Wrappers
  import opened SequenceNumbers

  const DATA_SHARDS := 4
  const FEC_SHARDS := 2
  const OOS_WAIT_TIME_MS := 10

  /** marks[i] holds while shard i is missing: four data shards, then two FEC shards. */
  datatype Block = Block(base: U16, marks: seq<bool>, queueTime: nat, dataReceived: nat, fecReceived: nat,
                         reassembled: bool, nextIndex: nat, discontinuity: bool, size: nat)

  datatype Queue = Queue(blocks: seq<Block>, next: U16, oldest: U16, lastOos: U16, oos: bool,
                         synchronizing: bool, incompatible: bool)

  /** A packet as the queue's control logic sees it. size is the length of its shard. */
  datatype Arrival =
    | Data(seqNum: U16, size: nat)
    | Fec(base: U16, shard: nat, size: nat)
    | Invalid(audio: bool)

  /** What a call of the queue tells its caller. */
  datatype Verdict = Nothing | HandleNow | Ready

  /** One unit handed to the decoder: a packet, or the placeholder of a lost one. */
  datatype Unit = Unit(seqNum: U16, lost: bool)

  function InitialQueue(incompatible: bool): Queue {
    Queue([], 0, 0, 0, false, true, incompatible)
  }

  function NewBlock(base: U16, size: nat, now: nat): Block {
    Block(base, [true, true, true, true, true, true], now, 0, 0, false, 0, false, size)
  }

  // ----- well-formed states

  /** How far a sequence number lies ahead of the oldest block still accepted. */
  function Ahead(oldest: U16, x: int): U16 { Wrap16(x - oldest) }

  predicate BlockOk(b: Block) {
    && b.base % 4 == 0 && |b.marks| == 6 && b.nextIndex < 4
    && (b.reassembled ==> !b.marks[0] && !b.marks[1] && !b.marks[2] && !b.marks[3])
    && (!b.reassembled ==> b.dataReceived == Present(b.marks[..4]) && b.fecReceived == Present(b.marks[4..]))
  }

  /** How many of the shards are there. */
  function Present(marks: seq<bool>): nat {
    if marks == [] then 0 else (if marks[0] then 0 else 1) + Present(marks[1..])
  }

  predicate AllOk(blocks: seq<Block>) {
    forall i :: 0 <= i < |blocks| ==> BlockOk(blocks[i])
  }

  ghost predicate Sorted(blocks: seq<Block>, oldest: U16) {
    && (forall i :: 0 <= i < |blocks| ==> Ahead(oldest, blocks[i].base) < 0x8000)
    && (forall i, j :: 0 <= i < j < |blocks| ==> Ahead(oldest, blocks[i].base) < Ahead(oldest, blocks[j].base))
  }

  /** Nothing of the block has been handed out, and it still waits for its gaps. */
  predicate Untouched(b: Block) { b.nextIndex == 0 && !b.discontinuity }

  /** Only a head block that starts at the oldest number may be partly handed out or give up on gaps. */
  ghost predicate HeadOk(blocks: seq<Block>, next: U16, oldest: U16) {
    && Ahead(oldest, next) < 4
    && (if |blocks| > 0 && blocks[0].base == oldest then
          blocks[0].nextIndex == Ahead(oldest, next)
        else
          next == oldest && (|blocks| > 0 ==> Untouched(blocks[0])))
    && (forall i :: 1 <= i < |blocks| ==> Untouched(blocks[i]))
  }

  ghost predicate Inv(q: Queue) {
    q.oldest % 4 == 0 && AllOk(q.blocks) && Sorted(q.blocks, q.oldest) && HeadOk(q.blocks, q.next, q.oldest)
  }

  /** The oldest number doubles as the "not synchronized yet" mark. When resynchronizing to a block
      with base 0 sets it before any block has completed, the next packet restarts the queue
      under the waiting blocks. */
  ghost predicate SentinelCollision(q: Queue) {
    q.synchronizing && q.oldest == 0 && |q.blocks| > 0
  }

  // ----- the operations

  predicate HasPacketReady(q: Queue)
    requires |q.blocks| > 0 ==> BlockOk(q.blocks[0])
  {
    |q.blocks| > 0 &&
    var h := q.blocks[0];
    (!h.marks[h.nextIndex] && h.base + h.nextIndex == q.next) || h.discontinuity
  }

  function FreeHead(q: Queue): Queue
    requires |q.blocks| > 0
  {
    q.(blocks := q.blocks[1..], oldest := Wrap16(q.blocks[0].base + 4), synchronizing := false)
  }

  /** Remembers late data, and forgets it after half a circle without any. */
  function NoteOutOfSequence(q: Queue, seqNum: U16): Queue {
    if !q.synchronizing && IsBefore16(seqNum, q.oldest) then
      q.(lastOos := seqNum, oos := true)
    else if q.oos && IsBefore16(q.oldest, q.lastOos) then
      q.(oos := false)
    else q
  }

  /** The first block from i on that has the base or comes after it. */
  function FindPlace(blocks: seq<Block>, base: U16, i: nat): (k: nat)
    requires i <= |blocks|
    ensures i <= k <= |blocks|
    ensures k < |blocks| ==> blocks[k].base == base || IsBefore16(base, blocks[k].base)
    ensures forall j :: i <= j < k ==> blocks[j].base != base && !IsBefore16(base, blocks[j].base)
    decreases |blocks| - i
  {
    if i == |blocks| || blocks[i].base == base || IsBefore16(base, blocks[i].base) then i
    else FindPlace(blocks, base, i + 1)
  }

  /** The queue with a block for base in place, and the block's index; none when the packet is to be
      dropped. */
  function GetBlock(q: Queue, base: U16, size: nat, now: nat): (Queue, Option<nat>) {
    if q.synchronizing && q.oldest == 0 then
      (q.(next := Wrap16(base + 4), oldest := Wrap16(base + 4)), None)
    else if IsBefore16(base, q.oldest) then (q, None)
    else
      var k := FindPlace(q.blocks, base, 0);
      if k < |q.blocks| && q.blocks[k].base == base then
        if q.blocks[k].size != size then (q.(incompatible := true), None)
        else (q, if q.blocks[k].reassembled then None else Some(k))
      else
        (q.(blocks := q.blocks[..k] + [NewBlock(base, size, now)] + q.blocks[k..]), Some(k))
  }

  /** Recovery fills in the data shards once any four shards are there. */
  function Complete(b: Block): Block
    requires |b.marks| == 6
  {
    if b.dataReceived + b.fecReceived < 4 then b
    else if b.dataReceived == 4 then b.(reassembled := true)
    else b.(marks := [false, false, false, false] + b.marks[4..], reassembled := true)
  }

  /** Gives up waiting, when there is reason to. */
  function HandleMissing(q: Queue, now: nat, duration: nat): Queue {
    if q.blocks == [] then q
    else
      var h := q.blocks[0];
      if IsBefore16(q.next, h.base) then q.(next := h.base, oldest := h.base)
      else if |q.blocks| == 1 then q
      else if !q.oos || (now - h.queueTime) % 0x1_0000_0000_0000_0000 > duration * 4 + OOS_WAIT_TIME_MS * 1000 then
        q.(blocks := [h.(discontinuity := true)] + q.blocks[1..])
      else q
  }

  /** Stores a shard that was missing. */
  function StoreShard(b: Block, shard: nat): Block
    requires shard < |b.marks|
  {
    var b' := b.(marks := b.marks[shard := false]);
    if shard < 4 then b'.(dataReceived := b.dataReceived + 1) else b'.(fecReceived := b.fecReceived + 1)
  }

  function SetBlock(q: Queue, k: nat, b: Block): Queue
    requires k < |q.blocks|
  {
    q.(blocks := q.blocks[k := b])
  }

  /** The end of an arrival that was stored in block k and is not handed out at once. */
  function Settle(q: Queue, k: nat, now: nat, duration: nat): (Queue, Verdict)
    requires k < |q.blocks| && AllOk(q.blocks)
    requires !q.blocks[k].reassembled
  {
    CompleteOk(q.blocks[k]);
    var q1 := SetBlock(q, k, Complete(q.blocks[k]));
    var q2 := if HasPacketReady(q1) then q1 else HandleMissing(q1, now, duration);
    (q2, if HasPacketReady(q2) then Ready else Nothing)
  }

  lemma CompleteOk(b: Block)
    requires BlockOk(b) && !b.reassembled
    ensures BlockOk(Complete(b))
  {
    PresentAll(b.marks[..4]);
  }

  lemma {:induction false} PresentAll(marks: seq<bool>)
    ensures Present(marks) <= |marks|
    ensures Present(marks) == |marks| <==> forall i :: 0 <= i < |marks| ==> !marks[i]
  {
    if marks != [] {
      PresentAll(marks[1..]);
      assert forall i :: 0 <= i < |marks[1..]| ==> marks[1..][i] == marks[i + 1];
      if forall i :: 0 <= i < |marks[1..]| ==> !marks[1..][i] {
        assert forall i :: 1 <= i < |marks| ==> marks[i] == marks[1..][i - 1];
      }
    }
  }

  lemma {:induction false} PresentUpdated(marks: seq<bool>, k: nat)
    requires k < |marks| && marks[k]
    ensures Present(marks[k := false]) == Present(marks) + 1
  {
    if k > 0 {
      assert marks[k := false][1..] == marks[1..][k - 1 := false];
      PresentUpdated(marks[1..], k - 1);
    } else {
      assert marks[k := false][1..] == marks[1..];
    }
  }

  lemma StoreOk(b: Block, shard: nat)
    requires BlockOk(b) && !b.reassembled && shard < 6 && b.marks[shard]
    ensures BlockOk(StoreShard(b, shard))
  {
    var marks := b.marks[shard := false];
    if shard < 4 {
      assert marks[..4] == b.marks[..4][shard := false] && marks[4..] == b.marks[4..];
      PresentUpdated(b.marks[..4], shard);
    } else {
      assert marks[..4] == b.marks[..4] && marks[4..] == b.marks[4..][shard - 4 := false];
      PresentUpdated(b.marks[4..], shard - 4);
    }
  }

  // ----- adding a packet

  function BaseOf(seqNum: U16): U16 { seqNum / 4 * 4 }

  /** The in-order packet: the caller is told to consume it at once. */
  function HandOut(q: Queue, k: nat, seqNum: U16): Queue
    requires k < |q.blocks|
  {
    var b := q.blocks[k];
    var q1 := SetBlock(q, k, b.(nextIndex := b.nextIndex + 1)).(next := Wrap16(seqNum + 1));
    if q1.next == Wrap16(b.base + 4) then FreeHead(q1) else q1
  }

  function AddData(q: Queue, seqNum: U16, size: nat, now: nat, duration: nat): (Queue, Verdict)
    requires AllOk(q.blocks)
  {
    StoreData(NoteOutOfSequence(q, seqNum), seqNum, size, now, duration)
  }

  function StoreData(q: Queue, seqNum: U16, size: nat, now: nat, duration: nat): (Queue, Verdict)
    requires AllOk(q.blocks)
  {
    var (q1, place) := GetBlock(q, BaseOf(seqNum), size, now);
    if place == None then (q1, Nothing)
    else
      BlocksOk(q, BaseOf(seqNum), size, now);
      PlaceData(q1, place.value, seqNum, now, duration)
  }

  /** Stores a data packet in block k unless it is a duplicate. */
  function PlaceData(q: Queue, k: nat, seqNum: U16, now: nat, duration: nat): (Queue, Verdict)
    requires AllOk(q.blocks) && k < |q.blocks| && !q.blocks[k].reassembled
  {
    if !q.blocks[k].marks[seqNum % 4] then (q, Nothing)
    else
      StoreOk(q.blocks[k], seqNum % 4);
      var q' := SetBlock(q, k, StoreShard(q.blocks[k], seqNum % 4));
      if seqNum == q'.next then (HandOut(q', k, seqNum), HandleNow)
      else Settle(q', k, now, duration)
  }

  function AddFec(q: Queue, base: U16, shard: nat, size: nat, now: nat, duration: nat): (Queue, Verdict)
    requires AllOk(q.blocks)
  {
    if shard >= FEC_SHARDS then (q, Nothing)
    else if base % 4 != 0 then (q.(incompatible := true), Nothing)
    else
      var (q1, place) := GetBlock(q, base, size, now);
      if place == None then (q1, Nothing)
      else
        BlocksOk(q, base, size, now);
        PlaceFec(q1, place.value, shard, now, duration)
  }

  /** Stores a parity packet in block k unless it is a duplicate. */
  function PlaceFec(q: Queue, k: nat, shard: nat, now: nat, duration: nat): (Queue, Verdict)
    requires AllOk(q.blocks) && k < |q.blocks| && !q.blocks[k].reassembled && shard < FEC_SHARDS
  {
    if !q.blocks[k].marks[4 + shard] then (q, Nothing)
    else
      StoreOk(q.blocks[k], 4 + shard);
      Settle(SetBlock(q, k, StoreShard(q.blocks[k], 4 + shard)), k, now, duration)
  }

  function Add(q: Queue, a: Arrival, now: nat, duration: nat): (Queue, Verdict)
    requires AllOk(q.blocks)
  {
    if q.incompatible then (q, if a.Data? || (a.Invalid? && a.audio) then HandleNow else Nothing)
    else match a
      case Data(seqNum, size) => AddData(q, seqNum, size, now, duration)
      case Fec(base, shard, size) => AddFec(q, base, shard, size, now, duration)
      case Invalid(_) => (q, Nothing)
  }

  lemma BlocksOk(q: Queue, base: U16, size: nat, now: nat)
    requires AllOk(q.blocks)
    requires base % 4 == 0
    ensures var (q1, place) := GetBlock(q, base, size, now);
      && AllOk(q1.blocks)
      && (place.Some? ==>
        place.value < |q1.blocks| && !q1.blocks[place.value].reassembled && q1.blocks[place.value].base == base)
  {
    var b := NewBlock(base, size, now);
    assert b.marks[..4] == [true, true, true, true] && b.marks[4..] == [true, true];
    NonePresent(b.marks[..4]); NonePresent(b.marks[4..]);
    assert BlockOk(b);
  }

  lemma {:induction false} NonePresent(marks: seq<bool>)
    requires forall i :: 0 <= i < |marks| ==> marks[i]
    ensures Present(marks) == 0
  {
    if marks != [] { NonePresent(marks[1..]); }
  }

  // ----- taking packets out

  /** The next unit, if there is one: under discontinuity a missing packet yields its placeholder. */
  function GetQueued(q: Queue): (Queue, Option<Unit>)
    requires |q.blocks| > 0 ==> BlockOk(q.blocks[0])
  {
    if |q.blocks| > 0 && q.blocks[0].discontinuity && q.blocks[0].marks[q.blocks[0].nextIndex] then
      (StepHead(q), Some(Unit(q.next, true)))
    else if HasPacketReady(q) then
      (StepHead(q), Some(Unit(Wrap16(q.blocks[0].base + q.blocks[0].nextIndex), false)))
    else (q, None)
  }

  function StepHead(q: Queue): Queue
    requires |q.blocks| > 0
  {
    var h := q.blocks[0];
    var q1 := SetBlock(q, 0, h.(nextIndex := h.nextIndex + 1)).(next := Wrap16(q.next + 1));
    if h.nextIndex + 1 == 4 then FreeHead(q1) else q1
  }

  // ----- the invariant is kept

  lemma NoteKeeps(q: Queue, seqNum: U16)
    requires Inv(q)
    ensures Inv(NoteOutOfSequence(q, seqNum))
  {}

  lemma AheadAdvanced(oldest: U16, base: U16)
    requires oldest % 4 == 0 && base % 4 == 0 && 0 < Ahead(oldest, base)
    ensures Ahead(Wrap16(oldest + 4), base) == Ahead(oldest, base) - 4
  {}

  lemma SortedTail(blocks: seq<Block>, oldest: U16)
    requires oldest % 4 == 0 && Sorted(blocks, oldest) && |blocks| > 0
    requires forall i :: 0 <= i < |blocks| ==> blocks[i].base % 4 == 0
    ensures Sorted(blocks[1..], Wrap16(oldest + 4))
  {
    forall i | 1 <= i < |blocks|
      ensures Ahead(Wrap16(oldest + 4), blocks[i].base) == Ahead(oldest, blocks[i].base) - 4
    {
      assert Ahead(oldest, blocks[0].base) < Ahead(oldest, blocks[i].base);
      AheadAdvanced(oldest, blocks[i].base);
    }
    forall i, j | 0 <= i < j < |blocks[1..]|
      ensures Ahead(Wrap16(oldest + 4), blocks[1..][i].base) < Ahead(Wrap16(oldest + 4), blocks[1..][j].base)
    {
      assert Ahead(oldest, blocks[i + 1].base) < Ahead(oldest, blocks[j + 1].base);
    }
  }

  /** Freeing a head whose four packets are all handed out. */
  lemma FreeHeadKeeps(q: Queue)
    requires q.oldest % 4 == 0 && Sorted(q.blocks, q.oldest) && |q.blocks| > 0 && q.blocks[0].base == q.oldest
    requires forall i :: 1 <= i < |q.blocks| ==> BlockOk(q.blocks[i]) && Untouched(q.blocks[i])
    requires q.next == Wrap16(q.oldest + 4)
    ensures Inv(FreeHead(q))
  {
    SortedTail(q.blocks, q.oldest);
  }

  lemma SortedUpdated(blocks: seq<Block>, oldest: U16, k: nat, b: Block)
    requires Sorted(blocks, oldest) && k < |blocks| && b.base == blocks[k].base
    ensures Sorted(blocks[k := b], oldest)
  {}

  lemma StepHeadKeeps(q: Queue)
    requires Inv(q) && |q.blocks| > 0 && q.blocks[0].base == q.oldest
    ensures Inv(StepHead(q))
  {
    var h := q.blocks[0];
    var q1 := SetBlock(q, 0, h.(nextIndex := h.nextIndex + 1)).(next := Wrap16(q.next + 1));
    SortedUpdated(q.blocks, q.oldest, 0, h.(nextIndex := h.nextIndex + 1));
    if h.nextIndex + 1 == 4 { FreeHeadKeeps(q1); }
  }

  /** The search stops exactly where the base belongs. */
  lemma PlaceSplits(blocks: seq<Block>, oldest: U16, base: U16, k: nat, j: nat)
    requires Sorted(blocks, oldest) && k == FindPlace(blocks, base, 0) && j < |blocks|
    requires !IsBefore16(base, oldest)
    requires k < |blocks| ==> blocks[k].base != base
    ensures j < k ==> Ahead(oldest, blocks[j].base) < Ahead(oldest, base)
    ensures j >= k ==> Ahead(oldest, base) < Ahead(oldest, blocks[j].base)
  {
    AheadCompares(oldest, base, blocks[j].base);
    if j >= k && j > k {
      AheadCompares(oldest, base, blocks[k].base);
      assert Ahead(oldest, blocks[k].base) < Ahead(oldest, blocks[j].base);
    }
  }

  lemma AheadCompares(oldest: U16, x: U16, y: U16)
    requires Ahead(oldest, x) < 0x8000 && Ahead(oldest, y) < 0x8000
    ensures IsBefore16(x, y) <==> Ahead(oldest, x) < Ahead(oldest, y)
    ensures x == y <==> Ahead(oldest, x) == Ahead(oldest, y)
  {
    BeforeInWindow(oldest, x, y);
    DistanceInjective(oldest, x, y);
  }

  /** The pairs of a list with one more element at k. */
  lemma InsertSortedPair(blocks: seq<Block>, oldest: U16, k: nat, b: Block, i: nat, j: nat)
    requires Sorted(blocks, oldest) && k <= |blocks| && i < j <= |blocks|
    requires forall l :: 0 <= l < k ==> Ahead(oldest, blocks[l].base) < Ahead(oldest, b.base)
    requires forall l :: k <= l < |blocks| ==> Ahead(oldest, b.base) < Ahead(oldest, blocks[l].base)
    ensures var blocks' := blocks[..k] + [b] + blocks[k..];
      Ahead(oldest, blocks'[i].base) < Ahead(oldest, blocks'[j].base)
  {
    var blocks' := blocks[..k] + [b] + blocks[k..];
    if i < k {
      assert blocks'[i] == blocks[i];
      if j < k { assert blocks'[j] == blocks[j]; } else if j > k { assert blocks'[j] == blocks[j - 1]; }
    } else {
      assert blocks'[j] == blocks[j - 1];
      if i > k { assert blocks'[i] == blocks[i - 1]; }
    }
  }

  lemma InsertBetween(blocks: seq<Block>, oldest: U16, k: nat, b: Block)
    requires Sorted(blocks, oldest) && k <= |blocks| && Ahead(oldest, b.base) < 0x8000
    requires forall l :: 0 <= l < k ==> Ahead(oldest, blocks[l].base) < Ahead(oldest, b.base)
    requires forall l :: k <= l < |blocks| ==> Ahead(oldest, b.base) < Ahead(oldest, blocks[l].base)
    ensures Sorted(blocks[..k] + [b] + blocks[k..], oldest)
  {
    var blocks' := blocks[..k] + [b] + blocks[k..];
    forall i, j | 0 <= i < j < |blocks'|
      ensures Ahead(oldest, blocks'[i].base) < Ahead(oldest, blocks'[j].base)
    {
      InsertSortedPair(blocks, oldest, k, b, i, j);
    }
    forall i | 0 <= i < |blocks'|
      ensures Ahead(oldest, blocks'[i].base) < 0x8000
    {
      assert blocks'[i] == if i < k then blocks[i] else if i == k then b else blocks[i - 1];
    }
  }

  lemma InsertSorted(blocks: seq<Block>, oldest: U16, k: nat, b: Block)
    requires Sorted(blocks, oldest) && k == FindPlace(blocks, b.base, 0)
    requires !IsBefore16(b.base, oldest)
    requires k < |blocks| ==> blocks[k].base != b.base
    ensures Sorted(blocks[..k] + [b] + blocks[k..], oldest)
  {
    forall l | 0 <= l < |blocks|
      ensures l < k ==> Ahead(oldest, blocks[l].base) < Ahead(oldest, b.base)
      ensures l >= k ==> Ahead(oldest, b.base) < Ahead(oldest, blocks[l].base)
    {
      PlaceSplits(blocks, oldest, b.base, k, l);
    }
    InsertBetween(blocks, oldest, k, b);
  }

  lemma InsertHeadOk(blocks: seq<Block>, next: U16, oldest: U16, k: nat, b: Block)
    requires HeadOk(blocks, next, oldest) && Sorted(blocks, oldest) && k <= |blocks| && Untouched(b)
    requires Sorted(blocks[..k] + [b] + blocks[k..], oldest)
    ensures HeadOk(blocks[..k] + [b] + blocks[k..], next, oldest)
  {
    var blocks' := blocks[..k] + [b] + blocks[k..];
    if k == 0 && |blocks| > 0 { assert Ahead(oldest, blocks'[0].base) < Ahead(oldest, blocks'[1].base); }
    forall i | 1 <= i < |blocks'|
      ensures Untouched(blocks'[i])
    {
      if i > k { assert blocks'[i] == blocks[i - 1]; }
    }
  }

  lemma GetBlockKeeps(q: Queue, base: U16, size: nat, now: nat)
    requires Inv(q) && !SentinelCollision(q) && base % 4 == 0
    ensures Inv(GetBlock(q, base, size, now).0)
  {
    BlocksOk(q, base, size, now);
    var k := FindPlace(q.blocks, base, 0);
    if !(q.synchronizing && q.oldest == 0) && !IsBefore16(base, q.oldest) &&
      !(k < |q.blocks| && q.blocks[k].base == base) {
      InsertSorted(q.blocks, q.oldest, k, NewBlock(base, size, now));
      InsertHeadOk(q.blocks, q.next, q.oldest, k, NewBlock(base, size, now));
    }
  }

  /** Replacing a block by one with the same base and the same hand-out state. */
  lemma SetBlockKeeps(q: Queue, k: nat, b: Block)
    requires Inv(q) && k < |q.blocks| && BlockOk(b)
    requires b.base == q.blocks[k].base && b.nextIndex == q.blocks[k].nextIndex
    requires b.discontinuity == q.blocks[k].discontinuity
    ensures Inv(SetBlock(q, k, b))
  {
    SortedUpdated(q.blocks, q.oldest, k, b);
  }

  lemma AheadRebased(oldest: U16, base: U16, x: U16)
    requires Ahead(oldest, base) <= Ahead(oldest, x)
    ensures Ahead(base, x) == Ahead(oldest, x) - Ahead(oldest, base)
  {}

  lemma HeadBeforeNext(q: Queue)
    requires Inv(q) && |q.blocks| > 0
    ensures IsBefore16(q.next, q.blocks[0].base) <==> q.blocks[0].base != q.oldest
    ensures q.blocks[0].base != q.oldest ==> 0 < Ahead(q.oldest, q.blocks[0].base) < 0x8000
  {
    var base := q.blocks[0].base;
    DistanceInjective(q.oldest, base, q.oldest);
  }

  lemma RebaseKeeps(q: Queue)
    requires Inv(q) && |q.blocks| > 0 && q.blocks[0].base != q.oldest
    ensures Inv(q.(next := q.blocks[0].base, oldest := q.blocks[0].base))
  {
    var base := q.blocks[0].base;
    forall i | 0 <= i < |q.blocks|
      ensures Ahead(base, q.blocks[i].base) == Ahead(q.oldest, q.blocks[i].base) - Ahead(q.oldest, base)
    {
      assert i == 0 || Ahead(q.oldest, base) < Ahead(q.oldest, q.blocks[i].base);
      AheadRebased(q.oldest, base, q.blocks[i].base);
    }
    assert Sorted(q.blocks, base);
  }

  /** The next number stays, or jumps forward to the first packet of the block that is now the oldest. */
  ghost predicate StaysOrJumps(next: U16, q': Queue) {
    || q'.next == next
    || (|q'.blocks| > 0 && q'.next == q'.oldest == q'.blocks[0].base && Forward(next, q'.next))
  }

  predicate Forward(x: U16, y: U16) { 0 < Wrap16(y - x) < 0x8000 }

  lemma HandleMissingKeeps(q: Queue, now: nat, duration: nat)
    requires Inv(q)
    ensures var q' := HandleMissing(q, now, duration);
      Inv(q') && StaysOrJumps(q.next, q')
  {
    if |q.blocks| > 0 {
      HeadBeforeNext(q);
      if q.blocks[0].base != q.oldest {
        RebaseKeeps(q);
      } else {
        var h := q.blocks[0];
        SortedUpdated(q.blocks, q.oldest, 0, h.(discontinuity := true));
        assert [h.(discontinuity := true)] + q.blocks[1..] == q.blocks[0 := h.(discontinuity := true)];
      }
    }
  }

  lemma SettleKeeps(q: Queue, k: nat, now: nat, duration: nat)
    requires Inv(q) && k < |q.blocks| && !q.blocks[k].reassembled
    ensures var (q', v) := Settle(q, k, now, duration);
      && Inv(q') && StaysOrJumps(q.next, q')
      && (v == Ready <==> HasPacketReady(q')) && v != HandleNow
  {
    CompleteOk(q.blocks[k]);
    SetBlockKeeps(q, k, Complete(q.blocks[k]));
    HandleMissingKeeps(SetBlock(q, k, Complete(q.blocks[k])), now, duration);
  }

  lemma OldestOfNext(oldest: U16, next: U16)
    requires oldest % 4 == 0 && Ahead(oldest, next) < 4
    ensures BaseOf(next) == oldest && next == oldest + Ahead(oldest, next)
    ensures Wrap16(next + 1) == Wrap16(oldest + 4) <==> Ahead(oldest, next) + 1 == 4
  {}

  lemma HeadAtOldest(blocks: seq<Block>, oldest: U16, k: nat)
    requires Sorted(blocks, oldest) && k < |blocks| && blocks[k].base == oldest
    ensures k == 0
  {
    var first, here := Ahead(oldest, blocks[0].base), Ahead(oldest, blocks[k].base);
    assert here == 0;
  }

  /** Only the head can hold the next packet, and handing it out is a step of the head. */
  lemma NextIsInHead(q: Queue, k: nat)
    requires Inv(q) && k < |q.blocks| && q.blocks[k].base == BaseOf(q.next)
    ensures k == 0 && q.blocks[0].base == q.oldest
    ensures HandOut(q, 0, q.next) == StepHead(q)
  {
    OldestOfNext(q.oldest, q.next);
    HeadAtOldest(q.blocks, q.oldest, k);
  }

  // ----- what one call does

  /** No packet has fixed the start of the stream yet. */
  predicate Unsynchronized(q: Queue) { q.synchronizing && q.oldest == 0 }

  /** The effect on the next number, which was next before; started tells whether the start was fixed. */
  ghost predicate AddEffect(next: U16, started: bool, a: Arrival, q': Queue, v: Verdict) {
    && Inv(q')
    && (v == HandleNow ==> a.Data? && a.seqNum == next && q'.next == Wrap16(next + 1))
    && (v != HandleNow ==> StaysOrJumps(next, q') || (!started && q'.next % 4 == 0))
    && (v == Ready ==> HasPacketReady(q'))
  }

  lemma GetBlockEffect(q: Queue, base: U16, size: nat, now: nat)
    requires Inv(q) && !SentinelCollision(q) && base % 4 == 0
    ensures var (q', place) := GetBlock(q, base, size, now);
      && Inv(q')
      && (q'.next == q.next || (Unsynchronized(q) && q'.next % 4 == 0 && place == None))
      && (place.Some? ==>
        place.value < |q'.blocks| && !q'.blocks[place.value].reassembled && q'.blocks[place.value].base == base)
  {
    GetBlockKeeps(q, base, size, now);
    BlocksOk(q, base, size, now);
  }

  lemma StoreKeeps(q: Queue, k: nat, shard: nat)
    requires Inv(q) && k < |q.blocks| && !q.blocks[k].reassembled && shard < 6 && q.blocks[k].marks[shard]
    ensures Inv(SetBlock(q, k, StoreShard(q.blocks[k], shard)))
  {
    StoreOk(q.blocks[k], shard);
    SetBlockKeeps(q, k, StoreShard(q.blocks[k], shard));
  }

  lemma StoredDataEffect(q: Queue, k: nat, seqNum: U16, now: nat, duration: nat)
    requires Inv(q) && k < |q.blocks| && !q.blocks[k].reassembled && q.blocks[k].base == BaseOf(seqNum)
    ensures seqNum == q.next ==>
      Inv(HandOut(q, k, seqNum)) && HandOut(q, k, seqNum).next == Wrap16(q.next + 1)
    ensures var (q', v) := Settle(q, k, now, duration);
      Inv(q') && StaysOrJumps(q.next, q') && (v == Ready <==> HasPacketReady(q')) && v != HandleNow
  {
    if seqNum == q.next {
      NextIsInHead(q, k);
      StepHeadKeeps(q);
    }
    SettleKeeps(q, k, now, duration);
  }

  lemma PlaceDataEffect(q: Queue, k: nat, seqNum: U16, size: nat, started: bool, now: nat, duration: nat)
    requires Inv(q) && k < |q.blocks| && !q.blocks[k].reassembled && q.blocks[k].base == BaseOf(seqNum)
    ensures var (q', v) := PlaceData(q, k, seqNum, now, duration); AddEffect(q.next, started, Data(seqNum, size), q', v)
  {
    if q.blocks[k].marks[seqNum % 4] {
      StoreKeeps(q, k, seqNum % 4);
      StoredDataEffect(SetBlock(q, k, StoreShard(q.blocks[k], seqNum % 4)), k, seqNum, now, duration);
    }
  }

  lemma StoreDataEffect(q: Queue, seqNum: U16, size: nat, now: nat, duration: nat)
    requires Inv(q) && !SentinelCollision(q)
    ensures var (q', v) := StoreData(q, seqNum, size, now, duration);
      AddEffect(q.next, !Unsynchronized(q), Data(seqNum, size), q', v)
  {
    GetBlockEffect(q, BaseOf(seqNum), size, now);
    var (q1, place) := GetBlock(q, BaseOf(seqNum), size, now);
    var r := StoreData(q, seqNum, size, now, duration);
    if place == None {
      assert r == (q1, Nothing);
    } else {
      PlaceDataEffect(q1, place.value, seqNum, size, !Unsynchronized(q), now, duration);
      assert r == PlaceData(q1, place.value, seqNum, now, duration);
    }
  }

  lemma PlaceFecEffect(q: Queue, k: nat, base: U16, shard: nat, size: nat, started: bool, now: nat, duration: nat)
    requires Inv(q) && k < |q.blocks| && !q.blocks[k].reassembled && shard < FEC_SHARDS
    ensures var (q', v) := PlaceFec(q, k, shard, now, duration);
      AddEffect(q.next, started, Fec(base, shard, size), q', v)
  {
    if q.blocks[k].marks[4 + shard] {
      StoreKeeps(q, k, 4 + shard);
      SettleKeeps(SetBlock(q, k, StoreShard(q.blocks[k], 4 + shard)), k, now, duration);
    }
  }

  lemma AddFecEffect(q: Queue, base: U16, shard: nat, size: nat, now: nat, duration: nat)
    requires Inv(q) && !SentinelCollision(q) && !q.incompatible
    ensures var (q', v) := AddFec(q, base, shard, size, now, duration);
      AddEffect(q.next, !Unsynchronized(q), Fec(base, shard, size), q', v)
  {
    var r := AddFec(q, base, shard, size, now, duration);
    if shard < FEC_SHARDS && base % 4 == 0 {
      GetBlockEffect(q, base, size, now);
      var (q1, place) := GetBlock(q, base, size, now);
      if place == None {
        assert r == (q1, Nothing);
      } else {
        PlaceFecEffect(q1, place.value, base, shard, size, !Unsynchronized(q), now, duration);
        assert r == PlaceFec(q1, place.value, shard, now, duration);
      }
    }
  }

  /** A packet keeps the invariant; it moves the next number only by handing itself out as that number,
      or by jumping forward to the start of a block. */
  lemma AddKeeps(q: Queue, a: Arrival, now: nat, duration: nat)
    requires Inv(q) && !SentinelCollision(q) && !q.incompatible
    ensures var (q', v) := Add(q, a, now, duration); AddEffect(q.next, !Unsynchronized(q), a, q', v)
  {
    match a
    case Data(seqNum, size) =>
      NoteKeeps(q, seqNum);
      StoreDataEffect(NoteOutOfSequence(q, seqNum), seqNum, size, now, duration);
    case Fec(base, shard, size) => AddFecEffect(q, base, shard, size, now, duration);
    case Invalid(_) =>
  }

  // ----- jumps do not add up

  /** The head is the block of the next number: there is nothing to jump over. */
  predicate Anchored(q: Queue) { |q.blocks| > 0 && q.blocks[0].base == q.oldest }

  /** A block has been stored, or the start of the stream is fixed. */
  predicate Begun(q: Queue) { !Unsynchronized(q) || q.blocks != [] }

  lemma GetBlockAnchored(q: Queue, base: U16, size: nat, now: nat)
    requires Inv(q) && !SentinelCollision(q) && base % 4 == 0 && Anchored(q)
    ensures Anchored(GetBlock(q, base, size, now).0) && GetBlock(q, base, size, now).0.next == q.next
  {
    var k := FindPlace(q.blocks, base, 0);
    if !IsBefore16(base, q.oldest) && base != q.oldest {
      assert k > 0;
    }
  }

  lemma SettleAnchored(q: Queue, k: nat, now: nat, duration: nat)
    requires Inv(q) && k < |q.blocks| && !q.blocks[k].reassembled && Anchored(q)
    ensures Anchored(Settle(q, k, now, duration).0) && Settle(q, k, now, duration).0.next == q.next
  {
    CompleteOk(q.blocks[k]);
    var q1 := SetBlock(q, k, Complete(q.blocks[k]));
    SetBlockKeeps(q, k, Complete(q.blocks[k]));
    HeadBeforeNext(q1);
  }

  lemma StoreDataAnchored(q: Queue, seqNum: U16, size: nat, now: nat, duration: nat)
    requires Inv(q) && !SentinelCollision(q) && Anchored(q)
    ensures var (q', v) := StoreData(q, seqNum, size, now, duration);
      v != HandleNow ==> Anchored(q') && q'.next == q.next
  {
    GetBlockAnchored(q, BaseOf(seqNum), size, now);
    GetBlockEffect(q, BaseOf(seqNum), size, now);
    var (q1, place) := GetBlock(q, BaseOf(seqNum), size, now);
    if place.Some? && q1.blocks[place.value].marks[seqNum % 4] {
      StoreKeeps(q1, place.value, seqNum % 4);
      var q2 := SetBlock(q1, place.value, StoreShard(q1.blocks[place.value], seqNum % 4));
      SettleAnchored(q2, place.value, now, duration);
    }
  }

  lemma AddFecAnchored(q: Queue, base: U16, shard: nat, size: nat, now: nat, duration: nat)
    requires Inv(q) && !SentinelCollision(q) && Anchored(q)
    ensures Anchored(AddFec(q, base, shard, size, now, duration).0)
    ensures AddFec(q, base, shard, size, now, duration).0.next == q.next
  {
    if shard < FEC_SHARDS && base % 4 == 0 {
      GetBlockAnchored(q, base, size, now);
      GetBlockEffect(q, base, size, now);
      var (q1, place) := GetBlock(q, base, size, now);
      if place.Some? && q1.blocks[place.value].marks[4 + shard] {
        StoreKeeps(q1, place.value, 4 + shard);
        var q2 := SetBlock(q1, place.value, StoreShard(q1.blocks[place.value], 4 + shard));
        SettleAnchored(q2, place.value, now, duration);
      }
    }
  }

  /** An anchored queue stays where it is until something is handed out. */
  lemma AddAnchored(q: Queue, a: Arrival, now: nat, duration: nat)
    requires Inv(q) && !SentinelCollision(q) && !q.incompatible && Anchored(q)
    ensures var (q', v) := Add(q, a, now, duration); v != HandleNow ==> Anchored(q') && q'.next == q.next
  {
    match a
    case Data(seqNum, size) =>
      NoteKeeps(q, seqNum);
      StoreDataAnchored(NoteOutOfSequence(q, seqNum), seqNum, size, now, duration);
    case Fec(base, shard, size) => AddFecAnchored(q, base, shard, size, now, duration);
    case Invalid(_) =>
  }

  lemma SettleBegun(q: Queue, k: nat, now: nat, duration: nat)
    requires Inv(q) && k < |q.blocks| && !q.blocks[k].reassembled
    ensures Begun(Settle(q, k, now, duration).0)
  {
    CompleteOk(q.blocks[k]);
  }

  lemma PlaceDataBegun(q: Queue, k: nat, seqNum: U16, now: nat, duration: nat)
    requires Inv(q) && k < |q.blocks| && !q.blocks[k].reassembled
    ensures Begun(PlaceData(q, k, seqNum, now, duration).0)
  {
    if q.blocks[k].marks[seqNum % 4] {
      StoreKeeps(q, k, seqNum % 4);
      SettleBegun(SetBlock(q, k, StoreShard(q.blocks[k], seqNum % 4)), k, now, duration);
    }
  }

  lemma PlaceFecBegun(q: Queue, k: nat, shard: nat, now: nat, duration: nat)
    requires Inv(q) && k < |q.blocks| && !q.blocks[k].reassembled && shard < FEC_SHARDS
    ensures Begun(PlaceFec(q, k, shard, now, duration).0)
  {
    if q.blocks[k].marks[4 + shard] {
      StoreKeeps(q, k, 4 + shard);
      SettleBegun(SetBlock(q, k, StoreShard(q.blocks[k], 4 + shard)), k, now, duration);
    }
  }

  lemma StoreDataBegun(q: Queue, seqNum: U16, size: nat, now: nat, duration: nat)
    requires Inv(q) && !SentinelCollision(q)
    ensures var (q', v) := StoreData(q, seqNum, size, now, duration); v != Nothing || Begun(q) ==> Begun(q')
  {
    GetBlockEffect(q, BaseOf(seqNum), size, now);
    var (q1, place) := GetBlock(q, BaseOf(seqNum), size, now);
    if place.Some? { PlaceDataBegun(q1, place.value, seqNum, now, duration); }
  }

  lemma AddFecBegun(q: Queue, base: U16, shard: nat, size: nat, now: nat, duration: nat)
    requires Inv(q) && !SentinelCollision(q)
    ensures var (q', v) := AddFec(q, base, shard, size, now, duration); v != Nothing || Begun(q) ==> Begun(q')
  {
    if shard < FEC_SHARDS && base % 4 == 0 {
      GetBlockEffect(q, base, size, now);
      var (q1, place) := GetBlock(q, base, size, now);
      if place.Some? { PlaceFecBegun(q1, place.value, shard, now, duration); }
    }
  }

  /** The stream has begun when something is ready, and once it has, it stays so. */
  lemma AddBegun(q: Queue, a: Arrival, now: nat, duration: nat)
    requires Inv(q) && !SentinelCollision(q) && !q.incompatible
    ensures var (q', v) := Add(q, a, now, duration); v != Nothing || Begun(q) ==> Begun(q')
  {
    match a
    case Data(seqNum, size) =>
      NoteKeeps(q, seqNum);
      StoreDataBegun(NoteOutOfSequence(q, seqNum), seqNum, size, now, duration);
    case Fec(base, shard, size) => AddFecBegun(q, base, shard, size, now, duration);
    case Invalid(_) =>
  }

  // ----- taking units out, again and again

  /** Taking a unit out yields the next number, and moves on by one. */
  lemma GetKeeps(q: Queue)
    requires Inv(q)
    ensures var (q', u) := GetQueued(q);
      && Inv(q')
      && (u == None <==> !HasPacketReady(q)) && (u == None ==> q' == q)
      && (u.Some? ==> u.value.seqNum == q.next && q'.next == Wrap16(q.next + 1) && Remaining(q') < Remaining(q))
  {
    if HasPacketReady(q) {
      OldestOfNext(q.oldest, q.next);
      assert q.blocks[0].base == q.oldest;
      StepHeadKeeps(q);
    }
  }

  function Remaining(q: Queue): int {
    if |q.blocks| == 0 then 0 else 4 * |q.blocks| - q.blocks[0].nextIndex
  }

  // ----- whole runs

  /** A unit with its place in the unbounded stream that the wrapping numbers stand for. */
  datatype Delivery = Delivery(position: nat, unit: Unit)

  datatype Event = Event(arrival: Arrival, now: nat)

  /** What the caller gets by asking until nothing is ready, and the queue it leaves. */
  ghost function DrainedUnits(q: Queue): seq<Unit>
    requires Inv(q)
    decreases Remaining(q)
  {
    GetKeeps(q);
    if GetQueued(q).1 == None then [] else [GetQueued(q).1.value] + DrainedUnits(GetQueued(q).0)
  }

  ghost function Drained(q: Queue): Queue
    requires Inv(q)
    decreases Remaining(q)
  {
    GetKeeps(q);
    if GetQueued(q).1 == None then q else Drained(GetQueued(q).0)
  }

  /** The number n steps further on. */
  function Advance(x: U16, n: nat): U16
    decreases n
  {
    if n == 0 then x else Advance(Wrap16(x + 1), n - 1)
  }

  lemma {:induction false} AdvanceWraps(x: int, n: nat)
    ensures Advance(Wrap16(x), n) == Wrap16(x + n)
    decreases n
  {
    if n > 0 {
      assert Wrap16(Wrap16(x) + 1) == Wrap16(x + 1);
      AdvanceWraps(x + 1, n - 1);
    }
  }

  lemma {:induction false} AdvanceAdds(x: U16, m: nat, n: nat)
    ensures Advance(Advance(x, m), n) == Advance(x, m + n)
    decreases m
  {
    if m > 0 { AdvanceAdds(Wrap16(x + 1), m - 1, n); }
  }

  /** The wrapping number at a position of the unbounded stream. */
  function NumberAt(position: nat): (r: U16)
  {
    Advance(0, position)
  }

  lemma NumberAtWraps(position: nat)
    ensures NumberAt(position) == Wrap16(position)
  {
    AdvanceWraps(0, position);
  }

  /** The units carry consecutive numbers, from next on. */
  predicate Consecutive(units: seq<Unit>, next: U16) {
    units == [] || (units[0].seqNum == next && Consecutive(units[1..], Wrap16(next + 1)))
  }

  lemma {:induction false} ConsecutiveAt(units: seq<Unit>, next: U16, i: nat)
    requires Consecutive(units, next) && i < |units|
    ensures units[i].seqNum == Advance(next, i)
    decreases i
  {
    if i > 0 { ConsecutiveAt(units[1..], Wrap16(next + 1), i - 1); }
  }

  lemma {:induction false} DrainEffect(q: Queue)
    requires Inv(q)
    ensures Inv(Drained(q)) && !HasPacketReady(Drained(q))
    ensures Consecutive(DrainedUnits(q), q.next)
    ensures Drained(q).next == Advance(q.next, |DrainedUnits(q)|)
    decreases Remaining(q)
  {
    GetKeeps(q);
    if GetQueued(q).1.Some? {
      var q', u := GetQueued(q).0, GetQueued(q).1.value;
      DrainEffect(q');
      assert DrainedUnits(q) == [u] + DrainedUnits(q') && Drained(q) == Drained(q');
      assert DrainedUnits(q)[1..] == DrainedUnits(q');
    }
  }

  /** One more unit taken out, with what was taken before. */
  lemma DrainStep(q: Queue, taken: seq<Unit>)
    requires Inv(q)
    ensures GetQueued(q).1 == None ==> Drained(q) == q && taken + DrainedUnits(q) == taken
    ensures GetQueued(q).1.Some? ==>
      && Inv(GetQueued(q).0) && Drained(q) == Drained(GetQueued(q).0)
      && taken + DrainedUnits(q) == (taken + [GetQueued(q).1.value]) + DrainedUnits(GetQueued(q).0)
  {
    GetKeeps(q);
    if GetQueued(q).1.Some? {
      var u, rest := GetQueued(q).1.value, DrainedUnits(GetQueued(q).0);
      assert taken + ([u] + rest) == (taken + [u]) + rest;
    }
  }

  /** One packet, and what its caller then passes on to the decoder: the queue after it, how far the next
      number jumps before anything is handed out, and the units. */
  datatype Receipt = Receipt(queue: Queue, jump: nat, units: seq<Unit>)

  ghost function ReceiptOf(next: U16, a: Arrival, q': Queue, v: Verdict): Receipt
    requires Inv(q') && (v == HandleNow ==> a.Data?)
  {
    match v
    case HandleNow => Receipt(q', 0, [Unit(a.seqNum, false)])
    case Ready => Receipt(Drained(q'), Wrap16(q'.next - next), DrainedUnits(q'))
    case Nothing => Receipt(q', Wrap16(q'.next - next), [])
  }

  ghost function Receive(q: Queue, e: Event, duration: nat): Receipt
    requires CanReceive(q)
  {
    AddKeeps(q, e.arrival, e.now, duration);
    ReceiptOf(q.next, e.arrival, Add(q, e.arrival, e.now, duration).0, Add(q, e.arrival, e.now, duration).1)
  }

  /** The units continue the numbering after the jump, a jump leads to the start of a block, and goes
      forward once the stream has started. */
  ghost predicate ReceiptOk(next: U16, started: bool, r: Receipt) {
    && Inv(r.queue)
    && Consecutive(r.units, Advance(next, r.jump))
    && r.queue.next == Advance(Advance(next, r.jump), |r.units|)
    && (r.jump == 0 || (Advance(next, r.jump) % 4 == 0 && (started ==> r.jump < 0x8000)))
  }

  /** A jump leaves the queue anchored until something is handed out, and an anchored queue does not jump. */
  ghost predicate ReceiptJumps(q: Queue, r: Receipt) {
    && (Anchored(q) ==> r.jump == 0 && (r.units == [] ==> Anchored(r.queue)))
    && (Begun(q) && r.jump > 0 && r.units == [] ==> Anchored(r.queue))
    && (Begun(q) || r.units != [] ==> Begun(r.queue))
  }

  lemma StepHeadBegun(q: Queue)
    requires Inv(q) && |q.blocks| > 0
    ensures Begun(StepHead(q))
  {}

  lemma {:induction false} DrainBegun(q: Queue)
    requires Inv(q)
    ensures DrainedUnits(q) == [] ==> Drained(q) == q && !HasPacketReady(q)
    ensures Begun(q) || DrainedUnits(q) != [] ==> Begun(Drained(q))
    decreases Remaining(q)
  {
    GetKeeps(q);
    if GetQueued(q).1.Some? {
      StepHeadBegun(q);
      DrainBegun(GetQueued(q).0);
    }
  }

  lemma ReceiptOfJumps(q: Queue, a: Arrival, q': Queue, v: Verdict)
    requires CanReceive(q) && AddEffect(q.next, !Unsynchronized(q), a, q', v)
    requires Anchored(q) && v != HandleNow ==> Anchored(q') && q'.next == q.next
    requires v != Nothing || Begun(q) ==> Begun(q')
    ensures ReceiptJumps(q, ReceiptOf(q.next, a, q', v))
  {
    JumpReaches(q.next, q'.next);
    DrainBegun(q');
  }

  lemma JumpReaches(x: U16, y: U16)
    ensures Advance(x, Wrap16(y - x)) == y
    ensures Wrap16(y - x) == 0 <==> x == y
  {
    AdvanceTo(x, y, Wrap16(y - x));
    DistanceInjective(x, y, x);
  }

  lemma AdvanceTo(x: U16, y: U16, n: nat)
    requires Wrap16(x + n) == y
    ensures Advance(x, n) == y
  {
    AdvanceWraps(x, n);
  }

  lemma OneStep(q: Queue, seqNum: U16, started: bool)
    requires Inv(q) && q.next == Wrap16(seqNum + 1)
    ensures ReceiptOk(seqNum, started, Receipt(q, 0, [Unit(seqNum, false)]))
  {
    assert Advance(seqNum, 1) == Advance(Wrap16(seqNum + 1), 0);
  }

  lemma JumpOk(next: U16, started: bool, q': Queue)
    requires Inv(q')
    requires StaysOrJumps(next, q') || (!started && q'.next % 4 == 0)
    ensures ReceiptOk(next, started, Receipt(q', Wrap16(q'.next - next), []))
    ensures ReceiptOk(next, started, Receipt(Drained(q'), Wrap16(q'.next - next), DrainedUnits(q')))
  {
    JumpReaches(next, q'.next);
    DrainEffect(q');
  }

  lemma ReceiptOfOk(next: U16, started: bool, a: Arrival, q': Queue, v: Verdict)
    requires AddEffect(next, started, a, q', v)
    ensures ReceiptOk(next, started, ReceiptOf(next, a, q', v))
  {
    if v == HandleNow {
      OneStep(q', next, started);
    } else {
      JumpOk(next, started, q');
    }
  }

  lemma ReceiveKeeps(q: Queue, e: Event, duration: nat)
    requires CanReceive(q)
    ensures ReceiptOk(q.next, Begun(q), Receive(q, e, duration)) && ReceiptJumps(q, Receive(q, e, duration))
  {
    var (q', v) := Add(q, e.arrival, e.now, duration);
    AddKeeps(q, e.arrival, e.now, duration);
    AddBegun(q, e.arrival, e.now, duration);
    if Anchored(q) { AddAnchored(q, e.arrival, e.now, duration); }
    ReceiptOfOk(q.next, !Unsynchronized(q), e.arrival, q', v);
    ReceiptOfJumps(q, e.arrival, q', v);
  }

  ghost predicate CanReceive(q: Queue) {
    Inv(q) && !SentinelCollision(q) && !q.incompatible
  }

  /** Receiving, as a step that runs are made of. */
  ghost function Receiving(duration: nat): (Queue, Event) --> Receipt {
    (q, e) requires CanReceive(q) => Receive(q, e, duration)
  }

  ghost predicate RunOk(step: (Queue, Event) --> Receipt, q: Queue, events: seq<Event>)
    decreases |events|
  {
    events == [] || (CanReceive(q) && step.requires(q, events[0]) && RunOk(step, step(q, events[0]).queue, events[1..]))
  }

  ghost function Placed(units: seq<Unit>, position: nat): (ds: seq<Delivery>)
    ensures |ds| == |units|
    ensures forall i :: 0 <= i < |units| ==> ds[i] == Delivery(position + i, units[i])
  {
    seq(|units|, i requires 0 <= i < |units| => Delivery(position + i, units[i]))
  }

  /** All units of a run with their positions; position is that of q.next. */
  ghost function Deliveries(step: (Queue, Event) --> Receipt, q: Queue, position: nat,
                            events: seq<Event>): seq<Delivery>
    requires RunOk(step, q, events)
    decreases |events|
  {
    if events == [] then []
    else
      var r := step(q, events[0]);
      Placed(r.units, position + r.jump) + Deliveries(step, r.queue, position + r.jump + |r.units|, events[1..])
  }

  /** Every unit carries the number of its position. Each delivery is the next one, or lies ahead at the
      start of a block, by less than half the circle of numbers: nothing is delivered twice or backwards. */
  ghost predicate InOrder(ds: seq<Delivery>) {
    && (forall i :: 0 <= i < |ds| ==> ds[i].unit.seqNum == NumberAt(ds[i].position))
    && (forall i :: 0 < i < |ds| ==> Follows(ds[i - 1].position + 1, ds[i]))
  }

  /** The delivery is at the position, or a jump forward to the start of a block. */
  ghost predicate Follows(position: nat, d: Delivery) {
    d.position == position || (0 < d.position - position < 0x8000 && d.unit.seqNum % 4 == 0)
  }

  /** Where the next delivery can be, with the next number at the position: right there if its block is
      the head, else a jump away; before the stream has begun, at the start of any block. */
  ghost predicate ComesNext(q: Queue, position: nat, d: Delivery) {
    if Anchored(q) then d.position == position
    else if Begun(q) then Follows(position, d)
    else d.position == position || (d.position > position && d.unit.seqNum % 4 == 0)
  }

  ghost predicate ContinuesFrom(q: Queue, position: nat, ds: seq<Delivery>) {
    InOrder(ds) && (|ds| > 0 ==> ComesNext(q, position, ds[0]))
  }

  ghost predicate StepOk(q: Queue, r: Receipt) {
    ReceiptOk(q.next, Begun(q), r) && ReceiptJumps(q, r)
  }

  /** Nothing in the run hits the sentinel collision, and the server stays compatible. */
  ghost predicate Undisturbed(step: (Queue, Event) --> Receipt, q: Queue, events: seq<Event>)
    decreases |events|
  {
    events == [] ||
    (!SentinelCollision(q) && !q.incompatible &&
     (step.requires(q, events[0]) ==> Undisturbed(step, step(q, events[0]).queue, events[1..])))
  }

  lemma {:induction false} UndisturbedIsOk(step: (Queue, Event) --> Receipt, q: Queue, events: seq<Event>)
    requires forall q: Queue, e: Event :: CanReceive(q) ==> step.requires(q, e) && StepOk(q, step(q, e))
    requires Inv(q) && Undisturbed(step, q, events)
    ensures RunOk(step, q, events)
    decreases |events|
  {
    if events != [] {
      assert CanReceive(q);
      var r := step(q, events[0]);
      assert StepOk(q, r);
      UndisturbedIsOk(step, r.queue, events[1..]);
    }
  }

  lemma ReceivingSteps(duration: nat)
    ensures forall q: Queue, e: Event :: CanReceive(q) ==>
      Receiving(duration).requires(q, e) && StepOk(q, Receiving(duration)(q, e))
  {
    forall q: Queue, e: Event | CanReceive(q)
      ensures StepOk(q, Receiving(duration)(q, e))
    {
      ReceiveKeeps(q, e, duration);
    }
  }

  /** The queue after the events. */
  ghost function After(step: (Queue, Event) --> Receipt, q: Queue, events: seq<Event>): Queue
    requires RunOk(step, q, events)
    decreases |events|
  {
    if events == [] then q else After(step, step(q, events[0]).queue, events[1..])
  }

  lemma {:induction false} StepsKeep(step: (Queue, Event) --> Receipt, q: Queue, events: seq<Event>)
    requires forall q: Queue, e: Event :: CanReceive(q) ==> step.requires(q, e) && StepOk(q, step(q, e))
    requires Inv(q) && RunOk(step, q, events)
    ensures Inv(After(step, q, events))
    decreases |events|
  {
    if events != [] {
      assert StepOk(q, step(q, events[0]));
      StepsKeep(step, step(q, events[0]).queue, events[1..]);
    }
  }

  lemma InitialInv(incompatible: bool)
    ensures Inv(InitialQueue(incompatible)) && !Begun(InitialQueue(incompatible))
  {}

  /** From any state with the invariant, and so from the start of the stream: every packet can be received
      and the invariant holds after it. */
  lemma RunKeepsInv(q: Queue, events: seq<Event>, duration: nat)
    requires Inv(q) && Undisturbed(Receiving(duration), q, events)
    ensures RunOk(Receiving(duration), q, events) && Inv(After(Receiving(duration), q, events))
  {
    ReceivingSteps(duration);
    UndisturbedIsOk(Receiving(duration), q, events);
    StepsKeep(Receiving(duration), q, events);
  }

  /** Over whole runs: units leave in order. */
  lemma RunDeliversInOrder(q: Queue, position: nat, events: seq<Event>, duration: nat)
    requires Inv(q) && Undisturbed(Receiving(duration), q, events) && q.next == NumberAt(position)
    ensures RunOk(Receiving(duration), q, events)
    ensures ContinuesFrom(q, position, Deliveries(Receiving(duration), q, position, events))
  {
    ReceivingSteps(duration);
    UndisturbedIsOk(Receiving(duration), q, events);
    StepsDeliverInOrder(Receiving(duration), q, position, events);
  }

  /** In every undisturbed run from the start of the stream. */
  lemma StreamInOrder(events: seq<Event>, duration: nat)
    requires Undisturbed(Receiving(duration), InitialQueue(false), events)
    ensures RunOk(Receiving(duration), InitialQueue(false), events)
    ensures Inv(After(Receiving(duration), InitialQueue(false), events))
    ensures InOrder(Deliveries(Receiving(duration), InitialQueue(false), 0, events))
  {
    InitialInv(false);
    RunKeepsInv(InitialQueue(false), events, duration);
    RunDeliversInOrder(InitialQueue(false), 0, events, duration);
  }

  lemma {:induction false} StepsDeliverInOrder(step: (Queue, Event) --> Receipt, q: Queue, position: nat,
                                               events: seq<Event>)
    requires forall q: Queue, e: Event :: CanReceive(q) ==> step.requires(q, e) && StepOk(q, step(q, e))
    requires RunOk(step, q, events) && q.next == NumberAt(position)
    ensures ContinuesFrom(q, position, Deliveries(step, q, position, events))
    decreases |events|
  {
    if events != [] {
      var r := step(q, events[0]);
      assert StepOk(q, r);
      var start, position' := position + r.jump, position + r.jump + |r.units|;
      NumbersMoveTo(q.next, position, r.jump, |r.units|, position');
      StepsDeliverInOrder(step, r.queue, position', events[1..]);
      StepInOrder(q, position, r, start, position', Deliveries(step, r.queue, position', events[1..]));
      DeliveriesFirst(step, q, position, events, start, position');
    }
  }

  /** The deliveries of the first packet, and those of the others. */
  lemma DeliveriesFirst(step: (Queue, Event) --> Receipt, q: Queue, position: nat, events: seq<Event>, start: nat,
                        position': nat)
    requires RunOk(step, q, events) && events != []
    requires var r := step(q, events[0]); start == position + r.jump && position' == start + |r.units|
    ensures var r := step(q, events[0]);
      Deliveries(step, q, position, events)
        == Placed(r.units, start) + Deliveries(step, r.queue, position', events[1..])
  {}

  lemma NumbersMoveTo(next: U16, position: nat, jump: nat, n: nat, to: nat)
    requires next == NumberAt(position) && to == position + jump + n
    ensures Advance(Advance(next, jump), n) == NumberAt(to)
  {
    NumbersMove(next, position, jump, n);
  }

  lemma NumbersMove(next: U16, position: nat, jump: nat, n: nat)
    requires next == NumberAt(position)
    ensures Advance(next, jump) == NumberAt(position + jump)
    ensures Advance(Advance(next, jump), n) == NumberAt(position + jump + n)
  {
    AdvanceAdds(0, position, jump);
    AdvanceAdds(0, position + jump, n);
  }

  lemma StepInOrder(q: Queue, position: nat, r: Receipt, start: nat, position': nat, rest: seq<Delivery>)
    requires q.next == NumberAt(position) && StepOk(q, r)
    requires start == position + r.jump && position' == start + |r.units| && ContinuesFrom(r.queue, position', rest)
    ensures ContinuesFrom(q, position, Placed(r.units, start) + rest)
  {
    NumbersMove(q.next, position, r.jump, |r.units|);
    if r.units == [] {
      assert Placed(r.units, start) + rest == rest;
      JumpThenNext(q, position, r, start, rest);
    } else {
      JoinInOrder(r.units, rest, start);
    }
  }

  /** A jump with nothing handed out does not add to another one. */
  lemma JumpThenNext(q: Queue, position: nat, r: Receipt, start: nat, rest: seq<Delivery>)
    requires StepOk(q, r) && r.units == [] && start == position + r.jump && Advance(q.next, r.jump) == NumberAt(start)
    requires ContinuesFrom(r.queue, start, rest)
    ensures ContinuesFrom(q, position, rest)
  {
    if |rest| > 0 && rest[0].position == start {
      assert rest[0].unit.seqNum == Advance(q.next, r.jump);
    }
  }

  lemma JoinInOrder(units: seq<Unit>, b: seq<Delivery>, start: nat)
    requires InOrder(b) && (|b| > 0 ==> Follows(start + |units|, b[0]))
    requires units != [] && Consecutive(units, NumberAt(start))
    ensures InOrder(Placed(units, start) + b)
  {
    var a := Placed(units, start);
    var c := a + b;
    forall i | 0 <= i < |units|
      ensures a[i].unit.seqNum == NumberAt(a[i].position)
    {
      ConsecutiveAt(units, NumberAt(start), i);
      AdvanceAdds(0, start, i);
    }
    forall i | 0 < i < |c|
      ensures Follows(c[i - 1].position + 1, c[i])
    {
      if i > |a| { assert Follows(b[i - |a| - 1].position + 1, b[i - |a|]); }
    }
  }

  // ----- when synchronization fails

  /** The packets that reach a block, and the base of that block. */
  predicate Addressed(a: Arrival) {
    a.Data? || (a.Fec? && a.shard < FEC_SHARDS && a.base % 4 == 0)
  }

  function BaseOfArrival(a: Arrival): U16
    requires Addressed(a)
  {
    if a.Data? then BaseOf(a.seqNum) else a.base
  }

  lemma BetweenEnds(blocks: seq<Block>, i: nat)
    requires Sorted(blocks, 0) && i < |blocks|
    ensures blocks[0].base <= blocks[i].base <= blocks[|blocks| - 1].base < 0x8000
  {
    assert i == 0 || Ahead(0, blocks[0].base) < Ahead(0, blocks[i].base);
    assert i == |blocks| - 1 || Ahead(0, blocks[i].base) < Ahead(0, blocks[|blocks| - 1].base);
    assert Ahead(0, blocks[i].base) == blocks[i].base;
    assert Ahead(0, blocks[0].base) == blocks[0].base;
    assert Ahead(0, blocks[|blocks| - 1].base) == blocks[|blocks| - 1].base;
  }

  lemma ShiftedAhead(blocks: seq<Block>, oldest: U16, i: nat)
    requires Sorted(blocks, 0) && i < |blocks|
    requires Ahead(oldest, blocks[0].base) < 0x8000 && Ahead(oldest, blocks[|blocks| - 1].base) < 0x8000
    ensures Ahead(oldest, blocks[i].base) < 0x8000
    ensures Ahead(oldest, blocks[i].base)
         == Ahead(oldest, blocks[0].base) + Ahead(0, blocks[i].base) - Ahead(0, blocks[0].base)
  {
    BetweenEnds(blocks, i);
    SameSide(oldest, blocks[0].base, blocks[i].base, blocks[|blocks| - 1].base);
  }

  lemma SortedFromZero(blocks: seq<Block>, oldest: U16)
    requires Sorted(blocks, 0) && |blocks| > 0
    ensures Sorted(blocks, oldest) <==>
      Ahead(oldest, blocks[0].base) < 0x8000 && Ahead(oldest, blocks[|blocks| - 1].base) < 0x8000
  {
    if Ahead(oldest, blocks[0].base) < 0x8000 && Ahead(oldest, blocks[|blocks| - 1].base) < 0x8000 {
      forall i | 0 <= i < |blocks|
        ensures Ahead(oldest, blocks[i].base) < 0x8000
        ensures Ahead(oldest, blocks[i].base)
             == Ahead(oldest, blocks[0].base) + Ahead(0, blocks[i].base) - Ahead(0, blocks[0].base)
      {
        ShiftedAhead(blocks, oldest, i);
      }
    }
  }

  /** An origin that has both ends of a stretch of the lower half ahead of it has all of it ahead, in order. */
  lemma SameSide(oldest: U16, low: U16, x: U16, high: U16)
    requires low <= x <= high < 0x8000
    requires Ahead(oldest, low) < 0x8000 && Ahead(oldest, high) < 0x8000
    ensures Ahead(oldest, x) < 0x8000
    ensures Ahead(oldest, x) == Ahead(oldest, low) + Ahead(0, x) - Ahead(0, low)
  {}

  /** In the sentinel collision the next packet restarts the queue four numbers above its own block. The
      invariant survives exactly if no waiting block lies before that point and the head has not begun
      to play. */
  lemma CollisionBreaksInvariant(q: Queue, a: Arrival, now: nat, duration: nat)
    requires Inv(q) && SentinelCollision(q) && !q.incompatible && Addressed(a)
    ensures var head, tail, start := q.blocks[0], q.blocks[|q.blocks| - 1], Wrap16(BaseOfArrival(a) + 4);
      Inv(Add(q, a, now, duration).0) <==>
        && !IsBefore16(head.base, start) && !IsBefore16(tail.base, start)
        && head.nextIndex == 0 && (head.base == start || !head.discontinuity)
  {
    var start := Wrap16(BaseOfArrival(a) + 4);
    var q' := Add(q, a, now, duration).0;
    AllRestarts(q, a, now, duration);
    RestartedInv(q, q', start);
  }

  lemma AllRestarts(q: Queue, a: Arrival, now: nat, duration: nat)
    requires Inv(q) && SentinelCollision(q) && !q.incompatible && Addressed(a)
    ensures var q', start := Add(q, a, now, duration).0, Wrap16(BaseOfArrival(a) + 4);
      q'.blocks == q.blocks && q'.next == q'.oldest == start
  {}

  lemma RestartedInv(q: Queue, q': Queue, start: U16)
    requires Inv(q) && SentinelCollision(q) && start % 4 == 0
    requires q'.blocks == q.blocks && q'.next == q'.oldest == start
    ensures var head, tail := q.blocks[0], q.blocks[|q.blocks| - 1];
      Inv(q') <==>
        && !IsBefore16(head.base, start) && !IsBefore16(tail.base, start)
        && head.nextIndex == 0 && (head.base == start || !head.discontinuity)
  {
    SortedFromZero(q.blocks, start);
    assert Ahead(start, start) == 0;
  }

  lemma AloneInQueue(q: Queue, size: nat, now: nat)
    requires Inv(q) && q.blocks == [] && q.oldest > 0x8000
    ensures var q1 := q.(blocks := [NewBlock(0, size, now)]);
      GetBlock(q, 0, size, now) == (q1, Some(0)) && Inv(q1)
  {
    var b := NewBlock(0, size, now);
    assert FindPlace(q.blocks, 0, 0) == 0;
    assert q.blocks[..0] + [b] + q.blocks[0..] == [b];
    GetBlockKeeps(q, 0, size, now);
  }

  lemma SettlesAtZero(q: Queue, now: nat, duration: nat)
    requires Inv(q) && |q.blocks| == 1 && q.oldest > 0x8000 && q.blocks[0].base == 0
    requires var b := q.blocks[0]; !b.reassembled && b.dataReceived + b.fecReceived < 4
    ensures Settle(q, 0, now, duration).0 == q.(next := 0, oldest := 0)
  {
    var b := q.blocks[0];
    assert Complete(b) == b && SetBlock(q, 0, b) == q;
    HeadBeforeNext(q);
    assert !HasPacketReady(q);
  }

  /** How the collision comes about: the start of the stream was fixed in the upper half of the numbers,
      and the first packet to be stored belongs to the block with base 0. */
  lemma CollisionHappens(q: Queue, shard: nat, size: nat, now: nat, duration: nat)
    requires Inv(q) && q.blocks == [] && q.synchronizing && !q.incompatible && q.oldest > 0x8000 && shard < FEC_SHARDS
    ensures var q' := Add(q, Fec(0, shard, size), now, duration).0;
      SentinelCollision(q') && !q'.incompatible && |q'.blocks| == 1 && q'.blocks[0].base == 0
  {
    AloneInQueue(q, size, now);
    var b := NewBlock(0, size, now);
    var q1 := q.(blocks := [b]);
    StoreKeeps(q1, 0, 4 + shard);
    var q2 := SetBlock(q1, 0, StoreShard(b, 4 + shard));
    SettlesAtZero(q2, now, duration);
    assert AddFec(q, 0, shard, size, now, duration) == Settle(q2, 0, now, duration);
  }

  /** A run that loses the invariant: a packet fixes the start in the upper half of the numbers, and two
      parity packets of the block with base 0 follow. */
  lemma CollisionRun(now: nat, duration: nat)
    ensures var q1 := Add(InitialQueue(false), Data(65520, 10), now, duration).0;
      Inv(q1) && var q2 := Add(q1, Fec(0, 0, 10), now, duration).0;
      Inv(q2) && SentinelCollision(q2) && !Inv(Add(q2, Fec(0, 1, 10), now, duration).0)
  {
    InitialInv(false);
    AddKeeps(InitialQueue(false), Data(65520, 10), now, duration);
    var q1 := Add(InitialQueue(false), Data(65520, 10), now, duration).0;
    CollisionHappens(q1, 0, 10, now, duration);
    AddKeeps(q1, Fec(0, 0, 10), now, duration);
    CollisionBreaksInvariant(Add(q1, Fec(0, 0, 10), now, duration).0, Fec(0, 1, 10), now, duration);
  }
}
