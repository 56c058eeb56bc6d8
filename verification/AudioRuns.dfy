/** What the audio queue plays of a stream whose blocks come in turn: all packets of every block of which nothing
    is missing when the next block begins. */
module AudioRuns {
  import opened Wrappers
  import opened SequenceNumbers
  import opened AudioControl

  // ----- one block

  /** What has come of a block, by the marks of its missing shards, and how many of its packets have been
      handed out. */
  datatype Fill = Fill(marks: seq<bool>, next: nat)

  const EMPTY := Fill([true, true, true, true, true, true], 0)

  /** How many different shards have come. */
  function Have(marks: seq<bool>): nat
    requires |marks| == 6
  {
    Present(marks[..4]) + Present(marks[4..])
  }

  /** The packets handed out have come. */
  predicate FillOk(f: Fill) {
    |f.marks| == 6 && f.next <= 4 && forall i :: 0 <= i < f.next < 4 ==> !f.marks[i]
  }

  /** The first missing packet from next on. */
  function FirstMissing(marks: seq<bool>, next: nat): (r: nat)
    requires |marks| == 6 && next <= 4
    ensures next <= r <= 4 && (r < 4 ==> marks[r]) && forall i :: next <= i < r ==> !marks[i]
    decreases 4 - next
  {
    if next == 4 || marks[next] then next else FirstMissing(marks, next + 1)
  }

  /** One more shard. The next packet is handed out at once, and nothing else is looked at; with any other
      shard the block is completed if four are there, and what is then in order is handed out. */
  function Take(f: Fill, x: nat): (r: Fill)
    requires FillOk(f) && x < 6
    ensures FillOk(r) && r.next >= f.next
  {
    if f.next == 4 || !f.marks[x] then f
    else
      var marks := f.marks[x := false];
      if x == f.next then Fill(marks, f.next + 1)
      else if Have(marks) >= 4 then Fill(marks, 4)
      else Fill(marks, FirstMissing(marks, f.next))
  }

  /** Nothing of the block is missing that has not been handed out. */
  predicate Plays(f: Fill)
    requires FillOk(f)
  {
    forall i :: f.next <= i < 4 ==> !f.marks[i]
  }

  // ----- the queue at a block

  /** The waiting block. */
  ghost predicate HeadIs(h: Block, b: U16, f: Fill, size: nat) {
    && BlockOk(h) && h.base == b && h.marks == f.marks && h.nextIndex == f.next && h.size == size
    && !h.reassembled && !h.discontinuity
  }

  /** The queue waits for the block at b, of which f has come, and holds nothing else. */
  ghost predicate Holds(q: Queue, b: U16, f: Fill, size: nat) {
    && Inv(q) && !q.incompatible && b % 4 == 0 && FillOk(f) && q.next == Wrap16(b + f.next)
    && if f.next == 4 then q.blocks == [] && q.oldest == q.next && !q.synchronizing
       else
         && q.oldest == b && !Unsynchronized(q)
         && if f == EMPTY then q.blocks == [] else |q.blocks| == 1 && HeadIs(q.blocks[0], b, f, size)
  }

  /** The packet is shard x of the block at b. */
  predicate IsShard(a: Arrival, b: U16, x: nat, size: nat) {
    match a
    case Data(seqNum, n) => x < 4 && seqNum == b + x && n == size
    case Fec(base, shard, n) => 4 <= x < 6 && base == b && shard == x - 4 && n == size
    case Invalid(_) => false
  }

  ghost predicate NoneLost(units: seq<Unit>) {
    forall i :: 0 <= i < |units| ==> !units[i].lost
  }

  // ----- taking out what is in order

  /** The head has all packets from the next one up to to. */
  ghost predicate Gives(q: Queue, to: nat) {
    Inv(q) && q.blocks != [] && to <= 4 &&
    var h := q.blocks[0];
    h.base == q.oldest && !h.discontinuity && h.nextIndex <= to && forall i :: h.nextIndex <= i < to ==> !h.marks[i]
  }

  /** The queue when the packets of its head before to have been handed out. */
  function HandedOut(q: Queue, to: nat): Queue
    requires q.blocks != [] && to <= 4
  {
    var h := q.blocks[0];
    if to < 4 then q.(blocks := [h.(nextIndex := to)] + q.blocks[1..], next := Wrap16(h.base + to))
    else q.(blocks := q.blocks[1..], next := Wrap16(h.base + 4), oldest := Wrap16(h.base + 4), synchronizing := false)
  }

  lemma NoneHandedOut(q: Queue)
    requires Inv(q) && q.blocks != [] && q.blocks[0].base == q.oldest
    ensures HandedOut(q, q.blocks[0].nextIndex) == q
  {
    OldestOfNext(q.oldest, q.next);
  }

  lemma HandOneOut(q: Queue, to: nat)
    requires q.blocks != [] && q.blocks[0].base % 4 == 0 && to < 4
    ensures StepHead(HandedOut(q, to)) == HandedOut(q, to + 1)
  {
    var h, tail := q.blocks[0], q.blocks[1..];
    var q1 := HandedOut(q, to);
    assert q1.blocks[1..] == tail;
    assert q1.blocks[0 := h.(nextIndex := to + 1)] == [h.(nextIndex := to + 1)] + tail;
    assert ([h.(nextIndex := to + 1)] + tail)[1..] == tail;
  }

  /** n units, none of them lost, and then the rest. */
  ghost predicate Extends(units: seq<Unit>, n: nat, rest: seq<Unit>) {
    |units| == n + |rest| && units[n..] == rest && NoneLost(units[..n])
  }

  lemma ExtendsMore(u: Unit, units: seq<Unit>, n: nat, rest: seq<Unit>)
    requires !u.lost && Extends(units, n, rest)
    ensures Extends([u] + units, n + 1, rest)
  {
    assert ([u] + units)[n + 1..] == units[n..];
    assert ([u] + units)[..n + 1] == [u] + units[..n];
  }

  /** One packet taken out. */
  lemma DrainOne(q: Queue, at: nat, to: nat)
    requires Gives(q, to) && q.blocks[0].nextIndex <= at < to && Inv(HandedOut(q, at))
    ensures Inv(HandedOut(q, at + 1)) && GetQueued(HandedOut(q, at)).0 == HandedOut(q, at + 1)
    ensures GetQueued(HandedOut(q, at)).1.Some? && !GetQueued(HandedOut(q, at)).1.value.lost
  {
    var q1 := HandedOut(q, at);
    GetKeeps(q1);
    HandOneOut(q, at);
    assert q1.blocks[0].base + at == q1.next;
  }

  lemma DrainUnfolds(q: Queue)
    requires Inv(q) && GetQueued(q).1.Some?
    ensures Inv(GetQueued(q).0) && Drained(q) == Drained(GetQueued(q).0)
    ensures DrainedUnits(q) == [GetQueued(q).1.value] + DrainedUnits(GetQueued(q).0)
  {
    GetKeeps(q);
  }

  /** Taking out what the head has in order. */
  lemma {:induction false} DrainTo(q: Queue, at: nat, to: nat)
    requires Gives(q, to) && q.blocks[0].nextIndex <= at <= to && Inv(HandedOut(q, at))
    ensures Inv(HandedOut(q, to)) && Drained(HandedOut(q, at)) == Drained(HandedOut(q, to))
    ensures Extends(DrainedUnits(HandedOut(q, at)), to - at, DrainedUnits(HandedOut(q, to)))
    decreases 4 - at
  {
    if at < to {
      DrainOne(q, at, to);
      DrainUnfolds(HandedOut(q, at));
      DrainTo(q, at + 1, to);
      ExtendsMore(GetQueued(HandedOut(q, at)).1.value, DrainedUnits(HandedOut(q, at + 1)), to - at - 1,
                  DrainedUnits(HandedOut(q, to)));
    }
  }

  lemma DrainGiven(q: Queue, to: nat)
    requires Gives(q, to)
    ensures Inv(HandedOut(q, to)) && Drained(q) == Drained(HandedOut(q, to))
    ensures Extends(DrainedUnits(q), to - q.blocks[0].nextIndex, DrainedUnits(HandedOut(q, to)))
  {
    NoneHandedOut(q);
    DrainTo(q, q.blocks[0].nextIndex, to);
  }

  lemma NothingReady(q: Queue)
    requires Inv(q) && !HasPacketReady(q)
    ensures DrainedUnits(q) == [] && Drained(q) == q
  {
    GetKeeps(q);
  }

  // ----- a shard of the block

  /** What a packet leads to: no jump, n units, none of them lost, and the queue at the block with f. */
  ghost predicate LeadsTo(r: Receipt, n: int, b: U16, f: Fill, size: nat) {
    r.jump == 0 && |r.units| == n && NoneLost(r.units) && Holds(r.queue, b, f, size)
  }

  /** The same of a call that left the queue and told the caller so; next was the next number before. */
  ghost predicate CallLeadsTo(next: U16, a: Arrival, call: (Queue, Verdict), n: int, b: U16, f: Fill, size: nat) {
    && Inv(call.0) && (call.1 == HandleNow ==> a.Data? && a.seqNum == next)
    && LeadsTo(ReceiptOf(next, a, call.0, call.1), n, b, f, size)
  }

  lemma NothingCalled(q: Queue, a: Arrival, b: U16, f: Fill, size: nat)
    requires Holds(q, b, f, size)
    ensures CallLeadsTo(q.next, a, (q, Nothing), 0, b, f, size)
  {}

  lemma NowCalled(a: Arrival, q: Queue, b: U16, f: Fill, size: nat)
    requires Holds(q, b, f, size) && a.Data?
    ensures CallLeadsTo(a.seqNum, a, (q, HandleNow), 1, b, f, size)
  {}

  lemma DataReceived(q: Queue, q1: Queue, seqNum: U16, shard: nat, n: int, b: U16, f: Fill, size: nat, now: nat,
                     duration: nat)
    requires CanReceive(q) && q1 == NoteOutOfSequence(q, seqNum) && AllOk(q1.blocks)
    requires CallLeadsTo(q1.next, Data(seqNum, shard), StoreData(q1, seqNum, shard, now, duration), n, b, f, size)
    ensures LeadsTo(Receive(q, Event(Data(seqNum, shard), now), duration), n, b, f, size)
  {
    AddKeeps(q, Data(seqNum, shard), now, duration);
    var call := StoreData(q1, seqNum, shard, now, duration);
    assert Receive(q, Event(Data(seqNum, shard), now), duration)
        == ReceiptOf(q1.next, Data(seqNum, shard), call.0, call.1);
  }

  lemma FecReceived(q: Queue, base: U16, at: nat, shard: nat, n: int, b: U16, f: Fill, size: nat, now: nat,
                    duration: nat)
    requires CanReceive(q) && CallLeadsTo(q.next, Fec(base, at, shard), AddFec(q, base, at, shard, now, duration), n, b,
                                          f, size)
    ensures LeadsTo(Receive(q, Event(Fec(base, at, shard), now), duration), n, b, f, size)
  {
    AddKeeps(q, Fec(base, at, shard), now, duration);
    var call := AddFec(q, base, at, shard, now, duration);
    assert Receive(q, Event(Fec(base, at, shard), now), duration)
        == ReceiptOf(q.next, Fec(base, at, shard), call.0, call.1);
  }

  lemma CanReceiveHere(q: Queue, b: U16, f: Fill, size: nat)
    requires Holds(q, b, f, size)
    ensures CanReceive(q)
  {}

  /** The block is found, or made, as the only one. */
  lemma BlockFound(q: Queue, b: U16, f: Fill, size: nat, now: nat)
    requires Holds(q, b, f, size) && f.next < 4
    ensures var (q1, place) := GetBlock(q, b, size, now);
      && place == Some(0) && |q1.blocks| == 1 && HeadIs(q1.blocks[0], b, f, size) && q1 == q.(blocks := q1.blocks)
  {
    if f == EMPTY {
      BlocksOk(q, b, size, now);
      assert q.blocks[..0] + [NewBlock(b, size, now)] + q.blocks[0..] == [NewBlock(b, size, now)];
    }
  }

  /** Data that is not late leaves all but the memory of late data as it is. */
  lemma NoteSame(q: Queue, b: U16, f: Fill, size: nat, seqNum: U16)
    requires Holds(q, b, f, size)
    ensures Holds(NoteOutOfSequence(q, seqNum), b, f, size)
  {}

  /** The queue with the shard stored. */
  predicate StoredIn(q: Queue, b: U16, f: Fill, size: nat, x: nat)
    requires FillOk(f) && x < 6
  {
    && |q.blocks| == 1 && q.blocks[0].marks == f.marks[x := false] && q.blocks[0].base == b == q.oldest
    && BlockOk(q.blocks[0]) && q.blocks[0].nextIndex == f.next && q.blocks[0].size == size
    && !q.blocks[0].reassembled && !q.blocks[0].discontinuity && q.next == Wrap16(b + f.next)
    && !q.incompatible && !Unsynchronized(q) && f.next < 4 && f.marks[x] && b % 4 == 0
  }

  lemma ShardStored(q: Queue, b: U16, f: Fill, size: nat, x: nat)
    requires FillOk(f) && f.next < 4 && x < 6 && f.marks[x] && b % 4 == 0 && q.oldest == b
    requires q.next == Wrap16(b + f.next)
    requires |q.blocks| == 1 && HeadIs(q.blocks[0], b, f, size) && !q.incompatible && !Unsynchronized(q)
    ensures StoredIn(SetBlock(q, 0, StoreShard(q.blocks[0], x)), b, f, size, x)
  {
    StoreOk(q.blocks[0], x);
  }

  lemma StoredInv(q: Queue, b: U16, f: Fill, size: nat, x: nat)
    requires FillOk(f) && x < 6 && StoredIn(q, b, f, size, x)
    ensures Inv(q)
  {}

  /** The next packet itself. */
  lemma NextHandedOut(q: Queue, b: U16, f: Fill, size: nat)
    requires FillOk(f) && f.next < 4 && StoredIn(q, b, f, size, f.next)
    ensures Holds(HandOut(q, 0, q.next), b, Take(f, f.next), size)
  {
    StoredInv(q, b, f, size, f.next);
    var b0 := q.blocks[0];
    var q1 := SetBlock(q, 0, b0.(nextIndex := b0.nextIndex + 1)).(next := Wrap16(q.next + 1));
    if f.next == 3 {
      assert q1.blocks[1..] == [];
    }
  }

  /** The block once the shard is in: complete, or in order up to the first gap. */
  lemma SettledAlone(q: Queue, b: U16, f: Fill, size: nat, x: nat, now: nat, duration: nat)
    requires FillOk(f) && x < 6 && x != f.next && StoredIn(q, b, f, size, x)
    ensures var (q', v) := Settle(q, 0, now, duration);
      && Inv(q') && v == (if HasPacketReady(q') then Ready else Nothing)
      && |q'.blocks| == 1 && q' == q.(blocks := q'.blocks) && q'.blocks[0] == Complete(q.blocks[0])
  {
    StoredInv(q, b, f, size, x);
    CompleteOk(q.blocks[0]);
    var q1 := SetBlock(q, 0, Complete(q.blocks[0]));
    assert q1.blocks == [Complete(q.blocks[0])];
    assert Inv(q1);
  }

  /** Three shards and fewer leave a gap in the data. */
  lemma GapLeft(marks: seq<bool>, next: nat)
    requires |marks| == 6 && next < 4 && (forall i :: 0 <= i < next ==> !marks[i])
    ensures Have(marks) < 4 ==> FirstMissing(marks, next) < 4
  {
    var to := FirstMissing(marks, next);
    if to == 4 {
      assert forall i :: 0 <= i < 4 ==> !marks[..4][i];
      PresentAll(marks[..4]);
    }
  }

  /** A complete block alone in the queue is handed out to its end. */
  lemma WholeDrained(q: Queue, b: U16, f: Fill, size: nat)
    requires Inv(q) && |q.blocks| == 1 && b % 4 == 0 && FillOk(f) && f.next < 4 && !q.incompatible
    requires q.blocks[0].base == b == q.oldest && !q.blocks[0].discontinuity && q.blocks[0].nextIndex == f.next
    requires forall i :: f.next <= i < 4 ==> !q.blocks[0].marks[i]
    ensures HasPacketReady(q) && Holds(Drained(q), b, Fill(f.marks, 4), size)
    ensures |DrainedUnits(q)| == 4 - f.next && NoneLost(DrainedUnits(q))
  {
    OldestOfNext(q.oldest, q.next);
    DrainGiven(q, 4);
    NothingReady(HandedOut(q, 4));
    assert DrainedUnits(q)[..4 - f.next] == DrainedUnits(q);
  }

  /** The block alone in the queue, not complete. */
  ghost predicate Alone(q: Queue, b: U16, f: Fill, size: nat) {
    && Inv(q) && |q.blocks| == 1 && FillOk(f) && f.next < 4 && HeadIs(q.blocks[0], b, f, size) && q.oldest == b
    && b % 4 == 0 && q.next == Wrap16(b + f.next) && !q.incompatible && !Unsynchronized(q)
  }

  lemma PartDrained(q: Queue, b: U16, f: Fill, size: nat)
    requires Alone(q, b, f, size) && f != EMPTY && Have(f.marks) < 4
    ensures var to := FirstMissing(f.marks, f.next);
      && to < 4 && Holds(Drained(q), b, Fill(f.marks, to), size)
      && |DrainedUnits(q)| == to - f.next && NoneLost(DrainedUnits(q)) && (HasPacketReady(q) <==> to > f.next)
  {
    var to := FirstMissing(f.marks, f.next);
    GapLeft(f.marks, f.next);
    DrainGiven(q, to);
    var q1 := HandedOut(q, to);
    assert q1.blocks == [q.blocks[0].(nextIndex := to)];
    NothingReady(q1);
    assert DrainedUnits(q)[..to - f.next] == DrainedUnits(q);
  }

  /** The fourth shard completes the block. */
  lemma SettledWhole(q: Queue, b: U16, f: Fill, size: nat, x: nat, now: nat, duration: nat)
    requires FillOk(f) && x < 6 && x != f.next && StoredIn(q, b, f, size, x) && Have(f.marks[x := false]) >= 4
    ensures var (q', v) := Settle(q, 0, now, duration);
      && Inv(q') && v == Ready && Holds(Drained(q'), b, Take(f, x), size)
      && |DrainedUnits(q')| == 4 - f.next && NoneLost(DrainedUnits(q')) && q'.next == q.next
  {
    var marks := f.marks[x := false];
    SettledAlone(q, b, f, size, x, now, duration);
    assert q.blocks[0].dataReceived + q.blocks[0].fecReceived == Have(marks);
    CompleteHasAll(q.blocks[0]);
    WholeDrained(Settle(q, 0, now, duration).0, b, Fill(marks, f.next), size);
  }

  /** With fewer, what is in order is handed out. */
  lemma SettledPart(q: Queue, b: U16, f: Fill, size: nat, x: nat, now: nat, duration: nat)
    requires FillOk(f) && x < 6 && x != f.next && StoredIn(q, b, f, size, x) && Have(f.marks[x := false]) < 4
    ensures var (q', v) := Settle(q, 0, now, duration);
      && Inv(q') && v == (if Take(f, x).next > f.next then Ready else Nothing) && q'.next == q.next
      && Holds(Drained(q'), b, Take(f, x), size) && (v == Nothing ==> Drained(q') == q')
      && |DrainedUnits(q')| == Take(f, x).next - f.next && NoneLost(DrainedUnits(q'))
  {
    var marks := f.marks[x := false];
    SettledAlone(q, b, f, size, x, now, duration);
    var q' := Settle(q, 0, now, duration).0;
    assert q.blocks[0].dataReceived + q.blocks[0].fecReceived == Have(marks);
    assert q'.blocks[0] == q.blocks[0];
    assert EMPTY.marks[x] && !marks[x];
    PartDrained(q', b, Fill(marks, f.next), size);
    NothingReadyUnless(q');
  }

  /** A shard that is not the next packet: what its settling leads to. */
  lemma SettledTakes(q: Queue, b: U16, f: Fill, size: nat, x: nat, a: Arrival, now: nat, duration: nat)
    requires FillOk(f) && x < 6 && x != f.next && StoredIn(q, b, f, size, x)
    ensures CallLeadsTo(q.next, a, Settle(q, 0, now, duration), Take(f, x).next - f.next, b, Take(f, x), size)
    ensures Settle(q, 0, now, duration).1 != HandleNow
  {
    if Have(f.marks[x := false]) >= 4 {
      SettledWhole(q, b, f, size, x, now, duration);
    } else {
      SettledPart(q, b, f, size, x, now, duration);
    }
  }

  lemma CompleteHasAll(b: Block)
    requires BlockOk(b) && !b.reassembled && b.dataReceived + b.fecReceived >= 4
    ensures var b' := Complete(b);
      && (forall i :: 0 <= i < 4 ==> !b'.marks[i]) && b'.base == b.base && b'.nextIndex == b.nextIndex
      && b'.discontinuity == b.discontinuity
  {
    PresentAll(b.marks[..4]);
    if b.dataReceived == 4 {
      assert forall i :: 0 <= i < 4 ==> b.marks[..4][i] == b.marks[i];
    }
  }

  lemma NothingReadyUnless(q: Queue)
    requires Inv(q)
    ensures !HasPacketReady(q) ==> DrainedUnits(q) == [] && Drained(q) == q
  {
    if !HasPacketReady(q) { NothingReady(q); }
  }

  /** The next packet, once its block is found. */
  lemma NextPlaced(q: Queue, b: U16, f: Fill, size: nat, seqNum: U16, now: nat, duration: nat)
    requires Alone(q, b, f, size) && f.marks[f.next] && seqNum == b + f.next
    ensures CallLeadsTo(q.next, Data(seqNum, size), PlaceData(q, 0, seqNum, now, duration), 1, b, Take(f, f.next), size)
  {
    ShardStored(q, b, f, size, f.next);
    var q1 := SetBlock(q, 0, StoreShard(q.blocks[0], f.next));
    NextHandedOut(q1, b, f, size);
    NextIsNow(q, b, f, size, seqNum, now, duration);
    NowCalled(Data(seqNum, size), HandOut(q1, 0, q1.next), b, Take(f, f.next), size);
  }

  lemma NextIsNow(q: Queue, b: U16, f: Fill, size: nat, seqNum: U16, now: nat, duration: nat)
    requires Alone(q, b, f, size) && f.marks[f.next] && seqNum == b + f.next
    ensures q.next == seqNum
    ensures PlaceData(q, 0, seqNum, now, duration)
         == (HandOut(SetBlock(q, 0, StoreShard(q.blocks[0], f.next)), 0, q.next), HandleNow)
  {}

  lemma PlacedSettles(q: Queue, b: U16, f: Fill, size: nat, x: nat, seqNum: U16, now: nat, duration: nat)
    requires Alone(q, b, f, size) && x < 4 && f.marks[x] && x != f.next && seqNum == b + x
    ensures var q1 := SetBlock(q, 0, StoreShard(q.blocks[0], x));
      && StoredIn(q1, b, f, size, x) && q1.next == q.next
      && PlaceData(q, 0, seqNum, now, duration) == Settle(q1, 0, now, duration)
  {
    ShardStored(q, b, f, size, x);
  }

  lemma OtherPlaced(q: Queue, b: U16, f: Fill, size: nat, x: nat, seqNum: U16, now: nat, duration: nat)
    requires Alone(q, b, f, size) && x < 4 && f.marks[x] && x != f.next && seqNum == b + x
    ensures CallLeadsTo(q.next, Data(seqNum, size), PlaceData(q, 0, seqNum, now, duration), Take(f, x).next - f.next, b,
                        Take(f, x), size)
  {
    PlacedSettles(q, b, f, size, x, seqNum, now, duration);
    SettledTakes(SetBlock(q, 0, StoreShard(q.blocks[0], x)), b, f, size, x, Data(seqNum, size), now, duration);
  }

  /** A duplicate. */
  lemma SamePlaced(q: Queue, b: U16, f: Fill, size: nat, x: nat, seqNum: U16, now: nat, duration: nat)
    requires Alone(q, b, f, size) && x < 4 && !f.marks[x] && seqNum == b + x
    ensures CallLeadsTo(q.next, Data(seqNum, size), PlaceData(q, 0, seqNum, now, duration), 0, b, f, size)
  {
    SameIsNothing(q, b, f, size, x, seqNum, now, duration);
    AloneHolds(q, b, f, size, x);
    NothingCalled(q, Data(seqNum, size), b, f, size);
  }

  lemma SameIsNothing(q: Queue, b: U16, f: Fill, size: nat, x: nat, seqNum: U16, now: nat, duration: nat)
    requires Alone(q, b, f, size) && x < 4 && !f.marks[x] && seqNum == b + x
    ensures PlaceData(q, 0, seqNum, now, duration) == (q, Nothing)
  {}

  lemma AloneHolds(q: Queue, b: U16, f: Fill, size: nat, x: nat)
    requires Alone(q, b, f, size) && x < 6 && !f.marks[x]
    ensures Holds(q, b, f, size)
  {
    assert EMPTY.marks[x];
  }

  lemma OwnPlaced(q: Queue, b: U16, f: Fill, size: nat, x: nat, seqNum: U16, now: nat, duration: nat)
    requires Alone(q, b, f, size) && x < 4 && seqNum == b + x
    ensures CallLeadsTo(q.next, Data(seqNum, size), PlaceData(q, 0, seqNum, now, duration), Take(f, x).next - f.next, b,
                        Take(f, x), size)
  {
    if !f.marks[x] {
      SamePlaced(q, b, f, size, x, seqNum, now, duration);
    } else if x == f.next {
      NextPlaced(q, b, f, size, seqNum, now, duration);
    } else {
      OtherPlaced(q, b, f, size, x, seqNum, now, duration);
    }
  }

  /** The queue with the block found. */
  lemma FoundAlone(q: Queue, b: U16, f: Fill, size: nat, now: nat)
    requires Holds(q, b, f, size) && f.next < 4
    ensures var (q1, place) := GetBlock(q, b, size, now);
      place == Some(0) && Alone(q1, b, f, size) && q1.next == q.next && (f != EMPTY ==> q1 == q)
  {
    BlockFound(q, b, f, size, now);
    BlocksOk(q, b, size, now);
  }

  /** A data packet of the block, in the queue as the packet has been noted. */
  lemma OwnData(q: Queue, b: U16, f: Fill, size: nat, x: nat, seqNum: U16, now: nat, duration: nat)
    requires Holds(q, b, f, size) && f.next < 4 && x < 4 && seqNum == b + x
    ensures CallLeadsTo(q.next, Data(seqNum, size), StoreData(q, seqNum, size, now, duration), Take(f, x).next - f.next,
                        b, Take(f, x), size)
  {
    FoundAlone(q, b, f, size, now);
    var q1 := GetBlock(q, b, size, now).0;
    NumberInBlock(b, x, seqNum);
    StoreIsPlace(q, size, seqNum, now, duration);
    OwnPlaced(q1, b, f, size, x, seqNum, now, duration);
  }

  lemma StoreIsPlace(q: Queue, size: nat, seqNum: U16, now: nat, duration: nat)
    requires AllOk(q.blocks) && GetBlock(q, BaseOf(seqNum), size, now).1 == Some(0)
    ensures var q1 := GetBlock(q, BaseOf(seqNum), size, now).0;
      && AllOk(q1.blocks) && q1.blocks != [] && !q1.blocks[0].reassembled
      && StoreData(q, seqNum, size, now, duration) == PlaceData(q1, 0, seqNum, now, duration)
  {
    BlocksOk(q, BaseOf(seqNum), size, now);
  }

  lemma NumberInBlock(b: U16, x: nat, seqNum: U16)
    requires b % 4 == 0 && x < 4 && seqNum == b + x
    ensures BaseOf(seqNum) == b && seqNum % 4 == x
  {}

  lemma FecPlaced(q: Queue, b: U16, f: Fill, size: nat, x: nat, now: nat, duration: nat)
    requires Alone(q, b, f, size) && 4 <= x < 6
    ensures CallLeadsTo(q.next, Fec(b, x - 4, size), PlaceFec(q, 0, x - 4, now, duration), Take(f, x).next - f.next, b,
                        Take(f, x), size)
  {
    if f.marks[x] {
      ShardStored(q, b, f, size, x);
      SettledTakes(SetBlock(q, 0, StoreShard(q.blocks[0], x)), b, f, size, x, Fec(b, x - 4, size), now, duration);
    }
  }

  lemma OwnFec(q: Queue, b: U16, f: Fill, size: nat, x: nat, shard: nat, now: nat, duration: nat)
    requires Holds(q, b, f, size) && f.next < 4 && 4 <= x < 6 && shard == x - 4
    ensures CallLeadsTo(q.next, Fec(b, shard, size), AddFec(q, b, shard, size, now, duration), Take(f, x).next - f.next,
                        b, Take(f, x), size)
  {
    FoundAlone(q, b, f, size, now);
    var q1 := GetBlock(q, b, size, now).0;
    assert AddFec(q, b, shard, size, now, duration) == PlaceFec(q1, 0, shard, now, duration);
    FecPlaced(q1, b, f, size, x, now, duration);
  }

  lemma OwnDataReceived(q: Queue, b: U16, f: Fill, size: nat, x: nat, seqNum: U16, now: nat, duration: nat)
    requires Holds(q, b, f, size) && f.next < 4 && x < 4 && seqNum == b + x && CanReceive(q)
    ensures LeadsTo(Receive(q, Event(Data(seqNum, size), now), duration), Take(f, x).next - f.next, b, Take(f, x), size)
  {
    var q1 := NoteOutOfSequence(q, seqNum);
    NoteSame(q, b, f, size, seqNum);
    OwnData(q1, b, f, size, x, seqNum, now, duration);
    DataReceived(q, q1, seqNum, size, Take(f, x).next - f.next, b, Take(f, x), size, now, duration);
  }

  lemma OwnFecReceived(q: Queue, b: U16, f: Fill, size: nat, x: nat, shard: nat, now: nat, duration: nat)
    requires Holds(q, b, f, size) && f.next < 4 && 4 <= x < 6 && shard == x - 4 && CanReceive(q)
    ensures LeadsTo(Receive(q, Event(Fec(b, shard, size), now), duration), Take(f, x).next - f.next, b, Take(f, x),
                    size)
  {
    OwnFec(q, b, f, size, x, shard, now, duration);
    FecReceived(q, b, shard, size, Take(f, x).next - f.next, b, Take(f, x), size, now, duration);
  }

  /** A shard of the block that the queue waits for does what Take says. */
  lemma OwnShard(q: Queue, b: U16, f: Fill, size: nat, x: nat, a: Arrival, now: nat, duration: nat)
    requires Holds(q, b, f, size) && f.next < 4 && x < 6 && IsShard(a, b, x, size)
    ensures CanReceive(q)
    ensures LeadsTo(Receive(q, Event(a, now), duration), Take(f, x).next - f.next, b, Take(f, x), size)
  {
    CanReceiveHere(q, b, f, size);
    if x < 4 {
      OwnDataReceived(q, b, f, size, x, a.seqNum, now, duration);
    } else {
      OwnFecReceived(q, b, f, size, x, a.shard, now, duration);
    }
  }

  /** The packet is of a block already left behind, or no packet at all. */
  predicate IsLate(q: Queue, a: Arrival) {
    match a
    case Data(seqNum, _) => IsBefore16(BaseOf(seqNum), q.oldest)
    case Fec(base, shard, _) => shard >= FEC_SHARDS || (base % 4 == 0 && IsBefore16(base, q.oldest))
    case Invalid(_) => true
  }

  lemma LateDropped(q: Queue, b: U16, f: Fill, size: nat, a: Arrival, now: nat, duration: nat)
    requires Holds(q, b, f, size) && IsLate(q, a)
    ensures CanReceive(q) && LeadsTo(Receive(q, Event(a, now), duration), 0, b, f, size)
  {
    if a.Data? { NoteSame(q, b, f, size, a.seqNum); }
  }

  // ----- a shard of the next block

  function NextBase(b: U16): U16 { Wrap16(b + 4) }

  /** One shard of the block has come, and nothing been handed out. */
  function First(x: nat): (f: Fill)
    requires x < 6
    ensures FillOk(f)
  {
    Fill(EMPTY.marks[x := false], 0)
  }

  /** Behind the block that is waited for waits the next one, of which shard x has come. */
  ghost predicate Two(q: Queue, b: U16, f: Fill, size: nat, x: nat, size': nat) {
    && Inv(q) && |q.blocks| == 2 && FillOk(f) && f.next < 4 && f != EMPTY && HeadIs(q.blocks[0], b, f, size) && x < 6
    && HeadIs(q.blocks[1], NextBase(b), First(x), size')
    && q.oldest == b && b % 4 == 0 && q.next == Wrap16(b + f.next) && !q.incompatible && !Unsynchronized(q)
  }

  lemma NewBlockIs(b: U16, size: nat, now: nat)
    requires b % 4 == 0
    ensures HeadIs(NewBlock(b, size, now), b, EMPTY, size)
  {
    var h := NewBlock(b, size, now);
    assert h.marks[..4] == [true, true, true, true] && h.marks[4..] == [true, true];
    NonePresent(h.marks[..4]); NonePresent(h.marks[4..]);
  }

  lemma FirstStored(b: U16, size: nat, x: nat, now: nat)
    requires b % 4 == 0 && x < 6
    ensures BlockOk(NewBlock(b, size, now)) && HeadIs(StoreShard(NewBlock(b, size, now), x), b, First(x), size)
    ensures Complete(StoreShard(NewBlock(b, size, now), x)) == StoreShard(NewBlock(b, size, now), x)
  {
    NewBlockIs(b, size, now);
    StoreOk(NewBlock(b, size, now), x);
  }

  /** A block for the next base is put behind the waiting one. */
  lemma NextBlockMade(q: Queue, b: U16, f: Fill, size: nat, size': nat, now: nat)
    requires Holds(q, b, f, size) && f.next < 4 && f != EMPTY
    ensures GetBlock(q, NextBase(b), size', now)
         == (q.(blocks := [q.blocks[0], NewBlock(NextBase(b), size', now)]), Some(1))
  {
    assert FindPlace(q.blocks, NextBase(b), 0) == FindPlace(q.blocks, NextBase(b), 1) == 1;
    assert q.blocks[..1] == [q.blocks[0]] && q.blocks[1..] == [];
    assert [q.blocks[0]] + [NewBlock(NextBase(b), size', now)] + []
        == [q.blocks[0], NewBlock(NextBase(b), size', now)];
  }

  /** The queue with the shard of the next block in. */
  function Behind(q: Queue, b: U16, size': nat, x: nat, now: nat): Queue
    requires q.blocks != [] && x < 6
  {
    q.(blocks := [q.blocks[0], StoreShard(NewBlock(NextBase(b), size', now), x)])
  }

  lemma BehindIsTwo(q: Queue, b: U16, f: Fill, size: nat, size': nat, x: nat, now: nat)
    requires Holds(q, b, f, size) && f.next < 4 && f != EMPTY && x < 6
    ensures Two(Behind(q, b, size', x, now), b, f, size, x, size')
  {
    FirstStored(NextBase(b), size', x, now);
    var blocks := Behind(q, b, size', x, now).blocks;
    assert Ahead(b, NextBase(b)) == 4 && Ahead(b, b) == 0;
  }

  /** What is left to do once the shard is in. */
  function Pending(q: Queue, now: nat, duration: nat): (Queue, Verdict)
    requires AllOk(q.blocks)
  {
    var q' := if HasPacketReady(q) then q else HandleMissing(q, now, duration);
    (q', if HasPacketReady(q') then Ready else Nothing)
  }

  lemma SettlesBehind(q: Queue, b: U16, size': nat, x: nat, now: nat, duration: nat)
    requires q.blocks != [] && BlockOk(q.blocks[0]) && x < 6 && b % 4 == 0
    ensures var q1, q2 := q.(blocks := [q.blocks[0], NewBlock(NextBase(b), size', now)]), Behind(q, b, size', x, now);
      && AllOk(q1.blocks) && AllOk(q2.blocks) && q2 == SetBlock(q1, 1, StoreShard(q1.blocks[1], x))
      && Settle(q2, 1, now, duration) == Pending(q2, now, duration)
  {
    FirstStored(NextBase(b), size', x, now);
    var q2 := Behind(q, b, size', x, now);
    assert q2.blocks[1 := q2.blocks[1]] == q2.blocks;
  }

  lemma NextData(q: Queue, b: U16, f: Fill, size: nat, size': nat, x: nat, seqNum: U16, now: nat, duration: nat)
    requires Holds(q, b, f, size) && f.next < 4 && f != EMPTY && x < 4 && seqNum == NextBase(b) + x
    ensures AllOk(Behind(q, b, size', x, now).blocks)
    ensures StoreData(q, seqNum, size', now, duration) == Pending(Behind(q, b, size', x, now), now, duration)
  {
    NextBlockMade(q, b, f, size, size', now);
    NumberInBlock(NextBase(b), x, seqNum);
    SettlesBehind(q, b, size', x, now, duration);
  }

  lemma NextFec(q: Queue, b: U16, f: Fill, size: nat, size': nat, x: nat, shard: nat, now: nat, duration: nat)
    requires Holds(q, b, f, size) && f.next < 4 && f != EMPTY && 4 <= x < 6 && shard == x - 4
    ensures AllOk(Behind(q, b, size', x, now).blocks)
    ensures AddFec(q, NextBase(b), shard, size', now, duration)
         == Pending(Behind(q, b, size', x, now), now, duration)
  {
    NextBlockMade(q, b, f, size, size', now);
    SettlesBehind(q, b, size', x, now, duration);
  }

  lemma FirstIsTaken(x: nat)
    requires x < 6
    ensures Have(First(x).marks) < 4 && First(x) != EMPTY
    ensures Take(EMPTY, x) == Fill(First(x).marks, FirstMissing(First(x).marks, 0))
  {
    FirstStored(0, 0, x, 0);
    var h := StoreShard(NewBlock(0, 0, 0), x);
    assert h.dataReceived + h.fecReceived == Have(First(x).marks);
  }

  /** With the old block handed out, the new one is alone. */
  lemma HeadLeaves(q: Queue, b: U16, f: Fill, size: nat, x: nat, size': nat)
    requires Two(q, b, f, size, x, size') && Inv(HandedOut(q, 4))
    ensures Alone(HandedOut(q, 4), NextBase(b), First(x), size')
  {
    assert q.blocks[1..] == [q.blocks[1]];
  }

  lemma NoneLostJoin(units: seq<Unit>, n: nat, rest: seq<Unit>)
    requires Extends(units, n, rest) && NoneLost(rest)
    ensures NoneLost(units) && |units| == n + |rest|
  {
    forall i | 0 <= i < |units|
      ensures !units[i].lost
    {
      if i < n { assert units[..n][i] == units[i]; } else { assert units[n..][i - n] == units[i]; }
    }
  }

  /** The old block is played to its end, and of the new one what is in order. */
  lemma TwoPlayed(q: Queue, b: U16, f: Fill, size: nat, x: nat, size': nat)
    requires Two(q, b, f, size, x, size') && Plays(f)
    ensures HasPacketReady(q) && Holds(Drained(q), NextBase(b), Take(EMPTY, x), size')
    ensures |DrainedUnits(q)| == 4 - f.next + Take(EMPTY, x).next && NoneLost(DrainedUnits(q))
  {
    DrainGiven(q, 4);
    HeadLeaves(q, b, f, size, x, size');
    FirstIsTaken(x);
    PartDrained(HandedOut(q, 4), NextBase(b), First(x), size');
    NoneLostJoin(DrainedUnits(q), 4 - f.next, DrainedUnits(HandedOut(q, 4)));
  }

  lemma PendingPlayed(q: Queue, b: U16, f: Fill, size: nat, x: nat, size': nat, a: Arrival, now: nat, duration: nat)
    requires Two(q, b, f, size, x, size') && Plays(f)
    ensures CallLeadsTo(q.next, a, Pending(q, now, duration), 4 - f.next + Take(EMPTY, x).next, NextBase(b),
                        Take(EMPTY, x), size')
  {
    TwoPlayed(q, b, f, size, x, size');
    assert Pending(q, now, duration) == (q, Ready);
  }

  lemma NextDataPlayed(q: Queue, b: U16, f: Fill, size: nat, size': nat, x: nat, seqNum: U16, now: nat, duration: nat)
    requires Holds(q, b, f, size) && f.next < 4 && f != EMPTY && Plays(f) && CanReceive(q)
    requires x < 4 && seqNum == NextBase(b) + x
    ensures LeadsTo(Receive(q, Event(Data(seqNum, size'), now), duration), 4 - f.next + Take(EMPTY, x).next,
                    NextBase(b), Take(EMPTY, x), size')
  {
    var q1 := NoteOutOfSequence(q, seqNum);
    NoteSame(q, b, f, size, seqNum);
    NextData(q1, b, f, size, size', x, seqNum, now, duration);
    BehindIsTwo(q1, b, f, size, size', x, now);
    PendingPlayed(Behind(q1, b, size', x, now), b, f, size, x, size', Data(seqNum, size'), now, duration);
    DataReceived(q, q1, seqNum, size', 4 - f.next + Take(EMPTY, x).next, NextBase(b), Take(EMPTY, x), size', now,
                 duration);
  }

  lemma NextFecPlayed(q: Queue, b: U16, f: Fill, size: nat, size': nat, x: nat, shard: nat, now: nat, duration: nat)
    requires Holds(q, b, f, size) && f.next < 4 && f != EMPTY && Plays(f) && CanReceive(q)
    requires 4 <= x < 6 && shard == x - 4
    ensures LeadsTo(Receive(q, Event(Fec(NextBase(b), shard, size'), now), duration),
                    4 - f.next + Take(EMPTY, x).next, NextBase(b), Take(EMPTY, x), size')
  {
    NextFec(q, b, f, size, size', x, shard, now, duration);
    BehindIsTwo(q, b, f, size, size', x, now);
    PendingPlayed(Behind(q, b, size', x, now), b, f, size, x, size', Fec(NextBase(b), shard, size'), now, duration);
    FecReceived(q, NextBase(b), shard, size', 4 - f.next + Take(EMPTY, x).next, NextBase(b), Take(EMPTY, x), size',
                now, duration);
  }

  lemma HoldsNext(q: Queue, b: U16, f: Fill, size: nat, size': nat)
    requires Holds(q, b, f, size) && f.next == 4
    ensures Holds(q, NextBase(b), EMPTY, size')
  {}

  /** The first shard of the next block: what was left of this one is played first. */
  lemma NextShard(q: Queue, b: U16, f: Fill, size: nat, size': nat, x: nat, a: Arrival, now: nat, duration: nat)
    requires Holds(q, b, f, size) && f != EMPTY && Plays(f) && x < 6 && IsShard(a, NextBase(b), x, size')
    ensures CanReceive(q)
    ensures LeadsTo(Receive(q, Event(a, now), duration), 4 - f.next + Take(EMPTY, x).next, NextBase(b), Take(EMPTY, x),
                    size')
  {
    CanReceiveHere(q, b, f, size);
    if f.next == 4 {
      HoldsNext(q, b, f, size, size');
      OwnShard(q, NextBase(b), EMPTY, size', x, a, now, duration);
    } else if x < 4 {
      NextDataPlayed(q, b, f, size, size', x, a.seqNum, now, duration);
    } else {
      NextFecPlayed(q, b, f, size, size', x, a.shard, now, duration);
    }
  }

  // ----- whole runs

  /** A packet of a stream whose blocks come in turn: a shard of the current block, the first shard of the next
      one, or a packet that comes late. */
  datatype Turn = Own(shard: nat, now: nat) | Next(shard: nat, size: nat, now: nat) | Late(arrival: Arrival, now: nat)

  function ShardOf(b: U16, x: nat, size: nat): (a: Arrival)
    requires b % 4 == 0 && x < 6
    ensures IsShard(a, b, x, size)
  {
    if x < 4 then Data(b + x, size) else Fec(b, x - 4, size)
  }

  /** Behind the block at b and the next one. */
  predicate LateFor(a: Arrival, b: U16) {
    match a
    case Data(seqNum, _) => IsBefore16(BaseOf(seqNum), b) && IsBefore16(BaseOf(seqNum), NextBase(b))
    case Fec(base, shard, _) =>
      shard >= FEC_SHARDS || (base % 4 == 0 && IsBefore16(base, b) && IsBefore16(base, NextBase(b)))
    case Invalid(_) => true
  }

  /** The blocks come in turn, and at every change of blocks nothing is missing of the old one. */
  predicate InTurn(turns: seq<Turn>, b: U16, f: Fill)
    requires FillOk(f)
    decreases |turns|
  {
    turns == [] ||
    match turns[0]
    case Own(x, _) => x < 6 && InTurn(turns[1..], b, Take(f, x))
    case Next(x, _, _) => x < 6 && f != EMPTY && Plays(f) && InTurn(turns[1..], NextBase(b), Take(EMPTY, x))
    case Late(a, _) => LateFor(a, b) && InTurn(turns[1..], b, f)
  }

  /** The packets themselves; b and size are those of the current block. */
  function EventsOf(turns: seq<Turn>, b: U16, f: Fill, size: nat): seq<Event>
    requires b % 4 == 0 && FillOk(f) && InTurn(turns, b, f)
    decreases |turns|
  {
    if turns == [] then []
    else match turns[0]
      case Own(x, now) => [Event(ShardOf(b, x, size), now)] + EventsOf(turns[1..], b, Take(f, x), size)
      case Next(x, size', now) =>
        [Event(ShardOf(NextBase(b), x, size'), now)] + EventsOf(turns[1..], NextBase(b), Take(EMPTY, x), size')
      case Late(a, now) => [Event(a, now)] + EventsOf(turns[1..], b, f, size)
  }

  /** How many packets are played. */
  function PlayedIn(turns: seq<Turn>, b: U16, f: Fill): (n: int)
    requires FillOk(f) && InTurn(turns, b, f)
    decreases |turns|
  {
    if turns == [] then 0
    else match turns[0]
      case Own(x, _) => Take(f, x).next - f.next + PlayedIn(turns[1..], b, Take(f, x))
      case Next(x, _, _) => 4 - f.next + Take(EMPTY, x).next + PlayedIn(turns[1..], NextBase(b), Take(EMPTY, x))
      case Late(_, _) => PlayedIn(turns[1..], b, f)
  }

  /** How many blocks are begun after the current one. */
  function BlocksBegun(turns: seq<Turn>): nat {
    if turns == [] then 0 else (if turns[0].Next? then 1 else 0) + BlocksBegun(turns[1..])
  }

  /** What has come of the last block. */
  function LastFill(turns: seq<Turn>, b: U16, f: Fill): (r: Fill)
    requires FillOk(f) && InTurn(turns, b, f)
    ensures FillOk(r)
    decreases |turns|
  {
    if turns == [] then f
    else match turns[0]
      case Own(x, _) => LastFill(turns[1..], b, Take(f, x))
      case Next(x, _, _) => LastFill(turns[1..], NextBase(b), Take(EMPTY, x))
      case Late(_, _) => LastFill(turns[1..], b, f)
  }

  /** All blocks but the last are played whole. */
  lemma {:induction false} PlayedExactly(turns: seq<Turn>, b: U16, f: Fill)
    requires FillOk(f) && InTurn(turns, b, f)
    ensures PlayedIn(turns, b, f) == 4 * BlocksBegun(turns) + LastFill(turns, b, f).next - f.next
    decreases |turns|
  {
    if turns != [] {
      match turns[0]
      case Own(x, _) => PlayedExactly(turns[1..], b, Take(f, x));
      case Next(x, _, _) => PlayedExactly(turns[1..], NextBase(b), Take(EMPTY, x));
      case Late(_, _) => PlayedExactly(turns[1..], b, f);
    }
  }

  /** A further shard of the current block, needed or not. */
  lemma AnyOwnShard(q: Queue, b: U16, f: Fill, size: nat, x: nat, a: Arrival, now: nat, duration: nat)
    requires Holds(q, b, f, size) && x < 6 && IsShard(a, b, x, size)
    ensures CanReceive(q)
    ensures LeadsTo(Receive(q, Event(a, now), duration), Take(f, x).next - f.next, b, Take(f, x), size)
  {
    if f.next < 4 {
      OwnShard(q, b, f, size, x, a, now, duration);
    } else {
      if x < 4 { NumberInBlock(b, x, a.seqNum); }
      LateDropped(q, b, f, size, a, now, duration);
    }
  }

  /** The deliveries are those of consecutive positions, and none is a stand-in for a lost packet. */
  ghost predicate AllPlayed(ds: seq<Delivery>, position: nat) {
    forall i :: 0 <= i < |ds| ==> ds[i].position == position + i && !ds[i].unit.lost
  }

  lemma PlayedOn(units: seq<Unit>, position: nat, rest: seq<Delivery>)
    requires NoneLost(units) && AllPlayed(rest, position + |units|)
    ensures AllPlayed(Placed(units, position) + rest, position)
  {}

  /** The first packet of a run in turn, and where it leads. */
  lemma FirstTurn(q: Queue, b: U16, f: Fill, size: nat, turns: seq<Turn>, duration: nat)
    returns (b': U16, f': Fill, size': nat, n: nat)
    requires Holds(q, b, f, size) && InTurn(turns, b, f) && turns != []
    ensures FillOk(f') && InTurn(turns[1..], b', f') && b' % 4 == 0 && CanReceive(q)
    ensures EventsOf(turns, b, f, size)[1..] == EventsOf(turns[1..], b', f', size') && EventsOf(turns, b, f, size) != []
    ensures LeadsTo(Receive(q, EventsOf(turns, b, f, size)[0], duration), n, b', f', size')
    ensures PlayedIn(turns, b, f) == n + PlayedIn(turns[1..], b', f')
  {
    var a := EventsOf(turns, b, f, size)[0].arrival;
    match turns[0]
    case Own(x, now) =>
      AnyOwnShard(q, b, f, size, x, a, now, duration);
      b', f', size', n := b, Take(f, x), size, Take(f, x).next - f.next;
    case Next(x, next, now) =>
      NextShard(q, b, f, size, next, x, a, now, duration);
      b', f', size', n := NextBase(b), Take(EMPTY, x), next, 4 - f.next + Take(EMPTY, x).next;
    case Late(_, now) =>
      CanReceiveHere(q, b, f, size);
      LateDropped(q, b, f, size, a, now, duration);
      b', f', size', n := b, f, size, 0;
  }

  lemma RunFirst(step: (Queue, Event) --> Receipt, q: Queue, position: nat, events: seq<Event>)
    requires events != [] && CanReceive(q) && step.requires(q, events[0])
    requires RunOk(step, step(q, events[0]).queue, events[1..])
    ensures RunOk(step, q, events)
    ensures var r := step(q, events[0]);
      Deliveries(step, q, position, events)
        == Placed(r.units, position + r.jump)
           + Deliveries(step, r.queue, position + r.jump + |r.units|, events[1..])
  {}

  lemma ReceivingIs(q: Queue, e: Event, duration: nat)
    requires CanReceive(q)
    ensures Receiving(duration).requires(q, e) && Receiving(duration)(q, e) == Receive(q, e, duration)
  {}

  /** No packet of the run leads to a jump or a stand-in, and total units leave. */
  ghost predicate Smooth(step: (Queue, Event) --> Receipt, q: Queue, events: seq<Event>, total: int)
    decreases |events|
  {
    if events == [] then total == 0
    else
      && CanReceive(q) && step.requires(q, events[0])
      && var r := step(q, events[0]);
         r.jump == 0 && NoneLost(r.units) && Smooth(step, r.queue, events[1..], total - |r.units|)
  }

  lemma {:induction false} SmoothPlays(step: (Queue, Event) --> Receipt, q: Queue, position: nat, events: seq<Event>,
                                       total: int)
    requires Smooth(step, q, events, total)
    ensures RunOk(step, q, events)
    ensures var ds := Deliveries(step, q, position, events); AllPlayed(ds, position) && |ds| == total
    decreases |events|
  {
    if events != [] {
      var r := step(q, events[0]);
      SmoothPlays(step, r.queue, position + |r.units|, events[1..], total - |r.units|);
      RunFirst(step, q, position, events);
      PlayedOn(r.units, position, Deliveries(step, r.queue, position + |r.units|, events[1..]));
    }
  }

  lemma SmoothFirst(step: (Queue, Event) --> Receipt, q: Queue, events: seq<Event>, n: nat, rest: int, b: U16, f: Fill,
                    size: nat)
    requires events != [] && CanReceive(q) && step.requires(q, events[0])
    requires LeadsTo(step(q, events[0]), n, b, f, size) && Smooth(step, step(q, events[0]).queue, events[1..], rest)
    ensures Smooth(step, q, events, n + rest)
  {}

  lemma {:induction false} InTurnSmooth(q: Queue, b: U16, f: Fill, size: nat, turns: seq<Turn>, duration: nat)
    requires Holds(q, b, f, size) && InTurn(turns, b, f)
    ensures Smooth(Receiving(duration), q, EventsOf(turns, b, f, size), PlayedIn(turns, b, f))
    decreases |turns|
  {
    if turns != [] {
      var events := EventsOf(turns, b, f, size);
      var b', f', size', n := FirstTurn(q, b, f, size, turns, duration);
      ReceivingIs(q, events[0], duration);
      InTurnSmooth(Receiving(duration)(q, events[0]).queue, b', f', size', turns[1..], duration);
      SmoothFirst(Receiving(duration), q, events, n, PlayedIn(turns[1..], b', f'), b', f', size');
    }
  }

  /** In a run whose blocks come in turn, every packet of every block but the last is played, in order and
      without a gap, and of the last block what LastFill says. */
  lemma InTurnPlays(q: Queue, b: U16, f: Fill, size: nat, position: nat, turns: seq<Turn>, duration: nat)
    requires Holds(q, b, f, size) && InTurn(turns, b, f)
    ensures RunOk(Receiving(duration), q, EventsOf(turns, b, f, size))
    ensures var ds := Deliveries(Receiving(duration), q, position, EventsOf(turns, b, f, size));
      AllPlayed(ds, position) && |ds| == 4 * BlocksBegun(turns) + LastFill(turns, b, f).next - f.next
  {
    InTurnSmooth(q, b, f, size, turns, duration);
    SmoothPlays(Receiving(duration), q, position, EventsOf(turns, b, f, size), PlayedIn(turns, b, f));
    PlayedExactly(turns, b, f);
  }
}
