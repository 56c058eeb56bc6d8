/** Exactly which blocks the audio queue plays whole: four of the six shards suffice unless the fourth is the next
    packet itself. */
module AudioExact {
  import opened Wrappers
  import opened SequenceNumbers
  import opened AudioControl
  import opened AudioRuns

  // ----- exactly which blocks are played

  /** What has come of a block after the shards. */
  function Taken(xs: seq<nat>): (f: Fill)
    requires forall i :: 0 <= i < |xs| ==> xs[i] < 6
    ensures FillOk(f)
  {
    if xs == [] then EMPTY else Take(Taken(xs[..|xs| - 1]), xs[|xs| - 1])
  }

  /** The shard makes four, and is not the next packet itself. */
  predicate Completes(f: Fill, x: nat)
    requires FillOk(f) && x < 6
  {
    f.next < 4 && f.marks[x] && x != f.next && Have(f.marks[x := false]) >= 4
  }

  /** Some shard of them completes the block. */
  predicate SomeCompletes(xs: seq<nat>)
    requires forall i :: 0 <= i < |xs| ==> xs[i] < 6
  {
    xs != [] &&
    var front, x := xs[..|xs| - 1], xs[|xs| - 1];
    SomeCompletes(front) || Completes(Taken(front), x)
  }

  ghost predicate AllDataCome(xs: seq<nat>) {
    forall i: nat :: i < 4 ==> i in xs
  }

  /** A block is over once a shard has completed it, or when its packets have been handed out one by one. */
  lemma {:induction false} TakenIs(xs: seq<nat>)
    requires forall i :: 0 <= i < |xs| ==> xs[i] < 6
    ensures Taken(xs).next < 4 ==> !SomeCompletes(xs) && forall i: nat :: i < 6 ==> (!Taken(xs).marks[i] <==> i in xs)
    ensures Taken(xs).next == 4 ==> SomeCompletes(xs) || AllDataCome(xs)
    decreases |xs|
  {
    if xs != [] {
      var front, x := xs[..|xs| - 1], xs[|xs| - 1];
      TakenIs(front);
      assert forall i :: i in xs <==> i in front || i == x;
      var f := Taken(front);
      if f.next < 4 && f.marks[x] && x != f.next && Have(f.marks[x := false]) < 4 {
        GapLeft(f.marks[x := false], f.next);
      }
    }
  }

  /** All packets of a block can be played exactly if all have come, or one of the shards completed the block:
      that is one that made four and was not the next packet itself. */
  lemma PlaysExact(xs: seq<nat>)
    requires forall i :: 0 <= i < |xs| ==> xs[i] < 6
    ensures Plays(Taken(xs)) <==> AllDataCome(xs) || SomeCompletes(xs)
  {
    TakenIs(xs);
    var f := Taken(xs);
    if f.next < 4 {
      assert Plays(f) <==> forall i: nat :: i < 4 ==> !f.marks[i];
    }
  }

  // ----- what a gap leads to

  /** The head waits for a packet with another block behind it, and late data has not been seen. */
  ghost predicate Stuck(q: Queue, b: U16, f: Fill, size: nat) {
    && Inv(q) && |q.blocks| == 2 && FillOk(f) && f.next < 4 && f.marks[f.next] && HeadIs(q.blocks[0], b, f, size)
    && q.oldest == b && b % 4 == 0 && q.next == Wrap16(b + f.next) && !q.incompatible && !q.oos
  }

  /** The queue gives up, and hands out a stand-in. */
  lemma GivesUp(q: Queue, b: U16, f: Fill, size: nat, now: nat, duration: nat)
    requires Stuck(q, b, f, size)
    ensures var (q', v) := Pending(q, now, duration);
      Inv(q') && v == Ready && DrainedUnits(q') != [] && DrainedUnits(q')[0].lost && q'.next == q.next
  {
    var h := q.blocks[0];
    var q' := q.(blocks := [h.(discontinuity := true)] + q.blocks[1..]);
    assert !IsBefore16(q.next, h.base);
    assert HandleMissing(q, now, duration) == q';
    assert Inv(q');
    DrainUnfolds(q');
  }

  lemma PendingLoses(q: Queue, b: U16, f: Fill, size: nat, a: Arrival, now: nat, duration: nat)
    requires Stuck(q, b, f, size)
    ensures var call := Pending(q, now, duration);
      && Inv(call.0) && call.1 == Ready && !NoneLost(ReceiptOf(q.next, a, call.0, call.1).units)
  {
    GivesUp(q, b, f, size, now, duration);
  }

  lemma DataLoses(q: Queue, q1: Queue, seqNum: U16, size: nat, call: (Queue, Verdict), now: nat, duration: nat)
    requires CanReceive(q) && q1 == NoteOutOfSequence(q, seqNum) && AllOk(q1.blocks)
    requires call == StoreData(q1, seqNum, size, now, duration) && Inv(call.0) && call.1 == Ready
    requires !NoneLost(ReceiptOf(q1.next, Data(seqNum, size), call.0, call.1).units)
    ensures !NoneLost(Receive(q, Event(Data(seqNum, size), now), duration).units)
  {
    AddKeeps(q, Data(seqNum, size), now, duration);
    assert Receive(q, Event(Data(seqNum, size), now), duration)
        == ReceiptOf(q1.next, Data(seqNum, size), call.0, call.1);
  }

  /** The next packet is missing when the next block begins. */
  lemma NextMissing(q: Queue, b: U16, f: Fill, size: nat, size': nat, seqNum: U16, now: nat, duration: nat)
    requires Holds(q, b, f, size) && f.next < 4 && f != EMPTY && f.marks[f.next] && !q.oos && CanReceive(q)
    requires seqNum == NextBase(b)
    ensures !NoneLost(Receive(q, Event(Data(seqNum, size'), now), duration).units)
  {
    var q1 := NoteOutOfSequence(q, seqNum);
    NoteSame(q, b, f, size, seqNum);
    assert !q1.oos;
    NextData(q1, b, f, size, size', 0, seqNum, now, duration);
    var q2 := Behind(q1, b, size', 0, now);
    BehindIsTwo(q1, b, f, size, size', 0, now);
    PendingLoses(q2, b, f, size, Data(seqNum, size'), now, duration);
    DataLoses(q, q1, seqNum, size', Pending(q2, now, duration), now, duration);
  }

  /** Up to the gap the old block is played; then the two wait on. */
  lemma TwoHalfPlayed(q: Queue, b: U16, f: Fill, size: nat, x: nat, size': nat)
    requires Two(q, b, f, size, x, size') && !f.marks[f.next] && FirstMissing(f.marks, f.next) < 4
    ensures HasPacketReady(q)
    ensures var to := FirstMissing(f.marks, f.next);
      && Two(Drained(q), b, Fill(f.marks, to), size, x, size') && NoneLost(DrainedUnits(q))
      && Drained(q) == HandedOut(q, to)
  {
    var to := FirstMissing(f.marks, f.next);
    DrainGiven(q, to);
    var q1 := HandedOut(q, to);
    assert q1.blocks == [q.blocks[0].(nextIndex := to), q.blocks[1]];
    NothingReady(q1);
    NoneLostJoin(DrainedUnits(q), to - f.next, DrainedUnits(q1));
  }

  /** The first packet of the next block, with a gap left further on. */
  lemma GapLater(q: Queue, b: U16, f: Fill, size: nat, size': nat, seqNum: U16, now: nat, duration: nat)
    requires Holds(q, b, f, size) && f.next < 4 && f != EMPTY && !f.marks[f.next] && !Plays(f) && !q.oos
    requires seqNum == NextBase(b) && CanReceive(q)
    ensures var to, r := FirstMissing(f.marks, f.next), Receive(q, Event(Data(seqNum, size'), now), duration);
      && NoneLost(r.units) && to < 4 && !r.queue.oos && Two(r.queue, b, Fill(f.marks, to), size, 0, size')
  {
    var q1 := NoteOutOfSequence(q, seqNum);
    NoteSame(q, b, f, size, seqNum);
    NextData(q1, b, f, size, size', 0, seqNum, now, duration);
    var q2 := Behind(q1, b, size', 0, now);
    BehindIsTwo(q1, b, f, size, size', 0, now);
    TwoHalfPlayed(q2, b, f, size, 0, size');
    assert Pending(q2, now, duration) == (q2, Ready);
    ReadyReceived(q, q1, q2, seqNum, size', now, duration);
  }

  lemma ReadyReceived(q: Queue, q1: Queue, q2: Queue, seqNum: U16, size: nat, now: nat, duration: nat)
    requires CanReceive(q) && q1 == NoteOutOfSequence(q, seqNum) && AllOk(q1.blocks) && Inv(q2)
    requires StoreData(q1, seqNum, size, now, duration) == (q2, Ready)
    ensures var r := Receive(q, Event(Data(seqNum, size), now), duration);
      r.queue == Drained(q2) && r.units == DrainedUnits(q2)
  {
    AddKeeps(q, Data(seqNum, size), now, duration);
  }

  /** The queue with the second packet of the next block in. */
  function BehindMore(q: Queue): Queue
    requires |q.blocks| == 2 && |q.blocks[1].marks| == 6
  {
    q.(blocks := [q.blocks[0], StoreShard(q.blocks[1], 1)])
  }

  lemma SecondCompletes(n: Block, b: U16, size: nat)
    requires HeadIs(n, b, First(0), size)
    ensures BlockOk(StoreShard(n, 1)) && Complete(StoreShard(n, 1)) == StoreShard(n, 1)
  {
    StoreOk(n, 1);
    var m := n.marks;
    assert m == [false, true, true, true, true, true];
    assert m[..4] == [false, true, true, true] && m[4..] == [true, true];
    assert m[..4][1..] == [true, true, true];
    NonePresent(m[4..]); NonePresent(m[..4][1..]);
  }

  lemma SecondIsStuck(q: Queue, b: U16, f: Fill, size: nat, size': nat)
    requires Two(q, b, f, size, 0, size') && f.marks[f.next] && !q.oos
    ensures Stuck(BehindMore(q), b, f, size)
  {
    SecondCompletes(q.blocks[1], NextBase(b), size');
    var q1 := BehindMore(q);
    assert q1.blocks[1].base == q.blocks[1].base;
  }

  lemma SecondFound(q: Queue, b: U16, f: Fill, size: nat, size': nat, now: nat)
    requires Two(q, b, f, size, 0, size')
    ensures GetBlock(q, NextBase(b), size', now) == (q, Some(1))
  {
    assert FindPlace(q.blocks, NextBase(b), 0) == FindPlace(q.blocks, NextBase(b), 1) == 1;
  }

  lemma SecondStored(q: Queue, b: U16, f: Fill, size: nat, size': nat, seqNum: U16, now: nat, duration: nat)
    requires Two(q, b, f, size, 0, size') && seqNum == NextBase(b) + 1
    ensures AllOk(BehindMore(q).blocks)
    ensures StoreData(q, seqNum, size', now, duration) == Pending(BehindMore(q), now, duration)
  {
    NumberInBlock(NextBase(b), 1, seqNum);
    SecondFound(q, b, f, size, size', now);
    SecondCompletes(q.blocks[1], NextBase(b), size');
    var q1 := BehindMore(q);
    assert q1 == SetBlock(q, 1, StoreShard(q.blocks[1], 1));
    assert q1.blocks[1 := q1.blocks[1]] == q1.blocks;
  }

  lemma NoteSameTwo(q: Queue, b: U16, f: Fill, size: nat, x: nat, size': nat, seqNum: U16)
    requires Two(q, b, f, size, x, size') && seqNum == NextBase(b) + 1 && !q.oos
    ensures NoteOutOfSequence(q, seqNum) == q
  {}

  /** The second packet of the next block. */
  lemma SecondLoses(q: Queue, b: U16, f: Fill, size: nat, size': nat, seqNum: U16, now: nat, duration: nat)
    requires Two(q, b, f, size, 0, size') && f.marks[f.next] && !q.oos && CanReceive(q) && seqNum == NextBase(b) + 1
    ensures !NoneLost(Receive(q, Event(Data(seqNum, size'), now), duration).units)
  {
    NoteSameTwo(q, b, f, size, 0, size', seqNum);
    SecondStored(q, b, f, size, size', seqNum, now, duration);
    SecondIsStuck(q, b, f, size, size');
    PendingLoses(BehindMore(q), b, f, size, Data(seqNum, size'), now, duration);
    DataLoses(q, q, seqNum, size', Pending(BehindMore(q), now, duration), now, duration);
  }

  /** What two packets lead to, one after the other. */
  ghost predicate TwoMorePlayed(q: Queue, first: Event, second: Event, duration: nat)
    requires CanReceive(q)
  {
    var r := Receive(q, first, duration);
    NoneLost(r.units) && CanReceive(r.queue) && NoneLost(Receive(r.queue, second, duration).units)
  }

  /** The event is packet x of the block. */
  predicate IsPacket(e: Event, b: U16, x: nat, size: nat) {
    e.arrival.Data? && IsShard(e.arrival, b, x, size)
  }

  /** While late data has not been seen, the next block is begun without a stand-in for a packet of this one
      exactly if all packets of this one can be played. */
  lemma TurnExact(q: Queue, b: U16, f: Fill, size: nat, size': nat, first: Event, second: Event, duration: nat)
    requires Holds(q, b, f, size) && f != EMPTY && (f.next == 4 || !q.oos)
    requires IsPacket(first, NextBase(b), 0, size') && IsPacket(second, NextBase(b), 1, size')
    ensures CanReceive(q) && (TwoMorePlayed(q, first, second, duration) <==> Plays(f))
  {
    CanReceiveHere(q, b, f, size);
    if Plays(f) {
      PlaysOn(q, b, f, size, size', first, second, duration);
    } else if f.marks[f.next] {
      NextMissing(q, b, f, size, size', first.arrival.seqNum, first.now, duration);
    } else {
      LosesLater(q, b, f, size, size', first, second, duration);
    }
  }

  lemma PlaysOn(q: Queue, b: U16, f: Fill, size: nat, size': nat, first: Event, second: Event, duration: nat)
    requires Holds(q, b, f, size) && f != EMPTY && Plays(f) && CanReceive(q)
    requires IsPacket(first, NextBase(b), 0, size') && IsPacket(second, NextBase(b), 1, size')
    ensures TwoMorePlayed(q, first, second, duration)
  {
    NextShard(q, b, f, size, size', 0, first.arrival, first.now, duration);
    OwnShard(Receive(q, first, duration).queue, NextBase(b), Take(EMPTY, 0), size', 1, second.arrival, second.now,
             duration);
  }

  lemma LosesLater(q: Queue, b: U16, f: Fill, size: nat, size': nat, first: Event, second: Event, duration: nat)
    requires Holds(q, b, f, size) && f.next < 4 && f != EMPTY && !f.marks[f.next] && !Plays(f)
    requires !q.oos && CanReceive(q)
    requires IsPacket(first, NextBase(b), 0, size') && IsPacket(second, NextBase(b), 1, size')
    ensures !TwoMorePlayed(q, first, second, duration)
  {
    GapLater(q, b, f, size, size', first.arrival.seqNum, first.now, duration);
    var r := Receive(q, first, duration);
    if CanReceive(r.queue) {
      SecondLoses(r.queue, b, Fill(f.marks, FirstMissing(f.marks, f.next)), size, size', second.arrival.seqNum,
                  second.now, duration);
    }
  }

  // ----- a block from its first shard to the next block

  lemma {:induction false} DrainOos(q: Queue)
    requires Inv(q)
    ensures Drained(q).oos == q.oos
    decreases Remaining(q)
  {
    GetKeeps(q);
    if GetQueued(q).1.Some? { DrainOos(GetQueued(q).0); }
  }

  lemma GetBlockOos(q: Queue, base: U16, size: nat, now: nat)
    ensures GetBlock(q, base, size, now).0.oos == q.oos
  {}

  lemma SettleOos(q: Queue, k: nat, now: nat, duration: nat)
    requires k < |q.blocks| && AllOk(q.blocks) && !q.blocks[k].reassembled
    ensures Settle(q, k, now, duration).0.oos == q.oos
  {}

  lemma PlaceDataOos(q: Queue, k: nat, seqNum: U16, now: nat, duration: nat)
    requires AllOk(q.blocks) && k < |q.blocks| && !q.blocks[k].reassembled
    ensures PlaceData(q, k, seqNum, now, duration).0.oos == q.oos
  {
    if q.blocks[k].marks[seqNum % 4] {
      StoreOk(q.blocks[k], seqNum % 4);
      var q' := SetBlock(q, k, StoreShard(q.blocks[k], seqNum % 4));
      if seqNum != q'.next { SettleOos(q', k, now, duration); }
    }
  }

  lemma PlaceFecOos(q: Queue, k: nat, shard: nat, now: nat, duration: nat)
    requires AllOk(q.blocks) && k < |q.blocks| && !q.blocks[k].reassembled && shard < FEC_SHARDS
    ensures PlaceFec(q, k, shard, now, duration).0.oos == q.oos
  {
    if q.blocks[k].marks[4 + shard] {
      StoreOk(q.blocks[k], 4 + shard);
      SettleOos(SetBlock(q, k, StoreShard(q.blocks[k], 4 + shard)), k, now, duration);
    }
  }

  lemma StoreDataOos(q: Queue, seqNum: U16, size: nat, now: nat, duration: nat)
    requires AllOk(q.blocks)
    ensures StoreData(q, seqNum, size, now, duration).0.oos == q.oos
  {
    GetBlockOos(q, BaseOf(seqNum), size, now);
    BlocksOk(q, BaseOf(seqNum), size, now);
    var (q1, place) := GetBlock(q, BaseOf(seqNum), size, now);
    if place.Some? { PlaceDataOos(q1, place.value, seqNum, now, duration); }
  }

  lemma AddFecOos(q: Queue, base: U16, shard: nat, size: nat, now: nat, duration: nat)
    requires AllOk(q.blocks)
    ensures AddFec(q, base, shard, size, now, duration).0.oos == q.oos
  {
    if shard < FEC_SHARDS && base % 4 == 0 {
      GetBlockOos(q, base, size, now);
      BlocksOk(q, base, size, now);
      var (q1, place) := GetBlock(q, base, size, now);
      if place.Some? { PlaceFecOos(q1, place.value, shard, now, duration); }
    }
  }

  /** A shard of the block that is waited for is no late data. */
  lemma OwnShardOos(q: Queue, b: U16, f: Fill, size: nat, x: nat, e: Event, duration: nat)
    requires Holds(q, b, f, size) && f.next < 4 && x < 6 && IsShard(e.arrival, b, x, size) && CanReceive(q) && !q.oos
    ensures !Receive(q, e, duration).queue.oos
  {
    AddKeeps(q, e.arrival, e.now, duration);
    var q' := Add(q, e.arrival, e.now, duration).0;
    if x < 4 {
      NumberInBlock(b, x, e.arrival.seqNum);
      var q1 := NoteOutOfSequence(q, e.arrival.seqNum);
      assert !q1.oos;
      StoreDataOos(q1, e.arrival.seqNum, size, e.now, duration);
    } else {
      AddFecOos(q, b, x - 4, size, e.now, duration);
    }
    assert !q'.oos;
    DrainOos(q');
  }

  /** All of them are numbers of shards. */
  predicate Shards(xs: seq<nat>) { forall i :: 0 <= i < |xs| ==> xs[i] < 6 }

  /** The same, from the first shard on. */
  function TakenFrom(f: Fill, xs: seq<nat>): (r: Fill)
    requires FillOk(f) && Shards(xs)
    ensures FillOk(r)
    decreases |xs|
  {
    if xs == [] then f else TakenFrom(Take(f, xs[0]), xs[1..])
  }

  lemma {:induction false} TakenFromSnoc(f: Fill, xs: seq<nat>, x: nat)
    requires FillOk(f) && Shards(xs) && x < 6
    ensures Shards(xs + [x]) && TakenFrom(f, xs + [x]) == Take(TakenFrom(f, xs), x)
    decreases |xs|
  {
    if xs == [] {
      assert [x][1..] == [];
    } else {
      TakenFromSnoc(Take(f, xs[0]), xs[1..], x);
      assert (xs + [x])[1..] == xs[1..] + [x];
    }
  }

  lemma {:induction false} TakenBothWays(xs: seq<nat>)
    requires Shards(xs)
    ensures TakenFrom(EMPTY, xs) == Taken(xs)
    decreases |xs|
  {
    if xs != [] {
      TakenBothWays(xs[..|xs| - 1]);
      TakenFromSnoc(EMPTY, xs[..|xs| - 1], xs[|xs| - 1]);
      assert xs[..|xs| - 1] + [xs[|xs| - 1]] == xs;
    }
  }

  /** The events are these shards of the block. */
  predicate AreShards(events: seq<Event>, b: U16, xs: seq<nat>, size: nat) {
    |events| == |xs| && Shards(xs) && forall i :: 0 <= i < |xs| ==> IsShard(events[i].arrival, b, xs[i], size)
  }

  lemma AreShardsRest(events: seq<Event>, b: U16, xs: seq<nat>, size: nat)
    requires AreShards(events, b, xs, size) && xs != []
    ensures xs[0] < 6 && IsShard(events[0].arrival, b, xs[0], size) && AreShards(events[1..], b, xs[1..], size)
  {}

  lemma AfterFirst(step: (Queue, Event) --> Receipt, q: Queue, events: seq<Event>)
    requires events != [] && CanReceive(q) && step.requires(q, events[0])
    requires RunOk(step, step(q, events[0]).queue, events[1..])
    ensures RunOk(step, q, events)
    ensures After(step, q, events) == After(step, step(q, events[0]).queue, events[1..])
  {}

  /** Where one shard leads, and that it is not late while it is needed. */
  lemma ShardComes(q: Queue, b: U16, f: Fill, size: nat, x: nat, e: Event, duration: nat)
    requires Holds(q, b, f, size) && x < 6 && IsShard(e.arrival, b, x, size) && (f.next == 4 || !q.oos)
    ensures CanReceive(q)
    ensures var q', f' := Receive(q, e, duration).queue, Take(f, x);
      Holds(q', b, f', size) && (f'.next == 4 || !q'.oos)
  {
    AnyOwnShard(q, b, f, size, x, e.arrival, e.now, duration);
    if f.next < 4 { OwnShardOos(q, b, f, size, x, e, duration); }
  }

  lemma {:induction false} ShardsCome(q: Queue, b: U16, f: Fill, size: nat, xs: seq<nat>, events: seq<Event>,
                                      duration: nat)
    requires Holds(q, b, f, size) && AreShards(events, b, xs, size) && (f.next == 4 || !q.oos)
    ensures RunOk(Receiving(duration), q, events)
    ensures var q', f' := After(Receiving(duration), q, events), TakenFrom(f, xs);
      Holds(q', b, f', size) && (f'.next == 4 || !q'.oos)
    decreases |xs|
  {
    if xs != [] {
      AreShardsRest(events, b, xs, size);
      ShardComes(q, b, f, size, xs[0], events[0], duration);
      ReceivingIs(q, events[0], duration);
      var q1 := Receive(q, events[0], duration).queue;
      ShardsCome(q1, b, Take(f, xs[0]), size, xs[1..], events[1..], duration);
      AfterFirst(Receiving(duration), q, events);
    }
  }

  lemma TakenIsSome(xs: seq<nat>)
    requires Shards(xs) && xs != []
    ensures Taken(xs) != EMPTY
  {
    TakenIs(xs);
    assert EMPTY.marks[xs[0]];
    assert xs[0] in xs;
  }

  /** A block of which the shards xs come, in that order and before anything of the next block, is played without
      a stand-in exactly if all its packets have come, or one of the shards makes four and is not the next
      packet itself. */
  lemma BlockExact(q: Queue, b: U16, size: nat, size': nat, xs: seq<nat>, events: seq<Event>, first: Event,
                   second: Event, duration: nat)
    requires Holds(q, b, EMPTY, size) && !q.oos && AreShards(events, b, xs, size) && xs != []
    requires IsPacket(first, NextBase(b), 0, size') && IsPacket(second, NextBase(b), 1, size')
    ensures RunOk(Receiving(duration), q, events)
    ensures var q' := After(Receiving(duration), q, events);
      && CanReceive(q')
      && (TwoMorePlayed(q', first, second, duration) <==> AllDataCome(xs) || SomeCompletes(xs))
  {
    ShardsCome(q, b, EMPTY, size, xs, events, duration);
    TakenBothWays(xs);
    TakenIsSome(xs);
    PlaysExact(xs);
    TurnExact(After(Receiving(duration), q, events), b, Taken(xs), size, size', first, second, duration);
  }

  /** The first packet, both parity shards, and then the second packet. */
  const UNLUCKY: seq<nat> := [0, 4, 5, 1]

  lemma TakenSnoc(xs: seq<nat>, x: nat)
    requires Shards(xs) && x < 6
    ensures Shards(xs + [x]) && Taken(xs + [x]) == Take(Taken(xs), x)
    ensures SomeCompletes(xs + [x]) == (SomeCompletes(xs) || Completes(Taken(xs), x))
  {
    assert (xs + [x])[..|xs + [x]| - 1] == xs;
  }

  lemma CountMarks(m: seq<bool>)
    requires |m| == 6
    ensures Have(m) == (if m[0] then 0 else 1) + (if m[1] then 0 else 1) + (if m[2] then 0 else 1)
                       + (if m[3] then 0 else 1) + (if m[4] then 0 else 1) + (if m[5] then 0 else 1)
  {
    var d, p := m[..4], m[4..];
    assert Present(d) == (if m[0] then 0 else 1) + Present(d[1..]);
    assert Present(d[1..]) == (if m[1] then 0 else 1) + Present(d[1..][1..]);
    assert Present(d[1..][1..]) == (if m[2] then 0 else 1) + Present(d[1..][1..][1..]);
    assert d[1..][1..][1..] == [m[3]] && [m[3]][1..] == [];
    assert Present(p) == (if m[4] then 0 else 1) + Present(p[1..]);
    assert p[1..] == [m[5]] && [m[5]][1..] == [];
  }

  lemma UnluckyOne()
    ensures Taken([0]) == Fill([false, true, true, true, true, true], 1) && !SomeCompletes([0])
  {
    TakenSnoc([], 0);
    assert [] + [0] == [0] && EMPTY.marks[0 := false] == [false, true, true, true, true, true];
  }

  lemma UnluckyTwo()
    ensures Taken([0, 4]) == Fill([false, true, true, true, false, true], 1) && !SomeCompletes([0, 4])
  {
    var m := [false, true, true, true, false, true];
    UnluckyOne();
    TakenSnoc([0], 4);
    assert [0] + [4] == [0, 4] && [false, true, true, true, true, true][4 := false] == m;
    CountMarks(m);
  }

  lemma UnluckyThree()
    ensures Taken([0, 4, 5]) == Fill([false, true, true, true, false, false], 1) && !SomeCompletes([0, 4, 5])
  {
    var m := [false, true, true, true, false, false];
    UnluckyTwo();
    TakenSnoc([0, 4], 5);
    assert [0, 4] + [5] == [0, 4, 5] && [false, true, true, true, false, true][5 := false] == m;
    CountMarks(m);
  }

  lemma UnluckyTaken()
    ensures Shards(UNLUCKY) && !SomeCompletes(UNLUCKY) && !AllDataCome(UNLUCKY)
  {
    UnluckyThree();
    TakenSnoc([0, 4, 5], 1);
    assert [0, 4, 5] + [1] == UNLUCKY;
    assert 2 !in UNLUCKY;
  }

  /** Four of the six shards do not suffice, if the fourth is the next packet: a stand-in is played for a packet
      that could have been recovered. */
  lemma FourNotPlayed(q: Queue, b: U16, size: nat, size': nat, events: seq<Event>, first: Event, second: Event,
                      duration: nat)
    requires Holds(q, b, EMPTY, size) && !q.oos && AreShards(events, b, UNLUCKY, size)
    requires IsPacket(first, NextBase(b), 0, size') && IsPacket(second, NextBase(b), 1, size')
    ensures RunOk(Receiving(duration), q, events)
    ensures var q' := After(Receiving(duration), q, events);
      CanReceive(q') && !TwoMorePlayed(q', first, second, duration)
  {
    UnluckyTaken();
    BlockExact(q, b, size, size', UNLUCKY, events, first, second, duration);
  }

  /** The first packet of a stream fixes its start behind its block. */
  lemma StreamStarts(seqNum: U16, size: nat, size': nat, now: nat, duration: nat)
    requires NextBase(BaseOf(seqNum)) != 0
    ensures CanReceive(InitialQueue(false))
    ensures var r := Receive(InitialQueue(false), Event(Data(seqNum, size), now), duration);
      r.units == [] && !r.queue.oos && Holds(r.queue, NextBase(BaseOf(seqNum)), EMPTY, size')
  {
    InitialInv(false);
    AddKeeps(InitialQueue(false), Data(seqNum, size), now, duration);
  }
}
