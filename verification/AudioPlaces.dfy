/** Where the audio queue stands in the unbounded stream that its wrapping numbers stand for: every waiting block,
    and every unit handed out, lies within half a circle above the oldest number. */
module AudioPlaces {
  import opened Wrappers
  import opened SequenceNumbers
  import opened AudioControl

  /** All blocks lie within half a circle above the number. */
  predicate Within(blocks: seq<Block>, oldest: U16) {
    forall i :: 0 <= i < |blocks| ==> Ahead(oldest, blocks[i].base) < 0x8000
  }

  lemma InvWithin(q: Queue)
    requires Inv(q)
    ensures Within(q.blocks, q.oldest)
  {}

  lemma WithinUpdated(blocks: seq<Block>, oldest: U16, k: nat, b: Block)
    requires Within(blocks, oldest) && k < |blocks| && b.base == blocks[k].base
    ensures Within(blocks[k := b], oldest)
  {}

  lemma WithinInserted(blocks: seq<Block>, oldest: U16, k: nat, b: Block)
    requires Within(blocks, oldest) && k <= |blocks| && Ahead(oldest, b.base) < 0x8000
    ensures Within(blocks[..k] + [b] + blocks[k..], oldest)
  {}

  lemma GetBlockWithin(q: Queue, base: U16, size: nat, now: nat)
    requires Within(q.blocks, q.oldest)
    ensures Within(GetBlock(q, base, size, now).0.blocks, q.oldest)
  {
    if !IsBefore16(base, q.oldest) {
      WithinInserted(q.blocks, q.oldest, FindPlace(q.blocks, base, 0), NewBlock(base, size, now));
    }
  }

  lemma SettleWithin(q: Queue, oldest: U16, k: nat, now: nat, duration: nat)
    requires k < |q.blocks| && AllOk(q.blocks) && !q.blocks[k].reassembled && Within(q.blocks, oldest)
    ensures Within(Settle(q, k, now, duration).0.blocks, oldest)
  {
    CompleteOk(q.blocks[k]);
    var q1 := SetBlock(q, k, Complete(q.blocks[k]));
    WithinUpdated(q.blocks, oldest, k, Complete(q.blocks[k]));
    HandleMissingWithin(q1, oldest, now, duration);
  }

  lemma HandleMissingWithin(q: Queue, oldest: U16, now: nat, duration: nat)
    requires Within(q.blocks, oldest)
    ensures Within(HandleMissing(q, now, duration).blocks, oldest)
  {
    if q.blocks != [] {
      var h := q.blocks[0].(discontinuity := true);
      assert [h] + q.blocks[1..] == q.blocks[0 := h];
      WithinUpdated(q.blocks, oldest, 0, h);
    }
  }

  lemma HandOutWithin(q: Queue, oldest: U16, k: nat, seqNum: U16)
    requires k < |q.blocks| && Within(q.blocks, oldest)
    ensures Within(HandOut(q, k, seqNum).blocks, oldest)
  {
    var b := q.blocks[k];
    WithinUpdated(q.blocks, oldest, k, b.(nextIndex := b.nextIndex + 1));
  }

  lemma PlaceDataWithin(q: Queue, oldest: U16, k: nat, seqNum: U16, now: nat, duration: nat)
    requires AllOk(q.blocks) && k < |q.blocks| && !q.blocks[k].reassembled && Within(q.blocks, oldest)
    ensures Within(PlaceData(q, k, seqNum, now, duration).0.blocks, oldest)
  {
    if q.blocks[k].marks[seqNum % 4] {
      StoreOk(q.blocks[k], seqNum % 4);
      var q' := SetBlock(q, k, StoreShard(q.blocks[k], seqNum % 4));
      WithinUpdated(q.blocks, oldest, k, StoreShard(q.blocks[k], seqNum % 4));
      if seqNum == q'.next {
        HandOutWithin(q', oldest, k, seqNum);
      } else {
        SettleWithin(q', oldest, k, now, duration);
      }
    }
  }

  lemma PlaceFecWithin(q: Queue, oldest: U16, k: nat, shard: nat, now: nat, duration: nat)
    requires AllOk(q.blocks) && k < |q.blocks| && !q.blocks[k].reassembled && shard < FEC_SHARDS
    requires Within(q.blocks, oldest)
    ensures Within(PlaceFec(q, k, shard, now, duration).0.blocks, oldest)
  {
    if q.blocks[k].marks[4 + shard] {
      StoreOk(q.blocks[k], 4 + shard);
      WithinUpdated(q.blocks, oldest, k, StoreShard(q.blocks[k], 4 + shard));
      SettleWithin(SetBlock(q, k, StoreShard(q.blocks[k], 4 + shard)), oldest, k, now, duration);
    }
  }

  lemma StoreDataWithin(q: Queue, seqNum: U16, size: nat, now: nat, duration: nat)
    requires AllOk(q.blocks) && Within(q.blocks, q.oldest)
    ensures Within(StoreData(q, seqNum, size, now, duration).0.blocks, q.oldest)
  {
    GetBlockWithin(q, BaseOf(seqNum), size, now);
    BlocksOk(q, BaseOf(seqNum), size, now);
    var (q1, place) := GetBlock(q, BaseOf(seqNum), size, now);
    if place.Some? { PlaceDataWithin(q1, q.oldest, place.value, seqNum, now, duration); }
  }

  lemma AddFecWithin(q: Queue, base: U16, shard: nat, size: nat, now: nat, duration: nat)
    requires AllOk(q.blocks) && Within(q.blocks, q.oldest)
    ensures Within(AddFec(q, base, shard, size, now, duration).0.blocks, q.oldest)
  {
    if shard < FEC_SHARDS && base % 4 == 0 {
      GetBlockWithin(q, base, size, now);
      BlocksOk(q, base, size, now);
      var (q1, place) := GetBlock(q, base, size, now);
      if place.Some? { PlaceFecWithin(q1, q.oldest, place.value, shard, now, duration); }
    }
  }

  /** A packet only adds a block within half a circle. */
  lemma AddWithin(q: Queue, a: Arrival, now: nat, duration: nat)
    requires CanReceive(q)
    ensures Within(Add(q, a, now, duration).0.blocks, q.oldest)
  {
    InvWithin(q);
    match a
    case Data(seqNum, size) => StoreDataWithin(NoteOutOfSequence(q, seqNum), seqNum, size, now, duration);
    case Fec(base, shard, size) => AddFecWithin(q, base, shard, size, now, duration);
    case Invalid(_) =>
  }

  // ----- handing out

  /** The units carry the numbers from next on, all of them within half a circle. */
  ghost predicate Close(units: seq<Unit>, oldest: U16, from: int) {
    forall i :: 0 <= i < |units| ==> Ahead(oldest, units[i].seqNum) == from + i < 0x8000
  }

  lemma OneFurther(oldest: U16, x: U16)
    requires Ahead(oldest, x) < 0x8000
    ensures Ahead(oldest, Wrap16(x + 1)) == Ahead(oldest, x) + 1
  {}

  /** The next packet of a block within half a circle is, too. */
  lemma NextIsClose(oldest: U16, base: U16, x: U16)
    requires oldest % 4 == 0 && base % 4 == 0 && Ahead(oldest, base) < 0x8000 && Ahead(base, x) < 4
    ensures Ahead(oldest, x) == Ahead(oldest, base) + Ahead(base, x) < 0x8000
  {}

  lemma StepHeadWithin(q: Queue, oldest: U16)
    requires q.blocks != [] && Within(q.blocks, oldest)
    ensures Within(StepHead(q).blocks, oldest) && StepHead(q).next == Wrap16(q.next + 1)
  {
    var h := q.blocks[0];
    WithinUpdated(q.blocks, oldest, 0, h.(nextIndex := h.nextIndex + 1));
  }

  /** One unit taken out. */
  lemma GetWithin(q: Queue, oldest: U16)
    requires Inv(q) && Within(q.blocks, oldest) && oldest % 4 == 0 && GetQueued(q).1.Some?
    ensures Inv(GetQueued(q).0) && Within(GetQueued(q).0.blocks, oldest)
    ensures GetQueued(q).1.value.seqNum == q.next && Ahead(oldest, q.next) < 0x8000
    ensures Ahead(oldest, GetQueued(q).0.next) == Ahead(oldest, q.next) + 1
  {
    GetKeeps(q);
    OldestOfNext(q.oldest, q.next);
    StepHeadWithin(q, oldest);
    NextIsClose(oldest, q.blocks[0].base, q.next);
    OneFurther(oldest, q.next);
  }

  lemma CloseMore(u: Unit, units: seq<Unit>, oldest: U16, from: int)
    requires Ahead(oldest, u.seqNum) == from < 0x8000 && Close(units, oldest, from + 1)
    ensures Close([u] + units, oldest, from)
  {}

  lemma {:induction false} DrainWithin(q: Queue, oldest: U16)
    requires Inv(q) && Within(q.blocks, oldest) && oldest % 4 == 0
    ensures Inv(Drained(q)) && Within(Drained(q).blocks, oldest)
    ensures Close(DrainedUnits(q), oldest, Ahead(oldest, q.next))
    ensures Ahead(oldest, Drained(q).next) == Ahead(oldest, q.next) + |DrainedUnits(q)|
    decreases Remaining(q)
  {
    GetKeeps(q);
    if GetQueued(q).1.Some? {
      GetWithin(q, oldest);
      DrainWithin(GetQueued(q).0, oldest);
      CloseMore(GetQueued(q).1.value, DrainedUnits(GetQueued(q).0), oldest, Ahead(oldest, q.next));
    }
  }

  // ----- one packet

  /** Everything that a packet leads to lies within half a circle above the oldest number before it; the next
      number moves on by the jump and the units. */
  ghost predicate Near(q: Queue, r: Receipt) {
    && Within(r.queue.blocks, q.oldest)
    && Close(r.units, q.oldest, Ahead(q.oldest, q.next) + r.jump)
    && Ahead(q.oldest, r.queue.next) == Ahead(q.oldest, q.next) + r.jump + |r.units| <= 0x8003
  }

  lemma JumpIsNear(oldest: U16, next: U16, q': Queue)
    requires Ahead(oldest, next) < 4 && StaysOrJumps(next, q')
    ensures Ahead(oldest, q'.next) == Ahead(oldest, next) + Wrap16(q'.next - next) <= 0x8002
  {}

  lemma ReceiptNear(q: Queue, a: Arrival, q': Queue, v: Verdict)
    requires Inv(q) && AddEffect(q.next, true, a, q', v) && Within(q'.blocks, q.oldest)
    ensures Near(q, ReceiptOf(q.next, a, q', v))
  {
    DrainWithin(q', q.oldest);
    if v == HandleNow {
      OneFurther(q.oldest, q.next);
    } else {
      JumpIsNear(q.oldest, q.next, q');
      UnitsBound(DrainedUnits(q'), q.oldest, Ahead(q.oldest, q'.next));
    }
  }

  lemma UnitsBound(units: seq<Unit>, oldest: U16, from: int)
    requires Close(units, oldest, from) && from <= 0x8002
    ensures from + |units| <= 0x8002
  {
    if units != [] { assert Ahead(oldest, units[|units| - 1].seqNum) == from + |units| - 1; }
  }

  lemma ReceiveNear(q: Queue, e: Event, duration: nat)
    requires CanReceive(q) && !Unsynchronized(q)
    ensures Near(q, Receive(q, e, duration))
  {
    AddKeeps(q, e.arrival, e.now, duration);
    AddWithin(q, e.arrival, e.now, duration);
    var (q', v) := Add(q, e.arrival, e.now, duration);
    ReceiptNear(q, e.arrival, q', v);
  }

  /** Before the start of the stream is fixed nothing is stored or handed out. */
  lemma ReceiveUnsynchronized(q: Queue, e: Event, duration: nat)
    requires CanReceive(q) && Unsynchronized(q)
    ensures var r := Receive(q, e, duration); r.units == [] && r.queue.blocks == []
  {
    AddKeeps(q, e.arrival, e.now, duration);
    assert q.blocks == [];
  }

  // ----- positions

  /** The position of the oldest number, with the next one at the position. */
  function Origin(position: nat): nat { position - position % 4 }

  /** The queue stands at the position. */
  predicate StandsAt(q: Queue, position: nat) { q.next == NumberAt(position) }

  lemma NextIndexIs(oldest: U16, next: U16)
    requires oldest % 4 == 0 && Ahead(oldest, next) < 4
    ensures Ahead(oldest, next) == next % 4 && oldest == next - next % 4
  {}

  lemma WrapKeepsIndex(position: nat)
    ensures Wrap16(position) % 4 == position % 4
    ensures Wrap16(position - position % 4) == Wrap16(position) - position % 4
  {
    Wrap16IsModulo(position);
    Wrap16IsModulo(position - position % 4);
    var k := position / 0x1_0000;
    assert position == 0x1_0000 * k + position % 0x1_0000;
  }

  lemma OriginIs(q: Queue, position: nat)
    requires Inv(q) && StandsAt(q, position)
    ensures Ahead(q.oldest, q.next) == position % 4 && q.oldest == NumberAt(Origin(position))
  {
    NumberAtWraps(position);
    NumberAtWraps(Origin(position));
    NextIndexIs(q.oldest, q.next);
    WrapKeepsIndex(position);
  }

  /** The waiting blocks stay at their positions. */
  lemma BlocksStay(q: Queue, r: Receipt, position: nat, position': nat, i: nat)
    requires Inv(q) && Inv(r.queue) && StandsAt(q, position) && i < |r.queue.blocks| && Near(q, r)
    requires StandsAt(r.queue, position') && position' == position + r.jump + |r.units|
    ensures StaysAt(q.oldest, Origin(position), r.queue.oldest, Origin(position'), r.queue.blocks[i].base)
  {
    OriginIs(q, position);
    OriginIs(r.queue, position');
    InvWithin(r.queue);
    OriginsNear(position, position');
    StayInPlace(q.oldest, Origin(position), r.queue.oldest, Origin(position'), r.queue.blocks[i].base);
  }

  /** A block within half a circle above both oldest numbers has one position. */
  predicate StaysAt(oldest: U16, origin: nat, oldest': U16, origin': nat, base: U16) {
    Ahead(oldest, base) < 0x8000 && Ahead(oldest', base) < 0x8000 &&
      origin + Ahead(oldest, base) == origin' + Ahead(oldest', base)
  }

  lemma StayInPlace(oldest: U16, origin: nat, oldest': U16, origin': nat, base: U16)
    requires oldest == NumberAt(origin) && oldest' == NumberAt(origin')
    requires Ahead(oldest, base) < 0x8000 && Ahead(oldest', base) < 0x8000
    requires origin <= origin' <= origin + 0x8003 && origin % 4 == 0 && origin' % 4 == 0
    ensures StaysAt(oldest, origin, oldest', origin', base)
  {
    NumberAtWraps(origin);
    NumberAtWraps(origin');
    SameDistance(oldest, origin, oldest', origin', base);
  }

  lemma OriginsNear(position: nat, position': nat)
    requires position <= position' && position % 4 + position' - position <= 0x8003
    ensures Origin(position) <= Origin(position') <= Origin(position) + 0x8003
    ensures Origin(position) % 4 == 0 && Origin(position') % 4 == 0
  {}

  lemma SameDistance(oldest: U16, origin: nat, oldest': U16, origin': nat, base: U16)
    requires oldest == Wrap16(origin) && oldest' == Wrap16(origin')
    requires origin <= origin' <= origin + 0x8003 && origin % 4 == 0 && origin' % 4 == 0
    requires Ahead(oldest, base) < 0x8000 && Ahead(oldest', base) < 0x8000
    ensures StaysAt(oldest, origin, oldest', origin', base)
  {}
}
