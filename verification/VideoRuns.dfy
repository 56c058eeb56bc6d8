/** What the video queue passes on: every frame of an honest sender of whose blocks enough packets come in
    turn. */
module VideoRuns {
  import opened ReedSolomon
  import opened SequenceNumbers
  import opened VideoWindow
  import opened VideoRecovery
  import opened VideoCompletion
  import opened VideoQueue
  import opened VideoDelivery

  // ----- the numbers that have come

  ghost function Numbers(pending: seq<Entry>): set<U16> {
    set i | 0 <= i < |pending| :: pending[i].packet.seqNum
  }

  lemma NumbersOneMore(pending: seq<Entry>, e: Entry)
    ensures Numbers(pending + [e]) == Numbers(pending) + {e.packet.seqNum}
  {
    forall x | x in Numbers(pending) + {e.packet.seqNum}
      ensures x in Numbers(pending + [e])
    {
      if x == e.packet.seqNum {
        assert (pending + [e])[|pending|] == e;
      } else {
        var i :| 0 <= i < |pending| && pending[i].packet.seqNum == x;
        assert (pending + [e])[i].packet.seqNum == x;
      }
    }
  }

  lemma {:induction false} NumbersSize(pending: seq<Entry>)
    requires DistinctNumbers(pending)
    ensures |Numbers(pending)| == |pending|
  {
    if pending != [] {
      var front, e := pending[..|pending| - 1], pending[|pending| - 1];
      NumbersSize(front);
      NumbersOneMore(front, e);
      assert front + [e] == pending;
    }
  }

  lemma NumbersDuplicate(pending: seq<Entry>, seqNum: U16)
    ensures seqNum in Numbers(pending) <==> Duplicate(pending, seqNum)
  {}

  /** A packet of the block that has not come yet is accepted, wherever it belongs. */
  lemma NewIsAccepted(w: Window, seqNum: U16)
    requires WindowInv(w) && Offset(w.low, seqNum) < w.data + w.parity && !Duplicate(w.pending, seqNum)
    ensures Accepts(w, seqNum) && !IsBefore16(seqNum, w.next)
  {
    WindowExact(w, seqNum);
    var o := Offset(w.low, seqNum);
    if o < Offset(w.low, w.next) {
      assert OffsetOf(w.low, w.pending[o]) == o;
      DistanceInjective(w.low, w.pending[o].packet.seqNum, seqNum);
    }
  }

  // ----- where the queue stands

  /** All numbers of the block lie ahead of the number. */
  predicate Ahead(next: U16, s: Sent) {
    Wrap16(s.low - next) + s.data + s.parity <= 0x8000
  }

  lemma AheadIsNotBefore(next: U16, s: Sent, seqNum: U16)
    requires Ahead(next, s) && Offset(s.low, seqNum) < s.data + s.parity
    ensures !IsBefore16(seqNum, next)
  {}

  /** As far as a block is concerned: its window, the current frame and block, and the frames passed on. */
  datatype Place = Place(w: Window, frame: U32, block: nat, frames: seq<Frame>)

  ghost function PlaceOf(q: RtpVideoQueue): Place
    reads q
  {
    Place(q.Win(), q.currentFrame, q.curBlock, q.frames)
  }

  /** Nothing has been received of the block, and the next packet of it begins it. */
  predicate Open(at: Place, frame: U32, block: nat, s: Sent) {
    && Ahead(at.w.next, s)
    && if at.frame == frame then at.w.pending == [] && at.block == block else at.frame < frame && block == 0
  }

  /** The packets with the numbers in seen have come of the block, and they are not enough. */
  ghost predicate InBlock(at: Place, frame: U32, block: nat, s: Sent, seen: set<U16>) {
    if seen == {} then Open(at, frame, block, s)
    else at.frame == frame && at.block == block && Numbers(at.w.pending) == seen && |at.w.pending| < s.data
  }

  /** The block has been completed, and after the last one the frame passed on; before is what had been passed
      on before. */
  ghost predicate Past(at: Place, frame: U32, block: nat, s: Sent, before: seq<Frame>) {
    && at.w.pending == [] && Offset(s.low, at.w.next) <= s.data + s.parity
    && if block < s.last then at.frame == frame && at.block == block + 1 && at.frames == before
       else at.frame == Wrap32(frame + 1) && at.block == 0 && OneMore(at.frames, before, frame)
  }

  ghost predicate OneMore(frames: seq<Frame>, before: seq<Frame>, frame: U32) {
    |frames| == |before| + 1 && frames[..|before|] == before && frames[|before|].number == frame
  }

  /** The packet is one of the block, with its header. */
  ghost predicate OfThis(p: Packet, frame: U32, block: nat, s: Sent) {
    && p.frame == frame && BlockNumber(p.blocks) == block && Offset(s.low, p.seqNum) < s.data + s.parity
    && |p.bytes| >= DataOffset(p.header) + NV_HEADER_SIZE
  }

  /** The packet is of a block or frame that is over; current is the frame the run started with. */
  predicate Late(p: Packet, frame: U32, block: nat, current: U32) {
    (p.frame == frame && BlockNumber(p.blocks) < block) || frame - 0x7FFE <= p.frame < current
  }

  // ----- one packet of the block

  /** What is known of the queue and the packet before it is looked at. */
  ghost predicate Facing(q: RtpVideoQueue, incoming: Incoming, sender: Sender, frame: U32, block: nat, seen: set<U16>)
    reads q
  {
    && Steady(q, sender) && (frame, block) in sender && InBlock(PlaceOf(q), frame, block, sender[(frame, block)], seen)
    && OfThis(q.Fixed(incoming.packet), frame, block, sender[(frame, block)])
    && HonestArrival(q.Fixed(incoming.packet), incoming.fecInfo, sender, q.ReceiveSize())
    && -0x8000 < frame - q.currentFrame < 0x8000
  }

  /** A packet that has not come yet is taken in. */
  lemma NewIsTaken(q: RtpVideoQueue, incoming: Incoming, sender: Sender, frame: U32, block: nat, seen: set<U16>)
    requires Facing(q, incoming, sender, frame, block, seen) && q.Fixed(incoming.packet).seqNum !in seen
    ensures var p, s := q.Fixed(incoming.packet), sender[(frame, block)];
      && q.Eligible(p) && q.Considers(p) && Accepts(q.Start(p, incoming.fecInfo), p.seqNum)
      && Numbers(q.Start(p, incoming.fecInfo).pending) == seen
  {
    var p, s := q.Fixed(incoming.packet), sender[(frame, block)];
    if seen == {} {
      OpenTakes(q, incoming, sender, frame, block);
    } else {
      ReachedKeeps(q.Win(), q.currentFrame, q.curBlock, q.ReceiveSize());
      NumbersDuplicate(q.pending, p.seqNum);
      NewIsAccepted(q.Win(), p.seqNum);
    }
  }

  lemma OpenTakes(q: RtpVideoQueue, incoming: Incoming, sender: Sender, frame: U32, block: nat)
    requires Facing(q, incoming, sender, frame, block, {})
    ensures var p, s := q.Fixed(incoming.packet), sender[(frame, block)];
      && q.Eligible(p) && q.Considers(p) && Accepts(q.Start(p, incoming.fecInfo), p.seqNum)
      && Numbers(q.Start(p, incoming.fecInfo).pending) == {}
  {
    var p, s := q.Fixed(incoming.packet), sender[(frame, block)];
    AheadIsNotBefore(q.nextContiguous, s, p.seqNum);
    assert q.Eligible(p) && !q.Continues(p) && q.Begins(p);
    ShapeBound(incoming.fecInfo);
    EmptyInv(s.low, s.data, s.parity);
    NewIsAccepted(EmptyWindow(s.low, s.data, s.parity), p.seqNum);
  }

  /** A packet that has come already is not. */
  lemma OldIsRefused(q: RtpVideoQueue, incoming: Incoming, sender: Sender, frame: U32, block: nat, seen: set<U16>)
    requires Facing(q, incoming, sender, frame, block, seen) && q.Fixed(incoming.packet).seqNum in seen
    ensures var p := q.Fixed(incoming.packet);
      q.Continues(p) && !Accepts(q.Start(p, incoming.fecInfo), p.seqNum)
  {
    NumbersDuplicate(q.pending, q.Fixed(incoming.packet).seqNum);
  }

  lemma LateIsRefused(q: RtpVideoQueue, p: Packet, frame: U32, block: nat, current: U32)
    requires Late(p, frame, block, current)
    requires current <= q.currentFrame <= frame + 1 && (q.currentFrame == frame ==> q.curBlock >= block)
    requires block > 0 ==> q.currentFrame >= frame
    ensures !q.Eligible(p)
  {}

  lemma PastIsRefused(q: RtpVideoQueue, p: Packet, frame: U32, block: nat, s: Sent, before: seq<Frame>)
    requires Past(PlaceOf(q), frame, block, s, before) && OfThis(p, frame, block, s) && frame + 1 < 0x1_0000_0000
    ensures !q.Eligible(p)
  {}

  lemma OneMoreNumber(start: Window, p: Packet, seen: set<U16>)
    requires WindowInv(start) && Numbers(start.pending) == seen && p.seqNum !in seen
    ensures var w := EnqueuedBy(start, p);
      Numbers(w.pending) == seen + {p.seqNum} && |w.pending| == |seen| + 1 && w.pending != []
  {
    NumbersOneMore(start.pending, Entry(p, !IsBefore16(p.seqNum, FirstParityOf(start))));
    NumbersSize(start.pending);
  }

  /** The block with one packet more is complete, or still needs more. */
  lemma Moves(q: RtpVideoQueue, start: Window, p: Packet, done: seq<Entry>, kept: seq<seq<Entry>>, frames: seq<Frame>,
              frame: U32, block: nat, s: Sent, seen: set<U16>)
    requires q.appVersion >= 5 && CodecHolds(s) && q.lastBlock == s.last && p.frame == frame
    requires SentOk(s, q.ReceiveSize()) && BlockNumber(p.blocks) == block
    requires HonestBlock(start, s, q.ReceiveSize()) && HonestPacket(p, s, q.ReceiveSize())
    requires CollectingOk(start, frame, block, q.ReceiveSize()) && Accepts(start, p.seqNum)
    requires Numbers(start.pending) == seen && p.seqNum !in seen
    requires q.Outcome(EnqueuedBy(start, p), false, done, frame, block, kept, frames, s.word)
    ensures if |seen| + 1 < s.data
      then InBlock(PlaceOf(q), frame, block, s, seen + {p.seqNum}) && q.frames == frames
      else Past(PlaceOf(q), frame, block, s, frames)
  {
    var w := EnqueuedBy(start, p);
    NextHonest(start, p, s, q.ReceiveSize());
    OneMoreNumber(start, p, seen);
    q.EnoughCompletes(w);
    if q.Completes(w) { MovedPast(q, w, done, kept, frames, frame, block, s); }
  }

  /** The codec can hold the block. */
  predicate CodecHolds(s: Sent) { s.data + s.parity <= DATA_SHARDS_MAX }

  lemma MovedPast(q: RtpVideoQueue, w: Window, done: seq<Entry>, kept: seq<seq<Entry>>, frames: seq<Frame>, frame: U32,
                  block: nat, s: Sent)
    requires WindowInv(w) && w.low == s.low && w.data == s.data && w.parity == s.parity && q.lastBlock == s.last
    requires q.BlockDone(w, done, frame, block, kept, frames, s.word)
    ensures Past(PlaceOf(q), frame, block, s, frames)
  {
    var f := Frame(frame, kept + [done]);
    assert (frames + [f])[..|frames|] == frames;
  }

  // ----- all packets of a block

  /** The numbers of the block among the arrivals. */
  ghost function Come(q: RtpVideoQueue, arrivals: seq<Incoming>, frame: U32, block: nat): set<U16> {
    set i | 0 <= i < |arrivals| && IsOf(q.Fixed(arrivals[i].packet), frame, block) :: arrivals[i].packet.seqNum
  }

  predicate IsOf(p: Packet, frame: U32, block: nat) {
    p.frame == frame && BlockNumber(p.blocks) == block
  }

  lemma ComeOneMore(q: RtpVideoQueue, arrivals: seq<Incoming>, frame: U32, block: nat, n: nat)
    requires n < |arrivals|
    ensures Come(q, arrivals[..n + 1], frame, block) == Come(q, arrivals[..n], frame, block)
      + if IsOf(q.Fixed(arrivals[n].packet), frame, block) then {arrivals[n].packet.seqNum} else {}
  {
    var a, b := arrivals[..n], arrivals[..n + 1];
    forall x | x in Come(q, a, frame, block)
      ensures x in Come(q, b, frame, block)
    {
      var i :| 0 <= i < |a| && IsOf(q.Fixed(a[i].packet), frame, block) && a[i].packet.seqNum == x;
      assert b[i] == a[i];
    }
    assert b[n] == arrivals[n];
    forall x | x in Come(q, b, frame, block)
      ensures x in Come(q, a, frame, block) || (IsOf(q.Fixed(arrivals[n].packet), frame, block) &&
        x == arrivals[n].packet.seqNum)
    {
      var i :| 0 <= i < |b| && IsOf(q.Fixed(b[i].packet), frame, block) && b[i].packet.seqNum == x;
      if i < n { assert a[i] == b[i]; }
    }
  }

  /** The packets of the block that come, in any order and repeated or not, among them what is late. */
  ghost predicate BlockArrives(q: RtpVideoQueue, arrivals: seq<Incoming>, sender: Sender, frame: U32, block: nat,
                               current: U32)
  {
    && SenderOk(sender, q.ReceiveSize()) && (frame, block) in sender
    && forall i :: 0 <= i < |arrivals| ==>
         var p := q.Fixed(arrivals[i].packet);
         && HonestArrival(p, arrivals[i].fecInfo, sender, q.ReceiveSize())
         && (OfThis(p, frame, block, sender[(frame, block)]) || Late(p, frame, block, current))
  }

  /** As many different packets as the block has data packets. */
  ghost predicate EnoughArrive(q: RtpVideoQueue, arrivals: seq<Incoming>, frame: U32, block: nat, s: Sent) {
    var come := Come(q, arrivals, frame, block);
    come != {} && |come| >= s.data
  }

  /** Where the queue is while packets of the block come. */
  ghost predicate OnTheWay(at: Place, frame: U32, block: nat, s: Sent, seen: set<U16>, before: seq<Frame>) {
    if seen == {} || |seen| < s.data then InBlock(at, frame, block, s, seen) && at.frames == before
    else Past(at, frame, block, s, before)
  }

  /** Frames and blocks only go up, from the frame the run started with. */
  predicate Span(at: Place, frame: U32, block: nat, current: U32) {
    && current <= at.frame <= frame + 1 && (at.frame == frame ==> at.block >= block)
    && (block > 0 ==> at.frame >= frame) && frame - at.frame < 0x8000 && frame + 1 < 0x1_0000_0000
  }

  /** The packet is the next different one of the block. */
  ghost predicate IsNew(q: RtpVideoQueue, incoming: Incoming, frame: U32, block: nat, s: Sent, seen: set<U16>) {
    && IsOf(q.Fixed(incoming.packet), frame, block) && incoming.packet.seqNum !in seen
    && (seen == {} || |seen| < s.data)
  }

  /** A next different packet is taken in, and no other one. */
  lemma OnlyNewIsTaken(q: RtpVideoQueue, incoming: Incoming, sender: Sender, frame: U32, block: nat, seen: set<U16>,
                       before: seq<Frame>, current: U32)
    requires Steady(q, sender) && BlockArrives(q, [incoming], sender, frame, block, current)
    requires OnTheWay(PlaceOf(q), frame, block, sender[(frame, block)], seen, before)
    requires Span(PlaceOf(q), frame, block, current)
    ensures var p := q.Fixed(incoming.packet);
      if IsNew(q, incoming, frame, block, sender[(frame, block)], seen)
      then Facing(q, incoming, sender, frame, block, seen)
      else q.Eligible(p) ==> q.Continues(p) && !Accepts(q.Start(p, incoming.fecInfo), p.seqNum)
  {
    var p, s := q.Fixed(incoming.packet), sender[(frame, block)];
    assert [incoming][0] == incoming;
    if Late(p, frame, block, current) {
      LateIsRefused(q, p, frame, block, current);
    } else if seen == {} || |seen| < s.data {
      if p.seqNum in seen { OldIsRefused(q, incoming, sender, frame, block, seen); }
    } else {
      PastIsRefused(q, p, frame, block, s, before);
    }
  }

  /** The packet is refused, if it is looked at at all. */
  predicate Refused(q: RtpVideoQueue, incoming: Incoming)
    reads q
  {
    var p := q.Fixed(incoming.packet);
    q.Eligible(p) ==> q.Continues(p) && !Accepts(q.Start(p, incoming.fecInfo), p.seqNum)
  }

  /** What a packet leads to: a next different one is taken in, any other one changes nothing. */
  ghost predicate LeadsTo(was: Place, at: Place, isNew: bool, seqNum: U16, frame: U32, block: nat, s: Sent,
                          seen: set<U16>)
  {
    if !isNew then at == was
    else if |seen| + 1 < s.data then InBlock(at, frame, block, s, seen + {seqNum}) && at.frames == was.frames
    else Past(at, frame, block, s, was.frames)
  }

  method ReceiveKnown(q: RtpVideoQueue, incoming: Incoming, ghost isNew: bool, ghost sender: Sender, ghost frame: U32,
                      ghost block: nat, ghost seen: set<U16>)
    requires Steady(q, sender) && Safe(q, incoming) && (frame, block) in sender
    requires HonestArrival(q.Fixed(incoming.packet), incoming.fecInfo, sender, q.ReceiveSize())
    requires q.appVersion >= 5 && CodecHolds(sender[(frame, block)])
    requires if isNew then Facing(q, incoming, sender, frame, block, seen) && incoming.packet.seqNum !in seen
      else Refused(q, incoming)
    modifies q
    ensures Steady(q, sender)
    ensures LeadsTo(old(PlaceOf(q)), PlaceOf(q), isNew, incoming.packet.seqNum, frame, block, sender[(frame, block)],
                    seen)
  {
    ghost var p, s := q.Fixed(incoming.packet), sender[(frame, block)];
    ghost var start, kept, frames := q.Start(p, incoming.fecInfo), q.Kept(frame), q.frames;
    if isNew {
      NewIsTaken(q, incoming, sender, frame, block, seen);
      StartHonest(q, p, incoming.fecInfo, sender);
    }
    var _, done := ReceiveOne(q, incoming, sender);
    if isNew { Moves(q, start, p, done, kept, frames, frame, block, s, seen); }
  }

  lemma SeenGrows(seen: set<U16>, x: U16)
    ensures x in seen ==> seen + {x} == seen
    ensures x !in seen ==> |seen + {x}| == |seen| + 1
  {}

  /** Where that leaves the queue. */
  lemma StillOnTheWay(was: Place, at: Place, isNew: bool, isOf: bool, seqNum: U16, frame: U32, block: nat, s: Sent,
                      seen: set<U16>, before: seq<Frame>)
    requires LeadsTo(was, at, isNew, seqNum, frame, block, s, seen)
    requires isNew == (isOf && seqNum !in seen && (seen == {} || |seen| < s.data))
    requires OnTheWay(was, frame, block, s, seen, before)
    ensures OnTheWay(at, frame, block, s, seen + if isOf then {seqNum} else {}, before)
  {
    SeenGrows(seen, seqNum);
    assert seen + {} == seen;
  }

  lemma StillInSpan(was: Place, at: Place, frame: U32, block: nat, s: Sent, seen: set<U16>, seen': set<U16>,
                    before: seq<Frame>, current: U32)
    requires Span(was, frame, block, current) && seen <= seen' && |seen| <= |seen'|
    requires OnTheWay(was, frame, block, s, seen, before) && OnTheWay(at, frame, block, s, seen', before)
    requires seen' == {} ==> at == was
    ensures Span(at, frame, block, current)
  {}

  method ReceiveNext(q: RtpVideoQueue, incoming: Incoming, ghost sender: Sender, ghost frame: U32, ghost block: nat,
                     ghost seen: set<U16>, ghost before: seq<Frame>, ghost current: U32)
    returns (ghost seen': set<U16>)
    requires Steady(q, sender) && Safe(q, incoming) && q.appVersion >= 5
    requires BlockArrives(q, [incoming], sender, frame, block, current) && CodecHolds(sender[(frame, block)])
    requires OnTheWay(PlaceOf(q), frame, block, sender[(frame, block)], seen, before)
    requires Span(PlaceOf(q), frame, block, current)
    modifies q
    ensures Steady(q, sender) && Span(PlaceOf(q), frame, block, current)
    ensures seen' == seen + if IsOf(q.Fixed(incoming.packet), frame, block) then {incoming.packet.seqNum} else {}
    ensures OnTheWay(PlaceOf(q), frame, block, sender[(frame, block)], seen', before)
  {
    ghost var s, was := sender[(frame, block)], PlaceOf(q);
    ghost var isNew, isOf := IsNew(q, incoming, frame, block, s, seen), IsOf(q.Fixed(incoming.packet), frame, block);
    OnlyNewIsTaken(q, incoming, sender, frame, block, seen, before, current);
    assert [incoming][0] == incoming;
    ReceiveKnown(q, incoming, isNew, sender, frame, block, seen);
    seen' := seen + if isOf then {incoming.packet.seqNum} else {};
    StillOnTheWay(was, PlaceOf(q), isNew, isOf, incoming.packet.seqNum, frame, block, s, seen, before);
    SeenGrows(seen, incoming.packet.seqNum);
    StillInSpan(was, PlaceOf(q), frame, block, s, seen, seen', before, current);
  }

  /** Only a block with as much parity as data can make a packet unsafe. */
  lemma SafeUnlessOverflow(q: RtpVideoQueue, incoming: Incoming, sender: Sender, frame: U32, block: nat,
                           seen: set<U16>, before: seq<Frame>, current: U32)
    requires Steady(q, sender) && BlockArrives(q, [incoming], sender, frame, block, current)
    requires OnTheWay(PlaceOf(q), frame, block, sender[(frame, block)], seen, before)
    requires Span(PlaceOf(q), frame, block, current)
    ensures Safe(q, incoming) || sender[(frame, block)].data == sender[(frame, block)].parity > 1
  {
    var p, s := q.Fixed(incoming.packet), sender[(frame, block)];
    assert [incoming][0] == incoming;
    OnlyNewIsTaken(q, incoming, sender, frame, block, seen, before, current);
    if IsNew(q, incoming, frame, block, s, seen) && q.MeetsUndefined(p, incoming.fecInfo) {
      StartHonest(q, p, incoming.fecInfo, sender);
    }
  }

  lemma OneArrives(q: RtpVideoQueue, arrivals: seq<Incoming>, sender: Sender, frame: U32, block: nat, current: U32,
                   n: nat)
    requires BlockArrives(q, arrivals, sender, frame, block, current) && n < |arrivals|
    ensures BlockArrives(q, [arrivals[n]], sender, frame, block, current)
  {}

  /** n packets of the block have come. */
  ghost predicate Underway(q: RtpVideoQueue, arrivals: seq<Incoming>, sender: Sender, frame: U32, block: nat,
                           current: U32, before: seq<Frame>, n: nat)
    requires (frame, block) in sender
    reads q
  {
    && n <= |arrivals| && Span(PlaceOf(q), frame, block, current)
    && OnTheWay(PlaceOf(q), frame, block, sender[(frame, block)], Come(q, arrivals[..n], frame, block), before)
  }

  method ReceiveAt(q: RtpVideoQueue, arrivals: seq<Incoming>, ghost sender: Sender, ghost frame: U32,
                   ghost block: nat, ghost current: U32, ghost before: seq<Frame>, n: nat)
    requires Steady(q, sender) && q.appVersion >= 5 && BlockArrives(q, arrivals, sender, frame, block, current)
    requires CodecHolds(sender[(frame, block)]) && n < |arrivals| && Safe(q, arrivals[n])
    requires Underway(q, arrivals, sender, frame, block, current, before, n)
    modifies q
    ensures Steady(q, sender) && Underway(q, arrivals, sender, frame, block, current, before, n + 1)
  {
    OneArrives(q, arrivals, sender, frame, block, current, n);
    ComeOneMore(q, arrivals, frame, block, n);
    ghost var seen := ReceiveNext(q, arrivals[n], sender, frame, block, Come(q, arrivals[..n], frame, block), before,
                                  current);
  }

  /** After the last packet, or at an unsafe one. */
  lemma UnderwayEnds(q: RtpVideoQueue, arrivals: seq<Incoming>, sender: Sender, frame: U32, block: nat, current: U32,
                     before: seq<Frame>, n: nat)
    requires Steady(q, sender) && BlockArrives(q, arrivals, sender, frame, block, current)
    requires EnoughArrive(q, arrivals, frame, block, sender[(frame, block)])
    requires Underway(q, arrivals, sender, frame, block, current, before, n)
    ensures n < |arrivals| ==> Safe(q, arrivals[n]) || sender[(frame, block)].data == sender[(frame, block)].parity > 1
    ensures n == |arrivals| ==> Past(PlaceOf(q), frame, block, sender[(frame, block)], before)
  {
    if n < |arrivals| {
      OneArrives(q, arrivals, sender, frame, block, current, n);
      SafeUnlessOverflow(q, arrivals[n], sender, frame, block, Come(q, arrivals[..n], frame, block), before, current);
    } else {
      assert arrivals[..n] == arrivals;
    }
  }

  /** The packets from the n-th on. */
  method ReceiveFrom(q: RtpVideoQueue, arrivals: seq<Incoming>, ghost sender: Sender, ghost frame: U32,
                     ghost block: nat, ghost current: U32, ghost before: seq<Frame>, n: nat)
    returns (m: nat)
    requires Steady(q, sender) && q.appVersion >= 5 && BlockArrives(q, arrivals, sender, frame, block, current)
    requires CodecHolds(sender[(frame, block)])
    requires Underway(q, arrivals, sender, frame, block, current, before, n)
    modifies q
    ensures Steady(q, sender) && m <= |arrivals| && (m < |arrivals| ==> !Safe(q, arrivals[m]))
    ensures Underway(q, arrivals, sender, frame, block, current, before, m)
    decreases |arrivals| - n
  {
    m := n;
    if n < |arrivals| && Safe(q, arrivals[n]) {
      ReceiveAt(q, arrivals, sender, frame, block, current, before, n);
      m := ReceiveFrom(q, arrivals, sender, frame, block, current, before, n + 1);
    }
  }

  /** The packets of a block, from its first on: when enough of them have come, the block is complete. A packet
      that would make the codec overflow ends the run. */
  method ReceiveBlock(q: RtpVideoQueue, arrivals: seq<Incoming>, ghost sender: Sender, ghost frame: U32,
                      ghost block: nat, ghost current: U32)
    returns (n: nat)
    requires Steady(q, sender) && q.appVersion >= 5 && BlockArrives(q, arrivals, sender, frame, block, current)
    requires CodecHolds(sender[(frame, block)]) && EnoughArrive(q, arrivals, frame, block, sender[(frame, block)])
    requires Open(PlaceOf(q), frame, block, sender[(frame, block)]) && Span(PlaceOf(q), frame, block, current)
    modifies q
    ensures Steady(q, sender) && n <= |arrivals|
    ensures n < |arrivals| ==> !Safe(q, arrivals[n]) && sender[(frame, block)].data == sender[(frame, block)].parity > 1
    ensures n == |arrivals| ==> Past(PlaceOf(q), frame, block, sender[(frame, block)], old(q.frames))
    ensures n == |arrivals| ==> Span(PlaceOf(q), frame, block, current)
  {
    ghost var before := q.frames;
    NothingCome(q, arrivals, sender, frame, block, current);
    n := ReceiveFrom(q, arrivals, sender, frame, block, current, before, 0);
    UnderwayEnds(q, arrivals, sender, frame, block, current, before, n);
  }

  lemma NothingCome(q: RtpVideoQueue, arrivals: seq<Incoming>, sender: Sender, frame: U32, block: nat, current: U32)
    requires (frame, block) in sender
    requires Open(PlaceOf(q), frame, block, sender[(frame, block)]) && Span(PlaceOf(q), frame, block, current)
    ensures Underway(q, arrivals, sender, frame, block, current, q.frames, 0)
  {
    assert Come(q, arrivals[..0], frame, block) == {};
  }

  // ----- all blocks of a frame

  /** The second block comes after the first in the numbers, and not too far away. */
  predicate ComesAfter(s: Sent, next: Sent) {
    s.data + s.parity <= Wrap16(next.low - s.low) && Wrap16(next.low - s.low) + next.data + next.parity <= 0x8000
  }

  lemma AfterIsAhead(s: Sent, next: Sent, number: U16)
    requires ComesAfter(s, next) && Offset(s.low, number) <= s.data + s.parity
    ensures Ahead(number, next)
  {}

  /** The frame has these blocks, one after the other. */
  ghost predicate FrameBlocks(sender: Sender, frame: U32, last: nat) {
    && (forall k :: 0 <= k <= last ==>
          (frame, k) in sender && sender[(frame, k)].last == last && CodecHolds(sender[(frame, k)]))
    && forall k :: 0 < k <= last ==> ComesAfter(sender[(frame, k - 1)], sender[(frame, k)])
  }

  /** Of every block of the frame enough packets come, one block after the other. */
  ghost predicate FrameArrives(q: RtpVideoQueue, blocks: seq<seq<Incoming>>, sender: Sender, frame: U32, current: U32) {
    && blocks != [] && FrameBlocks(sender, frame, |blocks| - 1)
    && forall k :: 0 <= k < |blocks| ==>
         && BlockArrives(q, blocks[k], sender, frame, k, current)
         && EnoughArrive(q, blocks[k], frame, k, sender[(frame, k)])
  }

  /** No block of the frame has as much parity as data, but for blocks of one data packet. */
  ghost predicate Uneven(sender: Sender, frame: U32, last: nat) {
    forall k :: 0 <= k <= last && (frame, k) in sender ==> !(sender[(frame, k)].data == sender[(frame, k)].parity > 1)
  }

  lemma PastIsOpen(at: Place, frame: U32, block: nat, s: Sent, next: Sent, before: seq<Frame>, current: U32)
    requires Past(at, frame, block, s, before) && block < s.last && ComesAfter(s, next)
    requires Span(at, frame, block, current)
    ensures Open(at, frame, block + 1, next) && Span(at, frame, block + 1, current) && at.frames == before
  {
    AfterIsAhead(s, next, at.w.next);
  }

  /** The first k blocks of the frame are complete. */
  ghost predicate FrameUnderway(q: RtpVideoQueue, sender: Sender, frame: U32, last: nat, current: U32,
                                before: seq<Frame>, k: nat)
    requires FrameBlocks(sender, frame, last)
    reads q
  {
    if k <= last then
      && Open(PlaceOf(q), frame, k, sender[(frame, k)]) && Span(PlaceOf(q), frame, k, current) && q.frames == before
    else k == last + 1 && Past(PlaceOf(q), frame, last, sender[(frame, last)], before)
  }

  method ReceiveBlockAt(q: RtpVideoQueue, blocks: seq<seq<Incoming>>, ghost sender: Sender, ghost frame: U32,
                        ghost current: U32, ghost before: seq<Frame>, k: nat)
    returns (ok: bool)
    requires Steady(q, sender) && q.appVersion >= 5 && FrameArrives(q, blocks, sender, frame, current)
    requires k < |blocks| && FrameUnderway(q, sender, frame, |blocks| - 1, current, before, k)
    modifies q
    ensures Steady(q, sender) && (Uneven(sender, frame, |blocks| - 1) ==> ok)
    ensures ok ==> FrameUnderway(q, sender, frame, |blocks| - 1, current, before, k + 1)
  {
    var n := ReceiveBlock(q, blocks[k], sender, frame, k, current);
    ok := n == |blocks[k]|;
    if ok && k + 1 < |blocks| {
      PastIsOpen(PlaceOf(q), frame, k, sender[(frame, k)], sender[(frame, k + 1)], before, current);
    }
  }

  /** A frame of every block of which enough packets come is passed on whole, as the sender's, whatever the
      queue had been doing before; ok tells that no packet would have made the codec overflow. */
  method ReceiveFrame(q: RtpVideoQueue, blocks: seq<seq<Incoming>>, ghost sender: Sender, ghost frame: U32)
    returns (ok: bool)
    requires Steady(q, sender) && q.appVersion >= 5 && FrameArrives(q, blocks, sender, frame, q.currentFrame)
    requires Open(PlaceOf(q), frame, 0, sender[(frame, 0)]) && Span(PlaceOf(q), frame, 0, q.currentFrame)
    modifies q
    ensures Steady(q, sender) && (Uneven(sender, frame, |blocks| - 1) ==> ok)
    ensures ok ==> Past(PlaceOf(q), frame, |blocks| - 1, sender[(frame, |blocks| - 1)], old(q.frames))
    ensures ok ==> HonestFrame(q.frames[|old(q.frames)|], sender, q.ReceiveSize())
  {
    ghost var before, current := q.frames, q.currentFrame;
    var k := 0;
    ok := true;
    while k < |blocks| && ok
      invariant k <= |blocks| && Steady(q, sender) && (Uneven(sender, frame, |blocks| - 1) ==> ok)
      invariant ok ==> FrameUnderway(q, sender, frame, |blocks| - 1, current, before, k)
    {
      ok := ReceiveBlockAt(q, blocks, sender, frame, current, before, k);
      k := k + 1;
    }
  }

  // ----- all frames of a stream

  /** The packets of one frame as they come, block by block. */
  datatype FrameRun = FrameRun(frame: U32, blocks: seq<seq<Incoming>>)

  /** Enough packets come of all frames of the run; the frames follow one another, with gaps where frames were
      lost as a whole. current is the frame the queue expects. */
  ghost predicate StreamArrives(q: RtpVideoQueue, runs: seq<FrameRun>, sender: Sender, current: U32) {
    forall i :: 0 <= i < |runs| ==>
      && FrameArrives(q, runs[i].blocks, sender, runs[i].frame, Expected(runs, i, current))
      && Expected(runs, i, current) <= runs[i].frame < Expected(runs, i, current) + 0x8000
      && runs[i].frame + 1 < 0x1_0000_0000
      && (i > 0 ==> ComesAfter(LastSent(runs[i - 1], sender), sender[(runs[i].frame, 0)]))
  }

  /** The frame expected before frame i of the run. */
  function Expected(runs: seq<FrameRun>, i: nat, current: U32): U32
    requires i <= |runs|
  {
    if i == 0 then current else Wrap32(runs[i - 1].frame + 1)
  }

  ghost function LastSent(run: FrameRun, sender: Sender): Sent {
    if run.blocks != [] && (run.frame, |run.blocks| - 1) in sender then sender[(run.frame, |run.blocks| - 1)]
    else Sent(0, 0, 0, 0, 0, [])
  }

  /** The frames of the run, and nothing else, have been passed on. */
  ghost predicate PassedOn(frames: seq<Frame>, before: seq<Frame>, runs: seq<FrameRun>) {
    && |frames| == |before| + |runs| && frames[..|before|] == before
    && NumberedAs(frames[|before|..], runs)
  }

  ghost predicate NumberedAs(frames: seq<Frame>, runs: seq<FrameRun>) {
    |frames| == |runs| && forall i :: 0 <= i < |runs| ==> frames[i].number == runs[i].frame
  }

  /** No frame of the run has a block with as much parity as data. */
  ghost predicate AllUneven(sender: Sender, runs: seq<FrameRun>) {
    forall i :: 0 <= i < |runs| && runs[i].blocks != [] ==> Uneven(sender, runs[i].frame, |runs[i].blocks| - 1)
  }

  /** The first n frames have been passed on. */
  ghost predicate StreamUnderway(q: RtpVideoQueue, runs: seq<FrameRun>, sender: Sender, current: U32,
                                 before: seq<Frame>, n: nat)
    reads q
  {
    && n <= |runs| && q.currentFrame == Expected(runs, n, current) && PassedOn(q.frames, before, runs[..n])
    && (n < |runs| ==> (runs[n].frame, 0) in sender && Open(PlaceOf(q), runs[n].frame, 0, sender[(runs[n].frame, 0)]))
  }

  lemma FrameOpens(q: RtpVideoQueue, runs: seq<FrameRun>, sender: Sender, current: U32, before: seq<Frame>,
                   was: seq<Frame>, n: nat)
    requires StreamArrives(q, runs, sender, current) && n < |runs| && runs[n].blocks != []
    requires PassedOn(was, before, runs[..n])
    requires Past(PlaceOf(q), runs[n].frame, |runs[n].blocks| - 1, LastSent(runs[n], sender), was)
    ensures StreamUnderway(q, runs, sender, current, before, n + 1)
  {
    assert FrameArrives(q, runs[n].blocks, sender, runs[n].frame, Expected(runs, n, current));
    assert LastSent(runs[n], sender).last == |runs[n].blocks| - 1;
    PassedOneMore(q.frames, was, before, runs, n);
    if n + 1 < |runs| {
      assert FrameArrives(q, runs[n + 1].blocks, sender, runs[n + 1].frame, Expected(runs, n + 1, current));
      AfterIsAhead(LastSent(runs[n], sender), sender[(runs[n + 1].frame, 0)], q.nextContiguous);
    }
  }

  lemma PassedOneMore(frames: seq<Frame>, was: seq<Frame>, before: seq<Frame>, runs: seq<FrameRun>, n: nat)
    requires n < |runs| && PassedOn(was, before, runs[..n]) && OneMore(frames, was, runs[n].frame)
    ensures PassedOn(frames, before, runs[..n + 1])
  {
    assert frames[..|before|] == frames[..|was|][..|before|];
    assert frames[|before|..] == was[|before|..] + [frames[|was|]];
    assert runs[..n + 1] == runs[..n] + [runs[n]];
  }

  method ReceiveFrameAt(q: RtpVideoQueue, runs: seq<FrameRun>, ghost sender: Sender, ghost current: U32,
                        ghost before: seq<Frame>, n: nat)
    returns (ok: bool)
    requires Steady(q, sender) && q.appVersion >= 5 && StreamArrives(q, runs, sender, current)
    requires n < |runs| && StreamUnderway(q, runs, sender, current, before, n)
    modifies q
    ensures Steady(q, sender) && (AllUneven(sender, runs) ==> ok)
    ensures ok ==> StreamUnderway(q, runs, sender, current, before, n + 1)
  {
    ghost var was := q.frames;
    assert FrameArrives(q, runs[n].blocks, sender, runs[n].frame, Expected(runs, n, current));
    ok := ReceiveFrame(q, runs[n].blocks, sender, runs[n].frame);
    if ok { FrameOpens(q, runs, sender, current, before, was, n); }
  }

  /** The frames from the n-th on. */
  method ReceiveFramesFrom(q: RtpVideoQueue, runs: seq<FrameRun>, ghost sender: Sender, ghost current: U32,
                           ghost before: seq<Frame>, n: nat)
    returns (ok: bool)
    requires Steady(q, sender) && q.appVersion >= 5 && StreamArrives(q, runs, sender, current)
    requires StreamUnderway(q, runs, sender, current, before, n)
    modifies q
    ensures Steady(q, sender) && (AllUneven(sender, runs) ==> ok)
    ensures ok ==> StreamUnderway(q, runs, sender, current, before, |runs|)
    decreases |runs| - n
  {
    ok := true;
    if n < |runs| {
      ok := ReceiveFrameAt(q, runs, sender, current, before, n);
      if ok {
        ok := ReceiveFramesFrom(q, runs, sender, current, before, n + 1);
      }
    }
  }

  /** A stream of frames of which enough packets come in turn: the frames are passed on, each once, in order,
      and nothing else; ok tells that no packet would have made the codec overflow. */
  method ReceiveStream(q: RtpVideoQueue, runs: seq<FrameRun>, ghost sender: Sender) returns (ok: bool)
    requires Steady(q, sender) && q.appVersion >= 5 && StreamArrives(q, runs, sender, q.currentFrame)
    requires runs != [] ==> Open(PlaceOf(q), runs[0].frame, 0, sender[(runs[0].frame, 0)])
    modifies q
    ensures Steady(q, sender) && HonestFrames(q.frames, sender, q.ReceiveSize())
    ensures ok ==> PassedOn(q.frames, old(q.frames), runs)
    ensures AllUneven(sender, runs) ==> ok
  {
    ghost var before, current := q.frames, q.currentFrame;
    ok := ReceiveFramesFrom(q, runs, sender, current, before, 0);
    assert runs[..|runs|] == runs;
  }
}
