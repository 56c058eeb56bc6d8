/** What the depacketizer guarantees the decoder over whole runs. */
module DepacketizerRuns {
  import opened Gf256
  import opened SequenceNumbers
  import opened AnnexB
  import opened DepacketizerControl
  import opened Depacketizer

  function Succ(number: U32): U32 { Wrap32(number + 1) }

  /** An IDR frame has been accepted, and no frame since has made the decoder ask for another. */
  ghost predicate Fresh(units: seq<Unit>) {
    && units != []
    && var last := units[|units| - 1];
       last.answer == Ok && (last.idr || Fresh(units[..|units| - 1]))
  }

  /** The frame follows the one before it, or can be decoded without it: it is an IDR frame, or its header
      ended the wait for an invalidation. Other frames than IDR frames come only while the decoder has an IDR
      frame to go by. */
  ghost predicate UnitOk(units: seq<Unit>, i: nat)
    requires i < |units|
  {
    && ((i > 0 && units[i].number == Succ(units[i - 1].number)) || units[i].idr || units[i].freed)
    && (units[i].idr || Fresh(units[..i]))
  }

  ghost predicate AllOk(units: seq<Unit>) {
    forall i :: 0 <= i < |units| ==> UnitOk(units, i)
  }

  lemma {:induction false} FreshExact(units: seq<Unit>)
    ensures Fresh(units) <==> exists j :: 0 <= j < |units| && AcceptedSince(units, j)
  {
    if units != [] {
      var front, last := units[..|units| - 1], units[|units| - 1];
      FreshExact(front);
      if Fresh(units) {
        if last.idr {
          assert AcceptedSince(units, |units| - 1);
        } else {
          var j :| 0 <= j < |front| && AcceptedSince(front, j);
          assert AcceptedSince(units, j);
        }
      }
      if j :| 0 <= j < |units| && AcceptedSince(units, j) {
        assert units[|units| - 1].answer == Ok;
        if j < |front| {
          assert forall k :: j <= k < |front| ==> front[k] == units[k];
          assert AcceptedSince(front, j);
        }
      }
    }
  }

  /** Unit j is an IDR frame, and it and all units after it were accepted. */
  ghost predicate AcceptedSince(units: seq<Unit>, j: nat)
    requires j < |units|
  {
    units[j].idr && forall k :: j <= k < |units| ==> units[k].answer == Ok
  }

  // ----- the invariant

  ghost predicate Contiguous(c: Control) {
    c.submitted != [] && c.next == Succ(c.submitted[|c.submitted| - 1].number)
  }

  ghost predicate Inv(c: Control) {
    && AllOk(c.submitted)
    && (!c.waitIdr && !c.waitRfi ==> Contiguous(c) || (c.decoding && (c.idr || c.freed)))
    && (!c.waitIdr ==> Fresh(c.submitted) || (c.decoding && c.idr))
    && (c.decoding && c.idr ==> !c.waitRfi)
  }

  lemma InitialInv(strict: bool)
    ensures Inv(Initial(strict))
  {}

  /** An IDR frame that has ended the wait for one is being put together, the decoder has not accepted an IDR
      frame since it asked for it, and dropping the frame would lead to no new wait for an IDR frame. */
  ghost predicate Endangered(c: Control) {
    c.decoding && c.idr && !c.waitIdr && !Fresh(c.submitted) && !c.strict && c.processed &&
      c.drops + 1 != CONSECUTIVE_DROP_LIMIT
  }

  /** Giving a frame up keeps the invariant exactly when no such frame is lost. */
  lemma GivenUpExact(c: Control, frame: U32)
    requires Inv(c)
    ensures Inv(GivenUp(c, frame)) <==> !Endangered(c)
  {}

  /** After a drop the machine waits for an IDR frame or an invalidation. */
  lemma DroppedKeeps(c: Control)
    requires AllOk(c.submitted) && !c.decoding && (!c.waitIdr ==> Fresh(c.submitted))
    ensures Inv(Dropped(c)) && (Dropped(c).waitIdr || Dropped(c).waitRfi)
    ensures !Dropped(c).waitIdr ==> Fresh(c.submitted)
  {}

  lemma LostKeeps(c: Control, frame: U32)
    requires Inv(c) && !c.decoding
    ensures Inv(Lost(c, frame)) && !Lost(c, frame).decoding
  {
    DroppedKeeps(c);
  }

  lemma NotBehindNotAhead(x: U32, y: U32)
    ensures !IsBefore32(x, y) && !IsBefore32(y, x) <==> x == y
  {}

  lemma BegunKeeps(c: Control, frame: U32)
    requires Inv(c) && !c.decoding && !IsBefore32(frame, c.next)
    ensures Inv(Begun(c, frame)) && Begun(c, frame).next == frame && Begun(c, frame).decoding
    ensures Begun(c, frame).submitted == c.submitted
  {
    NotBehindNotAhead(frame, c.next);
    if IsBefore32(c.next, frame) { DroppedKeeps(c.(next := frame, waitSuccess := true)); }
  }

  lemma HeadedKeeps(c: Control, s: Session, frame: U32, payload: seq<Byte>)
    requires Inv(c) && c.decoding && s.version.AtLeast(7, 1, 350) && |payload| >= 4
    ensures var c' := Headed(c, s, frame, payload);
      Inv(c') && c'.decoding && c'.next == c.next && c'.submitted == c.submitted
  {}

  /** The number of the packet and the length given in the header do not matter. */
  lemma LastKeeps(c: Control, last: nat)
    requires Inv(c)
    ensures Inv(c.(last := last))
  {}

  lemma LengthKeeps(c: Control, s: Session, payload: seq<Byte>)
    requires Inv(c)
    ensures Inv(WithLength(c, s, payload))
  {}

  lemma TakenKeeps(c: Control, fragments: seq<Fragment>, idr: bool)
    requires Inv(c) && c.decoding
    ensures var c' := Taken(c, fragments, idr);
      Inv(c') && c'.decoding && c'.next == c.next && c'.chain == c.chain + fragments
  {}

  // ----- submitting a frame

  lemma AllOkSnoc(units: seq<Unit>, u: Unit)
    requires AllOk(units)
    requires (units != [] && u.number == Succ(units[|units| - 1].number)) || u.idr || u.freed
    requires u.idr || Fresh(units)
    ensures AllOk(units + [u])
  {
    var all := units + [u];
    forall i | 0 <= i < |all|
      ensures UnitOk(all, i)
    {
      assert all[..i] == if i < |units| then units[..i] else units;
      if i < |units| { assert UnitOk(units, i); }
    }
  }

  lemma FreshSnoc(units: seq<Unit>, u: Unit)
    ensures Fresh(units + [u]) <==> u.answer == Ok && (u.idr || Fresh(units))
  {
    assert (units + [u])[..|units|] == units;
  }

  lemma SubmittedKeeps(c: Control, frame: U32, answer: Answer)
    requires AllOk(c.submitted) && !c.decoding && !c.waitIdr && !c.waitRfi && c.chain != [] && c.next == Succ(frame)
    requires (c.submitted != [] && frame == Succ(c.submitted[|c.submitted| - 1].number)) || c.idr || c.freed
    requires Fresh(c.submitted) || c.idr
    ensures Inv(Submitted(c, frame, answer))
  {
    var u := UnitOf(c, frame, answer);
    AllOkSnoc(c.submitted, u);
    FreshSnoc(c.submitted, u);
    assert (c.submitted + [u])[|c.submitted|] == u;
  }

  lemma FinishedKeeps(c: Control, frame: U32, answer: Answer)
    requires Inv(c) && c.decoding && c.next == frame && c.chain != []
    ensures Inv(Finished(c, frame, answer)) && !Finished(c, frame, answer).decoding
  {
    var c1 := c.(decoding := false, next := Wrap32(frame + 1));
    if !c.waitIdr && !c.waitRfi && !(c.dropPending && !c.idr) {
      SubmittedKeeps(c1.(dropPending := false), frame, answer);
    }
  }

  // ----- one packet

  /** What the packets of whole frames satisfy: a first packet comes between frames and has its header, any
      other belongs to the frame being put together. */
  predicate Framed(c: Control, p: Packet) {
    && (IsFirst(p) <==> !c.decoding)
    && (if IsFirst(p) then |p.payload| >= 4 else p.frame == c.next)
  }

  /** With the packet an IDR frame is lost that the decoder needs. */
  ghost predicate Loses(c: Control, s: Session, p: Packet) {
    !Behind(c, p) &&
    if Corrupt(c, p) then Endangered(c) else BadLength(Opened(c, s, p), s, p) && Endangered(Opened(c, s, p))
  }

  lemma RestNotEmpty(codec: Codec, d: seq<Byte>, at: nat)
    requires at <= |d| && IdrFrameStart(codec, d, at)
    ensures Rest(codec, d, at, |d|) != []
  {
    RestKeeps(codec, d, at, |d|);
  }

  lemma SomeFragment(s: Session, p: Packet)
    ensures FragmentsOf(s, p).0 != []
  {
    if IsFirst(p) && p.payload != [] && s.codec != Other {
      var at := StreamStart(s.codec, p.payload, DataStart(s.version, p.payload));
      if IdrFrameStart(s.codec, p.payload, at) { RestNotEmpty(s.codec, p.payload, at); }
    }
  }

  lemma OpenedKeeps(c: Control, s: Session, p: Packet)
    requires Inv(c) && !Behind(c, p) && Framed(c, p) && s.version.AtLeast(7, 1, 350)
    ensures var c' := Opened(c, s, p); Inv(c') && c'.decoding && c'.next == p.frame && c'.submitted == c.submitted
  {
    if IsFirst(p) {
      BegunKeeps(c, p.frame);
      LastKeeps(Begun(c, p.frame), p.index);
      var c1 := Begun(c, p.frame).(last := p.index);
      HeadedKeeps(c1, s, p.frame, p.payload);
      LengthKeeps(Headed(c1, s, p.frame, p.payload), s, p.payload);
    } else {
      LastKeeps(c, p.index);
    }
  }

  lemma AddedKeeps(c: Control, fragments: seq<Fragment>, idr: bool, last: bool, frame: U32, answer: Answer)
    requires Inv(c) && c.decoding && c.next == frame && fragments != []
    ensures var c' := Added(c, fragments, idr, last, frame, answer); Inv(c') && Stands(c', frame, last)
  {
    TakenKeeps(c, fragments, idr);
    if last {
      FinishedKeeps(Taken(c, fragments, idr), frame, answer);
      FinishedNext(Taken(c, fragments, idr), frame, answer);
    }
  }

  /** The frame is being put together, or is over and the next one expected. */
  predicate Stands(c: Control, frame: U32, over: bool) {
    c.decoding == !over && c.next == if over then Succ(frame) else frame
  }

  lemma FinishedNext(c: Control, frame: U32, answer: Answer)
    ensures Stands(Finished(c, frame, answer), frame, true)
  {}

  lemma ClosedKeeps(c: Control, s: Session, p: Packet, answer: Answer)
    requires Inv(c) && c.decoding && c.next == p.frame
    ensures Inv(Closed(c, s, p, answer)) <==> !(BadLength(c, s, p) && Endangered(c))
    ensures Stands(Closed(c, s, p, answer), p.frame, BadLength(c, s, p) || IsLast(p))
  {
    if BadLength(c, s, p) {
      GivenUpExact(c, p.frame);
    } else {
      var (fragments, idr) := Trimmed(c, s, p);
      SomeFragment(s, p);
      AddedKeeps(c, fragments, idr, IsLast(p), p.frame, answer);
    }
  }

  /** Where a packet that is not behind leaves the machine. */
  lemma PacketStands(c: Control, s: Session, p: Packet, answer: Answer) returns (over: bool)
    requires Inv(c) && s.version.AtLeast(7, 1, 350) && !Behind(c, p) && (Corrupt(c, p) || Framed(c, p))
    ensures Stands(AfterPacket(c, s, p, answer), p.frame, over) && (IsLast(p) ==> over)
  {
    over := true;
    if !Corrupt(c, p) {
      OpenedKeeps(c, s, p);
      ClosedKeeps(Opened(c, s, p), s, p, answer);
      over := BadLength(Opened(c, s, p), s, p) || IsLast(p);
    }
  }

  /** A packet of a whole frame keeps the invariant exactly when it does not lose such an IDR frame. */
  lemma PacketExact(c: Control, s: Session, p: Packet, answer: Answer)
    requires Inv(c) && s.version.AtLeast(7, 1, 350) && (Behind(c, p) || Corrupt(c, p) || Framed(c, p))
    ensures Inv(AfterPacket(c, s, p, answer)) <==> !Loses(c, s, p)
  {
    if !Behind(c, p) {
      if Corrupt(c, p) {
        GivenUpExact(c, p.frame);
      } else {
        OpenedKeeps(c, s, p);
        ClosedKeeps(Opened(c, s, p), s, p, answer);
      }
    }
  }

  // ----- whole frames

  /** All packets of one frame, from the first to the last. */
  predicate WholeFrame(packets: seq<Packet>) {
    packets != [] && IsFirst(packets[0]) && |packets[0].payload| >= 4 && RestOfFrame(packets, 1, packets[0].frame)
  }

  /** From index n on the packets are of the frame, none is a first one, and just the last is a last one. */
  predicate RestOfFrame(packets: seq<Packet>, n: nat, frame: U32) {
    && (forall i :: n <= i < |packets| ==> packets[i].frame == frame && !IsFirst(packets[i]))
    && (forall i :: n - 1 <= i < |packets| && 0 <= i ==> (IsLast(packets[i]) <==> i == |packets| - 1))
  }

  ghost function AfterPackets(c: Control, s: Session, packets: seq<Packet>, answer: Answer): Control
    decreases |packets|
  {
    if packets == [] then c else AfterPackets(AfterPacket(c, s, packets[0], answer), s, packets[1..], answer)
  }

  ghost predicate FrameLoses(c: Control, s: Session, packets: seq<Packet>, answer: Answer)
    decreases |packets|
  {
    packets != [] &&
    (Loses(c, s, packets[0]) || FrameLoses(AfterPacket(c, s, packets[0], answer), s, packets[1..], answer))
  }

  /** Where the machine is inside a frame: putting it together, or past it. */
  predicate InFrame(c: Control, frame: U32, over: bool) {
    if c.decoding then c.next == frame && !over else IsBefore32(frame, c.next)
  }

  lemma NextIsAhead(frame: U32)
    ensures IsBefore32(frame, Succ(frame)) && !IsBefore32(frame, frame)
  {}

  lemma FirstSteps(c: Control, s: Session, packets: seq<Packet>, answer: Answer)
    requires Inv(c) && !c.decoding && s.version.AtLeast(7, 1, 350) && WholeFrame(packets)
    ensures Behind(c, packets[0]) || Corrupt(c, packets[0]) || Framed(c, packets[0])
    ensures InFrame(AfterPacket(c, s, packets[0], answer), packets[0].frame, |packets| == 1)
  {
    NextIsAhead(packets[0].frame);
    if !Behind(c, packets[0]) {
      var over := PacketStands(c, s, packets[0], answer);
    }
  }

  lemma NextSteps(c: Control, s: Session, p: Packet, frame: U32, answer: Answer)
    requires Inv(c) && s.version.AtLeast(7, 1, 350) && InFrame(c, frame, false) && p.frame == frame && !IsFirst(p)
    ensures Behind(c, p) || Corrupt(c, p) || Framed(c, p)
    ensures InFrame(AfterPacket(c, s, p, answer), frame, IsLast(p))
  {
    NextIsAhead(frame);
    if !Behind(c, p) {
      var over := PacketStands(c, s, p, answer);
    }
  }

  lemma {:induction false} RestKeepsInv(c: Control, s: Session, packets: seq<Packet>, frame: U32, answer: Answer)
    requires Inv(c) && s.version.AtLeast(7, 1, 350) && RestOfFrame(packets, 0, frame)
    requires InFrame(c, frame, packets == []) && !FrameLoses(c, s, packets, answer)
    ensures Inv(AfterPackets(c, s, packets, answer)) && !AfterPackets(c, s, packets, answer).decoding
    decreases |packets|
  {
    if packets != [] {
      NextSteps(c, s, packets[0], frame, answer);
      PacketExact(c, s, packets[0], answer);
      RestKeepsInv(AfterPacket(c, s, packets[0], answer), s, packets[1..], frame, answer);
    }
  }

  /** A whole frame leads from one state between frames to the next. */
  lemma FrameKeeps(c: Control, s: Session, packets: seq<Packet>, answer: Answer)
    requires Inv(c) && !c.decoding && s.version.AtLeast(7, 1, 350) && WholeFrame(packets)
    requires !FrameLoses(c, s, packets, answer)
    ensures Inv(AfterPackets(c, s, packets, answer)) && !AfterPackets(c, s, packets, answer).decoding
  {
    FirstSteps(c, s, packets, answer);
    PacketExact(c, s, packets[0], answer);
    RestKeepsInv(AfterPacket(c, s, packets[0], answer), s, packets[1..], packets[0].frame, answer);
  }

  // ----- whole runs

  datatype Event = FrameIn(packets: seq<Packet>, answer: Answer) | FrameLost(frame: U32)

  ghost function AfterEvent(c: Control, s: Session, e: Event): Control {
    match e
    case FrameIn(packets, answer) => AfterPackets(c, s, packets, answer)
    case FrameLost(frame) => Lost(c, frame)
  }

  ghost function After(c: Control, s: Session, events: seq<Event>): Control
    decreases |events|
  {
    if events == [] then c else After(AfterEvent(c, s, events[0]), s, events[1..])
  }

  /** Whole frames, none of which is an IDR frame that is needed and gets lost half way. */
  ghost predicate Sound(c: Control, s: Session, events: seq<Event>)
    decreases |events|
  {
    events == [] || (SoundEvent(c, s, events[0]) && Sound(AfterEvent(c, s, events[0]), s, events[1..]))
  }

  ghost predicate SoundEvent(c: Control, s: Session, e: Event) {
    e.FrameIn? ==> WholeFrame(e.packets) && !FrameLoses(c, s, e.packets, e.answer)
  }

  lemma EventKeeps(c: Control, s: Session, e: Event)
    requires Inv(c) && !c.decoding && s.version.AtLeast(7, 1, 350) && SoundEvent(c, s, e)
    ensures Inv(AfterEvent(c, s, e)) && !AfterEvent(c, s, e).decoding
  {
    match e
    case FrameIn(packets, answer) => FrameKeeps(c, s, packets, answer);
    case FrameLost(frame) => LostKeeps(c, frame);
  }

  lemma {:induction false} RunKeeps(c: Control, s: Session, events: seq<Event>)
    requires Inv(c) && !c.decoding && s.version.AtLeast(7, 1, 350) && Sound(c, s, events)
    ensures Inv(After(c, s, events)) && !After(c, s, events).decoding
    decreases |events|
  {
    if events != [] {
      EventKeeps(c, s, events[0]);
      RunKeeps(AfterEvent(c, s, events[0]), s, events[1..]);
    }
  }

  /** In every such run from the start, what the decoder has got is in order. */
  lemma DecoderIsServed(strict: bool, s: Session, events: seq<Event>)
    requires s.version.AtLeast(7, 1, 350) && Sound(Initial(strict), s, events)
    ensures AllOk(After(Initial(strict), s, events).submitted)
  {
    RunKeeps(Initial(strict), s, events);
  }

  /** The packets of a frame, one after the other. */
  method FeedFrame(d: VideoDepacketizer, packets: seq<Packet>, answer: Answer)
    requires d.Valid()
    modifies d
    ensures d.Valid() && d.Ctl() == AfterPackets(old(d.Ctl()), d.session, packets, answer)
    decreases |packets|
  {
    if packets != [] {
      d.ProcessRtpPayload(packets[0], answer);
      FeedFrame(d, packets[1..], answer);
    }
  }

  method FeedEvent(d: VideoDepacketizer, e: Event)
    requires d.Valid() && (e.FrameLost? ==> !d.decodingFrame)
    modifies d
    ensures d.Valid() && d.Ctl() == AfterEvent(old(d.Ctl()), d.session, e)
  {
    match e
    case FrameIn(packets, answer) => FeedFrame(d, packets, answer);
    case FrameLost(frame) => d.NotifyFrameLost(frame);
  }

  /** The depacketizer in such a run. */
  method Serve(d: VideoDepacketizer, events: seq<Event>)
    requires d.Valid() && Inv(d.Ctl()) && !d.decodingFrame && d.session.version.AtLeast(7, 1, 350)
    requires Sound(d.Ctl(), d.session, events)
    modifies d
    ensures d.Valid() && d.Ctl() == After(old(d.Ctl()), d.session, events) && AllOk(d.submitted)
    decreases |events|
  {
    RunKeeps(d.Ctl(), d.session, events);
    if events != [] {
      EventKeeps(d.Ctl(), d.session, events[0]);
      FeedEvent(d, events[0]);
      Serve(d, events[1..]);
    }
  }

  /** Where every drop leads to a new wait for an IDR frame, no frame can be lost that way. */
  lemma {:induction false} StrictPackets(c: Control, s: Session, packets: seq<Packet>, answer: Answer)
    requires c.strict
    ensures !FrameLoses(c, s, packets, answer) && AfterPackets(c, s, packets, answer).strict
    decreases |packets|
  {
    if packets != [] {
      StrictPackets(AfterPacket(c, s, packets[0], answer), s, packets[1..], answer);
    }
  }

  lemma {:induction false} StrictIsSound(c: Control, s: Session, events: seq<Event>)
    requires c.strict && forall i :: 0 <= i < |events| && events[i].FrameIn? ==> WholeFrame(events[i].packets)
    ensures Sound(c, s, events)
    decreases |events|
  {
    if events != [] {
      if events[0].FrameIn? { StrictPackets(c, s, events[0].packets, events[0].answer); }
      StrictIsSound(AfterEvent(c, s, events[0]), s, events[1..]);
    }
  }

  // ----- the run that goes wrong

  const AV1 := Session(Other, Version(7, 1, 450))

  /** A packet with a frame header of the kind, and one byte of frame data. */
  function HeadPacket(frame: U32, flags: U8, index: U24, kind: Byte): Packet {
    Packet(frame, flags, 0, 0, index, [1, 0, 0, kind, 9, 0, 0, 0, 7])
  }

  const BYTE := Fragment([7], PicData, true)

  lemma HeadOpened(c: Control, frame: U32, flags: U8, index: U24, kind: Byte)
    requires flags == 6 || flags == 4
    ensures var p := HeadPacket(frame, flags, index, kind);
      && IsFirst(p) && (IsLast(p) <==> flags == 6)
      && Opened(c, AV1, p) == Headed(Begun(c, frame).(last := index), AV1, frame, p.payload).(lastLength := 9)
  {}

  lemma HeadClosed(c: Control, frame: U32, flags: U8, index: U24, kind: Byte, answer: Answer)
    requires (flags == 6 || flags == 4) && c.lastLength == 9
    ensures Closed(c, AV1, HeadPacket(frame, flags, index, kind), answer)
         == Added(c, [BYTE], false, flags == 6, frame, answer)
  {
    var p := HeadPacket(frame, flags, index, kind);
    assert p.payload[8..9] == [7];
    assert HeaderIn(AV1, p) == 8 && LengthIn(AV1, p) == 1;
  }

  lemma HeadPacketStep(c: Control, frame: U32, flags: U8, index: U24, kind: Byte, answer: Answer)
    requires (flags == 6 || flags == 4) && c.next == frame && !IsBefore24(index, Wrap24(c.last + 1))
    ensures AfterPacket(c, AV1, HeadPacket(frame, flags, index, kind), answer)
         == Added(Ready(c, frame, index, kind), [BYTE], false, flags == 6, frame, answer)
  {
    var p := HeadPacket(frame, flags, index, kind);
    HeadFits(c, frame, flags, index, kind);
    HeadOpened(c, frame, flags, index, kind);
    HeadClosed(Opened(c, AV1, p), frame, flags, index, kind, answer);
    TakenPacket(c, AV1, p, answer);
  }

  lemma HeadFits(c: Control, frame: U32, flags: U8, index: U24, kind: Byte)
    requires (flags == 6 || flags == 4) && c.next == frame && !IsBefore24(index, Wrap24(c.last + 1))
    ensures var p := HeadPacket(frame, flags, index, kind); !Behind(c, p) && !Corrupt(c, p)
  {
    NextIsAhead(frame);
  }

  lemma TakenPacket(c: Control, s: Session, p: Packet, answer: Answer)
    requires !Behind(c, p) && !Corrupt(c, p)
    ensures AfterPacket(c, s, p, answer) == Closed(Opened(c, s, p), s, p, answer)
  {}

  lemma AloneIsWhole(c: Control, s: Session, p: Packet, answer: Answer)
    requires IsFirst(p) && IsLast(p) && |p.payload| >= 4
    ensures WholeFrame([p]) && AfterPackets(c, s, [p], answer) == AfterPacket(c, s, p, answer)
  {
    assert [p][1..] == [];
    assert AfterPackets(AfterPacket(c, s, p, answer), s, [], answer) == AfterPacket(c, s, p, answer);
  }

  /** A frame of one packet. */
  lemma OnePacket(c: Control, frame: U32, index: U24, kind: Byte, answer: Answer)
    requires c.next == frame && !IsBefore24(index, Wrap24(c.last + 1))
    ensures WholeFrame([HeadPacket(frame, 6, index, kind)])
    ensures AfterPackets(c, AV1, [HeadPacket(frame, 6, index, kind)], answer)
         == Finished(Taken(Ready(c, frame, index, kind), [BYTE], false), frame, answer)
  {
    HeadPacketStep(c, frame, 6, index, kind, answer);
    HeadOpened(c, frame, 6, index, kind);
    AloneIsWhole(c, AV1, HeadPacket(frame, 6, index, kind), answer);
  }

  /** The frame has begun, and its header been read. */
  function Ready(c: Control, frame: U32, index: U24, kind: Byte): Control {
    Headed(Begun(c, frame).(last := index), AV1, frame, [1, 0, 0, kind, 9, 0, 0, 0, 7]).(lastLength := 9)
  }

  lemma ReadyIs(c: Control, frame: U32, index: U24, kind: Byte)
    requires c.next == frame
    ensures var r := Ready(c, frame, index, kind);
      && r.waitIdr == (c.waitIdr && kind != 2) && r.waitRfi == (c.waitRfi && kind != 2 && kind != 4 && kind != 5)
      && r.idr == (kind == 2) && r.decoding && r.next == frame && r.last == index
      && (r.strict, r.processed, r.drops, r.chain, r.submitted)
        == (c.strict, c.processed, c.drops, c.chain, c.submitted)
      && r.dropPending == c.dropPending
  {
    NextIsAhead(frame);
  }

  /** A frame that nothing holds back. */
  lemma PassedOn(c: Control, frame: U32, answer: Answer)
    requires !c.waitIdr && !c.waitRfi && !c.dropPending && c.chain == []
    ensures var c' := Finished(Taken(c, [BYTE], false), frame, answer);
      && c'.submitted == c.submitted + [Unit(frame, c.idr, c.freed, [BYTE], answer)]
      && c'.waitIdr == c'.dropPending == (answer == NeedIdr) && !c'.waitRfi && !c'.decoding && c'.chain == []
      && c'.processed == (c.processed || (answer == Ok && c.idr))
      && (c'.strict, c'.next, c'.last, c'.drops) == (c.strict, Succ(frame), c.last, 0)
  {
    assert [] + [BYTE] == [BYTE];
  }

  /** c is the machine after the frame e. */
  ghost predicate Leads(c0: Control, e: Event, c: Control) {
    e.FrameIn? && WholeFrame(e.packets) && c == AfterPackets(c0, AV1, e.packets, e.answer)
  }

  /** A frame of one packet that nothing holds back. */
  lemma Single(c0: Control, frame: U32, index: U24, kind: Byte, answer: Answer) returns (e: Event, c: Control)
    requires !c0.decoding && c0.next == frame && !IsBefore24(index, Wrap24(c0.last + 1)) && !c0.dropPending
    requires c0.chain == []
    requires (c0.waitIdr ==> kind == 2) && (c0.waitRfi ==> kind == 2 || kind == 4 || kind == 5)
    ensures Leads(c0, e, c)
    ensures |c.submitted| == |c0.submitted| + 1 && c.submitted[..|c0.submitted|] == c0.submitted
    ensures c.submitted[|c0.submitted|].idr == (kind == 2) && c.submitted[|c0.submitted|].answer == answer
    ensures c.waitIdr == c.dropPending == (answer == NeedIdr) && !c.waitRfi && !c.decoding && c.chain == []
    ensures c.processed == (c0.processed || (answer == Ok && kind == 2))
    ensures (c.strict, c.next, c.last, c.drops) == (c0.strict, Succ(frame), index, 0)
  {
    OnePacket(c0, frame, index, kind, answer);
    ReadyIs(c0, frame, index, kind);
    PassedOn(Ready(c0, frame, index, kind), frame, answer);
    e := FrameIn([HeadPacket(frame, 6, index, kind)], answer);
    c := AfterPackets(c0, AV1, e.packets, answer);
  }

  /** A needed IDR frame, given up. */
  lemma IdrGivenUp(c: Control, frame: U32)
    requires !c.waitIdr && !c.waitRfi && c.processed && !c.strict && c.drops == 0
    ensures var c' := GivenUp(c, frame);
      && !c'.waitIdr && c'.waitRfi && !c'.dropPending && !c'.decoding && c'.chain == []
      && (c'.next, c'.last, c'.submitted) == (Succ(frame), c.last, c.submitted)
  {}

  lemma HalfFrame(c2: Control, half: Packet) returns (c: Control)
    requires c2.next == 3 && c2.last == 1 && !c2.decoding && half == HeadPacket(3, 4, 2, 2)
    ensures c == AfterPacket(c2, AV1, half, Ok) == Taken(Ready(c2, 3, 2, 2), [BYTE], false)
    ensures IsFirst(half) && !IsLast(half) && half.frame == 3 && |half.payload| >= 4
  {
    HeadPacketStep(c2, 3, 4, 2, 2, Ok);
    HeadOpened(c2, 3, 4, 2, 2);
    c := AfterPacket(c2, AV1, half, Ok);
  }

  /** The other half, with a number that does not follow. */
  lemma OtherHalf(c: Control, rest: Packet)
    requires c.next == 3 && c.last == 2 && rest == Packet(3, 2, 0, 0, 9, [7])
    ensures AfterPacket(c, AV1, rest, Ok) == GivenUp(c, 3) && !IsFirst(rest) && IsLast(rest) && rest.frame == 3
  {
    NextIsAhead(3);
  }

  lemma TwoPackets(c: Control, half: Packet, rest: Packet)
    requires IsFirst(half) && !IsLast(half) && |half.payload| >= 4 && !IsFirst(rest) && IsLast(rest)
    requires rest.frame == half.frame
    ensures WholeFrame([half, rest])
    ensures AfterPackets(c, AV1, [half, rest], Ok) == AfterPacket(AfterPacket(c, AV1, half, Ok), AV1, rest, Ok)
  {
    assert [half, rest][1..] == [rest] && [rest][1..] == [];
    var c1 := AfterPacket(c, AV1, half, Ok);
    assert AfterPackets(c1, AV1, [rest], Ok) == AfterPacket(c1, AV1, rest, Ok);
  }

  /** Half of an IDR frame. */
  lemma FrameThree(c2: Control) returns (e: Event, c: Control)
    requires c2.waitIdr && !c2.waitRfi && c2.processed && !c2.strict && !c2.decoding && c2.drops == 0
    requires c2.next == 3 && c2.last == 1
    ensures Leads(c2, e, c)
    ensures !c.waitIdr && c.waitRfi && !c.dropPending && !c.decoding && c.next == 4 && c.last == 2 && c.chain == []
    ensures c.submitted == c2.submitted
  {
    var half, rest := HeadPacket(3, 4, 2, 2), Packet(3, 2, 0, 0, 9, [7]);
    var c1 := HalfFrame(c2, half);
    ReadyIs(c2, 3, 2, 2);
    OtherHalf(c1, rest);
    IdrGivenUp(c1, 3);
    TwoPackets(c2, half, rest);
    e := FrameIn([half, rest], Ok);
    c := AfterPackets(c2, AV1, e.packets, Ok);
  }

  /** Whole frames, after which the decoder has got something that it cannot use. */
  ghost predicate GoesWrong(s: Session, events: seq<Event>) {
    && (forall i :: 0 <= i < |events| ==> events[i].FrameIn? && WholeFrame(events[i].packets))
    && !AllOk(After(Initial(false), s, events).submitted)
  }

  /** The decoder asks for an IDR frame; half of one comes, and the rest of it does not fit on. The machine then
      settles for an invalidation, and passes on a frame that the decoder cannot use. */
  lemma NeededIdrLost()
    ensures exists events :: GoesWrong(AV1, events)
  {
    var c0 := Initial(false);
    var e1, c1 := Single(c0, 1, 0, 2, Ok);
    var e2, c2 := Single(c1, 2, 1, 1, NeedIdr);
    var e3, c3 := FrameThree(c2);
    var e4, c4 := Single(c3, 4, 10, 5, Ok);
    SecondRefused(c4.submitted);
    RunOf(c0, c1, c2, c3, c4, e1, e2, e3, e4);
  }

  lemma SecondRefused(units: seq<Unit>)
    requires |units| == 3 && units[1].answer == NeedIdr && !units[2].idr
    ensures !AllOk(units)
  {
    assert units[..2][1] == units[1];
    assert !UnitOk(units, 2);
  }

  lemma RunOf(c0: Control, c1: Control, c2: Control, c3: Control, c4: Control, e1: Event, e2: Event, e3: Event,
              e4: Event)
    requires Leads(c0, e1, c1) && Leads(c1, e2, c2) && Leads(c2, e3, c3) && Leads(c3, e4, c4)
    requires c0 == Initial(false) && !AllOk(c4.submitted)
    ensures GoesWrong(AV1, [e1, e2, e3, e4])
  {
    assert [e1, e2, e3, e4][1..] == [e2, e3, e4] && [e2, e3, e4][1..] == [e3, e4] && [e3, e4][1..] == [e4] &&
      [e4][1..] == [];
    assert After(c3, AV1, [e4]) == c4;
    assert After(c2, AV1, [e3, e4]) == c4;
    assert After(c1, AV1, [e2, e3, e4]) == c4;
  }
}
