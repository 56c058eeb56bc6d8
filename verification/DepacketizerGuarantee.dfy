/** When the guarantee to the decoder holds: exactly while no IDR frame is lost that the decoder needs, and so
    in all runs of frames whose packets fit together. */
module DepacketizerGuarantee {
  import opened Gf256
  import opened SequenceNumbers
  import opened AnnexB
  import opened DepacketizerControl
  import opened Depacketizer
  import opened DepacketizerRuns

  // ----- after a loss the guarantee does not survive

  /** The machine waits for an invalidation only, and the decoder has no IDR frame to go by. */
  ghost predicate Misled(c: Control) {
    !c.decoding && !c.waitIdr && c.waitRfi && !c.dropPending && c.chain == [] && !Fresh(c.submitted)
  }

  lemma EndangeredMisleads(c: Control, frame: U32)
    requires Endangered(c)
    ensures Misled(GivenUp(c, frame)) && GivenUp(c, frame).next == Succ(frame)
    ensures GivenUp(c, frame).submitted == c.submitted
  {}

  lemma BegunSubmitted(c: Control, frame: U32)
    ensures Begun(c, frame).submitted == c.submitted
  {}

  lemma HeadedSubmitted(c: Control, s: Session, frame: U32, payload: seq<Byte>)
    ensures Headed(c, s, frame, payload).submitted == c.submitted
  {}

  lemma OpenedSubmitted(c: Control, s: Session, p: Packet)
    ensures Opened(c, s, p).submitted == c.submitted
  {
    if IsFirst(p) {
      BegunSubmitted(c, p.frame);
      HeadedSubmitted(Begun(c, p.frame).(last := p.index), s, p.frame, p.payload);
    }
  }

  lemma LossMisleads(c: Control, s: Session, p: Packet, answer: Answer)
    requires Loses(c, s, p)
    ensures Misled(AfterPacket(c, s, p, answer)) && AfterPacket(c, s, p, answer).next == Succ(p.frame)
    ensures AfterPacket(c, s, p, answer).submitted == c.submitted
  {
    EndangeredMisleads(if Corrupt(c, p) then c else Opened(c, s, p), p.frame);
    OpenedSubmitted(c, s, p);
  }

  /** A frame of one packet, whatever the codec, whose header ends the wait for an invalidation. */
  function Claim(c: Control): Packet {
    Packet(c.next, 6, 0, 0, Wrap24(c.last + 1), CLAIM)
  }

  const CLAIM: seq<Byte> := [1, 0, 0, 5, 9, 0, 0, 0, 0, 0, 1, 1, 7]

  /** The state when the payload of the claim is taken. */
  function Claimed(c: Control, s: Session): Control {
    c.(waitRfi := false, waitSuccess := false, freed := true, decoding := true, idr := false,
       last := Wrap24(c.last + 1), lastLength := if s.codec == Other then 9 else c.lastLength)
  }

  lemma ClaimOpened(c: Control, s: Session)
    requires s.version.AtLeast(7, 1, 350) && c.waitRfi
    ensures var p := Claim(c);
      && IsFirst(p) && IsLast(p) && !Behind(c, p) && !Corrupt(c, p) && Opened(c, s, p) == Claimed(c, s)
  {
    NextIsAhead(c.next);
  }

  const TAKEN := Fragment(CLAIM[8..], PicData, true)

  lemma ClaimFragments(s: Session)
    requires s.version.AtLeast(7, 1, 350)
    ensures s.codec != Other ==> FirstFragments(s, CLAIM) == ([TAKEN], false)
  {
    assert |CLAIM| == 13 && CLAIM[8] == 0 && CLAIM[9] == 0 && CLAIM[10] == 1 && CLAIM[11] == 1;
    assert DataStart(s.version, CLAIM) == 8;
    assert StartLength(CLAIM, 8, 13) == 3;
    assert NalAt(s.codec, CLAIM, 8, 13) == OtherNal;
    assert StreamStart(s.codec, CLAIM, 8) == 8;
    assert CLAIM[8..13] == CLAIM[8..];
    assert WithoutPps(s.codec, CLAIM, 8) == TAKEN;
  }

  lemma ClaimClosed(c: Control, s: Session, answer: Answer)
    requires s.version.AtLeast(7, 1, 350) && c.waitRfi
    ensures exists f: Fragment ::
      f.kind == PicData && Closed(Claimed(c, s), s, Claim(c), answer)
        == Finished(Taken(Claimed(c, s), [f], false), c.next, answer)
  {
    var c1, p := Claimed(c, s), Claim(c);
    ClaimFragments(s);
    ClaimOpened(c, s);
    var f := if s.codec == Other then FragmentOf(Other, CLAIM, 8, 9, true) else TAKEN;
    assert HeaderIn(s, p) == 8 && LengthIn(s, p) == 5;
    assert Trimmed(c1, s, p) == ([f], false);
    assert Closed(c1, s, p, answer) == Finished(Taken(c1, [f], false), c.next, answer);
  }

  /** The decoder is given what it cannot use. */
  lemma ClaimPassed(c: Control, s: Session, f: Fragment, answer: Answer)
    requires Misled(c) && f.kind == PicData
    ensures var c' := Finished(Taken(Claimed(c, s), [f], false), c.next, answer);
      c'.submitted == c.submitted + [Unit(c.next, false, true, [f], answer)]
  {
    assert [] + [f] == [f];
  }

  lemma UselessUnit(units: seq<Unit>, u: Unit)
    requires !u.idr && !Fresh(units)
    ensures !AllOk(units + [u])
  {
    assert (units + [u])[..|units|] == units;
    assert !UnitOk(units + [u], |units|);
  }

  lemma MisledFails(c: Control, s: Session)
    requires Misled(c) && s.version.AtLeast(7, 1, 350)
    ensures WholeFrame([Claim(c)]) && !AllOk(AfterPackets(c, s, [Claim(c)], Ok).submitted)
  {
    ClaimOpened(c, s);
    ClaimClosed(c, s, Ok);
    var f: Fragment :| f.kind == PicData && Closed(Claimed(c, s), s, Claim(c), Ok)
      == Finished(Taken(Claimed(c, s), [f], false), c.next, Ok);
    ClaimPassed(c, s, f, Ok);
    UselessUnit(c.submitted, Unit(c.next, false, true, [f], Ok));
    AloneIsWhole(c, s, Claim(c), Ok);
  }

  /** After every packet that loses a needed IDR frame some whole frame reaches the decoder that it cannot use. */
  lemma LossIsFatal(c: Control, s: Session, p: Packet, answer: Answer)
    requires s.version.AtLeast(7, 1, 350) && Loses(c, s, p)
    ensures !AfterPacket(c, s, p, answer).decoding && !Guaranteed(AfterPacket(c, s, p, answer), s)
  {
    LossMisleads(c, s, p, answer);
    MisledIsFatal(AfterPacket(c, s, p, answer), s);
  }

  lemma MisledIsFatal(c: Control, s: Session)
    requires Misled(c) && s.version.AtLeast(7, 1, 350)
    ensures !Guaranteed(c, s)
  {
    MisledFails(c, s);
    assert NextFrame(c, [Claim(c)]);
  }

  // ----- without a loss it does

  /** What may come next: the rest of the frame that is being put together, or a whole frame. */
  predicate NextFrame(c: Control, packets: seq<Packet>) {
    if c.decoding then packets != [] && RestOfFrame(packets, 0, c.next) else WholeFrame(packets)
  }

  /** Whatever comes up to the end of the next frame, all that the decoder has got is in order. */
  ghost predicate Guaranteed(c: Control, s: Session) {
    forall packets, answer :: NextFrame(c, packets) ==> AllOk(AfterPackets(c, s, packets, answer).submitted)
  }

  lemma {:induction false} BehindChangesNothing(c: Control, s: Session, packets: seq<Packet>, answer: Answer)
    requires forall i :: 0 <= i < |packets| ==> Behind(c, packets[i])
    ensures AfterPackets(c, s, packets, answer) == c
    decreases |packets|
  {
    if packets != [] { BehindChangesNothing(c, s, packets[1..], answer); }
  }

  /** Once a frame is lost, the rest of its packets are behind. */
  lemma LostRest(c: Control, s: Session, packets: seq<Packet>, frame: U32, answer: Answer)
    requires packets != [] && RestOfFrame(packets, 1, frame) && packets[0].frame == frame && Loses(c, s, packets[0])
    ensures AfterPackets(c, s, packets, answer) == AfterPacket(c, s, packets[0], answer)
  {
    LossMisleads(c, s, packets[0], answer);
    NextIsAhead(frame);
    BehindChangesNothing(AfterPacket(c, s, packets[0], answer), s, packets[1..], answer);
  }

  lemma {:induction false} RestAllOk(c: Control, s: Session, packets: seq<Packet>, frame: U32, answer: Answer)
    requires Inv(c) && s.version.AtLeast(7, 1, 350) && RestOfFrame(packets, 0, frame)
    requires InFrame(c, frame, packets == [])
    ensures AllOk(AfterPackets(c, s, packets, answer).submitted)
    decreases |packets|
  {
    if packets != [] {
      if Loses(c, s, packets[0]) {
        LostRest(c, s, packets, frame, answer);
        LossMisleads(c, s, packets[0], answer);
      } else {
        NextSteps(c, s, packets[0], frame, answer);
        PacketExact(c, s, packets[0], answer);
        RestAllOk(AfterPacket(c, s, packets[0], answer), s, packets[1..], frame, answer);
      }
    }
  }

  lemma WholeAllOk(c: Control, s: Session, packets: seq<Packet>, answer: Answer)
    requires Inv(c) && !c.decoding && s.version.AtLeast(7, 1, 350) && WholeFrame(packets)
    ensures AllOk(AfterPackets(c, s, packets, answer).submitted)
  {
    if Loses(c, s, packets[0]) {
      LostRest(c, s, packets, packets[0].frame, answer);
      LossMisleads(c, s, packets[0], answer);
    } else {
      FirstSteps(c, s, packets, answer);
      PacketExact(c, s, packets[0], answer);
      RestAllOk(AfterPacket(c, s, packets[0], answer), s, packets[1..], packets[0].frame, answer);
    }
  }

  lemma InvGuarantees(c: Control, s: Session)
    requires Inv(c) && s.version.AtLeast(7, 1, 350)
    ensures Guaranteed(c, s)
  {
    forall packets, answer | NextFrame(c, packets)
      ensures AllOk(AfterPackets(c, s, packets, answer).submitted)
    {
      if c.decoding { RestAllOk(c, s, packets, c.next, answer); } else { WholeAllOk(c, s, packets, answer); }
    }
  }

  /** The guarantee outlives a packet exactly if the packet loses no IDR frame that is needed. */
  lemma GuaranteeExact(c: Control, s: Session, p: Packet, answer: Answer)
    requires Inv(c) && s.version.AtLeast(7, 1, 350) && (Behind(c, p) || Corrupt(c, p) || Framed(c, p))
    ensures Guaranteed(AfterPacket(c, s, p, answer), s) <==> !Loses(c, s, p)
  {
    if Loses(c, s, p) {
      LossIsFatal(c, s, p, answer);
    } else {
      PacketExact(c, s, p, answer);
      InvGuarantees(AfterPacket(c, s, p, answer), s);
    }
  }

  // ----- whole runs

  lemma {:induction false} FrameLossMisleads(c: Control, s: Session, packets: seq<Packet>, frame: U32, answer: Answer)
    requires packets != [] && RestOfFrame(packets, 1, frame) && packets[0].frame == frame
    requires FrameLoses(c, s, packets, answer)
    ensures Misled(AfterPackets(c, s, packets, answer))
    decreases |packets|
  {
    if Loses(c, s, packets[0]) {
      LossMisleads(c, s, packets[0], answer);
      LostRest(c, s, packets, frame, answer);
    } else {
      FrameLossMisleads(AfterPacket(c, s, packets[0], answer), s, packets[1..], frame, answer);
    }
  }

  /** The guarantee holds at the start and after every event. */
  ghost predicate Lasting(c: Control, s: Session, events: seq<Event>) {
    forall k :: 0 <= k <= |events| ==> Guaranteed(After(c, s, events[..k]), s)
  }

  lemma LastingStep(c: Control, s: Session, events: seq<Event>)
    requires events != []
    ensures Lasting(c, s, events) <==> Guaranteed(c, s) && Lasting(AfterEvent(c, s, events[0]), s, events[1..])
  {
    var c1, rest := AfterEvent(c, s, events[0]), events[1..];
    assert After(c, s, events[..0]) == c;
    forall k | 0 <= k < |events|
      ensures After(c, s, events[..k + 1]) == After(c1, s, rest[..k])
    {
      assert events[..k + 1][1..] == rest[..k];
    }
    if Lasting(c, s, events) {
      forall k | 0 <= k <= |rest|
        ensures Guaranteed(After(c1, s, rest[..k]), s)
      {
        assert Guaranteed(After(c, s, events[..k + 1]), s);
      }
    }
    if Guaranteed(c, s) && Lasting(c1, s, rest) {
      forall k | 0 <= k <= |events|
        ensures Guaranteed(After(c, s, events[..k]), s)
      {
        if k > 0 { assert Guaranteed(After(c1, s, rest[..k - 1]), s); }
      }
    }
  }

  ghost predicate WholeFrames(events: seq<Event>) {
    forall i :: 0 <= i < |events| && events[i].FrameIn? ==> WholeFrame(events[i].packets)
  }

  /** In a run of whole frames and reported losses the guarantee lasts exactly if no needed IDR frame is lost. */
  lemma {:induction false} RunExact(c: Control, s: Session, events: seq<Event>)
    requires Inv(c) && !c.decoding && s.version.AtLeast(7, 1, 350) && WholeFrames(events)
    ensures Lasting(c, s, events) <==> Sound(c, s, events)
    decreases |events|
  {
    InvGuarantees(c, s);
    if events == [] {
      assert After(c, s, events[..0]) == c;
    } else {
      LastingStep(c, s, events);
      var c1, rest := AfterEvent(c, s, events[0]), events[1..];
      if SoundEvent(c, s, events[0]) {
        EventKeeps(c, s, events[0]);
        RunExact(c1, s, rest);
      } else {
        FrameLossMisleads(c, s, events[0].packets, events[0].packets[0].frame, events[0].answer);
        MisledIsFatal(c1, s);
        assert After(c1, s, rest[..0]) == c1;
      }
    }
  }

  // ----- frames whose packets fit together

  /** The length of its last packet that the header of the frame gives. */
  function GivenLength(p: Packet): nat
    requires |p.payload| >= 6
  {
    (p.payload[4] as int) + (p.payload[5] as int) * 0x100
  }

  /** The packets are numbered one after the other, and the length in the header fits the last packet. */
  predicate Tidy(s: Session, packets: seq<Packet>) {
    && WholeFrame(packets) && Numbered(packets)
    && (s.codec == Other ==> |packets[0].payload| >= 6 && LengthFits(s, packets, GivenLength(packets[0])))
  }

  predicate Numbered(packets: seq<Packet>) {
    forall i :: 0 < i < |packets| ==> packets[i].index == Wrap24(packets[i - 1].index + 1)
  }

  predicate LengthFits(s: Session, packets: seq<Packet>, length: nat)
    requires packets != []
  {
    var p := packets[|packets| - 1];
    HeaderIn(s, p) < length <= HeaderIn(s, p) + LengthIn(s, p)
  }

  /** Inside the frame: the next packet is the one that fits on, and the length given for the last one is right. */
  predicate Fitting(c: Control, s: Session, packets: seq<Packet>, frame: U32) {
    && c.decoding && c.next == frame && RestOfFrame(packets, 0, frame) && Numbered(packets)
    && (packets != [] ==> packets[0].index == Wrap24(c.last + 1))
    && (packets != [] && s.codec == Other ==> LengthFits(s, packets, c.lastLength))
  }

  lemma SameIsNotBefore(x: U24)
    ensures !IsBefore24(x, x)
  {}

  lemma FittingOpens(c: Control, s: Session, packets: seq<Packet>, frame: U32)
    requires packets != [] && Fitting(c, s, packets, frame)
    ensures var p := packets[0];
      && !Behind(c, p) && !Corrupt(c, p) && Opened(c, s, p) == c.(last := p.index) && !BadLength(Opened(c, s, p), s, p)
  {
    NextIsAhead(frame);
    SameIsNotBefore(packets[0].index);
  }

  /** A packet in the middle of its frame. */
  lemma MiddleStep(c: Control, s: Session, p: Packet, answer: Answer)
    requires !Behind(c, p) && !Corrupt(c, p) && Opened(c, s, p) == c.(last := p.index) && !IsFirst(p) && !IsLast(p)
    ensures AfterPacket(c, s, p, answer) == Taken(c.(last := p.index), FragmentsOf(s, p).0, false)
  {}

  lemma FittingGoesOn(c: Control, s: Session, packets: seq<Packet>, frame: U32, fragments: seq<Fragment>)
    requires |packets| > 1 && Fitting(c, s, packets, frame)
    ensures Fitting(Taken(c.(last := packets[0].index), fragments, false), s, packets[1..], frame)
  {}

  lemma FittingStep(c: Control, s: Session, packets: seq<Packet>, frame: U32, answer: Answer)
    requires |packets| > 1 && Fitting(c, s, packets, frame)
    ensures AfterPacket(c, s, packets[0], answer)
         == Taken(c.(last := packets[0].index), FragmentsOf(s, packets[0]).0, false)
    ensures Fitting(AfterPacket(c, s, packets[0], answer), s, packets[1..], frame)
  {
    FittingOpens(c, s, packets, frame);
    MiddleStep(c, s, packets[0], answer);
    FittingGoesOn(c, s, packets, frame, FragmentsOf(s, packets[0]).0);
  }

  lemma {:induction false} FittingNeverLoses(c: Control, s: Session, packets: seq<Packet>, frame: U32, answer: Answer)
    requires packets != [] && Fitting(c, s, packets, frame)
    ensures !FrameLoses(c, s, packets, answer)
    decreases |packets|
  {
    FittingOpens(c, s, packets, frame);
    if |packets| > 1 {
      FittingStep(c, s, packets, frame, answer);
      FittingNeverLoses(AfterPacket(c, s, packets[0], answer), s, packets[1..], frame, answer);
    }
  }

  /** After the first packet of such a frame. */
  lemma FirstOpened(c: Control, s: Session, p: Packet)
    requires !Behind(c, p) && IsFirst(p) && p.payload != []
    ensures var r := Opened(c, s, p);
      && r.decoding && r.next == p.frame && r.last == p.index
      && (s.codec == Other && |p.payload| >= 6 ==> r.lastLength == GivenLength(p))
  {
    BegunAt(c, p.frame);
    HeadedAt(Begun(c, p.frame).(last := p.index), s, p.frame, p.payload);
  }

  lemma BegunAt(c: Control, frame: U32)
    requires !IsBefore32(frame, c.next)
    ensures Begun(c, frame).decoding && Begun(c, frame).next == frame
  {
    NotBehindNotAhead(frame, c.next);
  }

  /** Where the machine stands in the stream. */
  predicate SamePlace(c: Control, r: Control) {
    r.decoding == c.decoding && r.next == c.next && r.last == c.last
  }

  lemma FreedAt(c: Control, byHeader: bool)
    ensures SamePlace(c, Freed(c, byHeader))
  {}

  lemma HeadedOldAt(c: Control, s: Session, frame: U32, payload: seq<Byte>)
    requires !(s.version.AtLeast(7, 1, 350) && |payload| >= 4)
    ensures SamePlace(c, Headed(c, s, frame, payload))
  {
    FreedAt(c.(asked := c.asked + [Invalidate(c.start, Wrap32(frame - 1))]), false);
  }

  lemma HeadedNewAt(c: Control, s: Session, frame: U32, payload: seq<Byte>)
    requires s.version.AtLeast(7, 1, 350) && |payload| >= 4
    ensures SamePlace(c, Headed(c, s, frame, payload))
  {
    var c1 := if payload[3] == 2 && s.codec == Other then Announced(c) else c;
    assert SamePlace(c, c1);
    FreedAt(c1, true);
  }

  lemma HeadedAt(c: Control, s: Session, frame: U32, payload: seq<Byte>)
    ensures SamePlace(c, Headed(c, s, frame, payload))
  {
    if s.version.AtLeast(7, 1, 350) && |payload| >= 4 {
      HeadedNewAt(c, s, frame, payload);
    } else {
      HeadedOldAt(c, s, frame, payload);
    }
  }

  lemma TidyLength(c: Control, s: Session, packets: seq<Packet>)
    requires Tidy(s, packets) && !Behind(c, packets[0])
    ensures !BadLength(Opened(c, s, packets[0]), s, packets[0])
  {
    FirstOpened(c, s, packets[0]);
  }

  lemma FirstStep(c: Control, s: Session, p: Packet, answer: Answer)
    requires !Behind(c, p) && !Corrupt(c, p) && IsFirst(p) && !IsLast(p)
    ensures AfterPacket(c, s, p, answer) == Taken(Opened(c, s, p), FragmentsOf(s, p).0, FragmentsOf(s, p).1)
  {}

  lemma TidyGoesOn(c: Control, s: Session, packets: seq<Packet>, fragments: seq<Fragment>, idr: bool)
    requires Tidy(s, packets) && |packets| > 1 && !Behind(c, packets[0])
    ensures Fitting(Taken(Opened(c, s, packets[0]), fragments, idr), s, packets[1..], packets[0].frame)
  {
    FirstOpened(c, s, packets[0]);
    TakenAt(Opened(c, s, packets[0]), fragments, idr);
  }

  lemma TakenAt(c: Control, fragments: seq<Fragment>, idr: bool)
    ensures var r := Taken(c, fragments, idr);
      (r.decoding, r.next, r.last, r.lastLength) == (c.decoding, c.next, c.last, c.lastLength)
  {}

  /** Between frames, no such frame is lost half way, whatever state the machine is in. */
  lemma TidyNeverLoses(c: Control, s: Session, packets: seq<Packet>, answer: Answer)
    requires !c.decoding && Tidy(s, packets)
    ensures !FrameLoses(c, s, packets, answer)
  {
    var p := packets[0];
    if Behind(c, p) {
      BehindChangesNothing(c, s, packets, answer);
      BehindNeverLoses(c, s, packets, answer);
    } else if Corrupt(c, p) {
      CorruptFirst(c, s, packets, answer);
    } else {
      TidyLength(c, s, packets);
      if |packets| > 1 {
        FirstStep(c, s, p, answer);
        TidyGoesOn(c, s, packets, FragmentsOf(s, p).0, FragmentsOf(s, p).1);
        FittingNeverLoses(AfterPacket(c, s, p, answer), s, packets[1..], p.frame, answer);
      }
    }
  }

  lemma {:induction false} BehindNeverLoses(c: Control, s: Session, packets: seq<Packet>, answer: Answer)
    requires forall i :: 0 <= i < |packets| ==> Behind(c, packets[i])
    ensures !FrameLoses(c, s, packets, answer)
    decreases |packets|
  {
    if packets != [] { BehindNeverLoses(c, s, packets[1..], answer); }
  }

  lemma CorruptFirst(c: Control, s: Session, packets: seq<Packet>, answer: Answer)
    requires WholeFrame(packets) && !Behind(c, packets[0]) && Corrupt(c, packets[0]) && !c.decoding
    ensures !FrameLoses(c, s, packets, answer)
    ensures AfterPackets(c, s, packets, answer) == GivenUp(c, packets[0].frame)
  {
    NextIsAhead(packets[0].frame);
    BehindNeverLoses(AfterPacket(c, s, packets[0], answer), s, packets[1..], answer);
    BehindChangesNothing(AfterPacket(c, s, packets[0], answer), s, packets[1..], answer);
  }

  ghost predicate TidyFrames(s: Session, events: seq<Event>) {
    forall i :: 0 <= i < |events| && events[i].FrameIn? ==> Tidy(s, events[i].packets)
  }

  /** Runs of such frames and of reported losses lose no IDR frame that is needed. */
  lemma {:induction false} TidyIsSound(c: Control, s: Session, events: seq<Event>)
    requires Inv(c) && !c.decoding && s.version.AtLeast(7, 1, 350) && TidyFrames(s, events)
    ensures Sound(c, s, events)
    decreases |events|
  {
    if events != [] {
      if events[0].FrameIn? { TidyNeverLoses(c, s, events[0].packets, events[0].answer); }
      EventKeeps(c, s, events[0]);
      TidyIsSound(AfterEvent(c, s, events[0]), s, events[1..]);
    }
  }

  /** In every run of such frames from the start, what the decoder has got is in order, with invalidation or
      without. */
  lemma TidyIsServed(strict: bool, s: Session, events: seq<Event>)
    requires s.version.AtLeast(7, 1, 350) && TidyFrames(s, events)
    ensures AllOk(After(Initial(strict), s, events).submitted)
  {
    TidyIsSound(Initial(strict), s, events);
    DecoderIsServed(strict, s, events);
  }

  /** The depacketizer in such a run. */
  method ServeTidy(s: Session, strict: bool, events: seq<Event>) returns (d: VideoDepacketizer)
    requires s.version.AtLeast(7, 1, 350) && TidyFrames(s, events)
    ensures d.Valid() && d.Ctl() == After(Initial(strict), s, events) && AllOk(d.submitted)
  {
    d := new VideoDepacketizer(s, strict);
    TidyIsSound(Initial(strict), s, events);
    Serve(d, events);
  }
}
