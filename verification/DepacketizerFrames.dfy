/** What becomes of a frame whose packets fit together: exactly when it is passed on, and with which bytes. */
module DepacketizerFrames {
  import opened Gf256
  import opened SequenceNumbers
  import opened AnnexB
  import opened DepacketizerControl
  import opened DepacketizerRuns
  import opened DepacketizerGuarantee

  // ----- when a frame is passed on

  /** The frame that begins with the packet is an IDR frame: by its header, or by an IDR slice for the codecs
      that are looked into. */
  ghost predicate IsIdrFrame(s: Session, p: Packet)
    requires |p.payload| >= 4
  {
    if s.codec == Other then p.payload[3] == 2 else FragmentsOf(s, p).1
  }

  /** The header says that the frame can be decoded in spite of lost ones. */
  predicate EndsWait(p: Packet)
    requires |p.payload| >= 4
  {
    p.payload[3] == 2 || p.payload[3] == 4 || p.payload[3] == 5
  }

  /** Only an IDR frame will do. A gap before the frame brings that about if invalidation cannot be used, or with
      the drop that reaches the limit. */
  predicate NeedsIdr(c: Control, frame: U32) {
    c.waitIdr || (frame != c.next && (c.strict || !c.processed || c.drops + 1 == CONSECUTIVE_DROP_LIMIT))
  }

  /** Only a frame whose header ends the wait will do. */
  predicate NeedsInvalidation(c: Control, frame: U32) {
    c.waitRfi || (frame != c.next && !c.strict && c.processed && !c.waitIdr)
  }

  /** The frame that begins with the packet is passed on. */
  ghost predicate Passes(c: Control, s: Session, p: Packet)
    requires |p.payload| >= 4
  {
    || IsIdrFrame(s, p)
    || (!NeedsIdr(c, p.frame) && (NeedsInvalidation(c, p.frame) ==> EndsWait(p))
        && (c.dropPending ==> p.frame != c.next))
  }

  // ----- the bytes of a frame

  /** What the last packet leaves, cut to the length given for codecs that are not looked into. */
  ghost function LastFragments(s: Session, p: Packet, length: nat): seq<Fragment>
    requires s.codec == Other ==> HeaderIn(s, p) < length <= HeaderIn(s, p) + LengthIn(s, p)
  {
    if s.codec == Other then
      var at := |p.payload| - LengthIn(s, p);
      [FragmentOf(s.codec, p.payload, at, at + length - HeaderIn(s, p), true)]
    else FragmentsOf(s, p).0
  }

  /** All fragments of the packets, in order. */
  ghost function Gathered(s: Session, packets: seq<Packet>, length: nat): seq<Fragment>
    requires packets != [] && (s.codec == Other ==> LengthFits(s, packets, length))
    decreases |packets|
  {
    if |packets| == 1 then LastFragments(s, packets[0], length)
    else FragmentsOf(s, packets[0]).0 + Gathered(s, packets[1..], length)
  }

  function HeaderLength(s: Session, packets: seq<Packet>): nat
    requires packets != [] && (s.codec == Other ==> |packets[0].payload| >= 6)
  {
    if s.codec == Other then GivenLength(packets[0]) else 0
  }

  // ----- through the packets

  function With(c: Control, last: nat, chain: seq<Fragment>): Control {
    c.(last := last, chain := chain)
  }

  lemma TakenIsWith(c: Control, last: nat, fragments: seq<Fragment>)
    ensures Taken(c.(last := last), fragments, false) == With(c, last, c.chain + fragments)
  {}

  predicate Fits(s: Session, p: Packet, length: nat) {
    s.codec == Other ==> HeaderIn(s, p) < length <= HeaderIn(s, p) + LengthIn(s, p)
  }

  lemma TrimmedLast(c: Control, s: Session, p: Packet)
    requires IsLast(p) && Fits(s, p, c.lastLength)
    ensures !BadLength(c, s, p)
    ensures Trimmed(c, s, p) == (LastFragments(s, p, c.lastLength), s.codec != Other && FragmentsOf(s, p).1)
  {}

  lemma LastClosed(c: Control, s: Session, p: Packet, answer: Answer)
    requires IsLast(p) && Fits(s, p, c.lastLength)
    ensures Closed(c, s, p, answer)
         == Finished(Taken(c, LastFragments(s, p, c.lastLength), s.codec != Other && FragmentsOf(s, p).1), p.frame,
                     answer)
  {
    TrimmedLast(c, s, p);
  }

  lemma LastStep(c: Control, s: Session, p: Packet, answer: Answer)
    requires !Behind(c, p) && !Corrupt(c, p) && IsLast(p) && Fits(s, p, Opened(c, s, p).lastLength)
    ensures var c1 := Opened(c, s, p);
      AfterPacket(c, s, p, answer)
        == Finished(Taken(c1, LastFragments(s, p, c1.lastLength), s.codec != Other && FragmentsOf(s, p).1), p.frame,
                    answer)
  {
    LastClosed(Opened(c, s, p), s, p, answer);
  }

  lemma LastFits(c: Control, s: Session, packets: seq<Packet>, frame: U32)
    requires |packets| == 1 && Fitting(c, s, packets, frame)
    ensures IsLast(packets[0]) && Fits(s, packets[0], c.lastLength) && packets[0].frame == frame
    ensures !FragmentsOf(s, packets[0]).1
  {}

  lemma RestLast(c: Control, s: Session, packets: seq<Packet>, frame: U32, answer: Answer)
    requires |packets| == 1 && Fitting(c, s, packets, frame)
    ensures AfterPackets(c, s, packets, answer)
         == Finished(With(c, packets[0].index, c.chain + LastFragments(s, packets[0], c.lastLength)), frame, answer)
  {
    var p := packets[0];
    FittingOpens(c, s, packets, frame);
    LastFits(c, s, packets, frame);
    LastStep(c, s, p, answer);
    TakenIsWith(c, p.index, LastFragments(s, p, c.lastLength));
    OnlyPacket(c, s, packets, answer);
  }

  lemma WithAgain(c: Control, last: nat, chain: seq<Fragment>, last': nat, chain': seq<Fragment>)
    ensures With(c, last, chain).chain == chain && With(c, last, chain).lastLength == c.lastLength
    ensures With(With(c, last, chain), last', chain') == With(c, last', chain')
  {}

  lemma GatheredStep(s: Session, packets: seq<Packet>, length: nat, chain: seq<Fragment>)
    requires |packets| > 1 && (s.codec == Other ==> LengthFits(s, packets, length))
    ensures chain + Gathered(s, packets, length)
         == chain + FragmentsOf(s, packets[0]).0 + Gathered(s, packets[1..], length)
  {}

  lemma {:induction false} RestFinished(c: Control, s: Session, packets: seq<Packet>, frame: U32, answer: Answer)
    requires packets != [] && Fitting(c, s, packets, frame)
    ensures AfterPackets(c, s, packets, answer)
         == Finished(With(c, packets[|packets| - 1].index, c.chain + Gathered(s, packets, c.lastLength)), frame, answer)
    decreases |packets|
  {
    if |packets| == 1 {
      RestLast(c, s, packets, frame, answer);
    } else {
      var p, chain := packets[0], c.chain + FragmentsOf(s, packets[0]).0;
      FittingStep(c, s, packets, frame, answer);
      TakenIsWith(c, p.index, FragmentsOf(s, p).0);
      RestFinished(With(c, p.index, chain), s, packets[1..], frame, answer);
      GatheredStep(s, packets, c.lastLength, c.chain);
      WithAgain(c, p.index, chain, packets[|packets| - 1].index, chain + Gathered(s, packets[1..], c.lastLength));
    }
  }

  lemma OnlyPacket(c: Control, s: Session, packets: seq<Packet>, answer: Answer)
    requires |packets| == 1
    ensures AfterPackets(c, s, packets, answer) == AfterPacket(c, s, packets[0], answer)
  {
    assert packets[1..] == [];
    assert AfterPackets(AfterPacket(c, s, packets[0], answer), s, [], answer) == AfterPacket(c, s, packets[0], answer);
  }

  /** The state with the header read, and the IDR slice of the first packet known. */
  ghost function Known(c: Control, s: Session, p: Packet): Control {
    if s.codec != Other && FragmentsOf(s, p).1 then Recovered(Opened(c, s, p)) else Opened(c, s, p)
  }

  lemma OtherIsNotLookedInto(s: Session, p: Packet)
    ensures s.codec == Other ==> !FragmentsOf(s, p).1
  {}

  lemma TakenFresh(c: Control, last: nat, fragments: seq<Fragment>, idr: bool)
    requires c.chain == [] && c.last == last
    ensures Taken(c, fragments, idr) == With(if idr then Recovered(c) else c, last, fragments)
  {
    assert [] + fragments == fragments;
  }

  lemma TakenIsKnown(c: Control, s: Session, p: Packet, fragments: seq<Fragment>)
    requires Opened(c, s, p).chain == [] && Opened(c, s, p).last == p.index
    ensures Taken(Opened(c, s, p), fragments, s.codec != Other && FragmentsOf(s, p).1)
         == With(Known(c, s, p), p.index, fragments)
  {
    TakenFresh(Opened(c, s, p), p.index, fragments, s.codec != Other && FragmentsOf(s, p).1);
  }

  lemma FirstFits(c: Control, s: Session, packets: seq<Packet>)
    requires Tidy(s, packets) && !Behind(c, packets[0])
    ensures var r := Opened(c, s, packets[0]);
      && r.last == packets[0].index && (s.codec == Other ==> r.lastLength == HeaderLength(s, packets))
      && (|packets| == 1 ==> Fits(s, packets[0], r.lastLength))
  {
    FirstOpened(c, s, packets[0]);
  }

  lemma KnownAt(c: Control, s: Session, p: Packet)
    ensures Known(c, s, p).lastLength == Opened(c, s, p).lastLength
  {}

  /** The length does not matter for the codecs that are looked into. */
  lemma {:induction false} GatheredLength(s: Session, packets: seq<Packet>, length: nat, length': nat)
    requires packets != [] && s.codec != Other
    ensures Gathered(s, packets, length) == Gathered(s, packets, length')
    decreases |packets|
  {
    if |packets| > 1 { GatheredLength(s, packets[1..], length, length'); }
  }

  /** A frame of several packets, after the first. */
  lemma FirstKnown(c: Control, s: Session, packets: seq<Packet>, answer: Answer)
    requires Tidy(s, packets) && |packets| > 1 && !Behind(c, packets[0]) && !Corrupt(c, packets[0])
    requires Opened(c, s, packets[0]).chain == []
    ensures var c1 := With(Known(c, s, packets[0]), packets[0].index, FragmentsOf(s, packets[0]).0);
      && AfterPacket(c, s, packets[0], answer) == c1
      && Fitting(c1, s, packets[1..], packets[0].frame)
  {
    var p := packets[0];
    FirstOpened(c, s, p);
    OtherIsNotLookedInto(s, p);
    FirstStep(c, s, p, answer);
    TakenIsKnown(c, s, p, FragmentsOf(s, p).0);
    TidyGoesOn(c, s, packets, FragmentsOf(s, p).0, FragmentsOf(s, p).1);
  }

  lemma KnownFinished(c: Control, s: Session, packets: seq<Packet>, length: nat, answer: Answer)
    requires Tidy(s, packets) && !Behind(c, packets[0]) && !Corrupt(c, packets[0])
    requires Opened(c, s, packets[0]).chain == [] && length == Opened(c, s, packets[0]).lastLength
    requires s.codec == Other ==> LengthFits(s, packets, length)
    ensures AfterPackets(c, s, packets, answer)
         == Finished(With(Known(c, s, packets[0]), packets[|packets| - 1].index, Gathered(s, packets, length)),
                     packets[0].frame, answer)
  {
    var p := packets[0];
    FirstFits(c, s, packets);
    if |packets| == 1 {
      LastStep(c, s, p, answer);
      TakenIsKnown(c, s, p, LastFragments(s, p, length));
      OnlyPacket(c, s, packets, answer);
    } else {
      FirstKnown(c, s, packets, answer);
      KnownAt(c, s, p);
      var c1 := With(Known(c, s, p), p.index, FragmentsOf(s, p).0);
      RestFinished(c1, s, packets[1..], p.frame, answer);
      WithAgain(Known(c, s, p), p.index, FragmentsOf(s, p).0, packets[|packets| - 1].index,
                FragmentsOf(s, p).0 + Gathered(s, packets[1..], length));
    }
  }

  /** The bytes of the frame. */
  ghost function FrameData(s: Session, packets: seq<Packet>): seq<Fragment>
    requires Tidy(s, packets)
  {
    Gathered(s, packets, HeaderLength(s, packets))
  }

  lemma WholeFinished(c: Control, s: Session, packets: seq<Packet>, answer: Answer)
    requires Tidy(s, packets) && !Behind(c, packets[0]) && !Corrupt(c, packets[0])
    requires Opened(c, s, packets[0]).chain == []
    ensures AfterPackets(c, s, packets, answer)
         == Finished(With(Known(c, s, packets[0]), packets[|packets| - 1].index, FrameData(s, packets)),
                     packets[0].frame, answer)
  {
    var length := Opened(c, s, packets[0]).lastLength;
    FirstFits(c, s, packets);
    if s.codec != Other { GatheredLength(s, packets, length, HeaderLength(s, packets)); }
    KnownFinished(c, s, packets, length, answer);
  }

  // ----- what the header does

  /** The state of the machine as far as it decides about a frame. */
  predicate Reads(r: Control, c: Control, waitIdr: bool, waitRfi: bool, dropPending: bool, idr: bool, freed: bool) {
    && r.waitIdr == waitIdr && r.waitRfi == waitRfi && r.dropPending == dropPending && r.idr == idr && r.freed == freed
    && r.chain == [] && r.submitted == c.submitted
  }

  lemma DroppedReads(c: Control)
    ensures var needIdr, r := c.strict || !c.processed || c.waitIdr, Dropped(c);
      Reads(r, c, needIdr || c.drops + 1 == CONSECUTIVE_DROP_LIMIT, c.waitRfi || !needIdr, false, c.idr, c.freed)
  {}

  lemma BegunReads(c: Control, frame: U32)
    requires c.chain == [] && !IsBefore32(frame, c.next)
    ensures Reads(Begun(c, frame), c, NeedsIdr(c, frame), NeedsInvalidation(c, frame),
                  c.dropPending && frame == c.next, false, false)
  {
    NotBehindNotAhead(frame, c.next);
    if IsBefore32(c.next, frame) { DroppedReads(c.(next := frame, waitSuccess := true)); }
  }

  lemma FreedReads(c: Control)
    requires c.chain == []
    ensures Reads(Freed(c, true), c, c.waitIdr, false, c.dropPending, c.idr, true)
  {}

  lemma AnnouncedReads(c: Control)
    requires c.chain == []
    ensures Reads(Announced(c), c, false, c.waitRfi, c.dropPending, true, c.freed)
  {}

  lemma HeadedReads(c: Control, s: Session, p: Packet)
    requires c.chain == [] && !c.idr && !c.freed && s.version.AtLeast(7, 1, 350) && |p.payload| >= 4
    ensures var other := s.codec == Other && p.payload[3] == 2;
      Reads(Headed(c, s, p.frame, p.payload), c, c.waitIdr && !other, c.waitRfi && !EndsWait(p), c.dropPending, other,
            c.waitRfi && EndsWait(p))
  {
    var c1 := if p.payload[3] == 2 && s.codec == Other then Announced(c) else c;
    AnnouncedReads(c);
    FreedReads(c1);
  }

  lemma GivenReads(c: Control, length: nat)
    requires c.chain == []
    ensures Reads(c.(lastLength := length), c, c.waitIdr, c.waitRfi, c.dropPending, c.idr, c.freed)
  {}

  lemma LengthReads(c: Control, s: Session, payload: seq<Byte>)
    requires c.chain == []
    ensures Reads(WithLength(c, s, payload), c, c.waitIdr, c.waitRfi, c.dropPending, c.idr, c.freed)
  {
    if s.codec == Other && |payload| >= 6 {
      GivenReads(c, (payload[4] as int) + (payload[5] as int) * 0x100);
    }
  }

  lemma OpenedReads(c: Control, s: Session, p: Packet)
    requires c.chain == [] && !Behind(c, p) && IsFirst(p) && |p.payload| >= 4 && s.version.AtLeast(7, 1, 350)
    ensures var other := s.codec == Other && p.payload[3] == 2;
      Reads(Opened(c, s, p), c, NeedsIdr(c, p.frame) && !other, NeedsInvalidation(c, p.frame) && !EndsWait(p),
            c.dropPending && p.frame == c.next, other, NeedsInvalidation(c, p.frame) && EndsWait(p))
  {
    BegunReads(c, p.frame);
    var c1 := Begun(c, p.frame).(last := p.index);
    HeadedReads(c1, s, p);
    LengthReads(Headed(c1, s, p.frame, p.payload), s, p.payload);
  }

  lemma RecoveredReads(c: Control)
    requires c.chain == []
    ensures Reads(Recovered(c), c, false, false, c.dropPending, true, c.freed)
  {}

  /** Nothing holds the frame back that has been put together. */
  predicate Ready(c: Control) {
    !c.waitIdr && !c.waitRfi && (c.dropPending ==> c.idr)
  }

  lemma KnownReady(c: Control, s: Session, p: Packet)
    requires c.chain == [] && !Behind(c, p) && IsFirst(p) && |p.payload| >= 4 && s.version.AtLeast(7, 1, 350)
    ensures var k := Known(c, s, p);
      && (Ready(k) <==> Passes(c, s, p)) && k.idr == IsIdrFrame(s, p)
      && k.freed == (NeedsInvalidation(c, p.frame) && EndsWait(p)) && k.chain == [] && k.submitted == c.submitted
  {
    OpenedReads(c, s, p);
    RecoveredReads(Opened(c, s, p));
  }

  // ----- the frame

  /** The frame as it goes to the decoder. */
  ghost function UnitFor(c: Control, s: Session, packets: seq<Packet>, answer: Answer): Unit
    requires Tidy(s, packets) && FrameData(s, packets) != []
  {
    var p, data := packets[0], FrameData(s, packets);
    Unit(p.frame, data[0].kind != PicData || IsIdrFrame(s, p), NeedsInvalidation(c, p.frame) && EndsWait(p), data,
         answer)
  }

  lemma {:induction false} DataNotEmpty(s: Session, packets: seq<Packet>, length: nat)
    requires packets != [] && (s.codec == Other ==> LengthFits(s, packets, length))
    ensures Gathered(s, packets, length) != []
    decreases |packets|
  {
    SomeFragment(s, packets[0]);
  }

  /** Between frames: nothing is left over, the number of the next frame and that of the last packet. */
  predicate Between(c: Control, next: U32, last: nat) {
    !c.decoding && c.chain == [] && c.next == next && c.last == last
  }

  /** Nothing is waited for. */
  predicate Waiting(c: Control) { c.waitIdr || c.waitRfi || c.dropPending }

  lemma PassedReads(c: Control, u: Unit)
    requires !c.waitIdr && !c.waitRfi && !c.dropPending
    ensures var r := Sent(c, u);
      && r.submitted == c.submitted + [u] && r.chain == [] && r.decoding == c.decoding && r.next == c.next
      && r.last == c.last && (Waiting(r) <==> u.answer == NeedIdr)
  {
    AnsweredReads(Passed(c, u), u);
  }

  lemma AnsweredReads(c: Control, u: Unit)
    requires !c.waitIdr && !c.waitRfi && !c.dropPending
    ensures var r := Answered(c, u);
      && r.submitted == c.submitted && r.chain == c.chain && r.decoding == c.decoding && r.next == c.next
      && r.last == c.last && (Waiting(r) <==> u.answer == NeedIdr)
  {}

  lemma DroppedBetween(c: Control)
    ensures var r := Dropped(c);
      r.submitted == c.submitted && r.chain == [] && r.decoding == c.decoding && r.next == c.next && r.last == c.last
  {}

  lemma WaitingDropped(c: Control, frame: U32)
    ensures var r := DroppedWaiting(c, frame);
      r.submitted == c.submitted && r.chain == [] && r.decoding == c.decoding && r.next == c.next && r.last == c.last
  {
    var told := if c.waitIdr then (if c.waitSuccess then [IdrFrame] else []) else [Invalidate(c.start, frame)];
    DroppedBetween(c.(asked := c.asked + told, waitSuccess := false));
  }

  lemma LeftAt(c: Control, frame: U32)
    ensures var r := LeftFrame(c, frame);
      && !r.decoding && r.next == Succ(frame) && r.last == c.last && r.submitted == c.submitted && r.chain == c.chain
      && r.waitIdr == c.waitIdr && r.waitRfi == c.waitRfi && r.dropPending == c.dropPending && r.idr == c.idr
      && r.freed == c.freed
  {}

  /** The last packet decides. */
  lemma FinishedExact(c: Control, frame: U32, answer: Answer)
    requires c.chain != []
    ensures var r := Finished(c, frame, answer);
      && Between(r, Succ(frame), c.last)
      && r.submitted == (if Ready(c) then c.submitted + [UnitOf(c, frame, answer)] else c.submitted)
      && (Ready(c) ==> (Waiting(r) <==> answer == NeedIdr))
  {
    var c1 := LeftFrame(c, frame);
    LeftAt(c, frame);
    if c.waitIdr || c.waitRfi {
      WaitingDropped(c1, frame);
    } else if c.dropPending && !c.idr {
      DroppedBetween(c1);
    } else {
      PassedReads(c1.(dropPending := false), UnitOf(c, frame, answer));
    }
  }

  lemma WithReads(c: Control, last: nat, chain: seq<Fragment>)
    ensures var r := With(c, last, chain);
      && (Ready(r) <==> Ready(c)) && r.idr == c.idr && r.freed == c.freed && r.submitted == c.submitted
      && r.chain == chain && r.last == last
  {}

  /** What a frame leads to, passed on or not. */
  ghost predicate FrameOutcome(c: Control, s: Session, packets: seq<Packet>, answer: Answer, r: Control, passes: bool)
    requires Tidy(s, packets) && FrameData(s, packets) != []
  {
    && r.submitted == (if passes then c.submitted + [UnitFor(c, s, packets, answer)] else c.submitted)
    && !r.decoding && r.chain == []
    && (passes ==>
          Between(r, Succ(packets[0].frame), packets[|packets| - 1].index) && (Waiting(r) <==> answer == NeedIdr))
  }

  lemma GivenUpBetween(c: Control, frame: U32)
    ensures var r := GivenUp(c, frame); r.submitted == c.submitted && r.chain == [] && !r.decoding
  {
    LeftAt(c, frame);
    DroppedBetween(LeftFrame(c, frame));
  }

  lemma OpenedChain(c: Control, s: Session, p: Packet)
    requires c.chain == [] && !Behind(c, p) && IsFirst(p) && |p.payload| >= 4 && s.version.AtLeast(7, 1, 350)
    ensures Opened(c, s, p).chain == []
  {
    OpenedReads(c, s, p);
  }

  /** A frame that is taken, with the machine's state before its last step. */
  lemma TakenFrame(c: Control, s: Session, packets: seq<Packet>, answer: Answer)
    requires s.version.AtLeast(7, 1, 350) && Tidy(s, packets) && c.chain == [] && FrameData(s, packets) != []
    requires !Behind(c, packets[0]) && !Corrupt(c, packets[0])
    ensures FrameOutcome(c, s, packets, answer, AfterPackets(c, s, packets, answer), Passes(c, s, packets[0]))
  {
    var p, last, data := packets[0], packets[|packets| - 1].index, FrameData(s, packets);
    KnownReady(c, s, p);
    OpenedChain(c, s, p);
    WholeFinished(c, s, packets, answer);
    WithReads(Known(c, s, p), last, data);
    FinishedExact(With(Known(c, s, p), last, data), p.frame, answer);
  }

  /** A frame whose packets fit together is passed on, with all its bytes, exactly if it is not behind, its
      first packet is not numbered before the next one, and it is what is waited for. */
  lemma FrameExact(c: Control, s: Session, packets: seq<Packet>, answer: Answer)
    requires s.version.AtLeast(7, 1, 350) && Tidy(s, packets) && !c.decoding && c.chain == []
    ensures FrameData(s, packets) != []
    ensures FrameOutcome(c, s, packets, answer, AfterPackets(c, s, packets, answer),
                         !Behind(c, packets[0]) && !Corrupt(c, packets[0]) && Passes(c, s, packets[0]))
  {
    DataNotEmpty(s, packets, HeaderLength(s, packets));
    if Behind(c, packets[0]) {
      BehindChangesNothing(c, s, packets, answer);
    } else if Corrupt(c, packets[0]) {
      CorruptFirst(c, s, packets, answer);
      GivenUpBetween(c, packets[0].frame);
    } else {
      TakenFrame(c, s, packets, answer);
    }
  }

  // ----- whole runs

  /** The frames follow one another in their numbers, and their packets are not numbered backwards; the decoder
      accepts each. */
  predicate InTurn(s: Session, events: seq<Event>) {
    && (forall i :: 0 <= i < |events| ==> events[i].FrameIn? && events[i].answer == Ok && Tidy(s, events[i].packets))
    && (forall i :: 0 < i < |events| ==> FollowsOn(events[i - 1].packets, events[i].packets))
  }

  predicate FollowsOn(before: seq<Packet>, packets: seq<Packet>) {
    && before != [] && packets != [] && packets[0].frame == Succ(before[0].frame)
    && !IsBefore24(packets[0].index, Wrap24(before[|before| - 1].index + 1))
  }

  /** The decoder has got the frame, with all its bytes. */
  ghost predicate Served(s: Session, e: Event, u: Unit) {
    e.FrameIn? && Tidy(s, e.packets) && u.number == e.packets[0].frame && u.data == FrameData(s, e.packets)
  }

  ghost predicate AllServed(s: Session, events: seq<Event>, units: seq<Unit>) {
    |units| == |events| && forall i :: 0 <= i < |events| ==> Served(s, events[i], units[i])
  }

  lemma FirstTaken(c: Control, p: Packet)
    requires IsFirst(p) && p.frame == c.next && !IsBefore24(p.index, Wrap24(c.last + 1))
    ensures !Behind(c, p) && !Corrupt(c, p)
  {
    NextIsAhead(p.frame);
  }

  lemma EventServed(c: Control, s: Session, e: Event)
    requires s.version.AtLeast(7, 1, 350) && e.FrameIn? && e.answer == Ok && Tidy(s, e.packets)
    requires !c.decoding && c.chain == [] && !Behind(c, e.packets[0]) && !Corrupt(c, e.packets[0])
    requires Passes(c, s, e.packets[0])
    ensures var r := AfterEvent(c, s, e);
      && !Waiting(r) && Between(r, Succ(e.packets[0].frame), e.packets[|e.packets| - 1].index)
      && |r.submitted| == |c.submitted| + 1 && r.submitted[..|c.submitted|] == c.submitted
      && Served(s, e, r.submitted[|c.submitted|])
  {
    FrameExact(c, s, e.packets, e.answer);
  }

  /** The next frame can be taken where the machine stands. */
  predicate Expected(c: Control, s: Session, events: seq<Event>) {
    && InTurn(s, events) && !c.decoding && c.chain == []
    && (events != [] ==>
          events[0].packets[0].frame == c.next && !IsBefore24(events[0].packets[0].index, Wrap24(c.last + 1)))
  }

  lemma NextExpected(c: Control, s: Session, events: seq<Event>)
    requires InTurn(s, events) && events != []
    requires Between(c, Succ(events[0].packets[0].frame), events[0].packets[|events[0].packets| - 1].index)
    ensures Expected(c, s, events[1..])
  {
    if |events| > 1 { assert FollowsOn(events[0].packets, events[1].packets); }
  }

  /** All frames of the run are passed on, one after the other. */
  ghost predicate RunServed(s: Session, events: seq<Event>, before: seq<Unit>, after: seq<Unit>) {
    && |after| == |before| + |events| && after[..|before|] == before
    && AllServed(s, events, after[|before|..])
  }

  /** While nothing is waited for, every frame that follows on is passed on. */
  lemma {:induction false} SteadyRun(c: Control, s: Session, events: seq<Event>)
    requires s.version.AtLeast(7, 1, 350) && Expected(c, s, events) && !Waiting(c)
    ensures RunServed(s, events, c.submitted, After(c, s, events).submitted)
    decreases |events|
  {
    if events != [] {
      FirstTaken(c, events[0].packets[0]);
      ServedOn(c, s, events);
      SteadyRun(AfterEvent(c, s, events[0]), s, events[1..]);
      OneMoreServed(s, events, c.submitted, AfterEvent(c, s, events[0]).submitted, After(c, s, events).submitted);
    }
  }

  /** After a frame of the run that is passed on. */
  lemma ServedOn(c: Control, s: Session, events: seq<Event>)
    requires s.version.AtLeast(7, 1, 350) && InTurn(s, events) && !c.decoding && c.chain == [] && events != []
    requires !Behind(c, events[0].packets[0]) && !Corrupt(c, events[0].packets[0])
    requires Passes(c, s, events[0].packets[0])
    ensures var r := AfterEvent(c, s, events[0]);
      && !Waiting(r) && Expected(r, s, events[1..])
      && |r.submitted| == |c.submitted| + 1 && r.submitted[..|c.submitted|] == c.submitted
      && Served(s, events[0], r.submitted[|c.submitted|])
  {
    EventServed(c, s, events[0]);
    NextExpected(AfterEvent(c, s, events[0]), s, events);
  }

  lemma OneMoreServed(s: Session, events: seq<Event>, before: seq<Unit>, middle: seq<Unit>, after: seq<Unit>)
    requires events != [] && |middle| == |before| + 1 && middle[..|before|] == before
    requires Served(s, events[0], middle[|before|])
    requires RunServed(s, events[1..], middle, after)
    ensures RunServed(s, events, before, after)
  {
    forall i | 0 <= i < |events|
      ensures Served(s, events[i], after[|before|..][i])
    {
      if i == 0 {
        assert after[..|middle|][|before|] == middle[|before|];
      } else {
        assert Served(s, events[1..][i - 1], after[|middle|..][i - 1]);
      }
    }
    assert after[..|before|] == after[..|middle|][..|before|];
  }

  /** From an IDR frame on every frame is passed on, whatever has been lost or waited for before. */
  lemma IdrRecovers(c: Control, s: Session, events: seq<Event>)
    requires s.version.AtLeast(7, 1, 350) && InTurn(s, events) && !c.decoding && c.chain == [] && events != []
    requires IsIdrFrame(s, events[0].packets[0])
    requires !Behind(c, events[0].packets[0]) && !Corrupt(c, events[0].packets[0])
    ensures RunServed(s, events, c.submitted, After(c, s, events).submitted)
  {
    ServedOn(c, s, events);
    SteadyRun(AfterEvent(c, s, events[0]), s, events[1..]);
    OneMoreServed(s, events, c.submitted, AfterEvent(c, s, events[0]).submitted, After(c, s, events).submitted);
  }

  /** Runs of frames whose packets fit together and of reported losses leave nothing over between frames. */
  lemma {:induction false} RunBetween(c: Control, s: Session, events: seq<Event>)
    requires s.version.AtLeast(7, 1, 350) && TidyFrames(s, events) && !c.decoding && c.chain == []
    ensures !After(c, s, events).decoding && After(c, s, events).chain == []
    decreases |events|
  {
    if events != [] {
      match events[0] {
        case FrameIn(packets, answer) => FrameExact(c, s, packets, answer);
        case FrameLost(frame) => DroppedBetween(c);
      }
      RunBetween(AfterEvent(c, s, events[0]), s, events[1..]);
    }
  }

  /** After any such run from the start, an IDR frame that is neither behind nor numbered backwards is passed
      on, and so is every frame that follows on. */
  lemma RecoversAfter(strict: bool, s: Session, before: seq<Event>, events: seq<Event>)
    requires s.version.AtLeast(7, 1, 350) && TidyFrames(s, before) && InTurn(s, events) && events != []
    requires IsIdrFrame(s, events[0].packets[0])
    requires var c := After(Initial(strict), s, before);
      !Behind(c, events[0].packets[0]) && !Corrupt(c, events[0].packets[0])
    ensures var c := After(Initial(strict), s, before);
      RunServed(s, events, c.submitted, After(c, s, events).submitted)
  {
    RunBetween(Initial(strict), s, before);
    IdrRecovers(After(Initial(strict), s, before), s, events);
  }

  // ----- byte by byte

  function Joined(fragments: seq<Fragment>): seq<Byte> {
    if fragments == [] then [] else fragments[0].data + Joined(fragments[1..])
  }

  function Payloads(packets: seq<Packet>): seq<Byte> {
    if packets == [] then [] else packets[0].payload + Payloads(packets[1..])
  }

  lemma JoinedFront(f: Fragment, fragments: seq<Fragment>)
    ensures Joined([f] + fragments) == f.data + Joined(fragments)
  {
    assert ([f] + fragments)[1..] == fragments;
  }

  lemma JoinedOne(f: Fragment)
    ensures Joined([f]) == f.data
  {
    assert [f][1..] == [];
  }

  lemma PayloadsOne(packets: seq<Packet>)
    requires |packets| == 1
    ensures Payloads(packets) == packets[0].payload
  {
    assert packets[1..] == [];
  }

  /** A later packet is taken as it is. */
  lemma LaterFragments(s: Session, p: Packet)
    requires !IsFirst(p)
    ensures |FragmentsOf(s, p).0| == 1 && FragmentsOf(s, p).0[0].data == p.payload
  {}

  /** What is cut off behind the frame. */
  function Padding(s: Session, packets: seq<Packet>, length: nat): nat
    requires packets != [] && (s.codec == Other ==> LengthFits(s, packets, length))
  {
    var p := packets[|packets| - 1];
    if s.codec == Other then HeaderIn(s, p) + LengthIn(s, p) - length else 0
  }

  lemma LastData(s: Session, p: Packet, length: nat)
    requires !IsFirst(p) && Fits(s, p, length)
    ensures Joined(LastFragments(s, p, length)) == p.payload[..if s.codec == Other then length else |p.payload|]
  {
    JoinedOne(LastFragments(s, p, length)[0]);
    LaterFragments(s, p);
  }

  /** The packets after the first are passed on byte for byte, but for the padding at the end. */
  lemma {:induction false} RestData(s: Session, packets: seq<Packet>, length: nat)
    requires packets != [] && (s.codec == Other ==> LengthFits(s, packets, length))
    requires forall i :: 0 <= i < |packets| ==> !IsFirst(packets[i])
    ensures Padding(s, packets, length) <= |Payloads(packets)|
    ensures Joined(Gathered(s, packets, length))
         == Payloads(packets)[..|Payloads(packets)| - Padding(s, packets, length)]
    decreases |packets|
  {
    if |packets| == 1 {
      PayloadsOne(packets);
      LastData(s, packets[0], length);
    } else {
      RestData(s, packets[1..], length);
      LaterFragments(s, packets[0]);
      var f := FragmentsOf(s, packets[0]).0[0];
      assert FragmentsOf(s, packets[0]).0 == [f];
      JoinedFront(f, Gathered(s, packets[1..], length));
    }
  }

  /** Where the data of the frame starts in its first packet. */
  function FrameStart(s: Session, d: seq<Byte>): (at: nat)
    requires d != []
    ensures at <= |d|
  {
    var at := DataStart(s.version, d);
    if s.codec == Other then at else BehindPps(s.codec, d, StreamStart(s.codec, d, at))
  }

  /** The first packet is not taken apart. */
  predicate Plain(s: Session, p: Packet)
    requires p.payload != []
  {
    s.codec == Other ||
    !IdrFrameStart(s.codec, p.payload, StreamStart(s.codec, p.payload, DataStart(s.version, p.payload)))
  }

  lemma PlainFragments(s: Session, p: Packet)
    requires IsFirst(p) && p.payload != [] && Plain(s, p)
    ensures |FragmentsOf(s, p).0| == 1
    ensures FragmentsOf(s, p).0[0].data == p.payload[FrameStart(s, p.payload)..]
  {
    if s.codec != Other {
      PlainFirst(s, p.payload, StreamStart(s.codec, p.payload, DataStart(s.version, p.payload)));
    }
  }

  lemma PlainFirst(s: Session, d: seq<Byte>, start: nat)
    requires d != [] && start <= |d| && start == StreamStart(s.codec, d, DataStart(s.version, d))
    requires s.codec != Other && !IdrFrameStart(s.codec, d, start)
    ensures FirstFragments(s, d) == ([WithoutPps(s.codec, d, start)], false)
    ensures WithoutPps(s.codec, d, start).data == d[FrameStart(s, d)..]
  {}

  lemma PlainLast(s: Session, p: Packet, length: nat)
    requires IsFirst(p) && |p.payload| >= 4 && Plain(s, p) && Fits(s, p, length) && s.version.AtLeast(7, 1, 350)
    requires s.codec == Other ==> |p.payload| >= HeaderIn(s, p)
    ensures Joined(LastFragments(s, p, length))
         == p.payload[FrameStart(s, p.payload)..if s.codec == Other then length else |p.payload|]
  {
    JoinedOne(LastFragments(s, p, length)[0]);
    PlainFragments(s, p);
  }

  /** The data are all the bytes but those in front and at the end. */
  predicate AllBut(all: seq<Byte>, start: nat, cut: nat, data: seq<Byte>) {
    start + cut <= |all| && data == all[start..|all| - cut]
  }

  lemma CutBoth(a: seq<Byte>, rest: seq<Byte>, start: nat, cut: nat, data: seq<Byte>)
    requires start <= |a| && cut <= |rest| && data == a[start..] + rest[..|rest| - cut]
    ensures AllBut(a + rest, start, cut, data)
  {}

  lemma PaddingAtEnd(s: Session, packets: seq<Packet>, length: nat)
    requires |packets| > 1 && (s.codec == Other ==> LengthFits(s, packets, length))
    ensures Padding(s, packets, length) == Padding(s, packets[1..], length)
  {}

  lemma FirstData(s: Session, packets: seq<Packet>, length: nat)
    requires |packets| > 1 && (s.codec == Other ==> LengthFits(s, packets, length))
    requires IsFirst(packets[0]) && packets[0].payload != [] && Plain(s, packets[0])
    ensures var d := packets[0].payload;
      Joined(Gathered(s, packets, length)) == d[FrameStart(s, d)..] + Joined(Gathered(s, packets[1..], length))
  {
    PlainFragments(s, packets[0]);
    var f := FragmentsOf(s, packets[0]).0[0];
    assert FragmentsOf(s, packets[0]).0 == [f];
    JoinedFront(f, Gathered(s, packets[1..], length));
  }

  /** The data behind the start, but for the padding at the end. */
  predicate BytesOf(s: Session, packets: seq<Packet>, length: nat, data: seq<Byte>)
    requires packets != [] && packets[0].payload != [] && (s.codec == Other ==> LengthFits(s, packets, length))
  {
    AllBut(Payloads(packets), FrameStart(s, packets[0].payload), Padding(s, packets, length), data)
  }

  lemma BytesOfOne(s: Session, packets: seq<Packet>, length: nat)
    requires |packets| == 1 && IsFirst(packets[0]) && |packets[0].payload| >= 4 && Plain(s, packets[0])
    requires s.version.AtLeast(7, 1, 350) && (s.codec == Other ==> LengthFits(s, packets, length))
    requires s.codec == Other ==> |packets[0].payload| >= HeaderIn(s, packets[0])
    ensures BytesOf(s, packets, length, Joined(Gathered(s, packets, length)))
  {
    PayloadsOne(packets);
    PlainLast(s, packets[0], length);
  }

  lemma BytesOfMore(s: Session, packets: seq<Packet>, length: nat)
    requires |packets| > 1 && IsFirst(packets[0]) && packets[0].payload != [] && Plain(s, packets[0])
    requires s.codec == Other ==> LengthFits(s, packets, length)
    requires forall i :: 1 <= i < |packets| ==> !IsFirst(packets[i])
    ensures BytesOf(s, packets, length, Joined(Gathered(s, packets, length)))
  {
    RestData(s, packets[1..], length);
    FirstData(s, packets, length);
    PaddingAtEnd(s, packets, length);
    CutBoth(packets[0].payload, Payloads(packets[1..]), FrameStart(s, packets[0].payload),
            Padding(s, packets, length), Joined(Gathered(s, packets, length)));
  }

  /** A frame whose first packet is not taken apart reaches the decoder byte for byte: behind its header, and
      for H.264 and HEVC what is left out in front, up to the padding at the end. */
  lemma FrameBytes(s: Session, packets: seq<Packet>)
    requires Tidy(s, packets) && Plain(s, packets[0]) && s.version.AtLeast(7, 1, 350)
    requires |packets[0].payload| >= HeaderSize(s.version, packets[0].payload[0])
    ensures BytesOf(s, packets, HeaderLength(s, packets), Joined(FrameData(s, packets)))
  {
    if |packets| == 1 {
      BytesOfOne(s, packets, HeaderLength(s, packets));
    } else {
      BytesOfMore(s, packets, HeaderLength(s, packets));
    }
  }
}
