/** The depacketizer of VideoDepacketizer.c, for a decoder that takes its frames directly. */
module Depacketizer {
  import opened Gf256
  import opened SequenceNumbers
  import opened AnnexB
  import opened DepacketizerControl

  class VideoDepacketizer {
    var nextFrame: U32
    var startFrame: U32
    var waitingForNextSuccessful: bool
    var waitingForIdr: bool
    var waitingForRefInval: bool
    var lastPacketInStream: nat
    var decodingFrame: bool
    var frameIsIdr: bool
    const strictIdrWait: bool
    var dropStatePending: bool
    var idrProcessed: bool
    var consecutiveDrops: nat
    var lastPayloadLength: nat
    var nalChain: seq<Fragment>
    var nalChainLength: nat
    const session: Session
    // The frames passed to the decoder, and what has been asked of the host.
    var submitted: seq<Unit>
    var asked: seq<Request>
    // The header of the current frame ended a wait for an invalidation.
    var freed: bool

    predicate Valid()
      reads this
    {
      nalChainLength == TotalLength(nalChain)
    }

    function Ctl(): Control
      reads this
    {
      Control(nextFrame, startFrame, waitingForNextSuccessful, waitingForIdr, waitingForRefInval, lastPacketInStream,
              decodingFrame, frameIsIdr, freed, strictIdrWait, dropStatePending, idrProcessed, consecutiveDrops,
              lastPayloadLength, nalChain, submitted, asked)
    }

    constructor (session: Session, strictIdrWait: bool)
      ensures Valid() && Ctl() == Initial(strictIdrWait) && this.session == session
    {
      this.session, this.strictIdrWait := session, strictIdrWait;
      nextFrame, startFrame, lastPacketInStream := 1, 0, 0xFFFF_FFFF;
      waitingForNextSuccessful, waitingForIdr, waitingForRefInval := false, true, false;
      decodingFrame, frameIsIdr, freed := false, false, false;
      dropStatePending, idrProcessed, consecutiveDrops, lastPayloadLength := false, false, 0, 0;
      nalChain, nalChainLength, submitted, asked := [], 0, [], [];
    }

    // ----- dropping frames

    method RequestIdrFrame()
      modifies `asked
      ensures asked == old(asked) + [IdrFrame]
    {
      asked := asked + [IdrFrame];
    }

    method ReportLoss(from: U32, to: U32)
      modifies `asked
      ensures asked == old(asked) + [Invalidate(from, to)]
    {
      asked := asked + [Invalidate(from, to)];
    }

    method CleanupFrameState()
      modifies `nalChain, `nalChainLength
      ensures Valid() && nalChain == []
    {
      nalChain, nalChainLength := [], 0;
    }

    /** What to wait for now. */
    method ChooseWait()
      modifies `dropStatePending, `waitingForIdr, `waitingForRefInval
      ensures !dropStatePending && waitingForIdr == (strictIdrWait || !idrProcessed || old(waitingForIdr))
      ensures waitingForRefInval == (old(waitingForRefInval) || !waitingForIdr)
    {
      dropStatePending := false;
      if strictIdrWait || !idrProcessed || waitingForIdr {
        waitingForIdr := true;
      } else {
        waitingForRefInval := true;
      }
    }

    /** At the limit an IDR frame is asked for at once. */
    method CountDrop()
      modifies `waitingForIdr, `consecutiveDrops, `asked
      ensures if old(consecutiveDrops) + 1 == CONSECUTIVE_DROP_LIMIT
        then consecutiveDrops == 0 && waitingForIdr && asked == old(asked) + [IdrFrame]
        else consecutiveDrops == old(consecutiveDrops) + 1 && waitingForIdr == old(waitingForIdr) && asked == old(asked)
    {
      consecutiveDrops := consecutiveDrops + 1;
      if consecutiveDrops == CONSECUTIVE_DROP_LIMIT {
        consecutiveDrops := 0;
        waitingForIdr := true;
        RequestIdrFrame();
      }
    }

    /** dropFrameState. */
    method DropFrameState()
      modifies `dropStatePending, `waitingForIdr, `waitingForRefInval, `consecutiveDrops, `asked, `nalChain,
        `nalChainLength
      ensures Valid() && Ctl() == Dropped(old(Ctl()))
    {
      ChooseWait();
      CountDrop();
      CleanupFrameState();
    }

    /** Asks for what the machine waits for after a loss. */
    method TellHost(frame: U32)
      modifies `asked
      ensures Ctl() == Told(old(Ctl()), frame)
    {
      if waitingForIdr {
        RequestIdrFrame();
      } else {
        ReportLoss(startFrame, frame);
      }
    }

    method LeaveFrame(frame: U32)
      modifies `decodingFrame, `nextFrame
      ensures Ctl() == LeftFrame(old(Ctl()), frame)
    {
      decodingFrame := false;
      nextFrame := Wrap32(frame + 1);
    }

    /** Drops the frame, and tells the host. */
    method GiveUp(frame: U32)
      modifies `decodingFrame, `nextFrame,
        `dropStatePending, `waitingForIdr, `waitingForRefInval, `consecutiveDrops, `asked, `nalChain, `nalChainLength
      ensures Valid() && Ctl() == GivenUp(old(Ctl()), frame)
    {
      LeaveFrame(frame);
      DropFrameState();
      TellHost(frame);
    }

    /** notifyFrameLost: only between frames. */
    method NotifyFrameLost(frame: U32)
      requires !decodingFrame
      modifies `nextFrame,
        `dropStatePending, `waitingForIdr, `waitingForRefInval, `consecutiveDrops, `asked, `nalChain, `nalChainLength
      ensures Valid() && Ctl() == Lost(old(Ctl()), frame)
    {
      DropFrameState();
      if !waitingForIdr {
        nextFrame := Wrap32(frame + 1);
        TellHost(frame);
      }
    }

    // ----- the frame header

    /** Frames are missing before this one. */
    method SkipFrames(frame: U32)
      modifies `nextFrame, `waitingForNextSuccessful,
        `dropStatePending, `waitingForIdr, `waitingForRefInval, `consecutiveDrops, `asked, `nalChain, `nalChainLength
      ensures Valid() && Ctl() == Dropped(old(Ctl()).(next := frame, waitSuccess := true))
    {
      nextFrame := frame;
      waitingForNextSuccessful := true;
      ghost var c := Ctl();
      DropFrameState();
      assert Ctl() == Dropped(c);
    }

    method BeginFrame(frame: U32)
      requires Valid()
      modifies `nextFrame, `waitingForNextSuccessful, `decodingFrame, `frameIsIdr, `freed,
        `dropStatePending, `waitingForIdr, `waitingForRefInval, `consecutiveDrops, `asked, `nalChain, `nalChainLength
      ensures Valid() && Ctl() == Begun(old(Ctl()), frame)
    {
      if IsBefore32(nextFrame, frame) {
        SkipFrames(frame);
      }
      ghost var c := Ctl();
      decodingFrame := true;
      frameIsIdr, freed := false, false;
      assert Ctl() == c.(decoding := true, idr := false, freed := false);
    }

    method EndRefInvalWait(byHeader: bool)
      requires waitingForRefInval
      modifies `waitingForRefInval, `waitingForNextSuccessful, `freed
      ensures Ctl() == Freed(old(Ctl()), byHeader)
    {
      waitingForRefInval, waitingForNextSuccessful := false, false;
      freed := byHeader || freed;
    }

    method AnnounceIdr()
      modifies `waitingForIdr, `waitingForNextSuccessful, `frameIsIdr
      ensures Ctl() == Announced(old(Ctl()))
    {
      waitingForIdr, waitingForNextSuccessful := false, false;
      frameIsIdr := true;
    }

    /** The frame type in the header. */
    method ReadFrameType(frame: U32, payload: seq<Byte>)
      requires Valid() && payload != []
      modifies `waitingForIdr, `waitingForRefInval, `waitingForNextSuccessful, `frameIsIdr, `freed, `asked
      ensures Valid() && Ctl() == Headed(old(Ctl()), session, frame, payload)
    {
      if session.version.AtLeast(7, 1, 350) && |payload| >= 4 {
        if payload[3] == 2 && session.codec == Other {
          AnnounceIdr();
        }
        if (payload[3] == 2 || payload[3] == 4 || payload[3] == 5) && waitingForRefInval {
          EndRefInvalWait(true);
        }
      } else if waitingForRefInval {
        ReportLoss(startFrame, Wrap32(frame - 1));
        EndRefInvalWait(false);
      }
    }

    method ReadFrameHeader(frame: U32, payload: seq<Byte>)
      requires Valid() && payload != []
      modifies `waitingForIdr, `waitingForRefInval, `waitingForNextSuccessful, `frameIsIdr, `freed, `asked,
        `lastPayloadLength
      ensures Valid() && Ctl() == WithLength(Headed(old(Ctl()), session, frame, payload), session, payload)
    {
      ReadFrameType(frame, payload);
      if session.codec == Other && |payload| >= 6 {
        lastPayloadLength := (payload[4] as int) + (payload[5] as int) * 0x100;
      }
    }

    // ----- the payload

    /** queueFragment. */
    method QueueFragment(f: Fragment)
      requires Valid()
      modifies `nalChain, `nalChainLength
      ensures Valid() && nalChain == old(nalChain) + [f] && Ctl() == Taken(old(Ctl()), [f], false)
    {
      TotalSnoc(nalChain, f);
      nalChain := nalChain + [f];
      nalChainLength := nalChainLength + |f.data|;
    }

    method QueueFragments(fragments: seq<Fragment>)
      requires Valid()
      modifies `nalChain, `nalChainLength
      ensures Valid() && nalChain == old(nalChain) + fragments
    {
      for i := 0 to |fragments|
        invariant Valid() && nalChain == old(nalChain) + fragments[..i]
      {
        assert fragments[..i + 1] == fragments[..i] + [fragments[i]];
        QueueFragment(fragments[i]);
      }
      assert fragments[..|fragments|] == fragments;
    }

    /** processAvcHevcRtpPayloadSlow: an IDR slice ends all waiting. */
    method ProcessPayloadSlow(d: seq<Byte>, at: nat)
      requires Valid() && at <= |d|
      modifies `nalChain, `nalChainLength, `waitingForIdr, `waitingForRefInval, `waitingForNextSuccessful, `frameIsIdr
      ensures Valid()
      ensures var fragments := Rest(session.codec, d, at, |d|);
        Ctl() == Taken(old(Ctl()), fragments, EndsReused(fragments))
    {
      var fragments, idr := ProcessSlow(session.codec, d, at, |d|);
      QueueFragments(fragments);
      if idr { EndWaits(); }
    }

    method EndWaits()
      modifies `waitingForIdr, `waitingForRefInval, `waitingForNextSuccessful, `frameIsIdr
      ensures Ctl() == Recovered(old(Ctl()))
    {
      waitingForIdr, waitingForRefInval, waitingForNextSuccessful := false, false, false;
      frameIsIdr := true;
    }

    /** Behind the frame header, padding, a delimiter and SEI. */
    method SkipToStream(d: seq<Byte>, from: nat) returns (at: nat)
      requires from <= |d|
      ensures at == StreamStart(session.codec, d, from)
    {
      at := from;
      if StartLength(d, at, |d|) == 0 {
        at := SkipToNextNalOrEnd(d, at, |d|);
      }
      if NalAt(session.codec, d, at, |d|) == Delimiter {
        at := SkipToNextNalOrEnd(d, at, |d|);
      }
      ghost var start := at;
      while NalAt(session.codec, d, at, |d|) == Sei
        invariant at <= |d| && PastSei(session.codec, d, at) == PastSei(session.codec, d, start)
        decreases |d| - at
      {
        at := SkipToNextNalOrEnd(d, at, |d|);
      }
    }

    /** The payload of the first packet of an H.264 or HEVC frame. */
    method TakeFirst(d: seq<Byte>)
      requires Valid() && d != [] && session.codec != Other
      modifies `nalChain, `nalChainLength, `waitingForIdr, `waitingForRefInval, `waitingForNextSuccessful, `frameIsIdr
      ensures Valid()
      ensures var (fragments, idr) := FirstFragments(session, d); Ctl() == Taken(old(Ctl()), fragments, idr)
    {
      var at := SkipToStream(d, DataStart(session.version, d));
      if IdrFrameStart(session.codec, d, at) {
        ProcessPayloadSlow(d, at);
      } else {
        TakeWhole(d, at);
      }
    }

    /** All of the packet from the position on, except a PPS in front. */
    method TakeWhole(d: seq<Byte>, from: nat)
      requires Valid() && from <= |d|
      modifies `nalChain, `nalChainLength
      ensures Valid() && Ctl() == Taken(old(Ctl()), [WithoutPps(session.codec, d, from)], false)
    {
      var at := from;
      if NalAt(session.codec, d, at, |d|) == Pps {
        at := SkipToNextNalOrEnd(d, at, |d|);
      }
      QueueFragment(FragmentOf(session.codec, d, at, |d|, true));
    }

    /** The payload of a packet; for other codecs the last one is cut to the length given before. */
    method TakePayload(p: Packet)
      requires Valid() && !BadLength(Ctl(), session, p)
      modifies `nalChain, `nalChainLength, `waitingForIdr, `waitingForRefInval, `waitingForNextSuccessful, `frameIsIdr
      ensures Valid()
      ensures var (fragments, idr) := Trimmed(old(Ctl()), session, p); Ctl() == Taken(old(Ctl()), fragments, idr)
    {
      if session.codec != Other && IsFirst(p) && p.payload != [] {
        TakeFirst(p.payload);
        return;
      }
      var at := |p.payload| - LengthIn(session, p);
      var end := |p.payload|;
      if session.codec == Other && IsLast(p) {
        end := at + lastPayloadLength - HeaderIn(session, p);
      }
      QueueFragment(FragmentOf(session.codec, p.payload, at, end, true));
    }

    // ----- passing frames on

    /** requestDecoderRefresh. */
    method RequestDecoderRefresh()
      modifies `waitingForIdr, `dropStatePending, `asked
      ensures waitingForIdr && dropStatePending && asked == old(asked) + [IdrFrame]
    {
      waitingForIdr := true;
      dropStatePending := true;
      RequestIdrFrame();
    }

    /** LiCompleteVideoFrame. */
    method CompleteVideoFrame(u: Unit)
      modifies `waitingForIdr, `dropStatePending, `asked, `idrProcessed
      ensures Ctl() == Answered(old(Ctl()), u)
    {
      if u.answer == NeedIdr {
        RequestDecoderRefresh();
      } else if u.idr {
        idrProcessed := true;
      }
    }

    /** reassembleFrame; answer is what the decoder says to the frame. */
    method ReassembleFrame(frame: U32, answer: Answer)
      requires Valid()
      modifies `submitted, `nalChain, `nalChainLength, `waitingForIdr, `dropStatePending, `asked, `idrProcessed,
        `consecutiveDrops, `startFrame
      ensures Valid() && Ctl() == Submitted(old(Ctl()), frame, answer)
    {
      if nalChain != [] {
        SendUnit(Unit(frame, nalChain[0].kind != PicData || frameIsIdr, freed, nalChain, answer));
      }
    }

    method SendUnit(u: Unit)
      modifies `submitted, `nalChain, `nalChainLength, `waitingForIdr, `dropStatePending, `asked, `idrProcessed,
        `consecutiveDrops, `startFrame
      ensures Valid() && Ctl() == Sent(old(Ctl()), u)
    {
      PassOn(u);
      CompleteVideoFrame(u);
    }

    method PassOn(u: Unit)
      modifies `submitted, `nalChain, `nalChainLength, `consecutiveDrops, `startFrame
      ensures Valid() && Ctl() == Passed(old(Ctl()), u)
    {
      CleanupFrameState();
      submitted := submitted + [u];
      MoveWindow();
    }

    /** Drops count anew, and invalidation starts at the next frame. */
    method MoveWindow()
      modifies `consecutiveDrops, `startFrame
      ensures consecutiveDrops == 0 && startFrame == nextFrame
    {
      consecutiveDrops := 0;
      startFrame := nextFrame;
    }

    /** What the host is asked when a complete frame comes while another kind of frame is waited for. */
    method TellWaiting(frame: U32)
      modifies `asked, `waitingForNextSuccessful
      ensures asked == old(asked) + if waitingForIdr then (if old(waitingForNextSuccessful) then [IdrFrame] else [])
        else [Invalidate(startFrame, frame)]
      ensures !waitingForNextSuccessful
    {
      if waitingForIdr {
        if waitingForNextSuccessful {
          RequestIdrFrame();
        }
      } else {
        ReportLoss(startFrame, frame);
      }
      waitingForNextSuccessful := false;
    }

    method DropWaiting(frame: U32)
      modifies `waitingForNextSuccessful,
        `dropStatePending, `waitingForIdr, `waitingForRefInval, `consecutiveDrops, `asked, `nalChain, `nalChainLength
      ensures Valid() && Ctl() == DroppedWaiting(old(Ctl()), frame)
    {
      TellWaiting(frame);
      ghost var c := Ctl();
      DropFrameState();
      assert Ctl() == Dropped(c);
    }

    method FinishFrame(frame: U32, answer: Answer)
      requires Valid()
      modifies this
      ensures Valid() && Ctl() == Finished(old(Ctl()), frame, answer)
    {
      LeaveFrame(frame);
      ghost var c := Ctl();
      if waitingForIdr || waitingForRefInval {
        DropWaiting(frame);
        assert Ctl() == DroppedWaiting(c, frame);
      } else if dropStatePending && !(nalChain != [] && frameIsIdr) {
        DropFrameState();
        assert Ctl() == Dropped(c);
      } else {
        dropStatePending := false;
        ghost var c1 := Ctl();
        ReassembleFrame(frame, answer);
        assert c1 == c.(dropPending := false) && Ctl() == Submitted(c1, frame, answer);
      }
    }

    /** processRtpPayload; answer is what the decoder says if the packet completes a frame. */
    method ProcessRtpPayload(p: Packet, answer: Answer)
      requires Valid()
      modifies this
      ensures Valid() && Ctl() == AfterPacket(old(Ctl()), session, p, answer)
    {
      if IsBefore32(p.frame, nextFrame) {
        return;
      }
      if Corrupt(Ctl(), p) {
        GiveUp(p.frame);
        return;
      }
      OpenPacket(p);
      ClosePacket(p, answer);
    }

    method OpenPacket(p: Packet)
      requires Valid()
      modifies this
      ensures Valid() && Ctl() == Opened(old(Ctl()), session, p)
    {
      if IsFirst(p) {
        BeginFrame(p.frame);
      }
      lastPacketInStream := p.index;
      if IsFirst(p) && p.payload != [] {
        ReadFrameHeader(p.frame, p.payload);
      }
    }

    method ClosePacket(p: Packet, answer: Answer)
      requires Valid()
      modifies this
      ensures Valid() && Ctl() == Closed(old(Ctl()), session, p, answer)
    {
      if BadLength(Ctl(), session, p) {
        GiveUp(p.frame);
        return;
      }
      TakePayload(p);
      if IsLast(p) {
        FinishFrame(p.frame, answer);
      }
    }
  }
}
