/** Which frames reach the decoder: the state machine of VideoDepacketizer.c for lost frames, IDR frames and
    reference frame invalidation, with a decoder that takes its frames directly. */
module DepacketizerControl {
  import opened Gf256
  import opened SequenceNumbers
  import opened VideoFlags
  import opened AnnexB

  const CONSECUTIVE_DROP_LIMIT := 120

  datatype Version = Version(major: nat, minor: nat, patch: nat) {
    predicate AtLeast(a: nat, b: nat, c: nat) {
      major > a || (major == a && minor > b) || (major == a && minor == b && patch >= c)
    }
  }

  /** What was negotiated with the host. */
  datatype Session = Session(codec: Codec, version: Version)

  /** A packet as it comes out of the video queue; index is its number in the whole stream. */
  datatype Packet = Packet(frame: U32, flags: U8, block: nat, lastBlock: nat, index: U24, payload: seq<Byte>)

  datatype Answer = Ok | NeedIdr

  /** A frame as the decoder got it, and what the decoder said; freed tells that the frame's header ended a
      wait for reference frame invalidation. */
  datatype Unit = Unit(number: U32, idr: bool, freed: bool, data: seq<Fragment>, answer: Answer)

  /** What is asked of the host. */
  datatype Request = IdrFrame | Invalidate(from: U32, to: U32)

  /** next is the frame expected, start the first frame that an invalidation would cover, last the number of
      the last packet; idr and freed are about the frame being put together. */
  datatype Control = Control(next: U32, start: U32, waitSuccess: bool, waitIdr: bool, waitRfi: bool, last: nat,
                             decoding: bool, idr: bool, freed: bool, strict: bool, dropPending: bool, processed: bool,
                             drops: nat, lastLength: nat, chain: seq<Fragment>, submitted: seq<Unit>,
                               asked: seq<Request>)

  function Initial(strict: bool): Control {
    Control(1, 0, false, true, false, 0xFFFF_FFFF, false, false, false, strict, false, false, 0, 0, [], [], [])
  }

  predicate IsFirst(p: Packet) {
    var flags := p.flags - p.flags % 2; // without FLAG_CONTAINS_PIC_DATA
    (flags == FLAG_SOF + FLAG_EOF || flags == FLAG_SOF) && p.block == 0
  }

  predicate IsLast(p: Packet) {
    HasFlag(p.flags, FLAG_EOF) && p.block == p.lastBlock
  }

  // ----- the parts of the machine

  /** dropFrameState. */
  function Dropped(c: Control): (r: Control)
    ensures r.strict == c.strict && r.next == c.next && r.decoding == c.decoding
  {
    var needIdr := c.strict || !c.processed || c.waitIdr;
    var c1 := c.(dropPending := false, waitIdr := needIdr, waitRfi := c.waitRfi || !needIdr, chain := []);
    if c.drops + 1 == CONSECUTIVE_DROP_LIMIT then c1.(drops := 0, waitIdr := true, asked := c.asked + [IdrFrame])
    else c1.(drops := c.drops + 1)
  }

  /** The frame is over, and the next one expected. */
  function LeftFrame(c: Control, frame: U32): Control {
    c.(decoding := false, next := Wrap32(frame + 1))
  }

  /** The host is asked for what is waited for. */
  function Told(c: Control, frame: U32): Control {
    c.(asked := c.asked + [if c.waitIdr then IdrFrame else Invalidate(c.start, frame)])
  }

  /** A frame turns out to be unusable while it is put together. */
  function GivenUp(c: Control, frame: U32): (r: Control)
    ensures r.strict == c.strict
  {
    Told(Dropped(LeftFrame(c, frame)), frame)
  }

  /** The numbers of the packets of a frame must follow one another. */
  predicate Corrupt(c: Control, p: Packet) {
    IsBefore24(p.index, Wrap24(c.last + 1)) || (!HasFlag(p.flags, FLAG_SOF) && p.index != Wrap24(c.last + 1))
  }

  /** The first packet of a frame. */
  function Begun(c: Control, frame: U32): (r: Control)
    ensures r.strict == c.strict
  {
    var c1 := if IsBefore32(c.next, frame) then Dropped(c.(next := frame, waitSuccess := true)) else c;
    c1.(decoding := true, idr := false, freed := false)
  }

  /** The wait for an invalidation is over, by what the header says or in the hope of it. */
  function Freed(c: Control, byHeader: bool): Control {
    c.(waitRfi := false, waitSuccess := false, freed := byHeader || c.freed)
  }

  /** The header announces an IDR frame, of a codec whose stream is not looked into. */
  function Announced(c: Control): Control {
    c.(waitIdr := false, waitSuccess := false, idr := true)
  }

  /** What the frame header says about the frame. */
  function Headed(c: Control, s: Session, frame: U32, payload: seq<Byte>): (r: Control)
    ensures r.strict == c.strict
  {
    if !(s.version.AtLeast(7, 1, 350) && |payload| >= 4) then
      if c.waitRfi then Freed(c.(asked := c.asked + [Invalidate(c.start, Wrap32(frame - 1))]), false) else c
    else
      var c1 := if payload[3] == 2 && s.codec == Other then Announced(c) else c;
      if (payload[3] == 2 || payload[3] == 4 || payload[3] == 5) && c1.waitRfi then Freed(c1, true) else c1
  }

  function WithLength(c: Control, s: Session, payload: seq<Byte>): (r: Control)
    ensures r.strict == c.strict
  {
    if s.codec == Other && |payload| >= 6 then c.(lastLength := (payload[4] as int) + (payload[5] as int) * 0x100)
      else c
  }

  /** An IDR slice ends all waiting. */
  function Recovered(c: Control): Control {
    c.(waitIdr := false, waitRfi := false, waitSuccess := false, idr := true)
  }

  /** The fragments of a packet join the chain. */
  function Taken(c: Control, fragments: seq<Fragment>, idr: bool): (r: Control)
    ensures r.strict == c.strict
  {
    var c1 := c.(chain := c.chain + fragments);
    if idr then Recovered(c1) else c1
  }

  /** The frame as it goes to the decoder: an IDR frame if it was found to be one, or starts with parameter
      sets. */
  function UnitOf(c: Control, frame: U32, answer: Answer): Unit
    requires c.chain != []
  {
    Unit(frame, c.chain[0].kind != PicData || c.idr, c.freed, c.chain, answer)
  }

  /** The decoder has got the frame: drops count anew, and invalidation starts behind it. */
  function Passed(c: Control, u: Unit): Control {
    c.(submitted := c.submitted + [u], chain := [], drops := 0, start := c.next)
  }

  /** LiCompleteVideoFrame and requestDecoderRefresh: after NeedIdr the machine waits for an IDR frame. */
  function Answered(c: Control, u: Unit): Control {
    if u.answer == NeedIdr then c.(waitIdr := true, dropPending := true, asked := c.asked + [IdrFrame])
    else c.(processed := c.processed || u.idr)
  }

  function Sent(c: Control, u: Unit): Control {
    Answered(Passed(c, u), u)
  }

  /** reassembleFrame, with the decoder's answer. */
  function Submitted(c: Control, frame: U32, answer: Answer): (r: Control)
    ensures r.strict == c.strict && r.next == c.next && r.decoding == c.decoding
  {
    if c.chain == [] then c else Sent(c, UnitOf(c, frame, answer))
  }

  /** A complete frame is dropped because another kind of frame is waited for. */
  function DroppedWaiting(c: Control, frame: U32): (r: Control)
    ensures r.strict == c.strict && r.next == c.next && r.decoding == c.decoding
  {
    var told := if c.waitIdr then (if c.waitSuccess then [IdrFrame] else []) else [Invalidate(c.start, frame)];
    Dropped(c.(asked := c.asked + told, waitSuccess := false))
  }

  /** The last packet of a frame has come. */
  function Finished(c: Control, frame: U32, answer: Answer): (r: Control)
    ensures r.strict == c.strict && r.next == Wrap32(frame + 1) && !r.decoding
  {
    var c1 := LeftFrame(c, frame);
    if c1.waitIdr || c1.waitRfi then DroppedWaiting(c1, frame)
    else if c1.dropPending && !(c1.chain != [] && c1.idr) then Dropped(c1)
    else Submitted(c1.(dropPending := false), frame, answer)
  }

  /** notifyFrameLost. */
  function Lost(c: Control, frame: U32): (r: Control)
    ensures r.strict == c.strict
  {
    var c1 := Dropped(c);
    if c1.waitIdr then c1 else Told(c1.(next := Wrap32(frame + 1)), frame)
  }

  // ----- reading a packet

  function HeaderSize(v: Version, first: Byte): nat {
    if v.AtLeast(7, 1, 450) then (if first == 1 then 8 else 44)
    else if v.AtLeast(7, 1, 446) then (if first == 1 then 8 else 41)
    else if v.AtLeast(7, 1, 415) then (if first == 1 then 8 else 24)
    else if v.AtLeast(7, 1, 350) then 8
    else if v.AtLeast(7, 1, 320) then 12
    else if v.AtLeast(5, 0, 0) then 8
    else 0
  }

  /** Where the frame data of a first packet starts, behind the frame header. */
  function DataStart(v: Version, d: seq<Byte>): (at: nat)
    requires |d| > 0
    ensures at <= |d|
  {
    var size := HeaderSize(v, d[0]);
    if |d| >= size then size else 0
  }

  /** Behind all SEI that follow one another. */
  function PastSei(codec: Codec, d: seq<Byte>, at: nat): (r: nat)
    requires at <= |d|
    ensures at <= r <= |d|
    decreases |d| - at
  {
    if at < |d| && NalAt(codec, d, at, |d|) == Sei then PastSei(codec, d, NextNal(d, at, |d|)) else at
  }

  /** Where a first packet of an H.264 or HEVC frame is taken from: behind padding, a delimiter and SEI. */
  function StreamStart(codec: Codec, d: seq<Byte>, at: nat): (r: nat)
    requires at <= |d|
    ensures at <= r <= |d|
  {
    var a := if StartLength(d, at, |d|) == 0 then NextNal(d, at, |d|) else at;
    PastSei(codec, d, if NalAt(codec, d, a, |d|) == Delimiter then NextNal(d, a, |d|) else a)
  }

  predicate IdrFrameStart(codec: Codec, d: seq<Byte>, at: nat)
    requires at <= |d|
  {
    (codec == H264 && NalAt(codec, d, at, |d|) == Sps) || (codec == H265 && NalAt(codec, d, at, |d|) == Vps)
  }

  /** The fragments of a packet, and whether it holds an IDR slice that the slow path meets. */
  ghost function FragmentsOf(s: Session, p: Packet): (seq<Fragment>, bool) {
    var d := p.payload;
    if !IsFirst(p) || d == [] then ([FragmentOf(s.codec, d, 0, |d|, true)], false)
    else
      if s.codec == Other then ([FragmentOf(s.codec, d, DataStart(s.version, d), |d|, true)], false)
      else FirstFragments(s, d)
  }

  function BehindPps(codec: Codec, d: seq<Byte>, at: nat): (r: nat)
    requires at <= |d|
    ensures at <= r <= |d|
  {
    if NalAt(codec, d, at, |d|) == Pps then NextNal(d, at, |d|) else at
  }

  function WithoutPps(codec: Codec, d: seq<Byte>, at: nat): Fragment
    requires at <= |d|
  {
    FragmentOf(codec, d, BehindPps(codec, d, at), |d|, true)
  }

  /** The fragments of the first packet of an H.264 or HEVC frame: the slow path for one that starts with
      parameter sets, else a single one, without the PPS some encoders put in front. */
  ghost function FirstFragments(s: Session, d: seq<Byte>): (seq<Fragment>, bool)
    requires d != []
  {
    var at := StreamStart(s.codec, d, DataStart(s.version, d));
    if IdrFrameStart(s.codec, d, at) then
      var fragments := Rest(s.codec, d, at, |d|);
      (fragments, EndsReused(fragments))
    else
      ([WithoutPps(s.codec, d, at)], false)
  }

  /** The size of the frame header in the packet. */
  function HeaderIn(s: Session, p: Packet): nat {
    if IsFirst(p) && p.payload != [] then HeaderSize(s.version, p.payload[0]) else 0
  }

  /** What is left of the packet behind the header. */
  function LengthIn(s: Session, p: Packet): nat {
    if IsFirst(p) && p.payload != [] then |p.payload| - DataStart(s.version, p.payload) else |p.payload|
  }

  /** The length given for the last packet of a frame does not fit the packet. */
  predicate BadLength(c: Control, s: Session, p: Packet) {
    s.codec == Other && IsLast(p) && !(c.lastLength > HeaderIn(s, p) && c.lastLength - HeaderIn(s, p) <= LengthIn(s, p))
  }

  /** The fragments, with the padding behind the last packet of other codecs cut off. */
  ghost function Trimmed(c: Control, s: Session, p: Packet): (seq<Fragment>, bool)
    requires !BadLength(c, s, p)
  {
    if s.codec == Other && IsLast(p) then
      var at := |p.payload| - LengthIn(s, p);
      ([FragmentOf(s.codec, p.payload, at, at + c.lastLength - HeaderIn(s, p), true)], false)
    else FragmentsOf(s, p)
  }

  // ----- one packet

  /** The packet is of a frame already passed. */
  predicate Behind(c: Control, p: Packet) { IsBefore32(p.frame, c.next) }

  /** The state when the payload is taken. */
  function Opened(c: Control, s: Session, p: Packet): (r: Control)
    ensures r.strict == c.strict
  {
    var c1 := (if IsFirst(p) then Begun(c, p.frame) else c).(last := p.index);
    if IsFirst(p) && p.payload != [] then WithLength(Headed(c1, s, p.frame, p.payload), s, p.payload) else c1
  }

  ghost function Closed(c: Control, s: Session, p: Packet, answer: Answer): (r: Control)
    ensures r.strict == c.strict
  {
    if BadLength(c, s, p) then GivenUp(c, p.frame)
    else
      var (fragments, idr) := Trimmed(c, s, p);
      Added(c, fragments, idr, IsLast(p), p.frame, answer)
  }

  /** The payload of a packet of the frame has been read. */
  function Added(c: Control, fragments: seq<Fragment>, idr: bool, last: bool, frame: U32, answer: Answer): (r: Control)
    ensures r.strict == c.strict
  {
    if last then Finished(Taken(c, fragments, idr), frame, answer) else Taken(c, fragments, idr)
  }

  /** processRtpPayload. */
  ghost function AfterPacket(c: Control, s: Session, p: Packet, answer: Answer): (r: Control)
    ensures r.strict == c.strict
  {
    if Behind(c, p) then c
    else if Corrupt(c, p) then GivenUp(c, p.frame)
    else Closed(Opened(c, s, p), s, p, answer)
  }
}
