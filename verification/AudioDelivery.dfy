/** The audio queue and its sender over whole runs: the sender's packets are known by their positions in an
    unbounded stream, of which the numbers in the packets only tell the last 16 bits. */
module AudioDelivery {
  import opened Gf256
  import opened Systems
  import opened SequenceNumbers
  import opened Wrappers
  import opened AudioControl
  import opened AudioFec
  import opened AudioQueue
  import opened AudioPlaces
  import AudioRuns
  import Oblas

  /** What the sender has sent: four packets at a time, by the position of the first. */
  type Sender = map<int, Word>

  /** The position next to origin, within half a circle, that has the number. */
  function Nearest(origin: nat, x: U16): int {
    var d := Ahead(NumberAt(origin), x);
    if d < 0x8000 then origin + d else origin + d - 0x1_0000
  }

  /** The sender's packets around the position, by their numbers. */
  ghost function View(sender: Sender, origin: nat): Words {
    map x: U16 | 0 <= x < 0x1_0000 && Nearest(origin, x) in sender :: sender[Nearest(origin, x)]
  }

  /** The packet is one of the four at the position, or parity of theirs. */
  ghost predicate SentAt(p: Packet, position: nat, sender: Sender, duration: nat) {
    position in sender && HonestPacket(p, map[NumberAt(position) := sender[position]], duration)
  }

  /** The packet comes before the queue has got half a circle away from its position. */
  predicate InReach(origin: nat, position: nat) { -0x8000 <= position - origin < 0x8000 }

  lemma NearestIs(origin: nat, position: nat)
    requires InReach(origin, position)
    ensures Nearest(origin, NumberAt(position)) == position
  {
    NumberAtWraps(origin);
    NumberAtWraps(position);
  }

  lemma HonestInView(p: Packet, position: nat, sender: Sender, origin: nat, duration: nat)
    requires SentAt(p, position, sender, duration) && InReach(origin, position)
    ensures HonestPacket(p, View(sender, origin), duration)
  {
    NearestIs(origin, position);
    var words := View(sender, origin);
    assert NumberAt(position) in words && words[NumberAt(position)] == sender[position];
  }

  // ----- the view moves on with the queue

  /** Where a receipt leads in the stream. */
  function PositionAfter(r: Receipt, position: nat): nat { position + r.jump + |r.units| }

  /** The position of the first unit of a receipt. */
  function StartOf(r: Receipt, position: nat): nat { position + r.jump }

  lemma NearestAbove(origin: nat, oldest: U16, x: U16)
    requires oldest == NumberAt(origin) && Ahead(oldest, x) < 0x8000
    ensures Nearest(origin, x) == origin + Ahead(oldest, x)
  {}

  lemma ViewStays(sender: Sender, oldest: U16, origin: nat, oldest': U16, origin': nat, base: U16)
    requires oldest == NumberAt(origin) && oldest' == NumberAt(origin')
    requires StaysAt(oldest, origin, oldest', origin', base)
    ensures base in View(sender, origin) <==> base in View(sender, origin')
    ensures base in View(sender, origin) ==> View(sender, origin)[base] == View(sender, origin')[base]
  {
    NearestAbove(origin, oldest, base);
    NearestAbove(origin', oldest', base);
  }

  lemma FaithfulMoves(b: FecBlock, words: Words, words': Words, duration: nat)
    requires Slots(b) && |b.ctl.marks| == 6 && FaithfulBlock(b, words, duration)
    requires b.ctl.base in words' && words'[b.ctl.base] == words[b.ctl.base]
    ensures FaithfulBlock(b, words', duration)
  {}

  /** What waits stays the sender's as the queue moves on. */
  lemma AllFaithfulMoves(blocks: seq<FecBlock>, q: Queue, r: Receipt, position: nat, position': nat, sender: Sender,
                         duration: nat)
    requires Inv(q) && Inv(r.queue) && StandsAt(q, position) && Near(q, r) && r.queue.blocks == Controls(blocks)
    requires StandsAt(r.queue, position') && position' == PositionAfter(r, position)
    requires AllSlots(blocks) && AllFaithful(blocks, View(sender, Origin(position)), duration)
    ensures AllFaithful(blocks, View(sender, Origin(position')), duration)
  {
    var words, words' := View(sender, Origin(position)), View(sender, Origin(position'));
    OriginIs(q, position);
    OriginIs(r.queue, position');
    forall i | 0 <= i < |blocks|
      ensures FaithfulBlock(blocks[i], words', duration)
    {
      BlocksStay(q, r, position, position', i);
      ViewStays(sender, q.oldest, Origin(position), r.queue.oldest, Origin(position'), blocks[i].ctl.base);
      FaithfulMoves(blocks[i], words, words', duration);
    }
  }

  // ----- what is handed out

  /** Unless it is a stand-in, the output is the sender's packet at the position. */
  ghost predicate FromSender(o: Output, position: nat, sender: Sender, duration: nat) {
    o.Stored? ==>
      Origin(position) in sender && WordOk(sender[Origin(position)]) &&
        o.packet == PacketOf(sender[Origin(position)], NumberAt(Origin(position)), position % 4, duration)
  }

  lemma BaseAbove(origin: nat, oldest: U16, n: U16, position: nat)
    requires oldest == NumberAt(origin) && origin % 4 == 0 && n == NumberAt(position)
    requires Ahead(oldest, n) == position - origin < 0x8000
    ensures BaseOf(n) == NumberAt(Origin(position)) && n % 4 == position % 4
    ensures Nearest(origin, BaseOf(n)) == Origin(position)
  {
    NumberAtWraps(position);
    NumberAtWraps(Origin(position));
    WrapKeepsIndex(position);
    NearestIs(origin, Origin(position));
  }

  lemma OutputIsSenders(o: Output, n: U16, origin: nat, oldest: U16, position: nat, sender: Sender, duration: nat)
    requires IsSenders(o, n, View(sender, origin), duration)
    requires oldest == NumberAt(origin) && origin % 4 == 0 && n == NumberAt(position)
    requires Ahead(oldest, n) == position - origin < 0x8000
    ensures FromSender(o, position, sender, duration)
  {
    BaseAbove(origin, oldest, n, position);
  }

  /** The outputs are those of the units, which stand at the positions from start on. */
  ghost predicate AllFromSender(out: seq<Output>, start: nat, sender: Sender, duration: nat) {
    forall i :: 0 <= i < |out| ==> FromSender(out[i], Further(start, i), sender, duration)
  }

  /** The position i further on. */
  function Further(position: nat, i: nat): nat { position + i }

  lemma UnitAt(q: Queue, r: Receipt, position: nat, i: nat, at: nat)
    requires Inv(q) && StandsAt(q, position) && Near(q, r) && i < |r.units| && at == position + r.jump + i
    requires Consecutive(r.units, Advance(q.next, r.jump))
    ensures r.units[i].seqNum == NumberAt(at) && Ahead(q.oldest, r.units[i].seqNum) == at - Origin(position) < 0x8000
  {
    OriginIs(q, position);
    NumbersMoveTo(q.next, position, r.jump, i, at);
    ConsecutiveAt(r.units, Advance(q.next, r.jump), i);
  }

  lemma OutputAt(q: Queue, r: Receipt, position: nat, o: Output, i: nat, at: nat, sender: Sender, duration: nat)
    requires Inv(q) && StandsAt(q, position) && Near(q, r) && i < |r.units| && at == position + r.jump + i
    requires Consecutive(r.units, Advance(q.next, r.jump))
    requires IsSenders(o, r.units[i].seqNum, View(sender, Origin(position)), duration)
    ensures FromSender(o, at, sender, duration)
  {
    UnitAt(q, r, position, i, at);
    OriginIs(q, position);
    OutputIsSenders(o, r.units[i].seqNum, Origin(position), q.oldest, at, sender, duration);
  }

  lemma OutputsAreSenders(q: Queue, r: Receipt, position: nat, out: seq<Output>, sender: Sender, duration: nat)
    requires Inv(q) && StandsAt(q, position) && Near(q, r) && Consecutive(r.units, Advance(q.next, r.jump))
    requires |out| == |r.units| && AllSenders(out, r.units, View(sender, Origin(position)), duration)
    ensures AllFromSender(out, StartOf(r, position), sender, duration)
  {
    var start := StartOf(r, position);
    forall i | 0 <= i < |out|
      ensures FromSender(out[i], Further(start, i), sender, duration)
    {
      OutputAt(q, r, position, out[i], i, Further(start, i), sender, duration);
    }
  }

  // ----- one packet

  /** The queue stands at the position, and all it holds is the sender's. */
  ghost predicate Steady(q: RtpAudioQueue, position: nat, sender: Sender)
    reads q, q.rs.p
  {
    && q.Valid() && Inv(q.Ctl()) && StandsAt(q.Ctl(), position) && q.Faithful(View(sender, Origin(position)))
  }

  lemma StandsAfter(c: Queue, e: Event, r: Receipt, position: nat, duration: nat)
    requires CanReceive(c) && StandsAt(c, position) && r == Receive(c, e, duration)
    ensures StandsAt(r.queue, PositionAfter(r, position)) && Inv(r.queue)
    ensures Consecutive(r.units, Advance(c.next, r.jump))
  {
    ReceiveKeeps(c, e, duration);
    NumbersMoveTo(c.next, position, r.jump, |r.units|, PositionAfter(r, position));
  }

  /** What waits after a packet, and what it has led to, is the sender's. */
  lemma AfterReceive(c: Queue, e: Event, r: Receipt, blocks: seq<FecBlock>, out: seq<Output>, position: nat,
                     sender: Sender, duration: nat)
    requires CanReceive(c) && StandsAt(c, position) && r == Receive(c, e, duration)
    requires r.queue.blocks == Controls(blocks) && AllSlots(blocks) && |out| == |r.units|
    requires AllFaithful(blocks, View(sender, Origin(position)), duration)
    requires AllSenders(out, r.units, View(sender, Origin(position)), duration)
    ensures StandsAt(r.queue, PositionAfter(r, position)) && Inv(r.queue)
    ensures AllFaithful(blocks, View(sender, Origin(PositionAfter(r, position))), duration)
    ensures AllFromSender(out, StartOf(r, position), sender, duration)
  {
    StandsAfter(c, e, r, position, duration);
    if Unsynchronized(c) {
      ReceiveUnsynchronized(c, e, duration);
    } else {
      ReceiveNear(c, e, duration);
      AllFaithfulMoves(blocks, c, r, position, PositionAfter(r, position), sender, duration);
      OutputsAreSenders(c, r, position, out, sender, duration);
    }
  }

  /** A packet received: what the control state says, and the sender's packets at their positions. */
  method ReceiveSent(q: RtpAudioQueue, packet: Packet, now: nat, ghost at: nat, ghost position: nat,
                     ghost sender: Sender)
    returns (out: seq<Output>, ghost r: Receipt)
    requires Steady(q, position, sender) && CanReceive(q.Ctl())
    requires SentAt(packet, at, sender, q.duration) && InReach(Origin(position), at)
    modifies q, q.rs.p
    ensures r == Receive(old(q.Ctl()), Event(ArrivalOf(packet), now), q.duration) && q.Ctl() == r.queue
    ensures Steady(q, PositionAfter(r, position), sender)
    ensures AllMatch(out, r.units) && AllFromSender(out, StartOf(r, position), sender, q.duration)
  {
    ghost var c := q.Ctl();
    HonestInView(packet, at, sender, Origin(position), q.duration);
    out := q.ReceivePacket(packet, now, View(sender, Origin(position)));
    r := Receive(c, Event(ArrivalOf(packet), now), q.duration);
    AfterReceive(c, Event(ArrivalOf(packet), now), r, q.blocks, out, position, sender, q.duration);
  }

  // ----- whole runs

  /** Every packet is one the sender has sent, and comes in reach. at holds their positions. */
  ghost predicate AllSent(packets: seq<Packet>, at: seq<nat>, sender: Sender, duration: nat) {
    |packets| == |at| && forall i :: 0 <= i < |packets| ==> SentAt(packets[i], at[i], sender, duration)
  }

  /** Each packet comes in reach of where the queue then is. */
  ghost predicate AllInReach(step: (Queue, Event) --> Receipt, q: Queue, position: nat, events: seq<Event>,
                             at: seq<nat>)
    requires RunOk(step, q, events) && |events| == |at|
    decreases |events|
  {
    events == [] ||
    (InReach(Origin(position), at[0]) &&
     var r := step(q, events[0]);
     AllInReach(step, r.queue, position + r.jump + |r.units|, events[1..], at[1..]))
  }

  /** The outputs are those of the deliveries: stand-ins where these are losses, else the sender's packets of
      their positions. */
  ghost predicate PlayedFrom(out: seq<Output>, ds: seq<Delivery>, sender: Sender, duration: nat) {
    |out| == |ds| &&
    forall i :: 0 <= i < |out| ==> Matches(out[i], ds[i].unit) && FromSender(out[i], ds[i].position, sender, duration)
  }

  lemma PlayedFromJoin(first: seq<Output>, units: seq<Unit>, start: nat, rest: seq<Output>, ds: seq<Delivery>,
                       sender: Sender, duration: nat)
    requires AllMatch(first, units) && AllFromSender(first, start, sender, duration)
    requires PlayedFrom(rest, ds, sender, duration)
    ensures PlayedFrom(first + rest, Placed(units, start) + ds, sender, duration)
  {}

  lemma ReachFirst(step: (Queue, Event) --> Receipt, q: Queue, position: nat, events: seq<Event>, at: seq<nat>)
    requires RunOk(step, q, events) && |events| == |at| > 0 && AllInReach(step, q, position, events, at)
    ensures CanReceive(q) && step.requires(q, events[0]) && InReach(Origin(position), at[0])
    ensures var r := step(q, events[0]); var position' := position + r.jump + |r.units|;
      && RunOk(step, r.queue, events[1..]) && AllInReach(step, r.queue, position', events[1..], at[1..])
      && Deliveries(step, q, position, events)
        == Placed(r.units, position + r.jump) + Deliveries(step, r.queue, position', events[1..])
      && After(step, q, events) == After(step, r.queue, events[1..])
  {}

  lemma AllSentRest(packets: seq<Packet>, at: seq<nat>, sender: Sender, duration: nat)
    requires AllSent(packets, at, sender, duration) && packets != []
    ensures SentAt(packets[0], at[0], sender, duration) && AllSent(packets[1..], at[1..], sender, duration)
  {}

  lemma EventsRest(packets: seq<Packet>, times: seq<nat>)
    requires |packets| == |times| > 0
    ensures EventsOf(packets, times)[0] == Event(ArrivalOf(packets[0]), times[0])
    ensures EventsOf(packets, times)[1..] == EventsOf(packets[1..], times[1..])
  {}

  /** A run that can go on from the state: what it needs of the packets still to come. */
  ghost predicate Coming(step: (Queue, Event) --> Receipt, c: Queue, position: nat, events: seq<Event>, at: seq<nat>) {
    |events| == |at| && RunOk(step, c, events) && AllInReach(step, c, position, events, at)
  }

  /** The deliveries of the run, and the queue after it. */
  ghost function Outcome(step: (Queue, Event) --> Receipt, c: Queue, position: nat, events: seq<Event>)
    : (seq<Delivery>, Queue)
    requires RunOk(step, c, events)
  {
    (Deliveries(step, c, position, events), After(step, c, events))
  }

  /** The first packet of a run. */
  lemma ComingFirst(step: (Queue, Event) --> Receipt, c: Queue, position: nat, events: seq<Event>, at: seq<nat>)
    requires events != [] && Coming(step, c, position, events, at)
    ensures CanReceive(c) && step.requires(c, events[0]) && InReach(Origin(position), at[0])
    ensures var r := step(c, events[0]);
      && Coming(step, r.queue, PositionAfter(r, position), events[1..], at[1..])
      && Outcome(step, c, position, events)
        == (Placed(r.units, StartOf(r, position)) + Outcome(step, r.queue, PositionAfter(r, position), events[1..]).0,
            Outcome(step, r.queue, PositionAfter(r, position), events[1..]).1)
  {
    ReachFirst(step, c, position, events, at);
  }

  /** The packets are those of the events. */
  ghost predicate AreEvents(packets: seq<Packet>, times: seq<nat>, events: seq<Event>) {
    |packets| == |times| && events == EventsOf(packets, times)
  }

  lemma AreEventsRest(packets: seq<Packet>, times: seq<nat>, events: seq<Event>)
    requires AreEvents(packets, times, events) && packets != []
    ensures events != [] && times != [] && events[0] == Event(ArrivalOf(packets[0]), times[0])
    ensures AreEvents(packets[1..], times[1..], events[1..])
  {
    EventsRest(packets, times);
  }

  method PlayAllSent(q: RtpAudioQueue, packets: seq<Packet>, times: seq<nat>, ghost at: seq<nat>, ghost c: Queue,
                     ghost events: seq<Event>, ghost position: nat, ghost sender: Sender)
    returns (out: seq<Output>, ghost position': nat)
    requires AreEvents(packets, times, events) && Steady(q, position, sender) && c == q.Ctl()
    requires AllSent(packets, at, sender, q.duration) && Coming(Receiving(q.duration), c, position, events, at)
    modifies q, q.rs.p
    ensures Steady(q, position', sender) && q.Ctl() == Outcome(Receiving(q.duration), c, position, events).1
    ensures PlayedFrom(out, Outcome(Receiving(q.duration), c, position, events).0, sender, q.duration)
    decreases |packets|
  {
    if |packets| == 0 {
      return [], position;
    }
    AllSentRest(packets, at, sender, q.duration);
    AreEventsRest(packets, times, events);
    ComingFirst(Receiving(q.duration), c, position, events, at);
    AudioRuns.ReceivingIs(c, events[0], q.duration);
    var first, r := ReceiveSent(q, packets[0], times[0], at[0], position, sender);
    ghost var next := PositionAfter(r, position);
    ghost var ds := Outcome(Receiving(q.duration), r.queue, next, events[1..]).0;
    var rest;
    rest, position' := PlayAllSent(q, packets[1..], times[1..], at[1..], r.queue, events[1..], next, sender);
    PlayedFromJoin(first, r.units, StartOf(r, position), rest, ds, sender, q.duration);
    out := first + rest;
  }

  /** A new queue, at the start of the stream. */
  method NewQueue(packetDuration: nat, width: nat, ghost sender: Sender) returns (q: RtpAudioQueue)
    requires Oblas.VectorWidth(width)
    ensures fresh(q) && fresh(q.rs) && fresh(q.rs.p) && Steady(q, 0, sender) && q.duration == packetDuration
    ensures q.Ctl() == InitialQueue(false)
  {
    q := new RtpAudioQueue(false, packetDuration, width);
  }

  /** Over whole runs of an honest sender's packets, in whatever order and with whatever losses, as long as none
      comes half a circle too early or too late: what is played is in order, and each packet played is the
      sender's packet of its position. */
  method PlaySent(q: RtpAudioQueue, packets: seq<Packet>, times: seq<nat>, ghost at: seq<nat>, ghost position: nat,
                  ghost sender: Sender)
    returns (out: seq<Output>, ghost ds: seq<Delivery>)
    requires |packets| == |times| && Steady(q, position, sender) && AllSent(packets, at, sender, q.duration)
    requires Undisturbed(Receiving(q.duration), q.Ctl(), EventsOf(packets, times))
    requires RunOk(Receiving(q.duration), q.Ctl(), EventsOf(packets, times)) ==>
      AllInReach(Receiving(q.duration), q.Ctl(), position, EventsOf(packets, times), at)
    modifies q, q.rs.p
    ensures q.Valid() && Inv(q.Ctl()) && ContinuesFrom(old(q.Ctl()), position, ds)
    ensures PlayedFrom(out, ds, sender, q.duration)
  {
    RunDeliversInOrder(q.Ctl(), position, EventsOf(packets, times), q.duration);
    ds := Deliveries(Receiving(q.duration), q.Ctl(), position, EventsOf(packets, times));
    ghost var end;
    out, end := PlayAllSent(q, packets, times, at, q.Ctl(), EventsOf(packets, times), position, sender);
  }

  /** The sender's packets from the position on, one after the other, and no stand-in. */
  ghost predicate WithoutGap(out: seq<Output>, position: nat, sender: Sender, duration: nat) {
    forall i :: 0 <= i < |out| ==> out[i].Stored? && FromSender(out[i], position + i, sender, duration)
  }

  lemma PlayedWithoutGap(out: seq<Output>, ds: seq<Delivery>, position: nat, sender: Sender, duration: nat)
    requires PlayedFrom(out, ds, sender, duration) && AudioRuns.AllPlayed(ds, position)
    ensures WithoutGap(out, position, sender, duration)
  {
    forall i | 0 <= i < |out|
      ensures out[i].Stored? && FromSender(out[i], position + i, sender, duration)
    {
      assert ds[i].position == position + i && Matches(out[i], ds[i].unit);
    }
  }

  /** When the blocks come in turn, and nothing of a block is missing when the next one begins, every packet
      played is the sender's, from the position on without a gap. */
  method PlayInTurn(q: RtpAudioQueue, packets: seq<Packet>, times: seq<nat>, ghost at: seq<nat>, ghost position: nat,
                    ghost sender: Sender, ghost b: U16, ghost f: AudioRuns.Fill, ghost size: nat,
                    ghost turns: seq<AudioRuns.Turn>)
    returns (out: seq<Output>)
    requires |packets| == |times| && Steady(q, position, sender) && AllSent(packets, at, sender, q.duration)
    requires AudioRuns.Holds(q.Ctl(), b, f, size) && AudioRuns.InTurn(turns, b, f)
    requires EventsOf(packets, times) == AudioRuns.EventsOf(turns, b, f, size)
    requires RunOk(Receiving(q.duration), q.Ctl(), EventsOf(packets, times)) ==>
      AllInReach(Receiving(q.duration), q.Ctl(), position, EventsOf(packets, times), at)
    modifies q, q.rs.p
    ensures |out| == 4 * AudioRuns.BlocksBegun(turns) + AudioRuns.LastFill(turns, b, f).next - f.next
    ensures WithoutGap(out, position, sender, q.duration)
  {
    AudioRuns.InTurnPlays(q.Ctl(), b, f, size, position, turns, q.duration);
    ghost var ds := Deliveries(Receiving(q.duration), q.Ctl(), position, EventsOf(packets, times));
    ghost var end;
    out, end := PlayAllSent(q, packets, times, at, q.Ctl(), EventsOf(packets, times), position, sender);
    PlayedWithoutGap(out, ds, position, sender, q.duration);
  }
}
