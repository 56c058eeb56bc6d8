/** Batching of relative mouse motion, InputStream.c: many callers add to one pair of deltas, and the send
    thread turns what has come together into packets. */
module MouseBatching {
  import opened BlockingQueue

  const INT16_MIN := -0x8000
  const INT16_MAX := 0x7FFF

  datatype Delta = Delta(x: int, y: int)

  const ZERO := Delta(0, 0)

  function Plus(a: Delta, b: Delta): Delta { Delta(a.x + b.x, a.y + b.y) }

  function Sum(ds: seq<Delta>): Delta {
    if ds == [] then ZERO else Plus(Sum(ds[..|ds| - 1]), ds[|ds| - 1])
  }

  lemma SumSnoc(ds: seq<Delta>, d: Delta)
    ensures Sum(ds + [d]) == Plus(Sum(ds), d)
  {
    assert (ds + [d])[..|ds + [d]| - 1] == ds;
  }

  // ----- splitting a delta into packets

  /** The part of d that the next packet takes. */
  function Clip(d: int): int {
    if d < INT16_MIN then INT16_MIN else if d > INT16_MAX then INT16_MAX else d
  }

  function ClipBoth(d: Delta): Delta { Delta(Clip(d.x), Clip(d.y)) }

  function Rest(d: Delta): Delta { Delta(d.x - Clip(d.x), d.y - Clip(d.y)) }

  predicate Fits(p: Delta) {
    INT16_MIN <= p.x <= INT16_MAX && INT16_MIN <= p.y <= INT16_MAX
  }

  ghost predicate AllFit(ps: seq<Delta>) {
    forall i :: 0 <= i < |ps| ==> Fits(ps[i])
  }

  function Size(d: Delta): nat {
    (if d.x < 0 then -d.x else d.x) + if d.y < 0 then -d.y else d.y
  }

  /** d can be made up of n packets. */
  predicate Within(d: Delta, n: nat) {
    n * INT16_MIN <= d.x <= n * INT16_MAX && n * INT16_MIN <= d.y <= n * INT16_MAX
  }

  lemma {:induction false} SumWithin(ps: seq<Delta>)
    requires AllFit(ps)
    ensures Within(Sum(ps), |ps|)
  {
    if ps != [] { SumWithin(ps[..|ps| - 1]); }
  }

  lemma RestWithin(d: Delta, n: nat)
    requires n > 0 && Within(d, n)
    ensures Within(Rest(d), n - 1)
  {
    assert (n - 1) * INT16_MIN == n * INT16_MIN - INT16_MIN && (n - 1) * INT16_MAX == n * INT16_MAX - INT16_MAX;
  }

  /** The loop of the send thread, with no new motion coming in: it ends, the packets make up the delta, and
      there is no shorter way to send it. */
  method SendAll(delta: Delta) returns (sent: seq<Delta>)
    ensures Sum(sent) == delta && AllFit(sent)
    ensures forall other: seq<Delta> :: AllFit(other) && Sum(other) == delta ==> |sent| <= |other|
  {
    var left := delta;
    sent := [];
    while left != ZERO
      invariant Plus(Sum(sent), left) == delta && AllFit(sent)
      invariant Needs(delta, |sent|, left)
      decreases Size(left)
    {
      NeedsMore(delta, |sent|, left);
      SumSnoc(sent, ClipBoth(left));
      sent, left := sent + [ClipBoth(left)], Rest(left);
    }
    forall other: seq<Delta> | AllFit(other) && Sum(other) == delta
      ensures |sent| <= |other|
    {
      SumWithin(other);
    }
  }

  /** Whoever can send delta in n packets has used k of them to come down to left. */
  ghost predicate Needs(delta: Delta, k: nat, left: Delta) {
    forall n: nat :: Within(delta, n) ==> n >= k && Within(left, n - k)
  }

  lemma NeedsMore(delta: Delta, k: nat, left: Delta)
    requires Needs(delta, k, left) && left != ZERO
    ensures Needs(delta, k + 1, Rest(left))
  {
    forall n: nat | Within(delta, n)
      ensures n >= k + 1 && Within(Rest(left), n - (k + 1))
    {
      RestWithin(left, n - k);
    }
  }

  // ----- callers and the send thread

  /** The holder of a relative mouse packet in the packet queue; any other number is some other packet. */
  const MOUSE: Data := 0

  /** The send thread: between packets, with the mouse packet's holder in hand, or with the mutex released and
      a packet to send; it ends after a failed send, or when it is stopped between packets. */
  datatype Sender = Idle | Holding | Sending(packet: Delta) | Failed(packet: Delta) | Stopped

  /** stored and dirty are the batching state; preparing are the callers that have set dirty and not yet
      queued the holder. accepted, sent and refused are history: every delta added, every packet sent, and
      whether a holder could not be queued since the deltas were last all sent. */
  datatype Batching = Batching(stored: Delta, dirty: bool, preparing: set<nat>, q: Queue, sender: Sender,
                         accepted: seq<Delta>, sent: seq<Delta>, refused: bool)

  datatype Step =
    | Move(caller: nat, delta: Delta)
    | NoHolder(caller: nat)
    | QueueHolder(caller: nat)
    | QueueOther(other: Data)
    | Interrupt(flag: Flag)
    | Take
    | Split
    | SendOk
    | SendFails
    | Stop

  predicate Can(s: Batching, step: Step) {
    match step
    case Move(caller, delta) => caller !in s.preparing && Fits(delta) && delta != ZERO
    case NoHolder(caller) => caller in s.preparing
    case QueueHolder(caller) => caller in s.preparing
    case QueueOther(other) => other != MOUSE
    case Interrupt(flag) => true
    case Take => s.sender == Idle && !ShouldWait(s.q) && AfterWait(s.q).1.Item?
    case Split => s.sender == Holding
    case SendOk => s.sender.Sending?
    case SendFails => s.sender.Sending?
    case Stop => s.sender == Idle
  }

  function Do(s: Batching, step: Step): Batching
    requires Can(s, step)
  {
    match step
    case Move(caller, delta) =>
      s.(stored := Plus(s.stored, delta), accepted := s.accepted + [delta], dirty := true,
         preparing := if s.dirty then s.preparing else s.preparing + {caller})
    case NoHolder(caller) => s.(preparing := s.preparing - {caller}, dirty := false, refused := true)
    case QueueHolder(caller) =>
      var (q, answer) := AfterOffer(s.q, MOUSE);
      if answer.Success? then s.(preparing := s.preparing - {caller}, q := q)
      else s.(preparing := s.preparing - {caller}, dirty := false, refused := true)
    case QueueOther(other) => s.(q := AfterOffer(s.q, other).0)
    case Interrupt(flag) => s.(q := AfterFlag(s.q, flag))
    case Take =>
      var (q, answer) := AfterWait(s.q);
      s.(q := q, sender := if answer.data == MOUSE then Holding else Idle)
    case Split =>
      if s.stored == ZERO then s.(dirty := false, sender := Idle, refused := false)
      else s.(stored := Rest(s.stored), sender := Sending(ClipBoth(s.stored)))
    case SendOk => s.(sent := s.sent + [s.sender.packet], sender := Holding)
    case SendFails => s.(sender := Failed(s.sender.packet))
    case Stop => s.(sender := Stopped)
  }

  ghost predicate CanRun(s: Batching, steps: seq<Step>)
    decreases |steps|
  {
    steps == [] || (Can(s, steps[0]) && CanRun(Do(s, steps[0]), steps[1..]))
  }

  ghost function Run(s: Batching, steps: seq<Step>): Batching
    requires CanRun(s, steps)
    decreases |steps|
  {
    if steps == [] then s else Run(Do(s, steps[0]), steps[1..])
  }

  function Start(bound: nat): Batching {
    Batching(ZERO, false, {}, Queue([], bound, 0, false, false, false), Idle, [], [], false)
  }

  /** Motion that has left the stored deltas but has not been sent. */
  function InHand(sender: Sender): Delta {
    match sender
    case Sending(packet) => packet
    case Failed(packet) => packet
    case _ => ZERO
  }

  ghost predicate Balanced(accepted: seq<Delta>, sent: seq<Delta>, hand: Delta, stored: Delta) {
    Sum(accepted) == Plus(Plus(Sum(sent), hand), stored) && AllFit(sent) && Fits(hand)
  }

  /** All motion accepted has been sent, is in the sender's hand, or is stored; every packet fits. */
  ghost predicate Conserved(s: Batching) {
    Balanced(s.accepted, s.sent, InHand(s.sender), s.stored)
  }

  function MouseCount(items: seq<Data>): nat {
    if items == [] then 0 else (if items[0] == MOUSE then 1 else 0) + MouseCount(items[1..])
  }

  function Holders(s: Batching): nat {
    |s.preparing| + MouseCount(s.q.items) + if s.sender.Idle? || s.sender.Stopped? then 0 else 1
  }

  /** dirty tells exactly that one holder is being prepared, queued or processed. */
  ghost predicate OneHolder(s: Batching) {
    Holders(s) == if s.dirty then 1 else 0
  }

  /** Motion is left lying only while a holder is on its way, or after one could not be queued. */
  ghost predicate NothingLeft(s: Batching) {
    !s.dirty && !s.refused ==> s.stored == ZERO
  }

  ghost predicate Inv(s: Batching) {
    Conserved(s) && OneHolder(s) && NothingLeft(s)
  }

  lemma {:induction false} CountSnoc(items: seq<Data>, x: Data)
    ensures MouseCount(items + [x]) == MouseCount(items) + if x == MOUSE then 1 else 0
  {
    if items != [] {
      CountSnoc(items[1..], x);
      assert (items + [x])[1..] == items[1..] + [x];
    }
  }

  lemma MoveBalances(accepted: seq<Delta>, sent: seq<Delta>, hand: Delta, stored: Delta, delta: Delta)
    requires Balanced(accepted, sent, hand, stored)
    ensures Balanced(accepted + [delta], sent, hand, Plus(stored, delta))
  {
    SumSnoc(accepted, delta);
  }

  lemma SplitBalances(accepted: seq<Delta>, sent: seq<Delta>, stored: Delta, hand: Delta, rest: Delta)
    requires Balanced(accepted, sent, ZERO, stored) && Plus(hand, rest) == stored && Fits(hand)
    ensures Balanced(accepted, sent, hand, rest)
  {}

  lemma ClipAndRest(d: Delta)
    ensures Plus(ClipBoth(d), Rest(d)) == d && Fits(ClipBoth(d))
  {}

  lemma HandToSent(a: Delta, hand: Delta, stored: Delta)
    ensures Plus(Plus(Plus(a, hand), ZERO), stored) == Plus(Plus(a, hand), stored)
  {}

  lemma SendBalances(accepted: seq<Delta>, sent: seq<Delta>, hand: Delta, stored: Delta)
    requires Balanced(accepted, sent, hand, stored)
    ensures Balanced(accepted, sent + [hand], ZERO, stored)
  {
    SumSnoc(sent, hand);
    HandToSent(Sum(sent), hand, stored);
  }

  lemma MoveConserves(s: Batching, caller: nat, delta: Delta)
    requires Conserved(s) && Can(s, Move(caller, delta))
    ensures Conserved(Do(s, Move(caller, delta)))
  {
    MoveBalances(s.accepted, s.sent, InHand(s.sender), s.stored, delta);
  }

  /** Part of what is stored goes into the sender's hand. */
  lemma HandConserves(s: Batching, hand: Delta, rest: Delta)
    requires Conserved(s) && s.sender == Holding && Plus(hand, rest) == s.stored && Fits(hand)
    ensures Conserved(s.(stored := rest, sender := Sending(hand)))
  {
    SplitBalances(s.accepted, s.sent, s.stored, hand, rest);
  }

  lemma SplitConserves(s: Batching)
    requires Conserved(s) && Can(s, Split)
    ensures Conserved(Do(s, Split))
  {
    if s.stored != ZERO {
      ClipAndRest(s.stored);
      HandConserves(s, ClipBoth(s.stored), Rest(s.stored));
    }
  }

  lemma SendConserves(s: Batching)
    requires Conserved(s) && Can(s, SendOk)
    ensures Conserved(Do(s, SendOk))
  {
    SendBalances(s.accepted, s.sent, s.sender.packet, s.stored);
  }

  /** The other steps leave motion where it is. */
  lemma OtherwiseUnmoved(s: Batching, step: Step)
    requires Can(s, step) && !step.Move? && !step.Split? && !step.SendOk?
    ensures var s' := Do(s, step);
      s'.accepted == s.accepted && s'.sent == s.sent && InHand(s'.sender) == InHand(s.sender) && s'.stored == s.stored
  {}

  lemma StepConserves(s: Batching, step: Step)
    requires Conserved(s) && Can(s, step)
    ensures Conserved(Do(s, step))
  {
    if step.Move? {
      MoveConserves(s, step.caller, step.delta);
    } else if step.Split? {
      SplitConserves(s);
    } else if step.SendOk? {
      SendConserves(s);
    } else {
      OtherwiseUnmoved(s, step);
    }
  }

  lemma StepKeepsHolder(s: Batching, step: Step)
    requires OneHolder(s) && NothingLeft(s) && Can(s, step)
    ensures OneHolder(Do(s, step)) && NothingLeft(Do(s, step))
  {
    match step
    case QueueHolder(caller) => CountSnoc(s.q.items, MOUSE);
    case QueueOther(other) => CountSnoc(s.q.items, other);
    case _ =>
  }

  /** In every interleaving of callers and the send thread. */
  lemma {:induction false} RunKeeps(s: Batching, steps: seq<Step>)
    requires Inv(s) && CanRun(s, steps)
    ensures Inv(Run(s, steps))
    decreases |steps|
  {
    if steps != [] {
      StepConserves(s, steps[0]);
      StepKeepsHolder(s, steps[0]);
      RunKeeps(Do(s, steps[0]), steps[1..]);
    }
  }

  lemma StartKeeps(bound: nat)
    ensures Inv(Start(bound))
  {}

  lemma SettledSent(s: Batching)
    requires Inv(s) && !s.dirty && !s.refused
    ensures Sum(s.sent) == Sum(s.accepted)
  {
    assert Holders(s) == 0;
    assert InHand(s.sender) == ZERO;
  }

  /** Whenever nothing is pending and no holder was refused, exactly the accepted motion has been sent. */
  lemma AllSent(bound: nat, steps: seq<Step>)
    requires CanRun(Start(bound), steps)
    requires !Run(Start(bound), steps).dirty && !Run(Start(bound), steps).refused
    ensures Sum(Run(Start(bound), steps).sent) == Sum(Run(Start(bound), steps).accepted)
  {
    var start := Start(bound);
    StartKeeps(bound);
    RunKeeps(start, steps);
    SettledSent(Run(start, steps));
  }
}
