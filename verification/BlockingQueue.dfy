/** The blocking queue of LinkedBlockingQueue.c: its operations on a doubly linked list, and what they
    guarantee when any number of threads use them at once. */
module BlockingQueue {

  // ----- the queue as a value

  type Data = int

  datatype Queue = Queue(items: seq<Data>, bound: nat, lifetime: nat, shutdown: bool, draining: bool, userWake: bool)

  datatype Answer = Success | Item(data: Data) | Interrupted | BoundExceeded | NoElement | UserWake

  datatype Flag = Shutdown | Drain | Wake

  function AfterOffer(q: Queue, x: Data): (Queue, Answer) {
    if q.shutdown || q.draining then (q, Interrupted)
    else if |q.items| == q.bound then (q, BoundExceeded)
    else (q.(items := q.items + [x], lifetime := q.lifetime + 1), Success)
  }

  function AfterPeek(q: Queue): Answer {
    if q.shutdown then Interrupted
    else if q.items != [] then Item(q.items[0])
    else if q.draining then Interrupted
    else NoElement
  }

  function AfterPoll(q: Queue): (Queue, Answer) {
    var answer := AfterPeek(q);
    (if answer.Item? then q.(items := q.items[1..]) else q, answer)
  }

  /** The consumer has nothing to wake up for. */
  predicate ShouldWait(q: Queue) {
    q.items == [] && !q.draining && !q.shutdown && !q.userWake
  }

  function AfterWait(q: Queue): (Queue, Answer)
    requires !ShouldWait(q)
  {
    if q.shutdown then (q, Interrupted)
    else if q.userWake then (q.(userWake := false), UserWake)
    else if q.items == [] then (q, Interrupted)
    else (q.(items := q.items[1..]), Item(q.items[0]))
  }

  function AfterFlag(q: Queue, flag: Flag): Queue {
    match flag
    case Shutdown => q.(shutdown := true)
    case Drain => q.(draining := true)
    case Wake => q.(userWake := true)
  }

  // ----- the queue as a linked list

  class Entry {
    var flink: Entry?
    var blink: Entry?
    var data: Data

    constructor ()
    {
      flink, blink, data := null, null, 0;
    }
  }

  /** What the entries must look like to be the list nodes. */
  ghost predicate Linked(nodes: seq<Entry>, head: Entry?, tail: Entry?)
    reads nodes
  {
    && (if nodes == [] then head == null && tail == null else head == nodes[0] && tail == nodes[|nodes| - 1])
    && (forall i, j :: 0 <= i < j < |nodes| ==> nodes[i] != nodes[j])
    && (forall i :: 0 <= i < |nodes| - 1 ==> nodes[i].flink == nodes[i + 1])
    && (forall i :: 0 < i < |nodes| ==> nodes[i].blink == nodes[i - 1])
    && (nodes != [] ==> nodes[|nodes| - 1].flink == null && nodes[0].blink == null)
  }

  ghost predicate Holds(nodes: seq<Entry>, items: seq<Data>)
    reads nodes
  {
    |items| == |nodes| && forall i :: 0 <= i < |nodes| ==> nodes[i].data == items[i]
  }

  /** The operations, as they are between taking and releasing the mutex. */
  class LinkedBlockingQueue {
    var head: Entry?
    var tail: Entry?
    const sizeBound: nat
    var currentSize: nat
    var lifetimeSize: nat
    var shutdown: bool
    var draining: bool
    var pendingUserWake: bool
    // The entries in the list, and what they hold.
    ghost var nodes: seq<Entry>
    ghost var items: seq<Data>

    ghost predicate Valid()
      reads this, nodes
    {
      Linked(nodes, head, tail) && Holds(nodes, items) && currentSize == |nodes|
    }

    ghost function Value(): Queue
      reads this
    {
      Queue(items, sizeBound, lifetimeSize, shutdown, draining, pendingUserWake)
    }

    constructor (sizeBound: nat)
      ensures Valid() && Value() == Queue([], sizeBound, 0, false, false, false) && nodes == []
    {
      head, tail, currentSize, lifetimeSize := null, null, 0, 0;
      shutdown, draining, pendingUserWake := false, false, false;
      this.sizeBound := sizeBound;
      nodes, items := [], [];
    }

    /** LbqOfferQueueItem; signal tells that the condition variable is signalled after the mutex is released. */
    method Offer(x: Data, entry: Entry) returns (answer: Answer, signal: bool)
      requires Valid() && entry !in nodes
      modifies `head, `tail, `nodes, `items, `currentSize, `lifetimeSize, nodes, entry
      ensures Valid() && (Value(), answer) == AfterOffer(old(Value()), x)
      ensures signal <==> answer.Success? && old(Value()).items == []
      ensures nodes == if answer.Success? then old(nodes) + [entry] else old(nodes)
    {
      signal := false;
      Fill(entry, x);
      if shutdown || draining {
        return Interrupted, false;
      }
      if currentSize == sizeBound {
        return BoundExceeded, false;
      }
      signal := head == null;
      Append(entry);
      answer := Success;
    }

    method Append(entry: Entry)
      requires Valid() && entry !in nodes && entry.flink == null
      modifies `head, `tail, `nodes, `items, `currentSize, `lifetimeSize, nodes, entry
      ensures Valid() && nodes == old(nodes) + [entry]
      ensures Value() == old(Value()).(items := old(items) + [old(entry.data)], lifetime := old(lifetimeSize) + 1)
    {
      LinkLast(entry);
      items := items + [entry.data];
      currentSize, lifetimeSize := currentSize + 1, lifetimeSize + 1;
    }

    method Fill(entry: Entry, x: Data)
      requires Valid() && entry !in nodes
      modifies entry
      ensures Valid() && entry.flink == null && entry.data == x
    {
      entry.flink := null;
      entry.data := x;
    }

    /** Links an entry that holds its data already. */
    method LinkLast(entry: Entry)
      requires Linked(nodes, head, tail) && Holds(nodes, items) && entry !in nodes && entry.flink == null
      modifies `head, `tail, `nodes, nodes, entry
      ensures Linked(nodes, head, tail) && nodes == old(nodes) + [entry]
      ensures entry.data == old(entry.data) && Holds(nodes, items + [entry.data])
    {
      if head == null {
        head := entry;
        entry.blink := null;
      } else {
        tail.flink := entry;
        entry.blink := tail;
      }
      tail := entry;
      nodes := nodes + [entry];
    }

    /** Unlinks the first entry. */
    method TakeFirst() returns (x: Data)
      requires Valid() && head != null
      modifies this, nodes
      ensures Valid() && old(nodes) != [] && nodes == old(nodes)[1..]
      ensures x == old(Value()).items[0] && Value() == old(Value()).(items := old(Value()).items[1..])
    {
      var entry := head;
      assert |nodes| > 1 ==> entry.flink == nodes[1] && nodes[1] in nodes;
      head := entry.flink;
      nodes, items := nodes[1..], items[1..];
      currentSize := currentSize - 1;
      if head == null {
        tail := null;
      } else {
        head.blink := null;
      }
      x := entry.data;
    }

    method Peek() returns (answer: Answer)
      requires Valid()
      ensures answer == AfterPeek(Value())
    {
      if shutdown { return Interrupted; }
      if head == null {
        return if draining then Interrupted else NoElement;
      }
      answer := Item(head.data);
    }

    method Poll() returns (answer: Answer)
      requires Valid()
      modifies this, nodes
      ensures Valid() && (Value(), answer) == AfterPoll(old(Value()))
      ensures nodes == if answer.Item? then old(nodes)[1..] else old(nodes)
    {
      if shutdown { return Interrupted; }
      if head == null {
        return if draining then Interrupted else NoElement;
      }
      var x := TakeFirst();
      answer := Item(x);
    }

    /** What LbqWaitForQueueElement tests before it sleeps on the condition variable. */
    predicate MustSleep()
      reads this
    {
      head == null && !draining && !shutdown && !pendingUserWake
    }

    /** LbqWaitForQueueElement, once there is something to wake up for. */
    method Wait() returns (answer: Answer)
      requires Valid() && !MustSleep()
      modifies this, nodes
      ensures Valid() && !ShouldWait(old(Value())) && (Value(), answer) == AfterWait(old(Value()))
      ensures nodes == if answer.Item? then old(nodes)[1..] else old(nodes)
    {
      if shutdown { return Interrupted; }
      if pendingUserWake {
        pendingUserWake := false;
        return UserWake;
      }
      if draining && head == null { return Interrupted; }
      var x := TakeFirst();
      answer := Item(x);
    }

    /** LbqFlushQueueItems: hands out the whole chain. */
    method Flush() returns (first: Entry?)
      requires Valid()
      modifies this
      ensures Valid() && nodes == [] && Value() == old(Value()).(items := [])
      ensures Linked(old(nodes), first, old(tail)) && Holds(old(nodes), old(items))
    {
      first := head;
      if head != null {
        head, tail, currentSize := null, null, 0;
        nodes, items := [], [];
      }
    }

    method Raise(flag: Flag)
      requires Valid()
      modifies this
      ensures Valid() && Value() == AfterFlag(old(Value()), flag) && nodes == old(nodes)
    {
      match flag
      case Shutdown => shutdown := true;
      case Drain => draining := true;
      case Wake => pendingUserWake := true;
    }
  }

  // ----- many threads

  /** Where a consumer is: outside of LbqWaitForQueueElement, about to take the mutex and test, or asleep. */
  datatype Waiter = Away | Testing | Asleep

  /** The queue, the consumers, and the threads that have released the mutex and are about to signal. All
      items ever accepted and all that have left are kept as history. */
  datatype State = State(q: Queue, waiters: seq<Waiter>, signalling: set<nat>, accepted: seq<Data>, gone: seq<Data>)

  /** What a thread does in one go; whatever happens under the mutex is one step. */
  datatype Step =
    | Offer(thread: nat, x: Data)
    | Raise(thread: nat, flag: Flag)
    | Signal(thread: nat, woken: nat)
    | Call(w: nat)
    | Test(w: nat)
    | Spurious(w: nat)
    | Poll
    | Flush

  predicate SomeAsleep(s: State) {
    exists w :: 0 <= w < |s.waiters| && s.waiters[w] == Asleep
  }

  /** A signal wakes a sleeping consumer, if there is one. */
  predicate Can(s: State, step: Step) {
    match step
    case Offer(thread, x) => thread !in s.signalling
    case Raise(thread, flag) => thread !in s.signalling
    case Signal(thread, woken) =>
      thread in s.signalling && (SomeAsleep(s) ==> woken < |s.waiters| && s.waiters[woken] == Asleep)
    case Call(w) => w < |s.waiters| && s.waiters[w] == Away
    case Test(w) => w < |s.waiters| && s.waiters[w] == Testing
    case Spurious(w) => w < |s.waiters| && s.waiters[w] == Asleep
    case Poll => true
    case Flush => true
  }

  /** What has left the queue with the answer. */
  function Left(answer: Answer): seq<Data> {
    if answer.Item? then [answer.data] else []
  }

  function Do(s: State, step: Step): State
    requires Can(s, step)
  {
    match step
    case Offer(thread, x) =>
      var (q, answer) := AfterOffer(s.q, x);
      s.(q := q, signalling := if answer.Success? && s.q.items == [] then s.signalling + {thread} else s.signalling,
         accepted := if answer.Success? then s.accepted + [x] else s.accepted)
    case Raise(thread, flag) => s.(q := AfterFlag(s.q, flag), signalling := s.signalling + {thread})
    case Signal(thread, woken) =>
      s.(signalling := s.signalling - {thread}, waiters := if SomeAsleep(s) then s.waiters[woken := Testing]
        else s.waiters)
    case Call(w) => s.(waiters := s.waiters[w := Testing])
    case Test(w) =>
      if ShouldWait(s.q) then s.(waiters := s.waiters[w := Asleep])
      else
        var (q, answer) := AfterWait(s.q);
        s.(q := q, waiters := s.waiters[w := Away], gone := s.gone + Left(answer))
    case Spurious(w) => s.(waiters := s.waiters[w := Testing])
    case Poll =>
      var (q, answer) := AfterPoll(s.q);
      s.(q := q, gone := s.gone + Left(answer))
    case Flush => s.(q := s.q.(items := []), gone := s.gone + s.q.items)
  }

  /** The steps can be taken one after the other. */
  ghost predicate CanRun(s: State, steps: seq<Step>)
    decreases |steps|
  {
    steps == [] || (Can(s, steps[0]) && CanRun(Do(s, steps[0]), steps[1..]))
  }

  ghost function Run(s: State, steps: seq<Step>): State
    requires CanRun(s, steps)
    decreases |steps|
  {
    if steps == [] then s else Run(Do(s, steps[0]), steps[1..])
  }

  /** A new queue and n consumers that have not called yet. */
  function Start(n: nat, bound: nat): State {
    State(Queue([], bound, 0, false, false, false), seq(n, i => Away), {}, [], [])
  }

  // ----- no consumer sleeps through what it should wake up for

  /** If somebody sleeps although there is something to wake up for, a signal is on its way. */
  predicate NoLostWakeup(s: State) {
    SomeAsleep(s) && !ShouldWait(s.q) ==> s.signalling != {}
  }

  ghost predicate NeverLost(n: nat, bound: nat) {
    forall steps: seq<Step> :: CanRun(Start(n, bound), steps) ==> NoLostWakeup(Run(Start(n, bound), steps))
  }

  lemma StepKeepsWakeups(s: State, step: Step)
    requires |s.waiters| <= 1 && NoLostWakeup(s) && Can(s, step)
    ensures |Do(s, step).waiters| == |s.waiters| && NoLostWakeup(Do(s, step))
  {
    var s' := Do(s, step);
    if SomeAsleep(s') {
      assert s'.waiters[0] == Asleep;
      assert step.Test? || s.waiters[0] == Asleep;
      match step
      case Offer(thread, x) => assert s.q.items == [] || s.signalling != {}; assert thread in s'.signalling ||
        s'.signalling == s.signalling;
      case Raise(thread, flag) => assert thread in s'.signalling;
      case _ =>
    }
  }

  lemma {:induction false} RunKeepsWakeups(s: State, steps: seq<Step>)
    requires |s.waiters| <= 1 && NoLostWakeup(s) && CanRun(s, steps)
    ensures NoLostWakeup(Run(s, steps))
    decreases |steps|
  {
    if steps != [] {
      StepKeepsWakeups(s, steps[0]);
      RunKeepsWakeups(Do(s, steps[0]), steps[1..]);
    }
  }

  lemma RunOne(s: State, step: Step, rest: seq<Step>)
    requires Can(s, step) && CanRun(Do(s, step), rest)
    ensures CanRun(s, [step] + rest) && Run(s, [step] + rest) == Run(Do(s, step), rest)
  {
    assert ([step] + rest)[1..] == rest;
  }

  /** With two consumers asleep, a shutdown wakes only one of them. */
  lemma TwoConsumersLose(n: nat, bound: nat)
    requires n >= 2
    ensures exists steps :: CanRun(Start(n, bound), steps) && !NoLostWakeup(Run(Start(n, bound), steps))
  {
    var s0 := Start(n, bound);
    var s1 := Do(s0, Call(0));
    var s2 := Do(s1, Test(0));
    var s3 := Do(s2, Call(1));
    var s4 := Do(s3, Test(1));
    var s5 := Do(s4, Raise(0, Shutdown));
    assert s5.waiters[0] == Asleep;
    var s6 := Do(s5, Signal(0, 0));
    assert s6.waiters[1] == Asleep && s6.signalling == {};
    RunOne(s5, Signal(0, 0), []);
    RunOne(s4, Raise(0, Shutdown), [Signal(0, 0)]);
    var r4 := [Raise(0, Shutdown)] + [Signal(0, 0)];
    RunOne(s3, Test(1), r4);
    RunOne(s2, Call(1), [Test(1)] + r4);
    RunOne(s1, Test(0), [Call(1)] + ([Test(1)] + r4));
    RunOne(s0, Call(0), [Test(0)] + ([Call(1)] + ([Test(1)] + r4)));
  }

  /** No wakeup is ever lost, in any interleaving, just when there is at most one consumer. */
  lemma WakeupsExact(n: nat, bound: nat)
    ensures NeverLost(n, bound) <==> n <= 1
  {
    if n <= 1 {
      forall steps: seq<Step> | CanRun(Start(n, bound), steps)
        ensures NoLostWakeup(Run(Start(n, bound), steps))
      {
        RunKeepsWakeups(Start(n, bound), steps);
      }
    } else {
      TwoConsumersLose(n, bound);
    }
  }

  // ----- first in, first out

  /** What was accepted has left, in the same order, or is still there, within the bound. */
  predicate InOrder(s: State) {
    s.accepted == s.gone + s.q.items && |s.q.items| <= s.q.bound && s.q.lifetime == |s.accepted|
  }

  lemma StepKeepsOrder(s: State, step: Step)
    requires InOrder(s) && Can(s, step)
    ensures InOrder(Do(s, step)) && Do(s, step).q.bound == s.q.bound
  {
    var s' := Do(s, step);
    match step
    case Offer(thread, x) => assert s.gone + (s.q.items + [x]) == s.gone + s.q.items + [x];
    case Test(w) => LeavesInOrder(s);
    case Poll => LeavesInOrder(s);
    case Flush => assert s'.gone + [] == s'.gone;
    case _ =>
  }

  lemma LeavesInOrder(s: State)
    ensures s.q.items != [] ==> s.gone + s.q.items == s.gone + [s.q.items[0]] + s.q.items[1..]
    ensures s.gone + [] == s.gone
  {}

  /** In every run, with any number of consumers. */
  lemma {:induction false} FirstInFirstOut(s: State, steps: seq<Step>)
    requires InOrder(s) && CanRun(s, steps)
    ensures InOrder(Run(s, steps)) && Run(s, steps).q.bound == s.q.bound
    decreases |steps|
  {
    if steps != [] {
      StepKeepsOrder(s, steps[0]);
      FirstInFirstOut(Do(s, steps[0]), steps[1..]);
    }
  }

  // ----- draining

  /** The answer of the step, if it is a wait or a poll that ends. */
  function AnswerOf(s: State, step: Step): Answer
    requires Can(s, step)
  {
    if step.Test? && !ShouldWait(s.q) then AfterWait(s.q).1
    else if step.Poll? then AfterPoll(s.q).1
    else Success
  }

  lemma {:induction false} NothingAfterDrain(s: State, steps: seq<Step>)
    requires s.q.draining && CanRun(s, steps)
    ensures Run(s, steps).accepted == s.accepted
    decreases |steps|
  {
    if steps != [] { NothingAfterDrain(Do(s, steps[0]), steps[1..]); }
  }

  /** Unless the queue is shut down, a consumer is interrupted only after every item that is ever accepted
      has left the queue. */
  lemma DrainedFirst(n: nat, bound: nat, before: seq<Step>, step: Step, after: seq<Step>)
    requires CanRun(Start(n, bound), before)
    requires var s := Run(Start(n, bound), before); Can(s, step) && CanRun(Do(s, step), after)
    requires var s := Run(Start(n, bound), before); AnswerOf(s, step) == Interrupted && !s.q.shutdown
    ensures Run(Do(Run(Start(n, bound), before), step), after).accepted == Run(Start(n, bound), before).gone
  {
    var s := Run(Start(n, bound), before);
    FirstInFirstOut(Start(n, bound), before);
    LeavesInOrder(s);
    NothingAfterDrain(Do(s, step), after);
  }
}
