/**
 The thread-safe queue of the producer/consumer program, with its mutex and
 condition variable taken away: what is left is a FIFO queue whose pop may
 only proceed once the queue is non-empty. The producer and consumer loops
 drive it; their concurrent run is modelled by the order in which their
 critical sections take turns (a schedule).
 */
module ProducerConsumer {

  datatype Option<T> = None | Some(value: T)

  /** A FIFO queue; `dataQueue[0]` is its front. */
  class ThreadsafeQueue<T> {
    var dataQueue: seq<T>

    constructor ()
      ensures dataQueue == []
    {
      dataQueue := [];
    }

    /** Appends `newValue` at the tail. */
    method Push(newValue: T)
      modifies this
      ensures dataQueue == old(dataQueue) + [newValue]
      ensures |dataQueue| == |old(dataQueue)| + 1
    {
      dataQueue := dataQueue + [newValue];
    }

    /**
     Returns the front (oldest) element and removes it. The source waits until
     the queue is non-empty; here a non-empty queue is required.
     */
    method WaitAndPop() returns (value: T)
      requires |dataQueue| > 0
      modifies this
      ensures value == old(dataQueue)[0]
      ensures dataQueue == old(dataQueue)[1..]
      ensures |dataQueue| == |old(dataQueue)| - 1
      ensures [value] + dataQueue == old(dataQueue)
    {
      value := dataQueue[0];
      dataQueue := dataQueue[1..];
    }
  }

  /** The values `0, 1, ..., count - 1`, in that order (none when `count <= 0`). */
  function Range(count: int): (r: seq<int>)
    ensures |r| == if count < 0 then 0 else count
    ensures forall i :: 0 <= i < |r| ==> r[i] == i
    decreases count
  {
    if count <= 0 then [] else Range(count - 1) + [count - 1]
  }

  /** Pushes `0, 1, ..., count - 1` in that order. */
  method Producer(tsq: ThreadsafeQueue<int>, count: int)
    modifies tsq
    ensures tsq.dataQueue == old(tsq.dataQueue) + Range(count)
  {
    var i := 0;
    while i < count
      invariant 0 <= i && (i <= count || i == 0)
      invariant tsq.dataQueue == old(tsq.dataQueue) + Range(i)
    {
      tsq.Push(i);
      i := i + 1;
    }
  }

  /**
   Pops `count` values and returns them in the order they were popped (the
   source prints each). Run on its own, every wait must find the queue
   non-empty, so the queue must hold at least `count` values.
   */
  method Consumer(tsq: ThreadsafeQueue<int>, count: int) returns (popped: seq<int>)
    requires count <= |tsq.dataQueue|
    modifies tsq
    ensures count <= 0 ==> popped == [] && tsq.dataQueue == old(tsq.dataQueue)
    ensures count > 0 ==>
              popped == old(tsq.dataQueue)[..count] && tsq.dataQueue == old(tsq.dataQueue)[count..]
  {
    popped := [];
    var i := 0;
    while i < count
      invariant 0 <= i && (i <= count || i == 0)
      invariant popped == old(tsq.dataQueue)[..i]
      invariant tsq.dataQueue == old(tsq.dataQueue)[i..]
    {
      var value := tsq.WaitAndPop();
      popped := popped + [value];
      i := i + 1;
    }
  }

  /**
   The program's two threads run one after the other: the producer pushes
   `0 .. count - 1` onto a new queue, then the consumer pops `count` values.
   The consumer receives exactly what was produced, in order, and the queue
   ends empty.
   */
  method ProduceThenConsume(count: int) returns (popped: seq<int>, remaining: seq<int>)
    ensures popped == Range(count)
    ensures remaining == []
  {
    var tsq := new ThreadsafeQueue<int>();
    Producer(tsq, count);
    popped := Consumer(tsq, count);
    remaining := tsq.dataQueue;
  }

  /** One critical section of a concurrent run: a push of a value, or a pop. */
  datatype Event<T> = Pushed(value: T) | Popped

  /** The values a schedule pushes, in order. */
  function PushedValues<T>(events: seq<Event<T>>): seq<T>
  {
    if events == [] then []
    else match events[0]
      case Pushed(v) => [v] + PushedValues(events[1..])
      case Popped => PushedValues(events[1..])
  }

  /** The number of pops in a schedule. */
  function PopCount<T>(events: seq<Event<T>>): nat
  {
    if events == [] then 0
    else match events[0]
      case Pushed(_) => PopCount(events[1..])
      case Popped => 1 + PopCount(events[1..])
  }

  /**
   Runs a schedule from queue contents `q`: the values popped, in order, and
   the final contents; `None` when a pop meets an empty queue, where the
   consumer would wait for a push that the schedule never gives it.
   */
  function Replay<T>(q: seq<T>, events: seq<Event<T>>): Option<(seq<T>, seq<T>)>
    decreases |events|
  {
    if events == [] then Some(([], q))
    else match events[0]
      case Pushed(v) => Replay(q + [v], events[1..])
      case Popped =>
        if q == [] then None
        else match Replay(q[1..], events[1..])
          case None => None
          case Some(rest) => Some(([q[0]] + rest.0, rest.1))
  }

  /**
   FIFO for any schedule that does not block: what was queued or pushed is
   exactly what was popped followed by what remains, so no value is lost,
   duplicated or reordered, and one value is popped per pop.
   */
  lemma {:induction false} ReplayIsFifo<T>(q: seq<T>, events: seq<Event<T>>)
    requires Replay(q, events).Some?
    ensures q + PushedValues(events) == Replay(q, events).value.0 + Replay(q, events).value.1
    ensures |Replay(q, events).value.0| == PopCount(events)
    decreases |events|
  {
    if events != [] {
      match events[0]
      case Pushed(v) =>
        ReplayIsFifo(q + [v], events[1..]);
        assert q + [v] + PushedValues(events[1..]) == q + PushedValues(events);
      case Popped =>
        ReplayIsFifo(q[1..], events[1..]);
        var rest := Replay(q[1..], events[1..]).value;
        calc {
          q + PushedValues(events);
          ([q[0]] + q[1..]) + PushedValues(events[1..]);
          [q[0]] + (q[1..] + PushedValues(events[1..]));
          [q[0]] + (rest.0 + rest.1);
          ([q[0]] + rest.0) + rest.1;
        }
    }
  }

  /**
   Pushing `xs` onto an empty queue and then popping `|xs|` times yields `xs`
   in order and leaves the queue empty.
   */
  lemma PushAllThenPopAll<T>(xs: seq<T>, events: seq<Event<T>>)
    requires PushedValues(events) == xs && PopCount(events) == |xs|
    requires Replay([], events).Some?
    ensures Replay([], events) == Some((xs, []))
  {
    ReplayIsFifo([], events);
    var r := Replay([], events).value;
    assert [] + xs == r.0 + r.1;
    assert r.0 == (r.0 + r.1)[..|xs|] == xs;
    assert r.1 == (r.0 + r.1)[|xs|..] == [];
  }

  /**
   However the producer's and the consumer's critical sections interleave,
   as long as no pop waits forever, the consumer receives `0 .. count - 1`
   in order and the queue ends empty.
   */
  lemma InterleavedRunDeliversInOrder(count: int, events: seq<Event<int>>)
    requires PushedValues(events) == Range(count)
    requires PopCount(events) == |Range(count)|
    requires Replay([], events).Some?
    ensures Replay([], events) == Some((Range(count), []))
  {
    PushAllThenPopAll(Range(count), events);
  }

  /**
   Executes a schedule on the queue object, calling `Push` and `WaitAndPop`
   in the schedule's order; it agrees with `Replay`.
   */
  method RunSchedule<T>(tsq: ThreadsafeQueue<T>, events: seq<Event<T>>) returns (popped: seq<T>)
    requires Replay(tsq.dataQueue, events).Some?
    modifies tsq
    ensures Replay(old(tsq.dataQueue), events) == Some((popped, tsq.dataQueue))
  {
    popped := [];
    var k := 0;
    while k < |events|
      invariant 0 <= k <= |events|
      invariant Replay(old(tsq.dataQueue), events).Some?
      invariant Replay(tsq.dataQueue, events[k..]).Some?
      invariant Replay(old(tsq.dataQueue), events).value.0 == popped + Replay(tsq.dataQueue, events[k..]).value.0
      invariant Replay(old(tsq.dataQueue), events).value.1 == Replay(tsq.dataQueue, events[k..]).value.1
    {
      assert events[k..][1..] == events[k + 1..];
      match events[k] {
        case Pushed(v) =>
          tsq.Push(v);
        case Popped =>
          var value := tsq.WaitAndPop();
          popped := popped + [value];
      }
      k := k + 1;
    }
    assert events[k..] == [];
    assert popped + [] == popped;
  }
}
