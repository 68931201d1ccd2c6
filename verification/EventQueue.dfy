/**
 * The bounded on-device queue of the JavaScript SDK (packages/sdk-js/src/queue.ts).
 * The capacity is whatever number the caller passed, so it may be negative.
 */
module EventQueues {

  /** How many elements `splice(0, n)` removes from an array of length `len`. */
  function Spliced(n: int, len: nat): (r: nat)
    ensures r <= len
  {
    if n < 0 then 0 else if n > len then len else n
  }

  /** What trimming leaves, and what it throws away. */
  function Kept<T>(events: seq<T>, capacity: int): seq<T> {
    events[Spliced(|events| - capacity, |events|)..]
  }

  function Lost<T>(events: seq<T>, capacity: int): seq<T> {
    events[..Spliced(|events| - capacity, |events|)]
  }

  /** What trimming adds to the drop counter. */
  function Excess(len: nat, capacity: int): nat {
    if len - capacity <= 0 then 0 else len - capacity
  }

  /** Trimming splits the buffer, drops the oldest end, and drops no more than the bound demands. */
  lemma TrimDropsTheOldest<T>(events: seq<T>, capacity: int)
    ensures Lost(events, capacity) + Kept(events, capacity) == events
    ensures |Kept(events, capacity)| <= if capacity < 0 then 0 else capacity
    ensures Lost(events, capacity) != [] ==> |Kept(events, capacity)| == if capacity < 0 then 0 else capacity
  {
  }

  /**
   * The drop counter is the number of events dropped, whatever the buffer held, exactly when
   * the configured capacity is not negative: a negative one makes every trim count too many.
   */
  lemma CounterIsExactIff(capacity: int)
    ensures (forall events: seq<int> :: Excess(|events|, capacity) == |Lost(events, capacity)|) <==> 0 <= capacity
  {
    if capacity < 0 {
      assert Excess(|[0]|, capacity) != |Lost([0], capacity)|;
    }
  }

  class EventQueue<T> {
    var events: seq<T>
    var dropped: int
    const capacity: int

    constructor (capacity: int)
      ensures events == [] && dropped == 0 && this.capacity == capacity
    {
      events, dropped := [], 0;
      this.capacity := capacity;
    }

    method Push(event: T)
      modifies this
      ensures events == Kept(old(events) + [event], capacity)
      ensures dropped == old(dropped) + Excess(|old(events)| + 1, capacity)
    {
      events := events + [event];
      Trim();
    }

    method Take(limit: int) returns (batch: seq<T>)
      modifies this
      ensures batch + events == old(events)
      ensures |batch| == Spliced(limit, |old(events)|)
      ensures dropped == old(dropped)
    {
      var n := Spliced(limit, |events|);
      batch := events[..n];
      events := events[n..];
    }

    method Requeue(batch: seq<T>)
      modifies this
      ensures events == Kept(batch + old(events), capacity)
      ensures dropped == old(dropped) + Excess(|batch| + |old(events)|, capacity)
    {
      events := batch + events;
      Trim();
    }

    method Trim()
      modifies this
      ensures events == Kept(old(events), capacity)
      ensures dropped == old(dropped) + Excess(|old(events)|, capacity)
    {
      var excess := |events| - capacity;
      if excess <= 0 {
        return;
      }
      events := events[Spliced(excess, |events|)..];
      dropped := dropped + excess;
    }
  }
}
