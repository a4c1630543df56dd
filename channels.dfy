/**
 * A Go buffered channel `make(chan T, capacity)` as the core uses it, run on a
 * single thread: `ch <- x` appends to the buffer, `close(ch)` marks it closed,
 * and `x, ok := <-ch` (the step of a `for x := range ch` loop) takes the oldest
 * element, or reports that a closed channel is drained.
 */
module Channels {
  import opened Wrappers

  class Channel<T> {
    var buffer: seq<T>
    var closed: bool
    const capacity: nat

    ghost predicate Valid()
      reads this
    {
      |buffer| <= capacity
    }

    constructor (capacity: nat)
      ensures Valid() && buffer == [] && !closed && this.capacity == capacity
    {
      this.capacity := capacity;
      buffer := [];
      closed := false;
    }

    /** `ch <- x`; sending on a closed channel panics and sending on a full one blocks. */
    method Send(x: T)
      requires Valid() && !closed && |buffer| < capacity
      modifies this
      ensures Valid() && buffer == old(buffer) + [x] && !closed
    {
      buffer := buffer + [x];
    }

    /** `close(ch)`; closing twice panics. */
    method Close()
      requires Valid() && !closed
      modifies this
      ensures Valid() && closed && buffer == old(buffer)
    {
      closed := true;
    }

    /**
     * `x, ok := <-ch`: the oldest buffered element, or `None` once the channel
     * is closed and empty; receiving from an open, empty channel blocks.
     */
    method Receive() returns (x: Option<T>)
      requires Valid() && (closed || |buffer| > 0)
      modifies this
      ensures Valid() && closed == old(closed)
      ensures old(buffer) == [] ==> x.None? && buffer == []
      ensures old(buffer) != [] ==> x == Some(old(buffer)[0]) && buffer == old(buffer)[1..]
    {
      if buffer == [] {
        x := None;
      } else {
        x := Some(buffer[0]);
        buffer := buffer[1..];
      }
    }
  }

  /** `for x := range ch { items = append(items, x) }` over a closed channel. */
  method Drain<T>(ch: Channel<T>) returns (items: seq<T>)
    requires ch.Valid() && ch.closed
    modifies ch
    ensures ch.Valid() && ch.closed && ch.buffer == []
    ensures items == old(ch.buffer)
  {
    items := [];
    while true
      invariant ch.Valid() && ch.closed
      invariant items + ch.buffer == old(ch.buffer)
      decreases |ch.buffer|
    {
      var x := ch.Receive();
      if x.None? {
        break;
      }
      items := items + [x.value];
    }
  }
}
