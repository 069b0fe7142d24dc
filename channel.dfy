/**
 * `Channel<item>` (main.cpp): the unbounded queue through which the window
 * sends commands to the SFTP worker. Locking and the condition variable are
 * not modelled; `Get` instead requires what the blocking wait establishes,
 * a non-empty queue.
 */
module Channels {

  class Channel<T> {
    /** The `std::list` behind the channel, front first. */
    var queue: seq<T>

    /** A new channel holds nothing. */
    constructor ()
      ensures queue == []
    {
      queue := [];
    }

    /** `Put`: `push_back`. */
    method Put(item: T)
      modifies this
      ensures queue == old(queue) + [item]
    {
      queue := queue + [item];
    }

    /** `Get`, once the wait has seen a non-empty queue: `front`, then `pop_front`. */
    method Get() returns (item: T)
      requires queue != []
      modifies this
      ensures [item] + queue == old(queue)
    {
      item := queue[0];
      queue := queue[1..];
    }
  }

  /** Items come out in the order they were put in: `n` gets after some puts return the first `n` items put. */
  method FifoOrder<T>(items: seq<T>, n: nat) returns (got: seq<T>)
    requires n <= |items|
    ensures got == items[..n]
  {
    var c := new Channel<T>();
    var i := 0;
    while i < |items|
      invariant 0 <= i <= |items|
      invariant c.queue == items[..i]
    {
      assert items[..i + 1] == items[..i] + [items[i]];
      c.Put(items[i]);
      i := i + 1;
    }
    assert items[..|items|] == items;
    got := [];
    var k := 0;
    while k < n
      invariant 0 <= k <= n
      invariant got + c.queue == items
      invariant got == items[..k]
    {
      var item := c.Get();
      got := got + [item];
      k := k + 1;
    }
  }
}
