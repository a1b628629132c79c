/** The message broker: every subscriber has its own bounded queue, a publish never blocks,
    and a message is dropped for exactly the subscribers whose queue is full. */
module Broker {
  import opened Prelude

  const CAPACITY: nat := 8

  /** What one subscriber's queue holds after a publish. */
  function Offer<T>(queue: seq<T>, msg: T): seq<T> {
    if |queue| < CAPACITY then queue + [msg] else queue
  }

  class Queue<T> {
    var items: seq<T>
    var closed: bool

    constructor ()
      ensures items == [] && !closed
    {
      items, closed := [], false;
    }

    /** Closing a closed channel panics. */
    method Close()
      requires !closed
      modifies this`closed
      ensures closed
    {
      closed := true;
    }

    /** A non-blocking send; sending on a closed channel panics. */
    method TrySend(msg: T)
      requires !closed
      modifies this`items
      ensures items == Offer(old(items), msg)
    {
      if |items| < CAPACITY {
        items := items + [msg];
      }
    }
  }

  class Broker<T> {
    var subscribers: set<Queue<T>>
    var stopped: bool

    /** Every subscriber's queue is open, so no send can panic, and none is over capacity. */
    ghost predicate Valid()
      reads this, subscribers
    {
      && (forall q :: q in subscribers ==> !q.closed && |q.items| <= CAPACITY)
      && (stopped ==> subscribers == {})
    }

    constructor ()
      ensures Valid() && subscribers == {} && !stopped
    {
      subscribers, stopped := {}, false;
    }

    method Subscribe() returns (q: Option<Queue<T>>)
      requires Valid()
      modifies this
      ensures Valid() && stopped == old(stopped)
      ensures q.None? <==> stopped
      ensures q.None? ==> subscribers == old(subscribers)
      ensures q.Some? ==> fresh(q.value) && q.value.items == [] && subscribers == old(subscribers) + {q.value}
    {
      if stopped {
        return None;
      }
      var ch := new Queue<T>();
      subscribers := subscribers + {ch};
      return Some(ch);
    }

    /** Closes the queue unless a shutdown has closed it already. */
    method Unsubscribe(q: Queue<T>)
      requires Valid()
      modifies this, q`closed
      ensures Valid() && stopped == old(stopped)
      ensures subscribers == old(subscribers) - {q}
      ensures q.closed == (old(q.closed) || q in old(subscribers))
    {
      if q in subscribers {
        subscribers := subscribers - {q};
        q.Close();
      }
    }

    /** Closes every subscription once and refuses new ones. */
    method Shutdown()
      requires Valid()
      modifies this, subscribers
      ensures Valid() && stopped && subscribers == {}
      ensures forall q :: q in old(subscribers) ==> q.closed && q.items == old(q.items)
    {
      while subscribers != {}
        invariant subscribers <= old(subscribers)
        invariant forall q :: q in subscribers ==> !q.closed
        invariant forall q :: q in old(subscribers) ==> q.items == old(q.items)
        invariant forall q :: q in old(subscribers) - subscribers ==> q.closed
        decreases subscribers
      {
        var q :| q in subscribers;
        subscribers := subscribers - {q};
        q.Close();
      }
      stopped := true;
    }

    /** Each subscriber independently receives or drops the message. */
    method Publish(msg: T)
      requires Valid()
      modifies subscribers
      ensures Valid() && subscribers == old(subscribers)
      ensures forall q :: q in subscribers ==> q.items == Offer(old(q.items), msg)
    {
      var rest := subscribers;
      while rest != {}
        invariant rest <= subscribers
        invariant forall q :: q in subscribers ==> !q.closed
        invariant forall q :: q in rest ==> q.items == old(q.items)
        invariant forall q :: q in subscribers - rest ==> q.items == Offer(old(q.items), msg)
        decreases rest
      {
        var q :| q in rest;
        rest := rest - {q};
        q.TrySend(msg);
      }
    }
  }
}
