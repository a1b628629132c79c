/** Long-poll subscriptions: one registered one-slot channel per request state.

    `Hub` is the value view: who is registered and what each channel ever made looks
    like. It records a panic when a closed channel is closed again or sent on, which is
    what the Go runtime does. `Notifications` is the object whose methods run under the
    server lock. */
module Notifications {
  import opened Prelude
  import opened Requests

  /** `full` means the single buffer slot holds an unreceived value. */
  datatype ChanState = ChanState(open: bool, full: bool)

  datatype Hub<C(==)> = Hub(subs: map<State, C>, chans: map<C, ChanState>, panicked: bool)

  /** Closing a closed channel panics, and so does closing one that was never made. */
  function CloseChan<C(==)>(h: Hub<C>, c: C): Hub<C> {
    if c in h.chans && h.chans[c].open then h.(chans := h.chans[c := h.chans[c].(open := false)])
    else h.(panicked := true)
  }

  /** Non-blocking send, dropped when the slot is taken; sending on a closed channel panics. */
  function TrySend<C(==)>(h: Hub<C>, c: C): Hub<C> {
    if c in h.chans && h.chans[c].open then h.(chans := h.chans[c := h.chans[c].(full := true)])
    else h.(panicked := true)
  }

  function Subscribe<C(==)>(h: Hub<C>, st: State, c: C): Hub<C> {
    var evicted := if st in h.subs then CloseChan(h, h.subs[st]) else h;
    evicted.(subs := evicted.subs[st := c], chans := evicted.chans[c := ChanState(true, false)])
  }

  function Unsubscribe<C(==)>(h: Hub<C>, st: State, c: C): Hub<C> {
    if st in h.subs && h.subs[st] == c then
      var closed := CloseChan(h, c);
      closed.(subs := closed.subs - {st})
    else h
  }

  function Notify<C(==)>(h: Hub<C>, st: State): Hub<C> {
    if st in h.subs then
      var sent := TrySend(h, h.subs[st]);
      var closed := CloseChan(sent, h.subs[st]);
      closed.(subs := closed.subs - {st})
    else h
  }

  /** A channel is closed, or sent on, without a panic exactly while it is open. */
  lemma MisusePanics<C>(h: Hub<C>, c: C)
    ensures CloseChan(h, c).panicked <==> h.panicked || c !in h.chans || !h.chans[c].open
    ensures TrySend(h, c).panicked <==> h.panicked || c !in h.chans || !h.chans[c].open
    ensures CloseChan(CloseChan(h, c), c).panicked && TrySend(CloseChan(h, c), c).panicked
  {
  }

  /** The discipline: registered channels are open and empty, no channel is registered
      twice, every open channel is registered, and nothing has panicked. */
  ghost predicate Disciplined<C>(h: Hub<C>) {
    && !h.panicked
    && (forall st :: st in h.subs ==> h.subs[st] in h.chans && h.chans[h.subs[st]] == ChanState(true, false))
    && (forall a, b :: a in h.subs && b in h.subs && h.subs[a] == h.subs[b] ==> a == b)
    && (forall c :: c in h.chans && h.chans[c].open ==> exists st :: st in h.subs && h.subs[st] == c)
  }

  lemma SubscribeIsDisciplined<C>(h: Hub<C>, st: State, c: C)
    requires Disciplined(h) && c !in h.chans
    ensures var h' := Subscribe(h, st, c);
            && Disciplined(h')
            && h'.subs == h.subs[st := c]
            && (forall d :: d in h.chans ==>
                  h'.chans[d] == if st in h.subs && d == h.subs[st] then ChanState(false, false) else h.chans[d])
  {
    var h' := Subscribe(h, st, c);
    forall d | d in h'.chans && h'.chans[d].open
      ensures exists s :: s in h'.subs && h'.subs[s] == d
    {
      if d == c {
        assert h'.subs[st] == d;
      } else {
        var s :| s in h.subs && h.subs[s] == d;
        assert s in h'.subs && h'.subs[s] == d;
      }
    }
  }

  lemma UnsubscribeIsDisciplined<C>(h: Hub<C>, st: State, c: C)
    requires Disciplined(h)
    ensures var h' := Unsubscribe(h, st, c);
            && Disciplined(h')
            && (forall d :: d in h.chans && d != c ==> h'.chans[d] == h.chans[d])
            && (c in h.chans && (h.chans[c].open ==> st in h.subs && h.subs[st] == c) ==> !h'.chans[c].open)
  {
    var h' := Unsubscribe(h, st, c);
    forall d | d in h'.chans && h'.chans[d].open
      ensures exists s :: s in h'.subs && h'.subs[s] == d
    {
      var s :| s in h.subs && h.subs[s] == d;
      assert s in h'.subs && h'.subs[s] == d;
    }
  }

  lemma NotifyIsDisciplined<C>(h: Hub<C>, st: State)
    requires Disciplined(h)
    ensures var h' := Notify(h, st);
            && Disciplined(h')
            && h'.subs == h.subs - {st}
            && (forall d :: d in h.chans ==>
                  h'.chans[d] == if st in h.subs && d == h.subs[st] then ChanState(false, true) else h.chans[d])
  {
    var h' := Notify(h, st);
    forall d | d in h'.chans && h'.chans[d].open
      ensures exists s :: s in h'.subs && h'.subs[s] == d
    {
      var s :| s in h.subs && h.subs[s] == d;
      assert s in h'.subs && h'.subs[s] == d;
    }
  }

  // ---------------------------------------------------------------------------
  // The server object
  // ---------------------------------------------------------------------------

  class Chan {
    var open: bool
    var full: bool

    constructor ()
      ensures open && !full
    {
      open, full := true, false;
    }

    /** Closing twice panics, so the caller must hold an open channel. */
    method Close()
      requires open
      modifies this`open
      ensures !open
    {
      open := false;
    }

    method TrySend()
      requires open
      modifies this`full
      ensures full
    {
      if !full {
        full := true;
      }
    }

    /** A receive that does not block: the buffered value, or `None` from a closed channel. */
    method Receive() returns (ok: bool)
      requires full || !open
      modifies this`full
      ensures ok == old(full) && !full
    {
      ok := full;
      full := false;
    }
  }

  class Server {
    var subs: map<State, Chan>
    ghost var made: set<Chan>

    ghost function View(): Hub<Chan>
      reads this, made
    {
      Hub(subs, map c | c in made :: ChanState(c.open, c.full), false)
    }

    ghost predicate Valid()
      reads this, made
    {
      Disciplined(View())
    }

    constructor ()
      ensures Valid() && subs == map[] && made == {}
    {
      subs := map[];
      made := {};
    }

    method SubscribeState(st: State) returns (ch: Chan)
      requires Valid()
      modifies this, made
      ensures Valid() && fresh(ch) && made == old(made) + {ch}
      ensures View() == Subscribe(old(View()), st, ch)
    {
      ghost var before := View();
      if st in subs {
        var previous := subs[st];
        assert previous in made && before.chans[previous].open;
        previous.Close();
      }
      ghost var evicted := View();
      assert evicted == if st in before.subs then CloseChan(before, before.subs[st]) else before;
      ch := new Chan();
      subs := subs[st := ch];
      made := made + {ch};
      assert View().chans == evicted.chans[ch := ChanState(true, false)];
      assert View() == Subscribe(before, st, ch);
      assert Valid() by {
        SubscribeIsDisciplined(before, st, ch);
      }
    }

    method UnsubscribeState(st: State, watch: Chan)
      requires Valid()
      modifies this, made
      ensures Valid() && made == old(made)
      ensures View() == Unsubscribe(old(View()), st, watch)
    {
      ghost var before := View();
      if st in subs && subs[st] == watch {
        assert before.chans[watch].open;
        watch.Close();
        subs := subs - {st};
      }
      UnsubscribeIsDisciplined(before, st, watch);
      assert View().chans == Unsubscribe(before, st, watch).chans;
    }

    method NotifySubscriber(st: State)
      requires Valid()
      modifies this, made
      ensures Valid() && made == old(made)
      ensures View() == Notify(old(View()), st)
    {
      ghost var before := View();
      NotifyIsDisciplined(before, st);
      if st !in subs {
        return;
      }
      var ch := subs[st];
      assert before.chans[ch].open;
      ch.TrySend();
      ch.Close();
      subs := subs - {st};
      assert View().chans == Notify(before, st).chans;
    }
  }
}
