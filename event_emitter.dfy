/**
 * `EventEmitter`: per event, an ordered list of subscribed callbacks. `on`
 * appends a callback and hands back an unsubscribe capability that removes the
 * first occurrence of that callback; `fire` calls every callback of the event
 * in registration order with the event name and the arguments.
 *
 * Callbacks are opaque, so a callback is modelled by its identity and `fire`
 * by the sequence of calls it makes.
 */
module Emitter {
  import opened Source

  /** The identity of a subscribed function (JavaScript compares them by reference). */
  datatype Callback = Callback(id: nat)

  /** One invocation `callback(event, args)`. */
  datatype Call = Call(callback: Callback, event: Event, args: Body)

  /** What the closure returned by `on` captures: the event and the callback. */
  datatype Subscription = Subscription(event: Event, callback: Callback)

  type Handlers = map<Event, seq<Callback>>

  /** The callbacks of one event; an event never subscribed to has none. */
  function HandlersOf(h: Handlers, e: Event): seq<Callback>
  {
    if e in h then h[e] else []
  }

  /** The calls `fire(e, args)` makes when `hs` are the event's callbacks. */
  function Deliveries(hs: seq<Callback>, e: Event, args: Body): (calls: seq<Call>)
    ensures |calls| == |hs|
    ensures forall i :: 0 <= i < |hs| ==> calls[i] == Call(hs[i], e, args)
  {
    seq(|hs|, i requires 0 <= i < |hs| => Call(hs[i], e, args))
  }

  /** `list.indexOf(cb)`: the first position of `cb`, or -1. */
  function IndexOf(list: seq<Callback>, cb: Callback): (k: int)
    ensures -1 <= k < |list|
    ensures k >= 0 ==> list[k] == cb && cb !in list[..k]
    ensures k == -1 <==> cb !in list
    decreases |list|
  {
    if |list| == 0 then -1
    else if list[0] == cb then 0
    else
      var k := IndexOf(list[1..], cb);
      if k == -1 then -1 else k + 1
  }

  /** `list.splice(list.indexOf(cb), 1)` when found; the list itself otherwise. */
  function RemoveFirst(list: seq<Callback>, cb: Callback): seq<Callback>
  {
    var k := IndexOf(list, cb);
    if k < 0 then list else list[..k] + list[k + 1..]
  }

  /** Removing the first occurrence removes exactly one copy of `cb` and keeps the order of the rest. */
  lemma RemoveFirstEffect(list: seq<Callback>, cb: Callback)
    ensures cb in list ==> multiset(RemoveFirst(list, cb)) == multiset(list) - multiset{cb}
    ensures cb in list ==> |RemoveFirst(list, cb)| == |list| - 1
    ensures cb !in list ==> RemoveFirst(list, cb) == list
    ensures forall c :: c != cb ==> multiset(RemoveFirst(list, cb))[c] == multiset(list)[c]
  {
    var k := IndexOf(list, cb);
    if k >= 0 {
      assert list == list[..k] + [cb] + list[k + 1..];
      calc {
        multiset(list);
        multiset(list[..k]) + multiset{cb} + multiset(list[k + 1..]);
      }
    }
  }

  /** A callback registered once is gone after one unsubscribe, and a second unsubscribe changes nothing. */
  lemma {:induction false} UnsubscribeOnce(list: seq<Callback>, cb: Callback)
    requires multiset(list)[cb] == 1
    ensures cb !in RemoveFirst(list, cb)
    ensures RemoveFirst(RemoveFirst(list, cb), cb) == RemoveFirst(list, cb)
  {
    RemoveFirstEffect(list, cb);
    var once := RemoveFirst(list, cb);
    assert multiset(once)[cb] == 0;
    RemoveFirstEffect(once, cb);
  }

  /** The handler map after the unsubscribe closure of `s` has run. */
  function Unsubscribed(h: Handlers, s: Subscription): (r: Handlers)
    ensures r.Keys == h.Keys
    ensures forall e :: e in h && e != s.event ==> r[e] == h[e]
    ensures s.event in h ==> r[s.event] == RemoveFirst(h[s.event], s.callback)
  {
    if s.event in h then h[s.event := RemoveFirst(h[s.event], s.callback)] else h
  }

  /** After unsubscribing a callback registered once, firing its event no longer reaches it. */
  lemma FireMissesUnsubscribed(h: Handlers, s: Subscription, args: Body)
    requires multiset(HandlersOf(h, s.event))[s.callback] == 1
    ensures forall c :: c in Deliveries(HandlersOf(Unsubscribed(h, s), s.event), s.event, args)
                        ==> c.callback != s.callback
  {
    UnsubscribeOnce(HandlersOf(h, s.event), s.callback);
    var hs := HandlersOf(Unsubscribed(h, s), s.event);
    forall c | c in Deliveries(hs, s.event, args) ensures c.callback != s.callback {
      var i :| 0 <= i < |hs| && Deliveries(hs, s.event, args)[i] == c;
      assert c.callback == hs[i];
    }
  }

  /** The handler map after `on(e, cb)`. */
  function Subscribed(h: Handlers, e: Event, cb: Callback): (r: Handlers)
    ensures HandlersOf(r, e) == HandlersOf(h, e) + [cb]
    ensures forall e' :: e' != e ==> HandlersOf(r, e') == HandlersOf(h, e')
  {
    h[e := HandlersOf(h, e) + [cb]]
  }

  /** Unsubscribing changes the subscription's event only, by removing the callback's first occurrence. */
  lemma UnsubscribedEffect(h: Handlers, s: Subscription, e: Event)
    ensures HandlersOf(Unsubscribed(h, s), e) ==
            if e == s.event then RemoveFirst(HandlersOf(h, e), s.callback) else HandlersOf(h, e)
  {
  }

  /** Unsubscribing a callback that was not yet registered for its event undoes `on` exactly. */
  lemma UnsubscribeUndoesOn(h: Handlers, e: Event, cb: Callback)
    requires cb !in HandlersOf(h, e)
    ensures forall e' :: HandlersOf(Unsubscribed(Subscribed(h, e, cb), Subscription(e, cb)), e') == HandlersOf(h, e')
  {
    var hs := HandlersOf(h, e);
    assert IndexOf(hs + [cb], cb) == |hs| by {
      assert (hs + [cb])[..|hs|] == hs;
    }
    assert (hs + [cb])[..|hs|] + (hs + [cb])[|hs| + 1..] == hs;
    forall e' ensures HandlersOf(Unsubscribed(Subscribed(h, e, cb), Subscription(e, cb)), e') == HandlersOf(h, e') {
      UnsubscribedEffect(Subscribed(h, e, cb), Subscription(e, cb), e');
    }
  }

  /** One `on(e, cb)` per event of `events`, in order. */
  function SubscribedAll(h: Handlers, events: seq<Event>, cb: Callback): (r: Handlers)
    ensures forall e :: e !in events ==> HandlersOf(r, e) == HandlersOf(h, e)
  {
    if |events| == 0 then h
    else Subscribed(SubscribedAll(h, events[..|events| - 1], cb), events[|events| - 1], cb)
  }

  /** The unsubscribe capabilities those `on` calls return, in order. */
  function Subscriptions(events: seq<Event>, cb: Callback): (subs: seq<Subscription>)
    ensures |subs| == |events|
    ensures forall i :: 0 <= i < |events| ==> subs[i] == Subscription(events[i], cb)
  {
    seq(|events|, i requires 0 <= i < |events| => Subscription(events[i], cb))
  }

  /** Running every capability of `subs`, in order. */
  function UnsubscribedAll(h: Handlers, subs: seq<Subscription>): (r: Handlers)
    ensures r.Keys == h.Keys
    ensures forall e :: (forall i :: 0 <= i < |subs| ==> subs[i].event != e) ==> HandlersOf(r, e) == HandlersOf(h, e)
  {
    if |subs| == 0 then h
    else Unsubscribed(UnsubscribedAll(h, subs[..|subs| - 1]), subs[|subs| - 1])
  }

  predicate Distinct(events: seq<Event>)
  {
    forall i, j :: 0 <= i < j < |events| ==> events[i] != events[j]
  }

  lemma {:induction false} SubscribedAllEffect(h: Handlers, events: seq<Event>, cb: Callback, e: Event)
    requires Distinct(events)
    ensures HandlersOf(SubscribedAll(h, events, cb), e) == HandlersOf(h, e) + (if e in events then [cb] else [])
    decreases |events|
  {
    if |events| > 0 {
      var init, last := events[..|events| - 1], events[|events| - 1];
      LastOfDistinct(events);
      SubscribedAllEffect(h, init, cb, e);
      assert SubscribedAll(h, events, cb) == Subscribed(SubscribedAll(h, init, cb), last, cb);
    }
  }

  /** The last of distinct events is not among the others, and every event is one or the other. */
  lemma LastOfDistinct(events: seq<Event>)
    requires Distinct(events) && |events| > 0
    ensures Distinct(events[..|events| - 1])
    ensures events[|events| - 1] !in events[..|events| - 1]
    ensures forall e :: e in events <==> e in events[..|events| - 1] || e == events[|events| - 1]
  {
    assert events == events[..|events| - 1] + [events[|events| - 1]];
  }

  lemma {:induction false} UnsubscribedAllEffect(h: Handlers, events: seq<Event>, cb: Callback, e: Event)
    requires Distinct(events)
    ensures HandlersOf(UnsubscribedAll(h, Subscriptions(events, cb)), e) ==
            if e in events then RemoveFirst(HandlersOf(h, e), cb) else HandlersOf(h, e)
    decreases |events|
  {
    if |events| > 0 {
      var init := events[..|events| - 1];
      var subs := Subscriptions(events, cb);
      assert subs[..|subs| - 1] == Subscriptions(init, cb);
      LastOfDistinct(events);
      UnsubscribedAllEffect(h, init, cb, e);
      UnsubscribedEffect(UnsubscribedAll(h, Subscriptions(init, cb)), subs[|subs| - 1], e);
    }
  }

  /**
   * Subscribing one callback to several distinct events and then running the
   * returned capabilities leaves every event's callbacks as they were, when
   * the callback was registered for none of them.
   */
  lemma SubscribeThenUnsubscribeAll(h: Handlers, events: seq<Event>, cb: Callback)
    requires Distinct(events)
    requires forall e :: e in events ==> cb !in HandlersOf(h, e)
    ensures forall e :: HandlersOf(UnsubscribedAll(SubscribedAll(h, events, cb), Subscriptions(events, cb)), e)
                        == HandlersOf(h, e)
  {
    forall e ensures HandlersOf(UnsubscribedAll(SubscribedAll(h, events, cb), Subscriptions(events, cb)), e)
                     == HandlersOf(h, e) {
      UnsubscribedAllEffect(SubscribedAll(h, events, cb), events, cb, e);
      SubscribedAllEffect(h, events, cb, e);
      if e in events {
        UnsubscribeUndoesOn(h, e, cb);
        UnsubscribedEffect(Subscribed(h, e, cb), Subscription(e, cb), e);
      }
    }
  }

  class EventEmitter {
    var handlers: Handlers

    constructor()
      ensures handlers == map[]
    {
      handlers := map[];
    }

    /** The callbacks registered for `e`, in order. */
    function HandlersFor(e: Event): seq<Callback>
      reads this
    {
      HandlersOf(handlers, e)
    }

    /**
     * `on(event, callback)`: creates the event's list when absent and appends
     * the callback (a callback registered twice is stored twice). The result is
     * the capability that `Unsubscribe` takes.
     */
    method On(e: Event, cb: Callback) returns (s: Subscription)
      modifies this
      ensures handlers == Subscribed(old(handlers), e, cb)
      ensures s == Subscription(e, cb)
    {
      if e !in handlers {
        handlers := handlers[e := []];
      }
      handlers := handlers[e := handlers[e] + [cb]];
      s := Subscription(e, cb);
    }

    /** The closure returned by `on`: removes the first occurrence of the callback, if any. */
    method Unsubscribe(s: Subscription)
      modifies this
      ensures handlers == Unsubscribed(old(handlers), s)
    {
      if s.event in handlers {
        var list := handlers[s.event];
        var index := IndexOf(list, s.callback);
        if index > -1 {
          assert list[..index] + list[index + 1..] == RemoveFirst(list, s.callback);
          handlers := handlers[s.event := list[..index] + list[index + 1..]];
        } else {
          assert handlers == handlers[s.event := RemoveFirst(list, s.callback)];
        }
      }
    }

    /** `fire(event, args)`: calls every callback of the event, in registration order. */
    method Fire(e: Event, args: Body) returns (calls: seq<Call>)
      ensures calls == Deliveries(HandlersFor(e), e, args)
    {
      calls := [];
      if e in handlers {
        var list := handlers[e];
        var i := 0;
        while i < |list|
          invariant 0 <= i <= |list|
          invariant calls == Deliveries(list[..i], e, args)
        {
          calls := calls + [Call(list[i], e, args)];
          i := i + 1;
        }
        assert list[..i] == list;
      }
    }
  }
}
