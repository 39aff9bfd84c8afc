/**
 * The handler registry of src/events.ts: an EventProcessor maps each
 * event name to the ordered list of its handlers, and every handler knows
 * its event, its callback and its processor.  Callbacks are opaque
 * references (`Callback`); calling one is host code, so HandleEvent
 * returns the callbacks in the order it calls them.
 */
module Events {
  type Callback = nat

  /** The index of the first occurrence of `x` in `s`, or -1 (Array.prototype.indexOf). */
  function IndexOf<T(==)>(s: seq<T>, x: T): (i: int)
    ensures i == -1 <==> x !in s
    ensures 0 <= i ==> i < |s| && s[i] == x && x !in s[..i]
    ensures -1 <= i
  {
    if s == [] then -1
    else if s[0] == x then 0
    else
      var k := IndexOf(s[1..], x);
      if k == -1 then -1 else k + 1
  }

  /** `splice(i, 1)`: the list without its element at `i`. */
  function Splice<T>(s: seq<T>, i: nat): (r: seq<T>)
    requires i < |s|
    ensures |r| == |s| - 1
    ensures forall k :: 0 <= k < i ==> r[k] == s[k]
    ensures forall k :: i <= k < |r| ==> r[k] == s[k + 1]
  {
    s[..i] + s[i + 1..]
  }

  /** RemoveHandler's edit of one list: drop the first occurrence of `x`, if any. */
  function RemoveFirst<T(==)>(s: seq<T>, x: T): (r: seq<T>)
  {
    var i := IndexOf(s, x);
    if i >= 0 then Splice(s, i) else s
  }

  /** Removing drops exactly one occurrence when there is one, and nothing otherwise. */
  lemma RemoveFirstCount<T>(s: seq<T>, x: T)
    ensures x in s ==> multiset(RemoveFirst(s, x)) == multiset(s) - multiset{x}
    ensures x !in s ==> RemoveFirst(s, x) == s
  {
    if x in s {
      var i := IndexOf(s, x);
      assert s == s[..i] + [x] + s[i + 1..];
      assert RemoveFirst(s, x) == s[..i] + s[i + 1..];
    }
  }

  /** Appending a handler that was not in the list and removing it again gives back the list. */
  lemma {:induction false} AppendThenRemove<T>(s: seq<T>, x: T)
    requires x !in s
    ensures RemoveFirst(s + [x], x) == s
  {
    assert IndexOf(s + [x], x) == |s| by {
      var i := IndexOf(s + [x], x);
      assert (s + [x])[..i] == s[..i] || i == |s|;
    }
  }

  /** The registry after RemoveHandler(handler). */
  function RemovedFrom(evs: map<string, seq<EventHandler>>, handler: EventHandler?): (r: map<string, seq<EventHandler>>)
    ensures handler == null || handler.event !in evs ==> r == evs
    ensures handler != null && handler.event in evs ==>
      r == evs[handler.event := RemoveFirst(evs[handler.event], handler)]
  {
    if handler != null && handler.event in evs
    then evs[handler.event := RemoveFirst(evs[handler.event], handler)]
    else evs
  }

  class EventHandler {
    const event: string
    const fn: Callback
    const processor: EventProcessor

    constructor (event: string, fn: Callback, processor: EventProcessor)
      ensures this.event == event && this.fn == fn && this.processor == processor
    {
      this.event := event;
      this.fn := fn;
      this.processor := processor;
    }

    /** Remove: the processor's RemoveHandler applied to this handler. */
    method Remove()
      modifies processor`events
      ensures processor.events == RemovedFrom(old(processor.events), this)
    {
      processor.RemoveHandler(this);
    }
  }

  class EventProcessor {
    var events: map<string, seq<EventHandler>>

    constructor ()
      ensures events == map[]
    {
      events := map[];
    }

    /** GetHandlersForEvent: the event's list, or the empty list for an unknown event. */
    function GetHandlersForEvent(event: string): (r: seq<EventHandler>)
      reads this
      ensures event !in events ==> r == []
      ensures event in events ==> r == events[event]
    {
      if event in events then events[event] else []
    }

    /** AddEventHandler: a fresh handler appended at the end of its event's list. */
    method AddEventHandler(event: string, fn: Callback) returns (handler: EventHandler)
      modifies this`events
      ensures fresh(handler) && handler.event == event && handler.fn == fn && handler.processor == this
      ensures events == old(events)[event := old(GetHandlersForEvent(event)) + [handler]]
    {
      handler := new EventHandler(event, fn, this);
      if event !in events {
        events := events[event := []];
      }
      events := events[event := events[event] + [handler]];
    }

    /** RemoveHandler: drop the first occurrence of the handler from its event's list. */
    method RemoveHandler(handler: EventHandler?)
      modifies this`events
      ensures events == RemovedFrom(old(events), handler)
    {
      if handler != null {
        if handler.event in events {
          var ev := events[handler.event];
          var index := IndexOf(ev, handler);
          if index >= 0 {
            assert Splice(ev, index) == RemoveFirst(ev, handler);
            events := events[handler.event := Splice(ev, index)];
          } else {
            assert RemoveFirst(ev, handler) == ev;
          }
        }
      }
    }

    /** HandleEvent: the callbacks called, one per handler of the event, in list order. */
    method HandleEvent(event: string) returns (called: seq<Callback>)
      ensures |called| == |GetHandlersForEvent(event)|
      ensures forall k :: 0 <= k < |called| ==> called[k] == GetHandlersForEvent(event)[k].fn
    {
      called := [];
      if event in events {
        var handlers := events[event];
        for k := 0 to |handlers|
          invariant |called| == k
          invariant forall m :: 0 <= m < k ==> called[m] == handlers[m].fn
        {
          called := called + [handlers[k].fn];
        }
      }
    }
  }

  /**
   * Adding a handler and then removing it leaves every event with the
   * handlers it had before (an event first created by the add is left
   * with an empty list).
   */
  lemma AddThenRemoveRestores(evs: map<string, seq<EventHandler>>, h: EventHandler, event: string)
    requires h.event == event
    requires event in evs ==> h !in evs[event]
    ensures var before := if event in evs then evs[event] else [];
      var after := RemovedFrom(evs[event := before + [h]], h);
      && (forall e :: e in after <==> e in evs || e == event)
      && after[event] == before
      && forall e :: e in evs && e != event ==> after[e] == evs[e]
  {
    var before := if event in evs then evs[event] else [];
    RemovedAfterAdd(evs, h, before);
    UpdateTwice(evs, event, before + [h], before);
  }

  /** Removing a handler just appended to a list it was absent from writes the list back. */
  lemma RemovedAfterAdd(evs: map<string, seq<EventHandler>>, h: EventHandler, before: seq<EventHandler>)
    requires h !in before
    ensures RemovedFrom(evs[h.event := before + [h]], h) == evs[h.event := before + [h]][h.event := before]
  {
    AppendThenRemove(before, h);
  }

  /** Writing a key twice leaves the second value and every other entry as before. */
  lemma UpdateTwice<K, V>(m: map<K, V>, k: K, v: V, w: V)
    ensures forall e :: e in m[k := v][k := w] <==> e in m || e == k
    ensures m[k := v][k := w][k] == w
    ensures forall e :: e in m && e != k ==> m[k := v][k := w][e] == m[e]
  {
  }
}
