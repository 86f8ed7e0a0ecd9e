/**
 * The publish/subscribe hub the game's views use: per event name an ordered
 * list of listeners. Listeners are opaque callbacks compared by identity; the
 * model identifies each one by a value of type `L` and records every listener
 * call (listener and payload) in the `calls` log.
 */
module Events {

  /** One call of a listener with an event's payload. */
  datatype Call<L, D> = Call(listener: L, data: D)

  /** `s` with every occurrence of `l` dropped, the rest in order (`filter(x => x !== l)`). */
  function Without<L(==)>(s: seq<L>, l: L): (r: seq<L>)
    ensures l !in r
    ensures forall x :: x in r ==> x in s
    ensures forall x :: x in s && x != l ==> multiset(r)[x] == multiset(s)[x]
    ensures |r| <= |s|
  {
    if s == [] then []
    else
      var rest := Without(s[1..], l);
      assert s == [s[0]] + s[1..];
      if s[0] == l then rest else [s[0]] + rest
  }

  /** Filtering distributes over concatenation, so the surviving listeners keep their relative order. */
  lemma {:induction false} WithoutConcat<L>(s: seq<L>, t: seq<L>, l: L)
    ensures Without(s + t, l) == Without(s, l) + Without(t, l)
  {
    if s == [] {
      assert s + t == t;
    } else {
      assert (s + t)[0] == s[0];
      assert (s + t)[1..] == s[1..] + t;
      WithoutConcat(s[1..], t, l);
    }
  }

  /** Removing a listener that is not registered changes nothing. */
  lemma {:induction false} WithoutAbsent<L>(s: seq<L>, l: L)
    requires l !in s
    ensures Without(s, l) == s
  {
    if s != [] {
      WithoutAbsent(s[1..], l);
    }
  }

  /** Removing the same listener twice is the same as removing it once. */
  lemma WithoutIdempotent<L>(s: seq<L>, l: L)
    ensures Without(Without(s, l), l) == Without(s, l)
  {
    WithoutAbsent(Without(s, l), l);
  }

  /** Registering a listener and then removing it leaves the list as removing it alone would. */
  lemma OnThenOff<L>(s: seq<L>, l: L)
    ensures Without(s + [l], l) == Without(s, l)
  {
    WithoutConcat(s, [l], l);
    assert [l][1..] == [];
  }

  /** The calls an emit makes: each listener in order, each with the same payload. */
  function Deliveries<L, D>(ls: seq<L>, data: D): (r: seq<Call<L, D>>)
    ensures |r| == |ls|
    ensures forall i :: 0 <= i < |ls| ==> r[i] == Call(ls[i], data)
  {
    if ls == [] then [] else [Call(ls[0], data)] + Deliveries(ls[1..], data)
  }

  /**
   * The names a plain object literal `{}` inherits from `Object.prototype`.
   * Looking one of them up in the registry finds the inherited member, which
   * is truthy but not an array, so `on`, `emit` and `off` all throw a
   * TypeError for these names before changing anything.
   */
  const InheritedNames: set<string> := {
    "constructor", "hasOwnProperty", "isPrototypeOf", "propertyIsEnumerable",
    "toLocaleString", "toString", "valueOf", "__proto__",
    "__defineGetter__", "__defineSetter__", "__lookupGetter__", "__lookupSetter__"
  }

  class EventManager<L(==), D> {
    var events: map<string, seq<L>>
    /** Every listener call so far, oldest first. */
    var calls: seq<Call<L, D>>

    /** No inherited member name is ever an own key of the registry. */
    predicate Valid()
      reads this
    {
      forall name :: name in events ==> name !in InheritedNames
    }

    /** The listeners of `eventName`, in registration order; none for an unknown event. */
    function ListenersOf(eventName: string): (r: seq<L>)
      reads this
      ensures eventName !in events ==> r == []
    {
      if eventName in events then events[eventName] else []
    }

    constructor()
      ensures Valid()
      ensures events == map[] && calls == []
    {
      events := map[];
      calls := [];
    }

    /**
     * Appends `listener` to the list of `eventName`, creating the list if
     * needed; other events keep theirs. An inherited member name throws
     * (`threw`) and changes nothing.
     */
    method On(eventName: string, listener: L) returns (threw: bool)
      requires Valid()
      modifies this
      ensures Valid()
      ensures threw <==> eventName in InheritedNames
      ensures threw ==> events == old(events)
      ensures !threw ==> events == old(events)[eventName := old(ListenersOf(eventName)) + [listener]]
      ensures calls == old(calls)
    {
      if eventName in InheritedNames {
        return true;
      }
      if eventName !in events {
        events := events[eventName := []];
      }
      events := events[eventName := events[eventName] + [listener]];
      threw := false;
    }

    /**
     * Calls every listener of `eventName` in registration order with `data`;
     * an unknown event calls nobody. An inherited member name throws
     * (`threw`) before any listener is called.
     */
    method Emit(eventName: string, data: D) returns (threw: bool)
      requires Valid()
      modifies this
      ensures Valid()
      ensures threw <==> eventName in InheritedNames
      ensures events == old(events)
      ensures threw ==> calls == old(calls)
      ensures !threw ==> calls == old(calls) + Deliveries(old(ListenersOf(eventName)), data)
    {
      if eventName in InheritedNames {
        return true;
      }
      threw := false;
      if eventName in events {
        var listeners := events[eventName];
        for k := 0 to |listeners|
          invariant events == old(events)
          invariant calls == old(calls) + Deliveries(listeners[..k], data)
        {
          assert Deliveries(listeners[..k + 1], data) == Deliveries(listeners[..k], data) + [Call(listeners[k], data)];
          calls := calls + [Call(listeners[k], data)];
        }
        assert listeners[..|listeners|] == listeners;
      }
    }

    /**
     * Drops every registration of `listener` for `eventName`, keeping the
     * others in order; an unknown event is left alone. An inherited member
     * name throws (`threw`) and changes nothing.
     */
    method Off(eventName: string, listener: L) returns (threw: bool)
      requires Valid()
      modifies this
      ensures Valid()
      ensures threw <==> eventName in InheritedNames
      ensures threw || eventName !in old(events) ==> events == old(events)
      ensures !threw && eventName in old(events) ==> events == old(events)[eventName := Without(old(events)[eventName], listener)]
      ensures calls == old(calls)
      ensures listener !in ListenersOf(eventName)
    {
      if eventName in InheritedNames {
        return true;
      }
      threw := false;
      if eventName in events {
        events := events[eventName := Without(events[eventName], listener)];
      }
    }
  }
}
