/**
 * The component-emitter and component-indexof modules bundled in
 * public/js/chirp.js: a table from event names to lists of callbacks,
 * changed in place by `on`, `once` and `off`, and `emit`, which calls a
 * copy of an event's list in registration order.
 *
 * Callbacks are named: `Plain(id)` is a function a caller registered, and
 * `Wrapper(w, event, target)` is the closure `once` registers, which takes
 * itself off `event` and then calls the function `target`. Callbacks are
 * assumed not to call back into the emitter.
 */
module Emitter {

  /** A callback in an event's list. */
  datatype Listener = Plain(id: nat) | Wrapper(w: nat, event: string, target: nat)

  /** The function a callback ends up calling. */
  function Target(l: Listener): nat {
    if l.Plain? then l.id else l.target
  }

  /** The functions a list of callbacks calls, in list order. */
  function Targets(s: seq<Listener>): seq<nat> {
    if s == [] then [] else Targets(s[..|s| - 1]) + [Target(s[|s| - 1])]
  }

  /** The `i`th call of an emission is to the function the `i`th callback calls. */
  lemma {:induction false} TargetsAt(s: seq<Listener>)
    ensures |Targets(s)| == |s|
    ensures forall i :: 0 <= i < |s| ==> Targets(s)[i] == Target(s[i])
  {
    if s != [] {
      TargetsAt(s[..|s| - 1]);
    }
  }

  /** The callbacks of a list that are not `once` wrappers, in order. */
  function Plains(s: seq<Listener>): seq<Listener> {
    if s == [] then [] else Plains(s[..|s| - 1]) + (if s[|s| - 1].Plain? then [s[|s| - 1]] else [])
  }

  /** Every element of `Plains(s)` is a plain callback of `s`. */
  lemma {:induction false} PlainsMembers(s: seq<Listener>)
    ensures forall l :: l in Plains(s) <==> l in s && l.Plain?
  {
    if s != [] {
      PlainsMembers(s[..|s| - 1]);
      assert s == s[..|s| - 1] + [s[|s| - 1]];
    }
  }

  // ---------------------------------------------------------------------------
  // component-indexof

  /** The first index of `x` in `s`, or -1. */
  function FirstIndex<T(==)>(s: seq<T>, x: T): (r: int)
    ensures -1 <= r < |s|
    ensures r == -1 <==> x !in s
    ensures r >= 0 ==> s[r] == x && x !in s[..r]
  {
    if s == [] then -1
    else if s[0] == x then 0
    else
      var k := FirstIndex(s[1..], x);
      if k == -1 then -1
      else
        assert s[..k + 1] == [s[0]] + s[1..][..k];
        k + 1
  }

  /** `index(arr, obj)`: the first index of `obj` in `arr`, or -1. */
  method IndexOf<T(==)>(arr: seq<T>, obj: T) returns (r: int)
    ensures r == FirstIndex(arr, obj)
  {
    var i := 0;
    while i < |arr|
      invariant 0 <= i <= |arr|
      invariant obj !in arr[..i]
    {
      if arr[i] == obj {
        FirstIndexUnique(arr, obj, i);
        return i;
      }
      assert arr[..i + 1] == arr[..i] + [arr[i]];
      i := i + 1;
    }
    assert arr[..i] == arr;
    return -1;
  }

  /** An index holding `x` with no `x` before it is the first index. */
  lemma FirstIndexUnique<T>(s: seq<T>, x: T, i: nat)
    requires i < |s| && s[i] == x && x !in s[..i]
    ensures FirstIndex(s, x) == i
  {
  }

  // ---------------------------------------------------------------------------
  // Removing one callback

  /** The list without the first occurrence of `x` (the list itself when there is none). */
  function RemoveFirst<T(==)>(s: seq<T>, x: T): seq<T> {
    if s == [] then []
    else if s[0] == x then s[1..]
    else [s[0]] + RemoveFirst(s[1..], x)
  }

  /** Removing an occurrence takes out exactly one `x` when there is one and nothing otherwise. */
  lemma {:induction false} RemoveFirstCount<T>(s: seq<T>, x: T)
    ensures multiset(RemoveFirst(s, x)) == multiset(s) - multiset{x}
  {
    if s != [] {
      assert s == [s[0]] + s[1..];
      if s[0] != x {
        RemoveFirstCount(s[1..], x);
      }
    }
  }

  /** Removing the first occurrence is `splice` at the first index, and a no-op without one. */
  lemma {:induction false} RemoveFirstSplice<T>(s: seq<T>, x: T)
    ensures x !in s ==> RemoveFirst(s, x) == s
    ensures x in s ==> RemoveFirst(s, x) == s[..FirstIndex(s, x)] + s[FirstIndex(s, x) + 1..]
  {
    if s != [] {
      assert s == [s[0]] + s[1..];
      if s[0] != x {
        RemoveFirstSplice(s[1..], x);
        if x in s {
          var k := FirstIndex(s[1..], x);
          assert FirstIndex(s, x) == k + 1;
          assert s[..k + 1] == [s[0]] + s[1..][..k];
          assert s[k + 2..] == s[1..][k + 1..];
        }
      }
    }
  }

  /** Removing `x` from a list where it first stands after `a` takes out just that one. */
  lemma {:induction false} RemoveFirstAfter<T>(a: seq<T>, x: T, b: seq<T>)
    requires x !in a
    ensures RemoveFirst(a + [x] + b, x) == a + b
  {
    var c := a + [x] + b;
    if a == [] {
      assert c == [x] + b;
    } else {
      assert c[0] == a[0] && c[1..] == a[1..] + [x] + b;
      RemoveFirstAfter(a[1..], x, b);
      assert a + b == [a[0]] + (a[1..] + b);
    }
  }

  /** The table after `off(event, key)` takes the first `key` off `event`'s list. */
  function OffMap(cbs: map<string, seq<Listener>>, event: string, key: Listener): map<string, seq<Listener>> {
    if event in cbs then cbs[event := RemoveFirst(cbs[event], key)] else cbs
  }

  /** `fn._off || fn`: the wrapper `once` last made for a function, or the callback itself. */
  function OffKey(offTag: map<nat, Listener>, fn: Listener): (k: Listener)
    ensures fn.Wrapper? ==> k == fn
    ensures fn.Plain? && fn.id in offTag ==> k == offTag[fn.id]
    ensures fn.Plain? && fn.id !in offTag ==> k == fn
  {
    if fn.Plain? && fn.id in offTag then offTag[fn.id] else fn
  }

  /** Every `once` wrapper in a list was registered for `event`. */
  ghost predicate WrappersFor(s: seq<Listener>, event: string) {
    forall l :: l in s && l.Wrapper? ==> l.event == event
  }

  /** Each `once` wrapper of a table sits in the list of the event it was made for. */
  ghost predicate WellPlaced(cbs: map<string, seq<Listener>>) {
    forall e :: e in cbs ==> WrappersFor(cbs[e], e)
  }

  /** `off` keeps every wrapper in its own event's list. */
  lemma OffMapWellPlaced(cbs: map<string, seq<Listener>>, event: string, key: Listener)
    requires WellPlaced(cbs)
    ensures WellPlaced(OffMap(cbs, event, key))
  {
    if event in cbs {
      RemoveFirstCount(cbs[event], key);
      var after := RemoveFirst(cbs[event], key);
      forall l | l in after
        ensures l in cbs[event]
      {
        assert l in multiset(after);
      }
    }
  }

  /**
   * A stale `_off`: once a function's `once` wrapper is gone from the list,
   * `off(event, fn)` looks for that wrapper and so leaves a plain
   * registration of the same function in place.
   */
  lemma StaleOffKeepsPlain(cbs: map<string, seq<Listener>>, offTag: map<nat, Listener>, event: string, id: nat)
    requires id in offTag && event in cbs && offTag[id] !in cbs[event]
    ensures OffMap(cbs, event, OffKey(offTag, Plain(id))) == cbs
  {
    RemoveFirstSplice(cbs[event], offTag[id]);
  }

  /**
   * The table part-way through an emission of `event`: the wrappers among
   * the first `i` callbacks of the copy have taken themselves off.
   */
  function Midway(cbs0: map<string, seq<Listener>>, event: string, snapshot: seq<Listener>, i: nat): map<string, seq<Listener>>
    requires i <= |snapshot|
  {
    cbs0[event := Plains(snapshot[..i]) + snapshot[i..]]
  }

  /** How one step of an emission moves the table and the calls along its copy of the list. */
  lemma EmitStep(cbs0: map<string, seq<Listener>>, event: string, snapshot: seq<Listener>, i: nat)
    requires i < |snapshot|
    ensures Targets(snapshot[..i + 1]) == Targets(snapshot[..i]) + [Target(snapshot[i])]
    ensures event in Midway(cbs0, event, snapshot, i)
    ensures Midway(cbs0, event, snapshot, i)[event][|Plains(snapshot[..i])|] == snapshot[i]
    ensures snapshot[i].Plain? ==> Midway(cbs0, event, snapshot, i) == Midway(cbs0, event, snapshot, i + 1)
    ensures snapshot[i].Wrapper? ==>
      OffMap(Midway(cbs0, event, snapshot, i), event, snapshot[i]) == Midway(cbs0, event, snapshot, i + 1)
  {
    var l := snapshot[i];
    var pre := snapshot[..i];
    assert snapshot[..i + 1] == pre + [l];
    assert (pre + [l])[..i] == pre;
    assert snapshot[i..] == [l] + snapshot[i + 1..];
    var cbs := cbs0[event := Plains(pre) + snapshot[i..]];
    if l.Wrapper? {
      assert Plains(pre + [l]) == Plains(pre);
      PlainsMembers(pre);
      RemoveFirstAfter(Plains(pre), l, snapshot[i + 1..]);
      assert Plains(pre) + snapshot[i..] == Plains(pre) + [l] + snapshot[i + 1..];
      assert OffMap(cbs, event, l) == cbs0[event := Plains(pre) + snapshot[i + 1..]];
    } else {
      assert Plains(pre + [l]) == Plains(pre) + [l];
      assert Plains(pre) + snapshot[i..] == Plains(pre) + [l] + snapshot[i + 1..];
    }
  }

  /** An emission starts from the table as it was and ends with the event's wrappers gone. */
  lemma MidwayEnds(cbs: map<string, seq<Listener>>, event: string)
    requires WellPlaced(cbs) && event in cbs
    ensures Midway(cbs, event, cbs[event], 0) == cbs
    ensures Midway(cbs, event, cbs[event], |cbs[event]|) == cbs[event := Plains(cbs[event])]
    ensures Targets(cbs[event][..0]) == [] && cbs[event][..|cbs[event]|] == cbs[event]
    ensures WellPlaced(cbs[event := Plains(cbs[event])])
  {
    var s := cbs[event];
    assert s[..0] == [] && s[0..] == s;
    assert Plains(s[..0]) + s[0..] == s;
    assert s[..|s|] == s;
    assert Plains(s) + s[|s|..] == Plains(s);
    PlainsMembers(s);
  }

  /** A wrapper found in an event's list of a well-placed table was made for that event. */
  lemma WrapperEvent(cbs: map<string, seq<Listener>>, event: string, k: nat)
    requires WellPlaced(cbs) && event in cbs && k < |cbs[event]| && cbs[event][k].Wrapper?
    ensures cbs[event][k].event == event
  {
    assert cbs[event][k] in cbs[event];
  }

  /** `off(event, fn)` takes out exactly one occurrence of its key, when there is one. */
  lemma OffMapCount(cbs: map<string, seq<Listener>>, event: string, key: Listener)
    requires event in cbs
    ensures event in OffMap(cbs, event, key)
    ensures multiset(OffMap(cbs, event, key)[event]) == multiset(cbs[event]) - multiset{key}
    ensures forall e :: e in cbs && e != event ==> e in OffMap(cbs, event, key) && OffMap(cbs, event, key)[e] == cbs[e]
  {
    RemoveFirstCount(cbs[event], key);
  }

  /** An emitter: its callback table, the `_off` tags `once` sets, and the calls made. */
  class EventEmitter {
    /** `_callbacks`: each event's callbacks in registration order. */
    var callbacks: map<string, seq<Listener>>
    /** `fn._off` for each function `once` was given: the last wrapper made for it. */
    var offTag: map<nat, Listener>
    /** The next fresh wrapper identity. */
    var nextWrapper: nat
    /** The functions called by `emit`, in order. */
    var calls: seq<nat>

    /** Each `once` wrapper sits in the list of the event it was made for. */
    ghost predicate Valid()
      reads this
    {
      WellPlaced(callbacks)
    }

    constructor ()
      ensures Valid()
      ensures callbacks == map[] && offTag == map[] && calls == []
    {
      callbacks, offTag, nextWrapper, calls := map[], map[], 0, [];
    }

    /** `listeners(event)`: the event's list, or an empty one. */
    function Listeners(event: string): seq<Listener>
      reads this
    {
      if event in callbacks then callbacks[event] else []
    }

    /** `hasListeners(event)`. */
    predicate HasListeners(event: string)
      reads this
    {
      |Listeners(event)| > 0
    }

    /** `on(event, fn)`: appends `fn` to the event's list, creating it if needed. */
    method On(event: string, fn: Listener)
      requires Valid() && (fn.Wrapper? ==> fn.event == event)
      modifies this`callbacks
      ensures Valid()
      ensures callbacks == old(callbacks)[event := old(Listeners(event)) + [fn]]
      ensures Listeners(event) == old(Listeners(event)) + [fn] && HasListeners(event)
    {
      callbacks := callbacks[event := Listeners(event) + [fn]];
    }

    /**
     * `once(event, fn)`: registers a fresh wrapper that takes itself off and
     * then calls `fn`, and records it as `fn._off`.
     */
    method Once(event: string, fn: nat) returns (w: Listener)
      requires Valid()
      modifies this`callbacks, this`offTag, this`nextWrapper
      ensures Valid()
      ensures w == Wrapper(old(nextWrapper), event, fn) && nextWrapper == old(nextWrapper) + 1
      ensures offTag == old(offTag)[fn := w]
      ensures callbacks == old(callbacks)[event := old(Listeners(event)) + [w]]
    {
      w := Wrapper(nextWrapper, event, fn);
      nextWrapper := nextWrapper + 1;
      offTag := offTag[fn := w];
      On(event, w);
    }

    /**
     * `off(event, fn)`: takes the first occurrence of `fn._off || fn` off
     * the event's list; nothing happens when there is none or the event has
     * no list.
     */
    method Off(event: string, fn: Listener)
      requires Valid()
      modifies this`callbacks
      ensures Valid()
      ensures callbacks == OffMap(old(callbacks), event, OffKey(offTag, fn))
    {
      OffMapWellPlaced(callbacks, event, OffKey(offTag, fn));
      if event !in callbacks {
        return;
      }
      var list := callbacks[event];
      var key := OffKey(offTag, fn);
      var i := IndexOf(list, key);
      RemoveFirstSplice(list, key);
      if i != -1 {
        callbacks := callbacks[event := list[..i] + list[i + 1..]];
      }
    }

    /** `off(event)`: drops the event's list. */
    method OffEvent(event: string)
      requires Valid()
      modifies this`callbacks
      ensures Valid()
      ensures event !in callbacks && !HasListeners(event)
      ensures forall e :: e != event ==> (e in callbacks <==> e in old(callbacks))
      ensures forall e :: e != event && e in callbacks ==> callbacks[e] == old(callbacks)[e]
    {
      if event in callbacks {
        callbacks := map e | e in callbacks && e != event :: callbacks[e];
      }
    }

    /** `off()`: drops every list. */
    method OffAll()
      modifies this`callbacks
      ensures Valid()
      ensures callbacks == map[]
    {
      callbacks := map[];
    }

    /**
     * `emit(event)`: calls every callback of a copy of the event's list, in
     * order. A `once` wrapper takes itself off the live list first, which
     * does not disturb the copy, so every callback registered when the
     * emission began is called once and the `once` ones are gone afterwards.
     */
    method Emit(event: string)
      requires Valid()
      modifies this`callbacks, this`calls
      ensures Valid()
      ensures calls == old(calls) + Targets(old(Listeners(event)))
      ensures callbacks == if event in old(callbacks) then old(callbacks)[event := Plains(old(callbacks)[event])] else old(callbacks)
    {
      if event !in callbacks {
        return;
      }
      var snapshot := callbacks[event];
      var cbs0, calls0 := callbacks, calls;
      var table, log := cbs0, calls0;
      MidwayEnds(cbs0, event);
      for i := 0 to |snapshot|
        invariant table == Midway(cbs0, event, snapshot, i)
        invariant log == calls0 + Targets(snapshot[..i])
      {
        var l := snapshot[i];
        EmitStep(cbs0, event, snapshot, i);
        if l.Wrapper? {
          // the wrapper's `self.off(event, on)`; a wrapper is its own key
          WrapperEvent(cbs0, event, i);
          table := OffMap(table, l.event, OffKey(offTag, l));
        }
        assert log + [Target(l)] == calls0 + (Targets(snapshot[..i]) + [Target(l)]);
        log := log + [Target(l)];
      }
      callbacks, calls := table, log;
    }
  }
}
