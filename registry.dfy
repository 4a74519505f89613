/**
 * The value-level specification of the domain-event dispatcher.
 *
 * The dispatcher's state is a registry from an event-type name to the
 * ordered sequence of handlers subscribed to it. A name that was never
 * registered is absent from the map; a name whose handlers were all
 * unregistered stays in the map with an empty sequence. The functions
 * here say what each dispatcher operation does to that registry, and the
 * lemmas state the properties the dispatcher's tests rely on.
 */
module EventRegistry {

  datatype Option<+T> = None | Some(value: T)

  /** An event: the name of its type (the event's class) and an opaque payload. */
  datatype Event<+D> = Event(name: string, data: D)

  /** One invocation of `handler.handle(event)`. */
  datatype Call<+H, +D> = Call(handler: H, event: Event<D>)

  type Registry<H> = map<string, seq<H>>

  /** What reading `getEventHandlers[name]` yields: undefined, or the sequence. */
  function Lookup<H>(reg: Registry<H>, name: string): Option<seq<H>>
  {
    if name in reg then Some(reg[name]) else None
  }

  /** The handlers under `name`, an absent name having none. */
  function HandlersOf<H>(reg: Registry<H>, name: string): seq<H>
  {
    if name in reg then reg[name] else []
  }

  // ---------------------------------------------------------------------
  // register

  /** The registry after `register(name, h)`: the sequence is created if
      absent, and `h` goes to its end. */
  function Registered<H>(reg: Registry<H>, name: string, h: H): (r: Registry<H>)
    ensures r.Keys == reg.Keys + {name}
    ensures Lookup(r, name) == Some(HandlersOf(reg, name) + [h])
    ensures forall n :: n != name ==> Lookup(r, n) == Lookup(reg, n)
  {
    reg[name := HandlersOf(reg, name) + [h]]
  }

  /** Registering the handlers `hs` one after the other under `name`. */
  function RegisteredAll<H>(reg: Registry<H>, name: string, hs: seq<H>): Registry<H>
    decreases |hs|
  {
    if hs == [] then reg else RegisteredAll(Registered(reg, name, hs[0]), name, hs[1..])
  }

  /** Registration keeps insertion order and keeps duplicates: after
      registering `hs` in turn, `name` maps to its old handlers followed by
      exactly `hs`; no other name changes. */
  lemma {:induction false} RegisterKeepsOrderAndDuplicates<H>(reg: Registry<H>, name: string, hs: seq<H>)
    ensures hs != [] ==> Lookup(RegisteredAll(reg, name, hs), name) == Some(HandlersOf(reg, name) + hs)
    ensures forall n :: n != name ==> Lookup(RegisteredAll(reg, name, hs), n) == Lookup(reg, n)
    decreases |hs|
  {
    if hs != [] {
      var next := Registered(reg, name, hs[0]);
      RegisterKeepsOrderAndDuplicates(next, name, hs[1..]);
      assert RegisteredAll(reg, name, hs) == RegisteredAll(next, name, hs[1..]);
      assert HandlersOf(next, name) == HandlersOf(reg, name) + [hs[0]];
      if hs[1..] == [] {
        assert RegisteredAll(next, name, hs[1..]) == next;
        assert hs == [hs[0]];
      }
      assert HandlersOf(reg, name) + [hs[0]] + hs[1..] == HandlersOf(reg, name) + hs;
    }
  }

  // ---------------------------------------------------------------------
  // unregister

  /** `Array.prototype.indexOf`: the first position of `h` in `s`, or -1. */
  function IndexOf<H(==)>(s: seq<H>, h: H): (i: int)
    ensures -1 <= i < |s|
    ensures i == -1 <==> h !in s
    ensures 0 <= i ==> s[i] == h && h !in s[..i]
  {
    if s == [] then -1
    else if s[0] == h then 0
    else
      var j := IndexOf(s[1..], h);
      if j == -1 then -1 else assert s[..j + 1] == [s[0]] + s[1..][..j]; j + 1
  }

  /** The reference definition of removing the first occurrence of `h`. */
  function RemoveFirst<H(==)>(s: seq<H>, h: H): (r: seq<H>)
    ensures h !in s ==> r == s
    ensures h in s ==> |r| == |s| - 1
  {
    if s == [] then []
    else
      assert s == [s[0]] + s[1..];
      if s[0] == h then s[1..] else [s[0]] + RemoveFirst(s[1..], h)
  }

  /** Removing the first occurrence takes exactly one `h` out of the
      handlers when there is one, and nothing else. */
  lemma {:induction false} RemoveFirstTakesOneOut<H>(s: seq<H>, h: H)
    ensures multiset(RemoveFirst(s, h)) == multiset(s) - multiset{h}
  {
    if s != [] {
      var t := s[1..];
      assert s == [s[0]] + t;
      if s[0] != h {
        RemoveFirstTakesOneOut(t, h);
        assert RemoveFirst(s, h) == [s[0]] + RemoveFirst(t, h);
      }
    }
  }

  /** The splice at `indexOf` (the in-place removal) removes exactly the
      first occurrence: everything before it and everything after it stay,
      in order. */
  lemma {:induction false} SpliceAtIndexOfIsRemoveFirst<H>(s: seq<H>, h: H)
    requires h in s
    ensures RemoveFirst(s, h) == s[..IndexOf(s, h)] + s[IndexOf(s, h) + 1..]
  {
    if s[0] != h {
      var t := s[1..];
      assert h in t;
      SpliceAtIndexOfIsRemoveFirst(t, h);
      var j := IndexOf(t, h);
      assert IndexOf(s, h) == j + 1;
      assert RemoveFirst(s, h) == [s[0]] + RemoveFirst(t, h);
      assert s[..j + 1] == [s[0]] + t[..j];
      assert s[j + 2..] == t[j + 1..];
    }
  }

  /** The registry after `unregister(name, h)`. An absent name, or a
      handler not in its sequence, leaves the registry as it is; the key
      is never deleted, even when its sequence becomes empty. */
  function Unregistered<H(==)>(reg: Registry<H>, name: string, h: H): (r: Registry<H>)
    ensures r.Keys == reg.Keys
    ensures name !in reg ==> r == reg
    ensures name in reg ==> r[name] == RemoveFirst(reg[name], h)
    ensures forall n :: n != name ==> Lookup(r, n) == Lookup(reg, n)
  {
    if name in reg then reg[name := RemoveFirst(reg[name], h)] else reg
  }

  /** Appending `h` and then removing the first `h` gives back the sequence
      when `h` was not in it; otherwise the older occurrence goes. */
  lemma {:induction false} RemoveFirstAfterAppend<H>(s: seq<H>, h: H)
    ensures RemoveFirst(s + [h], h) == if h in s then RemoveFirst(s, h) + [h] else s
  {
    if s != [] {
      var t := s[1..];
      RemoveFirstAfterAppend(t, h);
      assert s + [h] == [s[0]] + (t + [h]);
      if s[0] == h {
        assert RemoveFirst(s + [h], h) == t + [h];
      } else {
        assert RemoveFirst(s + [h], h) == [s[0]] + RemoveFirst(t + [h], h);
        assert h in s <==> h in t;
      }
    }
  }

  /** `unregister` undoes a `register` of a handler that was not yet
      registered under that name, except that an absent name becomes
      present with its old (empty) sequence: present-but-empty, not absent. */
  lemma RegisterThenUnregister<H>(reg: Registry<H>, name: string, h: H)
    requires h !in HandlersOf(reg, name)
    ensures Unregistered(Registered(reg, name, h), name, h) == reg[name := HandlersOf(reg, name)]
    ensures Lookup(Unregistered(Registered(reg, name, h), name, h), name) == Some(HandlersOf(reg, name))
  {
    RemoveFirstAfterAppend(HandlersOf(reg, name), h);
  }

  // ---------------------------------------------------------------------
  // unregisterAll

  /** The registry after `unregisterAll()`: every name is absent. */
  function Cleared<H>(reg: Registry<H>): (r: Registry<H>)
    ensures forall n :: Lookup(r, n) == None
  {
    map[]
  }

  /** Emptying a name by unregistering its only handler is observably
      different from clearing the registry: the first reads as a defined,
      empty sequence, the second as undefined. */
  lemma EmptiedDiffersFromCleared<H>(reg: Registry<H>, name: string, h: H)
    requires name !in reg
    ensures Lookup(Unregistered(Registered(reg, name, h), name, h), name) == Some([])
    ensures Lookup(Cleared(Registered(reg, name, h)), name) == None
  {
  }

  // ---------------------------------------------------------------------
  // notify

  /** `handle(event)` called on each handler of `hs`, in order. */
  function Fanout<H, D>(hs: seq<H>, event: Event<D>): (r: seq<Call<H, D>>)
    ensures |r| == |hs|
    ensures forall i :: 0 <= i < |hs| ==> r[i] == Call(hs[i], event)
  {
    if hs == [] then [] else [Call(hs[0], event)] + Fanout(hs[1..], event)
  }

  /** Fanning out to one more handler adds its call at the end. */
  lemma FanoutAppend<H, D>(hs: seq<H>, h: H, event: Event<D>)
    ensures Fanout(hs + [h], event) == Fanout(hs, event) + [Call(h, event)]
  {
  }

  /** The calls `notify(event)` makes: one per handler registered under the
      event's own type name, in registration order, each with the same
      event; none when that name is absent. */
  function Dispatch<H, D>(reg: Registry<H>, event: Event<D>): (r: seq<Call<H, D>>)
    ensures event.name !in reg ==> r == []
    ensures |r| == |HandlersOf(reg, event.name)|
    ensures forall i :: 0 <= i < |r| ==> r[i] == Call(HandlersOf(reg, event.name)[i], event)
  {
    Fanout(HandlersOf(reg, event.name), event)
  }

  /** A call appears in the fan-out exactly when it passes this very event
      to a handler registered under the event's type name. */
  lemma DispatchCallsExactlyRegistered<H, D>(reg: Registry<H>, event: Event<D>, c: Call<H, D>)
    ensures c in Dispatch(reg, event) <==> c.event == event && c.handler in HandlersOf(reg, event.name)
  {
  }

  /** `register` and `unregister` under one name leave the calls of a
      `notify` on any other event type unchanged. */
  lemma DispatchIgnoresOtherNames<H, D>(reg: Registry<H>, name: string, h: H, event: Event<D>)
    requires event.name != name
    ensures Dispatch(Registered(reg, name, h), event) == Dispatch(reg, event)
    ensures Dispatch(Unregistered(reg, name, h), event) == Dispatch(reg, event)
  {
  }
}
