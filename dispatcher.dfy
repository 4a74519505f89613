/**
 * The domain-event dispatcher as the object the tests drive: its handler
 * dictionary is updated in place by `register`, `unregister` and
 * `unregisterAll`, read back through `getEventHandlers`, and walked by
 * `notify`. Every `handle(event)` the dispatcher makes is appended to
 * `trace`, so that what `notify` calls, and in which order, is part of the
 * observable state.
 */
module EventDispatching {
  import opened EventRegistry

  class EventDispatcher<H(==), D> {
    /** The handler dictionary: event-type name to handlers in registration order. */
    var eventHandlers: map<string, seq<H>>
    /** Every `handle(event)` this dispatcher has made, oldest first. */
    var trace: seq<Call<H, D>>

    /** A new dispatcher has no name registered and has called nothing. */
    constructor ()
      ensures eventHandlers == map[] && trace == []
    {
      eventHandlers := map[];
      trace := [];
    }

    /** `getEventHandlers[eventName]`: undefined when the name was never
        registered (or was cleared), otherwise its current sequence. */
    method GetEventHandlers(eventName: string) returns (r: Option<seq<H>>)
      ensures r == Lookup(eventHandlers, eventName)
    {
      if eventName in eventHandlers {
        r := Some(eventHandlers[eventName]);
      } else {
        r := None;
      }
    }

    /** Appends `handler` to the sequence for `eventName`, creating the
        sequence first if the name is absent. */
    method Register(eventName: string, handler: H)
      modifies this`eventHandlers
      ensures eventHandlers == Registered(old(eventHandlers), eventName, handler)
    {
      if eventName !in eventHandlers {
        eventHandlers := eventHandlers[eventName := []];
      }
      eventHandlers := eventHandlers[eventName := eventHandlers[eventName] + [handler]];
    }

    /** Splices the first occurrence of `handler` out of the sequence for
        `eventName`; an absent name or handler changes nothing, and the name
        stays present even when its sequence becomes empty. */
    method Unregister(eventName: string, handler: H)
      modifies this`eventHandlers
      ensures eventHandlers == Unregistered(old(eventHandlers), eventName, handler)
    {
      if eventName in eventHandlers {
        var hs := eventHandlers[eventName];
        var index := IndexOf(hs, handler);
        if index != -1 {
          SpliceAtIndexOfIsRemoveFirst(hs, handler);
          eventHandlers := eventHandlers[eventName := hs[..index] + hs[index + 1..]];
        }
      }
    }

    /** Replaces the dictionary by an empty one: every name becomes absent. */
    method UnregisterAll()
      modifies this`eventHandlers
      ensures eventHandlers == Cleared(old(eventHandlers))
    {
      eventHandlers := map[];
    }

    /** `handler.handle(event)`, recorded in the trace. Only `Notify` calls
        it, so the trace holds exactly the calls the dispatcher made. */
    method Handle(handler: H, event: Event<D>)
      modifies this`trace
      ensures trace == old(trace) + [Call(handler, event)]
    {
      trace := trace + [Call(handler, event)];
    }

    /** Calls `handle(event)` on every handler registered under the event's
        type name, in registration order; a name with no sequence is a
        no-op. The dictionary itself is left as it was. */
    method Notify(event: Event<D>)
      modifies this`trace
      ensures eventHandlers == old(eventHandlers)
      ensures trace == old(trace) + Dispatch(old(eventHandlers), event)
    {
      if event.name in eventHandlers {
        var hs := eventHandlers[event.name];
        var i := 0;
        while i < |hs|
          invariant 0 <= i <= |hs|
          invariant trace == old(trace) + Fanout(hs[..i], event)
        {
          Handle(hs[i], event);
          FanoutAppend(hs[..i], hs[i], event);
          assert hs[..i + 1] == hs[..i] + [hs[i]];
          i := i + 1;
        }
        assert hs[..|hs|] == hs;
      }
    }
  }
}
