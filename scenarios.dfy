/**
 * The dispatcher's Jest tests, each as a client of `EventDispatcher` that
 * returns what the test reads back (`getEventHandlers[...]`, and which
 * `handle` calls the dispatcher made). Each postcondition is what the
 * test expects, proved from the dispatcher's contracts alone. Handlers are
 * arbitrary identities and payloads arbitrary values, so every scenario
 * holds for any handler objects and any event data.
 */
module DispatcherScenarios {
  import opened EventRegistry
  import opened EventDispatching

  /** Two handlers under "CustomerCreatedEvent", then a notify: the name
      maps to both, in registration order, and each was called once, in
      that order, with the same event. */
  method RegisterTwoCreatedHandlers<H(==), D>(email: H, queue: H, data: D)
    returns (observed: Option<seq<H>>, calls: seq<Call<H, D>>)
    ensures observed == Some([email, queue])
    ensures calls == [Call(email, Event("CustomerCreatedEvent", data)), Call(queue, Event("CustomerCreatedEvent", data))]
  {
    var dispatcher := new EventDispatcher<H, D>();
    dispatcher.Register("CustomerCreatedEvent", email);
    assert dispatcher.eventHandlers["CustomerCreatedEvent"] == [email];
    dispatcher.Register("CustomerCreatedEvent", queue);
    assert dispatcher.eventHandlers["CustomerCreatedEvent"] == [email, queue];
    dispatcher.Notify(Event("CustomerCreatedEvent", data));
    observed := dispatcher.GetEventHandlers("CustomerCreatedEvent");
    calls := dispatcher.trace;
  }

  /** One handler under any name on a fresh dispatcher: the name is
      defined, with exactly that handler at position 0. */
  method RegisterOneHandler<H(==), D>(eventName: string, handler: H)
    returns (observed: Option<seq<H>>)
    ensures observed.Some? && |observed.value| == 1 && observed.value[0] == handler
  {
    var dispatcher := new EventDispatcher<H, D>();
    dispatcher.Register(eventName, handler);
    observed := dispatcher.GetEventHandlers(eventName);
  }

  /** Registering and then unregistering the only handler of a name leaves
      that name defined with an empty sequence. */
  method UnregisterSoleHandler<H(==), D>(eventName: string, handler: H)
    returns (observed: Option<seq<H>>)
    ensures observed == Some([])
  {
    var dispatcher := new EventDispatcher<H, D>();
    dispatcher.Register(eventName, handler);
    dispatcher.Unregister(eventName, handler);
    observed := dispatcher.GetEventHandlers(eventName);
  }

  /** The unregister test followed by a `notify` it does not make itself:
      a handler registered and then unregistered under a name is not
      called for an event of that name. */
  method UnregisteredHandlerIsNotNotified<H(==), D>(eventName: string, handler: H, data: D)
    returns (calls: seq<Call<H, D>>)
    ensures calls == []
  {
    var dispatcher := new EventDispatcher<H, D>();
    dispatcher.Register(eventName, handler);
    dispatcher.Unregister(eventName, handler);
    dispatcher.Notify(Event(eventName, data));
    calls := dispatcher.trace;
  }

  /** After `unregisterAll`, a name that had a handler reads as undefined. */
  method UnregisterAllAfterRegister<H(==), D>(handler: H)
    returns (before: Option<seq<H>>, after: Option<seq<H>>)
    ensures before == Some([handler])
    ensures after == None
  {
    var dispatcher := new EventDispatcher<H, D>();
    dispatcher.Register("CustomerCreatedEvent", handler);
    assert dispatcher.eventHandlers["CustomerCreatedEvent"] == [handler];
    before := dispatcher.GetEventHandlers("CustomerCreatedEvent");
    dispatcher.UnregisterAll();
    after := dispatcher.GetEventHandlers("CustomerCreatedEvent");
  }

  /** A handler registered under an event's own type name is called by
      `notify` with that event, and nothing else is called. */
  method NotifyCallsRegisteredHandler<H(==), D>(handler: H, event: Event<D>)
    returns (calls: seq<Call<H, D>>)
    ensures calls == [Call(handler, event)]
  {
    var dispatcher := new EventDispatcher<H, D>();
    dispatcher.Register(event.name, handler);
    dispatcher.Notify(event);
    calls := dispatcher.trace;
  }

  /** The changed-address test as written: the handler goes under
      "CustomerChangedAddressEvent" while the event's class is
      `CustomerChangeAddressEvent`, so `notify` calls no handler at all.
      The test's spy is satisfied only by its own direct `handle` call. */
  method ChangedAddressTestAsWritten<H(==), D>(handler: H, data: D)
    returns (observed: Option<seq<H>>, calls: seq<Call<H, D>>)
    ensures observed == Some([handler])
    ensures calls == []
  {
    var dispatcher := new EventDispatcher<H, D>();
    dispatcher.Register("CustomerChangedAddressEvent", handler);
    assert dispatcher.eventHandlers["CustomerChangedAddressEvent"] == [handler];
    observed := dispatcher.GetEventHandlers("CustomerChangedAddressEvent");
    dispatcher.Notify(Event("CustomerChangeAddressEvent", data));
    calls := dispatcher.trace;
  }

  /** The changed-address test with the handler registered under the
      event's own class name: `notify` now reaches the handler, once, with
      that event. */
  method ChangedAddressTestCorrected<H(==), D>(handler: H, data: D)
    returns (observed: Option<seq<H>>, calls: seq<Call<H, D>>)
    ensures observed == Some([handler])
    ensures calls == [Call(handler, Event("CustomerChangeAddressEvent", data))]
  {
    var dispatcher := new EventDispatcher<H, D>();
    dispatcher.Register("CustomerChangeAddressEvent", handler);
    assert dispatcher.eventHandlers["CustomerChangeAddressEvent"] == [handler];
    observed := dispatcher.GetEventHandlers("CustomerChangeAddressEvent");
    dispatcher.Notify(Event("CustomerChangeAddressEvent", data));
    calls := dispatcher.trace;
  }
}
