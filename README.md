# Domain-event dispatcher

This project models the in-process domain-event dispatcher of a small
domain-driven-design exercise (customers, orders, products). The dispatcher
keeps a dictionary from an event-type name to the ordered list of handlers
subscribed to it, and offers `register`, `unregister`, `unregisterAll`,
`notify` and the `getEventHandlers` accessor. `notify` calls
`handle(event)` on every handler registered under the event's own type name,
in order.

The dispatcher exists twice, in `src/domain/@shared/event/` and
`src/domain/event/@shared/`. Its implementation file (`event-dispatcher.ts`)
is not part of this model. The two Jest spec files that drive it are.
They fix which names are defined or undefined, the lengths of the lists,
and that `notify` reaches a registered handler. The tests that spy on a
handler also pin the identity of the one handler they register. The
order of several handlers and the removal of a single occurrence follow
the dispatcher's design: registration appends in order and `unregister`
removes by identity. One model covers both trees, because their tests
expect the same behaviour.

Files:

- `registry.dfy`, module `EventRegistry`: the registry as a value
  (`map<string, seq<H>>`). It defines what each operation does to the
  registry (`Registered`, `Unregistered`, `Cleared`, `Dispatch`) and
  proves the properties the tests rely on.
- `dispatcher.dfy`, module `EventDispatching`: the class `EventDispatcher`.
  Its field `eventHandlers` is updated in place by its methods. Its field
  `trace` records every `handle(event)` call the dispatcher makes, oldest
  first. Each method is proved against the matching function of
  `EventRegistry`.
- `scenarios.dfy`, module `DispatcherScenarios`: each Jest test as a
  client method. Each method returns what the test reads back, and its
  postcondition is what the test expects. Handlers and payloads are
  arbitrary, so each scenario holds for every handler object and every
  event payload.

Modelling choices. The tests do not decide these cases, so the simplest
definition is taken:

- `unregister` on a name that was never registered changes nothing.
- `unregister` removes only the first occurrence of the handler (an
  `indexOf` followed by a one-element splice). When the handler is not in
  the list, nothing changes.
- `notify` for a name with no list calls nothing.
- An event's type name is the `name` field of `Event`. As the tests use
  it, it is presumably the name of the event's class (for example
  `CustomerCreatedEvent`).
- Handlers are compared by identity (Dafny equality). The tests compare
  them with `toMatchObject`, which only checks the expected object's own
  properties. Where a test first spies on the handler
  (`jest.spyOn(eventHandler, "handle")`), the mock is such a property and
  is compared by reference, so the stored handler must be that very
  instance. The two-handler test at
  src/domain/@shared/event/event-dispatcher-customer.spec.ts:35-36 has no
  spy: its field-less handlers match any object, and its checks would
  also pass for `[queue, email]`. There the model's `[email, queue]`
  comes from the design's rule that registration appends in order.

## Model

| member | source | states |
|---|---|---|
| `EventRegistry.Registered` | src/domain/@shared/event/event-dispatcher-customer.spec.ts:44-48 | after `register(name, h)` the name is present and maps to its old handlers followed by `h`; the set of names grows by exactly `name`; every other name reads back as before |
| `EventRegistry.RegisterKeepsOrderAndDuplicates` | src/domain/@shared/event/event-dispatcher-customer.spec.ts:18-36 | registering any handlers `hs` in turn under one name (duplicates included) leaves that name mapped to its old list followed by exactly `hs`, in registration order; no other name changes |
| `EventRegistry.IndexOf` | src/domain/@shared/event/event-dispatcher-customer.spec.ts:72 | the lookup `unregister` uses: -1 exactly when the handler is not in the list, otherwise the position of its first occurrence |
| `EventRegistry.RemoveFirst` | src/domain/@shared/event/event-dispatcher-customer.spec.ts:72-75 | removing a handler that is not in the list returns the list unchanged; removing one that is shortens the list by exactly one |
| `EventRegistry.RemoveFirstTakesOneOut` | src/domain/@shared/event/event-dispatcher-customer.spec.ts:72-75 | removal takes exactly one copy of the handler out of the list's contents, and no other handler |
| `EventRegistry.SpliceAtIndexOfIsRemoveFirst` | src/domain/event/@shared/event-dispatcher-customer.spec.ts:56-59 | splicing the list at the handler's `indexOf` equals removing its first occurrence: the handlers before and after it keep their order |
| `EventRegistry.Unregistered` | src/domain/@shared/event/event-dispatcher-customer.spec.ts:64-76 | `unregister` never adds or deletes a name; an absent name leaves the registry unchanged; a present name loses the first occurrence of the handler; other names are untouched |
| `EventRegistry.RemoveFirstAfterAppend` | src/domain/event/@shared/event-dispatcher-customer.spec.ts:48-60 | removing a handler just appended gives back the old list when the handler was not in it; otherwise the older occurrence is the one removed |
| `EventRegistry.RegisterThenUnregister` | src/domain/@shared/event/event-dispatcher-customer.spec.ts:78-90 | `unregister` undoes a `register` of a new handler, except that a name that was absent stays present with its old, empty list |
| `EventRegistry.Cleared` | src/domain/@shared/event/event-dispatcher-customer.spec.ts:100-102 | after `unregisterAll` every name reads as undefined |
| `EventRegistry.EmptiedDiffersFromCleared` | src/domain/@shared/event/event-dispatcher-customer.spec.ts:64-103 | for a fresh name, unregistering its only handler reads back as a defined empty list, while clearing reads back as undefined: the two states differ |
| `EventRegistry.Fanout` | src/domain/@shared/event/event-dispatcher-customer.spec.ts:126-128 | the calls made for a list of handlers: one per handler, the i-th call to the i-th handler, each with the same event |
| `EventRegistry.FanoutAppend` | src/domain/event/@shared/event-dispatcher-customer.spec.ts:110-112 | one more handler in the list adds its call at the end of the calls, after all earlier ones |
| `EventRegistry.Dispatch` | src/domain/@shared/event/event-dispatcher-customer.spec.ts:105-128 | `notify` calls each handler registered under the event's type name once, in registration order, with the same event; an unregistered name gives no calls |
| `EventRegistry.DispatchCallsExactlyRegistered` | src/domain/event/@shared/event-dispatcher-customer.spec.ts:89-113 | a call is made by `notify` if and only if it passes this event to a handler registered under the event's type name |
| `EventRegistry.DispatchIgnoresOtherNames` | src/domain/@shared/event/event-dispatcher-customer.spec.ts:44-60 | registering or unregistering under one name does not change which handlers `notify` calls for an event of any other name |
| `EventDispatching.EventDispatcher.constructor` | src/domain/@shared/event/event-dispatcher-customer.spec.ts:14 | a new dispatcher has no name registered and has made no call |
| `EventDispatching.EventDispatcher.GetEventHandlers` | src/domain/@shared/event/event-dispatcher-customer.spec.ts:33-36 | reading `getEventHandlers[name]` is undefined exactly when the name is absent from the dictionary, and otherwise gives its current list |
| `EventDispatching.EventDispatcher.Register` | src/domain/@shared/event/event-dispatcher-customer.spec.ts:18-19 | the dictionary becomes `Registered` of the old one; the call trace is untouched |
| `EventDispatching.EventDispatcher.Unregister` | src/domain/@shared/event/event-dispatcher-customer.spec.ts:72 | the in-place `indexOf`-and-splice leaves the dictionary equal to `Unregistered` of the old one; the call trace is untouched |
| `EventDispatching.EventDispatcher.UnregisterAll` | src/domain/@shared/event/event-dispatcher-customer.spec.ts:100 | the dictionary is replaced by an empty one, so every name reads as undefined; the call trace is untouched |
| `EventDispatching.EventDispatcher.Handle` | src/domain/customer/event/handler/send-email-when-customer-is-change-address.handler.ts:6-8 | one `handle(event)` invocation is appended to the trace; the dictionary is untouched |
| `EventDispatching.EventDispatcher.Notify` | src/domain/@shared/event/event-dispatcher-customer.spec.ts:31-36 | the dictionary is unchanged, and the trace grows by exactly `Dispatch` of the registry: each registered handler called in order with the same event |
| `DispatcherScenarios.RegisterTwoCreatedHandlers` | src/domain/@shared/event/event-dispatcher-customer.spec.ts:13-37 | two handlers under "CustomerCreatedEvent", then `notify`: the name reads `[email, queue]` and the calls were email then queue, each with the same event |
| `DispatcherScenarios.RegisterOneHandler` | src/domain/event/@shared/event-dispatcher-customer.spec.ts:11-31 | one `register` under any name on a fresh dispatcher: defined, length 1, element 0 is the handler |
| `DispatcherScenarios.UnregisterSoleHandler` | src/domain/@shared/event/event-dispatcher-customer.spec.ts:64-90 | `register` then `unregister` of the same handler under any name: defined, length 0 |
| `DispatcherScenarios.UnregisterAllAfterRegister` | src/domain/@shared/event/event-dispatcher-customer.spec.ts:92-103 | the name reads `[h]` before `unregisterAll` and undefined after it |
| `DispatcherScenarios.NotifyCallsRegisteredHandler` | src/domain/@shared/event/event-dispatcher-customer.spec.ts:105-128 | a handler registered under an event's type name is called by `notify` exactly once, with that event, and nothing else is called |
| `DispatcherScenarios.UnregisteredHandlerIsNotNotified` | src/domain/@shared/event/event-dispatcher-customer.spec.ts:78-90 | extends that test (register then unregister of the same handler under any name) with a `notify` for an event of that name, which the test itself does not call: no handler is called |
| `DispatcherScenarios.ChangedAddressTestAsWritten` | src/domain/@shared/event/event-dispatcher-customer.spec.ts:39-62 | the changed-address test as written: the handler reads back at index 0, but `notify` calls nothing |
| `DispatcherScenarios.ChangedAddressTestCorrected` | src/domain/@shared/event/event-dispatcher-customer.spec.ts:39-62 | with the handler registered under the event's class name, `notify` calls it exactly once with the event |

The tests of `src/domain/event/@shared/event-dispatcher-customer.spec.ts`
at lines 48-74, 76-87 and 89-113 are the same as those of
`src/domain/@shared/event/event-dispatcher-customer.spec.ts` at lines
64-90, 92-103 and 105-128. The same scenario methods cover both.

## Findings

| source | as written | input that shows it | evidently intended | confidence | as-written member | corrected member |
|---|---|---|---|---|---|---|
| src/domain/@shared/event/event-dispatcher-customer.spec.ts:44-61 | the handler is registered under "CustomerChangedAddressEvent", but the event passed to `notify` is a `CustomerChangeAddressEvent` (line 8 and line 53) | any handler and any payload: `notify` calls no handler; `expect(spy).toHaveBeenCalled()` passes only because of the direct `eventHandler.handle(...)` at line 58 | register under the event's class name so that the test checks that `notify` reaches the handler | not executed; the name mismatch is near-certain from the import name and file name (the class is declared in a file that is not part of this model), and the effect assumes the dispatcher keys events by class name | `DispatcherScenarios.ChangedAddressTestAsWritten` | `DispatcherScenarios.ChangedAddressTestCorrected` |

The same test in `src/domain/event/@shared/event-dispatcher-customer.spec.ts`
(lines 27, 36 and 42) has the same mismatch.

## Left out

- The dispatcher's implementation file `event-dispatcher.ts` is not part of this model. The behaviour comes from the tests, plus the modelling choices listed above.
- `EventDispatching.EventDispatcher.GetEventHandlers`: the source's getter presumably returns the live dictionary object (the tests only read `getEventHandlers[name]`), so a caller could mutate it. The model returns a copy of one name's entry, so it does not capture that aliasing.
- The event's timestamp (`dataTimeOccurred`) and the contents of its payload (`eventData`): the dispatcher never inspects them, so the payload is an opaque value.
- The bodies of the handlers (`console.log` calls only): a handler is an opaque identity, and each invocation is recorded in the dispatcher's trace.
- The tests' direct `eventHandler.handle(...)` calls: they do not go through the dispatcher, so they are not part of its trace.
- Jest spies and `toMatchObject`: a spy's "was called" is read from the trace, and structural matching is modelled as equality.
- A handler that throws during `notify`: no test fixes a policy for a handler that throws, so every `handle` returns normally in the model.
- The order repository (Sequelize persistence), `src/main.ts` and the entity classes (Customer, Address, Order, OrderItem): these are persistence plumbing or plain construction, not dispatcher behaviour.
