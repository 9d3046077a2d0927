# Conductor: a verified model of a process-wide publish/subscribe registry

`Conductor` keeps one process-wide, insertion-ordered list of subscription
records `{Subscriber, EventName, UnSubscribe}`. It offers three operations:

- `Subscribe(eventName, subscriber, thisArg?)` checks its arguments, builds a record and appends it;
- each record's `UnSubscribe()` removes exactly that record;
- `Publish(eventName, payload?)` calls, in registration order, the handler of every record registered under `eventName`.

This project models that registry in Dafny and proves what the operations
promise.

- `conductor.dfy`, module `Conductor`:
  - The records and arguments are datatypes.
  - The static `_subscriptions` list is the `seq` field of class `Registry`. One instance of it stands for the process singleton.
  - `Subscribe`, `UnSubscribe` and `Publish` are methods of that class.
  - The two `filter` calls of the TypeScript implementation are the pure functions `Matching` (publish) and `Without` (unsubscribe). The lemmas are about these two functions.
- `scenarios.dfy`, module `ConductorScenarios`: client methods that replay the cases of the implementation's Jest tests. Each one proves what the calls return and what `Publish` delivers.

Modelling choices:

- **Record identity.** `UnSubscribe` compares records with `!==`, which is object identity. Each record carries a `nat` id taken from the counter `nextId`; two `Subscribe` calls never produce the same id. The invariant `Valid()` says ids strictly increase along the list and stay below `nextId`. So "registration order" is "increasing id". It also means a stale `UnSubscribe` can never remove a later record.
- **JavaScript argument values.** `eventName` is `Option<string>`: `None` is `undefined`/`null`, and the name is missing when it is `None` or `""` (`!eventName`). `subscriber` is `HandlerArg<H>`: a function, or some other value that is truthy or falsy. `thisArg` is `Option<C>`.
- **Bound handlers.** The stored handler is `Plain(fn)`, or `Bound(fn, context)` when a `thisArg` is given (`subscriber.bind(thisArg)`).
- **Errors.** The thrown errors are `Result.Failure` values. `Error.Message()` gives their exact texts.
- **Publish.** `Publish` calls no handler. It returns the list of `Delivery(handler, payload)` calls it would make. It reads the snapshot `Matching(subscriptions, name)` once, as the implementation's `filter` does, then loops over it as the `forEach` does.
- **The dead third check.** `Subscribe` keeps the third check (`!subscriber`, "Missing handler parameter.") as written. Its contract shows that check never fires: every failure is one of the first two errors.

## Model

| member | source | states |
|---|---|---|
| `Conductor.Registry.constructor` | src/Conductor.ts:4 | The registry starts empty and satisfies its invariant. |
| `Conductor.Registry.Subscribe` | src/Conductor.ts:6-27 | A missing name fails with "Missing eventName parameter."; otherwise a non-function handler fails with "Missing a function in handler parameter.". A failure leaves the registry unchanged. Success happens exactly when the name is present and the handler is a function. On success exactly one record is appended at the end, with earlier records unchanged and in order. That record carries the given name and the handler (bound when a context is given), and is the one returned. Its identity is the counter's old value, which is then advanced by one. So it differs from every record ever created before, including removed ones, and is younger than every existing record. The invariant is kept. |
| `Conductor.Registry.UnSubscribe` | src/Conductor.ts:22-24 | The new list is `Without(old list, id)`. No record with that identity remains. If none was present, nothing changes, so a second call is a no-op. It never fails, and the invariant is kept. |
| `Conductor.Registry.Publish` | src/Conductor.ts:29-38 | A missing name fails with "Missing eventName parameter." and delivers nothing. Otherwise the result is one delivery of the payload per record in `Matching(subscriptions, name)`, in that order. The registry is not modified. |
| `Conductor.Matching` | src/Conductor.ts:33-34 | Every selected record is registered under the published name, and there are no more of them than records. |
| `Conductor.Without` | src/Conductor.ts:23 | No record of the removed identity remains, and the list does not grow. |
| `Conductor.Deliveries` | src/Conductor.ts:35-37 | One delivery per selected record, in list order: the i-th delivery is the i-th record's handler with the payload. |
| `Conductor.MatchingMembers` | src/Conductor.ts:34 | A record is delivered to if and only if it is in the registry and registered under the published name. |
| `Conductor.MatchingInOrder` | src/Conductor.ts:33-34 | The selection keeps registration order. |
| `Conductor.MatchingIsUnique` | src/Conductor.ts:33-37 | `Matching` is the only list in registration order holding exactly the matching records. So a publish reaches every matching record once, and no other, in registration order. |
| `Conductor.MatchingAppend` | src/Conductor.ts:25-34 | After a subscribe, a publish of the new record's name delivers what it did before, then the new record. Other names are unaffected. |
| `Conductor.WithoutMembers` | src/Conductor.ts:23 | A record survives an unsubscribe if and only if its identity differs from the removed one. |
| `Conductor.WithoutInOrder` | src/Conductor.ts:23 | The records that remain after an unsubscribe keep their registration order. |
| `Conductor.WithoutRemovesOne` | src/Conductor.ts:22-24 | Unsubscribing the record at position k yields the list with exactly that position removed. Every other record stays in order, including duplicates with the same name and handler. |
| `Conductor.WithoutAbsent` | src/Conductor.ts:23 | Unsubscribing an identity not in the list leaves the list unchanged. |
| `Conductor.WithoutIdempotent` | src/Conductor.ts:22-24 | Unsubscribing twice has the same effect as unsubscribing once. |
| `Conductor.WithoutAppend` | src/Conductor.ts:23-25 | A record added later is never removed by another record's `UnSubscribe`. |
| `Conductor.MatchingWithout` | src/Conductor.ts:23-34 | A publish after an unsubscribe delivers what it delivered before, less the removed record. |
| `ConductorScenarios.DuplicateSubscriptions` | test/Conductor.test.ts:49-58 | Subscribing the same handler twice gives two records, and one publish calls the handler twice. |
| `ConductorScenarios.UnsubscribeOneDuplicate` | src/Conductor.ts:22-25 | Unsubscribing one of two identical records leaves the other, so the handler is called once. |
| `ConductorScenarios.UnsubscribeStopsDelivery` | test/Conductor.test.ts:186-204 | A publish reaches the subscriber; after its unsubscribe, the next publish delivers nothing. |
| `ConductorScenarios.UnsubscribeTwice` | test/Conductor.test.ts:233-247 | A second `UnSubscribe` of the same record succeeds and leaves the registry as it was. |
| `ConductorScenarios.StaleUnsubscribe` | src/Conductor.ts:17-25 | Calling a removed record's `UnSubscribe` again, after a newer record is subscribed under the same name, leaves the newer record, and the next publish still delivers to it. |
| `ConductorScenarios.UnsubscribeTheRightOne` | test/Conductor.test.ts:206-231 | Two subscribers are called in order. After the first unsubscribes, only the second is called. |
| `ConductorScenarios.SeparateEvents` | test/Conductor.test.ts:157-177 | Each handler receives only the payload published under its own name. |
| `ConductorScenarios.BoundSubscriber` | test/Conductor.test.ts:34-47 | A handler subscribed with a context is stored bound to that context, and the publish calls it bound. |
| `ConductorScenarios.InvalidArguments` | test/Conductor.test.ts:60-92 | An empty or absent name, or a non-function handler, is refused with the exact messages and leaves the registry empty. A publish with an empty name fails. A publish with no subscriber delivers nothing. |

## Left out

- What a handler does when called is not modelled: its side effects, re-entrant `Subscribe`/`UnSubscribe` calls made from inside it, and an exception that would stop the rest of the `forEach`. `Publish` returns the full delivery list of its start-of-call snapshot. A handler that throws would cut that list short in the TypeScript implementation.
- The invocation context of `Function.prototype.bind` is not modelled. A bound handler is represented only as the pair `Bound(fn, context)`.
- Argument values of other JavaScript types are not modelled. A non-string event name such as `0` or `false` is outside `Option<string>`. Payloads are an opaque type, and an omitted payload is just one of its values.
- The static field is shared across the whole process, and the test file resets it by assigning `[]` directly. Neither is modelled: the model has one `Registry` object per scenario, and nothing outside the three operations changes its list.
- `Conductor.Registry.UnSubscribe` takes the record and removes by its identity. The TypeScript implementation calls a closure stored in the record, so it cannot be handed a forged record. The model's contract holds for any record passed in.
- Records are immutable values here. The TypeScript implementation returns the live record object that also sits in `_subscriptions`, so a caller who reassigns its `EventName` or `Subscriber` changes what later publishes deliver. The model does not capture that aliasing.
- The generic `TEvent` typing, the build configuration and the generated type declarations have no runtime behaviour and are not part of this model.
