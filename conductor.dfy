/** A model of the process-wide publish/subscribe registry `Conductor`.

    The registry is an insertion-ordered list of subscription records.
    `Subscribe` validates its arguments and appends one record, each record's
    `UnSubscribe` removes that very record (by identity) and `Publish` hands a
    payload to every record registered under the published event name, in
    registration order.

    Handlers (`H`), the context objects they may be bound to (`C`) and
    payloads (`P`) are opaque type parameters: the model records WHICH
    handler receives WHICH payload and in what order, not what a handler
    does when it runs.
 */
module Conductor {

  /** An optional JavaScript argument: `None` stands for `undefined` or `null`. */
  datatype Option<T> = None | Some(value: T)

  /** The errors `Subscribe` and `Publish` throw, with their exact messages. */
  datatype Error = MissingEventName | MissingHandlerFunction | MissingHandler
  {
    function Message(): string {
      match this
      case MissingEventName => "Missing eventName parameter."
      case MissingHandlerFunction => "Missing a function in handler parameter."
      case MissingHandler => "Missing handler parameter."
    }
  }

  /** The outcome of an operation that may throw one of the errors above. */
  datatype Result<T> = Success(value: T) | Failure(error: Error)

  /** The JavaScript value passed as `subscriber`: a function, or any other
      value (null, undefined, a number, an object, ...), which JavaScript
      considers truthy or falsy. */
  datatype HandlerArg<H> = Function(fn: H) | NonFunction(truthy: bool)

  /** The handler a record stores: the function itself, or the function
      permanently bound to a context object (`bind(thisArg)`). */
  datatype Handler<H, C> = Plain(fn: H) | Bound(fn: H, context: C)

  /** One subscription record `{Subscriber, EventName, UnSubscribe}`. The
      `id` stands for the identity of the record object: the `UnSubscribe`
      closure compares records by reference, and two records built by two
      `Subscribe` calls are never the same object. */
  datatype Subscription<H, C> = Subscription(id: nat, subscriber: Handler<H, C>, eventName: string)

  /** One call of a handler with a payload, made by `Publish`. */
  datatype Delivery<H, C, P> = Delivery(handler: Handler<H, C>, payload: P)

  /** JavaScript truthiness of an event-name argument (`!eventName`). */
  predicate MissingName(eventName: Option<string>) {
    eventName.None? || eventName.value == ""
  }

  /** JavaScript truthiness of a subscriber argument (`!subscriber`). */
  predicate IsTruthy<H>(subscriber: HandlerArg<H>) {
    subscriber.Function? || subscriber.truthy
  }

  /** Identities strictly increase along the list: every record is distinct,
      and a record registered later comes later. */
  ghost predicate IdsIncreasing<H(!new), C(!new)>(subs: seq<Subscription<H, C>>) {
    forall i, j :: 0 <= i < j < |subs| ==> subs[i].id < subs[j].id
  }

  /** The records registered under `name`, in list order: the `filter` that
      `Publish` applies. */
  function Matching<H(!new), C(!new)>(subs: seq<Subscription<H, C>>, name: string): (r: seq<Subscription<H, C>>)
    ensures |r| <= |subs|
    ensures forall i :: 0 <= i < |r| ==> r[i].eventName == name
  {
    if subs == [] then []
    else if subs[0].eventName == name then [subs[0]] + Matching(subs[1..], name)
    else Matching(subs[1..], name)
  }

  /** The list with the record of identity `id` taken out: the `filter` that
      a record's `UnSubscribe` assigns back to the registry. */
  function Without<H(!new), C(!new)>(subs: seq<Subscription<H, C>>, id: nat): (r: seq<Subscription<H, C>>)
    ensures |r| <= |subs|
    ensures forall i :: 0 <= i < |r| ==> r[i].id != id
  {
    if subs == [] then []
    else if subs[0].id != id then [subs[0]] + Without(subs[1..], id)
    else Without(subs[1..], id)
  }

  /** The calls a publish makes to the selected records: each record's
      handler with the payload, one call per record, in list order. */
  function Deliveries<H, C, P>(records: seq<Subscription<H, C>>, payload: P): (r: seq<Delivery<H, C, P>>)
    ensures |r| == |records|
    ensures forall i :: 0 <= i < |r| ==> r[i] == Delivery(records[i].subscriber, payload)
  {
    if records == [] then []
    else [Delivery(records[0].subscriber, payload)] + Deliveries(records[1..], payload)
  }

  /** A publish of `name` selects every record registered under `name` and
      no other record. */
  lemma {:induction false} MatchingMembers<H(!new), C(!new)>(subs: seq<Subscription<H, C>>, name: string)
    ensures forall s :: s in Matching(subs, name) <==> s in subs && s.eventName == name
  {
    if subs != [] {
      MatchingMembers(subs[1..], name);
      assert subs == [subs[0]] + subs[1..];
    }
  }

  /** Every record a publish selects comes from the list, so a lower bound
      on the list's identities bounds the selection's too. */
  lemma {:induction false} MatchingAbove<H(!new), C(!new)>(subs: seq<Subscription<H, C>>, name: string, bound: int)
    requires forall i :: 0 <= i < |subs| ==> bound < subs[i].id
    ensures forall i :: 0 <= i < |Matching(subs, name)| ==> bound < Matching(subs, name)[i].id
  {
    if subs != [] {
      MatchingAbove(subs[1..], name, bound);
    }
  }

  /** A publish selects its records in registration order. */
  lemma {:induction false} MatchingInOrder<H(!new), C(!new)>(subs: seq<Subscription<H, C>>, name: string)
    requires IdsIncreasing(subs)
    ensures IdsIncreasing(Matching(subs, name))
  {
    if subs != [] {
      RestInOrder(subs);
      MatchingInOrder(subs[1..], name);
      MatchingAbove(subs[1..], name, subs[0].id);
    }
  }

  /** Unsubscribing `id` keeps every record of another identity and nothing
      else. */
  lemma {:induction false} WithoutMembers<H(!new), C(!new)>(subs: seq<Subscription<H, C>>, id: nat)
    ensures forall s :: s in Without(subs, id) <==> s in subs && s.id != id
  {
    if subs != [] {
      WithoutMembers(subs[1..], id);
      assert subs == [subs[0]] + subs[1..];
    }
  }

  /** Every record kept by an unsubscribe comes from the list, so a lower
      bound on the list's identities bounds the result's too. */
  lemma {:induction false} WithoutAbove<H(!new), C(!new)>(subs: seq<Subscription<H, C>>, id: nat, bound: int)
    requires forall i :: 0 <= i < |subs| ==> bound < subs[i].id
    ensures forall i :: 0 <= i < |Without(subs, id)| ==> bound < Without(subs, id)[i].id
  {
    if subs != [] {
      WithoutAbove(subs[1..], id, bound);
    }
  }

  /** Unsubscribing keeps the remaining records in registration order. */
  lemma {:induction false} WithoutInOrder<H(!new), C(!new)>(subs: seq<Subscription<H, C>>, id: nat)
    requires IdsIncreasing(subs)
    ensures IdsIncreasing(Without(subs, id))
  {
    if subs != [] {
      RestInOrder(subs);
      WithoutInOrder(subs[1..], id);
      WithoutAbove(subs[1..], id, subs[0].id);
    }
  }

  /** In a list in registration order the first record has the smallest
      identity, and is the only record with that identity. */
  lemma FirstIsOldest<H(!new), C(!new)>(subs: seq<Subscription<H, C>>, s: Subscription<H, C>)
    requires IdsIncreasing(subs)
    requires s in subs
    ensures subs[0].id <= s.id
    ensures s.id == subs[0].id ==> s == subs[0]
  {
  }

  /** In a list in registration order the records after the first are all
      the records except the first. */
  lemma RestIsAllButFirst<H(!new), C(!new)>(subs: seq<Subscription<H, C>>)
    requires IdsIncreasing(subs) && subs != []
    ensures forall s :: s in subs[1..] <==> s in subs && s != subs[0]
  {
  }

  /** Two lists that are each in registration order and hold the same
      records are the same list. */
  lemma {:induction false} SameRecordsSameOrder<H(!new), C(!new)>(a: seq<Subscription<H, C>>, b: seq<Subscription<H, C>>)
    requires IdsIncreasing(a) && IdsIncreasing(b)
    requires forall s :: s in a <==> s in b
    ensures a == b
  {
    if a != [] { assert a[0] in a; }
    if b != [] { assert b[0] in b; }
    if a != [] && b != [] {
      FirstIsOldest(a, b[0]);
      FirstIsOldest(b, a[0]);
      RestIsAllButFirst(a);
      RestIsAllButFirst(b);
      assert IdsIncreasing(a[1..]) && IdsIncreasing(b[1..]);
      SameRecordsSameOrder(a[1..], b[1..]);
      assert a == [a[0]] + a[1..] && b == [b[0]] + b[1..];
    }
  }

  /** `Matching` is the only list in registration order that holds exactly
      the records registered under `name`: every such record once, no other
      record, in the order they were subscribed. */
  lemma MatchingIsUnique<H(!new), C(!new)>(subs: seq<Subscription<H, C>>, name: string, r: seq<Subscription<H, C>>)
    requires IdsIncreasing(subs) && IdsIncreasing(r)
    requires forall s :: s in r <==> s in subs && s.eventName == name
    ensures r == Matching(subs, name)
  {
    MatchingMembers(subs, name);
    MatchingInOrder(subs, name);
    SameRecordsSameOrder(r, Matching(subs, name));
  }

  /** Appending a record to the registry adds it at the end of what a
      publish of its own name delivers and changes nothing for other names. */
  lemma {:induction false} MatchingAppend<H(!new), C(!new)>(subs: seq<Subscription<H, C>>, s: Subscription<H, C>, name: string)
    ensures Matching(subs + [s], name) == Matching(subs, name) + (if s.eventName == name then [s] else [])
  {
    if subs != [] {
      assert (subs + [s])[1..] == subs[1..] + [s];
      MatchingAppend(subs[1..], s, name);
    }
  }

  /** Removing an identity that is not in the list leaves the list as it is:
      a second `UnSubscribe` of the same record is a no-op. */
  lemma {:induction false} WithoutAbsent<H(!new), C(!new)>(subs: seq<Subscription<H, C>>, id: nat)
    requires forall i :: 0 <= i < |subs| ==> subs[i].id != id
    ensures Without(subs, id) == subs
  {
    if subs != [] {
      WithoutAbsent(subs[1..], id);
    }
  }

  /** The records after the first are in registration order too, and all
      younger than the first. */
  lemma RestInOrder<H(!new), C(!new)>(subs: seq<Subscription<H, C>>)
    requires IdsIncreasing(subs) && subs != []
    ensures IdsIncreasing(subs[1..])
    ensures forall i :: 0 <= i < |subs[1..]| ==> subs[0].id < subs[1..][i].id
  {
  }

  /** Removing the record of identity `id` removes exactly the record at its
      position: every other record, including records with the same name and
      handler, stays, in its original relative order. */
  lemma {:induction false} WithoutRemovesOne<H(!new), C(!new)>(subs: seq<Subscription<H, C>>, k: nat)
    requires IdsIncreasing(subs)
    requires k < |subs|
    ensures Without(subs, subs[k].id) == subs[..k] + subs[k + 1..]
  {
    var id, tail := subs[k].id, subs[1..];
    RestInOrder(subs);
    if k == 0 {
      WithoutAbsent(tail, id);
    } else {
      assert subs[0].id < id by { assert tail[k - 1] == subs[k]; }
      WithoutRemovesOne(tail, k - 1);
      assert tail[k - 1] == subs[k];
      assert subs[..k] == [subs[0]] + tail[..k - 1];
      assert subs[k + 1..] == tail[k..];
    }
  }

  /** Unsubscribing twice has the effect of unsubscribing once. */
  lemma {:induction false} WithoutIdempotent<H(!new), C(!new)>(subs: seq<Subscription<H, C>>, id: nat)
    ensures Without(Without(subs, id), id) == Without(subs, id)
  {
    WithoutAbsent(Without(subs, id), id);
  }

  /** A record subscribed after another record's `UnSubscribe` was created
      is untouched by it: removal is by identity, and a new record never
      shares an identity with an older one. */
  lemma {:induction false} WithoutAppend<H(!new), C(!new)>(subs: seq<Subscription<H, C>>, s: Subscription<H, C>, id: nat)
    requires s.id != id
    ensures Without(subs + [s], id) == Without(subs, id) + [s]
  {
    if subs != [] {
      assert (subs + [s])[1..] == subs[1..] + [s];
      WithoutAppend(subs[1..], s, id);
    }
  }

  /** Publishing after an unsubscribe delivers what publishing before it
      delivered, less the removed record. */
  lemma {:induction false} MatchingWithout<H(!new), C(!new)>(subs: seq<Subscription<H, C>>, name: string, id: nat)
    ensures Matching(Without(subs, id), name) == Without(Matching(subs, name), id)
  {
    if subs != [] {
      MatchingWithout(subs[1..], name, id);
    }
  }

  /** The registry: the static `_subscriptions` list of `Conductor`, shared
      by the whole process. One instance of this class is that singleton. */
  class Registry<H(!new), C(!new)> {
    /** The live records, in registration order. */
    var subscriptions: seq<Subscription<H, C>>
    /** The identity the next record receives; stands for allocating a new
        record object. */
    var nextId: nat

    /** Records are distinct, in registration order, and no record carries
        an identity that a later `Subscribe` could hand out again. */
    ghost predicate Valid()
      reads this
    {
      && IdsIncreasing(subscriptions)
      && forall i :: 0 <= i < |subscriptions| ==> subscriptions[i].id < nextId
    }

    /** The registry starts empty. */
    constructor ()
      ensures Valid()
      ensures subscriptions == []
    {
      subscriptions := [];
      nextId := 0;
    }

    /** Registers `subscriber` for `eventName` (bound to `thisArg` if one is
        given) and returns the new record. Arguments are validated before
        anything changes. */
    method Subscribe(eventName: Option<string>, subscriber: HandlerArg<H>, thisArg: Option<C>)
      returns (r: Result<Subscription<H, C>>)
      requires Valid()
      modifies this
      ensures Valid()
      ensures MissingName(eventName) ==> r == Failure(MissingEventName)
      ensures !MissingName(eventName) && subscriber.NonFunction? ==> r == Failure(MissingHandlerFunction)
      ensures r.Success? <==> !MissingName(eventName) && subscriber.Function?
      ensures r.Failure? ==> subscriptions == old(subscriptions) && nextId == old(nextId)
      ensures r.Success? ==>
        && r.value.eventName == eventName.value
        && r.value.subscriber == (if thisArg.Some? then Bound(subscriber.fn, thisArg.value) else Plain(subscriber.fn))
        && r.value.id == old(nextId)
        && nextId == old(nextId) + 1
        && (forall i :: 0 <= i < |old(subscriptions)| ==> old(subscriptions)[i].id < r.value.id)
        && subscriptions == old(subscriptions) + [r.value]
    {
      if MissingName(eventName) {
        return Failure(MissingEventName);
      }
      if !subscriber.Function? {
        return Failure(MissingHandlerFunction);
      }
      if !IsTruthy(subscriber) {
        return Failure(MissingHandler);
      }
      var handler := if thisArg.Some? then Bound(subscriber.fn, thisArg.value) else Plain(subscriber.fn);
      var record := Subscription(nextId, handler, eventName.value);
      subscriptions := subscriptions + [record];
      nextId := nextId + 1;
      return Success(record);
    }

    /** The `UnSubscribe` closure of `subscription`: removes that record and
        no other. It never fails, and calling it again changes nothing. */
    method UnSubscribe(subscription: Subscription<H, C>)
      requires Valid()
      modifies this
      ensures Valid()
      ensures nextId == old(nextId)
      ensures subscriptions == Without(old(subscriptions), subscription.id)
      ensures (forall i :: 0 <= i < |old(subscriptions)| ==> old(subscriptions)[i].id != subscription.id) ==>
                subscriptions == old(subscriptions)
      ensures forall i :: 0 <= i < |subscriptions| ==> subscriptions[i].id != subscription.id
    {
      ghost var before := subscriptions;
      subscriptions := Without(subscriptions, subscription.id);
      WithoutInOrder(before, subscription.id);
      WithoutMembers(before, subscription.id);
      forall i | 0 <= i < |subscriptions|
        ensures subscriptions[i].id < nextId
      {
        assert subscriptions[i] in before;
      }
      if forall i :: 0 <= i < |before| ==> before[i].id != subscription.id {
        WithoutAbsent(before, subscription.id);
      }
    }

    /** Delivers `payload` to every record registered under `eventName`, in
        registration order, once per record, and returns those deliveries.
        The set of records is the snapshot taken when the call starts; the
        registry itself is not changed. */
    method Publish<P>(eventName: Option<string>, payload: P) returns (r: Result<seq<Delivery<H, C, P>>>)
      ensures MissingName(eventName) ==> r == Failure(MissingEventName)
      ensures !MissingName(eventName) ==> r == Success(Deliveries(Matching(subscriptions, eventName.value), payload))
    {
      if MissingName(eventName) {
        return Failure(MissingEventName);
      }
      var snapshot := Matching(subscriptions, eventName.value);
      var delivered: seq<Delivery<H, C, P>> := [];
      for i := 0 to |snapshot|
        invariant |delivered| == i
        invariant forall k :: 0 <= k < i ==> delivered[k] == Delivery(snapshot[k].subscriber, payload)
      {
        delivered := delivered + [Delivery(snapshot[i].subscriber, payload)];
      }
      assert delivered == Deliveries(snapshot, payload);
      return Success(delivered);
    }
  }
}
