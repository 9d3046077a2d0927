/** Client scenarios of the registry, proved from the contracts of
    `Conductor.Registry` and the lemmas about it alone. Each one creates its
    own registry (the Jest tests of the TypeScript implementation reset the
    shared list before each case), drives it through a sequence of calls and
    states what the calls return and what `Publish` delivers. */
module ConductorScenarios {
  import opened Conductor

  /** Subscribing the same handler twice under one name makes two
      independent records, and one publish calls the handler twice. */
  method DuplicateSubscriptions<H(!new), C(!new), P>(name: string, handler: H, payload: P)
    returns (count: nat, published: Result<seq<Delivery<H, C, P>>>)
    requires name != ""
    ensures count == 2
    ensures published == Success([Delivery(Plain(handler), payload), Delivery(Plain(handler), payload)])
  {
    var conductor := new Registry<H, C>();
    var first := conductor.Subscribe(Some(name), Function(handler), None);
    var second := conductor.Subscribe(Some(name), Function(handler), None);
    var x, y := first.value, second.value;
    assert conductor.subscriptions == [x, y];
    count := |conductor.subscriptions|;
    MatchingAppend([], x, name);
    MatchingAppend([x], y, name);
    published := conductor.Publish(Some(name), payload);
    var d := Delivery(Plain(handler), payload);
    assert Deliveries([x, y], payload) == [d, d] by {
      assert [x, y][1..] == [y];
      assert Deliveries([y], payload) == [d];
    }
  }

  /** Of two identical records, unsubscribing one leaves the other: the next
      publish calls the handler once, not twice. */
  method UnsubscribeOneDuplicate<H(!new), C(!new), P>(name: string, handler: H, payload: P)
    returns (published: Result<seq<Delivery<H, C, P>>>)
    requires name != ""
    ensures published == Success([Delivery(Plain(handler), payload)])
  {
    var conductor := new Registry<H, C>();
    var first := conductor.Subscribe(Some(name), Function(handler), None);
    var second := conductor.Subscribe(Some(name), Function(handler), None);
    var x, y := first.value, second.value;
    assert conductor.subscriptions == [x, y];
    conductor.UnSubscribe(x);
    WithoutRemovesOne([x, y], 0);
    assert conductor.subscriptions == [y];
    MatchingAppend([], y, name);
    published := conductor.Publish(Some(name), payload);
    assert Deliveries([y], payload) == [Delivery(Plain(handler), payload)];
  }

  /** A subscriber is called by a publish; once unsubscribed it is not
      called again. */
  method UnsubscribeStopsDelivery<H(!new), C(!new), P>(name: string, handler: H, payload: P)
    returns (before: Result<seq<Delivery<H, C, P>>>, after: Result<seq<Delivery<H, C, P>>>)
    requires name != ""
    ensures before == Success([Delivery(Plain(handler), payload)])
    ensures after == Success([])
  {
    var conductor := new Registry<H, C>();
    var subscription := conductor.Subscribe(Some(name), Function(handler), None);
    var x := subscription.value;
    MatchingAppend([], x, name);
    before := conductor.Publish(Some(name), payload);
    assert Deliveries([x], payload) == [Delivery(Plain(handler), payload)];
    conductor.UnSubscribe(x);
    WithoutRemovesOne([x], 0);
    after := conductor.Publish(Some(name), payload);
  }

  /** Calling a record's `UnSubscribe` a second time does not fail and
      changes nothing. */
  method UnsubscribeTwice<H(!new), C(!new)>(name: string, handler: H)
    returns (sizeAfterFirst: nat, sizeAfterSecond: nat)
    requires name != ""
    ensures sizeAfterFirst == 0 && sizeAfterSecond == 0
  {
    var conductor := new Registry<H, C>();
    var subscription := conductor.Subscribe(Some(name), Function(handler), None);
    conductor.UnSubscribe(subscription.value);
    sizeAfterFirst := |conductor.subscriptions|;
    conductor.UnSubscribe(subscription.value);
    sizeAfterSecond := |conductor.subscriptions|;
  }

  /** A record's `UnSubscribe` called again after a newer subscription
      leaves the newer record in place: identities are never reused. */
  method StaleUnsubscribe<H(!new), C(!new), P>(name: string, earlier: H, newer: H, payload: P)
    returns (published: Result<seq<Delivery<H, C, P>>>)
    requires name != ""
    ensures published == Success([Delivery(Plain(newer), payload)])
  {
    var conductor := new Registry<H, C>();
    var first := conductor.Subscribe(Some(name), Function(earlier), None);
    var x := first.value;
    conductor.UnSubscribe(x);
    var second := conductor.Subscribe(Some(name), Function(newer), None);
    var y := second.value;
    assert x.id != y.id;
    conductor.UnSubscribe(x);
    WithoutAbsent([y], x.id);
    assert conductor.subscriptions == [y];
    MatchingAppend([], y, name);
    published := conductor.Publish(Some(name), payload);
    assert Deliveries([y], payload) == [Delivery(Plain(newer), payload)];
  }

  /** Two handlers under one name: a publish reaches both in registration
      order; after the first is unsubscribed, only the second is reached. */
  method UnsubscribeTheRightOne<H(!new), C(!new), P>(first: H, second: H, payload: P)
    returns (before: Result<seq<Delivery<H, C, P>>>, after: Result<seq<Delivery<H, C, P>>>)
    ensures before == Success([Delivery(Plain(first), payload), Delivery(Plain(second), payload)])
    ensures after == Success([Delivery(Plain(second), payload)])
  {
    var conductor := new Registry<H, C>();
    var a := conductor.Subscribe(Some("testEvent"), Function(first), None);
    var b := conductor.Subscribe(Some("testEvent"), Function(second), None);
    var x, y := a.value, b.value;
    assert conductor.subscriptions == [x, y];
    MatchingAppend([], x, "testEvent");
    MatchingAppend([x], y, "testEvent");
    before := conductor.Publish(Some("testEvent"), payload);
    var d1, d2 := Delivery(Plain(first), payload), Delivery(Plain(second), payload);
    assert Deliveries([x, y], payload) == [d1, d2] by {
      assert [x, y][1..] == [y];
      assert Deliveries([y], payload) == [d2];
    }
    conductor.UnSubscribe(x);
    WithoutRemovesOne([x, y], 0);
    assert conductor.subscriptions == [y];
    MatchingAppend([], y, "testEvent");
    after := conductor.Publish(Some("testEvent"), payload);
    assert Deliveries([y], payload) == [d2];
  }

  /** Handlers under two different names each receive only the payload
      published under their own name. */
  method SeparateEvents<H(!new), C(!new), P>(first: H, second: H, firstPayload: P, secondPayload: P)
    returns (toFirst: Result<seq<Delivery<H, C, P>>>, toSecond: Result<seq<Delivery<H, C, P>>>)
    ensures toFirst == Success([Delivery(Plain(first), firstPayload)])
    ensures toSecond == Success([Delivery(Plain(second), secondPayload)])
  {
    var conductor := new Registry<H, C>();
    var a := conductor.Subscribe(Some("firstEvent"), Function(first), None);
    var b := conductor.Subscribe(Some("secondEvent"), Function(second), None);
    var x, y := a.value, b.value;
    assert conductor.subscriptions == [x, y];
    MatchingAppend([], x, "firstEvent");
    MatchingAppend([x], y, "firstEvent");
    MatchingAppend([], x, "secondEvent");
    MatchingAppend([x], y, "secondEvent");
    toFirst := conductor.Publish(Some("firstEvent"), firstPayload);
    assert Deliveries([x], firstPayload) == [Delivery(Plain(first), firstPayload)];
    toSecond := conductor.Publish(Some("secondEvent"), secondPayload);
    assert Deliveries([y], secondPayload) == [Delivery(Plain(second), secondPayload)];
  }

  /** A handler subscribed with a context object is stored bound to it, and
      a publish calls the bound handler. */
  method BoundSubscriber<H(!new), C(!new), P>(name: string, handler: H, thisArg: C, payload: P)
    returns (published: Result<seq<Delivery<H, C, P>>>)
    requires name != ""
    ensures published == Success([Delivery(Bound(handler, thisArg), payload)])
  {
    var conductor := new Registry<H, C>();
    var subscription := conductor.Subscribe(Some(name), Function(handler), Some(thisArg));
    var x := subscription.value;
    MatchingAppend([], x, name);
    published := conductor.Publish(Some(name), payload);
    assert Deliveries([x], payload) == [Delivery(Bound(handler, thisArg), payload)];
  }

  /** Invalid arguments are refused with the implementation's exact messages and leave the
      registry empty; a publish with no subscriber delivers nothing. */
  method InvalidArguments<H(!new), C(!new), P>(handler: H, payload: P)
    returns (emptyName: Result<Subscription<H, C>>, noName: Result<Subscription<H, C>>,
             notAFunction: Result<Subscription<H, C>>, noPublishName: Result<seq<Delivery<H, C, P>>>,
             nobodyListening: Result<seq<Delivery<H, C, P>>>, size: nat)
    ensures emptyName.Failure? && emptyName.error.Message() == "Missing eventName parameter."
    ensures noName.Failure? && noName.error.Message() == "Missing eventName parameter."
    ensures notAFunction.Failure? && notAFunction.error.Message() == "Missing a function in handler parameter."
    ensures noPublishName.Failure? && noPublishName.error.Message() == "Missing eventName parameter."
    ensures nobodyListening == Success([])
    ensures size == 0
  {
    var conductor := new Registry<H, C>();
    emptyName := conductor.Subscribe(Some(""), Function(handler), None);
    noName := conductor.Subscribe(None, Function(handler), None);
    notAFunction := conductor.Subscribe(Some("testEvent"), NonFunction(false), None);
    noPublishName := conductor.Publish(Some(""), payload);
    nobodyListening := conductor.Publish(Some("testEvent"), payload);
    size := |conductor.subscriptions|;
  }
}
