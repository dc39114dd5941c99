/**
 * Client runs against a fresh broker, proved from the channel methods'
 * contracts alone: what a caller of the mock can rely on.
 */
module Scenarios {
  import opened Outcomes
  import opened TopicPattern
  import opened Topology
  import opened Channel

  /**
   * `deleteQueue` followed by `publish` in the same turn still reaches the
   * queue's subscriber; after the `setImmediate` turn the queue is gone.
   */
  method DeletionIsDeferred() returns (before: Result<seq<Delivery>, Error>, check: Result<(), Error>, after: Result<seq<Delivery>, Error>)
    ensures before == Ok([Delivery("q", "t", 1)])
    ensures check == Err(CheckingNonExistingQueue("q"))
    ensures after == Ok([])
  {
    var b := new Broker();
    var _ := b.AssertExchange("ex", "topic", None);
    var _ := b.AssertQueue("q", None);
    var _ := b.BindQueue("q", "ex", "k");
    var _ := b.Consume("q", 1, "t");
    b.DeleteQueue("q");
    var bs, qs := b.exchanges["ex"].bindings, b.queues;
    assert bs == [] + [NewBinding("q", "k")];
    assert qs["q"].subscribers == [Subscriber(1, "t")];
    PlainKeyMatchesOnlyItself("k", "k");
    OnlySubscriber(qs, NewBinding("q", "k"), Subscriber(1, "t"));
    RoutedAfterBind(qs, [], NewBinding("q", "k"), "k");
    before := b.Publish("ex", "k");
    b.Flush();
    check := b.CheckQueue("q");
    MissingQueueReceivesNothing(b.queues, bs, "k", "q");
    var ds := Routed(b.queues, bs, "k");
    if ds != [] {
      RoutedReaches(b.queues, bs, "k", ds[0]);
    }
    after := b.Publish("ex", "k");
  }

  /**
   * `x.*` bound to q1 and `x.#` bound to q2: routing key `x.y` reaches the
   * subscribers of both, in binding order.
   */
  method FanOut() returns (r: Result<seq<Delivery>, Error>)
    ensures r == Ok([Delivery("q1", "t1", 1), Delivery("q2", "t2", 2)])
  {
    var b := new Broker();
    var _ := b.AssertExchange("ex", "topic", None);
    var _ := b.AssertQueue("q1", None);
    var _ := b.AssertQueue("q2", None);
    PatternsOfFanOut();
    var _ := b.BindQueue("q1", "ex", "x.*");
    var _ := b.BindQueue("q2", "ex", "x.#");
    assert b.exchanges["ex"].bindings == [NewBinding("q1", "x.*"), NewBinding("q2", "x.#")];
    var _ := b.Consume("q1", 1, "t1");
    var _ := b.Consume("q2", 2, "t2");
    assert b.queues["q1"].subscribers == [Subscriber(1, "t1")];
    assert b.queues["q2"].subscribers == [Subscriber(2, "t2")];
    RoutedOfFanOut(b.queues);
    r := b.Publish("ex", "x.y");
  }

  lemma PatternsOfFanOut()
    ensures SupportedKey("x.*") && SupportedKey("x.#")
    ensures Matches(Compile("x.*"), "x.y") && Matches(Compile("x.#"), "x.y")
  {
  }

  lemma RoutedOfFanOut(queues: map<string, Queue>)
    requires "q1" in queues && queues["q1"].subscribers == [Subscriber(1, "t1")]
    requires "q2" in queues && queues["q2"].subscribers == [Subscriber(2, "t2")]
    ensures Routed(queues, [NewBinding("q1", "x.*"), NewBinding("q2", "x.#")], "x.y")
         == [Delivery("q1", "t1", 1), Delivery("q2", "t2", 2)]
  {
    var star, hash := NewBinding("q1", "x.*"), NewBinding("q2", "x.#");
    PatternsOfFanOut();
    OnlySubscriber(queues, star, Subscriber(1, "t1"));
    OnlySubscriber(queues, hash, Subscriber(2, "t2"));
    RoutedAfterBind(queues, [], star, "x.y");
    assert [star] + [hash] == [star, hash];
    RoutedAfterBind(queues, [star], hash, "x.y");
  }

  /** Binding the same queue twice under one key delivers every publish twice. */
  method DoubleBinding() returns (r: Result<seq<Delivery>, Error>)
    ensures r == Ok([Delivery("q", "t", 7), Delivery("q", "t", 7)])
  {
    var b := new Broker();
    var _ := b.AssertExchange("ex", "topic", None);
    var _ := b.AssertQueue("q", None);
    var _ := b.Consume("q", 7, "t");
    assert SupportedKey("a.#");
    var _ := b.BindQueue("q", "ex", "a.#");
    var _ := b.BindQueue("q", "ex", "a.#");
    assert b.exchanges["ex"].bindings == [NewBinding("q", "a.#"), NewBinding("q", "a.#")];
    assert b.queues["q"].subscribers == [Subscriber(7, "t")];
    RoutedOfDoubleBinding(b.queues);
    r := b.Publish("ex", "a.b");
  }

  lemma RoutedOfDoubleBinding(queues: map<string, Queue>)
    requires "q" in queues && queues["q"].subscribers == [Subscriber(7, "t")]
    ensures Routed(queues, [NewBinding("q", "a.#"), NewBinding("q", "a.#")], "a.b")
         == [Delivery("q", "t", 7), Delivery("q", "t", 7)]
  {
    var binding := NewBinding("q", "a.#");
    HashMatchesSegments();
    OnlySubscriber(queues, binding, Subscriber(7, "t"));
    BoundTwiceDeliveredTwice(queues, [], binding, "a.b");
    assert [] + [binding] + [binding] == [binding, binding];
  }

  /**
   * `unbindQueue` resolves but leaves the binding, so a later publish is
   * still delivered; `cancel` rejects once a queue exists and leaves the
   * subscriber, which keeps receiving.
   */
  method UnbindAndCancelRemoveNothing() returns (unbound: Result<(), Error>, cancelled: Result<(), Error>, r: Result<seq<Delivery>, Error>)
    ensures unbound == Ok(())
    ensures cancelled == Err(NotDefined("q"))
    ensures r == Ok([Delivery("q", "t", 3)])
  {
    var b := new Broker();
    var _ := b.AssertExchange("ex", "topic", None);
    var _ := b.AssertQueue("q", None);
    var _ := b.BindQueue("q", "ex", "k");
    var _ := b.Consume("q", 3, "t");
    unbound := b.UnbindQueue("q", "ex", "k");
    cancelled := b.Cancel("t");
    PlainKeyMatchesOnlyItself("k", "k");
    assert b.exchanges["ex"].bindings == [] + [NewBinding("q", "k")];
    assert b.queues["q"].subscribers == [Subscriber(3, "t")];
    OnlySubscriber(b.queues, NewBinding("q", "k"), Subscriber(3, "t"));
    RoutedAfterBind(b.queues, [], NewBinding("q", "k"), "k");
    r := b.Publish("ex", "k");
  }

  /** The fan-out of a binding to a queue with a single subscriber. */
  lemma OnlySubscriber(queues: map<string, Queue>, b: Binding, s: Subscriber)
    requires b.queueName in queues && queues[b.queueName].subscribers == [s]
    ensures Fanout(queues, b) == [Delivery(b.queueName, s.consumerTag, s.handler)]
  {
    AddressedAt(b.queueName, [s]);
  }

  /** Before any assert a check rejects; after one it resolves; `resetMock` forgets everything. */
  method AssertThenCheck() returns (early: Result<(), Error>, late: Result<(), Error>, reset: Result<(), Error>)
    ensures early == Err(CheckingNonExistingExchange("ex"))
    ensures late == Ok(())
    ensures reset == Err(CheckingNonExistingExchange("ex"))
  {
    var b := new Broker();
    early := b.CheckExchange("ex");
    var _ := b.AssertExchange("ex", "topic", Some(Options(map["durable" := "true"])));
    var _ := b.AssertExchange("ex", "direct", None);
    assert b.exchanges["ex"] == Exchange([], Options(map["durable" := "true"]), "topic");
    late := b.CheckExchange("ex");
    assert late.Ok? && late.value == ();
    b.ResetMock();
    reset := b.CheckExchange("ex");
  }
}
