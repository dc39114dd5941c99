/**
 * The channel object of index.js together with the module-level state it
 * works on: the dictionaries `exchanges` and `queues` (index.js:3-4) and the
 * `delete queues[queue]` callbacks that `deleteQueue` leaves to `setImmediate`.
 *
 * Each promise-returning channel method settles with a `Result`; `Flush` stands for
 * the event-loop turn in which the pending `setImmediate` callbacks run.
 */
module Channel {
  import opened Outcomes
  import opened TopicPattern
  import opened Topology

  /** The reasons a channel call rejects (or, for `consume`, throws). */
  datatype Error =
    | CheckingNonExistingQueue(queue: string)          // "Checking non-existing queue <q>"
    | CheckingNonExistingExchange(exchange: string)    // "Checking non-existing exchange <e>"
    | BindToNonExistingExchange(exchange: string)      // "Bind to non-existing exchange <e>"
    | PublishToNonExistingExchange(exchange: string)   // "Publish to non-existing exchange <e>"
    | SubscribersOfUndefined(queue: string)            // TypeError: `queues[queue]` is undefined
    | NotDefined(identifier: string)                   // ReferenceError in strict mode

  class Broker {
    var exchanges: map<string, Exchange>
    var queues: map<string, Queue>
    /** Queue names whose deferred `delete queues[name]` has not run yet, oldest first. */
    var pendingDeletes: seq<string>

    /** Every stored binding holds the compilation of its own key, and that key is one the compilation reads faithfully. */
    ghost predicate Valid()
      reads this
    {
      forall e, i :: e in exchanges && 0 <= i < |exchanges[e].bindings| ==>
        var b := exchanges[e].bindings[i];
        b.pattern == Compile(b.key) && SupportedKey(b.key)
    }

    /** The state when index.js is loaded: both dictionaries empty, nothing scheduled. */
    constructor ()
      ensures Valid()
      ensures exchanges == map[] && queues == map[] && pendingDeletes == []
    {
      exchanges := map[];
      queues := map[];
      pendingDeletes := [];
    }

    /** `assertQueue(queue, qOptions)`: create-or-get; resolves with the queue name. */
    method AssertQueue(queue: string, options: Option<Options>) returns (r: Result<string, Error>)
      requires Valid()
      modifies this
      ensures Valid()
      ensures r == Ok(queue)
      ensures queue in queues
      ensures queue in old(queues) ==> queues == old(queues)
      ensures queue !in old(queues) ==> queues == old(queues)[queue := Queue([], options)]
      ensures exchanges == old(exchanges) && pendingDeletes == old(pendingDeletes)
    {
      queues := SetIfUndef(queues, queue, Queue([], options));
      r := Ok(queue);
    }

    /** `checkQueue(queue)`: resolves exactly when the queue exists. */
    method CheckQueue(queue: string) returns (r: Result<(), Error>)
      ensures r.Ok? <==> queue in queues
      ensures r.Err? ==> r.error == CheckingNonExistingQueue(queue)
    {
      if queue !in queues {
        return Err(CheckingNonExistingQueue(queue));
      }
      r := Ok(());
    }

    /**
     * `assertExchange(exchange, type, exchOptions)`: create-or-get; missing
     * options (`exchOptions || {}`) are stored as the empty object.
     */
    method AssertExchange(exchange: string, kind: string, options: Option<Options>) returns (r: Result<string, Error>)
      requires Valid()
      modifies this
      ensures Valid()
      ensures r == Ok(exchange)
      ensures exchange in exchanges
      ensures exchange in old(exchanges) ==> exchanges == old(exchanges)
      ensures exchange !in old(exchanges) ==>
                exchanges == old(exchanges)[exchange := Exchange([], if options.Some? then options.value else Options(map[]), kind)]
      ensures queues == old(queues) && pendingDeletes == old(pendingDeletes)
    {
      var stored := if options.Some? then options.value else Options(map[]);
      exchanges := SetIfUndef(exchanges, exchange, Exchange([], stored, kind));
      r := Ok(exchange);
    }

    /** `checkExchange(exchange)`: resolves exactly when the exchange exists. */
    method CheckExchange(exchange: string) returns (r: Result<(), Error>)
      ensures r.Ok? <==> exchange in exchanges
      ensures r.Err? ==> r.error == CheckingNonExistingExchange(exchange)
    {
      if exchange !in exchanges {
        return Err(CheckingNonExistingExchange(exchange));
      }
      r := Ok(());
    }

    /**
     * `bindQueue(queue, exchange, key)`: rejects when the exchange does not
     * exist; otherwise pushes one binding at the end of its list, without
     * de-duplication and whether or not the queue exists.
     */
    method BindQueue(queue: string, exchange: string, key: string) returns (r: Result<(), Error>)
      requires Valid()
      requires SupportedKey(key)
      modifies this
      ensures Valid()
      ensures r.Ok? <==> exchange in old(exchanges)
      ensures r.Err? ==> r.error == BindToNonExistingExchange(exchange) && exchanges == old(exchanges)
      ensures r.Ok? ==>
                var e := old(exchanges)[exchange];
                exchanges == old(exchanges)[exchange := e.(bindings := e.bindings + [NewBinding(queue, key)])]
      ensures queues == old(queues) && pendingDeletes == old(pendingDeletes)
    {
      if exchange !in exchanges {
        return Err(BindToNonExistingExchange(exchange));
      }
      var e := exchanges[exchange];
      var binding := NewBinding(queue, key);
      exchanges := exchanges[exchange := e.(bindings := e.bindings + [binding])];
      r := Ok(());
    }

    /**
     * `unbindQueue(queue, exchange, key)`: always resolves and removes
     * nothing, because `find` yields a binding or undefined, never a number
     * above -1.
     */
    method UnbindQueue(queue: string, exchange: string, key: string) returns (r: Result<(), Error>)
      requires Valid()
      modifies this
      ensures Valid()
      ensures r == Ok(())
      ensures exchanges == old(exchanges) && queues == old(queues) && pendingDeletes == old(pendingDeletes)
    {
      if exchange in exchanges {
        var e := exchanges[exchange];
        var found := Find(e.bindings, (b: Binding) => b.key == key);
        FoundIsNeverAboveMinusOne(e.bindings, (b: Binding) => b.key == key);
        // `splice(idx, 1)` with an object for `idx` would start at index 0
        var kept := if GreaterThan(FoundToNumber(found), -1) then SpliceOne(e.bindings, 0) else e.bindings;
        exchanges := exchanges[exchange := e.(bindings := kept)];
      }
      r := Ok(());
    }

    /**
     * `publish(exchange, routingKey, ...)`: rejects when the exchange does not
     * exist; otherwise calls, binding by matching binding and subscriber by
     * subscriber, every handler reached, and changes no state.
     */
    method Publish(exchange: string, routingKey: string) returns (r: Result<seq<Delivery>, Error>)
      ensures exchange !in exchanges ==> r == Err(PublishToNonExistingExchange(exchange))
      ensures exchange in exchanges ==> r == Ok(Routed(queues, exchanges[exchange].bindings, routingKey))
    {
      if exchange !in exchanges {
        return Err(PublishToNonExistingExchange(exchange));
      }
      var matching := MatchingBindings(exchanges[exchange].bindings, routingKey);
      var calls: seq<Delivery> := [];
      var i := 0;
      while i < |matching|
        invariant 0 <= i <= |matching|
        invariant calls == Deliveries(queues, matching[..i])
      {
        var binding := matching[i];
        var subscribers := SubscribersOf(queues, binding.queueName);
        var j := 0;
        while j < |subscribers|
          invariant 0 <= j <= |subscribers|
          invariant calls == Deliveries(queues, matching[..i]) + Addressed(binding.queueName, subscribers[..j])
        {
          var sub := subscribers[j];
          calls := calls + [Delivery(binding.queueName, sub.consumerTag, sub.handler)];
          AddressedSnoc(binding.queueName, subscribers, j);
          j := j + 1;
        }
        assert subscribers[..j] == subscribers;
        DeliveriesSnoc(queues, matching, i);
        i := i + 1;
      }
      assert matching[..i] == matching;
      r := Ok(calls);
    }

    /**
     * Every stored pattern is its own key compiled, so the filter of a publish
     * tests each binding's key as line 43 compiles it, and a binding whose key
     * has no `.`, `#` or `*` is selected by exactly that routing key.
     */
    lemma SelectedByOwnKey(exchange: string, routingKey: string)
      requires Valid()
      requires exchange in exchanges
      ensures forall b :: b in MatchingBindings(exchanges[exchange].bindings, routingKey) <==>
                b in exchanges[exchange].bindings && Matches(Compile(b.key), routingKey)
      ensures forall b :: b in exchanges[exchange].bindings && '.' !in b.key && '#' !in b.key && '*' !in b.key ==>
                (b in MatchingBindings(exchanges[exchange].bindings, routingKey) <==> routingKey == b.key)
    {
      var bindings := exchanges[exchange].bindings;
      forall b | b in bindings
        ensures b.pattern == Compile(b.key) && SupportedKey(b.key)
      {
        var i :| 0 <= i < |bindings| && bindings[i] == b;
      }
      forall b | b in bindings && '.' !in b.key && '#' !in b.key && '*' !in b.key
        ensures Matches(b.pattern, routingKey) <==> routingKey == b.key
      {
        PlainKeyMatchesOnlyItself(b.key, routingKey);
      }
    }

    /**
     * `consume(queue, handler)`: pushes `{handler, consumerTag}` at the end of
     * the queue's subscribers and resolves with the tag; on a queue that does
     * not exist it throws before registering anything.
     */
    method Consume(queue: string, handler: HandlerId, consumerTag: string) returns (r: Result<string, Error>)
      requires Valid()
      modifies this
      ensures Valid()
      ensures r.Ok? <==> queue in old(queues)
      ensures r.Ok? ==> r.value == consumerTag && queues == PushSubscriber(old(queues), queue, Subscriber(handler, consumerTag))
      ensures r.Err? ==> r.error == SubscribersOfUndefined(queue) && queues == old(queues)
      ensures exchanges == old(exchanges) && pendingDeletes == old(pendingDeletes)
    {
      if queue !in queues {
        return Err(SubscribersOfUndefined(queue));
      }
      queues := PushSubscriber(queues, queue, Subscriber(handler, consumerTag));
      r := Ok(consumerTag);
    }

    /**
     * `cancel(consumerTag)`: `for (q in queues)` assigns the undeclared `q`,
     * which throws a ReferenceError in strict mode as soon as there is a
     * queue to visit; with no queue the loop body never runs. Either way no
     * subscriber is removed.
     */
    method Cancel(consumerTag: string) returns (r: Result<(), Error>)
      ensures r.Ok? <==> queues == map[]
      ensures r.Err? ==> r.error == NotDefined("q")
    {
      if queues != map[] {
        return Err(NotDefined("q"));
      }
      r := Ok(());
    }

    /** `deleteQueue(queue)`: schedules the deletion and changes nothing yet. */
    method DeleteQueue(queue: string)
      requires Valid()
      modifies this
      ensures Valid()
      ensures pendingDeletes == old(pendingDeletes) + [queue]
      ensures exchanges == old(exchanges) && queues == old(queues)
    {
      pendingDeletes := pendingDeletes + [queue];
    }

    /** The `setImmediate` turn: every scheduled `delete queues[name]` runs, in order. */
    method Flush()
      requires Valid()
      modifies this
      ensures Valid()
      ensures queues == old(queues) - (set n | n in old(pendingDeletes))
      ensures forall n :: n in old(pendingDeletes) ==> n !in queues
      ensures pendingDeletes == [] && exchanges == old(exchanges)
    {
      var i := 0;
      while i < |pendingDeletes|
        invariant 0 <= i <= |pendingDeletes|
        invariant pendingDeletes == old(pendingDeletes) && exchanges == old(exchanges)
        invariant queues == old(queues) - (set n | n in pendingDeletes[..i])
      {
        assert pendingDeletes[..i + 1] == pendingDeletes[..i] + [pendingDeletes[i]];
        queues := queues - {pendingDeletes[i]};
        i := i + 1;
      }
      assert pendingDeletes[..i] == pendingDeletes;
      pendingDeletes := [];
    }

    /** `resetMock()`: both dictionaries replaced by empty ones; callbacks already scheduled still run. */
    method ResetMock()
      modifies this
      ensures Valid()
      ensures exchanges == map[] && queues == map[]
      ensures pendingDeletes == old(pendingDeletes)
    {
      queues := map[];
      exchanges := map[];
    }
  }
}
