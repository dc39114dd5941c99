/**
 * The entities stored in the broker's two dictionaries, the generic helpers
 * the channel methods use on them (`setIfUndef`, `Array.prototype.find`,
 * JavaScript's `>` on the value `find` returns) and the specification of
 * routing: which bindings a routing key selects (index.js:70) and which
 * subscribers a publish reaches, in which order (index.js:72-78).
 */
module Topology {
  import opened Outcomes
  import opened TopicPattern

  /** An opaque configuration object: stored, never interpreted. */
  datatype Options = Options(entries: map<string, string>)

  /** A consumer's callback, recorded by identity only. */
  type HandlerId = nat

  datatype Subscriber = Subscriber(handler: HandlerId, consumerTag: string)

  /** `{ regex, queueName, key }`: the compiled key, the target queue (by name) and the raw key. */
  datatype Binding = Binding(pattern: seq<Token>, queueName: string, key: string)

  /** An entry of `exchanges`: `{ bindings, options, type }`. */
  datatype Exchange = Exchange(bindings: seq<Binding>, options: Options, kind: string)

  /** An entry of `queues`: `{ messages, subscribers, options }`; the options are stored as given, possibly undefined. */
  datatype Queue = Queue(subscribers: seq<Subscriber>, options: Option<Options>)

  /** One call `sub.handler(message)` made by a publish: the queue it went through and the subscriber called. */
  datatype Delivery = Delivery(queueName: string, consumerTag: string, handler: HandlerId)

  /** `setIfUndef(object, prop, value)`: store `value` under `key` unless an entry is already there. */
  function SetIfUndef<V>(m: map<string, V>, key: string, value: V): (r: map<string, V>)
    ensures r.Keys == m.Keys + {key}
    ensures r[key] == if key in m then m[key] else value
    ensures forall k :: k in m && k != key ==> r[k] == m[k]
  {
    if key !in m then m[key := value] else m
  }

  /** `Array.prototype.find`: the first element satisfying `p`, or undefined. */
  function Find<T(==)>(s: seq<T>, p: T -> bool): (r: Option<T>)
    ensures r.None? <==> forall i :: 0 <= i < |s| ==> !p(s[i])
    ensures r.Some? ==> exists i :: 0 <= i < |s| && s[i] == r.value && p(s[i]) && forall j :: 0 <= j < i ==> !p(s[j])
  {
    if s == [] then None
    else if p(s[0]) then Some(s[0])
    else
      var r := Find(s[1..], p);
      assert forall i :: 1 <= i < |s| ==> s[i] == s[1..][i - 1];
      if r.Some? then
        var k :| 0 <= k < |s[1..]| && s[1..][k] == r.value && p(s[1..][k]) && forall j :: 0 <= j < k ==> !p(s[1..][j]);
        assert s[k + 1] == r.value;
        r
      else r
  }

  /** The number a JavaScript relational comparison converts its operand to. */
  datatype JsNumber = NaN | Finite(value: int)

  /**
   * `ToNumber` of what `find` returns: `undefined` is NaN, and so is an
   * object, whose primitive value is the string "[object Object]".
   */
  function FoundToNumber<T>(found: Option<T>): JsNumber {
    match found
    case None => NaN
    case Some(_) => NaN
  }

  /** `x > n` after conversion: every comparison with NaN is false. */
  predicate GreaterThan(x: JsNumber, n: int) {
    match x
    case NaN => false
    case Finite(v) => v > n
  }

  /**
   * The guard `idx > -1` of index.js:56 and index.js:96 never holds for the
   * value `find` returns, whether it found an element or not.
   */
  lemma FoundIsNeverAboveMinusOne<T>(s: seq<T>, p: T -> bool)
    ensures !GreaterThan(FoundToNumber(Find(s, p)), -1)
  {
  }

  /** `Array.prototype.splice(start, 1)` for an in-range start; out of range it removes nothing. */
  function SpliceOne<T>(s: seq<T>, start: int): seq<T> {
    if 0 <= start < |s| then s[..start] + s[start + 1..] else s
  }

  /** The binding `bindQueue` pushes (index.js:43-44). */
  function NewBinding(queue: string, key: string): Binding {
    Binding(Compile(key), queue, key)
  }

  /** `bindings.filter(b => b.regex.test(routingKey))` (index.js:70). */
  function MatchingBindings(bindings: seq<Binding>, routingKey: string): (r: seq<Binding>)
    ensures |r| <= |bindings|
    ensures forall b :: b in r <==> b in bindings && Matches(b.pattern, routingKey)
  {
    if bindings == [] then []
    else
      var rest := MatchingBindings(bindings[1..], routingKey);
      assert bindings == [bindings[0]] + bindings[1..];
      if Matches(bindings[0].pattern, routingKey) then [bindings[0]] + rest else rest
  }

  /** The subscriber list publish reads for a queue name: empty when the queue does not exist (index.js:73). */
  function SubscribersOf(queues: map<string, Queue>, name: string): seq<Subscriber> {
    if name in queues then queues[name].subscribers else []
  }

  /** One delivery per subscriber of `subs`, in list order (index.js:74-77). */
  function Addressed(name: string, subs: seq<Subscriber>): seq<Delivery> {
    if subs == [] then []
    else
      var last := subs[|subs| - 1];
      Addressed(name, subs[..|subs| - 1]) + [Delivery(name, last.consumerTag, last.handler)]
  }

  /** What one matching binding contributes to a publish. */
  function Fanout(queues: map<string, Queue>, b: Binding): seq<Delivery> {
    Addressed(b.queueName, SubscribersOf(queues, b.queueName))
  }

  /** The concatenation, over `bs` in order, of each binding's fan-out. */
  function Deliveries(queues: map<string, Queue>, bs: seq<Binding>): seq<Delivery> {
    if bs == [] then []
    else Deliveries(queues, bs[..|bs| - 1]) + Fanout(queues, bs[|bs| - 1])
  }

  /** Every handler call a publish with `routingKey` makes over `bindings`. */
  function Routed(queues: map<string, Queue>, bindings: seq<Binding>, routingKey: string): seq<Delivery> {
    Deliveries(queues, MatchingBindings(bindings, routingKey))
  }

  /** The deliveries for a subscriber list are the subscribers, one by one, in order. */
  lemma {:induction false} AddressedAt(name: string, subs: seq<Subscriber>)
    ensures |Addressed(name, subs)| == |subs|
    ensures forall i :: 0 <= i < |subs| ==>
              Addressed(name, subs)[i] == Delivery(name, subs[i].consumerTag, subs[i].handler)
  {
    if subs != [] {
      AddressedAt(name, subs[..|subs| - 1]);
    }
  }

  /** Extending a subscriber prefix by one appends that subscriber's call. */
  lemma AddressedSnoc(name: string, subs: seq<Subscriber>, j: nat)
    requires j < |subs|
    ensures Addressed(name, subs[..j + 1]) == Addressed(name, subs[..j]) + [Delivery(name, subs[j].consumerTag, subs[j].handler)]
  {
    assert subs[..j + 1][..j] == subs[..j];
  }

  /** Extending a binding prefix by one appends that binding's fan-out. */
  lemma DeliveriesSnoc(queues: map<string, Queue>, bs: seq<Binding>, i: nat)
    requires i < |bs|
    ensures Deliveries(queues, bs[..i + 1]) == Deliveries(queues, bs[..i]) + Fanout(queues, bs[i])
  {
    assert bs[..i + 1][..i] == bs[..i];
  }

  /** Filtering distributes over concatenation: order is kept. */
  lemma {:induction false} MatchingAppend(a: seq<Binding>, b: seq<Binding>, routingKey: string)
    ensures MatchingBindings(a + b, routingKey) == MatchingBindings(a, routingKey) + MatchingBindings(b, routingKey)
  {
    if a == [] {
      assert a + b == b;
    } else {
      assert (a + b)[0] == a[0] && (a + b)[1..] == a[1..] + b;
      MatchingAppend(a[1..], b, routingKey);
    }
  }

  /** Fan-out distributes over concatenation of binding lists. */
  lemma {:induction false} DeliveriesAppend(queues: map<string, Queue>, a: seq<Binding>, b: seq<Binding>)
    ensures Deliveries(queues, a + b) == Deliveries(queues, a) + Deliveries(queues, b)
  {
    if b == [] {
      assert a + b == a;
    } else {
      var b' := b[..|b| - 1];
      assert (a + b)[..|a + b| - 1] == a + b' && (a + b)[|a + b| - 1] == b[|b| - 1];
      DeliveriesAppend(queues, a, b');
    }
  }

  /**
   * A publish after `bindQueue` appended `b` makes the calls it made before,
   * followed by `b`'s fan-out when `b` matches.
   */
  lemma RoutedAfterBind(queues: map<string, Queue>, bindings: seq<Binding>, b: Binding, routingKey: string)
    ensures Routed(queues, bindings + [b], routingKey)
         == Routed(queues, bindings, routingKey) + (if Matches(b.pattern, routingKey) then Fanout(queues, b) else [])
  {
    MatchingAppend(bindings, [b], routingKey);
    assert [b][1..] == [];
    DeliveriesAppend(queues, MatchingBindings(bindings, routingKey), MatchingBindings([b], routingKey));
    if Matches(b.pattern, routingKey) {
      assert Deliveries(queues, [b]) == Deliveries(queues, []) + Fanout(queues, b);
    }
  }

  /** A queue bound twice under matching keys is delivered twice: no de-duplication. */
  lemma BoundTwiceDeliveredTwice(queues: map<string, Queue>, bindings: seq<Binding>, b: Binding, routingKey: string)
    requires Matches(b.pattern, routingKey)
    ensures Routed(queues, bindings + [b] + [b], routingKey)
         == Routed(queues, bindings, routingKey) + Fanout(queues, b) + Fanout(queues, b)
  {
    RoutedAfterBind(queues, bindings, b, routingKey);
    RoutedAfterBind(queues, bindings + [b], b, routingKey);
  }

  lemma {:induction false} InAddressed(name: string, subs: seq<Subscriber>, d: Delivery)
    ensures d in Addressed(name, subs) <==> d.queueName == name && Subscriber(d.handler, d.consumerTag) in subs
  {
    AddressedAt(name, subs);
    var ds := Addressed(name, subs);
    if d in ds {
      var i :| 0 <= i < |ds| && ds[i] == d;
      assert subs[i] == Subscriber(d.handler, d.consumerTag);
    }
    if d.queueName == name && Subscriber(d.handler, d.consumerTag) in subs {
      var i :| 0 <= i < |subs| && subs[i] == Subscriber(d.handler, d.consumerTag);
      assert ds[i] == d;
    }
  }

  lemma {:induction false} InDeliveries(queues: map<string, Queue>, bs: seq<Binding>, d: Delivery)
    ensures d in Deliveries(queues, bs) <==> exists b :: b in bs && d in Fanout(queues, b)
  {
    if bs != [] {
      var init, last := bs[..|bs| - 1], bs[|bs| - 1];
      assert bs == init + [last];
      InDeliveries(queues, init, d);
      if d in Deliveries(queues, bs) && d !in Fanout(queues, last) {
        var b :| b in init && d in Fanout(queues, b);
        assert b in bs;
      }
    }
  }

  /**
   * A handler call happens exactly when some binding in the list matches the
   * routing key, names an existing queue, and that queue has the subscriber.
   */
  lemma RoutedReaches(queues: map<string, Queue>, bindings: seq<Binding>, routingKey: string, d: Delivery)
    ensures d in Routed(queues, bindings, routingKey) <==>
              && d.queueName in queues
              && Subscriber(d.handler, d.consumerTag) in queues[d.queueName].subscribers
              && exists b :: b in bindings && b.queueName == d.queueName && Matches(b.pattern, routingKey)
  {
    var ms := MatchingBindings(bindings, routingKey);
    InDeliveries(queues, ms, d);
    forall b | b in ms
      ensures d in Fanout(queues, b) <==>
                && b.queueName == d.queueName && b.queueName in queues
                && Subscriber(d.handler, d.consumerTag) in queues[b.queueName].subscribers
    {
      InAddressed(b.queueName, SubscribersOf(queues, b.queueName), d);
    }
  }

  /** A publish reaches no subscriber through a queue name that is not in `queues`, bound or not. */
  lemma MissingQueueReceivesNothing(queues: map<string, Queue>, bindings: seq<Binding>, routingKey: string, name: string)
    requires name !in queues
    ensures forall d :: d in Routed(queues, bindings, routingKey) ==> d.queueName != name
  {
    forall d | d in Routed(queues, bindings, routingKey) {
      RoutedReaches(queues, bindings, routingKey, d);
    }
  }

  /** The queue map after `subscribers.push(s)` on the entry `name` (index.js:86). */
  function PushSubscriber(queues: map<string, Queue>, name: string, s: Subscriber): map<string, Queue>
    requires name in queues
  {
    queues[name := queues[name].(subscribers := queues[name].subscribers + [s])]
  }

  /**
   * After `consume` pushes `s` onto an existing queue `name`, the fan-out of a
   * binding to `name` gains exactly one delivery, to `s`, at its end; other
   * bindings' fan-outs are unchanged.
   */
  lemma FanoutAfterConsume(queues: map<string, Queue>, name: string, s: Subscriber, b: Binding)
    requires name in queues
    ensures Fanout(PushSubscriber(queues, name, s), b)
         == Fanout(queues, b) + (if b.queueName == name then [Delivery(name, s.consumerTag, s.handler)] else [])
  {
  }
}
