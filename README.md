# amqplib-mock topology and routing, in Dafny

This project models `index.js` of amqplib-mock. The file is an in-memory stand-in for an AMQP topic broker. Its state is two module-level dictionaries: `exchanges`, mapping a name to `{bindings, options, type}`, and `queues`, mapping a name to `{messages, subscribers, options}`. The `channel` object's methods change these dictionaries in place.

- `TopicPattern` (`topic_pattern.dfy`) is the key translation of `bindQueue`. It has two forms. One is the literal string that three first-occurrence `replace` calls build. The other is a token sequence (`Lit`, `LitDot`, `AnyChar`, `WordPlus`, `WordOrDotPlus`) with a recursive matcher for the anchored expression. A lemma proves that rendering the tokens gives exactly that string.
- `Topology` (`topology.dfy`) holds the stored entities and the source's helpers (`setIfUndef`, `Array.prototype.find`, and JavaScript's `>` on what `find` returns). It also specifies routing: the binding filter and the order in which handlers are called. Its lemmas relate routing to binding, consuming and deleting.
- `Channel` (`channel.dfy`) holds the `Broker` class. Its fields are `exchanges`, `queues` and `pendingDeletes`. Each promise-returning channel method settles with a `Result` instead of a promise. `deleteQueue` returns nothing, and so does `DeleteQueue`. `Flush` is the event-loop turn in which the `setImmediate` callbacks of `deleteQueue` run.
- `Scenarios` (`scenarios.dfy`) holds client runs on a fresh broker. Each is proved from the method contracts alone.

`Outcomes` (`outcomes.dfy`) holds `Option` (which also stands for `undefined`) and `Result`.

Some behaviour follows the code even though a description of the code could suggest otherwise:
- Only the first `.` of a key is escaped. So `a.b.c` also matches `a.bXc`. It does not match only the literal `a.b.c`.
- `unbindQueue` never removes a binding: `find` returns an element or `undefined`, and neither is ever `> -1`. `cancel` removes nothing either: it throws before its `find` is reached (next point), or, with no queue, its loop body never runs.
- `cancel` assigns the undeclared `q` under `"use strict"`. So it rejects with a ReferenceError as soon as any queue exists.
- `publish` calls the handlers inline, before it resolves.

## Model

| member | source | states |
|---|---|---|
| `TopicPattern.ReplaceFirst` | index.js:43 | `String.prototype.replace` with a one-character string pattern; `ReplaceFirstAt` and `ReplaceFirstAbsent` state what it does. |
| `TopicPattern.RegexSource` | index.js:43 | The regular-expression source line 43 builds from a key; `CompileIsRegexSource` relates it to the compiled tokens. |
| `TopicPattern.Compile` | index.js:44 | `new RegExp(re)` as a token sequence; `CompileIsRegexSource` proves it renders back to line 43's string. |
| `TopicPattern.Matches` | index.js:70 | `regex.test(routingKey)` for the anchored pattern; `RepeatedMatches`, `FixedMatches` and `TrailingRepeatMatches` state what it accepts. |
| `TopicPattern.CompileIsRegexSource` | index.js:43 | For every key, the regex source built at line 43 is `^`, then the rendering of the compiled tokens, then `$`. |
| `TopicPattern.ReplaceFirstAt` | index.js:43 | `replace` with a one-character string pattern substitutes at the first occurrence, and only there. |
| `TopicPattern.ReplaceFirstAbsent` | index.js:43 | `replace` leaves a string that lacks the character unchanged. |
| `TopicPattern.RepeatedMatches` | index.js:43 | `\w+` or `(\w|\.)+` alone matches exactly the non-empty strings of word characters (or of word characters and dots). So `*` never matches across a dot. |
| `TopicPattern.FixedMatches` | index.js:43-44 | A pattern without wildcards matches exactly the strings of its length that agree position by position. The escaped first dot needs a `.` there; a later dot takes any character but a line terminator. |
| `TopicPattern.TrailingRepeatMatches` | index.js:43-44 | One-character tokens followed by one trailing `+` token match exactly a position-by-position prefix plus a non-empty tail from the token's class. |
| `TopicPattern.PlainKeyCompilesToItself` | index.js:43 | A key with no `.`, `#` or `*` compiles to one literal token per character. |
| `TopicPattern.PlainKeyMatchesOnlyItself` | index.js:43-44 | A supported key (no regular-expression metacharacters) with no `.`, `#` or `*` matches exactly itself. |
| `TopicPattern.StarMatchesOneWord` | index.js:43-44 | `a.b.*` compiles to `a`, `\.`, `b`, `.`, `\w+`. It matches `a.b.c` and does not match `a.b.c.d`. |
| `TopicPattern.HashMatchesSegments` | index.js:43-44 | `a.#` matches `a.b` and `a.b.c.d`, and does not match `a.` (the `+` needs at least one character). |
| `TopicPattern.SecondDotMatchesAnyChar` | index.js:43-44 | `a.b.c` matches itself and `a.bXc`, because only the first dot is escaped. It does not match `aXb.c`. |
| `Topology.SetIfUndef` | index.js:149-153 | The key is always present afterwards. An existing entry is kept. A missing one gets the new value. Every other entry is unchanged. |
| `Topology.Find` | index.js:53-55 | The result is undefined exactly when no element satisfies the predicate. Otherwise it is the first element that does. |
| `Topology.FoundIsNeverAboveMinusOne` | index.js:53-56 | Whatever `find` returns (an element or undefined) converts to NaN, so `idx > -1` is false. |
| `Topology.SpliceOne` | index.js:57 | `splice(idx, 1)`; never reached, because `FoundIsNeverAboveMinusOne` shows the guard before it is always false. |
| `Topology.MatchingBindings` | index.js:70 | The filter keeps exactly the bindings whose compiled pattern matches the routing key. |
| `Topology.MatchingAppend` | index.js:70 | Filtering a concatenation gives the concatenation of the filtered parts, so list order is kept. |
| `Topology.SubscribersOf` | index.js:73 | The subscriber list of a queue, or `[]` when it is absent; `MissingQueueReceivesNothing` states the consequence. |
| `Topology.Routed` | index.js:69-78 | The calls a publish makes: the filter, then each matching binding's subscribers; `RoutedReaches` characterises it. |
| `Topology.AddressedAt` | index.js:72-77 | A queue's subscribers get one handler call each, in registration order. |
| `Topology.DeliveriesAppend` | index.js:72-78 | The calls for a concatenation of bindings are the calls for the first part, then those for the second. |
| `Topology.RoutedAfterBind` | index.js:44 | After a binding is pushed, a publish makes the same calls as before. If the new binding matches, its fan-out follows at the end. |
| `Topology.BoundTwiceDeliveredTwice` | index.js:69-78 | A queue bound twice under matching keys has its subscribers called twice. There is no de-duplication. |
| `Topology.InAddressed` | index.js:72-77 | A binding's call list holds a call exactly when the subscriber is in that queue's list. |
| `Topology.InDeliveries` | index.js:72-78 | A call is made exactly when some binding in the list makes it. |
| `Topology.RoutedReaches` | index.js:64-82 | A publish calls a subscriber exactly when three things hold: the queue exists, the subscriber is in its list, and some binding to that queue matches the routing key. |
| `Topology.MissingQueueReceivesNothing` | index.js:73 | A queue name absent from `queues` receives no call, even if it is bound. |
| `Topology.FanoutAfterConsume` | index.js:86 | After a subscriber is pushed onto a queue, each binding to that queue gains exactly one call, to the new subscriber, at the end. Other bindings are unchanged. |
| `Channel.Broker.constructor` | index.js:3-4 | On load, both dictionaries are empty and nothing is scheduled. |
| `Channel.Broker.AssertQueue` | index.js:6-11 | Create-or-get: resolves with the name. Re-asserting keeps the stored queue and its options. A new queue has no subscribers and the given options. Nothing else changes. |
| `Channel.Broker.CheckQueue` | index.js:13-19 | Resolves exactly when the queue exists. Otherwise it rejects with "Checking non-existing queue". |
| `Channel.Broker.AssertExchange` | index.js:21-28 | Create-or-get: resolves with the name. Re-asserting keeps the first entry. A new exchange has no bindings, the given type, and the given options or `{}` when none are given. Nothing else changes. |
| `Channel.Broker.CheckExchange` | index.js:30-36 | Resolves exactly when the exchange exists. Otherwise it rejects with "Checking non-existing exchange". |
| `Channel.Broker.BindQueue` | index.js:38-48 | Rejects, changing nothing, when the exchange is absent. Otherwise it appends exactly one binding `{compiled key, queue, key}` to that exchange. The queue need not exist. Nothing else changes. |
| `Channel.Broker.UnbindQueue` | index.js:50-62 | Always resolves, and no binding list ever changes. |
| `Channel.Broker.Publish` | index.js:64-82 | Rejects when the exchange is absent. Otherwise it returns the handler calls, one per matching binding and subscriber, in list order. These are the calls `Routed` specifies. No state changes. |
| `Channel.Broker.SelectedByOwnKey` | index.js:70 | In every reachable state each stored pattern is its own key compiled. So the publish filter keeps exactly the bindings whose compiled key matches. A binding whose key has no `.`, `#` or `*` is selected exactly when the routing key equals it. |
| `Channel.Broker.Consume` | index.js:84-88 | On an existing queue it pushes `{handler, consumerTag}` at the end of the subscribers and returns the tag. On a missing queue it fails before registering anything. Nothing else changes. |
| `Channel.Broker.Cancel` | index.js:90-102 | Resolves exactly when no queue exists. Otherwise it fails with a ReferenceError on `q`. No subscriber is ever removed. |
| `Channel.Broker.DeleteQueue` | index.js:104-108 | Only schedules the deletion. `queues` and `exchanges` are unchanged. |
| `Channel.Broker.Flush` | index.js:105-107 | Runs the scheduled `delete queues[name]` callbacks in order. Every scheduled name is then absent. Exchanges are untouched. |
| `Channel.Broker.ResetMock` | index.js:142-145 | Both dictionaries become empty. Deletions already scheduled stay scheduled. |
| `Scenarios.DeletionIsDeferred` | index.js:104-108 | A publish after `deleteQueue` in the same turn still reaches the subscriber. After the turn, `checkQueue` rejects and the publish reaches no one. |
| `Scenarios.FanOut` | index.js:69-78 | With `x.*` bound to q1 and `x.#` bound to q2, routing key `x.y` reaches q1's subscriber and then q2's. |
| `Scenarios.DoubleBinding` | index.js:44 | Binding one queue twice under `a.#` delivers a publish of `a.b` twice to its subscriber. |
| `Scenarios.UnbindAndCancelRemoveNothing` | index.js:50-102 | Unbind resolves and cancel rejects. The subscriber still receives the next publish. |
| `Scenarios.AssertThenCheck` | index.js:21-36 | `checkExchange` rejects before an assert and resolves after it. A second assert keeps the first options and type. After `resetMock` it rejects again. |

## Left out

- Channel.Broker.BindQueue: requires a key with at most one `*` and none of `\ ^ $ + ? ( ) [ ] { } |`. A second `*` turns into a quantifier. The other characters are regular-expression syntax. Either way the compiled key would mean something else, or `new RegExp` would throw. The JavaScript regular-expression engine is not modelled beyond the tokens line 43 produces.
- `connect`, `createChannel`, `createConfirmChannel` and both `close` functions (index.js:116-140): shims that only resolve.
- `ack`, `nack`, `prefetch`, `on`, `once` and `setMaxListeners` (index.js:110-115): no-ops.
- Promises (Bluebird): each outcome is a `Result` value. The model does not distinguish a rejection from `consume`'s synchronous throw; both are `Err`.
- `setImmediate` scheduling: modelled as the pending-delete list plus `Flush`. The event loop itself is not modelled.
- Consumer tags from `Math.random().toString(36)` (index.js:85): the tag is a parameter of `Consume`.
- Handlers are opaque ids recorded in the returned call list. Their side effects are not modelled. Neither is a handler exception that would abort the loop at index.js:76.
- Message `content` and `props`, and the `{fields: {routingKey}}` wrapper: passed through, never interpreted, so `Publish` does not take them.
- The `messages` field of a queue and the `args` of bind and unbind: never read.
- Channel.Broker.AssertExchange: exchange options are stored as given or as `{}`. JavaScript's other falsy option values are not distinguished from a missing one.
- JavaScript prototype keys such as `constructor`: these make `!queues[name]` false (index.js:15, index.js:150). The dictionaries are plain Dafny maps, so such names behave like any other.
- JavaScript strings are UTF-16 code units. Here a string is a sequence of Dafny characters.
