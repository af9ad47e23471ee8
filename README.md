# Waku provider of the courier, in Dafny

This project models the connection and subscription layer of the courier's Waku provider: the
`WakuClient` class (`src/providers/waku/index.ts`) and the hex formatting of `randomHexString`
(`src/lib/utils.ts`).

It covers:

- **Topic resolution.** `buildFullTopics` and `defaultIntentsTopics` turn a user topic spec into
  content topics. They substitute names into the configured template with JavaScript's
  first-occurrence `String.prototype.replace`.
- **The subscription registry.** `subscriptionMap` is updated by `subscribe`,
  `checkAndSaveSubscription` and `unsubscribe`. This includes the re-entry into `subscribe` when a
  ping reports that the peer has no subscriptions, and the rejection of `subscribe` when a
  `filter.subscribe` call rejects, which keeps the entries stored before it.
- **Node start-up.** `createNode` dials each peer with up to 5 attempts, `waitForPeers` makes its attempts,
  and the health listener is registered.
- **The initialisation guard.** `init` uses `isInitializing` and `initPromise`, and `getInstance`
  manages the single instance.
- **Reconnection.** The health listener reconnects with exponential backoff.
- **Sending and stopping.** `send` fans out over the resolved topics, and `stop` stops the node.
- **Hex formatting.** Each random byte becomes two lowercase hex digits.

Modules:

- `Wrappers` (`wrappers.dfy`) defines `Option` and `Result`.
- `JsString` (`js_string.dfy`) holds the JavaScript string operations the source relies on:
  - `split` with a one-character separator, where `"".split(",")` is `[""]`;
  - `trim`, using ECMAScript white space and line terminators;
  - `includes`, `startsWith` and `indexOf`;
  - `replace` with a string pattern, which replaces the first occurrence only and expands
    the `$$`, `$&`, ``$` `` and `$'` patterns in the replacement.
- `Utils` (`utils.dfy`) models `b.toString(16).padStart(2, '0')` over a byte sequence. Its partner
  is a parser that reads the digits back.
- `Topics` (`topics.dfy`) holds the `WakuConfig` record with its defaults, and the five ordered
  rules of `buildFullTopics`.
- `Retry` (`retry.dfy`) holds the reference definitions of the bounded loops. They are written over
  answer oracles: `nat -> answer` gives, for each attempt index, what the transport answers.
  - `FirstWithin` is the first index at which a condition holds.
  - It also defines the dial loop, the peer wait, the liveness ping and the backoff schedule.
- `Registry` (`registry.dfy`) holds the reference definitions of `subscribe`,
  `checkAndSaveSubscription` and `unsubscribe` as functions on `map<string, Entry>`, with the
  lemmas about them.
  - The transport's answers for one `subscribe` call are a finite tree, `SubscribeEnv`. It holds
    one reply per resolved topic, and each successful reply carries its ping answers and the
    answers of the resubscribe it may trigger. So the `subscribe` → `checkAndSaveSubscription` →
    `subscribe` recursion is well founded.
- `Waku` (`waku_client.dfy`) holds the class `WakuClient`.
  - Its fields are `node`, `subscriptionMap`, `isInitializing`, `initPromise` and two call
    counters.
  - Its methods update those fields in place. The loops of the source are `while` and `for` loops
    here. Each method either is proved equal to a reference definition above or states its new
    state directly.
  - The class `InstanceSlot` holds the static `instance` and `getInstance`.

## Behaviour of the code worth knowing

The model keeps each of these behaviours of the code as it is written.

- **The default-bootstrap branch is dead.** `createNode` tests `peers.length > 0`
  (`src/providers/waku/index.ts:197`). But `split(",")` always returns at least one piece, and
  `"".split(",")` is `[""]`.
  - The `else` branch at `src/providers/waku/index.ts:217-218` is never taken.
  - An empty `staticPeers` dials the peer `""` up to five times: once per attempt until one
    connects.

  See `Waku.StaticPeersNeverEmpty` and the unreachable branch in `Waku.WakuClient.CreateNode`.
- **`waitForPeers` gives up only when the last attempt rejects.** The comment at
  `src/providers/waku/index.ts:225` speaks of repeating up to `pingCount` times. The error at line
  237 reads "Could not find remote peer after max attempts". Yet the `throw` sits in the `catch`
  block under `i === pingCount - 1`. Attempts that resolve while the node stays unconnected fall
  through, and after `pingCount` of them the loop ends normally. See
  `Retry.PeerWaitUnconnectedReturns`.
- **Every `init` starts a fresh node.** `init` checks only `isInitializing`
  (`src/providers/waku/index.ts:70`). The reconnect loop calls it at line 264. Every call that does
  not join a pending one runs `startNode` again and creates a new node. See `Waku.WakuClient.Init`
  and `Waku.WakuClient.ReconnectAttempt`.
- **`stop` keeps the node.** `stop` (`src/providers/waku/index.ts:165-170`) only calls
  `node.stop()`. The node stays in place.
- **`send` pushes to the raw argument.** The encoder at `src/providers/waku/index.ts:137` is built
  for `topic`, not for `subscribedTopic`.
- **A resubscribe resolves its topic a second time.** On "peer has no subscriptions",
  `checkAndSaveSubscription` calls `this.subscribe(topic, fn)` with the topic that was already
  resolved (`src/providers/waku/index.ts:294`). `subscribe` passes it to `buildFullTopics` again,
  and the default expiration of 20 s applies.
  - A resolved topic that starts with "/" and contains neither "random" nor "," resolves to itself
    (`Topics.FullTopicRule`). Under the default template `/waku/2/PLACEHOLDER/proto` every resolved
    topic starts with "/", so only a name containing "random" is affected there.
  - Otherwise the new entry lands under a different key. Under the template `x-PLACEHOLDER`, the
    resolved topic `x-default` is a partial topic and becomes `x-x-default`. A resolved topic
    containing "random" gets a new random segment, and one containing "," is split.

## Model

| member | source | states |
|---|---|---|
| JsString.Split | src/providers/waku/index.ts:173 | `split(",")` yields at least one piece, and no piece contains the separator |
| JsString.JoinSplit | src/providers/waku/index.ts:173 | joining the pieces of a split with the separator gives the original string back, so splitting loses nothing |
| JsString.SplitCount | src/providers/waku/index.ts:195 | a split has exactly one more piece than the string has separators |
| JsString.SplitPiecesFromSource | src/providers/waku/index.ts:185 | a unit absent from the string is absent from every piece |
| JsString.SplitWithoutSeparator | src/providers/waku/index.ts:173 | a string without the separator splits into itself alone |
| JsString.Trim | src/providers/waku/index.ts:175 | reference definition of `String.prototype.trim`: white space and line terminators dropped at both ends (see TrimStart, TrimEnd, TrimIsInnerPiece) |
| JsString.TrimStart | src/providers/waku/index.ts:175 | the result is a suffix that starts with a non-white-space unit, and everything dropped is white space |
| JsString.TrimEnd | src/providers/waku/index.ts:175 | the result is a prefix that ends with a non-white-space unit, and everything dropped is white space |
| JsString.TrimIsInnerPiece | src/providers/waku/index.ts:185 | `trim` returns a contiguous piece of its input, with white space removed at both borders only |
| JsString.TrimFromSource | src/providers/waku/index.ts:185 | `trim` introduces no unit absent from its input |
| JsString.TrimKeepsInner | src/providers/waku/index.ts:175 | a string with no white space at either end is left unchanged by `trim` |
| JsString.Includes | src/providers/waku/index.ts:181 | reference definition of `includes`: the pattern occurs at some index (see IncludesMeansOccurs) |
| JsString.StartsWith | src/providers/waku/index.ts:186 | reference definition of `startsWith`: the string begins with the prefix |
| JsString.IndexOfFrom | src/providers/waku/index.ts:181 | `indexOf` finds an occurrence at or after the start position, and no earlier one |
| JsString.IncludesMeansOccurs | src/providers/waku/index.ts:181 | `includes` holds exactly when the pattern occurs somewhere |
| JsString.IncludesUnit | src/providers/waku/index.ts:184 | `includes(",")` is membership of the comma, in both directions |
| JsString.Substitution | src/providers/waku/index.ts:175 | reference definition of the replacement expansion of `replace` with a string pattern (`$$`, `$&`, ``$` ``, `$'`) |
| JsString.SubstitutionVerbatim | src/providers/waku/index.ts:175 | a replacement without `$` is inserted verbatim |
| JsString.ReplaceFirst | src/providers/waku/index.ts:175 | a template without the pattern is returned unchanged |
| JsString.ReplaceFirstSplices | src/providers/waku/index.ts:175 | with a `$`-free replacement, only the first occurrence is replaced, and the text after it (including later occurrences) is kept |
| Utils.HexDigitIsLower | src/lib/utils.ts:6 | `toString(16)` of a value below 16 is one lowercase hex digit |
| Utils.ToHexString | src/lib/utils.ts:6 | `toString(16)` is never empty |
| Utils.PadStart | src/lib/utils.ts:6 | `padStart` reaches the requested width, keeps the string at the end, and fills only in front |
| Utils.ByteNumeral | src/lib/utils.ts:6 | `toString(16)` of a byte is one digit below 16 and two digits (high nibble, low nibble) from 16 on |
| Utils.PadToTwo | src/lib/utils.ts:6 | `padStart(2, '0')` puts one '0' in front of a single character and leaves two characters alone |
| Utils.FormatByte | src/lib/utils.ts:6 | reference definition of one formatted byte: the digit of the high nibble, then the digit of the low nibble (see FormatByteIsPadStart) |
| Utils.FormatByteIsPadStart | src/lib/utils.ts:6 | `b.toString(16).padStart(2, '0')` is the high nibble's digit followed by the low nibble's |
| Utils.FormattedAt | src/lib/utils.ts:6-12 | the formatted byte `i` occupies characters `2i` and `2i+1` of the joined output |
| Utils.HexOfBytes | src/lib/utils.ts:6 | the output has exactly twice as many characters as there are bytes |
| Utils.HexAt | src/lib/utils.ts:6 | byte `i` occupies characters `2i` (high nibble) and `2i+1` (low nibble) |
| Utils.SmallByteLeadingZero | src/lib/utils.ts:6 | a byte below 16 gets a leading '0' |
| Utils.RandomHexString | src/lib/utils.ts:1-14 | given the `byteLength` bytes the random source draws, the result has `2 * byteLength` characters, all in `0-9a-f`, and reads back in pairs as exactly those bytes |
| Utils.FormatByteDigits | src/lib/utils.ts:6 | a formatted byte is two characters, both in `0-9a-f` |
| Utils.HexIsLowercaseDigits | src/lib/utils.ts:12 | every output character is in `0-9a-f` |
| Utils.HexSegmentSizes | src/lib/utils.ts:1-12 | zero bytes give the empty string, and 16 bytes give 32 digits |
| Utils.ParseHexDigit | src/lib/utils.ts:6 | reading a digit back gives the value it is written for, and rejects anything that is not a lowercase digit |
| Utils.ParseHexDigitInverse | src/lib/utils.ts:6 | reading back the digit written for a nibble gives that nibble |
| Utils.ParseHexRoundTrip | src/lib/utils.ts:12 | reading the output back in pairs recovers the bytes |
| Utils.HexInjective | src/lib/utils.ts:12 | different byte sequences never give the same string |
| Topics.Fill | src/providers/waku/index.ts:175 | reference definition of `contentTopic.replace("PLACEHOLDER", name)` |
| Topics.DefaultIntentsTopics | src/providers/waku/index.ts:172-176 | reference definition of `defaultIntentsTopics`: the template filled with each trimmed comma-separated name of `topics`, in order (see DefaultFanOut) |
| Topics.BuildFullTopics | src/providers/waku/index.ts:178-192 | topic resolution never yields an empty list |
| Topics.DefaultFanOut | src/providers/waku/index.ts:172-180 | an empty or absent spec gives one topic per comma-separated configured name, in order and trimmed; each is the template with its first placeholder replaced |
| Topics.RandomRuleWins | src/providers/waku/index.ts:181-183 | a spec containing "random" gives exactly one topic, whatever the template and even when the spec also has a comma; the template's first placeholder becomes lowercase hex (32 digits for 16 bytes), and a template without the placeholder is returned as it is |
| Topics.CommaRule | src/providers/waku/index.ts:184-185 | a spec with a comma gives one substituted topic per trimmed piece, in order, and at least two |
| Topics.PartialTopicRule | src/providers/waku/index.ts:186-188 | a single name without a leading '/' is substituted untrimmed |
| Topics.FullTopicRule | src/providers/waku/index.ts:191 | a single spec with a leading '/' is returned unchanged as a singleton |
| Topics.ResolutionDeterministic | src/providers/waku/index.ts:178-192 | without "random" in the spec, resolution does not depend on the drawn bytes |
| Topics.OnlyFirstPlaceholderReplaced | src/providers/waku/index.ts:175 | a template that repeats "PLACEHOLDER" keeps the second occurrence |
| Topics.DefaultTemplatePlaceholder | src/lib/config.ts:30 | the default template holds its placeholder at position 8 |
| Topics.DefaultTemplateFilled | src/lib/config.ts:29-30 | the default template filled with the default name is `/waku/2/default/proto` |
| Topics.DefaultNames | src/lib/config.ts:29 | the default `topics` setting splits into the one name "default" |
| Topics.DefaultIntentsOfDefaultConfig | src/providers/waku/index.ts:172-176 | `defaultIntentsTopics()` under the defaults is `["/waku/2/default/proto"]` |
| Topics.DefaultConfigResolves | src/providers/waku/index.ts:172-176 | with the configuration defaults, an absent spec resolves to `["/waku/2/default/proto"]` |
| Retry.FirstWithin | src/providers/waku/index.ts:205-209 | the first index below the bound at which the condition holds; nothing before it satisfies the condition |
| Retry.FirstWithinAt | src/providers/waku/index.ts:205-209 | an index where the condition holds, with no earlier one, is the first |
| Retry.FirstWithinNone | src/providers/waku/index.ts:205-215 | when the condition holds nowhere below the bound, there is no first index |
| Retry.DialPauses | src/providers/waku/index.ts:213 | `n` failed dials give `n` pauses of 500 ms each |
| Retry.DialWithRetry | src/providers/waku/index.ts:205-215 | a peer is dialled 1 to 5 times; it stops at the first success, and after 5 failures it gives up without an error; every failed attempt, the last included, is followed by a 500 ms pause |
| Retry.PeerWaitOutcome | src/providers/waku/index.ts:224-243 | reference definition of `waitForPeers`: the attempts up to the first that finds the node connected, and a rejection only when the last attempt rejects |
| Retry.PeerWaitBounds | src/providers/waku/index.ts:226-242 | at most `pingCount` attempts; a timeout only after all of them, when the last rejects; no attempt and no error when `pingCount <= 0` |
| Retry.PeerWaitUnconnectedReturns | src/providers/waku/index.ts:228-232 | attempts that resolve unconnected end with a normal return after `pingCount` attempts |
| Retry.PeerWaitThreeRejections | src/providers/waku/index.ts:233-238 | three rejecting attempts out of three fail the wait after three attempts |
| Retry.PingOutcome | src/providers/waku/index.ts:287-300 | reference definition of the ping loop: up to the first conclusive ping, a "no subscriptions" answer asks for a resubscribe, and all failures give up |
| Retry.PingLoopProperties | src/providers/waku/index.ts:287-300 | at most `pingCount` pings; resubscribe exactly when a "no subscriptions" answer comes before any successful ping; all failures give up after `pingCount` pings |
| Retry.BackoffDelay | src/providers/waku/index.ts:259 | reference definition of the delay `min(90000, 1000 * 2^retryCount)` |
| Retry.Pow2Monotone | src/providers/waku/index.ts:259 | the power of two grows with the exponent |
| Retry.BackoffSchedule | src/providers/waku/index.ts:259 | the delay before retry `n` doubles from 1 s, is capped at 90 s from `n = 7` on, and never decreases |
| Retry.TotalBackoffOfAllAttempts | src/providers/waku/index.ts:253-263 | ten failed reconnects wait 397 s in total |
| Registry.SubscribeSpec | src/providers/waku/index.ts:96-117 | reference definition of `subscribe`: reject when not configured, otherwise the topic loop over the resolved topics |
| Registry.SubscribeTopics | src/providers/waku/index.ts:105-116 | reference definition of the topic loop of `subscribe`: a rejecting transport subscribe rejects, a failed or empty result is skipped, a subscription goes through `checkAndSaveSubscription` |
| Registry.CheckAndSaveSpec | src/providers/waku/index.ts:285-309 | reference definition of `checkAndSaveSubscription`: re-enter `subscribe` with the default expiration on "no subscriptions", otherwise store the entry |
| Registry.UnsubscribeSpec | src/providers/waku/index.ts:147-163 | reference definition of `unsubscribe`: without a node nothing happens; otherwise the loop over the resolved topics |
| Registry.UnsubscribeTopics | src/providers/waku/index.ts:151-161 | reference definition of the unsubscribe loop: each topic with an entry is unsubscribed and deleted, a rejecting call rejects, absent topics are skipped |
| Registry.ReplyAt | src/providers/waku/index.ts:106-111 | without a node, no topic gets a subscription; with a node, topic `i` gets a subscription only from the transport's reply for that topic |
| Registry.SkippedTopicsKeepRegistry | src/providers/waku/index.ts:105-113 | from any index on, when every remaining topic's transport subscribe failed or gave nothing, the loop leaves the map unchanged and completes normally |
| Registry.SubscribeTopicsWithoutResubscribe | src/providers/waku/index.ts:105-116 | when no transport subscribe rejects and no ping reports "no subscriptions", the loop completes normally, and its map is the old one updated in order at exactly the topics that got a subscription; failed topics in between are skipped |
| Registry.StoreSubscribedFrame | src/providers/waku/index.ts:105-116 | after that loop, the keys are the old keys plus the topics that got a subscription, and every other key keeps its entry |
| Registry.StoreSubscribedLastWins | src/providers/waku/index.ts:105-116 | a topic that got a subscription, and that no later subscribed topic repeats, holds `{subscription, now + expirationSeconds*1000}` for its own subscription |
| Registry.SubscribeWithoutResubscribe | src/providers/waku/index.ts:96-117 | when no transport subscribe rejects and no ping reports "no subscriptions", `subscribe` completes normally and updates the map in order at exactly the resolved topics that got a subscription |
| Registry.SubscribeRejectionKeepsEarlier | src/providers/waku/index.ts:105-116 | a transport subscribe that rejects (the call is outside any `try`) makes the loop reject at that topic; the map keeps the entries stored for the earlier topics, and the later topics are not tried |
| Registry.SubscribeRejectsOnFirstTopic | src/providers/waku/index.ts:96-117 | a configured `subscribe` whose first transport subscribe rejects rejects too and leaves the map unchanged |
| Registry.FailedSubscriptionsKeepRegistry | src/providers/waku/index.ts:103-116 | when no resolved topic gets a subscription, `subscribe` completes normally and the map is unchanged |
| Registry.UnconfiguredSubscribeThrows | src/providers/waku/index.ts:97-100 | an empty spec with no content topic or no topic list throws, and the map is untouched |
| Registry.SubscribeKeepsKeys | src/providers/waku/index.ts:96-117 | `subscribe` never removes a key, through any chain of resubscribes |
| Registry.SubscribeTopicsKeepKeys | src/providers/waku/index.ts:105-116 | the topic loop of `subscribe` never removes a key |
| Registry.CheckAndSaveKeepsKeys | src/providers/waku/index.ts:285-309 | `checkAndSaveSubscription` never removes a key |
| Registry.CheckAndSaveStores | src/providers/waku/index.ts:287-308 | without a "no subscriptions" answer, the entry becomes `{subscription, now + expirationSeconds*1000}`, even when every ping failed; it replaces any earlier entry, and every other key keeps its entry |
| Registry.ResubscribeDropsCurrentSubscription | src/providers/waku/index.ts:292-295 | on "no subscriptions", the current subscription is not saved; when the resubscribe of the topic does not throw "not configured" and gets no subscription either, the map is unchanged |
| Registry.SubscribeSingleTopicStores | src/providers/waku/index.ts:103-116 | a spec that resolves to one topic, once subscribed and pinged, stores exactly that topic's entry |
| Registry.UnsubscribeTopicsAllOk | src/providers/waku/index.ts:151-161 | when every transport unsubscribe resolves, the loop removes exactly the listed topics and does not fail |
| Registry.UnsubscribeTopicsCallCount | src/providers/waku/index.ts:151-161 | when every transport unsubscribe resolves, the number of calls is the number of distinct listed topics that have an entry |
| Registry.UnsubscribeCallsFrom | src/providers/waku/index.ts:151-161 | when every call resolves, the calls made from index `j` on are the stored subscriptions of the topics not listed before `j`, in list order |
| Registry.UnsubscribeCallsExactly | src/providers/waku/index.ts:151-161 | when every call resolves, the loop calls the transport with exactly the stored subscriptions of the listed topics that have an entry, once per topic, in list order |
| Registry.UnsubscribeRemovesResolvedTopics | src/providers/waku/index.ts:147-163 | with a node, when every transport unsubscribe resolves, `unsubscribe` removes exactly the resolved topics that had entries, calls the transport with each one's stored subscription once, in resolution order, and keeps the other keys |
| Registry.UnsubscribeTopicsAbsent | src/providers/waku/index.ts:158-160 | topics without an entry are only warned about |
| Registry.UnsubscribeWithoutEntriesChangesNothing | src/providers/waku/index.ts:147-163 | without a node, or when no resolved topic has an entry, nothing changes and the transport is not called |
| Registry.SubscribeThenUnsubscribe | src/providers/waku/index.ts:96-163 | with a node, for a spec without "random" that resolves to one topic whose transport subscribe gives a subscription, when no ping asks for a resubscribe and every transport unsubscribe resolves: subscribing and then unsubscribing leaves the old map without that topic, and unsubscribes the stored subscription exactly once |
| Waku.PeerDial | src/providers/waku/index.ts:203-216 | reference definition of dialling one static peer with up to 5 attempts, with a 500 ms pause after each failed one |
| Waku.StartOutcome | src/providers/waku/index.ts:84-90 | reference definition of the outcome of `startNode`: creation, start and peer wait reject in that order |
| Waku.NodeAfterStart | src/providers/waku/index.ts:194-222 | reference definition of the node after `startNode`: a failed creation keeps the previous node, otherwise the new TCP node replaces it |
| Waku.SumOfSchedule | src/providers/waku/index.ts:257-263 | delays that follow the backoff formula add up to the total backoff |
| Waku.StaticPeersNeverEmpty | src/providers/waku/index.ts:195-197 | the peer list always has at least one element (one more than the commas), and an empty `staticPeers` gives the peer `""` |
| Waku.WakuClient.constructor | src/providers/waku/index.ts:38-54 | a new client holds the configuration, no node, an empty map and no initialisation |
| Waku.WakuClient.CreateNode | src/providers/waku/index.ts:194-222 | a failed creation changes nothing; otherwise a TCP node replaces the old one, and every peer is dialled in order as `DialWithRetry` prescribes, failing peers included; a failed `start` rejects; the default-bootstrap branch is unreachable |
| Waku.WakuClient.WaitForPeers | src/providers/waku/index.ts:224-243 | the attempts and the rejection are those of the peer-wait definition; with no node, every attempt counts as unconnected |
| Waku.WakuClient.RegisterHealthListener | src/providers/waku/index.ts:245-283 | the listener is attached to the current node, if there is one |
| Waku.WakuClient.StartNode | src/providers/waku/index.ts:84-90 | creation, start and peer wait reject in that order; the node after the call and the number of nodes created follow |
| Waku.WakuClient.BeginInit | src/providers/waku/index.ts:74-75 | the flag is raised, and the promise is that of the `startNode` call about to run |
| Waku.WakuClient.FinishInit | src/providers/waku/index.ts:79-81 | the flag drops and the promise stays |
| Waku.WakuClient.Init | src/providers/waku/index.ts:69-82 | while initialising, it returns the pending promise and changes nothing; otherwise it runs `startNode` exactly once and the flag is false afterwards, whether it resolved or rejected; no "already connected" check |
| Waku.WakuClient.OnHealthStatus | src/providers/waku/index.ts:246-277 | on `Unhealthy`, attempt `k` waits `min(90000, 1000*2^k)` and runs `init`; it stops at the first success and makes at most 10 attempts; ten failures wait 397 s in all; each attempt runs `startNode` once, `initPromise` is the last run's, and the node and node count are those the runs leave; after a reconnection the node is the last one created, started and listened to; other statuses change nothing |
| Waku.WakuClient.ReconnectAttempt | src/providers/waku/index.ts:259-271 | one pass of the loop appends the delay `min(90000, 1000*2^retryCount)` and runs `startNode` through `init`; it succeeds exactly when that run resolves, and then the node is the one it created, started and listened to |
| Waku.WakuClient.ReconnectWithBackoff | src/providers/waku/index.ts:253-272 | the loop makes 1 to 10 attempts with the backoff delays; no attempt before the last succeeded; it reports success exactly when the last attempt succeeded, and fails only after 10 attempts |
| Waku.ReconnectRun | src/providers/waku/index.ts:253-276 | the attempts that loop made are exactly those up to the first success within 10; when none succeeded the delays add up to 397 s |
| Waku.WakuClient.Subscribe | src/providers/waku/index.ts:96-117 | the new map and the rejection are those of the `subscribe` definition, including a rejecting transport subscribe and nested resubscribes; an unconfigured call rejects with the "not configured" error and a rejection of the first transport subscribe with the transport's |
| Waku.WakuClient.CheckAndSaveSubscription | src/providers/waku/index.ts:285-309 | the number of pings made is that of the ping definition, and the loop either saves the entry or re-enters `subscribe` with the default expiration, as the definition says |
| Waku.WakuClient.Unsubscribe | src/providers/waku/index.ts:147-163 | the new map, the transport calls in order, and the rejection are those of the `unsubscribe` definition |
| Waku.WakuClient.UnsubscribeEach | src/providers/waku/index.ts:151-161 | the loop over the resolved topics ends with the map, calls and failure of the reference loop |
| Waku.WakuClient.Send | src/providers/waku/index.ts:119-145 | with a node, one push per resolved topic, each for the raw `topic` argument, and push failures swallowed; without a node it rejects before any push |
| Waku.WakuClient.Stop | src/providers/waku/index.ts:165-170 | the current node is marked stopped and kept; with no node nothing happens |
| Waku.InstanceSlot.constructor | src/providers/waku/index.ts:38 | no instance at first |
| Waku.InstanceSlot.GetInstance | src/providers/waku/index.ts:56-67 | the first call creates, stores and initialises the instance, and keeps it even when `init` rejects; a call during initialisation awaits the pending promise; later calls return the instance unchanged |
| Waku.OverlappingInits | src/providers/waku/index.ts:69-82 | `init` calls that arrive while one is in progress all join its promise; exactly one `startNode` runs and at most one node is created |

## Left out

- Foreign calls are not modelled; they are parameters that give their outcomes per attempt. These
  are the `@waku/sdk` transport calls (`createLightNode`, `dial`, `start`, `waitForPeers`,
  `isConnected`, `filter.subscribe`, `ping`, `unsubscribe`, `lightPush.send`, `stop`) and the health
  events.
- The protobuf `ChatMessage` envelope, `JSON.stringify`/`JSON.parse`, the UTF-8 conversions and
  `handleSubscriptionMessage` with the user callback `fn` are not modelled. They are library
  encodings and user code.
- `sleep` is not modelled: delays are computed values (the backoff delays are returned by
  `OnHealthStatus`). The 5-second timeout of each peer wait belongs to the transport.
- `Date.now()` is the parameter `now`. Randomness is not modelled: the bytes `randomHexString`
  draws are a parameter.
- Logging, environment loading (`src/lib/config.ts`) and the courier's delegating singleton are not
  modelled. The configuration is the `Config` record, and `Topics.DefaultConfig` holds its
  defaults.
- Concurrency is modelled only sequentially:
  - Concurrent callers and the asynchronous health listener are modelled as a sequence of flag
    events (`BeginInit`, `FinishInit`, `OverlappingInits`).
  - The outcome that a joined or awaited promise later delivers is not modelled (`Joined`,
    `AwaitedPending`).
  - A `subscribe` and an `unsubscribe` running interleaved are not modelled.
- Waku.WakuClient.OnHealthStatus: requires that no `init` is in flight when the status arrives.
  Joining an in-flight `init` from the listener would need the interleaving left out above.
- Waku.WakuClient.Subscribe: uses one `now` for the whole call, nested resubscribes included. It
  assumes that `createDecoder` accepts every resolved topic.
- Waku.WakuClient.Send: the `body` and `roomId` arguments are not modelled, since they only feed
  the envelope. A throwing `createEncoder` counts as a failed push, because it runs inside the same
  `try`.
- Waku.WakuClient.Stop: a rejecting `node.stop()` is not modelled.
- Registry.SubscribeKeepsKeys: holds only for the finite chains of resubscribes that a
  `SubscribeEnv` tree describes. A transport that answered "no subscriptions" forever would make
  the source recurse without end.
- JavaScript numbers are unbounded integers here. `expirationSeconds * 1000` and the backoff
  product have no floating-point rounding.
- Strings are sequences of Unicode scalar values. Lone UTF-16 surrogates cannot occur.
- Expiration times are stored but never checked, in the model as in the source.
