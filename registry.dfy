/**
 * The subscription registry of the Waku provider as values: `subscriptionMap` maps a resolved
 * content topic to the transport subscription and its advisory expiration time. The functions here
 * are the reference definitions that the `WakuClient` methods `Subscribe`, `CheckAndSaveSubscription`
 * and `Unsubscribe` are proved against, and the lemmas state what those operations do to the map.
 */
module Registry {
  import opened Wrappers
  import opened Topics
  import opened Retry
  import Utils

  /** The opaque handle the transport returns for a filter subscription. */
  datatype Subscription = Subscription(id: nat)

  /** A `subscriptionMap` value: the subscription and its expiration, in milliseconds. */
  datatype Entry = Entry(subscription: Subscription, expiration: int)

  /** The expiration `subscribe` uses when its caller gives none, and that the resubscribe after a
      "peer has no subscriptions" ping uses whatever the caller gave. */
  const DefaultExpirationSeconds := 20

  /** `Date.now() + expirationSeconds * 1000`. */
  function Expiration(now: int, expirationSeconds: int): int
  {
    now + expirationSeconds * 1000
  }

  /** The transport's answer to `filter.subscribe` for one resolved topic: a rejected promise, a
      result carrying an error, no result at all (`undefined`), or a subscription, together with the
      answers to its pings and, for the case a ping reports that the peer has no subscriptions, the
      environment of the resubscribe that follows. */
  datatype TopicReply =
    | SubscribeRejected
    | SubscribeFailed
    | NoResult
    | Subscribed(subscription: Subscription, ping: nat -> PingReply, retry: SubscribeEnv)

  /** Everything one `subscribe` call receives from outside: the bytes a "random" spec draws and
      one reply per resolved topic, in order (a missing reply is `NoResult`). */
  datatype SubscribeEnv = SubscribeEnv(randomBytes: seq<Utils.byte>, replies: seq<TopicReply>)

  /** The registry after an operation, and whether the operation rejected. */
  datatype Outcome = Outcome(registry: map<string, Entry>, failed: bool)

  /** `subscribe` throws before resolving anything when no spec is given and the content topic or
      the topic list is not configured. */
  predicate NotConfigured(cfg: Config, topic: Option<string>)
  {
    Falsy(topic) && (cfg.contentTopic == "" || cfg.topics == "")
  }

  /** The reply `filter.subscribe` gives for the `i`-th resolved topic: without a node the optional
      call `this.node?.filter.subscribe` yields nothing. */
  function ReplyAt(hasNode: bool, env: SubscribeEnv, i: nat): (r: TopicReply)
    ensures !hasNode ==> r == NoResult
    ensures r.Subscribed? ==> hasNode && i < |env.replies| && r == env.replies[i]
  {
    if hasNode && i < |env.replies| then env.replies[i] else NoResult
  }

  /** Reference definition of `subscribe(topic, fn, expirationSeconds)` on registry `m`. */
  function SubscribeSpec(cfg: Config, hasNode: bool, m: map<string, Entry>, topic: Option<string>,
                         expirationSeconds: int, now: int, env: SubscribeEnv): Outcome
    decreases env, 2, 0
  {
    if NotConfigured(cfg, topic) then Outcome(m, true)
    else SubscribeTopics(cfg, hasNode, BuildFullTopics(cfg, topic, env.randomBytes), 0, m, expirationSeconds, now, env)
  }

  /** The loop of `subscribe` over the resolved topics from index `i` on: a rejected transport
      subscribe is not caught, so `subscribe` rejects with the entries stored so far; a topic whose
      transport subscribe failed or gave nothing is skipped; a subscribed one goes through the ping
      check. */
  function SubscribeTopics(cfg: Config, hasNode: bool, topics: seq<string>, i: nat, m: map<string, Entry>,
                           expirationSeconds: int, now: int, env: SubscribeEnv): Outcome
    decreases env, 1, |topics| - i
  {
    if i >= |topics| then Outcome(m, false)
    else if ReplyAt(hasNode, env, i).SubscribeRejected? then Outcome(m, true)
    else if ReplyAt(hasNode, env, i).Subscribed? then
      var reply := ReplyAt(hasNode, env, i);
      var o := CheckAndSaveSpec(cfg, hasNode, m, reply.subscription, topics[i], reply.ping, reply.retry,
                                expirationSeconds, now);
      if o.failed then o
      else SubscribeTopics(cfg, hasNode, topics, i + 1, o.registry, expirationSeconds, now, env)
    else
      SubscribeTopics(cfg, hasNode, topics, i + 1, m, expirationSeconds, now, env)
  }

  /** Reference definition of `checkAndSaveSubscription`: unless a ping reports that the peer has
      no subscriptions, the entry for the topic is stored (replacing any earlier one), whether or not
      a ping was answered; on that report the whole `subscribe` is re-entered for the resolved topic
      with the default expiration, and the current subscription is not stored. */
  function CheckAndSaveSpec(cfg: Config, hasNode: bool, m: map<string, Entry>, subscription: Subscription,
                            topic: string, ping: nat -> PingReply, retry: SubscribeEnv,
                            expirationSeconds: int, now: int): Outcome
    decreases retry, 3, 0
  {
    if PingOutcome(cfg.pingCount, ping).Resubscribe? then
      SubscribeSpec(cfg, hasNode, m, Some(topic), DefaultExpirationSeconds, now, retry)
    else
      Outcome(m[topic := Entry(subscription, Expiration(now, expirationSeconds))], false)
  }

  // ---------------------------------------------------------------------------------------------
  // Properties of subscribe
  // ---------------------------------------------------------------------------------------------

  /** Every reply from index `i` on is a result with an error or nothing (or there is no node). */
  predicate NoSubscriptionFrom(hasNode: bool, env: SubscribeEnv, i: nat)
  {
    hasNode ==> forall j :: i <= j < |env.replies| ==> env.replies[j].SubscribeFailed? || env.replies[j].NoResult?
  }

  /** From index `i` on, topics whose transport subscribe returned an error or nothing leave the
      registry as it was, and the loop completes normally. Runs that mix such topics with
      subscribed ones are described by `SubscribeTopicsWithoutResubscribe`. */
  lemma {:induction false} SkippedTopicsKeepRegistry(cfg: Config, hasNode: bool, topics: seq<string>, i: nat,
                                                      m: map<string, Entry>, expirationSeconds: int, now: int,
                                                      env: SubscribeEnv)
    requires NoSubscriptionFrom(hasNode, env, i)
    ensures SubscribeTopics(cfg, hasNode, topics, i, m, expirationSeconds, now, env) == Outcome(m, false)
    decreases |topics| - i
  {
    if i < |topics| {
      SkippedTopicsKeepRegistry(cfg, hasNode, topics, i + 1, m, expirationSeconds, now, env);
    }
  }

  /** A reply after which the loop goes on: the transport subscribe did not reject, and no ping of
      a subscription reports a peer without subscriptions, so no resubscribe happens. */
  predicate ReplyContinues(cfg: Config, reply: TopicReply)
  {
    && !reply.SubscribeRejected?
    && (reply.Subscribed? ==> !PingOutcome(cfg.pingCount, reply.ping).Resubscribe?)
  }

  /** Every reply from index `i` on lets the loop go on. */
  predicate NoRejectionOrResubscribeFrom(cfg: Config, hasNode: bool, env: SubscribeEnv, i: nat)
  {
    forall j :: i <= j < |env.replies| && hasNode ==> ReplyContinues(cfg, env.replies[j])
  }

  /** The entry a subscribed topic gets. */
  function NewEntry(subscription: Subscription, expirationSeconds: int, now: int): Entry
  {
    Entry(subscription, Expiration(now, expirationSeconds))
  }

  /** `m` updated in order, from index `i` on, at each resolved topic whose transport subscribe
      gave a subscription, and nowhere else. */
  function StoreSubscribed(hasNode: bool, topics: seq<string>, i: nat, m: map<string, Entry>,
                           expirationSeconds: int, now: int, env: SubscribeEnv): map<string, Entry>
    decreases |topics| - i
  {
    if i >= |topics| then m
    else
      var reply := ReplyAt(hasNode, env, i);
      var next := if reply.Subscribed? then m[topics[i] := NewEntry(reply.subscription, expirationSeconds, now)] else m;
      StoreSubscribed(hasNode, topics, i + 1, next, expirationSeconds, now, env)
  }

  /** The resolved topics from index `i` on whose transport subscribe gave a subscription. */
  function SubscribedTopics(hasNode: bool, topics: seq<string>, i: nat, env: SubscribeEnv): set<string>
  {
    set k | i <= k < |topics| && ReplyAt(hasNode, env, k).Subscribed? :: topics[k]
  }

  lemma SubscribedTopicsStep(hasNode: bool, topics: seq<string>, i: nat, env: SubscribeEnv)
    requires i < |topics|
    ensures SubscribedTopics(hasNode, topics, i, env) ==
      (if ReplyAt(hasNode, env, i).Subscribed? then {topics[i]} else {}) + SubscribedTopics(hasNode, topics, i + 1, env)
  {
    var here := if ReplyAt(hasNode, env, i).Subscribed? then {topics[i]} else {};
    forall t | t in SubscribedTopics(hasNode, topics, i, env)
      ensures t in here + SubscribedTopics(hasNode, topics, i + 1, env)
    {
      var k :| i <= k < |topics| && ReplyAt(hasNode, env, k).Subscribed? && topics[k] == t;
      if k > i {
        assert t in SubscribedTopics(hasNode, topics, i + 1, env);
      }
    }
  }

  /** When no transport subscribe rejects and no ping asks for a resubscribe, `subscribe`'s loop
      stores exactly the subscribed topics' entries, in order, and completes normally; a failed topic
      between successful ones is skipped. */
  lemma {:induction false} SubscribeTopicsWithoutResubscribe(cfg: Config, hasNode: bool, topics: seq<string>, i: nat,
                                                             m: map<string, Entry>, expirationSeconds: int, now: int,
                                                             env: SubscribeEnv)
    requires NoRejectionOrResubscribeFrom(cfg, hasNode, env, i)
    ensures SubscribeTopics(cfg, hasNode, topics, i, m, expirationSeconds, now, env)
      == Outcome(StoreSubscribed(hasNode, topics, i, m, expirationSeconds, now, env), false)
    decreases |topics| - i
  {
    if i < |topics| {
      var reply := ReplyAt(hasNode, env, i);
      if reply.Subscribed? {
        CheckAndSaveStores(cfg, hasNode, m, reply.subscription, topics[i], reply.ping, reply.retry,
                           expirationSeconds, now);
        var next := m[topics[i] := NewEntry(reply.subscription, expirationSeconds, now)];
        assert CheckAndSaveSpec(cfg, hasNode, m, reply.subscription, topics[i], reply.ping, reply.retry,
                                expirationSeconds, now) == Outcome(next, false);
        SubscribeTopicsWithoutResubscribe(cfg, hasNode, topics, i + 1, next, expirationSeconds, now, env);
      } else {
        SubscribeTopicsWithoutResubscribe(cfg, hasNode, topics, i + 1, m, expirationSeconds, now, env);
      }
    }
  }

  /** A transport subscribe that rejects at index `j` makes the loop reject there, keeping the
      entries stored for the topics before `j`, as long as nothing before `j` rejected or asked for a
      resubscribe; the topics from `j` on are not tried. */
  lemma {:induction false} SubscribeRejectionKeepsEarlier(cfg: Config, hasNode: bool, topics: seq<string>, i: nat,
                                                          j: nat, m: map<string, Entry>, expirationSeconds: int,
                                                          now: int, env: SubscribeEnv)
    requires i <= j < |topics| && ReplyAt(hasNode, env, j).SubscribeRejected?
    requires forall k :: i <= k < j ==> ReplyContinues(cfg, ReplyAt(hasNode, env, k))
    ensures SubscribeTopics(cfg, hasNode, topics, i, m, expirationSeconds, now, env)
      == Outcome(StoreSubscribed(hasNode, topics[..j], i, m, expirationSeconds, now, env), true)
    decreases j - i
  {
    if i < j {
      var reply := ReplyAt(hasNode, env, i);
      assert ReplyContinues(cfg, reply);
      var next := if reply.Subscribed? then m[topics[i] := NewEntry(reply.subscription, expirationSeconds, now)] else m;
      if reply.Subscribed? {
        CheckAndSaveStores(cfg, hasNode, m, reply.subscription, topics[i], reply.ping, reply.retry,
                           expirationSeconds, now);
      }
      assert topics[..j][i] == topics[i];
      assert StoreSubscribed(hasNode, topics[..j], i, m, expirationSeconds, now, env)
          == StoreSubscribed(hasNode, topics[..j], i + 1, next, expirationSeconds, now, env);
      SubscribeRejectionKeepsEarlier(cfg, hasNode, topics, i + 1, j, next, expirationSeconds, now, env);
    } else {
      assert |topics[..j]| == j;
    }
  }

  /** A configured `subscribe` whose first transport subscribe rejects rejects too, and leaves the
      registry as it was. */
  lemma SubscribeRejectsOnFirstTopic(cfg: Config, m: map<string, Entry>, topic: Option<string>,
                                     expirationSeconds: int, now: int, env: SubscribeEnv)
    requires !NotConfigured(cfg, topic)
    requires |env.replies| >= 1 && env.replies[0].SubscribeRejected?
    ensures SubscribeSpec(cfg, true, m, topic, expirationSeconds, now, env) == Outcome(m, true)
  {
    var topics := BuildFullTopics(cfg, topic, env.randomBytes);
    SubscribeRejectionKeepsEarlier(cfg, true, topics, 0, 0, m, expirationSeconds, now, env);
  }

  /** The keys after storing are the old keys and the subscribed topics; a key that no subscribed
      topic names keeps its entry. */
  lemma {:induction false} StoreSubscribedFrame(hasNode: bool, topics: seq<string>, i: nat, m: map<string, Entry>,
                                                expirationSeconds: int, now: int, env: SubscribeEnv)
    ensures var r := StoreSubscribed(hasNode, topics, i, m, expirationSeconds, now, env);
      && r.Keys == m.Keys + SubscribedTopics(hasNode, topics, i, env)
      && forall t :: t in m && t !in SubscribedTopics(hasNode, topics, i, env) ==> r[t] == m[t]
    decreases |topics| - i
  {
    if i < |topics| {
      var reply := ReplyAt(hasNode, env, i);
      SubscribedTopicsStep(hasNode, topics, i, env);
      if reply.Subscribed? {
        var next := m[topics[i] := NewEntry(reply.subscription, expirationSeconds, now)];
        StoreSubscribedFrame(hasNode, topics, i + 1, next, expirationSeconds, now, env);
      } else {
        StoreSubscribedFrame(hasNode, topics, i + 1, m, expirationSeconds, now, env);
      }
    } else {
      assert SubscribedTopics(hasNode, topics, i, env) == {};
    }
  }

  /** A subscribed topic that no later subscribed topic repeats ends up with its own entry. */
  lemma {:induction false} StoreSubscribedLastWins(hasNode: bool, topics: seq<string>, i: nat, j: nat,
                                                   m: map<string, Entry>, expirationSeconds: int, now: int,
                                                   env: SubscribeEnv)
    requires i <= j < |topics| && ReplyAt(hasNode, env, j).Subscribed?
    requires topics[j] !in SubscribedTopics(hasNode, topics, j + 1, env)
    ensures var r := StoreSubscribed(hasNode, topics, i, m, expirationSeconds, now, env);
      topics[j] in r && r[topics[j]] == NewEntry(ReplyAt(hasNode, env, j).subscription, expirationSeconds, now)
    decreases j - i
  {
    var reply := ReplyAt(hasNode, env, i);
    var next := if reply.Subscribed? then m[topics[i] := NewEntry(reply.subscription, expirationSeconds, now)] else m;
    assert StoreSubscribed(hasNode, topics, i, m, expirationSeconds, now, env)
        == StoreSubscribed(hasNode, topics, i + 1, next, expirationSeconds, now, env);
    if i == j {
      StoreSubscribedFrame(hasNode, topics, i + 1, next, expirationSeconds, now, env);
    } else {
      StoreSubscribedLastWins(hasNode, topics, i + 1, j, next, expirationSeconds, now, env);
    }
  }

  /** When no transport subscribe rejects and no ping asks for a resubscribe, `subscribe(topic)`
      updates the registry in order at exactly the resolved topics whose transport subscribe gave a
      subscription. */
  lemma SubscribeWithoutResubscribe(cfg: Config, hasNode: bool, m: map<string, Entry>, topic: Option<string>,
                                    expirationSeconds: int, now: int, env: SubscribeEnv)
    requires !NotConfigured(cfg, topic)
    requires NoRejectionOrResubscribeFrom(cfg, hasNode, env, 0)
    ensures SubscribeSpec(cfg, hasNode, m, topic, expirationSeconds, now, env)
      == Outcome(StoreSubscribed(hasNode, BuildFullTopics(cfg, topic, env.randomBytes), 0, m, expirationSeconds, now, env), false)
  {
    SubscribeTopicsWithoutResubscribe(cfg, hasNode, BuildFullTopics(cfg, topic, env.randomBytes), 0, m,
                                      expirationSeconds, now, env);
  }

  /** Topics whose transport subscribe returned an error or nothing leave the registry as it was,
      and the call still completes normally. */
  lemma FailedSubscriptionsKeepRegistry(cfg: Config, hasNode: bool, m: map<string, Entry>, topic: Option<string>,
                                        expirationSeconds: int, now: int, env: SubscribeEnv)
    requires !NotConfigured(cfg, topic)
    requires NoSubscriptionFrom(hasNode, env, 0)
    ensures SubscribeSpec(cfg, hasNode, m, topic, expirationSeconds, now, env) == Outcome(m, false)
  {
    SkippedTopicsKeepRegistry(cfg, hasNode, BuildFullTopics(cfg, topic, env.randomBytes), 0, m,
                              expirationSeconds, now, env);
  }

  /** Without a spec and without a configured content topic or topic list, `subscribe` throws and
      the registry is untouched. */
  lemma UnconfiguredSubscribeThrows(cfg: Config, hasNode: bool, m: map<string, Entry>, topic: Option<string>,
                                    expirationSeconds: int, now: int, env: SubscribeEnv)
    requires NotConfigured(cfg, topic)
    ensures SubscribeSpec(cfg, hasNode, m, topic, expirationSeconds, now, env) == Outcome(m, true)
  {
  }

  /** `subscribe` never removes a key: it only adds or replaces entries, however deep the chain of
      resubscribes goes. */
  lemma {:induction false} SubscribeKeepsKeys(cfg: Config, hasNode: bool, m: map<string, Entry>, topic: Option<string>,
                                              expirationSeconds: int, now: int, env: SubscribeEnv)
    ensures m.Keys <= SubscribeSpec(cfg, hasNode, m, topic, expirationSeconds, now, env).registry.Keys
    decreases env, 2, 0
  {
    if !NotConfigured(cfg, topic) {
      SubscribeTopicsKeepKeys(cfg, hasNode, BuildFullTopics(cfg, topic, env.randomBytes), 0, m,
                              expirationSeconds, now, env);
    }
  }

  lemma {:induction false} SubscribeTopicsKeepKeys(cfg: Config, hasNode: bool, topics: seq<string>, i: nat,
                                                   m: map<string, Entry>, expirationSeconds: int, now: int,
                                                   env: SubscribeEnv)
    ensures m.Keys <= SubscribeTopics(cfg, hasNode, topics, i, m, expirationSeconds, now, env).registry.Keys
    decreases env, 1, |topics| - i
  {
    if i < |topics| {
      if ReplyAt(hasNode, env, i).Subscribed? {
        var reply := ReplyAt(hasNode, env, i);
        CheckAndSaveKeepsKeys(cfg, hasNode, m, reply.subscription, topics[i], reply.ping, reply.retry,
                              expirationSeconds, now);
        var o := CheckAndSaveSpec(cfg, hasNode, m, reply.subscription, topics[i], reply.ping, reply.retry,
                                  expirationSeconds, now);
        if !o.failed {
          SubscribeTopicsKeepKeys(cfg, hasNode, topics, i + 1, o.registry, expirationSeconds, now, env);
        }
      } else {
        SubscribeTopicsKeepKeys(cfg, hasNode, topics, i + 1, m, expirationSeconds, now, env);
      }
    }
  }

  lemma {:induction false} CheckAndSaveKeepsKeys(cfg: Config, hasNode: bool, m: map<string, Entry>,
                                                 subscription: Subscription, topic: string, ping: nat -> PingReply,
                                                 retry: SubscribeEnv, expirationSeconds: int, now: int)
    ensures m.Keys <= CheckAndSaveSpec(cfg, hasNode, m, subscription, topic, ping, retry, expirationSeconds, now).registry.Keys
    decreases retry, 3, 0
  {
    if PingOutcome(cfg.pingCount, ping).Resubscribe? {
      SubscribeKeepsKeys(cfg, hasNode, m, Some(topic), DefaultExpirationSeconds, now, retry);
    }
  }

  /** When no ping reports a peer without subscriptions, the topic's entry is stored with
      expiration `now + expirationSeconds * 1000`, replacing any earlier entry, even if every ping
      failed; every other key keeps its entry. */
  lemma CheckAndSaveStores(cfg: Config, hasNode: bool, m: map<string, Entry>, subscription: Subscription,
                           topic: string, ping: nat -> PingReply, retry: SubscribeEnv,
                           expirationSeconds: int, now: int)
    requires !PingOutcome(cfg.pingCount, ping).Resubscribe?
    ensures var o := CheckAndSaveSpec(cfg, hasNode, m, subscription, topic, ping, retry, expirationSeconds, now);
      && !o.failed
      && topic in o.registry && o.registry[topic] == Entry(subscription, now + expirationSeconds * 1000)
      && o.registry.Keys == m.Keys + {topic}
      && forall t :: t in m && t != topic ==> o.registry[t] == m[t]
  {
  }

  /** When a ping reports a peer without subscriptions and the resubscribe gets no subscription,
      the subscription at hand is dropped: the registry is left as it was. The resubscribe must not
      throw the "not configured" error, which an empty topic does when the template or the topic
      list is empty. */
  lemma ResubscribeDropsCurrentSubscription(cfg: Config, hasNode: bool, m: map<string, Entry>,
                                            subscription: Subscription, topic: string, ping: nat -> PingReply,
                                            retry: SubscribeEnv, expirationSeconds: int, now: int)
    requires PingOutcome(cfg.pingCount, ping).Resubscribe?
    requires !NotConfigured(cfg, Some(topic)) && NoSubscriptionFrom(hasNode, retry, 0)
    ensures CheckAndSaveSpec(cfg, hasNode, m, subscription, topic, ping, retry, expirationSeconds, now) == Outcome(m, false)
  {
    FailedSubscriptionsKeepRegistry(cfg, hasNode, m, Some(topic), DefaultExpirationSeconds, now, retry);
  }

  /** A spec that resolves to one topic, answered by a subscription whose pings do not report a
      peer without subscriptions, stores exactly that topic's entry. */
  lemma SubscribeSingleTopicStores(cfg: Config, m: map<string, Entry>, topic: Option<string>,
                                   expirationSeconds: int, now: int, env: SubscribeEnv)
    requires !NotConfigured(cfg, topic)
    requires |BuildFullTopics(cfg, topic, env.randomBytes)| == 1
    requires |env.replies| >= 1 && env.replies[0].Subscribed?
    requires !PingOutcome(cfg.pingCount, env.replies[0].ping).Resubscribe?
    ensures var t := BuildFullTopics(cfg, topic, env.randomBytes)[0];
      SubscribeSpec(cfg, true, m, topic, expirationSeconds, now, env)
        == Outcome(m[t := Entry(env.replies[0].subscription, Expiration(now, expirationSeconds))], false)
  {
    var topics := BuildFullTopics(cfg, topic, env.randomBytes);
    var reply := env.replies[0];
    var o := CheckAndSaveSpec(cfg, true, m, reply.subscription, topics[0], reply.ping, reply.retry,
                              expirationSeconds, now);
    assert SubscribeTopics(cfg, true, topics, 1, o.registry, expirationSeconds, now, env) == o;
  }

  // ---------------------------------------------------------------------------------------------
  // unsubscribe
  // ---------------------------------------------------------------------------------------------

  /** The registry after an unsubscribe, the subscriptions whose transport `unsubscribe` was called
      (in order), and whether one of those calls threw. */
  datatype UnsubscribeOutcome = UnsubscribeOutcome(registry: map<string, Entry>, calls: seq<Subscription>, failed: bool)

  /** The topics listed from index `i` on. */
  function TopicsFrom(topics: seq<string>, i: nat): set<string>
    decreases |topics| - i
  {
    if i >= |topics| then {} else {topics[i]} + TopicsFrom(topics, i + 1)
  }

  /** Reference definition of the loop of `unsubscribe` from index `i` on, with the calls made so
      far: a topic with an entry has its subscription unsubscribed and then its key deleted; a
      topic without an entry is only warned about. `unsubscribeOk(i)` says whether the transport
      call for topic `i` resolves; when it throws, the loop stops and the entry stays. */
  function UnsubscribeTopics(m: map<string, Entry>, topics: seq<string>, i: nat, unsubscribeOk: nat -> bool,
                             calls: seq<Subscription>): UnsubscribeOutcome
    decreases |topics| - i
  {
    if i >= |topics| then UnsubscribeOutcome(m, calls, false)
    else if topics[i] in m then
      var call := calls + [m[topics[i]].subscription];
      if unsubscribeOk(i) then UnsubscribeTopics(m - {topics[i]}, topics, i + 1, unsubscribeOk, call)
      else UnsubscribeOutcome(m, call, true)
    else
      UnsubscribeTopics(m, topics, i + 1, unsubscribeOk, calls)
  }

  /** Reference definition of `unsubscribe(topic)`: nothing at all without a node. */
  function UnsubscribeSpec(cfg: Config, hasNode: bool, m: map<string, Entry>, topic: Option<string>,
                           randomBytes: seq<Utils.byte>, unsubscribeOk: nat -> bool): UnsubscribeOutcome
  {
    if !hasNode then UnsubscribeOutcome(m, [], false)
    else UnsubscribeTopics(m, BuildFullTopics(cfg, topic, randomBytes), 0, unsubscribeOk, [])
  }

  lemma {:induction false} UnsubscribeTopicsAllOk(m: map<string, Entry>, topics: seq<string>, i: nat,
                                                  unsubscribeOk: nat -> bool, calls: seq<Subscription>)
    requires i <= |topics|
    requires forall j :: i <= j < |topics| ==> unsubscribeOk(j)
    ensures var o := UnsubscribeTopics(m, topics, i, unsubscribeOk, calls);
      !o.failed && o.registry == m - TopicsFrom(topics, i)
    decreases |topics| - i
  {
    if i < |topics| {
      var t := topics[i];
      if t in m {
        var call := calls + [m[t].subscription];
        assert UnsubscribeTopics(m, topics, i, unsubscribeOk, calls)
            == UnsubscribeTopics(m - {t}, topics, i + 1, unsubscribeOk, call);
        UnsubscribeTopicsAllOk(m - {t}, topics, i + 1, unsubscribeOk, call);
        RemovePresentTopic(m, topics, i);
      } else {
        assert UnsubscribeTopics(m, topics, i, unsubscribeOk, calls)
            == UnsubscribeTopics(m, topics, i + 1, unsubscribeOk, calls);
        UnsubscribeTopicsAllOk(m, topics, i + 1, unsubscribeOk, calls);
        SkipAbsentTopic(m, topics, i);
      }
    } else {
      assert m - TopicsFrom(topics, i) == m;
    }
  }

  lemma {:induction false} UnsubscribeTopicsCallCount(m: map<string, Entry>, topics: seq<string>, i: nat,
                                                      unsubscribeOk: nat -> bool, calls: seq<Subscription>)
    requires i <= |topics|
    requires forall j :: i <= j < |topics| ==> unsubscribeOk(j)
    ensures |UnsubscribeTopics(m, topics, i, unsubscribeOk, calls).calls| == |calls| + |m.Keys * TopicsFrom(topics, i)|
    decreases |topics| - i
  {
    if i < |topics| {
      var t := topics[i];
      if t in m {
        var call := calls + [m[t].subscription];
        UnsubscribeTopicsCallCount(m - {t}, topics, i + 1, unsubscribeOk, call);
        RemovePresentTopic(m, topics, i);
      } else {
        UnsubscribeTopicsCallCount(m, topics, i + 1, unsubscribeOk, calls);
        SkipAbsentTopic(m, topics, i);
      }
    } else {
      assert m.Keys * TopicsFrom(topics, i) == {};
    }
  }

  /** Removing a present key first and the later keys after it is removing all of them; the
      intersection with the later keys loses exactly that key. */
  lemma RemovePresentTopic(m: map<string, Entry>, topics: seq<string>, i: nat)
    requires i < |topics| && topics[i] in m
    ensures (m - {topics[i]}) - TopicsFrom(topics, i + 1) == m - TopicsFrom(topics, i)
    ensures |(m - {topics[i]}).Keys * TopicsFrom(topics, i + 1)| + 1 == |m.Keys * TopicsFrom(topics, i)|
  {
    var t, later := topics[i], TopicsFrom(topics, i + 1);
    assert TopicsFrom(topics, i) == {t} + later;
    assert ((m - {t}) - later).Keys == (m - ({t} + later)).Keys;
    assert (m - {t}).Keys == m.Keys - {t};
    CardinalityStep(m.Keys, later, t);
  }

  /** An absent key changes neither the removal nor the intersection. */
  lemma SkipAbsentTopic(m: map<string, Entry>, topics: seq<string>, i: nat)
    requires i < |topics| && topics[i] !in m
    ensures m - TopicsFrom(topics, i + 1) == m - TopicsFrom(topics, i)
    ensures m.Keys * TopicsFrom(topics, i + 1) == m.Keys * TopicsFrom(topics, i)
  {
    var t, later := topics[i], TopicsFrom(topics, i + 1);
    assert TopicsFrom(topics, i) == {t} + later;
    assert (m - later).Keys == (m - ({t} + later)).Keys;
  }

  /** Taking a present key out of both sides removes one element from their intersection. */
  lemma CardinalityStep(keys: set<string>, later: set<string>, t: string)
    requires t in keys
    ensures |(keys - {t}) * later| + 1 == |keys * ({t} + later)|
  {
    assert keys * ({t} + later) == ((keys - {t}) * later) + {t};
    assert t !in (keys - {t}) * later;
  }

  /** The topics listed before index `j`. */
  function SeenBefore(topics: seq<string>, j: nat): set<string>
    requires j <= |topics|
  {
    set t | t in topics[..j]
  }

  /** The stored subscriptions of the topics listed from index `j` on that have an entry in `m`,
      in list order, each topic taken at its first occurrence in the whole list only. */
  function PresentSubscriptions(m: map<string, Entry>, topics: seq<string>, j: nat): seq<Subscription>
    requires j <= |topics|
    decreases |topics| - j
  {
    if j == |topics| then []
    else
      var t := topics[j];
      (if t in m && t !in topics[..j] then [m[t].subscription] else []) + PresentSubscriptions(m, topics, j + 1)
  }

  /** One step of the unsubscribe loop when every call resolves: the topic is called exactly when it
      has an entry and was not listed before, and afterwards it counts as listed. */
  lemma UnsubscribeCallStep(m: map<string, Entry>, topics: seq<string>, j: nat)
    requires j < |topics|
    ensures var t, current := topics[j], m - SeenBefore(topics, j);
      && (t in current <==> t in m && t !in topics[..j])
      && (t in current ==> current[t] == m[t] && current - {t} == m - SeenBefore(topics, j + 1))
      && (t !in current ==> current == m - SeenBefore(topics, j + 1))
  {
    var t := topics[j];
    assert topics[..j + 1] == topics[..j] + [t];
    assert SeenBefore(topics, j + 1) == SeenBefore(topics, j) + {t};
  }

  /** When every transport unsubscribe resolves, the calls made from index `j` on are exactly the
      stored subscriptions of the topics not listed before, in list order. */
  lemma {:induction false} UnsubscribeCallsFrom(m: map<string, Entry>, topics: seq<string>, j: nat,
                                                unsubscribeOk: nat -> bool, calls: seq<Subscription>)
    requires j <= |topics|
    requires forall k :: j <= k < |topics| ==> unsubscribeOk(k)
    ensures UnsubscribeTopics(m - SeenBefore(topics, j), topics, j, unsubscribeOk, calls).calls
      == calls + PresentSubscriptions(m, topics, j)
    decreases |topics| - j
  {
    var current := m - SeenBefore(topics, j);
    if j < |topics| {
      var t := topics[j];
      UnsubscribeCallStep(m, topics, j);
      if t in current {
        var call := calls + [m[t].subscription];
        assert UnsubscribeTopics(current, topics, j, unsubscribeOk, calls)
            == UnsubscribeTopics(m - SeenBefore(topics, j + 1), topics, j + 1, unsubscribeOk, call);
        UnsubscribeCallsFrom(m, topics, j + 1, unsubscribeOk, call);
      } else {
        assert UnsubscribeTopics(current, topics, j, unsubscribeOk, calls)
            == UnsubscribeTopics(m - SeenBefore(topics, j + 1), topics, j + 1, unsubscribeOk, calls);
        UnsubscribeCallsFrom(m, topics, j + 1, unsubscribeOk, calls);
      }
    }
  }

  /** From the start of the list nothing counts as listed before, so the calls are exactly the
      stored subscriptions of the listed topics that have an entry, once per topic, in list order. */
  lemma UnsubscribeCallsExactly(m: map<string, Entry>, topics: seq<string>, unsubscribeOk: nat -> bool)
    requires forall k :: 0 <= k < |topics| ==> unsubscribeOk(k)
    ensures UnsubscribeTopics(m, topics, 0, unsubscribeOk, []).calls == PresentSubscriptions(m, topics, 0)
  {
    assert SeenBefore(topics, 0) == {};
    assert m - SeenBefore(topics, 0) == m;
    UnsubscribeCallsFrom(m, topics, 0, unsubscribeOk, []);
  }

  /** When every transport unsubscribe resolves, `unsubscribe` removes exactly the resolved topics
      that had entries, calls the transport with each such topic's stored subscription once, in
      resolution order, and leaves the other keys. */
  lemma UnsubscribeRemovesResolvedTopics(cfg: Config, m: map<string, Entry>, topic: Option<string>,
                                         randomBytes: seq<Utils.byte>, unsubscribeOk: nat -> bool)
    requires forall j :: unsubscribeOk(j)
    ensures var topics := BuildFullTopics(cfg, topic, randomBytes);
      var o := UnsubscribeSpec(cfg, true, m, topic, randomBytes, unsubscribeOk);
      && !o.failed
      && o.registry == m - TopicsFrom(topics, 0)
      && o.calls == PresentSubscriptions(m, topics, 0)
      && |o.calls| == |m.Keys * TopicsFrom(topics, 0)|
  {
    var topics := BuildFullTopics(cfg, topic, randomBytes);
    UnsubscribeTopicsAllOk(m, topics, 0, unsubscribeOk, []);
    UnsubscribeTopicsCallCount(m, topics, 0, unsubscribeOk, []);
    UnsubscribeCallsExactly(m, topics, unsubscribeOk);
  }

  lemma {:induction false} UnsubscribeTopicsAbsent(m: map<string, Entry>, topics: seq<string>, i: nat,
                                                   unsubscribeOk: nat -> bool, calls: seq<Subscription>)
    requires forall j :: i <= j < |topics| ==> topics[j] !in m
    ensures UnsubscribeTopics(m, topics, i, unsubscribeOk, calls) == UnsubscribeOutcome(m, calls, false)
    decreases |topics| - i
  {
    if i < |topics| {
      UnsubscribeTopicsAbsent(m, topics, i + 1, unsubscribeOk, calls);
    }
  }

  /** Resolved topics without an entry are only warned about: when none has one, the registry is
      unchanged and the transport is not called. Without a node nothing happens at all. */
  lemma UnsubscribeWithoutEntriesChangesNothing(cfg: Config, hasNode: bool, m: map<string, Entry>,
                                                topic: Option<string>, randomBytes: seq<Utils.byte>,
                                                unsubscribeOk: nat -> bool)
    requires hasNode ==> forall t :: t in BuildFullTopics(cfg, topic, randomBytes) ==> t !in m
    ensures UnsubscribeSpec(cfg, hasNode, m, topic, randomBytes, unsubscribeOk) == UnsubscribeOutcome(m, [], false)
  {
    if hasNode {
      UnsubscribeTopicsAbsent(m, BuildFullTopics(cfg, topic, randomBytes), 0, unsubscribeOk, []);
    }
  }

  /** `subscribe(t)` followed by `unsubscribe(t)`, for a spec that resolves to one topic without
      drawing random bytes: the subscription that was stored is unsubscribed exactly once and the
      registry no longer holds the topic. */
  lemma SubscribeThenUnsubscribe(cfg: Config, m: map<string, Entry>, topic: Option<string>,
                                 expirationSeconds: int, now: int, env: SubscribeEnv,
                                 randomBytes: seq<Utils.byte>, unsubscribeOk: nat -> bool)
    requires !NotConfigured(cfg, topic) && (Falsy(topic) || !JsString.Includes(topic.value, "random"))
    requires |BuildFullTopics(cfg, topic, env.randomBytes)| == 1
    requires |env.replies| >= 1 && env.replies[0].Subscribed?
    requires !PingOutcome(cfg.pingCount, env.replies[0].ping).Resubscribe?
    requires forall j :: unsubscribeOk(j)
    ensures var t := BuildFullTopics(cfg, topic, env.randomBytes)[0];
      var subscribed := SubscribeSpec(cfg, true, m, topic, expirationSeconds, now, env).registry;
      var o := UnsubscribeSpec(cfg, true, subscribed, topic, randomBytes, unsubscribeOk);
      && t !in o.registry
      && o.calls == [env.replies[0].subscription]
      && o.registry == m - {t}
  {
    var topics := BuildFullTopics(cfg, topic, env.randomBytes);
    var t := topics[0];
    ResolutionDeterministic(cfg, topic, env.randomBytes, randomBytes);
    SubscribeSingleTopicStores(cfg, m, topic, expirationSeconds, now, env);
    var subscribed := m[t := Entry(env.replies[0].subscription, Expiration(now, expirationSeconds))];
    assert topics == [t];
    assert BuildFullTopics(cfg, topic, randomBytes) == topics;
    assert t in subscribed;
    assert UnsubscribeTopics(subscribed, topics, 0, unsubscribeOk, [])
      == UnsubscribeTopics(subscribed - {t}, topics, 1, unsubscribeOk, [env.replies[0].subscription]);
    assert UnsubscribeTopics(subscribed - {t}, topics, 1, unsubscribeOk, [env.replies[0].subscription])
      == UnsubscribeOutcome(subscribed - {t}, [env.replies[0].subscription], false);
    assert subscribed - {t} == m - {t};
  }
}
