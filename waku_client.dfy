/**
 * The `WakuClient` provider object: the transport node it holds, its subscription registry and its
 * initialisation guard, updated in place by its methods. Each method that changes the client states
 * the whole new state; the reference functions of `Topics`, `Retry` and `Registry` say what the
 * loops compute, and the lemmas there say what those functions promise.
 *
 * Transport answers are parameters: for every attempt the caller supplies what the transport
 * answers to it. Sleeps, the clock and logging are not modelled; `now` stands for `Date.now()`.
 */
module Waku {
  import opened Wrappers
  import opened JsString
  import opened Topics
  import opened Retry
  import opened Registry
  import Utils

  /** What the client sees of a `LightNode`: which node it is (by creation order), whether `start`
      succeeded, whether the health listener was registered on it and
      whether `stop` was called on it. */
  datatype LightNode = LightNode(serial: nat, started: bool, healthListener: bool, stopped: bool)

  /** What one `startNode` run receives from outside: whether `createLightNode` resolves, whether
      dial attempt `a` of static peer `p` connects (`dial(p, a)`), whether `node.start()` resolves,
      and the answer to each peer-wait attempt. */
  datatype StartEnv = StartEnv(createOk: bool, dial: (nat, nat) -> bool, startOk: bool, wait: nat -> WaitReply)

  /** Why `startNode` rejected. */
  datatype StartError = CreateFailed | StartFailed | PeerTimeout

  /** What `init` did: joined the run already in progress (identified by the number of the
      `startNode` call behind `initPromise`), or ran `startNode` itself with the given outcome. */
  datatype InitResult = Joined(promise: nat) | Ran(outcome: Result<(), StartError>)

  /** What `getInstance` did before returning the single instance. */
  datatype Acquired = Created(outcome: Result<(), StartError>) | AwaitedPending(promise: nat) | Existing

  /** The health states the transport reports. */
  datatype HealthStatus = Unhealthy | MinimallyHealthy | SufficientlyHealthy

  /** The dial loop's result for one static peer, with the pauses taken after its failed attempts. */
  datatype Dial = Dial(peer: string, attempts: nat, connected: bool, pauses: seq<nat>)

  /** One light-push send: the content topic handed to the encoder and whether the push resolved. */
  datatype Push = Push(contentTopic: Option<string>, accepted: bool)

  /** Why `subscribe` rejected: nothing to subscribe to, or a transport subscribe (not caught) rejected. */
  datatype SubscribeError = SubscriptionNotConfigured | TransportRejected
  datatype UnsubscribeError = UnsubscribeThrew
  datatype SendError = NodeNotInitialized

  /** The static peers `createNode` dials, in order. */
  function StaticPeers(cfg: Config): seq<string>
  {
    Split(cfg.staticPeers, ',')
  }

  /** The dial answers for the static peer at position `p`. */
  function PeerDials(dial: (nat, nat) -> bool, p: nat): nat -> bool
  {
    (a: nat) => dial(p, a)
  }

  /** Reference definition of the dial loop for one peer: it stops at the first attempt that
      connects, and gives up after `MaxDialAttempts`. */
  function PeerDial(peer: string, dial: nat -> bool): Dial
  {
    match FirstWithin(dial, MaxDialAttempts)
    case Some(k) => Dial(peer, k + 1, true, DialPauses(k))
    case None => Dial(peer, MaxDialAttempts, false, DialPauses(MaxDialAttempts))
  }

  /** The peer-wait answers as the client sees them: with no node, `this.node?.waitForPeers`
      resolves to nothing and `isConnected()` is not true, so every attempt is unconnected. */
  function EffectiveWait(hasNode: bool, wait: nat -> WaitReply): nat -> WaitReply
  {
    if hasNode then wait else (i: nat) => WaitResolved(false)
  }

  /** Reference definition of `startNode`'s outcome: creating the node, starting it and waiting for
      a remote peer can each reject, in that order. Failed dials do not make it reject. */
  function StartOutcome(cfg: Config, env: StartEnv): Result<(), StartError>
  {
    if !env.createOk then Err(CreateFailed)
    else if !env.startOk then Err(StartFailed)
    else if PeerWaitOutcome(cfg.pingCount, env.wait).timedOut then Err(PeerTimeout)
    else Ok(())
  }

  /** Reference definition of the node held after `startNode`: a failed `createLightNode` leaves the
      previous node; otherwise the new node replaces it whatever happens next, and it gets the
      health listener only when `start` and the peer wait both succeed. */
  function NodeAfterStart(cfg: Config, previous: Option<LightNode>, serial: nat, env: StartEnv): Option<LightNode>
  {
    if !env.createOk then previous
    else Some(LightNode(serial, env.startOk, StartOutcome(cfg, env).Ok?, false))
  }

  /** The reconnect attempts that succeed: attempt `k` runs `init` in environment `envs(k)`. */
  predicate ReconnectsAt(cfg: Config, envs: nat -> StartEnv, k: nat)
  {
    StartOutcome(cfg, envs(k)).Ok?
  }

  function Reconnects(cfg: Config, envs: nat -> StartEnv): nat -> bool
  {
    (k: nat) => ReconnectsAt(cfg, envs, k)
  }

  /** A reconnect loop that waited `delays` before its attempts, had no success before the last
      attempt, and stopped either on a success or after the maximum, made exactly the attempts up to
      the first success; when all of them failed it waited the whole backoff of 397 s. */
  lemma ReconnectRun(cfg: Config, envs: nat -> StartEnv, delays: seq<nat>, reconnected: bool)
    requires 1 <= |delays| <= MaxReconnectAttempts
    requires forall k :: 0 <= k < |delays| ==> delays[k] == BackoffDelay(k)
    requires forall j :: 0 <= j < |delays| - 1 ==> !ReconnectsAt(cfg, envs, j)
    requires reconnected <==> ReconnectsAt(cfg, envs, |delays| - 1)
    requires !reconnected ==> |delays| == MaxReconnectAttempts
    ensures FirstWithin(Reconnects(cfg, envs), MaxReconnectAttempts) == if reconnected then Some(|delays| - 1) else None
    ensures !reconnected ==> Sum(delays) == 397000
  {
    if reconnected {
      FirstWithinAt(Reconnects(cfg, envs), MaxReconnectAttempts, |delays| - 1);
    } else {
      FirstWithinNone(Reconnects(cfg, envs), MaxReconnectAttempts);
      SumOfSchedule(delays);
      TotalBackoffOfAllAttempts();
    }
  }

  /** How many of the first `n` reconnect attempts got a node from `createLightNode`. */
  function CreatedCount(envs: nat -> StartEnv, n: nat): nat
  {
    if n == 0 then 0 else CreatedCount(envs, n - 1) + (if envs(n - 1).createOk then 1 else 0)
  }

  /** Reference definition of the node held after the first `n` reconnect attempts, starting from
      `start` with `serial` nodes created so far: each attempt is one `startNode`. */
  function NodeAfterAttempts(cfg: Config, start: Option<LightNode>, serial: nat, envs: nat -> StartEnv, n: nat)
    : Option<LightNode>
  {
    if n == 0 then start
    else NodeAfterStart(cfg, NodeAfterAttempts(cfg, start, serial, envs, n - 1), serial + CreatedCount(envs, n - 1),
                        envs(n - 1))
  }

  function Sum(s: seq<nat>): nat
  {
    if |s| == 0 then 0 else Sum(s[..|s| - 1]) + s[|s| - 1]
  }

  /** A sequence of delays that follows the backoff schedule adds up to the total backoff. */
  lemma {:induction false} SumOfSchedule(delays: seq<nat>)
    requires forall k :: 0 <= k < |delays| ==> delays[k] == BackoffDelay(k)
    ensures Sum(delays) == TotalBackoff(|delays|)
  {
    if |delays| > 0 {
      SumOfSchedule(delays[..|delays| - 1]);
    }
  }

  /** `createNode` never takes its default-bootstrap branch: splitting the static-peer list always
      yields at least one piece, and an empty list yields the single peer `""`. */
  lemma StaticPeersNeverEmpty(cfg: Config)
    ensures |StaticPeers(cfg)| >= 1
    ensures cfg.staticPeers == "" ==> StaticPeers(cfg) == [""]
    ensures |StaticPeers(cfg)| == multiset(cfg.staticPeers)[','] + 1
  {
    SplitCount(cfg.staticPeers, ',');
  }

  class WakuClient {
    const config: Config
    var node: Option<LightNode>
    var subscriptionMap: map<string, Entry>
    var isInitializing: bool
    /** The number of the `startNode` call behind `initPromise`, if any. */
    var initPromise: Option<nat>
    /** How many times `startNode` has been called. */
    var startCalls: nat
    /** How many nodes `createLightNode` has created. */
    var nodesCreated: nat

    /** An initialisation in progress always has its promise, and the promise is one of the
        `startNode` calls made so far. */
    ghost predicate Valid()
      reads this
    {
      && (isInitializing ==> initPromise.Some?)
      && (initPromise.Some? ==> initPromise.value < startCalls)
    }

    constructor (cfg: Config)
      ensures config == cfg && node == None && subscriptionMap == map[]
      ensures !isInitializing && initPromise == None && startCalls == 0 && nodesCreated == 0
      ensures Valid()
    {
      config := cfg;
      node := None;
      subscriptionMap := map[];
      isInitializing := false;
      initPromise := None;
      startCalls := 0;
      nodesCreated := 0;
    }

    // -------------------------------------------------------------------------------------------
    // Starting the node
    // -------------------------------------------------------------------------------------------

    /** `createNode`: creates a TCP light node, dials every static peer with retries, then starts
        the node. A failed creation leaves the client as it was; once the node exists it replaces
        the previous one, even when `start` then rejects. */
    method CreateNode(env: StartEnv) returns (dials: seq<Dial>, r: Result<(), StartError>)
      modifies this`node, this`nodesCreated
      ensures !env.createOk ==> r == Err(CreateFailed) && dials == []
      ensures env.createOk ==> (r.Ok? <==> env.startOk) && (r.Err? ==> r.error == StartFailed)
      ensures env.createOk ==>
        && |dials| == |StaticPeers(config)|
        && forall p :: 0 <= p < |dials| ==> dials[p] == PeerDial(StaticPeers(config)[p], PeerDials(env.dial, p))
      ensures node == (if env.createOk then Some(LightNode(old(nodesCreated), env.startOk, false, false))
                       else old(node))
      ensures nodesCreated == old(nodesCreated) + (if env.createOk then 1 else 0)
    {
      var peers := StaticPeers(config);
      dials := [];
      if |peers| > 0 {
        if !env.createOk {
          return [], Err(CreateFailed);
        }
        node := Some(LightNode(nodesCreated, false, false, false));
        nodesCreated := nodesCreated + 1;
        for p := 0 to |peers|
          invariant node == Some(LightNode(old(nodesCreated), false, false, false))
          invariant nodesCreated == old(nodesCreated) + 1
          invariant |dials| == p
          invariant forall q :: 0 <= q < p ==> dials[q] == PeerDial(peers[q], PeerDials(env.dial, q))
        {
          var attempts, connected, pauses := DialWithRetry(PeerDials(env.dial, p));
          dials := dials + [Dial(peers[p], attempts, connected, pauses)];
        }
      } else {
        // The default-bootstrap node is never created: `peers` is never empty (StaticPeersNeverEmpty).
        assert false;
      }
      if !env.startOk {
        return dials, Err(StartFailed);
      }
      node := Some(node.value.(started := true));
      r := Ok(());
    }

    /** `waitForPeers`: at most `pingCount` attempts, stopping at the first that finds the node
        connected; it rejects only when the last attempt rejects. Nothing changes. */
    method WaitForPeers(wait: nat -> WaitReply) returns (attempts: nat, r: Result<(), StartError>)
      ensures var o := PeerWaitOutcome(config.pingCount, EffectiveWait(node.Some?, wait));
        && attempts == o.attempts
        && (r.Err? <==> o.timedOut)
        && (r.Err? ==> r.error == PeerTimeout)
    {
      var w := EffectiveWait(node.Some?, wait);
      attempts, r := 0, Ok(());
      var i := 0;
      while i < config.pingCount
        invariant 0 <= i <= Max(config.pingCount, 0)
        invariant attempts == i
        invariant forall j :: 0 <= j < i ==> !Connected(w)(j)
        invariant i == config.pingCount && i > 0 ==> w(i - 1) != WaitThrew
      {
        attempts := attempts + 1;
        var reply := w(i);
        if reply == WaitThrew {
          if i == config.pingCount - 1 {
            assert !Connected(w)(i);
            FirstWithinNone(Connected(w), config.pingCount);
            r := Err(PeerTimeout);
            return;
          }
          // sleep(500)
        } else if reply.connected {
          FirstWithinAt(Connected(w), config.pingCount, i);
          return;
        }
        assert !Connected(w)(i);
        i := i + 1;
      }
      FirstWithinNone(Connected(w), config.pingCount);
    }

    /** `registerHealthListener`: attaches the reconnect listener to the current node, if any. The
        listener itself is `OnHealthStatus`. */
    method RegisterHealthListener()
      modifies this`node
      ensures node == (if old(node).Some? then Some(old(node).value.(healthListener := true)) else None)
    {
      if node.Some? {
        node := Some(node.value.(healthListener := true));
      }
      // sleep(2000)
    }

    /** `startNode`: create and start the node, wait for a peer, register the health listener. */
    method StartNode(env: StartEnv) returns (r: Result<(), StartError>)
      modifies this`node, this`nodesCreated
      ensures r == StartOutcome(config, env)
      ensures node == NodeAfterStart(config, old(node), old(nodesCreated), env)
      ensures nodesCreated == old(nodesCreated) + (if env.createOk then 1 else 0)
    {
      var dials;
      dials, r := CreateNode(env);
      if r.Err? {
        return;
      }
      assert EffectiveWait(node.Some?, env.wait) == env.wait;
      var attempts;
      attempts, r := WaitForPeers(env.wait);
      if r.Err? {
        return;
      }
      RegisterHealthListener();
      r := Ok(());
    }

    // -------------------------------------------------------------------------------------------
    // The initialisation guard
    // -------------------------------------------------------------------------------------------

    /** The start of `init` when no initialisation is in progress: raise the flag and remember the
        promise of the `startNode` call about to run. */
    method BeginInit()
      requires Valid() && !isInitializing
      modifies this`isInitializing, this`initPromise, this`startCalls
      ensures Valid() && isInitializing
      ensures initPromise == Some(old(startCalls)) && startCalls == old(startCalls) + 1
    {
      isInitializing := true;
      initPromise := Some(startCalls);
      startCalls := startCalls + 1;
    }

    /** The `finally` of `init`: the flag drops whether `startNode` resolved or rejected; the
        promise stays. */
    method FinishInit()
      requires Valid()
      modifies this`isInitializing
      ensures Valid() && !isInitializing
    {
      isInitializing := false;
    }

    /** `init`: while an initialisation is in progress it only hands back the pending promise;
        otherwise it runs `startNode` once under the flag. There is no "already connected" check:
        every call that is not a join creates a new node. */
    method Init(env: StartEnv) returns (r: InitResult)
      requires Valid()
      modifies this`isInitializing, this`initPromise, this`startCalls, this`node, this`nodesCreated
      ensures Valid()
      ensures old(isInitializing) ==> r == Joined(old(initPromise).value) && unchanged(this)
      ensures !old(isInitializing) ==>
        && r == Ran(StartOutcome(config, env))
        && !isInitializing
        && initPromise == Some(old(startCalls)) && startCalls == old(startCalls) + 1
        && node == NodeAfterStart(config, old(node), old(nodesCreated), env)
        && nodesCreated == old(nodesCreated) + (if env.createOk then 1 else 0)
    {
      if isInitializing {
        return Joined(initPromise.value);
      }
      BeginInit();
      var outcome := StartNode(env);
      FinishInit();
      r := Ran(outcome);
    }

    /** The state after `n` reconnect attempts made from a client that held `start`, had created
        `serial` nodes and had made `calls` calls to `startNode`: one more `startNode` per attempt,
        the promise of the last one, and the node and count of nodes those runs leave. */
    ghost predicate AfterAttempts(start: Option<LightNode>, serial: nat, calls: nat, envs: nat -> StartEnv, n: nat)
      reads this
    {
      && Valid() && !isInitializing
      && startCalls == calls + n
      && (n > 0 ==> initPromise == Some(startCalls - 1))
      && nodesCreated == serial + CreatedCount(envs, n)
      && node == NodeAfterAttempts(config, start, serial, envs, n)
    }

    /** One pass of the reconnect loop, with the delays of the earlier passes in `delays`: wait
        `BackoffDelay(retryCount)`, then `init` in environment `envs(retryCount)`, which runs
        `startNode` because no initialisation is in progress. A successful attempt leaves the node it
        created, started and listened to. */
    method ReconnectAttempt(ghost start: Option<LightNode>, ghost serial: nat, ghost calls: nat,
                            envs: nat -> StartEnv, retryCount: nat, delays: seq<nat>)
      returns (ok: bool, waited: seq<nat>)
      requires |delays| == retryCount && AfterAttempts(start, serial, calls, envs, |delays|)
      requires forall k :: 0 <= k < |delays| ==> delays[k] == BackoffDelay(k)
      requires forall j :: 0 <= j < retryCount ==> !ReconnectsAt(config, envs, j)
      modifies this`isInitializing, this`initPromise, this`startCalls, this`node, this`nodesCreated
      ensures waited == delays + [BackoffDelay(retryCount)]
      ensures forall k :: 0 <= k < |waited| ==> waited[k] == BackoffDelay(k)
      ensures AfterAttempts(start, serial, calls, envs, |waited|)
      ensures ok == ReconnectsAt(config, envs, retryCount)
      ensures !ok ==> forall j :: 0 <= j <= retryCount ==> !ReconnectsAt(config, envs, j)
      ensures ok ==> 1 <= nodesCreated && node == Some(LightNode(nodesCreated - 1, true, true, false))
    {
      waited := delays + [BackoffDelay(retryCount)];
      // sleep(BackoffDelay(retryCount))
      var attempt := Init(envs(retryCount));
      ok := attempt.outcome.Ok?;
    }

    /** The reconnect loop of the health listener: before attempt `k` it waits `BackoffDelay(k)`,
        then runs `init` in environment `envs(k)`; it stops at the first attempt that resolves, after
        at most `MaxReconnectAttempts` attempts. */
    method ReconnectWithBackoff(envs: nat -> StartEnv) returns (delays: seq<nat>, reconnected: bool)
      requires Valid() && !isInitializing
      modifies this`isInitializing, this`initPromise, this`startCalls, this`node, this`nodesCreated
      ensures AfterAttempts(old(node), old(nodesCreated), old(startCalls), envs, |delays|)
      ensures 1 <= |delays| <= MaxReconnectAttempts
      ensures forall k :: 0 <= k < |delays| ==> delays[k] == BackoffDelay(k)
      ensures forall j :: 0 <= j < |delays| - 1 ==> !ReconnectsAt(config, envs, j)
      ensures reconnected <==> ReconnectsAt(config, envs, |delays| - 1)
      ensures !reconnected ==> |delays| == MaxReconnectAttempts
      ensures reconnected ==> 1 <= nodesCreated && node == Some(LightNode(nodesCreated - 1, true, true, false))
    {
      ghost var start, serial, calls := node, nodesCreated, startCalls;
      delays, reconnected := [], false;
      var retryCount := 0;
      while !reconnected && retryCount < MaxReconnectAttempts
        invariant 0 <= retryCount <= MaxReconnectAttempts
        invariant |delays| == retryCount + (if reconnected then 1 else 0)
        invariant AfterAttempts(start, serial, calls, envs, |delays|)
        invariant forall k :: 0 <= k < |delays| ==> delays[k] == BackoffDelay(k)
        invariant forall j :: 0 <= j < retryCount ==> !ReconnectsAt(config, envs, j)
        invariant reconnected ==> retryCount < MaxReconnectAttempts && ReconnectsAt(config, envs, retryCount)
        invariant reconnected ==> 1 <= nodesCreated && node == Some(LightNode(nodesCreated - 1, true, true, false))
        decreases MaxReconnectAttempts - retryCount, if reconnected then 0 else 1
      {
        reconnected, delays := ReconnectAttempt(start, serial, calls, envs, retryCount, delays);
        if !reconnected {
          retryCount := retryCount + 1;
        }
      }
    }

    /** The health listener: on `Unhealthy` it runs the reconnect loop, which stops at the first
        attempt that resolves, at most `MaxReconnectAttempts` of them; ten failures wait 397 s in all.
        After a reconnection the node is the one the last attempt created, started and listened to.
        Any other status only logs. */
    method OnHealthStatus(status: HealthStatus, envs: nat -> StartEnv) returns (delays: seq<nat>, reconnected: bool)
      requires Valid() && !isInitializing
      modifies this`isInitializing, this`initPromise, this`startCalls, this`node, this`nodesCreated
      ensures Valid() && !isInitializing
      ensures status != Unhealthy ==> delays == [] && !reconnected && unchanged(this)
      ensures status == Unhealthy ==>
        && FirstWithin(Reconnects(config, envs), MaxReconnectAttempts) == (if reconnected then Some(|delays| - 1) else None)
        && (!reconnected ==> |delays| == MaxReconnectAttempts)
        && AfterAttempts(old(node), old(nodesCreated), old(startCalls), envs, |delays|)
      ensures status == Unhealthy && reconnected ==> 1 <= nodesCreated && node == Some(LightNode(nodesCreated - 1, true, true, false))
      ensures forall k :: 0 <= k < |delays| ==> delays[k] == BackoffDelay(k)
      ensures status == Unhealthy && !reconnected ==> Sum(delays) == 397000
    {
      if status != Unhealthy {
        return [], false;
      }
      delays, reconnected := ReconnectWithBackoff(envs);
      ReconnectRun(config, envs, delays, reconnected);
    }

    // -------------------------------------------------------------------------------------------
    // Subscriptions
    // -------------------------------------------------------------------------------------------

    /** `subscribe(topic, fn, expirationSeconds)`: rejects when nothing is configured; otherwise
        subscribes every resolved topic in turn, skipping those the transport refuses. */
    method Subscribe(topic: Option<string>, expirationSeconds: int, now: int, env: SubscribeEnv)
      returns (r: Result<(), SubscribeError>)
      modifies this`subscriptionMap
      ensures var o := SubscribeSpec(config, node.Some?, old(subscriptionMap), topic, expirationSeconds, now, env);
        subscriptionMap == o.registry && (r.Err? <==> o.failed)
      ensures NotConfigured(config, topic) ==> r == Err(SubscriptionNotConfigured)
      ensures (&& !NotConfigured(config, topic)
               && |BuildFullTopics(config, topic, env.randomBytes)| >= 1
               && ReplyAt(node.Some?, env, 0).SubscribeRejected?) ==> r == Err(TransportRejected)
      decreases env, 2, 0
    {
      if NotConfigured(config, topic) {
        return Err(SubscriptionNotConfigured);
      }
      var topics := BuildFullTopics(config, topic, env.randomBytes);
      var i := 0;
      while i < |topics|
        invariant 0 <= i <= |topics|
        invariant SubscribeTopics(config, node.Some?, topics, i, subscriptionMap, expirationSeconds, now, env)
               == SubscribeTopics(config, node.Some?, topics, 0, old(subscriptionMap), expirationSeconds, now, env)
        invariant i > 0 ==> !ReplyAt(node.Some?, env, 0).SubscribeRejected?
      {
        var reply := ReplyAt(node.Some?, env, i);
        if reply.SubscribeRejected? {
          return Err(TransportRejected);
        }
        if reply.Subscribed? {
          var pings;
          pings, r := CheckAndSaveSubscription(reply.subscription, topics[i], expirationSeconds, now, reply.ping, reply.retry);
          if r.Err? {
            return;
          }
        }
        i := i + 1;
      }
      r := Ok(());
    }

    /** `checkAndSaveSubscription`: pings the new subscription up to `pingCount` times, stopping at
        the first ping answered; a ping reporting that the peer has no subscriptions re-enters
        `subscribe` for the topic instead of saving; otherwise the subscription is saved, answered or
        not. `pings` is the number of pings made. */
    method CheckAndSaveSubscription(subscription: Subscription, topic: string, expirationSeconds: int, now: int,
                                    ping: nat -> PingReply, retry: SubscribeEnv)
      returns (pings: nat, r: Result<(), SubscribeError>)
      modifies this`subscriptionMap
      ensures pings == PingOutcome(config.pingCount, ping).attempts
      ensures var o := CheckAndSaveSpec(config, node.Some?, old(subscriptionMap), subscription, topic, ping, retry,
                                        expirationSeconds, now);
        subscriptionMap == o.registry && (r.Err? <==> o.failed)
      decreases retry, 3, 0
    {
      pings := 0;
      var i := 0;
      while i < config.pingCount
        invariant 0 <= i <= Max(config.pingCount, 0)
        invariant pings == i
        invariant forall j :: 0 <= j < i ==> !Conclusive(ping)(j)
        invariant subscriptionMap == old(subscriptionMap)
      {
        pings := pings + 1;
        var reply := ping(i);
        if reply == Pong {
          FirstWithinAt(Conclusive(ping), config.pingCount, i);
          break;
        } else if reply == NoPeerSubscriptions {
          FirstWithinAt(Conclusive(ping), config.pingCount, i);
          r := Subscribe(Some(topic), DefaultExpirationSeconds, now, retry);
          return;
        }
        // sleep(500)
        assert !Conclusive(ping)(i);
        i := i + 1;
      }
      if i == Max(config.pingCount, 0) {
        FirstWithinNone(Conclusive(ping), config.pingCount);
      }
      subscriptionMap := subscriptionMap[topic := Entry(subscription, Expiration(now, expirationSeconds))];
      r := Ok(());
    }

    /** `unsubscribe(topic)`: with a node, unsubscribes and forgets every resolved topic that has
        an entry, stopping at the first transport call that throws. */
    method Unsubscribe(topic: Option<string>, randomBytes: seq<Utils.byte>, unsubscribeOk: nat -> bool)
      returns (calls: seq<Subscription>, r: Result<(), UnsubscribeError>)
      modifies this`subscriptionMap
      ensures var o := UnsubscribeSpec(config, node.Some?, old(subscriptionMap), topic, randomBytes, unsubscribeOk);
        subscriptionMap == o.registry && calls == o.calls && (r.Err? <==> o.failed)
    {
      if node.None? {
        calls, r := [], Ok(());
        return;
      }
      var topics := BuildFullTopics(config, topic, randomBytes);
      calls, r := UnsubscribeEach(topics, unsubscribeOk);
    }

    /** The loop of `unsubscribe` over the resolved topics. */
    method UnsubscribeEach(topics: seq<string>, unsubscribeOk: nat -> bool)
      returns (calls: seq<Subscription>, r: Result<(), UnsubscribeError>)
      modifies this`subscriptionMap
      ensures var o := UnsubscribeTopics(old(subscriptionMap), topics, 0, unsubscribeOk, []);
        subscriptionMap == o.registry && calls == o.calls && (r.Err? <==> o.failed)
    {
      calls, r := [], Ok(());
      var i := 0;
      while i < |topics|
        invariant 0 <= i <= |topics|
        invariant r == Ok(())
        invariant UnsubscribeTopics(subscriptionMap, topics, i, unsubscribeOk, calls)
               == UnsubscribeTopics(old(subscriptionMap), topics, 0, unsubscribeOk, [])
      {
        ghost var before := UnsubscribeTopics(subscriptionMap, topics, i, unsubscribeOk, calls);
        if topics[i] in subscriptionMap {
          calls := calls + [subscriptionMap[topics[i]].subscription];
          if !unsubscribeOk(i) {
            r := Err(UnsubscribeThrew);
            assert before == UnsubscribeOutcome(subscriptionMap, calls, true);
            return;
          }
          subscriptionMap := subscriptionMap - {topics[i]};
        }
        assert before == UnsubscribeTopics(subscriptionMap, topics, i + 1, unsubscribeOk, calls);
        i := i + 1;
      }
    }

    // -------------------------------------------------------------------------------------------
    // Sending and stopping
    // -------------------------------------------------------------------------------------------

    /** `send(body, topic, roomId)`: one light push per resolved topic, each encoded for the
        `topic` argument itself rather than the resolved topic; a push that rejects is only logged.
        Without a node it rejects before any push, since there is always a resolved topic. */
    method Send(topic: Option<string>, randomBytes: seq<Utils.byte>, pushOk: nat -> bool)
      returns (pushes: seq<Push>, r: Result<(), SendError>)
      ensures var topics := BuildFullTopics(config, topic, randomBytes);
        && (r.Err? <==> node.None?)
        && (node.None? ==> pushes == [])
        && (node.Some? ==> |pushes| == |topics|)
        && forall i :: 0 <= i < |pushes| ==> pushes[i] == Push(topic, pushOk(i))
    {
      var topics := BuildFullTopics(config, topic, randomBytes);
      pushes := [];
      var i := 0;
      while i < |topics|
        invariant 0 <= i <= |topics|
        invariant |pushes| == i
        invariant i > 0 ==> node.Some?
        invariant forall j :: 0 <= j < i ==> pushes[j] == Push(topic, pushOk(j))
      {
        if node.None? {
          return pushes, Err(NodeNotInitialized);
        }
        pushes := pushes + [Push(topic, pushOk(i))];
        i := i + 1;
      }
      r := Ok(());
    }

    /** `stop`: stops the current node if there is one; the client keeps holding it. */
    method Stop()
      modifies this`node
      ensures node == (if old(node).Some? then Some(old(node).value.(stopped := true)) else None)
    {
      if node.Some? {
        node := Some(node.value.(stopped := true));
      }
    }
  }

  /** The static `instance` slot of `WakuClient`. */
  class InstanceSlot {
    var instance: WakuClient?

    constructor ()
      ensures instance == null
    {
      instance := null;
    }

    /** `getInstance`: the first call creates the instance, stores it and initialises it; a call
        while that initialisation is pending waits for its promise; any later call returns the
        instance as it is. The instance is stored before `init`, so it stays even when the first
        initialisation rejects, and later calls do not retry it. */
    method GetInstance(cfg: Config, env: StartEnv) returns (client: WakuClient, r: Acquired)
      requires instance != null ==> instance.Valid()
      modifies this
      ensures instance == client && client.Valid()
      ensures old(instance) == null ==>
        && fresh(client) && client.config == cfg
        && r == Created(StartOutcome(cfg, env))
        && !client.isInitializing && client.startCalls == 1 && client.initPromise == Some(0)
        && client.node == NodeAfterStart(cfg, None, 0, env)
        && client.subscriptionMap == map[]
      ensures old(instance) != null ==> client == old(instance) && unchanged(client)
      ensures old(instance) != null && old(instance.isInitializing) ==> r == AwaitedPending(old(instance.initPromise).value)
      ensures old(instance) != null && !old(instance.isInitializing) ==> r == Existing
    {
      if instance == null {
        client := new WakuClient(cfg);
        instance := client;
        var o := client.Init(env);
        r := Created(o.outcome);
      } else if instance.isInitializing {
        client := instance;
        r := AwaitedPending(instance.initPromise.value);
      } else {
        client := instance;
        r := Existing;
      }
    }
  }

  /** Overlapping `init` calls: while the first call's `startNode` is in progress, every other
      call joins its promise, so exactly one `startNode` runs and at most one node is created. */
  method OverlappingInits(c: WakuClient, joiners: nat, env: StartEnv)
    returns (joined: seq<InitResult>, first: Result<(), StartError>)
    requires c.Valid() && !c.isInitializing
    modifies c
    ensures c.Valid() && !c.isInitializing
    ensures |joined| == joiners && forall k :: 0 <= k < joiners ==> joined[k] == Joined(old(c.startCalls))
    ensures first == StartOutcome(c.config, env)
    ensures c.startCalls == old(c.startCalls) + 1
    ensures c.nodesCreated <= old(c.nodesCreated) + 1
  {
    c.BeginInit();
    joined := [];
    while |joined| < joiners
      invariant c.Valid() && c.isInitializing
      invariant c.initPromise == Some(old(c.startCalls)) && c.startCalls == old(c.startCalls) + 1
      invariant c.nodesCreated == old(c.nodesCreated)
      invariant |joined| <= joiners
      invariant forall k :: 0 <= k < |joined| ==> joined[k] == Joined(old(c.startCalls))
    {
      var j := c.Init(env);
      joined := joined + [j];
    }
    first := c.StartNode(env);
    c.FinishInit();
  }
}
