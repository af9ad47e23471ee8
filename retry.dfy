/**
 * The bounded retry loops of the Waku provider, over abstract transport answers: the per-peer dial
 * loop of `createNode`, the peer wait of `waitForPeers`, the liveness ping of
 * `checkAndSaveSubscription` and the reconnect backoff schedule of the health listener. An answer
 * oracle maps the index of an attempt to what the transport answers to it; delays are values.
 */
module Retry {
  import opened Wrappers

  /** The first index below `n` at which `p` holds, if any. */
  function FirstWithin(p: nat -> bool, n: int): (r: Option<nat>)
    ensures r.Some? ==> r.value < n && p(r.value)
    ensures r.Some? ==> forall j :: 0 <= j < r.value ==> !p(j)
    ensures r.None? ==> forall j :: 0 <= j < n ==> !p(j)
    decreases n
  {
    if n <= 0 then None
    else
      match FirstWithin(p, n - 1)
      case Some(k) => Some(k)
      case None => if p(n - 1) then Some(n - 1) else None
  }

  /** The first index is the one where `p` first holds. */
  lemma FirstWithinAt(p: nat -> bool, n: int, i: nat)
    requires i < n && p(i)
    requires forall j :: 0 <= j < i ==> !p(j)
    ensures FirstWithin(p, n) == Some(i)
  {
  }

  /** There is no first index when `p` holds nowhere below `n`. */
  lemma FirstWithinNone(p: nat -> bool, n: int)
    requires forall j :: 0 <= j < n ==> !p(j)
    ensures FirstWithin(p, n) == None
  {
  }

  function Max(a: int, b: int): int
  {
    if a >= b then a else b
  }

  function Min(a: int, b: int): int
  {
    if a <= b then a else b
  }

  // ---------------------------------------------------------------------------------------------
  // Dialling one static peer (createNode)
  // ---------------------------------------------------------------------------------------------

  /** Dial attempts per static peer before moving on to the next one. */
  const MaxDialAttempts := 5

  /** The pause after a failed dial, in milliseconds. */
  const DialRetryDelayMs := 500

  /** The pauses after `n` failed dials: one `DialRetryDelayMs` sleep each. */
  function DialPauses(n: nat): (r: seq<nat>)
    ensures |r| == n && forall k :: 0 <= k < n ==> r[k] == DialRetryDelayMs
  {
    if n == 0 then [] else DialPauses(n - 1) + [DialRetryDelayMs]
  }

  /** Dials one peer until the first success, at most `MaxDialAttempts` times; `dial(i)` says
      whether attempt `i` connects. Every failed attempt, the last one included, is followed by a
      pause, returned in `pauses`. A peer that never connects is given up on, not reported. */
  method DialWithRetry(dial: nat -> bool) returns (attempts: nat, connected: bool, pauses: seq<nat>)
    ensures 1 <= attempts <= MaxDialAttempts
    ensures connected <==> FirstWithin(dial, MaxDialAttempts).Some?
    ensures connected ==> attempts == FirstWithin(dial, MaxDialAttempts).value + 1
    ensures !connected ==> attempts == MaxDialAttempts
    ensures pauses == DialPauses(if connected then attempts - 1 else attempts)
  {
    attempts, connected, pauses := 0, false, [];
    var i := 0;
    while i < MaxDialAttempts
      invariant 0 <= i <= MaxDialAttempts
      invariant attempts == i && !connected
      invariant pauses == DialPauses(i)
      invariant forall j :: 0 <= j < i ==> !dial(j)
    {
      attempts := attempts + 1;
      if dial(i) {
        connected := true;
        break;
      }
      pauses := pauses + [DialRetryDelayMs];
      i := i + 1;
    }
  }

  // ---------------------------------------------------------------------------------------------
  // Waiting for a remote peer (waitForPeers)
  // ---------------------------------------------------------------------------------------------

  /** The answer to one attempt of the peer wait: the transport's `waitForPeers` rejected, or it
      resolved and `isConnected()` then answered `connected`. */
  datatype WaitReply = WaitThrew | WaitResolved(connected: bool)

  /** What the peer wait did: how many attempts it made and whether it threw the "could not find
      remote peer" error. */
  datatype PeerWait = PeerWait(attempts: nat, timedOut: bool)

  /** The attempts that find the node connected. */
  function Connected(wait: nat -> WaitReply): nat -> bool
  {
    (i: nat) => wait(i) == WaitResolved(true)
  }

  /** Reference definition of the peer wait: it stops at the first attempt that finds the node
      connected; it throws only when the attempt with index `pingCount - 1` rejects; in every other
      case, including attempts that resolve without a connection, it returns normally. */
  function PeerWaitOutcome(pingCount: int, wait: nat -> WaitReply): PeerWait
  {
    match FirstWithin(Connected(wait), pingCount)
    case Some(k) => PeerWait(k + 1, false)
    case None => PeerWait(Max(pingCount, 0), pingCount >= 1 && wait(pingCount - 1) == WaitThrew)
  }

  /** At most `pingCount` attempts; a timeout always comes after all of them; no attempt at all and
      no error when `pingCount <= 0`. */
  lemma PeerWaitBounds(pingCount: int, wait: nat -> WaitReply)
    ensures var o := PeerWaitOutcome(pingCount, wait);
      && o.attempts <= Max(pingCount, 0)
      && (o.timedOut ==> o.attempts == pingCount && wait(pingCount - 1) == WaitThrew)
      && (pingCount <= 0 ==> o == PeerWait(0, false))
  {
  }

  /** The peer wait returns normally, after all `pingCount` attempts, when every attempt resolves
      but the node never reports itself connected. */
  lemma PeerWaitUnconnectedReturns(pingCount: int, wait: nat -> WaitReply)
    requires forall i :: 0 <= i < pingCount ==> wait(i) == WaitResolved(false)
    ensures PeerWaitOutcome(pingCount, wait) == PeerWait(Max(pingCount, 0), false)
  {
    if pingCount >= 1 {
      assert wait(pingCount - 1) == WaitResolved(false);
    }
  }

  /** With three attempts that all reject, the wait fails after exactly three attempts. */
  lemma PeerWaitThreeRejections(wait: nat -> WaitReply)
    requires forall i :: wait(i) == WaitThrew
    ensures PeerWaitOutcome(3, wait) == PeerWait(3, true)
  {
  }

  // ---------------------------------------------------------------------------------------------
  // Subscription liveness ping (checkAndSaveSubscription)
  // ---------------------------------------------------------------------------------------------

  /** The answer to one `subscription.ping()`: it resolved, it rejected with an error whose message
      contains "peer has no subscriptions", or it rejected with any other error. */
  datatype PingReply = Pong | NoPeerSubscriptions | PingFailed

  /** How the ping loop ended, with the number of pings made: a ping answered, the attempts ran out
      (the subscription is saved anyway), or the peer had no subscriptions (resubscribe). */
  datatype PingResult = Up(attempts: nat) | GaveUp(attempts: nat) | Resubscribe(attempts: nat)

  /** The pings that end the loop: every answer except an ordinary failure. */
  function Conclusive(ping: nat -> PingReply): nat -> bool
  {
    (i: nat) => ping(i) != PingFailed
  }

  /** Reference definition of the ping loop: it stops at the first ping that is not an ordinary
      failure, at most `pingCount` pings. */
  function PingOutcome(pingCount: int, ping: nat -> PingReply): PingResult
  {
    match FirstWithin(Conclusive(ping), pingCount)
    case Some(k) => if ping(k) == Pong then Up(k + 1) else Resubscribe(k + 1)
    case None => GaveUp(Max(pingCount, 0))
  }

  /** The ping loop makes at most `pingCount` pings; it resubscribes exactly when, before any ping
      is answered, a ping reports that the peer has no subscriptions; when every ping fails it gives
      up after all `pingCount` of them. */
  lemma PingLoopProperties(pingCount: int, ping: nat -> PingReply)
    ensures var o := PingOutcome(pingCount, ping);
      && o.attempts <= Max(pingCount, 0)
      && (o.Resubscribe? <==>
            exists k :: 0 <= k < pingCount && ping(k) == NoPeerSubscriptions
              && forall j :: 0 <= j < k ==> ping(j) == PingFailed)
      && ((forall j :: 0 <= j < pingCount ==> ping(j) == PingFailed) ==> o == GaveUp(Max(pingCount, 0)))
  {
    var first := FirstWithin(Conclusive(ping), pingCount);
    var o := PingOutcome(pingCount, ping);
    if first.Some? {
      var k := first.value;
      forall j | 0 <= j < k ensures ping(j) == PingFailed {
        assert !Conclusive(ping)(j);
      }
      assert Conclusive(ping)(k);
      if ping(k) == Pong {
        forall k' | 0 <= k' < pingCount && ping(k') == NoPeerSubscriptions
          ensures exists j :: 0 <= j < k' && ping(j) != PingFailed
        {
          assert k < k' && ping(k) != PingFailed;
        }
      }
    } else {
      forall j | 0 <= j < pingCount ensures ping(j) == PingFailed {
        assert !Conclusive(ping)(j);
      }
    }
  }

  // ---------------------------------------------------------------------------------------------
  // Reconnect backoff (health listener)
  // ---------------------------------------------------------------------------------------------

  /** Reconnect attempts after the node turns unhealthy. */
  const MaxReconnectAttempts := 10

  /** The cap of the reconnect delay, in milliseconds. */
  const MaxBackoffMs := 90000

  function Pow2(n: nat): (r: nat)
    ensures r >= 1
  {
    if n == 0 then 1 else 2 * Pow2(n - 1)
  }

  /** `Math.min(90000, 1000 * Math.pow(2, retryCount))`: the delay before reconnect attempt
      `retryCount` (counted from 0). */
  function BackoffDelay(retryCount: nat): nat
  {
    Min(MaxBackoffMs, 1000 * Pow2(retryCount))
  }

  lemma {:induction false} Pow2Monotone(m: nat, n: nat)
    requires m <= n
    ensures Pow2(m) <= Pow2(n)
    decreases n
  {
    if m < n {
      Pow2Monotone(m, n - 1);
    }
  }

  /** The delay doubles from one second up to 64 seconds and is capped at 90 seconds from the
      eighth attempt (`retryCount == 7`) on; it never decreases. */
  lemma BackoffSchedule(n: nat)
    ensures n < 7 ==> BackoffDelay(n) == 1000 * Pow2(n) && BackoffDelay(n) <= 64000
    ensures n >= 7 ==> BackoffDelay(n) == MaxBackoffMs
    ensures BackoffDelay(n) <= BackoffDelay(n + 1)
  {
    assert Pow2(6) == 64 && Pow2(7) == 128;
    if n < 7 {
      Pow2Monotone(n, 6);
    } else {
      Pow2Monotone(7, n);
    }
    Pow2Monotone(n, n + 1);
  }

  /** The sum of the delays before the first `n` reconnect attempts. */
  function TotalBackoff(n: nat): nat
  {
    if n == 0 then 0 else TotalBackoff(n - 1) + BackoffDelay(n - 1)
  }

  /** Ten failed reconnect attempts wait 1+2+4+...+64 seconds and then three times 90 seconds:
      397 seconds in all. */
  lemma TotalBackoffOfAllAttempts()
    ensures TotalBackoff(MaxReconnectAttempts) == 397000
  {
    assert Pow2(6) == 64 && Pow2(7) == 128 && Pow2(8) == 256 && Pow2(9) == 512;
  }
}
