/** The public entry point `Observable.waitForNetwork`: the controller entered
    with counter 0 and `skipCheckAtStart = false`. */
module RxNetwork {
  import opened NetworkErrors
  import opened NetworkWait
  import opened NetworkRetry
  import opened RetryProperties

  /** `upstream.waitForNetwork(context, logger, maxAttempts)`. */
  function WaitForNetwork<V>(maxAttempts: int, upstream: nat -> Subscription<V>, network: nat -> seq<NetworkEvent>): (r: Run<V>)
    ensures |r.rounds| <= if maxAttempts <= 0 then 1 else maxAttempts / 2 + 1
    ensures AllWaited(r.rounds)
    ensures WaitsCompleted(r, network, 0)
    ensures CountersAdvanceByTwo(r.rounds, 0)
    ensures ResubscribedBelowMaximum(r.rounds, maxAttempts)
    ensures r.values == Emitted(upstream, 0, |r.rounds|)
    ensures r.terminal.OnError? ==> !IsNetworkError(r.terminal.error)
  {
    SubscriptionBoundClosedForm(0, maxAttempts);
    WaitBeforeEverySubscription(0, maxAttempts, upstream, network, false, 0);
    SubscribesOnlyAfterCompletedWait(0, maxAttempts, upstream, network, false, 0);
    ExaminedCountersAdvanceByTwo(0, maxAttempts, upstream, network, false, 0);
    ValuesPassThrough(0, maxAttempts, upstream, network, false, 0);
    WaitForNetworkAndRetry(0, maxAttempts, upstream, network, false, 0)
  }

  /** When every subscription fails with a network error, the upstream is
      subscribed `floor(N/2) + 1` times for `maxAttempts = N >= 1` and once for
      `N <= 0`, and the stream fails with `TooManyAttemptsException(N, e)`
      where `e` is the last error. */
  lemma PersistentNetworkFailure<V>(maxAttempts: int, upstream: nat -> Subscription<V>, network: nat -> seq<NetworkEvent>)
    requires forall j: nat :: upstream(j).Fails? && IsNetworkError(upstream(j).error)
    requires forall j: nat :: GetNetworkAvailable(true, network(j)).NetworkBack?
    ensures var r := WaitForNetwork(maxAttempts, upstream, network);
            && |r.rounds| == (if maxAttempts <= 0 then 1 else maxAttempts / 2 + 1)
            && r.terminal == OnError(TooManyAttemptsException(maxAttempts, upstream(|r.rounds| - 1).error))
  {
    SubscriptionBoundClosedForm(0, maxAttempts);
    ExhaustsOnPersistentNetworkFailure(0, maxAttempts, upstream, network, false, 0);
  }

  /** The counters of `waitForNetworkAndRetry` and `resumeNetworkOnError`
      are Kotlin `Int`s: for any `maxAttempts` that fits one, every counter
      computed by `attempt + 1` (the examined counter) and by the second
      `attempt + 1` (the counter of a resubscription) stays within range, so
      neither increment overflows. The second increment is made by every
      round but the last, and by the last one too when it resubscribed and
      the wait that followed failed. */
  lemma CountersFitInInt<V>(maxAttempts: int, upstream: nat -> Subscription<V>, network: nat -> seq<NetworkEvent>)
    requires maxAttempts <= INT_MAX
    ensures var rounds := WaitForNetwork(maxAttempts, upstream, network).rounds;
            forall i :: 0 <= i < |rounds| && rounds[i].examined.Some? ==> 1 <= rounds[i].examined.value <= INT_MAX
    ensures var r := WaitForNetwork(maxAttempts, upstream, network);
            forall i :: 0 <= i < |r.rounds| && (i < |r.rounds| - 1 || r.waitFailed) ==>
              r.rounds[i].examined.Some? && r.rounds[i].examined.value + 1 <= INT_MAX
  {
    var r := WaitForNetwork(maxAttempts, upstream, network);
    var rounds := r.rounds;
    assert CountersAdvanceByTwo(rounds, 0);
    assert ResubscribedBelowMaximum(rounds, maxAttempts);
    forall i | 0 <= i < |rounds| && rounds[i].examined.Some?
      ensures 1 <= rounds[i].examined.value <= INT_MAX
    {
      assert rounds[i].examined.value == 2 * i + 1;
      OddCounterFits(i, maxAttempts);
    }
    if r.waitFailed && |rounds| >= 1 {
      TerminalFromLastRound(0, maxAttempts, upstream, network, false, 0);
      FailedWaitFollowsExaminedRound(0, maxAttempts, upstream, network, false, 0);
      assert EndsAsLastRoundSays(r, 0, maxAttempts, upstream, 0);
      assert rounds[|rounds| - 1].examined.value == 2 * (|rounds| - 1) + 1;
    }
  }

  /** An odd counter `2i + 1` of a subscription within the bound
      `floor(N/2) + 1` is at most `N + 1`, and it fits an `Int` whenever `N`
      does. */
  lemma OddCounterFits(i: nat, maxAttempts: int)
    requires i < if maxAttempts <= 0 then 1 else maxAttempts / 2 + 1
    requires maxAttempts <= INT_MAX
    ensures 2 * i + 1 <= INT_MAX
  {
    // For N > 0: 2i <= 2 * floor(N/2) <= N, so 2i + 1 <= N + 1.
  }

  /** A first network failure followed by a success is survived when
      `maxAttempts >= 2`: the observer sees the values of both subscriptions
      and completes. */
  lemma RecoversAfterOneNetworkFailure<V>(maxAttempts: int, upstream: nat -> Subscription<V>, network: nat -> seq<NetworkEvent>)
    requires maxAttempts >= 2
    requires upstream(0).Fails? && IsNetworkError(upstream(0).error) && upstream(1).Succeeds?
    requires GetNetworkAvailable(true, network(0)).NetworkBack? && GetNetworkAvailable(true, network(1)).NetworkBack?
    ensures WaitForNetwork(maxAttempts, upstream, network) ==
            Run(upstream(0).values + upstream(1).values, OnComplete, [Round(true, Some(1)), Round(true, None)], false)
  {
    var rest := WaitForNetworkAndRetry(2, maxAttempts, upstream, network, false, 1);
    assert rest == Run(upstream(1).values, OnComplete, [Round(true, None)], false);
    assert ResumeNetworkOnError(1, maxAttempts, upstream(0).error) == Resubscribe(2);
  }

  /** The network wait runs before the first subscription too: when it
      fails, the upstream is never subscribed. */
  lemma FirstSubscriptionWaits<V>(maxAttempts: int, upstream: nat -> Subscription<V>, network: nat -> seq<NetworkEvent>)
    requires GetNetworkAvailable(true, network(0)).WaitFailed?
    ensures WaitForNetwork(maxAttempts, upstream, network) == Run([], OnError(NoSuchElementException), [], true)
  {
    FailedWaitEndsRun(0, maxAttempts, upstream, network, false, 0);
  }

  /** With `maxAttempts = 3`, two timeouts and then a success emitting 42, the
      second timeout is examined with counter 3 and ends the stream with
      `TooManyAttemptsException(3, timeout)`: the third subscription never
      happens. */
  lemma ThreeAttemptsTwoTimeouts(network: nat -> seq<NetworkEvent>)
    requires forall j: nat :: GetNetworkAvailable(true, network(j)).NetworkBack?
    ensures var timeout := TimeoutException("java.util.concurrent.TimeoutException");
            var upstream := (j: nat) => if j < 2 then Fails([], timeout) else Succeeds([42]);
            WaitForNetwork(3, upstream, network) ==
            Run([], OnError(TooManyAttemptsException(3, timeout)), [Round(true, Some(1)), Round(true, Some(3))], false)
  {
    // Both waits complete, by the requires at j = 0 and j = 1.
  }
}
