/** What the retry controller promises about whole runs. */
module RetryProperties {
  import opened NetworkErrors
  import opened NetworkWait
  import opened NetworkRetry

  /** Every subscription in `rounds` was preceded by a wait. */
  predicate AllWaited(rounds: seq<Round>)
  {
    forall i :: 0 <= i < |rounds| ==> rounds[i].waited
  }

  /** The `i`-th failed subscription was examined with counter
      `attempt + 2 * i + 1`. */
  predicate CountersAdvanceByTwo(rounds: seq<Round>, attempt: int)
  {
    forall i :: 0 <= i < |rounds| && rounds[i].examined.Some? ==> rounds[i].examined.value == attempt + 2 * i + 1
  }

  /** Every subscription but the last failed and was examined with a counter
      below the maximum. */
  predicate ResubscribedBelowMaximum(rounds: seq<Round>, maxAttempts: int)
  {
    forall i :: 0 <= i < |rounds| - 1 ==> rounds[i].examined.Some? && rounds[i].examined.value < maxAttempts
  }

  /** Closed form of the subscription bound: `floor(d/2) + 1` for a distance
      `d = maxAttempts - attempt > 0`, and one subscription otherwise. */
  lemma {:induction false} SubscriptionBoundClosedForm(attempt: int, maxAttempts: int)
    ensures SubscriptionBound(attempt, maxAttempts) ==
            if maxAttempts - attempt <= 0 then 1 else (maxAttempts - attempt) / 2 + 1
    decreases maxAttempts - attempt
  {
    if attempt + 1 < maxAttempts {
      SubscriptionBoundClosedForm(attempt + 2, maxAttempts);
    }
  }

  /** The decision step sees `attempt + 1`, `attempt + 3`, `attempt + 5`, ...:
      the counter is incremented once before the decision and once more when
      it resubscribes. Every subscription but the last failed and was examined
      with a counter below the maximum. */
  lemma {:induction false} ExaminedCountersAdvanceByTwo<V>(attempt: int, maxAttempts: int, upstream: nat -> Subscription<V>,
                                                           network: nat -> seq<NetworkEvent>, skipCheckAtStart: bool, k: nat)
    ensures CountersAdvanceByTwo(WaitForNetworkAndRetry(attempt, maxAttempts, upstream, network, skipCheckAtStart, k).rounds, attempt)
    ensures ResubscribedBelowMaximum(WaitForNetworkAndRetry(attempt, maxAttempts, upstream, network, skipCheckAtStart, k).rounds, maxAttempts)
    decreases maxAttempts - attempt
  {
    var r := WaitForNetworkAndRetry(attempt, maxAttempts, upstream, network, skipCheckAtStart, k);
    if !(skipCheckAtStart && attempt == 0) && GetNetworkAvailable(true, network(k)).WaitFailed? {
      return;
    }
    match upstream(k)
    case Succeeds(vs) =>
    case Fails(vs, e) =>
      match ResumeNetworkOnError(attempt + 1, maxAttempts, e)
      case Propagate(_) =>
      case Resubscribe(next) =>
        var rest := WaitForNetworkAndRetry(next, maxAttempts, upstream, network, skipCheckAtStart, k + 1);
        ExaminedCountersAdvanceByTwo(next, maxAttempts, upstream, network, skipCheckAtStart, k + 1);
        assert r.rounds == [Round(!(skipCheckAtStart && attempt == 0), Some(attempt + 1))] + rest.rounds;
        forall i | 0 < i < |r.rounds|
          ensures r.rounds[i].examined.Some? ==> r.rounds[i].examined.value == attempt + 2 * i + 1
          ensures i < |r.rounds| - 1 ==> r.rounds[i].examined.Some? && r.rounds[i].examined.value < maxAttempts
        {
          assert r.rounds[i] == rest.rounds[i - 1];
        }
  }

  /** A wait precedes every subscription, the first included, unless the run
      starts with `skipCheckAtStart` and counter 0. */
  lemma {:induction false} WaitBeforeEverySubscription<V>(attempt: int, maxAttempts: int, upstream: nat -> Subscription<V>,
                                                          network: nat -> seq<NetworkEvent>, skipCheckAtStart: bool, k: nat)
    requires !skipCheckAtStart || attempt > 0
    ensures AllWaited(WaitForNetworkAndRetry(attempt, maxAttempts, upstream, network, skipCheckAtStart, k).rounds)
    decreases maxAttempts - attempt
  {
    var r := WaitForNetworkAndRetry(attempt, maxAttempts, upstream, network, skipCheckAtStart, k);
    if GetNetworkAvailable(true, network(k)).WaitFailed? {
      return;
    }
    match upstream(k)
    case Succeeds(vs) =>
    case Fails(vs, e) =>
      match ResumeNetworkOnError(attempt + 1, maxAttempts, e)
      case Propagate(_) =>
      case Resubscribe(next) =>
        var rest := WaitForNetworkAndRetry(next, maxAttempts, upstream, network, skipCheckAtStart, k + 1);
        WaitBeforeEverySubscription(next, maxAttempts, upstream, network, skipCheckAtStart, k + 1);
        assert r.rounds == [Round(true, Some(attempt + 1))] + rest.rounds;
        forall i | 0 < i < |r.rounds|
          ensures r.rounds[i].waited
        {
          assert r.rounds[i] == rest.rounds[i - 1];
        }
  }

  /** With `skipCheckAtStart` and counter 0 the first subscription is made at
      once, without waiting; every later one still waits. */
  lemma SkippedFirstWait<V>(maxAttempts: int, upstream: nat -> Subscription<V>, network: nat -> seq<NetworkEvent>, k: nat)
    ensures var r := WaitForNetworkAndRetry(0, maxAttempts, upstream, network, true, k);
            && |r.rounds| > 0
            && !r.rounds[0].waited
            && AllWaited(r.rounds[1..])
  {
    var r := WaitForNetworkAndRetry(0, maxAttempts, upstream, network, true, k);
    match upstream(k)
    case Succeeds(vs) =>
    case Fails(vs, e) =>
      match ResumeNetworkOnError(1, maxAttempts, e)
      case Propagate(_) =>
      case Resubscribe(next) =>
        var rest := WaitForNetworkAndRetry(next, maxAttempts, upstream, network, true, k + 1);
        WaitBeforeEverySubscription(next, maxAttempts, upstream, network, true, k + 1);
        assert r.rounds == [Round(false, Some(1))] + rest.rounds;
        forall i | 0 < i < |r.rounds|
          ensures r.rounds[i].waited
        {
          assert r.rounds[i] == rest.rounds[i - 1];
        }
  }

  /** `r`, a run started with counter `attempt` at subscription `k`, made
      exactly `SubscriptionBound` subscriptions and ended with
      `TooManyAttemptsException` carrying the maximum and the error of the
      last one. */
  predicate ExhaustedAtBound<V>(r: Run<V>, attempt: int, maxAttempts: int, upstream: nat -> Subscription<V>, k: nat)
  {
    && |r.rounds| == SubscriptionBound(attempt, maxAttempts)
    && |r.rounds| >= 1
    && upstream(k + |r.rounds| - 1).Fails?
    && r.terminal == OnError(TooManyAttemptsException(maxAttempts, upstream(k + |r.rounds| - 1).error))
  }

  /** When every wait succeeds and every subscription fails with a network
      error, the run makes exactly `SubscriptionBound` subscriptions and ends
      with `TooManyAttemptsException` carrying the maximum and the error of
      the last subscription. */
  lemma {:induction false} ExhaustsOnPersistentNetworkFailure<V>(attempt: int, maxAttempts: int, upstream: nat -> Subscription<V>,
                                                                 network: nat -> seq<NetworkEvent>, skipCheckAtStart: bool, k: nat)
    requires forall j :: k <= j ==> upstream(j).Fails? && IsNetworkError(upstream(j).error)
    requires forall j :: k <= j ==> GetNetworkAvailable(true, network(j)).NetworkBack?
    ensures ExhaustedAtBound(WaitForNetworkAndRetry(attempt, maxAttempts, upstream, network, skipCheckAtStart, k),
                             attempt, maxAttempts, upstream, k)
    decreases maxAttempts - attempt
  {
    if attempt + 1 < maxAttempts {
      ExhaustsOnPersistentNetworkFailure(attempt + 2, maxAttempts, upstream, network, skipCheckAtStart, k + 1);
    }
  }

  /** A subscription that completes ends the run: its values are passed on
      unchanged, nothing is resubscribed and no error is raised. */
  lemma SuccessPassesThrough<V>(attempt: int, maxAttempts: int, upstream: nat -> Subscription<V>,
                                network: nat -> seq<NetworkEvent>, skipCheckAtStart: bool, k: nat)
    requires upstream(k).Succeeds?
    requires (skipCheckAtStart && attempt == 0) || GetNetworkAvailable(true, network(k)).NetworkBack?
    ensures var r := WaitForNetworkAndRetry(attempt, maxAttempts, upstream, network, skipCheckAtStart, k);
            && r.values == upstream(k).values
            && r.terminal == OnComplete
            && |r.rounds| == 1
            && r.rounds[0].examined == None
  {
  }

  /** A non-network error met while the counter is below the maximum is
      propagated unchanged after a single subscription. */
  lemma NonNetworkErrorPropagates<V>(attempt: int, maxAttempts: int, upstream: nat -> Subscription<V>,
                                     network: nat -> seq<NetworkEvent>, skipCheckAtStart: bool, k: nat)
    requires upstream(k).Fails? && !IsNetworkError(upstream(k).error)
    requires attempt + 1 < maxAttempts
    requires (skipCheckAtStart && attempt == 0) || GetNetworkAvailable(true, network(k)).NetworkBack?
    ensures var r := WaitForNetworkAndRetry(attempt, maxAttempts, upstream, network, skipCheckAtStart, k);
            && r.values == upstream(k).values
            && r.terminal == OnError(upstream(k).error)
            && |r.rounds| == 1
  {
  }

  /** A wait that finds no connected event, or no reachable internet, ends the
      run with `NoSuchElementException`; the error of a wait is never retried. */
  lemma {:induction false} FailedWaitEndsRun<V>(attempt: int, maxAttempts: int, upstream: nat -> Subscription<V>,
                                                network: nat -> seq<NetworkEvent>, skipCheckAtStart: bool, k: nat)
    ensures var r := WaitForNetworkAndRetry(attempt, maxAttempts, upstream, network, skipCheckAtStart, k);
            r.waitFailed ==> r.terminal == OnError(NoSuchElementException)
    ensures var r := WaitForNetworkAndRetry(attempt, maxAttempts, upstream, network, skipCheckAtStart, k);
            !(skipCheckAtStart && attempt == 0) && GetNetworkAvailable(true, network(k)).WaitFailed? ==>
            r == Run([], OnError(NoSuchElementException), [], true)
    decreases maxAttempts - attempt
  {
    if !(skipCheckAtStart && attempt == 0) && GetNetworkAvailable(true, network(k)).WaitFailed? {
      return;
    }
    match upstream(k)
    case Succeeds(vs) =>
    case Fails(vs, e) =>
      match ResumeNetworkOnError(attempt + 1, maxAttempts, e)
      case Propagate(_) =>
      case Resubscribe(next) =>
        FailedWaitEndsRun(next, maxAttempts, upstream, network, skipCheckAtStart, k + 1);
  }

  /** Nothing is lost and nothing is invented: the observer receives the
      values of every subscription made, in order, including those emitted
      before a failure. */
  lemma {:induction false} ValuesPassThrough<V>(attempt: int, maxAttempts: int, upstream: nat -> Subscription<V>,
                                                network: nat -> seq<NetworkEvent>, skipCheckAtStart: bool, k: nat)
    ensures var r := WaitForNetworkAndRetry(attempt, maxAttempts, upstream, network, skipCheckAtStart, k);
            r.values == Emitted(upstream, k, |r.rounds|)
    decreases maxAttempts - attempt
  {
    if !(skipCheckAtStart && attempt == 0) && GetNetworkAvailable(true, network(k)).WaitFailed? {
      return;
    }
    match upstream(k)
    case Succeeds(vs) =>
      assert Emitted(upstream, k, 1) == vs + [];
    case Fails(vs, e) =>
      match ResumeNetworkOnError(attempt + 1, maxAttempts, e)
      case Propagate(_) =>
        assert Emitted(upstream, k, 1) == vs + [];
      case Resubscribe(next) =>
        ValuesPassThrough(next, maxAttempts, upstream, network, skipCheckAtStart, k + 1);
  }

  /** Subscriptions `k`, ..., `k + n - 1` all failed with a network error. */
  predicate NetworkFailuresFrom<V>(upstream: nat -> Subscription<V>, k: nat, n: int)
  {
    forall j :: k <= j < k + n ==> upstream(j).Fails? && IsNetworkError(upstream(j).error)
  }

  /** Only network errors cause a resubscription: every subscription but the
      last failed with one. */
  lemma {:induction false} ResubscribesOnlyAfterNetworkErrors<V>(attempt: int, maxAttempts: int, upstream: nat -> Subscription<V>,
                                                                 network: nat -> seq<NetworkEvent>, skipCheckAtStart: bool, k: nat)
    ensures NetworkFailuresFrom(upstream, k,
              |WaitForNetworkAndRetry(attempt, maxAttempts, upstream, network, skipCheckAtStart, k).rounds| - 1)
    decreases maxAttempts - attempt
  {
    if !(skipCheckAtStart && attempt == 0) && GetNetworkAvailable(true, network(k)).WaitFailed? {
      return;
    }
    match upstream(k)
    case Succeeds(vs) =>
    case Fails(vs, e) =>
      match ResumeNetworkOnError(attempt + 1, maxAttempts, e)
      case Propagate(_) =>
      case Resubscribe(next) =>
        var rest := WaitForNetworkAndRetry(next, maxAttempts, upstream, network, skipCheckAtStart, k + 1);
        ResubscribesOnlyAfterNetworkErrors(next, maxAttempts, upstream, network, skipCheckAtStart, k + 1);
        assert NetworkFailuresFrom(upstream, k + 1, |rest.rounds| - 1);
  }

  /** A run completes only through a subscription that completed, and that
      subscription is the last one. */
  lemma {:induction false} CompletesOnlyOnSuccess<V>(attempt: int, maxAttempts: int, upstream: nat -> Subscription<V>,
                                                     network: nat -> seq<NetworkEvent>, skipCheckAtStart: bool, k: nat)
    ensures var r := WaitForNetworkAndRetry(attempt, maxAttempts, upstream, network, skipCheckAtStart, k);
            r.terminal == OnComplete ==> |r.rounds| >= 1 && upstream(k + |r.rounds| - 1).Succeeds?
    decreases maxAttempts - attempt
  {
    if !(skipCheckAtStart && attempt == 0) && GetNetworkAvailable(true, network(k)).WaitFailed? {
      return;
    }
    match upstream(k)
    case Succeeds(vs) =>
    case Fails(vs, e) =>
      match ResumeNetworkOnError(attempt + 1, maxAttempts, e)
      case Propagate(_) =>
      case Resubscribe(next) =>
        CompletesOnlyOnSuccess(next, maxAttempts, upstream, network, skipCheckAtStart, k + 1);
  }

  /** The final signal of `r`, a run started with counter `attempt` at
      subscription `k`, is the one its last round calls for. A failed wait
      ends the run with `NoSuchElementException`; the subscription before it,
      if any, failed with a network error examined below the maximum (its
      counter is `attempt + 2(n - 1) + 1` for `n` subscriptions). Otherwise
      the run made `n >= 1` subscriptions; let `e` be the error of the last one and
      `c = attempt + 2(n - 1) + 1` its examined counter. A completed last
      subscription completes the run. When `c` has reached the maximum, the
      run ends with `TooManyAttemptsException(maxAttempts, e)`, whatever `e`
      is. Below the maximum, `e` is not a network error and ends the run
      unchanged. */
  predicate EndsAsLastRoundSays<V>(r: Run<V>, attempt: int, maxAttempts: int, upstream: nat -> Subscription<V>, k: nat)
  {
    && EndsAfterFailedWait(r, attempt, maxAttempts, upstream, k)
    && EndsAsLastSubscriptionSays(r, attempt, maxAttempts, upstream, k)
  }

  /** The failed-wait half of `EndsAsLastRoundSays`. */
  predicate EndsAfterFailedWait<V>(r: Run<V>, attempt: int, maxAttempts: int, upstream: nat -> Subscription<V>, k: nat)
  {
    r.waitFailed ==>
      && r.terminal == OnError(NoSuchElementException)
      && (|r.rounds| >= 1 ==>
            var last := upstream(k + |r.rounds| - 1);
            last.Fails? && IsNetworkError(last.error) && attempt + 2 * (|r.rounds| - 1) + 1 < maxAttempts)
  }

  /** The last-subscription half of `EndsAsLastRoundSays`. */
  predicate EndsAsLastSubscriptionSays<V>(r: Run<V>, attempt: int, maxAttempts: int, upstream: nat -> Subscription<V>, k: nat)
  {
    !r.waitFailed ==>
      && |r.rounds| >= 1
      && var last := upstream(k + |r.rounds| - 1);
         var c := attempt + 2 * (|r.rounds| - 1) + 1;
         && (last.Succeeds? ==> r.terminal == OnComplete)
         && (last.Fails? && c >= maxAttempts ==> r.terminal == OnError(TooManyAttemptsException(maxAttempts, last.error)))
         && (last.Fails? && c < maxAttempts ==> !IsNetworkError(last.error) && r.terminal == OnError(last.error))
  }

  /** A run that ends in a failed wait ends with `NoSuchElementException`, after
      a network error examined below the maximum if it made a subscription. */
  lemma {:induction false} TerminalAfterFailedWait<V>(attempt: int, maxAttempts: int, upstream: nat -> Subscription<V>,
      network: nat -> seq<NetworkEvent>, skipCheckAtStart: bool, k: nat)
    ensures EndsAfterFailedWait(WaitForNetworkAndRetry(attempt, maxAttempts, upstream, network, skipCheckAtStart, k),
                   attempt, maxAttempts, upstream, k)
    decreases maxAttempts - attempt
  {
    var r := WaitForNetworkAndRetry(attempt, maxAttempts, upstream, network, skipCheckAtStart, k);
    var waits := !(skipCheckAtStart && attempt == 0);
    if waits && GetNetworkAvailable(true, network(k)).WaitFailed? {
      return;
    }
    match upstream(k)
    case Succeeds(vs) =>
    case Fails(vs, e) =>
      match ResumeNetworkOnError(attempt + 1, maxAttempts, e)
      case Propagate(_) =>
      case Resubscribe(next) =>
        var rest := WaitForNetworkAndRetry(next, maxAttempts, upstream, network, skipCheckAtStart, k + 1);
        TerminalAfterFailedWait(next, maxAttempts, upstream, network, skipCheckAtStart, k + 1);
        assert r == Run(vs + rest.values, rest.terminal, [Round(waits, Some(attempt + 1))] + rest.rounds, rest.waitFailed);
        if |rest.rounds| >= 1 {
          assert k + |r.rounds| - 1 == (k + 1) + |rest.rounds| - 1;
          assert attempt + 2 * (|r.rounds| - 1) + 1 == next + 2 * (|rest.rounds| - 1) + 1;
        }
  }

  /** A run that does not end in a failed wait ends as its last subscription
      calls for. */
  lemma {:induction false} TerminalFromLastSubscription<V>(attempt: int, maxAttempts: int, upstream: nat -> Subscription<V>,
      network: nat -> seq<NetworkEvent>, skipCheckAtStart: bool, k: nat)
    ensures EndsAsLastSubscriptionSays(WaitForNetworkAndRetry(attempt, maxAttempts, upstream, network, skipCheckAtStart, k),
                   attempt, maxAttempts, upstream, k)
    decreases maxAttempts - attempt
  {
    var r := WaitForNetworkAndRetry(attempt, maxAttempts, upstream, network, skipCheckAtStart, k);
    var waits := !(skipCheckAtStart && attempt == 0);
    if waits && GetNetworkAvailable(true, network(k)).WaitFailed? {
      return;
    }
    match upstream(k)
    case Succeeds(vs) =>
    case Fails(vs, e) =>
      match ResumeNetworkOnError(attempt + 1, maxAttempts, e)
      case Propagate(_) =>
      case Resubscribe(next) =>
        var rest := WaitForNetworkAndRetry(next, maxAttempts, upstream, network, skipCheckAtStart, k + 1);
        TerminalFromLastSubscription(next, maxAttempts, upstream, network, skipCheckAtStart, k + 1);
        assert r == Run(vs + rest.values, rest.terminal, [Round(waits, Some(attempt + 1))] + rest.rounds, rest.waitFailed);
        if |rest.rounds| >= 1 {
          assert k + |r.rounds| - 1 == (k + 1) + |rest.rounds| - 1;
          assert attempt + 2 * (|r.rounds| - 1) + 1 == next + 2 * (|rest.rounds| - 1) + 1;
        }
  }

  /** Every run ends as its last round says: exhaustion and propagation are
      decided by the last subscription, whatever its position. */
  lemma TerminalFromLastRound<V>(attempt: int, maxAttempts: int, upstream: nat -> Subscription<V>,
      network: nat -> seq<NetworkEvent>, skipCheckAtStart: bool, k: nat)
    ensures EndsAsLastRoundSays(WaitForNetworkAndRetry(attempt, maxAttempts, upstream, network, skipCheckAtStart, k),
                                attempt, maxAttempts, upstream, k)
  {
    TerminalAfterFailedWait(attempt, maxAttempts, upstream, network, skipCheckAtStart, k);
    TerminalFromLastSubscription(attempt, maxAttempts, upstream, network, skipCheckAtStart, k);
  }

  /** A wait fails only after a resubscription: when a run that made a
      subscription ends in a failed wait, its last round was examined. */
  lemma {:induction false} FailedWaitFollowsExaminedRound<V>(attempt: int, maxAttempts: int, upstream: nat -> Subscription<V>,
                                                             network: nat -> seq<NetworkEvent>, skipCheckAtStart: bool, k: nat)
    ensures var r := WaitForNetworkAndRetry(attempt, maxAttempts, upstream, network, skipCheckAtStart, k);
            r.waitFailed && |r.rounds| >= 1 ==> r.rounds[|r.rounds| - 1].examined.Some?
    decreases maxAttempts - attempt
  {
    var r := WaitForNetworkAndRetry(attempt, maxAttempts, upstream, network, skipCheckAtStart, k);
    var waits := !(skipCheckAtStart && attempt == 0);
    if waits && GetNetworkAvailable(true, network(k)).WaitFailed? {
      return;
    }
    match upstream(k)
    case Succeeds(vs) =>
    case Fails(vs, e) =>
      match ResumeNetworkOnError(attempt + 1, maxAttempts, e)
      case Propagate(_) =>
      case Resubscribe(next) =>
        var rest := WaitForNetworkAndRetry(next, maxAttempts, upstream, network, skipCheckAtStart, k + 1);
        FailedWaitFollowsExaminedRound(next, maxAttempts, upstream, network, skipCheckAtStart, k + 1);
        assert r.rounds == [Round(waits, Some(attempt + 1))] + rest.rounds;
        if |rest.rounds| >= 1 {
          assert r.rounds[|r.rounds| - 1] == rest.rounds[|rest.rounds| - 1];
        }
  }

  /** Every round of `rounds`, the first of which is subscription `k`, that
      is marked as waited for came after its wait on `network(k + i)`
      completed. */
  predicate WaitedRoundsCompleted(rounds: seq<Round>, network: nat -> seq<NetworkEvent>, k: nat)
  {
    forall i :: 0 <= i < |rounds| && rounds[i].waited ==> GetNetworkAvailable(true, network(k + i)).NetworkBack?
  }

  /** The waits of `r`, a run whose first subscription is `k`, really ran
      to completion: every subscription marked as waited for came after its
      wait completed, and a run that ended in a failed wait did so on the
      wait that would have preceded subscription `k + |r.rounds|`. */
  predicate WaitsCompleted<V>(r: Run<V>, network: nat -> seq<NetworkEvent>, k: nat)
  {
    && WaitedRoundsCompleted(r.rounds, network, k)
    && StoppedAtFailedWait(r, network, k)
  }

  /** If `r` ended in a failed wait, the wait on `network(k + |r.rounds|)`,
      the one before the next subscription, failed. */
  predicate StoppedAtFailedWait<V>(r: Run<V>, network: nat -> seq<NetworkEvent>, k: nat)
  {
    r.waitFailed ==> GetNetworkAvailable(true, network(k + |r.rounds|)).WaitFailed?
  }

  /** Every subscription marked as waited for happens only once its wait has
      completed. */
  lemma {:induction false} SubscribesAfterCompletedWait<V>(attempt: int, maxAttempts: int, upstream: nat -> Subscription<V>,
      network: nat -> seq<NetworkEvent>, skipCheckAtStart: bool, k: nat)
    ensures WaitedRoundsCompleted(WaitForNetworkAndRetry(attempt, maxAttempts, upstream, network, skipCheckAtStart, k).rounds, network, k)
    decreases maxAttempts - attempt
  {
    var r := WaitForNetworkAndRetry(attempt, maxAttempts, upstream, network, skipCheckAtStart, k);
    var waits := !(skipCheckAtStart && attempt == 0);
    if waits && GetNetworkAvailable(true, network(k)).WaitFailed? {
      return;
    }
    match upstream(k)
    case Succeeds(vs) =>
    case Fails(vs, e) =>
      match ResumeNetworkOnError(attempt + 1, maxAttempts, e)
      case Propagate(_) =>
      case Resubscribe(next) =>
        var rest := WaitForNetworkAndRetry(next, maxAttempts, upstream, network, skipCheckAtStart, k + 1);
        SubscribesAfterCompletedWait(next, maxAttempts, upstream, network, skipCheckAtStart, k + 1);
        assert r.rounds == [Round(waits, Some(attempt + 1))] + rest.rounds;
        forall i | 0 < i < |r.rounds| && r.rounds[i].waited
          ensures GetNetworkAvailable(true, network(k + i)).NetworkBack?
        {
          assert r.rounds[i] == rest.rounds[i - 1];
          assert k + i == (k + 1) + (i - 1);
        }
  }

  /** A run that ended in a failed wait stopped at the wait that would have
      preceded subscription `k + |r.rounds|`, and that wait really failed. */
  lemma {:induction false} StopsAtFailedWait<V>(attempt: int, maxAttempts: int, upstream: nat -> Subscription<V>,
      network: nat -> seq<NetworkEvent>, skipCheckAtStart: bool, k: nat)
    ensures StoppedAtFailedWait(WaitForNetworkAndRetry(attempt, maxAttempts, upstream, network, skipCheckAtStart, k), network, k)
    decreases maxAttempts - attempt
  {
    var r := WaitForNetworkAndRetry(attempt, maxAttempts, upstream, network, skipCheckAtStart, k);
    var waits := !(skipCheckAtStart && attempt == 0);
    if waits && GetNetworkAvailable(true, network(k)).WaitFailed? {
      return;
    }
    match upstream(k)
    case Succeeds(vs) =>
    case Fails(vs, e) =>
      match ResumeNetworkOnError(attempt + 1, maxAttempts, e)
      case Propagate(_) =>
      case Resubscribe(next) =>
        var rest := WaitForNetworkAndRetry(next, maxAttempts, upstream, network, skipCheckAtStart, k + 1);
        StopsAtFailedWait(next, maxAttempts, upstream, network, skipCheckAtStart, k + 1);
        assert r.rounds == [Round(waits, Some(attempt + 1))] + rest.rounds && r.waitFailed == rest.waitFailed;
        assert k + |r.rounds| == (k + 1) + |rest.rounds|;
  }

  /** A subscription happens only once the wait before it has completed, and
      a run stops at the first wait that fails. */
  lemma SubscribesOnlyAfterCompletedWait<V>(attempt: int, maxAttempts: int, upstream: nat -> Subscription<V>,
      network: nat -> seq<NetworkEvent>, skipCheckAtStart: bool, k: nat)
    ensures WaitsCompleted(WaitForNetworkAndRetry(attempt, maxAttempts, upstream, network, skipCheckAtStart, k), network, k)
  {
    SubscribesAfterCompletedWait(attempt, maxAttempts, upstream, network, skipCheckAtStart, k);
    StopsAtFailedWait(attempt, maxAttempts, upstream, network, skipCheckAtStart, k);
  }

  /** A network error examined below the maximum is always retried: when the
      last subscription failed that way, the run did not end there but went on
      to wait again, and that wait, on `network(k + n)`, failed. So whenever
      that wait completes, the upstream is subscribed once more. */
  lemma NetworkErrorBelowMaximumIsRetried<V>(attempt: int, maxAttempts: int, upstream: nat -> Subscription<V>,
      network: nat -> seq<NetworkEvent>, skipCheckAtStart: bool, k: nat)
    ensures var r := WaitForNetworkAndRetry(attempt, maxAttempts, upstream, network, skipCheckAtStart, k);
            var n := |r.rounds|;
            n >= 1 && upstream(k + n - 1).Fails? && IsNetworkError(upstream(k + n - 1).error) &&
            attempt + 2 * (n - 1) + 1 < maxAttempts ==>
              r.waitFailed && GetNetworkAvailable(true, network(k + n)).WaitFailed?
  {
    TerminalFromLastRound(attempt, maxAttempts, upstream, network, skipCheckAtStart, k);
    StopsAtFailedWait(attempt, maxAttempts, upstream, network, skipCheckAtStart, k);
  }
}
