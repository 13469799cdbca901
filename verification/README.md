# Network wait-and-retry controller

A Dafny model of the network retry helper of the Android boilerplate library
(`utils/rx/RxNetwork.kt`). `waitForNetwork` wraps a reactive upstream: before
each subscription it waits until the device reports a `CONNECTED` network and
the internet is reachable. When the upstream fails, `resumeNetworkOnError`
decides whether to wait and subscribe again or to fail. The decision depends
on an attempt counter, `maxAttempts`, and whether the error is a network
error (`TimeoutException` or `IOException`).

The model replaces streams with finite data:

- the upstream is a function `upstream: nat -> Subscription<V>`. The `k`-th
  subscription either emits values and completes (`Succeeds`), or emits values
  and then fails (`Fails`);
- connectivity is a function `network: nat -> seq<NetworkEvent>`. It gives the
  network events seen by the wait before the `k`-th subscription. Each event
  carries the reachability values that the internet probe would emit if it
  were subscribed at that event;
- a run (`Run`) records what the observer receives: the values and the
  terminal signal. It also records one `Round` per subscription (whether a
  wait came first, and which counter the decision step examined) and whether
  a final wait failed.

Modules: `NetworkErrors` (errors and their classification), `NetworkWait`
(the wait condition and the availability stream), `NetworkRetry` (decision
step and driver), `RetryProperties` (lemmas about runs), `RxNetwork` (the
public entry point and its consequences).

The code is modelled as written, including three details:

- The counter is incremented twice per retry (lines 124 and 155). The decision
  step therefore sees 1, 3, 5, ..., and a persistent network failure
  subscribes `floor(N/2) + 1` times for `maxAttempts = N >= 1`.
- The exhaustion check (line 148) runs before the error is classified (line
  152). Once the counter reaches the maximum, even a non-network error
  becomes `TooManyAttemptsException`.
- Every public entry point passes `skipCheckAtStart = false`, so a network
  wait also runs before the first subscription.

The message of `TooManyAttemptsException` (line 180) speaks of "max
$maxAttempts attempts". The code subscribes `floor(N/2) + 1` times before
raising it (`PersistentNetworkFailure`). That is `N` times for `N = 1` and
`N = 2`, and fewer than `N` times for every `N >= 3`. It also waits before
the first subscription (`FirstSubscriptionWaits`). With `maxAttempts = 3`,
two timeouts followed by a success end in `TooManyAttemptsException(3,
timeout)`, and the third subscription never happens (`ThreeAttemptsTwoTimeouts`).

## Model

| member | source | states |
|---|---|---|
| `NetworkErrors.IsNetworkError` | app/src/main/java/uk/co/glass_software/android/boilerplate/utils/rx/RxNetwork.kt:139-140 | the definition: a timeout or an I/O failure of any subclass is a network error, and nothing else is. How it is used is stated by `ResumeNetworkOnError` (resubscribe iff below the maximum and a network error) and by `WaitForNetworkAndRetry` (no run ends with an unwrapped network error) |
| `NetworkWait.FirstConnected` | app/src/main/java/uk/co/glass_software/android/boilerplate/utils/rx/RxNetwork.kt:88-91 | the result is the position of a `CONNECTED` event with none before it, and it is `None` exactly when no event is `CONNECTED` |
| `NetworkWait.FirstReachable` | app/src/main/java/uk/co/glass_software/android/boilerplate/utils/rx/RxNetwork.kt:94-99 | the result is the position of a `true` reachability value with none before it, and it is `None` exactly when there is no `true` |
| `NetworkWait.GetNetworkAvailable` | app/src/main/java/uk/co/glass_software/android/boilerplate/utils/rx/RxNetwork.kt:84-104 | a wait that fails, fails with `NoSuchElementException` (the error of `firstOrError`) |
| `NetworkWait.WaitCompletesAtFirstQualifyingEvent` | app/src/main/java/uk/co/glass_software/android/boilerplate/utils/rx/RxNetwork.kt:88-103 | the wait completes at the first `CONNECTED` event. With `checkConnectivity` it then needs the first `true` of the probe started at that event; without it, no reachability position is recorded. It fails exactly when no event is connected, or when the check is on and that probe never reports `true` |
| `NetworkWait.UncheckedWaitIgnoresReachability` | app/src/main/java/uk/co/glass_software/android/boilerplate/utils/rx/RxNetwork.kt:93-102 | without `checkConnectivity` the wait's outcome depends only on the network states, and it completes iff some event is `CONNECTED` |
| `NetworkWait.ObserveNetworkAvailability` | app/src/main/java/uk/co/glass_software/android/boilerplate/utils/rx/RxNetwork.kt:106-115 | without the check: one boolean per event, `true` iff the event is `CONNECTED`. With the check: a `true` appears iff some connected event's probe reports `true`, and nothing is emitted when no event is connected |
| `NetworkWait.WaitAgreesWithAvailability` | app/src/main/java/uk/co/glass_software/android/boilerplate/utils/rx/RxNetwork.kt:84-115 | whenever the wait completes, the availability stream has emitted `true`; without the check the converse holds too |
| `NetworkRetry.ResumeNetworkOnError` | app/src/main/java/uk/co/glass_software/android/boilerplate/utils/rx/RxNetwork.kt:142-166 | resubscribes iff the counter is below the maximum and the error is a network error, with counter `attempt + 1`. At or above the maximum the result is `TooManyAttemptsException(maxAttempts, error)` whatever the error. Below it, a non-network error is propagated unchanged. A propagated error is never a network error |
| `NetworkRetry.WaitForNetworkAndRetry` | app/src/main/java/uk/co/glass_software/android/boilerplate/utils/rx/RxNetwork.kt:117-134 | the recursion terminates with at most `SubscriptionBound(attempt, maxAttempts)` subscriptions, and a run never ends with an unwrapped network error |
| `RetryProperties.SubscriptionBoundClosedForm` | app/src/main/java/uk/co/glass_software/android/boilerplate/utils/rx/RxNetwork.kt:117-166 | the bound is `(maxAttempts - attempt) / 2 + 1` when `maxAttempts > attempt`, and 1 otherwise |
| `RetryProperties.ExaminedCountersAdvanceByTwo` | app/src/main/java/uk/co/glass_software/android/boilerplate/utils/rx/RxNetwork.kt:117-166 | the `i`-th failed subscription is examined with counter `attempt + 2i + 1` (both increments, lines 124 and 155). Every subscription except the last failed and was examined with a counter below the maximum |
| `RetryProperties.WaitBeforeEverySubscription` | app/src/main/java/uk/co/glass_software/android/boilerplate/utils/rx/RxNetwork.kt:131-134 | unless the run starts with `skipCheckAtStart` and counter 0, every subscription goes through a network wait. `SubscribesOnlyAfterCompletedWait` shows that each such wait completed |
| `RetryProperties.SkippedFirstWait` | app/src/main/java/uk/co/glass_software/android/boilerplate/utils/rx/RxNetwork.kt:131-133 | with `skipCheckAtStart` and counter 0, the first subscription happens at once and every later one goes through a wait. `SubscribesOnlyAfterCompletedWait` shows that each such wait completed |
| `RetryProperties.ExhaustsOnPersistentNetworkFailure` | app/src/main/java/uk/co/glass_software/android/boilerplate/utils/rx/RxNetwork.kt:117-166 | if every wait succeeds and every subscription fails with a network error, the run subscribes exactly `SubscriptionBound` times. It then fails with `TooManyAttemptsException(maxAttempts, e)`, where `e` is the last subscription's error |
| `RetryProperties.SuccessPassesThrough` | app/src/main/java/uk/co/glass_software/android/boilerplate/utils/rx/RxNetwork.kt:117-134 | a subscription that completes ends the run with its values unchanged, one subscription, no examination and no error |
| `RetryProperties.NonNetworkErrorPropagates` | app/src/main/java/uk/co/glass_software/android/boilerplate/utils/rx/RxNetwork.kt:161-163 | a non-network error met below the maximum ends the run with that same error after a single subscription |
| `RetryProperties.FailedWaitEndsRun` | app/src/main/java/uk/co/glass_software/android/boilerplate/utils/rx/RxNetwork.kt:131-133 | a wait that fails ends the run with `NoSuchElementException`, before any further subscription; the retry does not catch it |
| `RetryProperties.ValuesPassThrough` | app/src/main/java/uk/co/glass_software/android/boilerplate/utils/rx/RxNetwork.kt:122-130 | the observer receives, in order, exactly the values emitted by the subscriptions made, including values emitted before a failure |
| `RetryProperties.ResubscribesOnlyAfterNetworkErrors` | app/src/main/java/uk/co/glass_software/android/boilerplate/utils/rx/RxNetwork.kt:148-160 | every subscription except the last one failed with a network error |
| `RetryProperties.CompletesOnlyOnSuccess` | app/src/main/java/uk/co/glass_software/android/boilerplate/utils/rx/RxNetwork.kt:117-134 | a run completes only when its last subscription completed |
| `RetryProperties.TerminalFromLastRound` | app/src/main/java/uk/co/glass_software/android/boilerplate/utils/rx/RxNetwork.kt:117-166 | the final signal follows from the last round. A failed wait gives `NoSuchElementException`, after a network error below the maximum if any subscription came before. Otherwise: a completed last subscription completes the run; a failure examined at counter `attempt + 2(n-1) + 1 >= maxAttempts` gives `TooManyAttemptsException(maxAttempts, e)` whatever `e` is; below the maximum, `e` is not a network error and is propagated unchanged |
| `RetryProperties.TerminalAfterFailedWait` | app/src/main/java/uk/co/glass_software/android/boilerplate/utils/rx/RxNetwork.kt:117-166 | a run ending in a failed wait ends with `NoSuchElementException`. If it made `n >= 1` subscriptions, the last one failed with a network error examined at `attempt + 2(n-1) + 1 < maxAttempts` |
| `RetryProperties.TerminalFromLastSubscription` | app/src/main/java/uk/co/glass_software/android/boilerplate/utils/rx/RxNetwork.kt:117-166 | a run not ending in a failed wait made a subscription and ends as the last one calls for: completion, `TooManyAttemptsException(maxAttempts, e)` at or above the maximum, or `e` itself, not a network error, below it |
| `RetryProperties.FailedWaitFollowsExaminedRound` | app/src/main/java/uk/co/glass_software/android/boilerplate/utils/rx/RxNetwork.kt:117-160 | a wait fails after a subscription only when that subscription's failure was examined and resubscribed: the last round of a run that made a subscription and ended in a failed wait carries an examined counter |
| `RetryProperties.SubscribesAfterCompletedWait` | app/src/main/java/uk/co/glass_software/android/boilerplate/utils/rx/RxNetwork.kt:131-133 | every subscription `k + i` whose round went through a wait happened only after `GetNetworkAvailable` on `network(k + i)` completed (`flatMapObservable` subscribes only on the wait's success) |
| `RetryProperties.StopsAtFailedWait` | app/src/main/java/uk/co/glass_software/android/boilerplate/utils/rx/RxNetwork.kt:131-133 | a run ending in a failed wait stopped at the wait on `network(k + n)` for `n` subscriptions, and that wait really failed |
| `RetryProperties.SubscribesOnlyAfterCompletedWait` | app/src/main/java/uk/co/glass_software/android/boilerplate/utils/rx/RxNetwork.kt:131-133 | both of the above: the run's waits are the real connectivity waits, completed before each waited subscription and failed where the run stopped |
| `RetryProperties.NetworkErrorBelowMaximumIsRetried` | app/src/main/java/uk/co/glass_software/android/boilerplate/utils/rx/RxNetwork.kt:148-160 | a network error examined below the maximum is always followed by another wait. If the run stopped after it, the wait on `network(k + n)` failed, so whenever that wait completes the upstream is subscribed again |
| `RxNetwork.WaitForNetwork` | app/src/main/java/uk/co/glass_software/android/boilerplate/utils/rx/RxNetwork.kt:14-26 | entered with counter 0 and no skipped wait: at most `floor(N/2) + 1` subscriptions for `N >= 1` (one for `N <= 0`). Subscription `i` happens only after the wait on `network(i)` completed, and a run ending in a failed wait stopped at the wait on `network(|rounds|)`, which really failed. Counters examined are 1, 3, 5, ..., all values pass through, and no network error escapes unwrapped |
| `RxNetwork.PersistentNetworkFailure` | app/src/main/java/uk/co/glass_software/android/boilerplate/utils/rx/RxNetwork.kt:117-166 | under persistent network failure the upstream is subscribed exactly `floor(N/2) + 1` times for `N >= 1` and once for `N <= 0`. The run ends with `TooManyAttemptsException(N, lastError)` |
| `RxNetwork.CountersFitInInt` | app/src/main/java/uk/co/glass_software/android/boilerplate/utils/rx/RxNetwork.kt:117-160 | for any `maxAttempts` that fits a Kotlin `Int`, neither `attempt + 1` overflows. The examined counter of line 124 fits in every round. The resubscription counter of line 155 fits in every round but the last, and in the last one too when it resubscribed and the wait that followed (line 133) failed |
| `RxNetwork.RecoversAfterOneNetworkFailure` | app/src/main/java/uk/co/glass_software/android/boilerplate/utils/rx/RxNetwork.kt:117-166 | with `maxAttempts >= 2`, one network failure followed by a success gives the values of both subscriptions and completion |
| `RxNetwork.FirstSubscriptionWaits` | app/src/main/java/uk/co/glass_software/android/boilerplate/utils/rx/RxNetwork.kt:19-25 | the public entry waits before the first subscription: if that wait fails, the upstream is never subscribed |
| `RxNetwork.ThreeAttemptsTwoTimeouts` | app/src/main/java/uk/co/glass_software/android/boilerplate/utils/rx/RxNetwork.kt:142-166 | `maxAttempts = 3`, two timeouts, then 42: the second timeout is examined at counter 3 and the run fails with `TooManyAttemptsException(3, timeout)` without a third subscription |

## Left out

- The `Single`, `Maybe`, `Flowable` and `Completable` overloads of `waitForNetwork` (lines 28-82) are left out. They call the same controller with the same arguments and then apply RxJava conversions. `Single` applies `firstOrError` and `Maybe` applies `firstElement`. `Flowable` applies `firstOrError().toFlowable()`, so it keeps only the first element and fails on an empty upstream. `Completable` applies `ignoreElements`.
- RxJava scheduling, `compose`/`flatMap` plumbing, disposal and cancellation are not modelled. Runs are sequential and finite.
- NetworkWait.ObserveNetworkAvailability: with `checkConnectivity` its contract states only when a `true` appears, not the exact order of values. The `flatMap` merges probe streams that may interleave, and the model concatenates them in event order.
- `ReactiveNetwork`, the Android `Context` and the walled-garden HTTP probe (lines 168-174) are foreign libraries and network I/O. Their outputs are given as event sequences. The connectivity and reachability streams are assumed never to fail. An error from them would arise in the wait at line 133, which sits outside `onErrorResumeNext`, and would reach the observer uncaught. The error contract of `WaitForNetworkAndRetry` (no run ends with a bare network error) holds because the modelled wait can fail only with `NoSuchElementException`.
- Real connectivity streams never complete, so a wait with no qualifying event would hang. The model uses finite sequences, where such a wait fails with `NoSuchElementException` as `firstOrError` does.
- Logger calls and `doOnNext` logging are observational only and are left out.
- The message text of `TooManyAttemptsException` is left out; the model keeps only its payload (`maxAttempts` and the cause).
- The default `MAX_NETWORK_RECONNECT_ATTEMPTS` is defined in a file that is not part of this model. `maxAttempts` is always a parameter.
- `IoUtils.kt`, `BasePagingInteractor.kt` and `MvpPresenter.kt` are glue over platform libraries and are not part of this model.
