/** The retry controller: the decision step `resumeNetworkOnError` and the
    driver `waitForNetworkAndRetry` that recurses through it. */
module NetworkRetry {
  import opened NetworkErrors
  import opened NetworkWait

  /** What one subscription to the upstream does: emit some values and
      complete, or emit some values and then fail. */
  datatype Subscription<V> =
    | Succeeds(values: seq<V>)
    | Fails(values: seq<V>, error: Throwable)

  /** What `resumeNetworkOnError` resumes with: wait and resubscribe with the
      given counter, or terminate with the given error. */
  datatype Decision = Resubscribe(attempt: int) | Propagate(error: Throwable)

  /** `resumeNetworkOnError`: the exhaustion check comes before the error is
      classified, so once the counter reaches the maximum every error, network
      or not, becomes `TooManyAttemptsException`. */
  function ResumeNetworkOnError(attempt: int, maxAttempts: int, error: Throwable): (d: Decision)
    ensures d.Resubscribe? <==> attempt < maxAttempts && IsNetworkError(error)
    ensures d.Resubscribe? ==> d.attempt == attempt + 1
    ensures attempt >= maxAttempts ==> d == Propagate(TooManyAttemptsException(maxAttempts, error))
    ensures attempt < maxAttempts && !IsNetworkError(error) ==> d == Propagate(error)
    ensures d.Propagate? ==> !IsNetworkError(d.error)
  {
    if attempt >= maxAttempts then Propagate(TooManyAttemptsException(maxAttempts, error))
    else if IsNetworkError(error) then Resubscribe(attempt + 1)
    else Propagate(error)
  }

  /** One subscription to the upstream: whether a network wait came first,
      and, when the subscription failed, the counter the decision step
      examined. */
  datatype Round = Round(waited: bool, examined: Option<int>)

  /** How the resulting stream terminates. */
  datatype Terminal = OnComplete | OnError(error: Throwable)

  /** Everything the downstream observer sees, plus one round per
      subscription; `waitFailed` records a final wait that ended the run
      before it could subscribe again. */
  datatype Run<V> = Run(values: seq<V>, terminal: Terminal, rounds: seq<Round>, waitFailed: bool)

  /** The values emitted by `n` consecutive subscriptions starting with the
      `k`-th, in order. */
  function Emitted<V>(upstream: nat -> Subscription<V>, k: nat, n: nat): seq<V>
    decreases n
  {
    if n == 0 then [] else upstream(k).values + Emitted(upstream, k + 1, n - 1)
  }

  /** The most subscriptions a run entered with counter `attempt` can make:
      the decision step examines `attempt + 1`, `attempt + 3`, ... and stops
      at the first of these that reaches `maxAttempts`. */
  function SubscriptionBound(attempt: int, maxAttempts: int): (b: nat)
    ensures b >= 1
    decreases maxAttempts - attempt
  {
    if attempt + 1 >= maxAttempts then 1 else 1 + SubscriptionBound(attempt + 2, maxAttempts)
  }

  /** `waitForNetworkAndRetry(attempt, maxAttempts, upstream, skipCheckAtStart)`.
      `upstream(k)` is the outcome of the `k`-th subscription and `network(k)`
      the connectivity events seen by the wait that precedes it; `k` counts the
      subscriptions made so far. The wait is skipped only when
      `skipCheckAtStart` holds and `attempt == 0`; it always checks internet
      reachability (the default argument). A failed wait ends the run: its
      error is not caught by the retry. */
  function WaitForNetworkAndRetry<V>(attempt: int, maxAttempts: int, upstream: nat -> Subscription<V>,
                                     network: nat -> seq<NetworkEvent>, skipCheckAtStart: bool, k: nat): (r: Run<V>)
    ensures |r.rounds| <= SubscriptionBound(attempt, maxAttempts)
    ensures r.terminal.OnError? ==> !IsNetworkError(r.terminal.error)
    decreases maxAttempts - attempt
  {
    var waits := !(skipCheckAtStart && attempt == 0);
    var availability := GetNetworkAvailable(true, network(k));
    if waits && availability.WaitFailed? then
      Run([], OnError(availability.error), [], true)
    else match upstream(k)
      case Succeeds(vs) => Run(vs, OnComplete, [Round(waits, None)], false)
      case Fails(vs, e) =>
        var round := Round(waits, Some(attempt + 1));
        match ResumeNetworkOnError(attempt + 1, maxAttempts, e)
        case Propagate(e') => Run(vs, OnError(e'), [round], false)
        case Resubscribe(next) =>
          var rest := WaitForNetworkAndRetry(next, maxAttempts, upstream, network, skipCheckAtStart, k + 1);
          Run(vs + rest.values, rest.terminal, [round] + rest.rounds, rest.waitFailed)
  }
}
