/** The wait condition: `getNetworkAvailableSingle` and
    `observeNetworkAvailability`, over finite sequences of connectivity events. */
module NetworkWait {
  import opened NetworkErrors

  datatype Option<T> = None | Some(value: T)

  /** The states an Android `NetworkInfo` can report. */
  datatype NetworkState = Connecting | Connected | Suspended | Disconnecting | Disconnected | Unknown

  /** One event of the network connectivity stream. `internet` is what the
      internet reachability stream emits when it is subscribed at the moment of
      this event (an empty or finite sequence stands for a stream that
      completes). */
  datatype NetworkEvent = NetworkEvent(state: NetworkState, internet: seq<bool>)

  /** `filter { state == CONNECTED }.firstOrError()`: the position of the first
      connected event, if any. */
  function FirstConnected(events: seq<NetworkEvent>): (r: Option<nat>)
    ensures r.Some? ==> r.value < |events| && events[r.value].state == Connected
    ensures r.Some? ==> forall j :: 0 <= j < r.value ==> events[j].state != Connected
    ensures r.None? <==> forall j :: 0 <= j < |events| ==> events[j].state != Connected
  {
    if |events| == 0 then None
    else if events[0].state == Connected then Some(0)
    else match FirstConnected(events[1..])
      case None => None
      case Some(i) => Some(i + 1)
  }

  /** `filter { it }.firstOrError()` on the reachability stream: the position
      of the first `true`, if any. */
  function FirstReachable(reachability: seq<bool>): (r: Option<nat>)
    ensures r.Some? ==> r.value < |reachability| && reachability[r.value]
    ensures r.Some? ==> forall j :: 0 <= j < r.value ==> !reachability[j]
    ensures r.None? <==> forall j :: 0 <= j < |reachability| ==> !reachability[j]
  {
    if |reachability| == 0 then None
    else if reachability[0] then Some(0)
    else match FirstReachable(reachability[1..])
      case None => None
      case Some(i) => Some(i + 1)
  }

  /** How a wait ends. The positions say which events let it complete;
      `getNetworkAvailableSingle` only signals completion (`Single<Unit>`). */
  datatype WaitOutcome =
    | NetworkBack(connectedAt: nat, reachableAt: Option<nat>)
    | WaitFailed(error: Throwable)

  /** `getNetworkAvailableSingle(checkConnectivity)`: wait for the first
      connected event; when `checkConnectivity` holds, then wait for the first
      `true` of the reachability stream subscribed at that event. */
  function GetNetworkAvailable(checkConnectivity: bool, events: seq<NetworkEvent>): (r: WaitOutcome)
    ensures r.WaitFailed? ==> r.error == NoSuchElementException
  {
    match FirstConnected(events)
    case None => WaitFailed(NoSuchElementException)
    case Some(i) =>
      if !checkConnectivity then NetworkBack(i, None)
      else match FirstReachable(events[i].internet)
        case None => WaitFailed(NoSuchElementException)
        case Some(j) => NetworkBack(i, Some(j))
  }

  /** The wait completes at the first connected event; with the check, at the
      first `true` of the reachability stream subscribed at that event. It
      fails exactly when there is no connected event, or when the check is on
      and that reachability stream never reports `true`. */
  lemma WaitCompletesAtFirstQualifyingEvent(checkConnectivity: bool, events: seq<NetworkEvent>)
    ensures var r := GetNetworkAvailable(checkConnectivity, events);
      r.NetworkBack? ==>
      && r.connectedAt < |events|
      && events[r.connectedAt].state == Connected
      && (forall j :: 0 <= j < r.connectedAt ==> events[j].state != Connected)
      && (r.reachableAt.Some? <==> checkConnectivity)
    ensures var r := GetNetworkAvailable(checkConnectivity, events);
      r.NetworkBack? && checkConnectivity ==>
      && r.reachableAt.value < |events[r.connectedAt].internet|
      && events[r.connectedAt].internet[r.reachableAt.value]
      && (forall j :: 0 <= j < r.reachableAt.value ==> !events[r.connectedAt].internet[j])
    ensures GetNetworkAvailable(checkConnectivity, events).WaitFailed? <==>
      || (forall j :: 0 <= j < |events| ==> events[j].state != Connected)
      || (checkConnectivity && FirstConnected(events).Some? &&
          forall j :: 0 <= j < |events[FirstConnected(events).value].internet| ==>
            !events[FirstConnected(events).value].internet[j])
  {
  }

  /** Whether a wait that does not check reachability completes depends only
      on the network states: the reachability stream is never consulted. */
  lemma {:induction false} FirstConnectedOnlyReadsStates(events: seq<NetworkEvent>, events': seq<NetworkEvent>)
    requires |events| == |events'|
    requires forall j :: 0 <= j < |events| ==> events[j].state == events'[j].state
    ensures FirstConnected(events) == FirstConnected(events')
  {
    if |events| > 0 && events[0].state != Connected {
      FirstConnectedOnlyReadsStates(events[1..], events'[1..]);
    }
  }

  lemma UncheckedWaitIgnoresReachability(events: seq<NetworkEvent>, events': seq<NetworkEvent>)
    requires |events| == |events'|
    requires forall j :: 0 <= j < |events| ==> events[j].state == events'[j].state
    ensures GetNetworkAvailable(false, events) == GetNetworkAvailable(false, events')
    ensures GetNetworkAvailable(false, events).NetworkBack? <==>
            exists j :: 0 <= j < |events| && events[j].state == Connected
  {
    FirstConnectedOnlyReadsStates(events, events');
  }

  /** `observeNetworkAvailability(checkConnectivity)`: without the check, one
      boolean per network event saying whether it is connected; with it, every
      connected event is replaced by the reachability stream subscribed at that
      event, and the other events are dropped. */
  function ObserveNetworkAvailability(checkConnectivity: bool, events: seq<NetworkEvent>): (r: seq<bool>)
    ensures !checkConnectivity ==> |r| == |events|
    ensures !checkConnectivity ==> forall j :: 0 <= j < |r| ==> (r[j] <==> events[j].state == Connected)
    ensures checkConnectivity ==>
      ((true in r) <==> exists j :: 0 <= j < |events| && events[j].state == Connected && true in events[j].internet)
    ensures checkConnectivity && (forall j :: 0 <= j < |events| ==> events[j].state != Connected) ==> r == []
  {
    if |events| == 0 then []
    else
      var head := if !checkConnectivity then [events[0].state == Connected]
                  else if events[0].state == Connected then events[0].internet
                  else [];
      var r := head + ObserveNetworkAvailability(checkConnectivity, events[1..]);
      assert checkConnectivity ==> forall j :: 1 <= j < |events| ==> events[j] == events[1..][j - 1];
      r
  }

  /** A completed wait and the availability stream agree: when the wait is
      over, the availability stream has emitted `true`; without the
      reachability check the converse holds as well. */
  lemma {:induction false} WaitAgreesWithAvailability(checkConnectivity: bool, events: seq<NetworkEvent>)
    ensures GetNetworkAvailable(checkConnectivity, events).NetworkBack? ==>
            true in ObserveNetworkAvailability(checkConnectivity, events)
    ensures !checkConnectivity ==>
            (GetNetworkAvailable(false, events).NetworkBack? <==> true in ObserveNetworkAvailability(false, events))
  {
    var w := GetNetworkAvailable(checkConnectivity, events);
    var r := ObserveNetworkAvailability(checkConnectivity, events);
    WaitCompletesAtFirstQualifyingEvent(checkConnectivity, events);
    if w.NetworkBack? {
      var i := w.connectedAt;
      if checkConnectivity {
        assert events[i].internet[w.reachableAt.value];
        assert true in events[i].internet;
      } else {
        assert r[i];
      }
    }
    if !checkConnectivity && true in r {
      var j :| 0 <= j < |r| && r[j];
      assert events[j].state == Connected;
    }
  }
}
