/**
 * The nearby-alert page: geolocation feeds a location, a known location
 * starts an alert fetch, and `renderContent` picks one of four views.
 * Callbacks and the transition arrive as events; a run is a sequence of
 * them from the initial state.
 */
module NearbyAlert {
  import opened Wrappers
  import opened Strings
  import opened Geo

  /** The alert flow's answer. */
  datatype AlertInfo = AlertInfo(
    isAtRisk: bool,
    alertTitle: string,
    alertMessage: string,
    safetyRecommendations: seq<string>)

  datatype State = State(
    location: Option<Coordinates>,
    locationError: Option<string>,
    alertInfo: Option<AlertInfo>,
    pending: bool)

  const Initial: State := State(None, None, None, false)

  /** The four things the card can show; `analyzing` picks the loading text. */
  datatype View =
    | Loading(analyzing: bool)
    | PermissionDenied
    | AtRisk(title: string, message: string, tips: seq<string>)
    | Safe

  /**
   * `renderContent`: loading while pending or without an answer, then the
   * permission-denied notice if an error is set, then the answer.
   */
  function ViewOf(s: State): (v: View)
    ensures v.Loading? <==> s.pending || s.alertInfo.None?
    ensures v.Loading? ==> (v.analyzing <==> s.location.Some?)
    ensures v.PermissionDenied? <==> !s.pending && s.alertInfo.Some? && Truthy(s.locationError)
    ensures v.AtRisk? ==> s.alertInfo.Some? && s.alertInfo.value.isAtRisk
    ensures v.AtRisk? ==> v.tips == s.alertInfo.value.safetyRecommendations
                          && v.title == s.alertInfo.value.alertTitle
                          && v.message == s.alertInfo.value.alertMessage
    ensures v.Safe? <==> !s.pending && s.alertInfo.Some? && !s.alertInfo.value.isAtRisk && !Truthy(s.locationError)
  {
    if s.pending || s.alertInfo.None? then Loading(s.location.Some?)
    else if Truthy(s.locationError) then PermissionDenied
    else if s.alertInfo.value.isAtRisk then
      AtRisk(s.alertInfo.value.alertTitle, s.alertInfo.value.alertMessage, s.alertInfo.value.safetyRecommendations)
    else Safe
  }

  /** The second effect: the position to fetch an alert for, only when one is known. */
  function FetchRequest(s: State): (r: Option<Coordinates>)
    ensures r.Some? <==> s.location.Some?
    ensures r.Some? ==> r == s.location
  {
    s.location
  }

  datatype Event =
    | Located(at: Coordinates)          // the position callback
    | LocationFailed(message: string)   // the error callback, or no geolocation at all
    | FetchStarted                      // the fetch effect's transition begins
    | FetchSettled(result: Option<AlertInfo>)

  predicate IsGeolocation(e: Event) {
    e.Located? || e.LocationFailed?
  }

  /** One event. A fetch starts only for a known location; `null` leaves the last answer shown. */
  function Step(s: State, e: Event): (r: State)
    ensures e.FetchSettled? && s.pending && e.result.None? ==> r.alertInfo == s.alertInfo && !r.pending
    ensures e.FetchStarted? ==> (r.pending <==> s.pending || s.location.Some?)
    ensures !IsGeolocation(e) ==> r.location == s.location && r.locationError == s.locationError
  {
    match e
    case Located(at) => s.(location := Some(at), locationError := None)
    case LocationFailed(message) => s.(locationError := Some(message))
    case FetchStarted => if FetchRequest(s).Some? then s.(pending := true) else s
    case FetchSettled(result) =>
      if !s.pending then s
      else s.(alertInfo := if result.Some? then result else s.alertInfo, pending := false)
  }

  /** The state after a run of events. */
  function Run(s: State, events: seq<Event>): State
    decreases |events|
  {
    if |events| == 0 then s else Run(Step(s, events[0]), events[1..])
  }

  /**
   * The last geolocation answer of a run, if any. The geolocation effect
   * re-runs whenever `t` changes (a locale file arriving), so a run may
   * hold several answers.
   */
  function LastGeolocation(events: seq<Event>): (r: Option<Event>)
    ensures r.Some? ==> IsGeolocation(r.value) && r.value in events
    ensures r.None? <==> forall i :: 0 <= i < |events| ==> !IsGeolocation(events[i])
    decreases |events|
  {
    if |events| == 0 then None
    else
      var rest := LastGeolocation(events[1..]);
      assert forall i :: 1 <= i < |events| ==> events[i] == events[1..][i - 1];
      if rest.Some? then rest
      else if IsGeolocation(events[0]) then Some(events[0])
      else None
  }

  /** Some position callback has fired. */
  predicate EverLocated(events: seq<Event>) {
    exists i :: 0 <= i < |events| && events[i].Located?
  }

  /**
   * The error after a run is set by its last geolocation answer: cleared by
   * a position, the message of a failure; without an answer it is unchanged.
   */
  lemma {:induction false} RunError(s: State, events: seq<Event>)
    ensures Run(s, events).locationError ==
              match LastGeolocation(events)
              case None => s.locationError
              case Some(e) => if e.Located? then None else Some(e.message)
    decreases |events|
  {
    if |events| > 0 {
      RunError(Step(s, events[0]), events[1..]);
    }
  }

  /** A position is known after a run exactly when one was known before or a position callback fired. */
  lemma {:induction false} RunLocation(s: State, events: seq<Event>)
    ensures Run(s, events).location.Some? <==> s.location.Some? || EverLocated(events)
    decreases |events|
  {
    if |events| > 0 {
      RunLocation(Step(s, events[0]), events[1..]);
      assert forall i :: 1 <= i < |events| ==> events[i] == events[1..][i - 1];
      if EverLocated(events[1..]) {
        var i :| 0 <= i < |events[1..]| && events[1..][i].Located?;
        assert events[i + 1].Located?;
      }
    }
  }

  /** What every reachable state keeps: an answer or a pending fetch needs a location. */
  predicate Consistent(s: State) {
    s.alertInfo.Some? || s.pending ==> s.location.Some?
  }

  lemma {:induction false} RunConsistent(s: State, events: seq<Event>)
    requires Consistent(s)
    ensures Consistent(Run(s, events))
    decreases |events|
  {
    if |events| > 0 {
      RunConsistent(Step(s, events[0]), events[1..]);
    }
  }

  /**
   * The permission-denied view needs a position callback followed, as the
   * last geolocation answer, by a failure: only a repeated request (after
   * `t` changed) can show it.
   */
  lemma PermissionDeniedNeedsFixThenFailure(events: seq<Event>)
    ensures ViewOf(Run(Initial, events)).PermissionDenied? ==>
              && EverLocated(events)
              && LastGeolocation(events).Some? && LastGeolocation(events).value.LocationFailed?
              && LastGeolocation(events).value.message != ""
  {
    RunConsistent(Initial, events);
    RunLocation(Initial, events);
    RunError(Initial, events);
  }

  /** A position, its answer, then a failed repeat request: the permission-denied view shows. */
  lemma PermissionDeniedReachable(at: Coordinates, answer: AlertInfo, message: string)
    requires message != ""
    ensures ViewOf(Run(Initial, [Located(at), FetchStarted, FetchSettled(Some(answer)), LocationFailed(message)]))
            == PermissionDenied
  {
    var events := [Located(at), FetchStarted, FetchSettled(Some(answer)), LocationFailed(message)];
    var s1 := Step(Initial, Located(at));
    var s2 := Step(s1, FetchStarted);
    var s3 := Step(s2, FetchSettled(Some(answer)));
    var s4 := Step(s3, LocationFailed(message));
    assert s4 == State(Some(at), Some(message), Some(answer), false);
    assert events[1..] == [FetchStarted, FetchSettled(Some(answer)), LocationFailed(message)];
    assert events[1..][1..] == [FetchSettled(Some(answer)), LocationFailed(message)];
    assert events[1..][1..][1..] == [LocationFailed(message)];
    assert Run(s3, [LocationFailed(message)]) == Run(s4, []);
    assert Run(s2, events[1..][1..]) == Run(s3, [LocationFailed(message)]);
    assert Run(s1, events[1..]) == Run(s2, events[1..][1..]);
    assert Run(Initial, events) == s4;
  }
  /** Without a position the page keeps asking for the location, whatever else happens. */
  lemma {:induction false} NoPositionKeepsLoading(s: State, events: seq<Event>)
    requires s.location.None? && s.alertInfo.None? && !s.pending
    requires forall i :: 0 <= i < |events| ==> !events[i].Located?
    ensures ViewOf(Run(s, events)) == Loading(false)
    decreases |events|
  {
    if |events| > 0 {
      NoPositionKeepsLoading(Step(s, events[0]), events[1..]);
    }
  }

  /**
   * A refused first request: the error is set, yet the page keeps showing
   * "requesting location" instead of the permission-denied notice.
   */
  lemma DeniedFirstKeepsAsking(message: string)
    requires message != ""
    ensures Run(Initial, [LocationFailed(message)]).locationError == Some(message)
    ensures ViewOf(Run(Initial, [LocationFailed(message)])) == Loading(false)
  {
    assert [LocationFailed(message)][1..] == [];
  }

  /**
   * The view as evidently intended: a failed location request shows the
   * permission-denied notice, whatever else is known.
   */
  function ViewIntended(s: State): (v: View)
    ensures v.PermissionDenied? <==> Truthy(s.locationError)
    ensures !Truthy(s.locationError) ==> v == ViewOf(s)
  {
    if Truthy(s.locationError) then PermissionDenied else ViewOf(s)
  }

  /**
   * With the intended view, the notice shows exactly when the last
   * geolocation answer was a failure (with its non-empty message).
   */
  lemma DeniedShownWhenRefused(events: seq<Event>)
    ensures ViewIntended(Run(Initial, events)).PermissionDenied? <==>
              && LastGeolocation(events).Some? && LastGeolocation(events).value.LocationFailed?
              && LastGeolocation(events).value.message != ""
  {
    RunError(Initial, events);
  }
}
