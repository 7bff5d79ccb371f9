/**
 * Runs of the controller: any interleaving of taps, location callbacks and
 * geocode completions, and what holds along every such run.
 */
module Traces {
  import opened Wrappers
  import opened Address
  import opened Acquisition
  import opened Display

  /**
   * The session after one event. Location callbacks reach the controller
   * only while it is the location manager's delegate, and a completion
   * handler exists only for an outstanding lookup; other events pass it by.
   */
  function Step(s: Session, e: Event): (r: Session)
    ensures Valid(s) ==> Valid(r)
    ensures !e.Tap? && s.location.Some? ==>
              r.location.Some? && r.location.value.horizontalAccuracy <= s.location.value.horizontalAccuracy
    ensures Valid(s) && !s.updatingLocation && !e.Tap? ==>
              !r.updatingLocation && r.location == s.location && r.lastLocationError == s.lastLocationError
  {
    if !Delivered(s, e) then s
    else
      match e
      case Tap(auth, enabled) => AfterTap(s, auth, enabled)
      case LocationsUpdated(locations, now, desired) => AfterUpdates(s, locations, now, desired)
      case LocationFailed(error) => AfterError(s, error)
      case GeocodeCompleted(placemarks, failed) => AfterGeocode(s, placemarks, failed)
  }

  function Run(s: Session, events: seq<Event>): Session
    decreases |events|
  {
    if events == [] then s else Run(Step(s, events[0]), events[1..])
  }

  predicate NoTaps(events: seq<Event>) {
    forall i :: 0 <= i < |events| ==> !events[i].Tap?
  }

  lemma {:induction false} RunPreservesValid(s: Session, events: seq<Event>)
    requires Valid(s)
    ensures Valid(Run(s, events))
    decreases |events|
  {
    if events != [] {
      RunPreservesValid(Step(s, events[0]), events[1..]);
    }
  }

  /**
   * At most one reverse geocode is ever in flight, and the flag says whether
   * one is, after any sequence of events from a freshly loaded screen.
   */
  lemma AtMostOneLookupInFlight(events: seq<Event>)
    ensures |Run(Initial, events).geocodeRequests| <= 1
    ensures Run(Initial, events).performingReverseGeocoding <==> |Run(Initial, events).geocodeRequests| == 1
  {
    RunPreservesValid(Initial, events);
  }

  /** Between taps the best fix is kept and only ever becomes more accurate. */
  lemma {:induction false} BestFixNeverWorsens(s: Session, events: seq<Event>)
    requires s.location.Some? && NoTaps(events)
    ensures Run(s, events).location.Some?
    ensures Run(s, events).location.value.horizontalAccuracy <= s.location.value.horizontalAccuracy
    decreases |events|
  {
    if events != [] {
      assert !events[0].Tap?;
      BestFixNeverWorsens(Step(s, events[0]), events[1..]);
    }
  }

  /**
   * Once updating has stopped (a good-enough fix, an error or a stop tap),
   * no fix and no location error is taken on until the next tap.
   */
  lemma {:induction false} StoppedSessionKeepsFix(s: Session, events: seq<Event>)
    requires Valid(s) && !s.updatingLocation && NoTaps(events)
    ensures !Run(s, events).updatingLocation
    ensures Run(s, events).location == s.location
    ensures Run(s, events).lastLocationError == s.lastLocationError
    decreases |events|
  {
    if events != [] {
      assert !events[0].Tap?;
      StoppedSessionKeepsFix(Step(s, events[0]), events[1..]);
    }
  }

  /**
   * A fix of accuracy 50 starts a lookup; a better fix of accuracy 10 that
   * arrives before it completes becomes the best fix but is never looked up,
   * and the completed lookup's address is then shown beside it.
   */
  lemma GeocodeGapScenario(candidate: Placemark)
    ensures
      var coarse := Fix(1.0, 2.0, 50.0, 0.0);
      var fine := Fix(1.0, 2.0, 10.0, 0.0);
      var started := Run(Initial, [Tap(AuthorizedWhenInUse, true),
                                   LocationsUpdated([coarse], 0.0, 5.0),
                                   LocationsUpdated([fine], 0.0, 5.0)]);
      var done := Step(started, GeocodeCompleted(Some([candidate]), false));
      started.location == Some(fine) && started.geocodeRequests == [coarse] &&
      done.location == Some(fine) && done.placemark == Some(candidate) &&
      done.geocodeRequests == [] && !done.performingReverseGeocoding
  {
    var coarse := Fix(1.0, 2.0, 50.0, 0.0);
    var fine := Fix(1.0, 2.0, 10.0, 0.0);
    var s1 := Step(Initial, Tap(AuthorizedWhenInUse, true));
    var s2 := Step(s1, LocationsUpdated([coarse], 0.0, 5.0));
    var s3 := Step(s2, LocationsUpdated([fine], 0.0, 5.0));
    assert s2.geocodeRequests == [coarse];
    assert s3.location == Some(fine) && s3.geocodeRequests == [coarse];
    var es := [Tap(AuthorizedWhenInUse, true),
               LocationsUpdated([coarse], 0.0, 5.0),
               LocationsUpdated([fine], 0.0, 5.0)];
    assert Run(Initial, es) == Run(s1, es[1..]) == Run(s2, es[2..]) == Run(s3, []);
  }

  /**
   * Two candidates come back, a city with a postal code and then a region
   * alone: the last is kept and the address reads as an empty first line
   * and the region followed by a space.
   */
  lemma LastCandidateScenario(s: Session)
    requires s.location.Some? && |s.geocodeRequests| > 0
    ensures
      var paris := Placemark(None, None, Some("Paris"), None, Some("75001"));
      var region := Placemark(None, None, None, Some("Île-de-France"), None);
      var done := Step(s, GeocodeCompleted(Some([paris, region]), false));
      done.placemark == Some(region) &&
      LabelsFor(done, true).address == "\nÎle-de-France "
  {
    var paris := Placemark(None, None, Some("Paris"), None, Some("75001"));
    var region := Placemark(None, None, None, Some("Île-de-France"), None);
    var done := Step(s, GeocodeCompleted(Some([paris, region]), false));
    assert done == AfterGeocode(s, Some([paris, region]), false);
    assert done.placemark == Some(region) && done.location.Some?;
    assert Line1(region) == "" && Line2(region) == "Île-de-France ";
    assert AddressText(done) == FormatAddress(region) == "\nÎle-de-France ";
  }

  /** The session together with the labels last rendered for it. */
  datatype Screen = Screen(session: Session, shown: Labels)

  /** One event on the screen: the session steps, the labels refresh only where the handler renders. */
  function ScreenStep(sc: Screen, e: Event, servicesEnabled: bool): (r: Screen)
    ensures r.session == Step(sc.session, e)
    ensures !Delivered(sc.session, e) || e.Tap? ==> r.shown == sc.shown
    ensures Delivered(sc.session, e) && (e.GeocodeCompleted? || (e.LocationFailed? && e.error != LocationUnknown)) ==>
              r.shown == LabelsFor(r.session, servicesEnabled)
    ensures Delivered(sc.session, e) && !e.Tap? ==> r.shown == ShownAfter(sc.session, e, servicesEnabled, sc.shown)
    ensures Delivered(sc.session, e) && e.LocationFailed? && e.error == LocationUnknown ==> r.shown == sc.shown
    ensures Delivered(sc.session, e) && e.LocationsUpdated? ==>
              (r.shown == sc.shown || Accepted(sc.session, e.locations, e.now))
  {
    var s := sc.session;
    Screen(Step(s, e), if Delivered(s, e) then ShownAfter(s, e, servicesEnabled, sc.shown) else sc.shown)
  }

  /**
   * A stop tap renders nothing: the button still reads "Stop" although
   * updating has stopped and the session's own title is "Get My Location".
   */
  lemma StopTapLeavesStopTitle(sc: Screen, auth: AuthorizationStatus, servicesEnabled: bool)
    requires Authorized(auth) && sc.session.updatingLocation && sc.shown.button == StopTitle
    ensures
      var r := ScreenStep(sc, Tap(auth, servicesEnabled), servicesEnabled);
      r.shown.button == StopTitle && !r.session.updatingLocation &&
      LabelsFor(r.session, servicesEnabled).button == GetMyLocationTitle
  {
  }

  /**
   * The first accepted fix is rendered before its lookup is issued, so the
   * screen shows "No Address Found" while the lookup it has just started runs.
   */
  lemma FirstFixShowsNoAddressFound(sc: Screen, locations: seq<Fix>, now: real, desiredAccuracy: real,
                                    servicesEnabled: bool)
    requires Valid(sc.session) && sc.session.delegateAttached
    requires sc.session.placemark.None? && !sc.session.performingReverseGeocoding &&
             !sc.session.lastGeocodingError
    requires Accepted(sc.session, locations, now)
    ensures
      var r := ScreenStep(sc, LocationsUpdated(locations, now, desiredAccuracy), servicesEnabled);
      r.shown.address == NoAddressFound && r.session.performingReverseGeocoding &&
      LabelsFor(r.session, servicesEnabled).address == SearchingForAddress
  {
    var s := sc.session;
    var e := LocationsUpdated(locations, now, desiredAccuracy);
    var rendered := TakeFix(s, Newest(locations), desiredAccuracy);
    assert RenderedSession(s, e) == Some(rendered);
    assert rendered.location.Some? && rendered.placemark.None?;
    assert !rendered.performingReverseGeocoding && !rendered.lastGeocodingError;
  }
}
