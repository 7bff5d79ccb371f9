/**
 * The location-acquisition session of CurrentLocationViewController.swift,
 * as values: the controller's mutable fields gathered into one `Session`, and
 * one function per event giving the session after that event. The class in
 * controller.dfy performs the same updates in place and is proved against
 * these functions.
 */
module Acquisition {
  import opened Wrappers
  import opened Address

  /**
   * A position fix. Coordinates and accuracy are reals rather than
   * floating-point numbers; `timestamp` is in seconds on the same clock as
   * the `now` passed to each update.
   */
  datatype Fix = Fix(latitude: real, longitude: real, horizontalAccuracy: real, timestamp: real)

  /** The platform's location errors, collapsed to what the screen tells apart. */
  datatype LocationError = LocationUnknown | Denied | Other

  /** The app's location authorisation as reported by the platform. */
  datatype AuthorizationStatus =
    | NotDetermined
    | Restricted
    | AuthorizationDenied
    | AuthorizedWhenInUse
    | AuthorizedAlways

  /** What a tap on the start/stop button did besides changing the session. */
  datatype TapOutcome =
    | AuthorizationRequested  // asked the user for when-in-use authorisation
    | DeniedAlertShown        // showed the "Location Services Disabled" alert
    | Stopped                 // stopped an ongoing acquisition
    | Restarted               // cleared the session and tried to start acquiring

  /** A fix older than this many seconds is ignored. */
  const MaxFixAge: real := 5.0

  /**
   * The controller's session fields. `delegateAttached` records whether the
   * controller is the location manager's delegate (only then are location
   * callbacks delivered to it); `geocodeRequests` records the reverse-geocode
   * lookups issued and not yet completed, oldest first.
   */
  datatype Session = Session(
    location: Option<Fix>,
    updatingLocation: bool,
    lastLocationError: Option<LocationError>,
    placemark: Option<Placemark>,
    performingReverseGeocoding: bool,
    lastGeocodingError: bool,
    delegateAttached: bool,
    geocodeRequests: seq<Fix>)

  /** The session of a freshly loaded screen. */
  const Initial: Session := Session(None, false, None, None, false, false, false, [])

  /**
   * The invariant every event preserves: at most one lookup is in flight and
   * the flag says whether there is one; the controller is the delegate exactly
   * while updating; a `LocationUnknown` error is never recorded.
   */
  predicate Valid(s: Session) {
    |s.geocodeRequests| <= 1 &&
    (s.performingReverseGeocoding <==> |s.geocodeRequests| == 1) &&
    s.delegateAttached == s.updatingLocation &&
    s.lastLocationError != Some(LocationUnknown)
  }

  lemma InitialValid()
    ensures Valid(Initial)
  {
  }

  /** `stopLocationManager`: stop updating and detach, if updating at all. */
  function Stop(s: Session): (r: Session)
    ensures !r.updatingLocation
    ensures s.updatingLocation ==> !r.delegateAttached
    ensures !s.updatingLocation ==> r == s
    ensures r.(updatingLocation := s.updatingLocation, delegateAttached := s.delegateAttached) == s
    ensures Valid(s) ==> Valid(r)
  {
    if s.updatingLocation then s.(delegateAttached := false, updatingLocation := false) else s
  }

  lemma StopIdempotent(s: Session)
    ensures Stop(Stop(s)) == Stop(s)
  {
  }

  /** `startLocationManager`: attach and start updating, only if location services are on. */
  function Start(s: Session, servicesEnabled: bool): (r: Session)
    ensures r.updatingLocation == (s.updatingLocation || servicesEnabled)
    ensures servicesEnabled ==> r.delegateAttached
    ensures !servicesEnabled ==> r == s
    ensures r.(updatingLocation := s.updatingLocation, delegateAttached := s.delegateAttached) == s
    ensures Valid(s) ==> Valid(r)
  {
    if servicesEnabled then s.(delegateAttached := true, updatingLocation := true) else s
  }

  predicate Authorized(auth: AuthorizationStatus) {
    auth == AuthorizedWhenInUse || auth == AuthorizedAlways
  }

  /** What a tap does besides changing the session. */
  function TapOutcomeOf(auth: AuthorizationStatus, updatingLocation: bool): (o: TapOutcome)
    ensures o == AuthorizationRequested <==> auth == NotDetermined
    ensures o == DeniedAlertShown <==> auth == Restricted || auth == AuthorizationDenied
    ensures o == Stopped <==> Authorized(auth) && updatingLocation
    ensures o == Restarted <==> Authorized(auth) && !updatingLocation
  {
    if auth == NotDetermined then AuthorizationRequested
    else if auth == Restricted || auth == AuthorizationDenied then DeniedAlertShown
    else if updatingLocation then Stopped
    else Restarted
  }

  /**
   * `getMyLocationButtonTapped`: without authorisation nothing changes; while
   * updating the tap only stops; otherwise the fix, both errors and the
   * placemark are cleared and updating starts if location services are on.
   */
  function AfterTap(s: Session, auth: AuthorizationStatus, servicesEnabled: bool): (r: Session)
    ensures !Authorized(auth) ==> r == s
    ensures Authorized(auth) && s.updatingLocation ==> r == Stop(s)
    ensures Authorized(auth) && !s.updatingLocation ==>
              r.location.None? && r.lastLocationError.None? && r.placemark.None? &&
              !r.lastGeocodingError && r.updatingLocation == servicesEnabled &&
              r.performingReverseGeocoding == s.performingReverseGeocoding &&
              r.geocodeRequests == s.geocodeRequests
    ensures Valid(s) ==> Valid(r)
  {
    if !Authorized(auth) then s
    else if s.updatingLocation then Stop(s)
    else
      var cleared := s.(location := None, lastLocationError := None,
                        placemark := None, lastGeocodingError := false);
      Start(cleared, servicesEnabled)
  }

  /**
   * `locationManager(_:didFailWithError:)`: a `LocationUnknown` error is
   * ignored; any other is recorded and updating stops.
   */
  function AfterError(s: Session, e: LocationError): (r: Session)
    ensures e == LocationUnknown ==> r == s
    ensures e != LocationUnknown ==>
              r.lastLocationError == Some(e) && !r.updatingLocation &&
              r.(lastLocationError := s.lastLocationError, updatingLocation := s.updatingLocation,
                 delegateAttached := s.delegateAttached) == s
    ensures Valid(s) ==> Valid(r)
  {
    if e == LocationUnknown then s
    else Stop(s.(lastLocationError := Some(e)))
  }

  /** The fix an update batch is judged by: its last one. */
  function Newest(locations: seq<Fix>): Fix
    requires |locations| > 0
  {
    locations[|locations| - 1]
  }

  /** The newest fix is recent and has a valid accuracy. */
  predicate Usable(locations: seq<Fix>, now: real) {
    |locations| > 0 &&
    !(Newest(locations).timestamp - now < -MaxFixAge) &&
    !(Newest(locations).horizontalAccuracy < 0.0)
  }

  /** `fix` replaces the current best: there is none, or it is strictly less accurate. */
  predicate Improves(s: Session, fix: Fix) {
    s.location.None? || s.location.value.horizontalAccuracy > fix.horizontalAccuracy
  }

  predicate Accepted(s: Session, locations: seq<Fix>, now: real) {
    Usable(locations, now) && Improves(s, Newest(locations))
  }

  /**
   * The session once an improving fix has been taken on and updating stopped
   * if the fix is good enough, before any lookup for it is issued.
   */
  function TakeFix(s: Session, fix: Fix, desiredAccuracy: real): (r: Session)
    ensures r.location == Some(fix) && r.lastLocationError.None?
    ensures r.updatingLocation == (s.updatingLocation && fix.horizontalAccuracy > desiredAccuracy)
    ensures r.(location := s.location, lastLocationError := s.lastLocationError,
               updatingLocation := s.updatingLocation, delegateAttached := s.delegateAttached) == s
    ensures Valid(s) ==> Valid(r)
  {
    var best := s.(location := Some(fix), lastLocationError := None);
    if fix.horizontalAccuracy <= desiredAccuracy then Stop(best) else best
  }

  /**
   * `locationManager(_:didUpdateLocations:)`: a usable, strictly better fix
   * becomes the best fix and clears the location error; updating stops if it
   * is within `desiredAccuracy`; a lookup for it is issued unless one is
   * already in flight. Anything else leaves the session as it was.
   */
  function AfterUpdates(s: Session, locations: seq<Fix>, now: real, desiredAccuracy: real): (r: Session)
    ensures r != s <==> Accepted(s, locations, now)
    ensures r.location != s.location <==> Accepted(s, locations, now)
    ensures Accepted(s, locations, now) ==>
              var fix := Newest(locations);
              r.location == Some(fix) && r.lastLocationError.None? &&
              r.updatingLocation == (s.updatingLocation && fix.horizontalAccuracy > desiredAccuracy) &&
              r.performingReverseGeocoding &&
              r.geocodeRequests == (if s.performingReverseGeocoding then s.geocodeRequests
                                    else s.geocodeRequests + [fix]) &&
              r.placemark == s.placemark && r.lastGeocodingError == s.lastGeocodingError
    ensures s.location.Some? ==>
              r.location.Some? && r.location.value.horizontalAccuracy <= s.location.value.horizontalAccuracy
    ensures Valid(s) ==> Valid(r)
  {
    if !Usable(locations, now) then s
    else
      var fix := Newest(locations);
      if !Improves(s, fix) then s
      else
        var settled := TakeFix(s, fix, desiredAccuracy);
        if settled.performingReverseGeocoding then settled
        else settled.(performingReverseGeocoding := true,
                      geocodeRequests := settled.geocodeRequests + [fix])
  }

  /** An accepted fix: taken on, then looked up unless a lookup is in flight. */
  lemma AfterUpdatesAccepted(s: Session, locations: seq<Fix>, now: real, desiredAccuracy: real)
    requires Accepted(s, locations, now)
    ensures var settled := TakeFix(s, Newest(locations), desiredAccuracy);
            AfterUpdates(s, locations, now, desiredAccuracy) ==
              if settled.performingReverseGeocoding then settled
              else settled.(performingReverseGeocoding := true,
                            geocodeRequests := settled.geocodeRequests + [Newest(locations)])
  {
  }

  /** The reverse-geocode result was a non-empty list of candidates and no error. */
  predicate GeocodeFound(placemarks: Option<seq<Placemark>>, failed: bool) {
    !failed && placemarks.Some? && |placemarks.value| > 0
  }

  /**
   * The reverse-geocode completion handler for the oldest outstanding lookup:
   * it records the error, keeps the last candidate on success (none
   * otherwise), and clears the in-flight flag whatever the outcome.
   */
  function AfterGeocode(s: Session, placemarks: Option<seq<Placemark>>, failed: bool): (r: Session)
    requires |s.geocodeRequests| > 0
    ensures r.lastGeocodingError == failed
    ensures r.placemark.Some? <==> GeocodeFound(placemarks, failed)
    ensures r.placemark.Some? ==> r.placemark.value == placemarks.value[|placemarks.value| - 1]
    ensures !r.performingReverseGeocoding
    ensures r.geocodeRequests == s.geocodeRequests[1..]
    ensures r.location == s.location && r.updatingLocation == s.updatingLocation &&
            r.lastLocationError == s.lastLocationError && r.delegateAttached == s.delegateAttached
    ensures Valid(s) ==> Valid(r)
  {
    var placemark :=
      if GeocodeFound(placemarks, failed) then Some(placemarks.value[|placemarks.value| - 1]) else None;
    s.(lastGeocodingError := failed, placemark := placemark,
       performingReverseGeocoding := false, geocodeRequests := s.geocodeRequests[1..])
  }

  /** One event delivered to the controller. */
  datatype Event =
    | Tap(auth: AuthorizationStatus, servicesEnabled: bool)
    | LocationsUpdated(locations: seq<Fix>, now: real, desiredAccuracy: real)
    | LocationFailed(error: LocationError)
    | GeocodeCompleted(placemarks: Option<seq<Placemark>>, failed: bool)

  /**
   * Whether the event reaches the controller: location callbacks only while
   * it is the location manager's delegate, a completion handler only for an
   * outstanding lookup, a tap always.
   */
  predicate Delivered(s: Session, e: Event) {
    match e
    case Tap(_, _) => true
    case LocationsUpdated(_, _, _) => s.delegateAttached
    case LocationFailed(_) => s.delegateAttached
    case GeocodeCompleted(_, _) => |s.geocodeRequests| > 0
  }
}
