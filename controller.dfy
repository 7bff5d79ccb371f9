/**
 * CurrentLocationViewController itself: the session fields are fields of the
 * object and each event handler updates them in place, branch by branch, as
 * the Swift controller does. Every handler is proved to leave the object in
 * the state the matching function of module Acquisition gives.
 */
module Controller {
  import opened Wrappers
  import opened Address
  import opened Acquisition
  import opened Display

  class CurrentLocationViewController {
    var location: Option<Fix>
    var updatingLocation: bool
    var lastLocationError: Option<LocationError>
    var placemark: Option<Placemark>
    var performingReverseGeocoding: bool
    var lastGeocodingError: bool
    // whether the controller is the location manager's delegate
    var delegateAttached: bool
    // the reverse-geocode lookups issued and not yet completed, oldest first
    var geocodeRequests: seq<Fix>
    // the strings last rendered by `updateLabels`
    var shown: Labels

    /** The object's fields as a session value. */
    function Snapshot(): (s: Session)
      reads this
    {
      Session(location, updatingLocation, lastLocationError, placemark,
              performingReverseGeocoding, lastGeocodingError, delegateAttached, geocodeRequests)
    }

    predicate Valid()
      reads this
    {
      Acquisition.Valid(Snapshot())
    }

    /** The fields' initial values, then the first `updateLabels` of `viewDidLoad`. */
    constructor (servicesEnabled: bool)
      ensures Valid() && Snapshot() == Initial
      ensures shown == LabelsFor(Initial, servicesEnabled)
    {
      location := None;
      updatingLocation := false;
      lastLocationError := None;
      placemark := None;
      performingReverseGeocoding := false;
      lastGeocodingError := false;
      delegateAttached := false;
      geocodeRequests := [];
      shown := LabelsFor(Initial, servicesEnabled);
    }

    /** `updateLabels` and `configureGetMyLocationButton`: render the current session. */
    method UpdateLabels(servicesEnabled: bool)
      modifies this`shown
      ensures shown == LabelsFor(Snapshot(), servicesEnabled)
    {
      shown := LabelsFor(Snapshot(), servicesEnabled);
    }

    /** `getMyLocationButtonTapped`; the outcome stands for the platform calls it makes. */
    method GetMyLocationButtonTapped(auth: AuthorizationStatus, servicesEnabled: bool)
      returns (outcome: TapOutcome)
      requires Valid()
      modifies this
      ensures Valid()
      ensures Snapshot() == AfterTap(old(Snapshot()), auth, servicesEnabled)
      ensures outcome == TapOutcomeOf(auth, old(updatingLocation))
      ensures shown == ShownAfter(old(Snapshot()), Tap(auth, servicesEnabled), servicesEnabled, old(shown))
    {
      if auth == NotDetermined {
        return AuthorizationRequested;
      } else if auth == Restricted || auth == AuthorizationDenied {
        return DeniedAlertShown;
      }
      if updatingLocation {
        StopLocationManager();
        outcome := Stopped;
      } else {
        location := None;
        lastLocationError := None;
        placemark := None;
        lastGeocodingError := false;
        StartLocationManager(servicesEnabled);
        outcome := Restarted;
      }
    }

    /** `locationManager(_:didFailWithError:)`. */
    method DidFailWithError(error: LocationError, servicesEnabled: bool)
      requires Valid()
      modifies this
      ensures Valid()
      ensures Snapshot() == AfterError(old(Snapshot()), error)
      ensures shown == ShownAfter(old(Snapshot()), LocationFailed(error), servicesEnabled, old(shown))
    {
      if error == LocationUnknown {
        return;
      }
      lastLocationError := Some(error);
      StopLocationManager();
      UpdateLabels(servicesEnabled);
    }

    /** `locationManager(_:didUpdateLocations:)`, including the start of a reverse geocode. */
    method DidUpdateLocations(locations: seq<Fix>, now: real, desiredAccuracy: real, servicesEnabled: bool)
      requires Valid()
      modifies this
      ensures Valid()
      ensures Snapshot() == AfterUpdates(old(Snapshot()), locations, now, desiredAccuracy)
      ensures shown == ShownAfter(old(Snapshot()), LocationsUpdated(locations, now, desiredAccuracy),
                                  servicesEnabled, old(shown))
    {
      ghost var before := Snapshot();
      ghost var event := LocationsUpdated(locations, now, desiredAccuracy);
      ghost var after := AfterUpdates(before, locations, now, desiredAccuracy);
      assert Acquisition.Valid(after);
      if |locations| == 0 {
        return;
      }
      var newLocation := locations[|locations| - 1];
      if newLocation.timestamp - now < -MaxFixAge {
        assert !Usable(locations, now);
        return;
      }
      if newLocation.horizontalAccuracy < 0.0 {
        assert !Usable(locations, now);
        return;
      }
      if location.None? || location.value.horizontalAccuracy > newLocation.horizontalAccuracy {
        location := Some(newLocation);
        lastLocationError := None;
        if newLocation.horizontalAccuracy <= desiredAccuracy {
          StopLocationManager();
        }
        assert Snapshot() == TakeFix(before, newLocation, desiredAccuracy);
        assert RenderedSession(before, event) == Some(Snapshot());
        UpdateLabels(servicesEnabled);
        assert shown == ShownAfter(before, event, servicesEnabled, old(shown));
        ghost var settled := Snapshot();
        if !performingReverseGeocoding {
          performingReverseGeocoding := true;
          geocodeRequests := geocodeRequests + [newLocation];
        }
        AfterUpdatesAccepted(before, locations, now, desiredAccuracy);
        assert Snapshot() == if settled.performingReverseGeocoding then settled
                             else settled.(performingReverseGeocoding := true,
                                           geocodeRequests := settled.geocodeRequests + [newLocation]);
      } else {
        assert !Accepted(before, locations, now);
        assert after == before;
      }
    }

    /** The completion handler passed to the reverse geocoder, run for the oldest lookup. */
    method ReverseGeocodeCompleted(placemarks: Option<seq<Placemark>>, failed: bool, servicesEnabled: bool)
      requires Valid() && performingReverseGeocoding
      modifies this
      ensures Valid()
      ensures Snapshot() == AfterGeocode(old(Snapshot()), placemarks, failed)
      ensures shown == ShownAfter(old(Snapshot()), GeocodeCompleted(placemarks, failed),
                                  servicesEnabled, old(shown))
    {
      ghost var before := Snapshot();
      lastGeocodingError := failed;
      if !failed && placemarks.Some? && |placemarks.value| > 0 {
        placemark := Some(placemarks.value[|placemarks.value| - 1]);
      } else {
        placemark := None;
      }
      performingReverseGeocoding := false;
      geocodeRequests := geocodeRequests[1..];
      assert Snapshot() == AfterGeocode(before, placemarks, failed);
      UpdateLabels(servicesEnabled);
    }

    /** `startLocationManager`. */
    method StartLocationManager(servicesEnabled: bool)
      modifies this`delegateAttached, this`updatingLocation
      ensures Snapshot() == Start(old(Snapshot()), servicesEnabled)
    {
      if servicesEnabled {
        delegateAttached := true;
        updatingLocation := true;
      }
    }

    /** `stopLocationManager`. */
    method StopLocationManager()
      modifies this`delegateAttached, this`updatingLocation
      ensures Snapshot() == Stop(old(Snapshot()))
    {
      if updatingLocation {
        delegateAttached := false;
        updatingLocation := false;
      }
    }
  }
}
