/**
 * The text the screen renders for a session (`updateLabels` and
 * `configureGetMyLocationButton`): the choice of strings only, not the
 * labels, the threading or the coordinate formatting.
 */
module Display {
  import opened Wrappers
  import opened Address
  import opened Acquisition

  const SearchingForAddress: string := "Searching for Address..."
  const ErrorFindingAddress: string := "Error Finding Address"
  const NoAddressFound: string := "No Address Found"

  const LocationServicesDisabled: string := "Location Services Disabled"
  const ErrorGettingLocation: string := "Error Getting Location"
  const Searching: string := "Searching..."
  const TapToStart: string := "Tap 'Get My Location' to Start"

  const StopTitle: string := "Stop"
  const GetMyLocationTitle: string := "Get My Location"

  /** A formatted address never reads as one of the lookup notes. */
  lemma AddressNotAStatusPhrase(p: Placemark)
    ensures '\n' !in SearchingForAddress && '\n' !in ErrorFindingAddress && '\n' !in NoAddressFound
    ensures '\n' in FormatAddress(p)
  {
  }

  /**
   * The address shown beside a fix: the formatted placemark, else a note on
   * the lookup (running, failed, or found nothing). Only a formatted
   * placemark contains a line break, so the text tells which case holds.
   */
  function AddressText(s: Session): (r: string)
    ensures '\n' in r <==> s.placemark.Some?
    ensures s.placemark.Some? ==> r == FormatAddress(s.placemark.value)
    ensures r == SearchingForAddress <==> s.placemark.None? && s.performingReverseGeocoding
    ensures r == ErrorFindingAddress <==>
              s.placemark.None? && !s.performingReverseGeocoding && s.lastGeocodingError
    ensures r == NoAddressFound <==>
              s.placemark.None? && !s.performingReverseGeocoding && !s.lastGeocodingError
  {
    if s.placemark.Some? then
      AddressNotAStatusPhrase(s.placemark.value);
      FormatAddress(s.placemark.value)
    else if s.performingReverseGeocoding then SearchingForAddress
    else if s.lastGeocodingError then ErrorFindingAddress
    else NoAddressFound
  }

  /**
   * The status message shown while there is no fix. A recorded error wins
   * over the state of location services, which wins over whether updating.
   */
  function StatusMessage(s: Session, servicesEnabled: bool): (r: string)
    ensures r != ""
    ensures r == LocationServicesDisabled <==>
              s.lastLocationError == Some(Denied) || (s.lastLocationError.None? && !servicesEnabled)
    ensures r == ErrorGettingLocation <==> s.lastLocationError.Some? && s.lastLocationError.value != Denied
    ensures r == Searching <==> s.lastLocationError.None? && servicesEnabled && s.updatingLocation
    ensures r == TapToStart <==> s.lastLocationError.None? && servicesEnabled && !s.updatingLocation
  {
    if s.lastLocationError.Some? then
      if s.lastLocationError.value == Denied then LocationServicesDisabled else ErrorGettingLocation
    else if !servicesEnabled then LocationServicesDisabled
    else if s.updatingLocation then Searching
    else TapToStart
  }

  /** The start/stop button's title. */
  function ButtonTitle(updatingLocation: bool): (r: string)
    ensures r == StopTitle <==> updatingLocation
    ensures r == GetMyLocationTitle <==> !updatingLocation
  {
    if updatingLocation then StopTitle else GetMyLocationTitle
  }

  /** The strings on screen: message label, address label, button title. */
  datatype Labels = Labels(message: string, address: string, button: string)

  /** What `updateLabels` renders for a session. */
  function LabelsFor(s: Session, servicesEnabled: bool): (l: Labels)
    ensures l.message == "" <==> s.location.Some?
    ensures s.location.Some? ==> l.address == AddressText(s)
    ensures s.location.None? ==> l.address == "" && l.message == StatusMessage(s, servicesEnabled)
    ensures l.button == StopTitle <==> s.updatingLocation
    ensures l.button == GetMyLocationTitle <==> !s.updatingLocation
  {
    var button := ButtonTitle(s.updatingLocation);
    if s.location.Some? then Labels("", AddressText(s), button)
    else Labels(StatusMessage(s, servicesEnabled), "", button)
  }

  /**
   * The session `updateLabels` renders while handling an event, if it is
   * called at all: after a recorded location error (line 67); after an
   * accepted fix, once updating may have stopped but before its lookup is
   * issued (line 90); after a completed lookup (line 105). A tap, a
   * `LocationUnknown` error and an ignored batch refresh nothing.
   */
  function RenderedSession(s: Session, e: Event): (r: Option<Session>)
    requires e.GeocodeCompleted? ==> |s.geocodeRequests| > 0
    ensures e.Tap? ==> r.None?
    ensures e.LocationFailed? ==>
              if e.error == LocationUnknown then r.None? else r == Some(AfterError(s, e.error))
    ensures e.LocationsUpdated? ==> (r.Some? <==> Accepted(s, e.locations, e.now))
    ensures e.LocationsUpdated? && r.Some? ==>
              r.value == AfterUpdates(s, e.locations, e.now, e.desiredAccuracy)
                           .(performingReverseGeocoding := s.performingReverseGeocoding,
                             geocodeRequests := s.geocodeRequests)
    ensures e.GeocodeCompleted? ==> r == Some(AfterGeocode(s, e.placemarks, e.failed))
  {
    match e
    case Tap(_, _) => None
    case LocationFailed(error) => if error == LocationUnknown then None else Some(AfterError(s, error))
    case LocationsUpdated(locations, now, desired) =>
      if Accepted(s, locations, now) then Some(TakeFix(s, Newest(locations), desired)) else None
    case GeocodeCompleted(placemarks, failed) => Some(AfterGeocode(s, placemarks, failed))
  }

  /** The labels on screen after handling an event: refreshed, or as they were. */
  function ShownAfter(s: Session, e: Event, servicesEnabled: bool, shown: Labels): Labels
    requires e.GeocodeCompleted? ==> |s.geocodeRequests| > 0
  {
    var rendered := RenderedSession(s, e);
    if rendered.Some? then LabelsFor(rendered.value, servicesEnabled) else shown
  }
}
