# MyLocations: the current-location screen's acquisition logic

This project models the logic inside `CurrentLocationViewController` of the
MyLocations iOS app. The controller asks the platform for position fixes. It
keeps the most accurate recent one and stops once that fix is good enough. It
reverse-geocodes accepted fixes into a placemark, with at most one lookup in
flight at a time. It then chooses the status, address and button strings the
screen shows.

Modules:

- `Acquisition`: the controller's session fields as a `Session` value, and
  one function per event giving the session after it: `AfterTap`,
  `AfterUpdates`, `AfterError`, `AfterGeocode`, `Start` and `Stop`. Their
  contracts state the acceptance, stopping and geocoding rules. They also
  state that the invariant `Valid` is preserved: at most one lookup is
  outstanding, `performingReverseGeocoding` says whether one is, and the
  controller is the location manager's delegate exactly while updating.
- `Controller`: the class `CurrentLocationViewController`. Its fields are
  those session fields and its methods update them in place, branch by
  branch. Each method is proved to reach the state the matching
  `Acquisition` function gives.
- `Address`: the `Placemark` datatype and `FormatAddress`, the two-line
  text built by `string(from:)`, with the exactly-one-line-break property
  and a splitter that reads both lines back.
- `Display`: the address text, the status message and the button title
  chosen by `updateLabels` and `configureGetMyLocationButton`, and which
  session each handler renders.
- `Traces`: any interleaving of taps, location callbacks and geocode
  completions. Along every run, at most one lookup is in flight, the best
  fix only improves between taps, and a stopped session takes on no fix
  until the next tap. A `Screen` pairs the session with the labels last
  rendered for it.

Inputs the Swift code reads from the platform are parameters here:
- the authorisation status and `locationServicesEnabled()`;
- the current time (`now`), so a fix is stale when
  `timestamp - now < -5`, as at line 74;
- the location manager's `desiredAccuracy`.

Platform errors are the enum `LocationUnknown | Denied | Other`. A geocoding
error is a flag. The geocoder's outstanding lookups are the field
`geocodeRequests`: lines 94-96 set the flag and issue the lookup, which the
model records by appending the fix sent; the completion handler removes it.

The model keeps the code's gap at line 92. A better fix that arrives while a
lookup is running becomes the best fix but is never looked up. The running
lookup's address is then shown beside it (`Traces.GeocodeGapScenario`).
The lookup at line 96 is issued for the first accepted fix. With fixes of
accuracy 50 and then 10, it is the accuracy-50 fix that is looked up. When
there is a recorded location error, the status message is chosen from it
alone (lines 139-144): a non-denial error shows "Error Getting Location"
even when location services are off.

`updateLabels` is called only at four points: when the screen loads
(line 35), after a recorded location error (line 67), after an accepted
fix but before its lookup is issued (line 90), and after a completed lookup
(line 105). The rendered labels therefore lag the session. A tap renders
nothing, so after a stop tap the button still reads "Stop"
(`Traces.StopTapLeavesStopTitle`). The first accepted fix is rendered with
"No Address Found" while its lookup runs
(`Traces.FirstFixShowsNoAddressFound`).

## Model

| member | source | states |
|---|---|---|
| `Acquisition.InitialValid` | MyLocations/CurrentLocationViewController.swift:22-29 | The fields' initial values (no fix, not updating, no errors, no lookup) satisfy the session invariant |
| `Acquisition.Stop` | MyLocations/CurrentLocationViewController.swift:173-179 | Afterwards not updating; if it was updating, the delegate is detached; if it was not, nothing changes; no other field ever changes; the invariant is kept |
| `Acquisition.StopIdempotent` | MyLocations/CurrentLocationViewController.swift:173-179 | Stopping twice is the same as stopping once |
| `Acquisition.Start` | MyLocations/CurrentLocationViewController.swift:164-171 | Updating afterwards exactly when it was already updating or services are enabled; with services off nothing changes; no other field changes |
| `Acquisition.TapOutcomeOf` | MyLocations/CurrentLocationViewController.swift:38-57 | The tap asks for authorisation exactly when it is not determined, shows the denied alert exactly when restricted or denied, stops exactly when authorised and updating, and restarts exactly when authorised and idle |
| `Acquisition.AfterTap` | MyLocations/CurrentLocationViewController.swift:38-57 | Without authorisation no session field changes; authorised and updating, the tap is a stop; authorised and idle, the fix, both errors and the placemark are cleared, updating becomes true only if services are enabled, and the lookup state is untouched; the invariant is kept |
| `Acquisition.AfterError` | MyLocations/CurrentLocationViewController.swift:59-68 | `LocationUnknown` changes nothing; any other error is recorded and updating stops, with fix, placemark and lookup state untouched; the invariant is kept |
| `Acquisition.TakeFix` | MyLocations/CurrentLocationViewController.swift:82-89 | The improving fix becomes the best fix and the location error is cleared; updating continues only if it was updating and the fix's accuracy exceeds the desired accuracy; the other fields are untouched; the invariant is kept |
| `Acquisition.AfterUpdates` | MyLocations/CurrentLocationViewController.swift:70-109 | The session changes if and only if the batch is non-empty, its last fix is at most 5 seconds old with non-negative accuracy, and there is no fix or the old one is strictly less accurate; then that fix becomes the best fix, the location error is cleared, updating continues only if its accuracy exceeds the desired accuracy, and a lookup for it is issued only if none is in flight; the best fix never becomes less accurate; the invariant is kept |
| `Acquisition.AfterGeocode` | MyLocations/CurrentLocationViewController.swift:96-106 | The error is recorded; the placemark is set if and only if there was no error and a non-empty list, and then it is the list's last element; the in-flight flag is cleared and the oldest lookup removed whatever the outcome; fix, updating and location error are untouched |
| `Controller.CurrentLocationViewController.constructor` | MyLocations/CurrentLocationViewController.swift:22-35 | A new controller holds the initial session and shows the labels for it |
| `Controller.CurrentLocationViewController.UpdateLabels` | MyLocations/CurrentLocationViewController.swift:118-161 | The shown labels become `LabelsFor` of the current session |
| `Controller.CurrentLocationViewController.GetMyLocationButtonTapped` | MyLocations/CurrentLocationViewController.swift:38-57 | Updates the fields in place to `AfterTap` of the old state, returns `TapOutcomeOf`, and leaves the shown labels as they were |
| `Controller.CurrentLocationViewController.DidFailWithError` | MyLocations/CurrentLocationViewController.swift:59-68 | Updates the fields in place to `AfterError` of the old state; for a recorded error the labels show the new session |
| `Controller.CurrentLocationViewController.DidUpdateLocations` | MyLocations/CurrentLocationViewController.swift:70-96 | Updates the fields in place to `AfterUpdates` of the old state, including issuing the lookup; for an accepted fix the labels show the session before the lookup is issued |
| `Controller.CurrentLocationViewController.ReverseGeocodeCompleted` | MyLocations/CurrentLocationViewController.swift:96-106 | Runs only while a lookup is in flight; updates the fields in place to `AfterGeocode` of the old state and the labels show the new session |
| `Controller.CurrentLocationViewController.StartLocationManager` | MyLocations/CurrentLocationViewController.swift:164-171 | Updates the fields in place to `Start` of the old state |
| `Controller.CurrentLocationViewController.StopLocationManager` | MyLocations/CurrentLocationViewController.swift:173-179 | Updates the fields in place to `Stop` of the old state |
| `Address.Line1` | MyLocations/CurrentLocationViewController.swift:190-198 | Starts with the house number and a space when there is one, ends with the street when there is one, and has exactly the length of those two parts, so it is exactly that; it is just the street (or empty) without a house number |
| `Address.Line2` | MyLocations/CurrentLocationViewController.swift:200-214 | Starts with the city and a space when there is a city, else with the state and a space when there is one; ends with the postal code when there is one; has exactly the length of those parts, so it is exactly that; is just the postal code (or empty) without city and state |
| `Address.FormatAddress` | MyLocations/CurrentLocationViewController.swift:189-217 | The text starts with line 1 and a line break, ends with line 2, and is exactly as long as both plus the break; it starts with the house number and a space when there is one, and ends with the postal code when there is one |
| `Address.FormatAddressHasOneNewline` | MyLocations/CurrentLocationViewController.swift:189-216 | When no component contains a line break, the text contains exactly one |
| `Address.FormatAddressSplits` | MyLocations/CurrentLocationViewController.swift:189-216 | When the house number and street contain no line break, splitting the text at its first line break gives back line 1 and line 2 |
| `Address.LocalityShadowsAdministrativeArea` | MyLocations/CurrentLocationViewController.swift:202-210 | With a city present, the state or province does not affect the text |
| `Display.AddressText` | MyLocations/CurrentLocationViewController.swift:119-129 | The formatted placemark when there is one, else "Searching for Address..." exactly while a lookup is running, else "Error Finding Address" exactly when the lookup failed, else "No Address Found"; it contains a line break if and only if there is a placemark |
| `Display.StatusMessage` | MyLocations/CurrentLocationViewController.swift:137-151 | "Location Services Disabled" exactly for a denial error or, with no error, services off; "Error Getting Location" exactly for any other error; "Searching..." exactly with no error, services on and updating; the tap prompt exactly with no error, services on and idle |
| `Display.RenderedSession` | MyLocations/CurrentLocationViewController.swift:59-109 | A tap, a `LocationUnknown` error and an ignored batch render nothing; a recorded error and a completed lookup render the new session; an accepted fix renders the new session with the lookup state from before the lookup is issued |
| `Display.ButtonTitle` | MyLocations/CurrentLocationViewController.swift:181-187 | The title is "Stop" exactly when updating and "Get My Location" exactly when not |
| `Display.LabelsFor` | MyLocations/CurrentLocationViewController.swift:118-161 | The message is empty exactly when there is a fix; with a fix the address label shows the address text, without one it is empty and the message is the status message; the button says "Stop" exactly when updating and "Get My Location" exactly when not |
| `Traces.Step` | MyLocations/CurrentLocationViewController.swift:38-109 | Every event keeps the invariant; no event but a tap makes the best fix worse or removes it; while stopped, no event but a tap restarts updating or changes the fix or location error |
| `Traces.RunPreservesValid` | MyLocations/CurrentLocationViewController.swift:92-104 | Every run from a valid session ends in a valid session |
| `Traces.AtMostOneLookupInFlight` | MyLocations/CurrentLocationViewController.swift:92-104 | After any run from a new screen, at most one lookup is outstanding and `performingReverseGeocoding` is true exactly when one is |
| `Traces.BestFixNeverWorsens` | MyLocations/CurrentLocationViewController.swift:82-89 | Along a run without taps the best fix stays present and its accuracy never increases |
| `Traces.StoppedSessionKeepsFix` | MyLocations/CurrentLocationViewController.swift:173-179 | Once updating has stopped, a run without taps keeps it stopped and keeps the fix and location error |
| `Traces.GeocodeGapScenario` | MyLocations/CurrentLocationViewController.swift:82-106 | Fixes of accuracy 50 then 10 before the lookup completes: the 10 becomes the best fix, only the 50 is looked up, and its placemark is then shown for the 10 |
| `Traces.ScreenStep` | MyLocations/CurrentLocationViewController.swift:38-109 | The session steps as `Step`; the labels stay as they were for a tap, an undelivered event, a `LocationUnknown` error or an ignored batch; they show the new session after a recorded error or a completed lookup; after any delivered callback they are `ShownAfter` of it, so an accepted fix shows the session before its lookup is issued |
| `Traces.StopTapLeavesStopTitle` | MyLocations/CurrentLocationViewController.swift:38-57 | After a stop tap the button still reads "Stop" although updating has stopped |
| `Traces.FirstFixShowsNoAddressFound` | MyLocations/CurrentLocationViewController.swift:82-95 | The first accepted fix, with no earlier lookup, is shown with "No Address Found" while its lookup is in flight |
| `Traces.LastCandidateScenario` | MyLocations/CurrentLocationViewController.swift:99-100 | A lookup returning a city-with-postal-code candidate then a region-only candidate keeps the region, shown as "\nÎle-de-France " |

## Left out

- The outlets, label and button assignments, `tagButton.isHidden` and the `DispatchQueue.main.async` dispatch: only the strings chosen are modelled (`Display`).
- The latitude and longitude labels' `%.8f` formatting: floating-point text formatting.
- `showLocationServicesDeniedAlert` and `requestWhenInUseAuthorization`: platform UI and platform calls, recorded only as the `TapOutcome` a tap returns.
- The `CLLocationManager` and `CLGeocoder` calls themselves: starting and stopping updates is the `updatingLocation` and `delegateAttached` fields, and issuing a lookup is appending to `geocodeRequests`.
- `kCLLocationAccuracyBest`: a platform constant not visible in this code, so the desired accuracy is a parameter of each update.
- Floating point: coordinates, accuracy and time are reals, so rounding is not modelled.
- The wall clock: the current time is a parameter of each update.
- `NSError` domains and codes: collapsed into `LocationError`; a geocoding error is a flag.
- The `[weak self]` guard: the controller is assumed to outlive its lookups.
- `viewDidLoad` apart from its `updateLabels` call (line 35): it only wires the button's action.
- `print` logging.
- Swift's grapheme clusters: strings here are sequences of Unicode scalars, so the lengths in `Address.Line1`, `Address.Line2` and `Address.FormatAddress` and the line-break count in `Address.FormatAddressHasOneNewline` count scalars; a component ending in "\r" would merge with the added "\n" into one Swift character.
