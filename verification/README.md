# Weather component — Dafny model

This project models the logic of the weather app's single React component,
`Weather`. It covers three parts:

- **Daily-forecast reducer** (`DailyForecast`, forecast.dfy). The component walks the
  provider's 3-hour forecast list in order. It keeps the first entry it sees for
  each calendar date and then keeps at most five of them. The calendar date of a
  timestamp is abstracted as an arbitrary function `day: int -> K`. The "seen"
  object of the source becomes a `set<K>` carried through the recursive walk
  `Collect`. `GetDailyForecasts` is the component's `forEach` loop and is proved
  equal to the recursive definition.
- **Unit conversion** (`Units`, units.dfy). Celsius to Fahrenheit and back, over exact
  reals.
- **Component state and handlers** (`Session`, session.dfy). The state is the tuple
  (weather payload or null, forecast payload or null, `isCelsius`, `loading`,
  `error`). The search handler, the location handler and the unit switch are
  pure transitions. The outcome of each provider request is a parameter
  (`Received(data)` or `Failed`), and so is the geolocation capability's outcome
  (`Unsupported`, `Denied`, or a position). Each awaiting handler is split into
  the state it sets before its first request (`StartSearch`,
  `StartGeoLocation`) and the state once its requests settle (`Search`,
  `GeoLocation`). `Run` folds a sequence of user actions over the state.

In these details the model follows the code as written:

- Only the exact empty query is ignored. A query of blanks starts a fetch
  (`BlankQueryStartsFetch`).
- Starting a fetch and a failed fetch both leave the forecast payload in place.
  Only the current-conditions payload is cleared.
- The position request passes only a success callback. So a denied request
  leaves the component loading, with no error text. The geolocation message
  appears only when the capability is missing.
- A new successful fetch does not reset the unit flag (see Findings).

## Model

| member | source | states |
|---|---|---|
| DailyForecast.FirstIndex | src/Components/weather.jsx:83-86 | the position of the first feed entry on a given day: no earlier entry is on that day, and it is in range exactly when the day occurs in the feed |
| DailyForecast.Collect | src/Components/weather.jsx:79-88 | the seen-set walk keeps no day already seen, never keeps two entries of one day, and keeps every day of the feed not yet seen |
| DailyForecast.CollectKeepsFirsts | src/Components/weather.jsx:82-87 | every kept entry is the first feed entry of its day, and kept days are in order of first appearance in the feed |
| DailyForecast.CollectIsFirsts | src/Components/weather.jsx:80-88 | the walk over a suffix, seeded with the days of the prefix, equals the seen-set-free reference that keeps exactly the first-of-day entries |
| DailyForecast.Daily | src/Components/weather.jsx:78-91 | the result has at most 5 entries, its length is min(number of distinct days, 5), and it is a prefix of the untruncated walk |
| DailyForecast.DailyIsFirstsOfDay | src/Components/weather.jsx:78-91 | the result is the first min(k, 5) first-of-day entries of the feed, in feed order, where k is their number |
| DailyForecast.DailyIsSubsequence | src/Components/weather.jsx:82-90 | every returned entry is a feed entry and feed order is preserved (a strictly increasing index embedding exists) |
| DailyForecast.DailyFirstOfEachDay | src/Components/weather.jsx:83-86 | returned entries have pairwise-distinct days, and each is a feed entry with no earlier feed entry on its day |
| DailyForecast.DailyKeepsEarliestDays | src/Components/weather.jsx:82-90 | a feed day is left out only when 5 entries were returned, and it first appears after every returned day |
| DailyForecast.GetDailyForecasts | src/Components/weather.jsx:78-91 | the forEach loop with a seen map followed by slice(0, 5) computes the recursive reducer |
| DailyForecast.FirstOfDayWinsExample | src/Components/weather.jsx:78-91 | three entries of one day and one of the next reduce to the first entry of each day |
| Units.ToFahrenheit | src/Components/weather.jsx:93 | Celsius to Fahrenheit; converting the result back to Celsius gives the input |
| Units.ToCelsius | src/Components/weather.jsx:94 | Fahrenheit to Celsius; converting the result back to Fahrenheit gives the input |
| Units.CelsiusRoundTrip | src/Components/weather.jsx:93-94 | converting Celsius to Fahrenheit and back is the identity |
| Units.FahrenheitRoundTrip | src/Components/weather.jsx:93-94 | converting Fahrenheit to Celsius and back is the identity |
| Units.ConversionsPreserveOrder | src/Components/weather.jsx:93-94 | both conversions are strictly increasing, in both directions of the iff |
| Units.ConversionReferencePoints | src/Components/weather.jsx:93-94 | 0 C is 32 F, 100 C is 212 F, and -40 is the only value either conversion leaves unchanged |
| Session.BeginFetch | src/Components/weather.jsx:19-21 | a started fetch is loading with no error and no current conditions, keeps the forecast payload and unit flag, and is consistent |
| Session.FinishFetch | src/Components/weather.jsx:23-40 | a settled fetch is not loading and keeps the unit flag; success stores both payloads with the error unchanged; failure of either request sets the invalid-city message and touches neither payload; consistency is kept |
| Session.StartSearch | src/Components/weather.jsx:16-21 | the empty query changes nothing; any other query enters loading with no error and no current conditions, keeping the forecast payload and unit flag |
| Session.Search | src/Components/weather.jsx:16-41 | after the requests settle, loading is off; success stores both payloads with no error; any failure leaves no current conditions, the old forecast payload and the invalid-city message |
| Session.StartGeoLocation | src/Components/weather.jsx:47-75 | without the capability only the error becomes the geolocation message; otherwise the fetch starts as for a search; the unit flag is never changed |
| Session.GeoLocation | src/Components/weather.jsx:47-76 | unsupported sets only the error; a denied position leaves the component loading; a located fetch ends loading; the forecast payload changes only on a located success; the unit flag is never changed |
| Session.GeoLocationIsSearch | src/Components/weather.jsx:47-76 | a located request settles to exactly the state a search by any non-empty name settles to |
| Session.SwitchUnit | src/Components/weather.jsx:96-107 | without current conditions nothing changes; otherwise the flag flips, only the temperature field changes, and the temperature it denotes in Celsius is unchanged |
| Session.SwitchUnitTwice | src/Components/weather.jsx:96-106 | switching twice restores the original temperature and flag |
| Session.StepKeepsConsistent | src/Components/weather.jsx:16-107 | every handler keeps the invariant: current conditions imply a forecast payload, and loading implies no current conditions |
| Session.RunKeepsConsistent | src/Components/weather.jsx:16-107 | the invariant holds after any sequence of user actions from a consistent state |
| Session.ReachableIsConsistent | src/Components/weather.jsx:7-11 | every state reachable from the initial state is consistent |
| Session.BlankQueryStartsFetch | src/Components/weather.jsx:17-21 | a query of one blank is not ignored: it starts a fetch |
| Session.StaleUnitFlagAfterRefetch | src/Components/weather.jsx:34-35 | search, switch to Fahrenheit, search again: the metric temperature is shown with the Fahrenheit flag |
| Session.FinishFetchCorrected | src/Components/weather.jsx:34-40 | the corrected settle step: on success the shown temperature denotes the provider's metric value; on failure it agrees with the code |
| Session.CorrectedSearchDenotesProviderTemperature | src/Components/weather.jsx:16-40 | with the corrected settle step, every successful search shows the provider's temperature under the Celsius flag |

## Left out

- The two HTTP requests and their URLs: network I/O, modelled only as a received payload or a failure per request.
- The API key read from the environment and the `city` input binding: configuration and UI.
- The asynchrony of the geolocation callback: the position outcome is a parameter, and the coordinates are not used beyond selecting the request.
- Overlapping submissions: each user action is applied atomically, so the race between two in-flight fetches is not modelled.
- `toLocaleDateString`: locale and time-zone formatting is abstracted as the `day` function parameter.
- IEEE floating point and `Math.ceil` in the display: temperatures are exact reals, so the round trips are exact.
- The JSX rendering, including the forecast strip's call of the reducer and its always-Celsius labels.
- The shallow copy in the unit switch mutates the shared `main` object of the old payload; the old payload is discarded at once, so the model treats the update as a fresh value.
- The seen map is a plain object, so a date string equal to an inherited property name would read as seen; date strings never take such values, so the model uses a set.

## Findings

| source | as written | input that shows it | evidently intended | confidence | as-written member | corrected member |
|---|---|---|---|---|---|---|
| src/Components/weather.jsx:34-35 | a successful fetch stores the metric payload but keeps `isCelsius` as it was | search "Paris" (20 C), switch to Fahrenheit, search "Paris" again: 20 is shown with the Fahrenheit flag, and the next switch converts it as if it were Fahrenheit | a successful fetch resets the flag to Celsius, since the requests always ask for metric units | high; not executed | Session.StaleUnitFlagAfterRefetch | Session.FinishFetchCorrected |

The handlers `Search`, `GeoLocation` and `Step` follow the code as written. The corrected settle step is `FinishFetchCorrected`, and its property is proved in `CorrectedSearchDenotesProviderTemperature`.
