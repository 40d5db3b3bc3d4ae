/**
 The weather component's state and its three handlers: search by city
 name, search by device location, and the Celsius/Fahrenheit switch.

 Each handler is a pure transition on the component state. The two provider
 requests (current conditions, then forecast) are not modelled; their
 outcomes are parameters. A handler that awaits is split in two: the state
 set before the first request, and the state after the requests settle.
 */
module Session {
  import opened DailyForecast
  import opened Units

  datatype Option<T> = None | Some(value: T)

  /** The fields of the current-conditions payload that the component reads. */
  datatype Weather = Weather(
    name: string,
    temp: real,
    humidity: int,
    clouds: int,
    windSpeed: real,
    desc: string,
    icon: string)

  /** The forecast payload: the provider's chronological list of 3-hour entries. */
  datatype Forecast = Forecast(list: seq<Entry>)

  /** The component state: both payloads (null until fetched), unit flag, loading flag, error text. */
  datatype State = State(
    weather: Option<Weather>,
    forecast: Option<Forecast>,
    isCelsius: bool,
    loading: bool,
    error: string)

  const Initial: State := State(None, None, true, false, "")

  const InvalidCityMessage: string := "Enter a valid city name"
  const NoGeolocationMessage: string := "Geolocation is not supported by your browser."

  /** The outcome of one provider request. */
  datatype Reply<T> = Received(data: T) | Failed

  /** What the host's geolocation capability does when asked for a position. */
  datatype Geo = Unsupported | Denied | Located(latitude: real, longitude: real)

  /** Both requests of one fetch succeeded. */
  predicate Succeeded(current: Reply<Weather>, forecast: Reply<Forecast>) {
    current.Received? && forecast.Received?
  }

  /**
   The state set synchronously when a fetch starts: loading, no error, no
   current conditions; the forecast payload and the unit flag are kept.
   */
  function BeginFetch(s: State): (t: State)
    ensures t.loading && t.error == "" && t.weather == None
    ensures t.forecast == s.forecast && t.isCelsius == s.isCelsius
    ensures Consistent(t)
  {
    s.(loading := true, error := "", weather := None)
  }

  /**
   The state once the requests settle. The forecast request is issued only
   after the current-conditions request succeeded; a failure of either is
   reported with the same message, and only a success stores the payloads.
   */
  function FinishFetch(s: State, current: Reply<Weather>, forecast: Reply<Forecast>): (t: State)
    ensures !t.loading && t.isCelsius == s.isCelsius
    ensures Succeeded(current, forecast) ==>
              t.weather == Some(current.data) && t.forecast == Some(forecast.data) && t.error == s.error
    ensures !Succeeded(current, forecast) ==>
              t.error == InvalidCityMessage && t.weather == s.weather && t.forecast == s.forecast
    ensures Consistent(s) ==> Consistent(t)
  {
    match current
    case Failed => s.(error := InvalidCityMessage, loading := false)
    case Received(w) =>
      match forecast
      case Failed => s.(error := InvalidCityMessage, loading := false)
      case Received(f) => s.(weather := Some(w), forecast := Some(f), loading := false)
  }

  /**
   The search handler up to its first request. Only the exact empty query
   is ignored; the forecast payload is kept, not cleared.
   */
  function StartSearch(s: State, query: string): (t: State)
    ensures query == "" ==> t == s
    ensures query != "" ==> t.loading && t.error == "" && t.weather == None
    ensures t.forecast == s.forecast && t.isCelsius == s.isCelsius
  {
    if query == "" then s else BeginFetch(s)
  }

  /** The search handler once its requests settle. */
  function Search(s: State, query: string, current: Reply<Weather>, forecast: Reply<Forecast>): (t: State)
    ensures query == "" ==> t == s
    ensures query != "" ==> !t.loading
    ensures t.isCelsius == s.isCelsius
    ensures query != "" && Succeeded(current, forecast) ==>
              t.weather == Some(current.data) && t.forecast == Some(forecast.data) && t.error == ""
    ensures query != "" && !Succeeded(current, forecast) ==>
              t.weather == None && t.forecast == s.forecast && t.error == InvalidCityMessage
  {
    if query == "" then s else FinishFetch(StartSearch(s, query), current, forecast)
  }

  /**
   The location handler up to its first request. Without a geolocation
   capability only the error text changes; otherwise the fetch starts.
   */
  function StartGeoLocation(s: State, geo: Geo): (t: State)
    ensures geo.Unsupported? ==>
              t.error == NoGeolocationMessage && t.weather == s.weather && t.forecast == s.forecast &&
              t.loading == s.loading && t.isCelsius == s.isCelsius
    ensures !geo.Unsupported? ==> t.loading && t.error == "" && t.weather == None && t.forecast == s.forecast
    ensures t.isCelsius == s.isCelsius
  {
    if geo.Unsupported? then s.(error := NoGeolocationMessage) else BeginFetch(s)
  }

  /**
   The location handler once it settles. The position request has only a
   success callback, so a denied request leaves the component loading.
   */
  function GeoLocation(s: State, geo: Geo, current: Reply<Weather>, forecast: Reply<Forecast>): (t: State)
    ensures geo.Unsupported? ==> t == s.(error := NoGeolocationMessage)
    ensures geo.Denied? ==> t.loading && t.error == "" && t.weather == None
    ensures geo.Located? ==> !t.loading
    ensures t.isCelsius == s.isCelsius
    ensures t.forecast == s.forecast || (geo.Located? && Succeeded(current, forecast))
  {
    match geo
    case Unsupported => StartGeoLocation(s, geo)
    case Denied => StartGeoLocation(s, geo)
    case Located(_, _) => FinishFetch(StartGeoLocation(s, geo), current, forecast)
  }

  /** A located request settles exactly as a search by any non-empty name does. */
  lemma GeoLocationIsSearch(s: State, latitude: real, longitude: real, query: string,
                            current: Reply<Weather>, forecast: Reply<Forecast>)
    requires query != ""
    ensures GeoLocation(s, Located(latitude, longitude), current, forecast) == Search(s, query, current, forecast)
  {
  }

  /** The temperature in Celsius that the headline denotes, given the unit flag it is shown with. */
  ghost function DenotedCelsius(s: State): real
    requires s.weather.Some?
  {
    if s.isCelsius then s.weather.value.temp else ToCelsius(s.weather.value.temp)
  }

  /**
   The unit switch: without current conditions nothing changes; otherwise
   the flag flips and only the headline temperature is converted, so the
   temperature it denotes stays the same.
   */
  function SwitchUnit(s: State): (t: State)
    ensures s.weather == None ==> t == s
    ensures s.weather.Some? ==>
              && t.weather.Some?
              && t.isCelsius == !s.isCelsius
              && t.weather.value.(temp := s.weather.value.temp) == s.weather.value
              && t.forecast == s.forecast && t.loading == s.loading && t.error == s.error
              && DenotedCelsius(t) == DenotedCelsius(s)
  {
    match s.weather
    case None => s
    case Some(w) =>
      var temp := if s.isCelsius then ToFahrenheit(w.temp) else ToCelsius(w.temp);
      CelsiusRoundTrip(w.temp);
      s.(weather := Some(w.(temp := temp)), isCelsius := !s.isCelsius)
  }

  /** Switching twice restores the original temperature and flag. */
  lemma SwitchUnitTwice(s: State)
    ensures SwitchUnit(SwitchUnit(s)) == s
  {
  }

  /** One user action, with the outcomes of the requests it issues. */
  datatype Event =
    | SearchClicked(query: string, current: Reply<Weather>, forecast: Reply<Forecast>)
    | LocationClicked(geo: Geo, current: Reply<Weather>, forecast: Reply<Forecast>)
    | SwitchClicked

  function Step(s: State, e: Event): State {
    match e
    case SearchClicked(query, current, forecast) => Search(s, query, current, forecast)
    case LocationClicked(geo, current, forecast) => GeoLocation(s, geo, current, forecast)
    case SwitchClicked => SwitchUnit(s)
  }

  function Run(s: State, events: seq<Event>): State
    decreases |events|
  {
    if |events| == 0 then s else Run(Step(s, events[0]), events[1..])
  }

  /**
   Current conditions are only shown with a forecast payload present, and
   never while a fetch is loading.
   */
  ghost predicate Consistent(s: State) {
    && (s.weather.Some? ==> s.forecast.Some?)
    && (s.loading ==> s.weather == None)
  }

  lemma StepKeepsConsistent(s: State, e: Event)
    requires Consistent(s)
    ensures Consistent(Step(s, e))
  {
  }

  /** Every state reached from the initial one by user actions is consistent. */
  lemma {:induction false} RunKeepsConsistent(s: State, events: seq<Event>)
    requires Consistent(s)
    ensures Consistent(Run(s, events))
    decreases |events|
  {
    if |events| > 0 {
      StepKeepsConsistent(s, events[0]);
      RunKeepsConsistent(Step(s, events[0]), events[1..]);
    }
  }

  lemma ReachableIsConsistent(events: seq<Event>)
    ensures Consistent(Run(Initial, events))
  {
    RunKeepsConsistent(Initial, events);
  }

  /** A query of blanks is not ignored: it starts a fetch. */
  lemma BlankQueryStartsFetch(s: State)
    ensures StartSearch(s, " ").loading && StartSearch(s, " ").weather == None
  {
  }

  /**
   After a successful search, a switch to Fahrenheit and a second
   successful search, the freshly fetched metric temperature is shown
   with the Fahrenheit flag: the denoted temperature is wrong.
   */
  lemma StaleUnitFlagAfterRefetch()
    ensures
      var w := Weather("Paris", 20.0, 50, 10, 3.0, "clear sky", "01d");
      var f := Forecast([]);
      var search := SearchClicked("Paris", Received(w), Received(f));
      var t := Run(Initial, [search, SwitchClicked, search]);
      t.weather == Some(w) && !t.isCelsius && DenotedCelsius(t) != w.temp
  {
    var w := Weather("Paris", 20.0, 50, 10, 3.0, "clear sky", "01d");
    var f := Forecast([]);
    var search := SearchClicked("Paris", Received(w), Received(f));
    var events := [search, SwitchClicked, search];
    var s1 := Step(Initial, search);
    var s2 := Step(s1, SwitchClicked);
    var s3 := Step(s2, search);
    assert events[1..] == [SwitchClicked, search];
    assert events[1..][1..] == [search];
    assert events[1..][1..][1..] == [];
    assert Run(s2, [search]) == Run(s3, []) == s3;
    assert Run(Initial, events) == Run(s1, [SwitchClicked, search]) == Run(s2, [search]);
  }

  /**
   The settled fetch as evidently intended: a success stores metric
   payloads, so it also resets the flag to Celsius.
   */
  function FinishFetchCorrected(s: State, current: Reply<Weather>, forecast: Reply<Forecast>): (t: State)
    ensures Succeeded(current, forecast) ==>
              t.weather == Some(current.data) && DenotedCelsius(t) == current.data.temp
    ensures !Succeeded(current, forecast) ==> t == FinishFetch(s, current, forecast)
  {
    var t := FinishFetch(s, current, forecast);
    if Succeeded(current, forecast) then t.(isCelsius := true) else t
  }

  /** With the corrected fetch, the headline denotes the provider's temperature after any success. */
  lemma CorrectedSearchDenotesProviderTemperature(s: State, query: string, w: Weather, f: Forecast)
    requires query != ""
    ensures
      var t := FinishFetchCorrected(StartSearch(s, query), Received(w), Received(f));
      t.weather == Some(w) && t.forecast == Some(f) && !t.loading && DenotedCelsius(t) == w.temp
  {
  }
}
