/**
 * The weather widget: picks its location from the `bogor-weather-location`
 * cookie, loads that location's data, asks for AI recommendations from the
 * first three forecast days, and switches location on demand (persisting
 * the choice and clearing what was shown).
 *
 * React state becomes the `Widget` record; each handler is a function from
 * the old record to the new one plus the outside effects it starts.
 */
module WeatherWatch {
  import opened Wrappers
  import opened Strings
  import Cookies
  import Weather
  import Actions

  const LocationCookie: string := "bogor-weather-location"
  const LocationCookieDays: int := 365

  /** One day of AI advice (the recommendation flow's output entries). */
  datatype DayAdvice = DayAdvice(activity: string, clothing: string, justification: string)

  /** The widget's state. */
  datatype Widget = Widget(
    location: string,
    weather: Option<Weather.WeatherData>,
    recommendations: Option<seq<DayAdvice>>,
    recommendationsLoading: bool)

  /** What a transition starts: a cookie assignment and a data load for a location. */
  datatype Effects = Effects(cookie: Option<string>, load: Option<string>)

  const NoEffects: Effects := Effects(None, None)

  /** The initial location: the saved cookie, or `"city"` when missing or empty; it is not checked. */
  function InitialLocation(saved: Option<string>): (loc: string)
    ensures saved.Some? && saved.value != "" ==> loc == saved.value
    ensures saved.None? || saved.value == "" ==> loc == Weather.City
  {
    if saved.Some? && saved.value != "" then saved.value else Weather.City
  }

  /** The mount effect: read the cookie, adopt its location, and load that location's data. */
  function Start(document: Option<string>): (r: (Widget, Effects))
    ensures r.0.location == InitialLocation(Cookies.GetCookie(document, LocationCookie))
    ensures r.0.weather.None? && r.0.recommendations.None? && r.0.recommendationsLoading
    ensures r.1.load == Some(r.0.location) && r.1.cookie.None?
  {
    var loc := InitialLocation(Cookies.GetCookie(document, LocationCookie));
    (Widget(loc, None, None, true), Effects(None, Some(loc)))
  }

  /** The requested location's data arrived. */
  function WeatherLoaded(w: Widget, data: Weather.WeatherData): (r: Widget)
    ensures r.weather == Some(data)
    ensures r.location == w.location && r.recommendations == w.recommendations
  {
    w.(weather := Some(data))
  }

  /** `forecast.slice(0, 3).map(...)`: the first three days, `date` taken from `fullDate`. */
  function ThreeDayForecast(forecast: seq<Weather.ForecastDay>): (r: seq<Actions.DayInput>)
    ensures |r| == if |forecast| < 3 then |forecast| else 3
    ensures forall i :: 0 <= i < |r| ==>
              r[i] == Actions.DayInput(forecast[i].fullDate, forecast[i].high, forecast[i].low, forecast[i].condition)
  {
    var n := if |forecast| < 3 then |forecast| else 3;
    seq(n, i requires 0 <= i < n => Actions.DayInput(forecast[i].fullDate, forecast[i].high, forecast[i].low, forecast[i].condition))
  }

  /**
   * The request the recommendation effect sends once weather data is shown:
   * the current location and the three-day projection, with no language.
   */
  function RecommendationRequestFor(w: Widget): (r: Option<Actions.RecommendationRequest>)
    ensures r.Some? <==> w.weather.Some?
    ensures r.Some? ==> r.value.location == w.location && r.value.language.None?
                        && r.value.forecast == ThreeDayForecast(w.weather.value.forecast)
  {
    match w.weather
    case None => None
    case Some(data) => Some(Actions.RecommendationRequest(w.location, ThreeDayForecast(data.forecast), None))
  }

  /**
   * The recommendation effect, run when the shown weather or location
   * changes: with weather on show it marks advice as loading and sends the
   * request; without, it does nothing.
   */
  function StartRecommendations(w: Widget): (r: (Widget, Option<Actions.RecommendationRequest>))
    ensures w.weather.None? ==> r == (w, None)
    ensures w.weather.Some? ==> r.0 == w.(recommendationsLoading := true) && r.1 == RecommendationRequestFor(w)
  {
    if w.weather.None? then (w, None) else (w.(recommendationsLoading := true), RecommendationRequestFor(w))
  }

  /** The recommendation call settled: a result replaces the shown advice, `null` keeps it. */
  function RecommendationsSettled(w: Widget, res: Option<seq<DayAdvice>>): (r: Widget)
    ensures !r.recommendationsLoading
    ensures res.Some? ==> r.recommendations == res
    ensures res.None? ==> r.recommendations == w.recommendations
    ensures r.location == w.location && r.weather == w.weather
  {
    w.(recommendations := if res.Some? then res else w.recommendations, recommendationsLoading := false)
  }

  /**
   * `handleLocationChange(newLocation)`: nothing happens for the current
   * location; otherwise the location is set and saved for a year, the shown
   * weather and advice are cleared, and the new location's data is loaded.
   */
  function HandleLocationChange(w: Widget, newLocation: string, expiry: string): (r: (Widget, Effects))
    ensures newLocation == w.location ==> r == (w, NoEffects)
    ensures newLocation != w.location ==>
              && r.0 == w.(location := newLocation, weather := None, recommendations := None)
              && r.1.load == Some(newLocation)
              && r.1.cookie == Some(Cookies.CookieAssignment(LocationCookie, newLocation, LocationCookieDays, expiry))
  {
    if newLocation == w.location then (w, NoEffects)
    else
      (w.(location := newLocation, weather := None, recommendations := None),
       Effects(Some(Cookies.CookieAssignment(LocationCookie, newLocation, LocationCookieDays, expiry)), Some(newLocation)))
  }

  /**
   * For both supported locations, the request built from the loaded data
   * passes the schema: the datasets always have a three-day prefix.
   */
  lemma KnownLocationRequestValid(clock: Weather.Clock, w: Widget)
    requires Actions.KnownLocation(w.location)
    requires w.weather == Some(Actions.FetchWeatherData(clock, w.location))
    ensures Actions.Validate(RecommendationRequestFor(w).value).Success?
    ensures |Actions.Validate(RecommendationRequestFor(w).value).value.forecast| == 3
  {
    Weather.GetWeatherDataWellFormed(clock, w.location);
  }

  /**
   * A cookie holding any other non-empty location is adopted as is (`Start`
   * takes its location from `InitialLocation`): the widget then shows the
   * regency data, and its recommendation request is always rejected, so no
   * advice can ever arrive.
   */
  lemma UnknownSavedLocation<T>(clock: Weather.Clock, saved: string, w: Widget,
                                flow: Actions.ValidatedRequest -> Actions.Outcome<T>)
    requires saved != "" && !Actions.KnownLocation(saved)
    requires w.location == InitialLocation(Some(saved))
    ensures w.location == saved
    ensures Actions.FetchWeatherData(clock, w.location) == Weather.RegencyData(clock)
    ensures Actions.FetchAIRecommendations(
              RecommendationRequestFor(WeatherLoaded(w, Actions.FetchWeatherData(clock, w.location))).value, flow).None?
  {
  }

  /**
   * A location switched to is the one the next visit starts with: once the
   * browser has stored the cookie written, the mount effect reads it back
   * from the jar.
   */
  lemma LocationPersists(jar: seq<Cookies.Pair>, w: Widget, newLocation: string, expiry: string)
    requires forall i :: 0 <= i < |jar| ==> Cookies.WellFormedPair(jar[i])
    requires newLocation != w.location && newLocation != ""
    requires ';' !in newLocation
    ensures Start(Some(Cookies.JarText(Cookies.Assign(jar, HandleLocationChange(w, newLocation, expiry).1.cookie.value))))
            .0.location == newLocation
  {
    Cookies.SetCookieThenGetCookie(jar, LocationCookie, newLocation, LocationCookieDays, expiry);
  }
}
