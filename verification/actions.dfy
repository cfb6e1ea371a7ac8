/**
 * The weather server actions: `fetchWeatherData` passes the location to the
 * weather source, and `fetchAIRecommendations` validates its input against
 * a local schema (location `"city"` or `"regency"`, exactly three forecast
 * days) before calling the recommendation flow, turning every failure into
 * `null`.
 *
 * The flow itself is an input: a function from the validated request to
 * either a returned value or a thrown exception.
 */
module Actions {
  import opened Wrappers
  import Weather

  /** One day of the recommendation request. */
  datatype DayInput = DayInput(date: int, high: int, low: int, condition: string)

  /** The request as callers build it; `language` is optional and not part of the local schema. */
  datatype RecommendationRequest = RecommendationRequest(
    location: string, forecast: seq<DayInput>, language: Option<string>)

  /** What the schema passes on: only the fields it declares. */
  datatype ValidatedRequest = ValidatedRequest(location: string, forecast: seq<DayInput>)

  /** The schema's checks that can fail. */
  datatype Issue = LocationNotInEnum | ForecastLengthNotThree

  /** How the flow ended. */
  datatype Outcome<T> = Returned(value: T) | Threw

  predicate KnownLocation(location: string) {
    location == Weather.City || location == Weather.Regency
  }

  /** `fetchWeatherData(location)`: exactly the weather source's answer. */
  function FetchWeatherData(clock: Weather.Clock, location: string): (data: Weather.WeatherData)
    ensures data == Weather.GetWeatherData(clock, location)
  {
    Weather.GetWeatherData(clock, location)
  }

  /** The schema's issues for a request, location check first; empty when it is valid. */
  function Issues(req: RecommendationRequest): (issues: seq<Issue>)
    ensures LocationNotInEnum in issues <==> !KnownLocation(req.location)
    ensures ForecastLengthNotThree in issues <==> |req.forecast| != 3
  {
    (if KnownLocation(req.location) then [] else [LocationNotInEnum])
    + (if |req.forecast| == 3 then [] else [ForecastLengthNotThree])
  }

  /** `WeatherRecommendationsInputSchema.parse(input)`: the declared fields, or the issues found. */
  function Validate(req: RecommendationRequest): (r: Result<ValidatedRequest, seq<Issue>>)
    ensures r.Success? <==> KnownLocation(req.location) && |req.forecast| == 3
    ensures r.Success? ==> r.value.location == req.location && r.value.forecast == req.forecast
    ensures r.Failure? ==> |r.error| > 0
  {
    var issues := Issues(req);
    if |issues| == 0 then Success(ValidatedRequest(req.location, req.forecast)) else Failure(issues)
  }

  /**
   * `fetchAIRecommendations(input)`: `null` when validation fails or the flow
   * throws, the flow's answer otherwise. It never throws itself.
   */
  function FetchAIRecommendations<T>(req: RecommendationRequest, flow: ValidatedRequest -> Outcome<T>): (r: Option<T>)
    ensures !KnownLocation(req.location) ==> r.None?
    ensures |req.forecast| != 3 ==> r.None?
    ensures KnownLocation(req.location) && |req.forecast| == 3 ==>
              var v := ValidatedRequest(req.location, req.forecast);
              (r.Some? <==> flow(v).Returned?) && (r.Some? ==> r.value == flow(v).value)
  {
    match Validate(req)
    case Failure(_) => None
    case Success(v) =>
      match flow(v)
      case Returned(x) => Some(x)
      case Threw => None
  }

  /** The language field never reaches the flow: requests differing only in it are treated alike. */
  lemma LanguageIgnored<T>(req: RecommendationRequest, lang: Option<string>, flow: ValidatedRequest -> Outcome<T>)
    ensures FetchAIRecommendations(req.(language := lang), flow) == FetchAIRecommendations(req, flow)
  {
  }
}
