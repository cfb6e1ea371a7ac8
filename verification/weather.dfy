/**
 * The mock weather source: two fixed datasets (Bogor City and Bogor
 * Regency), each with current conditions and a seven-day forecast labelled
 * relative to the day the module was loaded, and the selector
 * `getWeatherData`.
 *
 * The clock is an input: `Clock.weekday` is the load day's weekday
 * (0 = Sunday, as `Date#getDay`) and `Clock.day` its day number; a
 * forecast day's `fullDate` is the day number that `getFormattedDate`
 * prints as an ISO date.
 */
module Weather {

  const City: string := "city"
  const Regency: string := "regency"

  datatype CurrentWeather = CurrentWeather(
    temperature: int, humidity: int, windSpeed: int,
    windDirection: string, condition: string, locationName: string)

  datatype ForecastDay = ForecastDay(date: string, fullDate: int, high: int, low: int, condition: string)

  datatype WeatherData = WeatherData(current: CurrentWeather, forecast: seq<ForecastDay>)

  /** A weekday number, 0 (Sunday) to 6 (Saturday). */
  type Weekday = d: int | 0 <= d < 7

  /** The moment the module was loaded. */
  datatype Clock = Clock(weekday: Weekday, day: int)

  const DayNames: seq<string> := ["Sun", "Mon", "Tue", "Wed", "Thu", "Fri", "Sat"]

  /** `getDayName(offset)`: `"Today"` for offset 0, else the weekday `offset` days on. */
  function DayName(today: Weekday, offset: int): (name: string)
    ensures offset == 0 ==> name == "Today"
    ensures offset != 0 ==> name == DayNames[(today + offset) % 7]
  {
    if offset == 0 then "Today" else DayNames[(today + offset) % 7]
  }

  /** One forecast entry `offset` days after the load day. */
  function Day(clock: Clock, offset: int, high: int, low: int, condition: string): ForecastDay {
    ForecastDay(DayName(clock.weekday, offset), clock.day + offset, high, low, condition)
  }

  function CityData(clock: Clock): WeatherData {
    WeatherData(
      CurrentWeather(28, 75, 10, "SW", "Sunny", "Bogor City"),
      [ Day(clock, 0, 30, 22, "Sunny"),
        Day(clock, 1, 29, 21, "Partly Cloudy"),
        Day(clock, 2, 27, 20, "Rainy"),
        Day(clock, 3, 31, 23, "Sunny"),
        Day(clock, 4, 28, 21, "Cloudy"),
        Day(clock, 5, 26, 20, "Rainy"),
        Day(clock, 6, 29, 22, "Sunny") ])
  }

  function RegencyData(clock: Clock): WeatherData {
    WeatherData(
      CurrentWeather(26, 82, 5, "W", "Cloudy", "Bogor Regency"),
      [ Day(clock, 0, 28, 20, "Cloudy"),
        Day(clock, 1, 27, 19, "Rainy"),
        Day(clock, 2, 26, 19, "Rainy"),
        Day(clock, 3, 29, 21, "Partly Cloudy"),
        Day(clock, 4, 28, 20, "Sunny"),
        Day(clock, 5, 25, 18, "Rainy"),
        Day(clock, 6, 28, 20, "Cloudy") ])
  }

  /** `getWeatherData(location)`: the city dataset for `"city"`, the regency dataset for anything else. */
  function GetWeatherData(clock: Clock, location: string): (data: WeatherData)
    ensures location == City ==> data == CityData(clock)
    ensures location != City ==> data == RegencyData(clock)
  {
    if location == City then CityData(clock) else RegencyData(clock)
  }

  /** Seven days, starting today, one day apart, each warmer by day than by night. */
  predicate WellFormedForecast(clock: Clock, f: seq<ForecastDay>) {
    && |f| == 7
    && (forall i :: 0 <= i < |f| ==> f[i].high > f[i].low)
    && (forall i :: 0 <= i < |f| ==> f[i].fullDate == clock.day + i)
    && (forall i :: 0 <= i < |f| ==> f[i].date == DayName(clock.weekday, i))
  }

  /** Both datasets satisfy the forecast invariants, and each names its own place. */
  lemma GetWeatherDataWellFormed(clock: Clock, location: string)
    ensures WellFormedForecast(clock, GetWeatherData(clock, location).forecast)
    ensures GetWeatherData(clock, location).current.locationName
            == (if location == City then "Bogor City" else "Bogor Regency")
  {
  }

  /** Every condition text either dataset uses. */
  const Conditions: seq<string> := ["Sunny", "Partly Cloudy", "Cloudy", "Rainy"]

  /** Both datasets describe the weather only with the four known conditions. */
  lemma DatasetConditionsKnown(clock: Clock, location: string, i: nat)
    requires i < |GetWeatherData(clock, location).forecast|
    ensures GetWeatherData(clock, location).forecast[i].condition in Conditions
    ensures GetWeatherData(clock, location).current.condition in Conditions
  {
  }

  /** The position of an abbreviation in `DayNames`. */
  function DayIndex(name: string): int {
    if name == "Sun" then 0 else if name == "Mon" then 1 else if name == "Tue" then 2
    else if name == "Wed" then 3 else if name == "Thu" then 4 else if name == "Fri" then 5
    else if name == "Sat" then 6 else -1
  }

  lemma DayNameIndex(k: int)
    requires 0 <= k < 7
    ensures DayIndex(DayNames[k]) == k
  {
    if k == 0 {} else if k == 1 {} else if k == 2 {} else if k == 3 {} else if k == 4 {} else if k == 5 {} else {}
  }

  /** Day offsets within one week get different labels. */
  lemma DayNameDistinct(today: Weekday, i: int, j: int)
    requires 0 <= i < j < 7
    ensures DayName(today, i) != DayName(today, j)
  {
    var b := (today + j) % 7;
    assert DayNames[b] != "Today" by {
      assert DayNames[b][0] != 'T' || DayNames[b][1] != 'o';
    }
    if i > 0 {
      var a := (today + i) % 7;
      assert a != b;
      DayNameIndex(a);
      DayNameIndex(b);
    }
  }

  /** The seven labels of a forecast are pairwise different: "Today" and six distinct weekdays. */
  lemma ForecastLabelsDistinct(clock: Clock, location: string, i: int, j: int)
    requires 0 <= i < j < 7
    ensures GetWeatherData(clock, location).forecast[i].date != GetWeatherData(clock, location).forecast[j].date
  {
    GetWeatherDataWellFormed(clock, location);
    DayNameDistinct(clock.weekday, i, j);
  }
}
