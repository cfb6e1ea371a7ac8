/** The weather icon chosen for a condition text (`WeatherIcon`). */
module WeatherIcon {
  import opened Strings
  import opened Classifiers
  import Weather

  datatype Icon = Sun | CloudSun | Cloud | CloudRain | Snowflake | Cloudy

  /**
   * The component's chain of checks on the lower-cased condition; it picks
   * the icon of the first rule of `Rules` with a keyword in the condition.
   */
  function IconFor(condition: string): (i: Icon)
    ensures i == Classify(Rules, ToLower(condition), Cloudy)
  {
    var c := ToLower(condition);
    PairMatches(c, "sunny", "clear");
    SingleMatches(c, "partly cloudy");
    SingleMatches(c, "cloudy");
    PairMatches(c, "rainy", "rain");
    SingleMatches(c, "snow");
    if Contains(c, "sunny") || Contains(c, "clear") then ClassifyAt(Rules, c, Cloudy, 0); Sun
    else if Contains(c, "partly cloudy") then ClassifyAt(Rules, c, Cloudy, 1); CloudSun
    else if Contains(c, "cloudy") then ClassifyAt(Rules, c, Cloudy, 2); Cloud
    else if Contains(c, "rainy") || Contains(c, "rain") then ClassifyAt(Rules, c, Cloudy, 3); CloudRain
    else if Contains(c, "snow") then ClassifyAt(Rules, c, Cloudy, 4); Snowflake
    else ClassifyDefault(Rules, c, Cloudy); Cloudy
  }

  /** The checks as an ordered rule table, with `Cloudy` as the default. */
  const Rules: seq<Rule<Icon>> := [
    Rule(["sunny", "clear"], Sun),
    Rule(["partly cloudy"], CloudSun),
    Rule(["cloudy"], Cloud),
    Rule(["rainy", "rain"], CloudRain),
    Rule(["snow"], Snowflake)
  ]

  /** Lower-casing the condition first makes no difference. */
  lemma IconForCaseInsensitive(condition: string)
    ensures IconFor(ToLower(condition)) == IconFor(condition)
  {
    ToLowerIdempotent(condition);
  }

  /** `"partly cloudy"` mentions `"cloudy"`, and `"rainy"` mentions `"rain"`. */
  lemma KeywordOverlaps()
    ensures Contains("partly cloudy", "cloudy")
    ensures Contains("rainy", "rain")
  {
    MatchContains("partly cloudy", "cloudy", 7);
    MatchContains("rainy", "rain", 0);
  }

  /**
   * Each icon exactly characterised. The `"rainy"` check is subsumed by
   * `"rain"`, and `"partly cloudy"` only takes conditions that generic
   * `"cloudy"` would otherwise take.
   */
  lemma IconForExactly(condition: string)
    ensures var c := ToLower(condition);
            var sun := Contains(c, "sunny") || Contains(c, "clear");
            && (IconFor(condition) == Sun <==> sun)
            && (IconFor(condition) == CloudSun <==> !sun && Contains(c, "partly cloudy"))
            && (IconFor(condition) == Cloud <==> !sun && !Contains(c, "partly cloudy") && Contains(c, "cloudy"))
            && (IconFor(condition) == CloudRain <==> !sun && !Contains(c, "cloudy") && Contains(c, "rain"))
            && (IconFor(condition) == Snowflake <==> !sun && !Contains(c, "cloudy") && !Contains(c, "rain") && Contains(c, "snow"))
            && (IconFor(condition) == Cloudy <==>
                  !sun && !Contains(c, "cloudy") && !Contains(c, "rain") && !Contains(c, "snow"))
  {
    var c := ToLower(condition);
    KeywordOverlaps();
    if Contains(c, "partly cloudy") {
      ContainsTransitive(c, "partly cloudy", "cloudy");
    }
    if Contains(c, "rainy") {
      ContainsTransitive(c, "rainy", "rain");
    }
  }

  lemma SunnyIcon()
    ensures IconFor("Sunny") == Sun
  {
    assert ToLower("Sunny") == "sunny";
    MatchContains("sunny", "sunny", 0);
  }

  lemma PartlyCloudyIcon()
    ensures IconFor("Partly Cloudy") == CloudSun
  {
    assert ToLower("Partly Cloudy") == "partly cloudy";
    MissingCharNotContains("partly cloudy", "sunny", 's');
    MissingCharNotContains("partly cloudy", "clear", 'e');
    MatchContains("partly cloudy", "partly cloudy", 0);
  }

  lemma CloudyIcon()
    ensures IconFor("Cloudy") == Cloud
  {
    assert ToLower("Cloudy") == "cloudy";
    MissingCharNotContains("cloudy", "sunny", 's');
    MissingCharNotContains("cloudy", "clear", 'e');
    MissingCharNotContains("cloudy", "partly cloudy", 'p');
    MatchContains("cloudy", "cloudy", 0);
  }

  lemma RainyIcon()
    ensures IconFor("Rainy") == CloudRain
  {
    assert ToLower("Rainy") == "rainy";
    MissingCharNotContains("rainy", "sunny", 's');
    MissingCharNotContains("rainy", "clear", 'c');
    MissingCharNotContains("rainy", "partly cloudy", 'p');
    MissingCharNotContains("rainy", "cloudy", 'c');
    MatchContains("rainy", "rainy", 0);
  }

  /** The four conditions the mock datasets use get their intended icons. */
  lemma DatasetConditionIcons()
    ensures IconFor("Sunny") == Sun
    ensures IconFor("Partly Cloudy") == CloudSun
    ensures IconFor("Cloudy") == Cloud
    ensures IconFor("Rainy") == CloudRain
  {
    SunnyIcon();
    PartlyCloudyIcon();
    CloudyIcon();
    RainyIcon();
  }

  /** No day of either forecast, and neither current condition, falls back to the default icon. */
  lemma ForecastIconsNotDefault(clock: Weather.Clock, location: string, i: nat)
    requires i < |Weather.GetWeatherData(clock, location).forecast|
    ensures IconFor(Weather.GetWeatherData(clock, location).forecast[i].condition) != Cloudy
    ensures IconFor(Weather.GetWeatherData(clock, location).current.condition) != Cloudy
  {
    Weather.DatasetConditionsKnown(clock, location, i);
    KnownConditionIcon(Weather.GetWeatherData(clock, location).forecast[i].condition);
    KnownConditionIcon(Weather.GetWeatherData(clock, location).current.condition);
  }

  /** Each of the four dataset conditions has its own icon, never the default. */
  lemma KnownConditionIcon(condition: string)
    requires condition in Weather.Conditions
    ensures IconFor(condition) != Cloudy
  {
    if condition == "Sunny" {
      SunnyIcon();
    } else if condition == "Partly Cloudy" {
      PartlyCloudyIcon();
    } else if condition == "Cloudy" {
      CloudyIcon();
    } else {
      assert condition == "Rainy";
      RainyIcon();
    }
  }
}
