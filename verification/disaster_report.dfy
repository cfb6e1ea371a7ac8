/**
 * The annual disaster report page: the location toggle, the year picker
 * (its text parsed with `parseInt(text, 10)`), the first-year default, and
 * the reload that clears the chart and analysis, fetches the year's data
 * and asks for an analysis only when there is data. The data and analysis
 * records come from actions outside this model, so they are type
 * parameters here.
 */
module DisasterReport {
  import opened Wrappers
  import opened Strings
  import Weather

  // ----- parseInt(text, 10) -----

  /** The whitespace `parseInt` skips (the ASCII controls, space, and the non-ASCII ones below). */
  predicate IsWhitespace(c: char) {
    c == ' ' || c == '\t' || c == '\n' || c == '\r' || c as int == 0x0B || c as int == 0x0C
    || c as int == 0xA0 || c as int == 0xFEFF || c as int == 0x2028 || c as int == 0x2029
  }

  function SkipWhitespace(s: string): (r: string)
    ensures |r| <= |s| && r == s[|s| - |r|..]
    ensures forall i :: 0 <= i < |s| - |r| ==> IsWhitespace(s[i])
    ensures |r| > 0 ==> !IsWhitespace(r[0])
    decreases |s|
  {
    if |s| > 0 && IsWhitespace(s[0]) then SkipWhitespace(s[1..]) else s
  }

  /** The longest run of digits at the start of `s`. */
  function DigitPrefix(s: string): (r: string)
    ensures IsPrefix(r, s) && AllDigits(r)
    ensures |r| < |s| ==> !IsDigit(s[|r|])
    ensures |r| == 0 <==> |s| == 0 || !IsDigit(s[0])
    decreases |s|
  {
    if |s| > 0 && IsDigit(s[0]) then [s[0]] + DigitPrefix(s[1..]) else ""
  }

  /**
   * `parseInt(text, 10)`: skip whitespace, take an optional sign, then
   * the longest digit run; `None` is `NaN` (no digit there). Anything
   * after the digits is ignored.
   */
  function ParseInt10(text: string): (r: Option<int>)
    ensures var u := Unsigned(SkipWhitespace(text));
            r.None? <==> (|u| == 0 || !IsDigit(u[0]))
    ensures r.Some? && r.value < 0 ==> SkipWhitespace(text)[0] == '-'
  {
    var t := SkipWhitespace(text);
    var negative := |t| > 0 && t[0] == '-';
    var d := DigitPrefix(Unsigned(t));
    var magnitude: int := DigitsValue(d);
    if |d| == 0 then None
    else if negative then Some(-magnitude)
    else Some(magnitude)
  }

  /** The text after an optional leading sign. */
  function Unsigned(t: string): string {
    if |t| > 0 && (t[0] == '-' || t[0] == '+') then t[1..] else t
  }

  /** `Number#toString` of an integer. */
  function IntToString(n: int): (s: string)
    ensures |s| > 0 && (IsDigit(s[0]) || s[0] == '-')
  {
    if n < 0 then "-" + NatToString(-n) else NatToString(n)
  }

  /** The digit run of a digit string followed by a non-digit is that digit string. */
  lemma {:induction false} DigitPrefixOf(d: string, rest: string)
    requires AllDigits(d)
    requires |rest| == 0 || !IsDigit(rest[0])
    ensures DigitPrefix(d + rest) == d
    decreases |d|
  {
    if |d| > 0 {
      DigitPrefixOf(d[1..], rest);
      assert (d + rest)[1..] == d[1..] + rest;
      assert d == [d[0]] + d[1..];
    }
  }

  /** Parsing the text of an integer, followed by anything not a digit, gives the integer back. */
  lemma ParseIntToString(n: int, rest: string)
    requires |rest| == 0 || !IsDigit(rest[0])
    ensures ParseInt10(IntToString(n) + rest) == Some(n)
  {
    var s := IntToString(n);
    var t := s + rest;
    assert t[0] == s[0] && !IsWhitespace(t[0]);
    assert SkipWhitespace(t) == t;
    if n < 0 {
      var d := NatToString(-n);
      assert t == "-" + (d + rest);
      assert Unsigned(t) == d + rest;
      DigitPrefixOf(d, rest);
    } else {
      assert Unsigned(t) == t;
      DigitPrefixOf(s, rest);
    }
  }

  // ----- the page -----

  /** The page's state; `selectedYear` is `None` when it holds `NaN`. */
  datatype Page<D, A> = Page(
    location: string,
    availableYears: seq<int>,
    selectedYear: Option<int>,
    chartData: seq<D>,
    analysis: Option<A>,
    pending: bool)

  /** What the reload fetches: the data for a location and year. */
  datatype DataRequest = DataRequest(location: string, year: int)

  /** What the analysis request names: a location label, the year and the fetched data. */
  datatype AnalysisRequest<D> = AnalysisRequest(locationName: string, year: int, data: seq<D>)

  /** `if (!selectedYear) return;`: 0 and NaN are falsy. */
  predicate YearTruthy(year: Option<int>) {
    year.Some? && year.value != 0
  }

  /**
   * The reload effect: with a truthy year, clear the chart and analysis
   * and request that year's data for the current location; otherwise do nothing.
   */
  function Reload<D, A>(p: Page<D, A>): (r: (Page<D, A>, Option<DataRequest>))
    ensures !YearTruthy(p.selectedYear) ==> r == (p, None)
    ensures YearTruthy(p.selectedYear) ==>
              && r.0 == p.(chartData := [], analysis := None, pending := true)
              && r.1 == Some(DataRequest(p.location, p.selectedYear.value))
  {
    if !YearTruthy(p.selectedYear) then (p, None)
    else (p.(chartData := [], analysis := None, pending := true), Some(DataRequest(p.location, p.selectedYear.value)))
  }

  /**
   * The mount: the first render shows the city with no years yet and the
   * current calendar year selected, and the reload effect immediately
   * requests that year's data.
   */
  function Initial<D, A>(currentYear: int): (r: (Page<D, A>, Option<DataRequest>))
    ensures r.0.location == Weather.City && r.0.selectedYear == Some(currentYear)
    ensures r.0.availableYears == [] && r.0.chartData == [] && r.0.analysis.None?
    ensures r.0.pending <==> currentYear != 0
    ensures r.1.Some? <==> currentYear != 0
    ensures r.1.Some? ==> r.1.value == DataRequest(Weather.City, currentYear)
  {
    Reload(Page(Weather.City, [], Some(currentYear), [], None, false))
  }

  /**
   * The reload effect also re-runs when the language or `t` changes (a new
   * table arrived): the current location and year are fetched again.
   */
  function LanguageChanged<D, A>(p: Page<D, A>): (r: (Page<D, A>, Option<DataRequest>))
    ensures r.0.location == p.location && r.0.selectedYear == p.selectedYear && r.0.availableYears == p.availableYears
    ensures r.1.Some? <==> YearTruthy(p.selectedYear)
    ensures r.1.Some? ==> r.1.value == DataRequest(p.location, p.selectedYear.value)
                          && r.0.chartData == [] && r.0.analysis.None? && r.0.pending
  {
    Reload(p)
  }

  /** The mount effect's years arrived: the first one, if any, is selected; a change of year reloads. */
  function YearsLoaded<D, A>(p: Page<D, A>, years: seq<int>): (r: (Page<D, A>, Option<DataRequest>))
    ensures r.0.availableYears == years && r.0.location == p.location
    ensures |years| > 0 ==> r.0.selectedYear == Some(years[0])
    ensures |years| == 0 ==> r == (p.(availableYears := years), None)
    ensures r.1.Some? ==> |years| > 0 && Some(years[0]) != p.selectedYear && years[0] != 0
  {
    var q := p.(availableYears := years);
    if |years| == 0 || Some(years[0]) == p.selectedYear then (q, None)
    else Reload(q.(selectedYear := Some(years[0])))
  }

  /** `handleLocationChange`: the same location is a no-op; another one is set and reloads. */
  function HandleLocationChange<D, A>(p: Page<D, A>, newLocation: string): (r: (Page<D, A>, Option<DataRequest>))
    ensures newLocation == p.location ==> r == (p, None)
    ensures newLocation != p.location ==> r == Reload(p.(location := newLocation))
  {
    if newLocation == p.location then (p, None) else Reload(p.(location := newLocation))
  }

  /**
   * `handleYearChange(text)`: the text is parsed base 10; the year, and
   * with it the data, changes only when the parsed value differs.
   */
  function HandleYearChange<D, A>(p: Page<D, A>, text: string): (r: (Page<D, A>, Option<DataRequest>))
    ensures ParseInt10(text) == p.selectedYear ==> r == (p, None)
    ensures ParseInt10(text) != p.selectedYear ==> r == Reload(p.(selectedYear := ParseInt10(text)))
  {
    var year := ParseInt10(text);
    if year == p.selectedYear then (p, None) else Reload(p.(selectedYear := year))
  }

  /** Picking a year from the list (its `toString()`) selects exactly that year. */
  lemma PickListedYear<D, A>(p: Page<D, A>, year: int)
    ensures HandleYearChange(p, IntToString(year)).0.selectedYear == Some(year)
    ensures HandleYearChange(p, IntToString(year)).1.Some? <==> Some(year) != p.selectedYear && year != 0
  {
    ParseIntToString(year, "");
    assert IntToString(year) + "" == IntToString(year);
  }

  /** Text with no digit after the sign selects `NaN`, which is falsy: no data is requested. */
  lemma NonNumericYearNoReload<D, A>(p: Page<D, A>, text: string)
    requires ParseInt10(text).None?
    ensures HandleYearChange(p, text).1.None?
  {
  }

  /**
   * The year's data arrived: it is charted; only non-empty data is sent for
   * analysis, under the city label for `"city"` and the regency label otherwise.
   */
  function DataArrived<D, A>(p: Page<D, A>, year: int, data: seq<D>, cityLabel: string, regencyLabel: string)
    : (r: (Page<D, A>, Option<AnalysisRequest<D>>))
    ensures r.0.chartData == data && r.0.analysis == p.analysis
    ensures r.1.Some? <==> |data| > 0
    ensures r.1.Some? ==> r.1.value.data == data && r.1.value.year == year
                          && r.1.value.locationName == (if p.location == Weather.City then cityLabel else regencyLabel)
    ensures r.0.pending <==> p.pending && |data| > 0
  {
    if |data| > 0 then
      (p.(chartData := data),
       Some(AnalysisRequest(if p.location == Weather.City then cityLabel else regencyLabel, year, data)))
    else (p.(chartData := data, pending := false), None)
  }

  /** The analysis arrived (or `null`): it is shown as is and the transition ends. */
  function AnalysisArrived<D, A>(p: Page<D, A>, analysis: Option<A>): (r: Page<D, A>)
    ensures r.analysis == analysis && !r.pending && r.chartData == p.chartData
  {
    p.(analysis := analysis, pending := false)
  }

  /**
   * Whatever the list of years, the first listed year's data is requested
   * on mount: by the reload when it is the current year, and by the change
   * of year otherwise.
   */
  lemma MountRequestsFirstYear<D, A>(currentYear: int, years: seq<int>)
    requires currentYear != 0 && |years| > 0 && years[0] != 0
    ensures var (p0, r0) := Initial<D, A>(currentYear);
            var (p1, r1) := YearsLoaded(p0, years);
            p1.selectedYear == Some(years[0])
            && (r1 == Some(DataRequest(Weather.City, years[0]))
                || (r1.None? && r0 == Some(DataRequest(Weather.City, years[0]))))
  {
  }

  /** A language change while a reload is on its way restarts the very same request and changes nothing else. */
  lemma LanguageChangeRepeatsReload<D, A>(p: Page<D, A>)
    ensures LanguageChanged(Reload(p).0) == Reload(p)
  {
  }

  /** A reload never shows the previous chart or analysis while the new data is on its way. */
  lemma ReloadClearsOldResults<D, A>(p: Page<D, A>, newLocation: string)
    requires newLocation != p.location && YearTruthy(p.selectedYear)
    ensures var (q, request) := HandleLocationChange(p, newLocation);
            q.chartData == [] && q.analysis.None? && request == Some(DataRequest(newLocation, p.selectedYear.value))
  {
  }
}
