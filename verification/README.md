# Bogor early-warning app: the verifiable core

This project models the small, pure decision logic inside the SerenityEWS
front end, a Next.js app that shows weather, hazard and community reports for
Bogor City and Bogor Regency. The model covers:

- **Translation.** The language provider's `t(key, ...args)` looks up a dotted key in a nested JSON
  table and falls back to the key. It then fills `{n}` placeholders from `args` in one left-to-right pass.
  The model also covers the initial-language choice, `setLanguage`, and the provider's two mount effects,
  which as written discard a saved language (see Findings).
- **Cookies.** The `getCookie` parser and the `setCookie` string builder are copied verbatim into the
  language provider and the weather widget. One model serves both copies. A small model of the browser's
  cookie jar (the pair an assignment stores, one value per name, the `k=v; k=v` text read back) links
  what one visit writes to what the next visit reads.
- **Weather.** The mock datasets and `getWeatherData`. The server actions `fetchWeatherData` and
  `fetchAIRecommendations`, which check the location enum and that the forecast has exactly three days,
  and turn every failure into `null`.
- **Weather widget.** Its state transitions: initial location, location switch, and the three-day
  projection sent for recommendations.
- **Classifiers.** The ordered first-match substring classifiers: weather condition to icon, report
  category to icon, and flood and volcano status to colour. Each is proved equal to a table-driven
  reference (`Classifiers.Classify`). The landslide and fire colour maps are also modelled.
- **Info cards.** Colours are applied only to the card whose label is the status label.
- **Community reports.** The page sorts newest first, prepends a new report and picks its view. The
  add-report dialog has a submit guard, a submit-button predicate, a reset on close, camera and location
  results, and how a submission settles.
- **Nearby alert.** The component's fetch trigger and view selection. The geolocation effect re-runs
  whenever `t` changes, so a run may hold several geolocation answers; the permission-denied view shows
  only after a position followed by a failed repeat request, never after a first refusal (see Findings).
- **Disaster report.** The annual report page: the reload on first render, location and year selection,
  `parseInt(text, 10)`, first-year selection, reloads on a language change, and the analysis gating.

Time, browser APIs and server calls are inputs to the model:

- **Time.** A `Weather.Clock` holds the weekday and the day number at which the weather module was
  loaded. Expiry strings are parameters.
- **Results.** Geolocation, camera and server results arrive as explicit events or parameters.
- **`document.cookie`.** Its text is an `Option<string>`, where `None` means "no document". Across
  visits it is the text of a cookie jar, a list of stored pairs.

Strings are ASCII `seq<char>`. Timestamps and day numbers are integers. JavaScript `null`/`NaN` values
are `Option`s.

## Model

| member | source | states |
|---|---|---|
| Cookies.FirstMatch | src/contexts/language-context.tsx:17-24 | The value is None exactly when no `;`-segment, after dropping leading spaces, starts with `name=`; otherwise it is the rest of the first segment that does, later `=` characters included |
| Cookies.FirstMatchAt | src/contexts/language-context.tsx:19-22 | Whichever segment is the first match decides `getCookie`'s answer |
| Cookies.GetCookie | src/contexts/language-context.tsx:15-25 | Without a document the answer is null. Otherwise a value comes from the first `;`-segment that starts with `name=` after its leading spaces (no earlier one does) and never holds `;`; null means no segment matches |
| Cookies.ScanCookie | src/components/bogor-weather-watch.tsx:25-35 | The widget's loop form (space stripping one character at a time, then the prefix test) computes exactly the functional `getCookie`, so both copies of the parser agree |
| Cookies.StripSpaces | src/components/bogor-weather-watch.tsx:31 | The `while (c.charAt(0)==' ')` loop drops exactly the leading spaces |
| Cookies.Lookup | src/contexts/language-context.tsx:15-25 | The browser's own view of the jar: None exactly when no pair has the key, else the first such pair's value |
| Cookies.GetCookieReadsJar | src/contexts/language-context.tsx:15-25 | Parsing the `k=v; k=v` text of any well-formed cookie jar, the empty jar (`""`) included, with `getCookie` gives the browser's own first value for that name |
| Cookies.SetCookie | src/components/bogor-weather-watch.tsx:13-23 | An assignment is made exactly when a document exists, and it starts with `name=value` |
| Cookies.CookieAssignmentSegments | src/components/bogor-weather-watch.tsx:13-21 | With `days` 0 the assignment is exactly `name=value; path=/`; otherwise its segments are `name=value`, ` expires=…`, ` path=/` in that order |
| Cookies.AssignedPair | src/contexts/language-context.tsx:35 | The pair a browser stores for an assignment: the text before the first `;`, split at its first `=`; it is always a well-formed pair with a non-empty name, and an assignment without `=` or with an empty name stores nothing |
| Cookies.AssignedPairOfCookie | src/contexts/language-context.tsx:27-37 | The browser stores exactly the name and value `setCookie` was given, whatever the expiry |
| Cookies.Store | src/contexts/language-context.tsx:35 | A name already in the jar is replaced where it stands (the jar keeps its length); a new name is appended at the end; every other pair is kept |
| Cookies.StoreReads | src/contexts/language-context.tsx:35 | After storing, the stored name reads as the new value and every other name as before |
| Cookies.Assign | src/contexts/language-context.tsx:35 | An assignment that stores nothing leaves the jar as it was, and a well-formed jar stays well-formed |
| Cookies.SetCookieThenGetCookie | src/contexts/language-context.tsx:15-37 | Once the browser has stored a `setCookie` assignment, `getCookie` on the jar's text reads the value written, and every other name reads as before |
| Translation.ResolveMissing | src/contexts/language-context.tsx:70-75 | Once the walk meets a non-object or an object without the next segment, the whole lookup fails |
| Translation.Resolve | src/contexts/language-context.tsx:68-76 | The empty path is the node itself; a successful step needs an object owning the key |
| Translation.ResolveAppend | src/contexts/language-context.tsx:68-76 | Walking `a` then `b` is walking `a + b`: a failed first part fails the whole walk |
| Translation.T | src/contexts/language-context.tsx:67-83 | A failed lookup makes `t` return the key |
| Translation.TMissingSegment | src/contexts/language-context.tsx:68-75 | A key whose i-th dotted segment is missing at its level translates to the key itself |
| Translation.TEmptyTable | src/contexts/language-context.tsx:41 | Before any table is loaded every key translates to itself |
| Translation.TNonStringIsKey | src/contexts/language-context.tsx:77-82 | A key resolving to a nested object or another non-string value translates to the key |
| Translation.TNoArgs | src/contexts/language-context.tsx:78-80 | With no extra arguments, a key resolving to a string translates to that exact string, every `{n}` left verbatim |
| Translation.Interpolate | src/contexts/language-context.tsx:78-80 | With no extra arguments every placeholder stays verbatim, so the text is unchanged |
| Translation.DigitRun | src/contexts/language-context.tsx:78 | The length of the maximal run of leading digits, as the `\d+` in the placeholder pattern consumes it |
| Translation.PlaceholderDigits | src/contexts/language-context.tsx:78 | A recognised placeholder `{d…d}` has at least one digit, all digits, and a closing brace inside the text |
| Translation.InterpolatePlain | src/contexts/language-context.tsx:78 | Text without `{` passes through the substitution unchanged |
| Translation.DigitRunStops | src/contexts/language-context.tsx:78 | The digit run stops exactly at the first non-digit |
| Translation.InterpolateSlot | src/contexts/language-context.tsx:78-79 | `{n}` becomes `args[n]` when that argument exists and stays the literal `{n}` otherwise, and the rest is processed after it |
| Translation.InterpolateDigits | src/contexts/language-context.tsx:78-79 | A placeholder written with any canonical digit string `{d}` becomes argument d when it exists and stays verbatim otherwise; scanning resumes right after it |
| Translation.InterpolateRender | src/contexts/language-context.tsx:78-80 | For any template of literal text and `{n}` slots, the substitution equals filling each slot independently from `args`: one left-to-right pass |
| Translation.NoReexpansion | src/contexts/language-context.tsx:78 | Text inserted from an argument is never expanded again (`{0}` with `args[0] = "{1}"` gives `{1}`) |
| Translation.LeadingZeroVerbatim | src/contexts/language-context.tsx:78-79 | `{01}` names the property `"01"`, which an argument list never has, so it stays verbatim |
| Translation.TPath | src/contexts/language-context.tsx:67-83 | A dotted key built from a path looks up exactly that path and fills the template found there |
| Translation.InitialLanguage | src/contexts/language-context.tsx:43-47 | The saved cookie value when present and non-empty (unchecked against `en`/`id`), else `id` |
| Translation.LocaleFor | src/contexts/language-context.tsx:53 | The Indonesian file exactly for `id`; any other language loads English |
| Translation.SetLanguage | src/contexts/language-context.tsx:49-58 | Sets the language state and the page's `lang`, keeps the loaded table until the new one arrives, loads the matching locale file, and writes a persistent `app-language=<lang>` cookie |
| Translation.TranslationsLoaded | src/contexts/language-context.tsx:55-56 | A loaded table replaces the old one and nothing else changes |
| Translation.LoadIfEmpty | src/contexts/language-context.tsx:60-65 | While the scheduling render's table is empty, `setLanguage` is called with that render's language (one load of its file); otherwise nothing changes |
| Translation.Mount | src/contexts/language-context.tsx:40-65 | As written, the mount ends in `id` whatever was saved, with the table still empty, after a load of the saved language's file followed by a load of the Indonesian file |
| Translation.MountIntended | src/contexts/language-context.tsx:40-65 | With the second effect seeing the language the first chose, the mount ends in the saved language and every load is that language's file |
| Translation.SetLanguageCookie | src/contexts/language-context.tsx:49-51 | The cookie `setLanguage` writes, once stored, reads back as its language and keeps the jar well-formed |
| Translation.TwoLanguageWrites | src/contexts/language-context.tsx:49-51 | After two `setLanguage` calls the cookie holds the second language |
| Translation.MountWritesIndonesian | src/contexts/language-context.tsx:43-65 | Whatever the saved value, the as-written mount leaves `app-language=id` in the jar |
| Translation.MountDiscardsSavedLanguage | src/contexts/language-context.tsx:43-65 | As written, every mount ends in Indonesian and leaves a cookie saying `id`, so the next visit starts in Indonesian as well |
| Translation.ChosenEnglishIsLost | src/contexts/language-context.tsx:43-65 | After the switcher chooses English, the next mount reads `en` from the cookie and still ends in `id` |
| Translation.MountRacesLoads | src/contexts/language-context.tsx:53-57 | After choosing a language other than `id`, the next mount starts the English load and then the Indonesian one |
| Translation.IntendedMountKeepsSaved | src/contexts/language-context.tsx:43-65 | With the intended mount, a saved language is the one the provider ends with, and the cookie left behind still holds it |
| Translation.LanguagePersists | src/contexts/language-context.tsx:43-65 | With the intended mount, a language chosen with `setLanguage` is the language the next visit ends up in, and it stays saved |
| Translation.UnsupportedSavedLanguageLoadsEnglish | src/contexts/language-context.tsx:44-53 | With the intended mount, a saved language other than `id` (even an unsupported one) only ever loads the English file |
| Weather.DayName | src/lib/weather.ts:31-37 | Offset 0 is `Today`; any other offset is the weekday abbreviation at (today + offset) mod 7 |
| Weather.GetWeatherData | src/lib/weather.ts:79-86 | `city` selects the city dataset; every other location the regency dataset |
| Weather.GetWeatherDataWellFormed | src/lib/weather.ts:39-77 | Both datasets have exactly 7 forecast days, each with high above low, consecutive dates and day labels from today; the location name matches the selector |
| Weather.DatasetConditionsKnown | src/lib/weather.ts:39-77 | Every condition text in either dataset is one of Sunny, Partly Cloudy, Cloudy, Rainy |
| Weather.DayNameIndex | src/lib/weather.ts:31-37 | Each weekday abbreviation identifies its weekday |
| Weather.DayNameDistinct | src/lib/weather.ts:31-37 | Any seven consecutive offsets from today get seven different labels |
| Weather.ForecastLabelsDistinct | src/lib/weather.ts:48-56 | The seven forecast days of either dataset carry pairwise different labels |
| Actions.FetchWeatherData | src/app/actions.ts:7-9 | Exactly what the weather source returns for the same location |
| Actions.Issues | src/app/actions.ts:11-21 | The schema reports an unknown location exactly when it is not `city`/`regency`, and a length issue exactly when the forecast does not have 3 days |
| Actions.Validate | src/app/actions.ts:11-21 | Succeeds exactly for a known location and a 3-day forecast, passing on only `location` and `forecast`; a failure carries at least one issue |
| Actions.FetchAIRecommendations | src/app/actions.ts:23-35 | `null` for an unknown location or a forecast whose length is not 3. For a valid request it is the flow's answer if the flow returns and `null` if it throws |
| Actions.LanguageIgnored | src/app/actions.ts:11-21 | The `language` field never reaches the flow: requests differing only in it get the same answer |
| WeatherWatch.InitialLocation | src/components/bogor-weather-watch.tsx:46-47 | The saved cookie when present and non-empty, else `city` |
| WeatherWatch.Start | src/components/bogor-weather-watch.tsx:45-50 | The widget starts at the saved or default location, with no data and recommendations marked loading, and loads that location's data |
| WeatherWatch.WeatherLoaded | src/components/bogor-weather-watch.tsx:83-97 | Arrived data is stored; location and recommendations are kept |
| WeatherWatch.ThreeDayForecast | src/components/bogor-weather-watch.tsx:55-60 | The first min(3, n) forecast days in order, `date` from `fullDate` and high, low, condition copied |
| WeatherWatch.RecommendationRequestFor | src/components/bogor-weather-watch.tsx:52-65 | A request exists exactly when weather data is present; it names the widget's location and carries no language |
| WeatherWatch.StartRecommendations | src/components/bogor-weather-watch.tsx:52-67 | Without data nothing happens; with data, loading is set and the request is sent |
| WeatherWatch.RecommendationsSettled | src/components/bogor-weather-watch.tsx:67-79 | Loading always ends; an answer replaces the recommendations, a `null` keeps the old ones |
| WeatherWatch.HandleLocationChange | src/components/bogor-weather-watch.tsx:99-110 | The current location changes nothing. A new one is set and saved in a 365-day cookie, weather and recommendations are cleared, and its data is loaded |
| WeatherWatch.KnownLocationRequestValid | src/components/bogor-weather-watch.tsx:52-67 | For `city` or `regency` with loaded data, the request built always passes the action's schema with exactly 3 days |
| WeatherWatch.UnknownSavedLocation | src/components/bogor-weather-watch.tsx:46-67 | A non-empty saved location other than `city`/`regency` is adopted unchecked; the widget there shows the regency data, and its recommendation request always comes back `null` |
| WeatherWatch.LocationPersists | src/components/bogor-weather-watch.tsx:45-103 | Once the browser has stored the cookie a location switch writes, the next mount reads that location from the jar and starts there |
| Classifiers.FirstRule | src/components/weather-icon.tsx:11-27 | The index of the first rule with a matching keyword (no earlier rule matches), or None exactly when no rule matches |
| Classifiers.ClassifyAt | src/components/weather-icon.tsx:11-25 | The first matching rule decides the class |
| Classifiers.ClassifyDefault | src/components/weather-icon.tsx:27 | With no matching rule the default is returned |
| WeatherIcon.IconFor | src/components/weather-icon.tsx:8-28 | The icon chain equals the ordered table sunny/clear, partly cloudy, cloudy, rainy/rain, snow with default Cloudy, applied to the lowercased condition |
| WeatherIcon.IconForCaseInsensitive | src/components/weather-icon.tsx:9 | Lowercasing the condition first changes nothing |
| WeatherIcon.IconForExactly | src/components/weather-icon.tsx:11-27 | For each icon, the exact condition under which it is chosen: Sun for `sunny`/`clear` even with clouds or rain, CloudSun for `partly cloudy`, and so on down to the default |
| WeatherIcon.DatasetConditionIcons | src/components/weather-icon.tsx:11-19 | Sunny, Partly Cloudy, Cloudy and Rainy get Sun, CloudSun, Cloud and CloudRain |
| WeatherIcon.ForecastIconsNotDefault | src/components/weather-icon.tsx:27 | No condition in either weather dataset falls through to the default icon |
| WeatherIcon.KnownConditionIcon | src/components/weather-icon.tsx:11-27 | None of the four dataset conditions gets the default icon |
| CommunityReports.IconFor | src/app/community-reports/page.tsx:19-27 | `getIcon` equals the ordered table banjir/flood, kebakaran/fire, pohon/tree, lalu lintas/traffic, jalan rusak/road damage with default Tag, applied to the lowercased category |
| CommunityReports.LowerIcon | src/app/community-reports/page.tsx:21-26 | On an already lowercased category, the chain of checks is the first-match classification by that table |
| CommunityReports.IconForCaseInsensitive | src/app/community-reports/page.tsx:20 | Lowercasing the category first changes nothing |
| CommunityReports.FloodWins | src/app/community-reports/page.tsx:20-22 | A category mentioning flood or banjir gets Waves, even when it also mentions fire |
| CommunityReports.CategoryNameIcons | src/app/community-reports/page.tsx:21-26 | The categorising flow's examples Banjir, Pohon Tumbang, Kecelakaan Lalu Lintas and Jalan Rusak get their icons and Lainnya the default; so do Kebakaran and an English name for each group, which are this model's own examples |
| CommunityReports.Insert | src/app/community-reports/page.tsx:85 | Inserting into a newest-first list keeps it newest first, adds exactly the one report, and leaves the head either the new report or the old head |
| CommunityReports.SortNewestFirst | src/app/community-reports/page.tsx:85 | The result is a permutation of the input, ordered by descending timestamp |
| CommunityReports.SortKeepsSorted | src/app/community-reports/page.tsx:85 | A list already newest first is left unchanged |
| CommunityReports.ReportsLoaded | src/app/community-reports/page.tsx:81-89 | Loading ends with exactly the fetched reports, newest first |
| CommunityReports.ReportSubmitted | src/app/community-reports/page.tsx:91-95 | The new report is first, and the old list follows unchanged, so the length grows by one |
| CommunityReports.SubmittedNewestStaysSorted | src/app/community-reports/page.tsx:91-95 | Prepending a report no older than any listed one keeps the list newest first |
| CommunityReports.ViewOf | src/app/community-reports/page.tsx:112-124 | Skeletons exactly while loading, cards (the whole list in order) exactly when loaded and non-empty, else the empty message |
| CommunityReports.SubmittedReportShown | src/app/community-reports/page.tsx:91-124 | After loading, a submitted report is shown as the first card |
| AddReportDialog.SubmittableImpliesGuard | src/components/add-report-dialog.tsx:122-146 | An enabled submit button always passes the `handleSubmit` guard |
| AddReportDialog.GuardAllowsShortDescription | src/components/add-report-dialog.tsx:122 | The guard accepts a one-character description, even though the button would stay disabled |
| AddReportDialog.HandleClose | src/components/add-report-dialog.tsx:109-119 | Closing resets photo, description, location, location error and camera permission, but not the pending flag. Opening changes only the open flag |
| AddReportDialog.ClosedCannotSubmit | src/components/add-report-dialog.tsx:109-146 | A just-closed dialog neither passes the guard nor enables submit |
| AddReportDialog.LocationResult | src/components/add-report-dialog.tsx:49-64 | A position sets the location and clears the error. A failure, or no geolocation support, sets the error and keeps the location. The other fields are unchanged |
| AddReportDialog.CameraResult | src/components/add-report-dialog.tsx:67-81 | Records whether camera access was granted and nothing else |
| AddReportDialog.Capture | src/components/add-report-dialog.tsx:94-107 | A captured frame becomes the photo; no frame (no video, canvas or context) changes nothing |
| AddReportDialog.Retake | src/components/add-report-dialog.tsx:176 | Clears only the photo |
| AddReportDialog.CaptureRetakeCycle | src/components/add-report-dialog.tsx:174-179 | With camera permission and no photo, a captured frame hides the capture button and a retake brings it back |
| AddReportDialog.DescriptionChanged | src/components/add-report-dialog.tsx:182-188 | Typing is ignored while a submission is pending; otherwise it replaces the description and nothing else |
| AddReportDialog.HandleSubmit | src/components/add-report-dialog.tsx:121-127 | The report is sent exactly when the guard passes, and the dialog then becomes pending; a rejection changes nothing |
| AddReportDialog.SubmitSettled | src/components/add-report-dialog.tsx:127-144 | An error keeps the dialog state (only pending ends) and shows an error; success hands the report to the page and resets and closes the dialog |
| AddReportDialog.SuccessReachesPage | src/components/add-report-dialog.tsx:140-141 | A successful submission puts the report on top of the page's list, keeps the others in order and closes the dialog |
| NearbyAlert.ViewOf | src/components/nearby-alert.tsx:69-119 | Loading exactly while pending or without alert info, with "analyzing" exactly when a location is known. Permission-denied, at-risk (listing every tip in order) and safe views each appear exactly under the source's conditions |
| NearbyAlert.FetchRequest | src/components/nearby-alert.tsx:52-55 | A fetch is requested exactly when a location is known, for that location |
| NearbyAlert.Step | src/components/nearby-alert.tsx:28-67 | A `null` result keeps the alert info. A fetch becomes pending only with a location. Non-geolocation events never touch location or error |
| NearbyAlert.LastGeolocation | src/components/nearby-alert.tsx:28-50 | The last geolocation answer of a run, which appears in it; None exactly when the run holds none |
| NearbyAlert.RunError | src/components/nearby-alert.tsx:28-50 | The error after any run is set by its last geolocation answer: cleared by a position, the message of a failure, unchanged without one |
| NearbyAlert.RunLocation | src/components/nearby-alert.tsx:28-37 | A position is known after a run exactly when one was known before or some position callback fired |
| NearbyAlert.RunConsistent | src/components/nearby-alert.tsx:28-67 | In every run, however many geolocation answers it holds, alert info or a pending fetch needs a known location |
| NearbyAlert.PermissionDeniedNeedsFixThenFailure | src/components/nearby-alert.tsx:28-87 | The permission-denied view needs a position callback and a last geolocation answer that failed with a non-empty message |
| NearbyAlert.PermissionDeniedReachable | src/components/nearby-alert.tsx:28-87 | A position, its alert, then a failed repeat request shows the permission-denied view |
| NearbyAlert.NoPositionKeepsLoading | src/components/nearby-alert.tsx:69-77 | Without a position the component stays on "requesting location" forever |
| NearbyAlert.DeniedFirstKeepsAsking | src/components/nearby-alert.tsx:38-39 | A refused first request sets the error yet leaves the "requesting location" view |
| NearbyAlert.ViewIntended | src/components/nearby-alert.tsx:69-87 | The intended view: permission-denied exactly when an error is set, otherwise the component's view |
| NearbyAlert.DeniedShownWhenRefused | src/components/nearby-alert.tsx:28-87 | With the intended view, the notice shows exactly when the last geolocation answer was a failure |
| DisasterReport.SkipWhitespace | src/components/disaster-report-content.tsx:65 | Drops exactly the leading white space `parseInt` skips |
| DisasterReport.DigitPrefix | src/components/disaster-report-content.tsx:65 | The maximal prefix of decimal digits; empty exactly when the text does not start with a digit |
| DisasterReport.ParseInt10 | src/components/disaster-report-content.tsx:65 | `parseInt(text, 10)`: NaN (None) exactly when no digits follow the optional sign; a negative result needs a leading `-` |
| DisasterReport.IntToString | src/components/disaster-report-content.tsx:87-93 | `year.toString()` starts with a digit or `-` |
| DisasterReport.ParseIntToString | src/components/disaster-report-content.tsx:65-93 | Parsing a year's own text back gives that year, whatever non-digit text follows |
| DisasterReport.Initial | src/components/disaster-report-content.tsx:18-56 | The page starts at `city` in the current year with no years, data or analysis, and the reload effect at once requests that year's city data (none for a falsy year) |
| DisasterReport.Reload | src/components/disaster-report-content.tsx:36-56 | A falsy year (0 or NaN) reloads nothing. Otherwise chart data and analysis are cleared and the data for that location and year is requested |
| DisasterReport.LanguageChanged | src/components/disaster-report-content.tsx:36-56 | A change of language or of `t` fetches the current location and year again, clearing the shown results; a falsy year fetches nothing |
| DisasterReport.YearsLoaded | src/components/disaster-report-content.tsx:25-34 | The list is stored, and a non-empty list selects its first year. A reload happens only if that year differs from the current one and is truthy |
| DisasterReport.HandleLocationChange | src/components/disaster-report-content.tsx:58-62 | The current location changes nothing; a new one is set and reloads |
| DisasterReport.HandleYearChange | src/components/disaster-report-content.tsx:64-69 | The parsed year replaces the selection and reloads only when it differs; NaN compares equal to NaN as React's `Object.is` does |
| DisasterReport.PickListedYear | src/components/disaster-report-content.tsx:64-93 | Choosing a listed year selects exactly it, and reloads exactly when it differs from the current year and is not 0 |
| DisasterReport.NonNumericYearNoReload | src/components/disaster-report-content.tsx:37-67 | A year text without digits never starts a reload |
| DisasterReport.DataArrived | src/components/disaster-report-content.tsx:43-53 | Data is stored; analysis is requested exactly when it is non-empty, for that data and year, named by the city label for `city` and the regency label otherwise |
| DisasterReport.AnalysisArrived | src/components/disaster-report-content.tsx:52-54 | The analysis is stored and the reload ends |
| DisasterReport.ReloadClearsOldResults | src/components/disaster-report-content.tsx:36-62 | Switching location with a truthy year clears the previous chart data and analysis before new data arrives |
| DisasterReport.MountRequestsFirstYear | src/components/disaster-report-content.tsx:20-56 | The first listed year's data is always requested on mount: by the first reload when it is the current year, by the change of year otherwise |
| DisasterReport.LanguageChangeRepeatsReload | src/components/disaster-report-content.tsx:36-56 | A language change during a reload repeats the same request and changes nothing else |
| InfoCard.CardStyle | src/app/flood/page.tsx:22-27 | Icon and value take the status colour exactly when the card's label is the status label; otherwise the icon is primary and the value uncoloured |
| FloodPage.StatusTone | src/app/flood/page.tsx:14-19 | No status is primary; a status takes the colour of the ordered table Awas/Siaga 1, Siaga/Siaga 2, Waspada/Siaga 3 with default primary |
| FloodPage.RedundantChecks | src/app/flood/page.tsx:16-18 | Dropping the `Siaga 2` and `Siaga 3` tests never changes the colour |
| FloodPage.SiagaNeverYellow | src/app/flood/page.tsx:17-18 | No status mentioning `Siaga` is ever yellow |
| FloodPage.UnionTones | src/lib/flood.ts:4 | Over the status union, Siaga 1 is destructive and Siaga 2, 3 and 4 are orange; yellow never occurs |
| FloodPage.YellowOnlyOutsideUnion | src/app/flood/page.tsx:18 | The yellow branch needs a `Waspada` without `Siaga`, which no union member is |
| FloodPage.StatusCardStyle | src/app/flood/page.tsx:114-117 | The status card is coloured by its status exactly when the translated label is `Status`; other cards are plain |
| FloodPage.PlainCardStyle | src/app/flood/page.tsx:19-27 | A card without a status gets primary: coloured only on the `Status` label |
| VolcanoPage.StatusTone | src/app/volcano/page.tsx:14-18 | No status is primary; a status takes the colour of the ordered table Awas, Siaga, Waspada with default primary |
| VolcanoPage.UnionTones | src/lib/volcano.ts:3 | Level IV is destructive, Level III orange, Level II yellow, Level I primary |
| VolcanoPage.UnionTonesDistinct | src/lib/volcano.ts:3 | Different alert levels get different colours |
| VolcanoPage.PageCardStyles | src/app/volcano/page.tsx:112-114 | The Status card carries its level's colour; Volcano and Last Activity are plain |
| LandslidePage.RiskTone | src/app/landslide/page.tsx:13 | Destructive exactly for High, accent exactly for Moderate, primary exactly for Low or no risk level |
| LandslidePage.RiskTonesDistinct | src/lib/landslide.ts:3 | Different risk levels get different colours |
| LandslidePage.PageCardStyles | src/app/landslide/page.tsx:109-113 | The Risk Level card carries its colour; the four other cards are plain |
| FirePage.StatusTone | src/app/fire/page.tsx:13 | Destructive exactly for Active, accent exactly for Under Control, primary exactly for Contained or no status |
| FirePage.PageCardStyles | src/app/fire/page.tsx:109-113 | The Status card carries its colour; the four other cards are plain |

## Left out

- The AI flows (weather recommendations, nearby alert, trend analysis, report categorisation) are LLM calls whose output has no specification. The model receives them as function parameters or abstract events.
- No distance, radius or hazard-risk computation exists in the code; risk thresholds live only in prompt text.
- The mock hazard data files and `src/lib/reports.ts` are constant data with timer delays. Only their status unions are used, as enumerations.
- These server actions are not part of this model: `submitReport`, `fetchReports`, `getAnnualDisasterData`, `getAvailableYears`, `fetchNearbyAlert` and `fetchDisasterTrendAnalysis`. Their answers are inputs.
- Browser I/O is abstracted away:
  - Geolocation, camera streams, canvas capture and toasts.
  - Dynamic locale imports and `useTransition` scheduling.
  - The ordering of concurrent async callbacks.
  Each outcome is an event or a parameter. The model does not track the weather widget's `isPending` flag because nothing in the modelled logic reads it.
- Clocks and dates are simplified. `Date`, `toUTCString`, `toISOString` and date-fns formatting are left out. A forecast day's `fullDate` is a day number, a cookie's expiry text is a parameter, and report timestamps are integer milliseconds.
- Floating-point coordinates are never computed on and are carried as reals.
- JSON arrays in locale tables and prototype-chain hits of the `in` operator are not modelled. Lookups see only a table's own keys.
- Case and white space are ASCII only:
  - `toLowerCase` is ASCII-only.
  - `parseInt`'s white space covers ASCII plus U+00A0, U+FEFF, U+2028 and U+2029, but not the other Unicode space separators.
  - `parseInt`'s loss of precision on very long digit strings, and `-0`, are not modelled.
- Presentation is left out: skeleton layouts, charts, the earthquake and whirlwind pages, and the report category icons' colour classes.
- CommunityReports.SortNewestFirst: states a descending permutation, not the stability of JavaScript's sort among reports with equal timestamps.
- Cookies.AssignedPair: drops only the leading spaces of the name-value pair; the trailing white space that section 5.2 of RFC 6265 also trims is kept, because no name or value written here has any.
- Cookies.Store: the jar is one flat list of name-value pairs; domains, paths, expiry and the browser's ordering by path length are not modelled, and a cookie is assumed still stored at the next visit.
- Translation.MountRacesLoads: which of the two imports resolves last, and so which table is shown, is not modelled; the order of async completions is an input.
- React's development-mode double run of effects is not modelled; effects run once, in order, with the values of the render that scheduled them, and state updates from one batch land together, the last one winning.

## Findings

| source | as written | input that shows it | evidently intended | confidence | as-written member | corrected member |
|---|---|---|---|---|---|---|
| src/contexts/language-context.tsx:60-65 | On mount the second effect still sees the first render's language `id` and empty table, so right after the first effect applies the saved language it calls `setLanguage("id")`; that later update wins, the cookie is rewritten to `id`, and both locale files load | the switcher chose English, so the cookie holds `app-language=en`: the next mount ends in `id` (`Translation.ChosenEnglishIsLost`) and leaves `id` saved (`Translation.MountDiscardsSavedLanguage`) | the effect loads a table for the current language only, so the saved language survives a reload (`Translation.LanguagePersists`) | medium, not executed | Translation.Mount | Translation.MountIntended |
| src/components/nearby-alert.tsx:69-87 | `renderContent` tests `isPending \|\| !alertInfo` before `locationError`, and without a position no alert can arrive, so a refused first request keeps the "requesting location" spinner | one geolocation failure, the user refusing permission: the error is set yet the view is `Loading(false)` (`NearbyAlert.DeniedFirstKeepsAsking`) | a refused request shows the permission-denied notice (`NearbyAlert.DeniedShownWhenRefused`) | medium, not executed | NearbyAlert.ViewOf | NearbyAlert.ViewIntended |
