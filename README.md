# SkyCast core, modelled in Dafny

SkyCast is a React weather front end. Apart from markup and network calls,
its logic is a handful of small list transforms and keyword or threshold
mappings inside the components. This project models them and proves what
they promise:

- **Favorites store** (`favorites.dfy`). This covers the component's
  `favorites` state as a class `FavoritesStore`, with `Add`, `Remove`,
  `IsFavorite` and the add/remove button's `Toggle`.
  - The list transforms are pure functions: `AddTo`, `RemoveFrom` and `Toggled`.
  - The list is most recent first, holds at most 8 entries, and is
    deduplicated on the key (lower-cased name, exact country).
  - The entry id, which the component takes from the clock, is a parameter.
- **Daily forecast** (`forecast.dfy`).
  - `DailyForecasts` is the `forEach` loop that keeps the first sample of
    each calendar day, tracked with a set, followed by the cut to five days.
    It is proved against the function `Daily`, and `Daily`'s properties are
    proved as lemmas.
  - The same file has the forecast row helpers: the unit-suffixed
    temperature, the Today/Tomorrow label and the condition emoji.
  - The local calendar day of a timestamp is supplied as a function
    `dayOf`, and the current day as `today`.
- **Alerts** (`alerts.dfy`). This covers the sequence of threshold and
  keyword tests of `getAlertType`, the banner's guards and the icon colour
  lookup with its fallback.
- **Current-conditions card** (`weather_card.dfy`). It holds the card's
  temperature text, the icon URL, the humidity, pressure and wind strings,
  and the card shown for a missing record.
- **Application shell** (`app.dfy`). It holds the background gradient,
  computed from the condition and an hour supplied as a parameter, and what
  a search does with its term and the configured API key.

`text.dfy` holds the string and number primitives the components use:
`includes` becomes `Contains`, `toLowerCase` becomes `Lower` and `trim`
becomes `Trim`. Interpolating a rounded number becomes `IntToString` of
`Round`, which the text can be read back from. `text.dfy` also holds a
first-match keyword table, `FirstMatch`, which each `if`/`else if` chain
of `includes` tests is proved equal to.

`provider.dfy` holds the weather provider's record shapes. A field that
may be absent (`undefined` or `null`) is an `Option`. The records are
decoded JSON, which cannot hold `NaN`, so a present number is finite. In
JavaScript an `undefined` reading fails every comparison, while a `null`
one compares as 0. The alert thresholds are 35, -10, 15 and 85, and none
of them admits 0. So both kinds of missing reading raise no alert, which
`Alerts.MissingLikeZero` states.

Design decisions:

- WeatherCard.jsx repeats ForecastCard.jsx's `getWeatherEmoji`
  character for character. The model defines the chain once,
  `Forecast.WeatherEmoji`, and the card uses it, so the two copies agree
  on every input by construction.
- The forecast loop keeps one sample for every day, and the card then
  keeps the first five. `Forecast.TakeDailyIsDailyUpTo` proves that this
  equals a grouping that stops once five days are kept, and
  `Forecast.DailyTakesFirstOfDay` proves that each kept sample is the first
  sample of its day.
- App.jsx:275 hands FavoritesManager's `AddToFavoritesButton` to `WeatherCard`, but `WeatherCard` (WeatherCard.jsx:18) takes only `weather` and never renders the button. So, as written, nothing on screen reaches the add/remove click (FavoritesManager.jsx:186-198) or `addToFavorites`, and the list can only be filled from local storage. `Favorites.Toggled`, `Favorites.AddTo` and the store's `Toggle` and `Add` model the handlers as written.

## Model

| member | source | states |
|---|---|---|
| Text.Lower | src/components/FavoritesManager.jsx:42 | lower-casing keeps the length and lowers each character on its own |
| Text.Contains | src/components/AlertsBanner.jsx:36 | `includes`, defined by recursion over the string; `Text.ContainsIff` characterises it as an occurrence at some offset |
| Text.ContainsIff | src/components/AlertsBanner.jsx:36 | `includes` holds exactly when the keyword occurs at some offset |
| Text.Trim | src/App.jsx:100 | the result is a slice with only white space cut off either end, and it neither starts nor ends with white space |
| Text.TrimOfTrimmed | src/App.jsx:100 | trimming a string that has no white space at either end returns it unchanged |
| Text.Round | src/components/ForecastCard.jsx:4 | `Math.round` gives the integer within half of the value, with halves rounded up |
| Text.NatToString | src/components/WeatherCard.jsx:127 | the decimal text of a natural number is canonical (digits with no leading zero), and it is "0" exactly for 0 |
| Text.IntToString | src/components/WeatherCard.jsx:127 | the decimal text of an integer is canonical, and it starts with a minus sign exactly for a negative integer |
| Text.IntToStringRoundTrip | src/components/WeatherCard.jsx:127 | the integer reads back from its decimal text |
| Text.CanonicalIsIntToString | src/components/WeatherCard.jsx:127 | every canonical numeral is the text of its own value, so the value fixes the text |
| Text.WithSuffix | src/components/WeatherCard.jsx:127 | an interpolated integer followed by a suffix ends with the suffix, and the text before it is the canonical numeral of the integer |
| Provider.PrimaryMain | src/components/AlertsBanner.jsx:98-99 | the primary condition exists exactly when the condition list is non-empty, and it is the first entry's keyword |
| Favorites.DisplayName | src/components/FavoritesManager.jsx:35 | `name, country` when the country is a non-empty string, the bare name when it is absent or empty |
| Favorites.HasKey | src/components/FavoritesManager.jsx:40-44 | true exactly when some entry has the same lower-cased name and the same country |
| Favorites.FindFavorite | src/components/FavoritesManager.jsx:188-192 | finds an entry exactly when a key matches, and it is the first entry with that key |
| Favorites.AddTo | src/components/FavoritesManager.jsx:38-52 | the definition of the update `addToFavorites` applies; characterised by `AddExistingUnchanged`, `AddNewPrepends`, `AddBounded`, `AddToFullEvictsLast`, `AddMakesFavorite`, `AddTwiceSameAsOnce` and `AddPreservesNoDuplicateKeys` |
| Favorites.RemoveFrom | src/components/FavoritesManager.jsx:56-58 | keeps exactly the entries whose id differs, in their original order |
| Favorites.RemoveFromCounts | src/components/FavoritesManager.jsx:56-58 | every entry with the id is dropped, and every other entry is kept as many times as it occurs |
| Favorites.Toggled | src/components/FavoritesManager.jsx:186-198 | the definition of the button's click on the list; characterised by `ToggleFlips` and `TogglePreservesInvariant` |
| Favorites.AddExistingUnchanged | src/components/FavoritesManager.jsx:38-48 | adding a key already present returns the list unchanged |
| Favorites.AddNewPrepends | src/components/FavoritesManager.jsx:51 | adding a new key puts the new entry first and keeps the first seven old entries after it, in order |
| Favorites.AddBounded | src/components/FavoritesManager.jsx:51 | after an add, a list of at most 8 entries still has at most 8 |
| Favorites.AddToFullEvictsLast | src/components/FavoritesManager.jsx:51 | a new key added to a full list drops exactly the old last entry |
| Favorites.AddMakesFavorite | src/components/FavoritesManager.jsx:40-51 | after an add, the key is present, also when it is asked for with different letter case |
| Favorites.AddTwiceSameAsOnce | src/components/FavoritesManager.jsx:38-51 | adding the same key again, in any letter case, changes nothing |
| Favorites.AddPreservesNoDuplicateKeys | src/components/FavoritesManager.jsx:38-51 | add keeps the list free of duplicate keys |
| Favorites.RemoveAbsentUnchanged | src/components/FavoritesManager.jsx:56-58 | removing an id no entry has changes nothing |
| Favorites.RemoveIdempotent | src/components/FavoritesManager.jsx:56-58 | removing the same id twice is the same as once |
| Favorites.RemovePreservesNoDuplicateKeys | src/components/FavoritesManager.jsx:56-58 | remove keeps the list free of duplicate keys |
| Favorites.RemoveClearsKey | src/components/FavoritesManager.jsx:193-195 | in a list without duplicate keys, removing the id of the entry with a key leaves no entry with that key |
| Favorites.ToggleFlips | src/components/FavoritesManager.jsx:186-198 | in a list without duplicate keys, toggling flips whether the key is a favorite |
| Favorites.TogglePreservesInvariant | src/components/FavoritesManager.jsx:186-198 | toggling keeps the list bounded by 8 and free of duplicate keys |
| Favorites.AddExample | src/components/FavoritesManager.jsx:30-54 | adding Colombo (LK), then colombo (LK), then London (GB) gives London then Colombo |
| Favorites.FavoritesStore.constructor | src/components/FavoritesManager.jsx:6 | the store starts empty and valid |
| Favorites.FavoritesStore.IsFavorite | src/components/FavoritesManager.jsx:60-66 | true exactly when some stored entry has the key |
| Favorites.FavoritesStore.Add | src/components/FavoritesManager.jsx:30-54 | the new state is `AddTo` of the old, it is persisted, validity is kept, and the key is then a favorite |
| Favorites.FavoritesStore.Remove | src/components/FavoritesManager.jsx:56-58 | the new state is `RemoveFrom` of the old, it is persisted, and validity is kept |
| Favorites.FavoritesStore.Toggle | src/components/FavoritesManager.jsx:181-198 | the new state is `Toggled` of the old and it is persisted; from a valid state, validity is kept and the favorite status flips |
| Forecast.Daily | src/components/ForecastCard.jsx:43-54 | the definition of what the `forEach` collects; characterised by `DailyCoversDays`, `DailyIsSubsequence`, `DailyDistinctDays`, `DailyCount`, `DailyTakesFirstOfDay` and `TakeDailyIsDailyUpTo`, and the loop `DailyForecasts` is proved equal to it |
| Forecast.DaysOfMembers | src/components/ForecastCard.jsx:44-53 | the set of days is exactly the days some sample falls on |
| Forecast.DailyCoversDays | src/components/ForecastCard.jsx:44-54 | the grouped samples cover exactly the days of the input |
| Forecast.DailyIsSubsequence | src/components/ForecastCard.jsx:46-54 | the grouped samples are a subsequence of the input, in input order |
| Forecast.DailyDistinctDays | src/components/ForecastCard.jsx:50-53 | no two grouped samples fall on the same day |
| Forecast.DailyCount | src/components/ForecastCard.jsx:46-54 | there are as many grouped samples as distinct days in the input |
| Forecast.DailyTakesFirstOfDay | src/components/ForecastCard.jsx:50-53 | each grouped sample is the first input sample of its day |
| Forecast.DisplayedDays | src/components/ForecastCard.jsx:57 | the card shows min(5, number of distinct days) entries, and none for an empty list |
| Forecast.TakeDailyIsDailyUpTo | src/components/ForecastCard.jsx:46-57 | grouping every day and then keeping the first five is the same as grouping and stopping once five days are kept |
| Forecast.DailyForecasts | src/components/ForecastCard.jsx:39-57 | nothing when the list is missing, otherwise the first five entries of `Daily` of the list |
| Forecast.UnitSymbol | src/components/ForecastCard.jsx:3 | the definition of the unit symbol, °C for "metric" and °F otherwise; `Forecast.FormatTemp` and `WeatherCard.FormatTempAgreesWithForecast` state what it contributes |
| Forecast.FormatTemp | src/components/ForecastCard.jsx:1-5 | a dash for a missing value; otherwise text ending in °C for "metric" and °F for any other unit, with the canonical numeral of the rounded value before it |
| Forecast.FormatDate | src/components/ForecastCard.jsx:19-35 | "Today" exactly on today, "Tomorrow" exactly on the next day, the long date on any other day |
| Forecast.WeatherEmoji | src/components/ForecastCard.jsx:7-17 | the definition of `getWeatherEmoji`, used for both cards; characterised by `WeatherEmojiIsFirstMatch`, `WeatherEmojiIgnoresCase` and `WeatherEmojiKeywords` |
| Forecast.WeatherEmojiIsFirstMatch | src/components/ForecastCard.jsx:7-17 | the emoji is the first match of the lower-cased condition in the order clear, cloud, rain, drizzle, snow, thunder, mist or fog, with 🌤️ as the default |
| Forecast.WeatherEmojiIgnoresCase | src/components/ForecastCard.jsx:8 | letter case does not matter, and an absent or empty condition gives the default emoji |
| Forecast.WeatherEmojiKeywords | src/components/WeatherCard.jsx:6-16 | clear wins over every keyword, rain over drizzle, and the default is shown exactly when no keyword occurs |
| Alerts.Record | src/components/AlertsBanner.jsx:6-72 | the definition of the record pushed for each kind, from its type, icon, title and message; `AlertSeveritiesKnown` states that every type is in the colour table |
| Alerts.TempAlert | src/components/AlertsBanner.jsx:5-22 | the definition of the temperature group; characterised by `AlertsForSpec`, `GroupCategories` and `AtMostOnePerGroup` |
| Alerts.WindAlert | src/components/AlertsBanner.jsx:24-32 | the definition of the wind group; characterised by `AlertsForSpec` and `GroupCategories` |
| Alerts.ConditionAlert | src/components/AlertsBanner.jsx:34-63 | the definition of the condition group as a keyword table; `ConditionAlertChain` proves it is the thunder, snow, rain-or-drizzle chain |
| Alerts.HumidityAlert | src/components/AlertsBanner.jsx:66-73 | the definition of the humidity group; characterised by `AlertsForSpec` and `GroupCategories` |
| Alerts.AlertsFor | src/components/AlertsBanner.jsx:2-75 | the definition of the list `getAlertType` returns; characterised by `AlertsForOrder`, `AlertsForMembers`, `AlertsForSpec` and `NoAlertsIff`, and the method `GetAlertType` is proved equal to it |
| Alerts.ConditionAlertChain | src/components/AlertsBanner.jsx:35-63 | the condition alert is thunderstorm, else snow, else rain for rain or drizzle, else none |
| Alerts.GroupCategories | src/components/AlertsBanner.jsx:4-73 | each group raises only alerts of its own category |
| Alerts.AlertsForOrder | src/components/AlertsBanner.jsx:2-75 | at most four alerts, always in the order temperature, wind, condition, humidity |
| Alerts.AlertsForMembers | src/components/AlertsBanner.jsx:2-75 | an alert is in the list exactly when its group raised it |
| Alerts.AlertsForSpec | src/components/AlertsBanner.jsx:5-73 | heat exactly when temp ≥ 35, cold exactly when temp ≤ -10, wind exactly when speed ≥ 15, humidity exactly when ≥ 85, and one condition alert with precedence thunder, then snow, then rain or drizzle |
| Alerts.AtMostOnePerGroup | src/components/AlertsBanner.jsx:5-63 | heat and cold never both appear, and at most one condition alert does |
| Alerts.MissingReadingsRaiseNothing | src/components/AlertsBanner.jsx:100-105 | missing temperature, wind and humidity raise no alert of their groups |
| Alerts.MissingLikeZero | src/components/AlertsBanner.jsx:5-73 | missing readings give the same alerts as readings of 0, namely the condition alert alone |
| Alerts.NoAlertsIff | src/components/AlertsBanner.jsx:2-75 | the list is empty exactly when no threshold is reached and no keyword occurs |
| Alerts.GetAlertType | src/components/AlertsBanner.jsx:1-76 | the pushes give exactly `AlertsFor` of the inputs |
| Alerts.Banner | src/components/AlertsBanner.jsx:95-107 | nothing without a record or without alerts, otherwise the alerts of the primary condition and the readings |
| Alerts.SeverityColor | src/components/AlertsBanner.jsx:78-90 | the table colour of a known severity, and the info colour for any other |
| Alerts.AlertSeveritiesKnown | src/components/AlertsBanner.jsx:1-90 | the severity of every alert `getAlertType` pushes is a key of the colour table, so no alert falls back to the info colour |
| WeatherCard.FormatTemp | src/components/WeatherCard.jsx:1-4 | a dash for a missing value, otherwise the canonical numeral of the rounded value followed by a degree sign |
| WeatherCard.FormatTempAgreesWithForecast | src/components/WeatherCard.jsx:1-4 | the forecast card's text is this text plus the unit letter, and both give a dash for a missing value |
| WeatherCard.IconUrl | src/components/WeatherCard.jsx:28-31 | a URL exactly when the primary condition has a non-empty icon code, made of the fixed prefix, the code and the fixed suffix |
| WeatherCard.IconUrlInjective | src/components/WeatherCard.jsx:29-31 | different icon codes give different URLs |
| WeatherCard.StatText | src/components/WeatherCard.jsx:127 | a dash when missing, otherwise text ending in the unit with the canonical numeral of the value before it |
| WeatherCard.HumidityText | src/components/WeatherCard.jsx:127 | a dash when missing, otherwise `<n>%` with `n` the canonical numeral of the reading |
| WeatherCard.WindText | src/components/WeatherCard.jsx:146 | a dash when missing, otherwise the canonical numeral of the rounded speed followed by " m/s" |
| WeatherCard.PressureText | src/components/WeatherCard.jsx:165 | a dash when missing, otherwise `<n> hPa` with `n` the canonical numeral of the reading |
| WeatherCard.Card | src/components/WeatherCard.jsx:18-102 | a missing record gives a card of dashes; with a record, the name as is, the country exactly when it is a non-empty string, the primary description or a dash, the icon URL, both temperatures, the min/max line and the three stats through their formatters; the emoji badge appears exactly with the icon and is the primary condition's emoji; the min/max line appears exactly when both bounds are present |
| App.IsNight | src/App.jsx:39 | the definition of night; `NightBoundaries` states where day begins and ends |
| App.NightBoundaries | src/App.jsx:38-39 | hours 6 to 18 are day, and 5 and 19 are night |
| App.Background | src/App.jsx:34-64 | the default gradient, at every hour, when there is no record or no primary condition |
| App.ConditionGradient | src/App.jsx:41-63 | the definition of the gradient chain; `BackgroundIsFirstMatch`, `ThunderIgnoresHour` and `UnmatchedLooksClear` characterise it |
| App.BackgroundIsFirstMatch | src/App.jsx:37-63 | the gradient is the first match of the lower-cased condition in the order clear, cloud, rain or drizzle, snow, thunder, and the clear gradient when nothing matches |
| App.BackgroundDependsOnlyOnNight | src/App.jsx:38-63 | two hours that are both day or both night give the same gradient |
| App.ThunderIgnoresHour | src/App.jsx:57-58 | the thunder gradient is the same by day and by night |
| App.UnmatchedLooksClear | src/App.jsx:41-63 | a condition matching no keyword gets the clear gradient of the same hour |
| App.BackgroundIgnoresCase | src/App.jsx:37 | lower-casing the condition first changes nothing |
| App.ApiKey | src/App.jsx:25 | the key is the configured value with white space cut from both ends, and an unset key is empty |
| App.SearchTerm | src/App.jsx:100 | the trimmed argument when it is non-blank, otherwise the trimmed query; blank exactly when both are blank; already trimmed |
| App.HandleSearch | src/App.jsx:99-107 | no request exactly for a blank term; the fixed missing-key message exactly for a non-blank term without a key; otherwise a request for the term with the key |
| App.ArgumentWins | src/App.jsx:100 | with a non-blank argument, the query box does not matter |
| App.FetchTermTrimmed | src/App.jsx:100-101 | the requested term has no white space at either end |

## Left out

- Reading and writing local storage, and the JSON encoding of the list, are left out because they are browser I/O. A ghost field `persisted` records that every change rewrites the stored list in full. Restoring the list on startup is not modelled.
- `Date.now()` as the source of ids is a clock read, so the id is a parameter.
- `toDateString`, `toLocaleDateString` and `toLocaleTimeString` depend on locale and time zone. The day key is the parameter `dayOf`, and the long date is the constructor `LongDate(dt)`.
- Text.Lower: lowers ASCII letters only. JavaScript's `toLowerCase` also folds non-ASCII letters.
- Forecast.FormatTemp, WeatherCard.FormatTemp, WeatherCard.WindText: do not model floating point. Values are reals, and `Math.round` is `(x + 0.5).Floor`.
- WeatherCard.HumidityText, WeatherCard.PressureText: take the readings as integers, as the provider sends them. Interpolating a fractional value is not modelled.
- WeatherCard.Card: readings come from decoded JSON, so `NaN` cannot occur, and `undefined` and `null` are both `None`. The visibility stat `(visibility / 1000).toFixed(1)` is left out, because it is decimal formatting of a float.
- Alerts.HumidityAlert: takes humidity as an integer, as the provider sends it. A fractional humidity compared with 85 is not modelled.
- Alerts.Banner: returns the alert kinds. `Alerts.Record` gives the type, icon, title and message pushed for each kind. The colour and border class strings of the markup are not modelled.
- Alerts.SeverityColor: a JavaScript object also has prototype keys, such as `constructor`. Looking one of those up is not modelled.
- The API client in src/lib/openWeather.js is left out, because it is network I/O. So are the asynchronous handlers in src/App.jsx: the parallel requests, `handleLocationFound`, the unit change and the initial load, together with their loading and error state. App.HandleSearch stops at the decision to send the two requests.
- The forecast rows' humidity text and wind badge (src/components/ForecastCard.jsx:123-133) are left out, so `ForecastItem` holds no humidity or wind field. They differ from the current card's stats, which the model does cover: the humidity text has no missing-value test, so a missing humidity prints "% humidity" and not a dash. The wind badge is guarded by truthiness, so a speed of 0 hides it and React prints a bare `0`.
- src/components/SearchBar.jsx and src/components/UnitToggle.jsx are left out, because they are presentation only. So are all JSX, CSS class strings other than the chosen gradient, and SVG.
