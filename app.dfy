/** The application shell's two decisions: the background gradient chosen
    from the current conditions and the hour of day, and what a search
    does with its term and the configured API key. The hour is a parameter
    in place of the local clock. */
module App {
  import opened Text
  import opened Provider

  // ---------------------------------------------------------------------
  // Background gradient

  const DefaultGradient := "from-blue-400 via-blue-500 to-blue-600"
  const ClearNightGradient := "from-indigo-900 via-purple-900 to-blue-900"
  const ClearDayGradient := "from-blue-400 via-blue-500 to-cyan-500"
  const CloudNightGradient := "from-gray-700 via-gray-800 to-gray-900"
  const CloudDayGradient := "from-gray-400 via-gray-500 to-blue-500"
  const RainNightGradient := "from-slate-800 via-slate-900 to-blue-900"
  const RainDayGradient := "from-slate-500 via-blue-600 to-blue-700"
  const SnowNightGradient := "from-blue-900 via-indigo-900 to-slate-900"
  const SnowDayGradient := "from-blue-200 via-blue-300 to-blue-400"
  const ThunderGradient := "from-gray-800 via-purple-900 to-gray-900"

  /** Night is before six in the morning or after six in the evening; the
      hours 6 and 18 themselves are day. */
  predicate IsNight(hour: int) {
    hour < 6 || hour > 18
  }

  lemma NightBoundaries()
    ensures IsNight(5) && !IsNight(6) && !IsNight(18) && IsNight(19)
    ensures forall hour :: 6 <= hour <= 18 ==> !IsNight(hour)
  {
  }

  /** The gradient for an already lower-cased condition keyword. */
  function ConditionGradient(condition: string, night: bool): string {
    if Contains(condition, "clear") then
      if night then ClearNightGradient else ClearDayGradient
    else if Contains(condition, "cloud") then
      if night then CloudNightGradient else CloudDayGradient
    else if Contains(condition, "rain") || Contains(condition, "drizzle") then
      if night then RainNightGradient else RainDayGradient
    else if Contains(condition, "snow") then
      if night then SnowNightGradient else SnowDayGradient
    else if Contains(condition, "thunder") then
      ThunderGradient
    else
      if night then ClearNightGradient else ClearDayGradient
  }

  /** `getWeatherBackground`: the default gradient when there is no record
      or it has no primary condition, otherwise the gradient of the
      lower-cased primary condition at the given hour. */
  function Background(weather: Option<CurrentWeather>, hour: int): (r: string)
    ensures (weather.None? || weather.value.conditions == []) ==> r == DefaultGradient
  {
    if weather.None? || |weather.value.conditions| == 0 then DefaultGradient
    else ConditionGradient(Lower(weather.value.conditions[0].main), IsNight(hour))
  }

  /** The gradient table in the order of the chain; unmatched conditions
      fall through to the clear gradient. */
  function GradientRules(night: bool): seq<Rule<string>> {
    [ Rule(["clear"], if night then ClearNightGradient else ClearDayGradient),
      Rule(["cloud"], if night then CloudNightGradient else CloudDayGradient),
      Rule(["rain", "drizzle"], if night then RainNightGradient else RainDayGradient),
      Rule(["snow"], if night then SnowNightGradient else SnowDayGradient),
      Rule(["thunder"], ThunderGradient) ]
  }

  /** With a primary condition present, the background is the first match of
      the lower-cased condition in the order clear, cloud, rain or drizzle,
      snow, thunder, and the clear gradient when nothing matches. */
  lemma BackgroundIsFirstMatch(weather: CurrentWeather, hour: int)
    requires weather.conditions != []
    ensures var night := IsNight(hour);
            Background(Some(weather), hour) ==
            FirstMatch(GradientRules(night), Lower(weather.conditions[0].main),
                       if night then ClearNightGradient else ClearDayGradient)
  {
    var night := IsNight(hour);
    var w := Lower(weather.conditions[0].main);
    var r := GradientRules(night);
    var d := if night then ClearNightGradient else ClearDayGradient;
    assert r[0].keywords == ["clear"] && r[1].keywords == ["cloud"];
    assert r[2].keywords == ["rain", "drizzle"];
    assert r[3].keywords == ["snow"] && r[4].keywords == ["thunder"];
    assert AnyContained(w, ["clear"]) == Contains(w, "clear");
    assert AnyContained(w, ["cloud"]) == Contains(w, "cloud");
    assert AnyContained(w, ["rain", "drizzle"]) == (Contains(w, "rain") || Contains(w, "drizzle"));
    assert AnyContained(w, ["snow"]) == Contains(w, "snow");
    assert AnyContained(w, ["thunder"]) == Contains(w, "thunder");
    FirstMatchOfFive(r, w, d);
  }

  /** The hour matters only through day or night. */
  lemma BackgroundDependsOnlyOnNight(weather: Option<CurrentWeather>, h1: int, h2: int)
    requires IsNight(h1) == IsNight(h2)
    ensures Background(weather, h1) == Background(weather, h2)
  {
  }

  /** A thunderstorm (with none of the earlier keywords) gets the same
      gradient by day and by night. */
  lemma ThunderIgnoresHour(weather: CurrentWeather, h1: int, h2: int)
    requires weather.conditions != []
    requires var c := Lower(weather.conditions[0].main);
             Contains(c, "thunder") && !Contains(c, "clear") && !Contains(c, "cloud") &&
             !Contains(c, "rain") && !Contains(c, "drizzle") && !Contains(c, "snow")
    ensures Background(Some(weather), h1) == Background(Some(weather), h2) == ThunderGradient
  {
  }

  /** A condition matching no keyword gets the gradient of a clear sky at the
      same hour. */
  lemma UnmatchedLooksClear(weather: CurrentWeather, clear: CurrentWeather, hour: int)
    requires weather.conditions != [] && clear.conditions != []
    requires var c := Lower(weather.conditions[0].main);
             !Contains(c, "clear") && !Contains(c, "cloud") && !Contains(c, "rain") &&
             !Contains(c, "drizzle") && !Contains(c, "snow") && !Contains(c, "thunder")
    requires Contains(Lower(clear.conditions[0].main), "clear")
    ensures Background(Some(weather), hour) == Background(Some(clear), hour)
  {
  }

  /** Letter case in the condition does not matter. */
  lemma BackgroundIgnoresCase(weather: CurrentWeather, hour: int)
    requires weather.conditions != []
    ensures var c := weather.conditions[0];
            var lowered := weather.(conditions := [c.(main := Lower(c.main))] + weather.conditions[1..]);
            Background(Some(weather), hour) == Background(Some(lowered), hour)
  {
    LowerIdempotent(weather.conditions[0].main);
  }

  // ---------------------------------------------------------------------
  // Search

  const MissingKeyMessage :=
    "Missing API key. Set VITE_OPENWEATHER_API_KEY in .env and restart the dev server."

  /** The configured API key with white space cut from both ends; an unset
      key reads as "". */
  function ApiKey(configured: Option<string>): (key: string)
    ensures key != [] ==> !IsSpace(key[0]) && !IsSpace(key[|key| - 1])
    ensures configured.None? ==> key == ""
    ensures configured.Some? ==> key == Trim(configured.value)
  {
    Trim(configured.GetOr(""))
  }

  /** `city?.trim() || query.trim()`: the trimmed argument unless it is
      missing or blank, then the trimmed query. The term is blank exactly
      when both are, and trimming it again changes nothing. */
  function SearchTerm(city: Option<string>, query: string): (term: string)
    ensures city.Some? && Trim(city.value) != "" ==> term == Trim(city.value)
    ensures (city.None? || Trim(city.value) == "") ==> term == Trim(query)
    ensures term == "" <==> (city.None? || Trim(city.value) == "") && Trim(query) == ""
    ensures Trim(term) == term
  {
    var fromCity := if city.Some? then Trim(city.value) else "";
    var term := if fromCity != "" then fromCity else Trim(query);
    TrimOfTrimmed(term);
    term
  }

  /** What a search does before any request: nothing at all, the
      missing-key error, or a request for the term with the key. */
  datatype SearchStep = NoRequest | MissingKey(message: string) | Fetch(term: string, apiKey: string)

  /** `handleSearch` up to the requests: a blank term does nothing (whether
      or not a key is configured); a term without a key sets the fixed
      error message; otherwise both requests go out for the term. */
  function HandleSearch(city: Option<string>, query: string, configured: Option<string>): (r: SearchStep)
    ensures r.NoRequest? <==> SearchTerm(city, query) == ""
    ensures r.MissingKey? <==> SearchTerm(city, query) != "" && ApiKey(configured) == ""
    ensures r.MissingKey? ==> r.message == MissingKeyMessage
    ensures r.Fetch? ==> r.term == SearchTerm(city, query) && r.term != "" &&
                         r.apiKey == ApiKey(configured) && r.apiKey != ""
  {
    var term := SearchTerm(city, query);
    if term == "" then NoRequest
    else if ApiKey(configured) == "" then MissingKey(MissingKeyMessage)
    else Fetch(term, ApiKey(configured))
  }

  /** A non-blank argument wins over the query box, whatever the query. */
  lemma ArgumentWins(city: string, q1: string, q2: string, configured: Option<string>)
    requires Trim(city) != ""
    ensures HandleSearch(Some(city), q1, configured) == HandleSearch(Some(city), q2, configured)
  {
  }

  /** The requested term never carries surrounding white space. */
  lemma FetchTermTrimmed(city: Option<string>, query: string, configured: Option<string>)
    requires HandleSearch(city, query, configured).Fetch?
    ensures var t := HandleSearch(city, query, configured).term;
            !IsSpace(t[0]) && !IsSpace(t[|t| - 1])
  {
  }
}
