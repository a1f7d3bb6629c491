/** Weather alerts derived from the current conditions: at most one
    temperature alert, one wind alert, one condition alert and one humidity
    alert, in that order. A missing reading is `None`. In JavaScript an
    `undefined` reading fails every comparison, and a `null` one compares
    as 0. None of the thresholds 35, -10, 15 and 85 admits 0, so both raise
    no alert (`MissingLikeZero`). */
module Alerts {
  import opened Text
  import opened Provider

  /** The seven alerts `getAlertType` can push. */
  datatype AlertKind = Heat | Cold | Wind | Thunderstorm | Snow | Rain | Humidity

  /** One alert record; `severity` is the record's `type` field. */
  datatype Alert = Alert(severity: string, icon: string, title: string, message: string)

  /** The `type` field of each kind's record. */
  function Severity(kind: AlertKind): string {
    match kind
    case Heat | Cold => "warning"
    case Wind | Snow => "caution"
    case Thunderstorm => "danger"
    case Rain | Humidity => "info"
  }

  /** The `icon` field of each kind's record. */
  function Icon(kind: AlertKind): string {
    match kind
    case Heat => "\U{1F525}"
    case Cold => "\U{1F976}"
    case Wind => "\U{1F4A8}"
    case Thunderstorm => "\U{26C8}\U{FE0F}"
    case Snow => "\U{2744}\U{FE0F}"
    case Rain => "\U{2614}"
    case Humidity => "\U{1F4A7}"
  }

  /** The `title` field of each kind's record. */
  function Title(kind: AlertKind): string {
    match kind
    case Heat => "Extreme Heat Warning"
    case Cold => "Extreme Cold Warning"
    case Wind => "High Wind Advisory"
    case Thunderstorm => "Thunderstorm Warning"
    case Snow => "Snow Advisory"
    case Rain => "Rain Advisory"
    case Humidity => "High Humidity"
  }

  /** The `message` field of each kind's record. */
  function Message(kind: AlertKind): string {
    match kind
    case Heat => "Very high temperatures detected. Stay hydrated and avoid prolonged sun exposure."
    case Cold => "Very low temperatures detected. Dress warmly and limit outdoor exposure."
    case Wind => "Strong winds detected. Secure loose objects and use caution when driving."
    case Thunderstorm => "Thunderstorms in the area. Seek shelter indoors and avoid outdoor activities."
    case Snow => "Snow conditions detected. Drive carefully and allow extra travel time."
    case Rain => "Rainy conditions expected. Carry an umbrella and drive carefully."
    case Humidity => "Very humid conditions. Stay cool and hydrated."
  }

  /** The fixed record pushed for each kind. */
  function Record(kind: AlertKind): Alert {
    Alert(Severity(kind), Icon(kind), Title(kind), Message(kind))
  }

  const HeatThreshold: real := 35.0
  const ColdThreshold: real := -10.0
  const WindThreshold: real := 15.0
  const HumidityThreshold: int := 85

  /** `v >= bound` in JavaScript, false for a missing `v`. */
  predicate AtLeast(v: Option<real>, bound: real) {
    v.Some? && v.value >= bound
  }

  /** `v <= bound` in JavaScript, false for a missing `v`. */
  predicate AtMost(v: Option<real>, bound: real) {
    v.Some? && v.value <= bound
  }

  /** `humidity >= 85`: false when the reading is missing. */
  predicate Humid(humidity: Option<int>) {
    humidity.Some? && humidity.value >= HumidityThreshold
  }

  /** The position of an alert's group in the result: temperature, wind,
      condition, humidity. */
  function Category(k: AlertKind): nat {
    match k
    case Heat | Cold => 0
    case Wind => 1
    case Thunderstorm | Snow | Rain => 2
    case Humidity => 3
  }

  /** The condition-alert keyword table, in precedence order. */
  const ConditionRules: seq<Rule<Option<AlertKind>>> := [
    Rule(["thunder"], Some(Thunderstorm)),
    Rule(["snow"], Some(Snow)),
    Rule(["rain", "drizzle"], Some(Rain))
  ]

  function Optional(k: Option<AlertKind>): seq<AlertKind> {
    match k
    case Some(x) => [x]
    case None => []
  }

  /** The temperature group: heat above cold. */
  function TempAlert(temp: Option<real>): Option<AlertKind> {
    if AtLeast(temp, HeatThreshold) then Some(Heat)
    else if AtMost(temp, ColdThreshold) then Some(Cold)
    else None
  }

  function WindAlert(windSpeed: Option<real>): Option<AlertKind> {
    if AtLeast(windSpeed, WindThreshold) then Some(Wind) else None
  }

  /** The condition group: the first rule of `ConditionRules` whose keyword
      occurs in the lower-cased condition (the empty string when there is
      none). */
  function ConditionAlert(condition: Option<string>): Option<AlertKind> {
    FirstMatch(ConditionRules, Lower(condition.GetOr("")), None)
  }

  function HumidityAlert(humidity: Option<int>): Option<AlertKind> {
    if Humid(humidity) then Some(Humidity) else None
  }

  /** The alerts for the given readings, group by group: temperature,
      wind, condition, humidity. */
  function AlertsFor(condition: Option<string>, temp: Option<real>, windSpeed: Option<real>,
                     humidity: Option<int>): seq<AlertKind>
  {
    Optional(TempAlert(temp)) + Optional(WindAlert(windSpeed)) +
    Optional(ConditionAlert(condition)) + Optional(HumidityAlert(humidity))
  }

  /** The table lookup is the thunder / snow / rain-or-drizzle chain. */
  lemma ConditionAlertChain(condition: Option<string>)
    ensures var w := Lower(condition.GetOr(""));
            ConditionAlert(condition) ==
            if Contains(w, "thunder") then Some(Thunderstorm)
            else if Contains(w, "snow") then Some(Snow)
            else if Contains(w, "rain") || Contains(w, "drizzle") then Some(Rain)
            else None
  {
    var w := Lower(condition.GetOr(""));
    var r := ConditionRules;
    assert AnyContained(w, ["thunder"]) == Contains(w, "thunder");
    assert AnyContained(w, ["snow"]) == Contains(w, "snow");
    assert AnyContained(w, ["rain", "drizzle"]) == (Contains(w, "rain") || Contains(w, "drizzle"));
    assert FirstMatchFrom(r, w, None, 2) ==
           (if Contains(w, "rain") || Contains(w, "drizzle") then Some(Rain) else None);
    assert FirstMatchFrom(r, w, None, 0) ==
           (if Contains(w, "thunder") then Some(Thunderstorm)
            else if Contains(w, "snow") then Some(Snow)
            else FirstMatchFrom(r, w, None, 2));
  }

  /** Each group contributes at most one alert, and only alerts of its own
      category. */
  lemma GroupCategories(condition: Option<string>, temp: Option<real>, windSpeed: Option<real>,
                        humidity: Option<int>)
    ensures TempAlert(temp).Some? ==> Category(TempAlert(temp).value) == 0
    ensures WindAlert(windSpeed).Some? ==> Category(WindAlert(windSpeed).value) == 1
    ensures ConditionAlert(condition).Some? ==> Category(ConditionAlert(condition).value) == 2
    ensures HumidityAlert(humidity).Some? ==> Category(HumidityAlert(humidity).value) == 3
  {
    ConditionAlertChain(condition);
  }

  /** The groups always come in the order temperature, wind, condition,
      humidity, so there are never more than four alerts. */
  lemma AlertsForOrder(condition: Option<string>, temp: Option<real>, windSpeed: Option<real>,
                       humidity: Option<int>)
    ensures var r := AlertsFor(condition, temp, windSpeed, humidity);
            |r| <= 4 && forall i, j :: 0 <= i < j < |r| ==> Category(r[i]) < Category(r[j])
  {
    GroupCategories(condition, temp, windSpeed, humidity);
    var a, b, c, d := Optional(TempAlert(temp)), Optional(WindAlert(windSpeed)),
                      Optional(ConditionAlert(condition)), Optional(HumidityAlert(humidity));
    var r := a + b + c + d;
    assert forall k :: 0 <= k < |a| ==> Category(r[k]) == 0;
    assert forall k :: |a| <= k < |a + b| ==> Category(r[k]) == 1;
    assert forall k :: |a + b| <= k < |a + b + c| ==> Category(r[k]) == 2;
    assert forall k :: |a + b + c| <= k < |r| ==> Category(r[k]) == 3;
  }

  /** An alert is in the list exactly when its group raised it. */
  lemma AlertsForMembers(condition: Option<string>, temp: Option<real>, windSpeed: Option<real>,
                         humidity: Option<int>, k: AlertKind)
    ensures k in AlertsFor(condition, temp, windSpeed, humidity) <==>
            TempAlert(temp) == Some(k) || WindAlert(windSpeed) == Some(k) ||
            ConditionAlert(condition) == Some(k) || HumidityAlert(humidity) == Some(k)
  {
    var a, b, c, d := Optional(TempAlert(temp)), Optional(WindAlert(windSpeed)),
                      Optional(ConditionAlert(condition)), Optional(HumidityAlert(humidity));
    assert k in a + b + c + d <==> k in a || k in b || k in c || k in d;
  }

  /** What the alert list contains: one alert per threshold or keyword
      reached, the condition alerts by precedence thunder, snow, rain or
      drizzle. */
  lemma AlertsForSpec(condition: Option<string>, temp: Option<real>, windSpeed: Option<real>,
                      humidity: Option<int>)
    ensures var r := AlertsFor(condition, temp, windSpeed, humidity);
            var w := Lower(condition.GetOr(""));
            (Heat in r <==> AtLeast(temp, HeatThreshold)) &&
            (Cold in r <==> AtMost(temp, ColdThreshold)) &&
            (Wind in r <==> AtLeast(windSpeed, WindThreshold)) &&
            (Thunderstorm in r <==> Contains(w, "thunder")) &&
            (Snow in r <==> !Contains(w, "thunder") && Contains(w, "snow")) &&
            (Rain in r <==> !Contains(w, "thunder") && !Contains(w, "snow") &&
                            (Contains(w, "rain") || Contains(w, "drizzle"))) &&
            (Humidity in r <==> Humid(humidity))
  {
    ConditionAlertChain(condition);
    AlertsForMembers(condition, temp, windSpeed, humidity, Heat);
    AlertsForMembers(condition, temp, windSpeed, humidity, Cold);
    AlertsForMembers(condition, temp, windSpeed, humidity, Wind);
    AlertsForMembers(condition, temp, windSpeed, humidity, Thunderstorm);
    AlertsForMembers(condition, temp, windSpeed, humidity, Snow);
    AlertsForMembers(condition, temp, windSpeed, humidity, Rain);
    AlertsForMembers(condition, temp, windSpeed, humidity, Humidity);
  }

  /** Heat and cold are never both raised, and at most one condition alert
      is. */
  lemma AtMostOnePerGroup(condition: Option<string>, temp: Option<real>, windSpeed: Option<real>,
                          humidity: Option<int>)
    ensures var r := AlertsFor(condition, temp, windSpeed, humidity);
            !(Heat in r && Cold in r) &&
            !(Thunderstorm in r && Snow in r) && !(Thunderstorm in r && Rain in r) &&
            !(Snow in r && Rain in r)
  {
    AlertsForSpec(condition, temp, windSpeed, humidity);
  }

  /** Missing readings raise nothing of their group. */
  lemma MissingReadingsRaiseNothing(condition: Option<string>)
    ensures var r := AlertsFor(condition, None, None, None);
            Heat !in r && Cold !in r && Wind !in r && Humidity !in r
  {
    AlertsForSpec(condition, None, None, None);
  }

  /** A missing reading raises what a reading of 0 raises, which is nothing
      of its group: the model of an absent reading is also right for a
      `null` one, which JavaScript compares as 0. */
  lemma MissingLikeZero(condition: Option<string>)
    ensures AlertsFor(condition, None, None, None) == AlertsFor(condition, Some(0.0), Some(0.0), Some(0))
    ensures AlertsFor(condition, None, None, None) == Optional(ConditionAlert(condition))
  {
  }

  /** No alert at all exactly when no threshold is reached and no keyword
      occurs. */
  lemma NoAlertsIff(condition: Option<string>, temp: Option<real>, windSpeed: Option<real>,
                    humidity: Option<int>)
    ensures var w := Lower(condition.GetOr(""));
            AlertsFor(condition, temp, windSpeed, humidity) == [] <==>
            !AtLeast(temp, HeatThreshold) && !AtMost(temp, ColdThreshold) &&
            !AtLeast(windSpeed, WindThreshold) &&
            !Contains(w, "thunder") && !Contains(w, "snow") &&
            !Contains(w, "rain") && !Contains(w, "drizzle") &&
            !Humid(humidity)
  {
    ConditionAlertChain(condition);
  }

  /** `getAlertType`: the sequence of tests pushing onto `alerts`. */
  method GetAlertType(condition: Option<string>, temp: Option<real>, windSpeed: Option<real>,
                      humidity: Option<int>) returns (alerts: seq<AlertKind>)
    ensures alerts == AlertsFor(condition, temp, windSpeed, humidity)
  {
    alerts := [];
    if AtLeast(temp, HeatThreshold) {
      alerts := alerts + [Heat];
    } else if AtMost(temp, ColdThreshold) {
      alerts := alerts + [Cold];
    }
    assert alerts == Optional(TempAlert(temp));
    if AtLeast(windSpeed, WindThreshold) {
      alerts := alerts + [Wind];
    }
    assert alerts == Optional(TempAlert(temp)) + Optional(WindAlert(windSpeed));
    var weatherLower := Lower(condition.GetOr(""));
    ConditionAlertChain(condition);
    ghost var before := alerts;
    if Contains(weatherLower, "thunder") {
      alerts := alerts + [Thunderstorm];
    } else if Contains(weatherLower, "snow") {
      alerts := alerts + [Snow];
    } else if Contains(weatherLower, "rain") || Contains(weatherLower, "drizzle") {
      alerts := alerts + [Rain];
    }
    assert alerts == before + Optional(ConditionAlert(condition));
    before := alerts;
    if Humid(humidity) {
      alerts := alerts + [Humidity];
    }
    assert alerts == before + Optional(HumidityAlert(humidity));
  }

  /** `AlertsBanner`: nothing without weather data or without alerts,
      otherwise the alerts for the primary condition and the readings, each
      shown with its `Record`. */
  method Banner(weather: Option<CurrentWeather>) returns (shown: Option<seq<AlertKind>>)
    ensures weather.None? ==> shown.None?
    ensures weather.Some? ==>
              var w := weather.value;
              var alerts := AlertsFor(PrimaryMain(w.conditions), w.temp, w.windSpeed, w.humidity);
              (shown.None? <==> alerts == []) && (shown.Some? ==> shown.value == alerts)
  {
    if weather.None? {
      return None;
    }
    var w := weather.value;
    var alerts := GetAlertType(PrimaryMain(w.conditions), w.temp, w.windSpeed, w.humidity);
    if |alerts| == 0 {
      return None;
    }
    shown := Some(alerts);
  }

  /** `AlertIcon`'s colour table. */
  const SeverityColors: map<string, string> := map[
    "danger" := "text-red-400",
    "warning" := "text-orange-400",
    "caution" := "text-yellow-400",
    "info" := "text-blue-400"
  ]

  /** `colors[type] || colors.info`: the colour of a known severity, the
      info colour for any other. */
  function SeverityColor(severity: string): (r: string)
    ensures severity in SeverityColors ==> r == SeverityColors[severity]
    ensures severity !in SeverityColors ==> r == "text-blue-400"
  {
    if severity in SeverityColors && SeverityColors[severity] != "" then SeverityColors[severity]
    else SeverityColors["info"]
  }

  /** Every alert `getAlertType` pushes has a severity of the colour table,
      so the info fallback of `AlertIcon` is never taken for them. */
  lemma AlertSeveritiesKnown(k: AlertKind)
    ensures Record(k).severity in SeverityColors
  {
  }
}
