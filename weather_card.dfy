/** The current-conditions card: the strings it shows for one record of
    current weather. A missing record renders as a card of dashes. */
module WeatherCard {
  import opened Text
  import opened Provider
  import Forecast

  /** `formatTemp` of the current card: a dash for a missing value,
      otherwise the rounded value followed by a bare degree sign. */
  function FormatTemp(value: Option<real>): (r: string)
    ensures value.None? ==> r == Forecast.Dash
    ensures value.Some? ==> |r| >= 2 && r[|r| - 1] == '\U{00B0}' &&
                            CanonicalInt(r[..|r| - 1]) &&
                            ParseInt(r[..|r| - 1]) == Round(value.value)
  {
    match value
    case None => Forecast.Dash
    case Some(v) => WithSuffix(Round(v), "\U{00B0}")
  }

  /** The two cards print a temperature alike up to the unit letter the
      forecast card appends. */
  lemma FormatTempAgreesWithForecast(value: Option<real>, unit: string)
    ensures value.None? ==> Forecast.FormatTemp(value, unit) == FormatTemp(value)
    ensures value.Some? ==>
              Forecast.FormatTemp(value, unit) ==
              FormatTemp(value) + [if unit == "metric" then 'C' else 'F']
  {
    if value.Some? {
      var digits := IntToString(Round(value.value));
      assert Forecast.FormatTemp(value, unit) == digits + Forecast.UnitSymbol(unit);
      assert FormatTemp(value) == digits + "\U{00B0}";
    }
  }

  const IconPrefix := "https://openweathermap.org/img/wn/"
  const IconSuffix := "@2x.png"

  /** The provider's image URL for the primary condition's icon code, when
      there is a primary condition with a non-empty code; the code reads
      back from between the fixed prefix and suffix. */
  function IconUrl(conditions: seq<Condition>): (r: Option<string>)
    ensures r.Some? <==> |conditions| > 0 && conditions[0].icon.Some? &&
                         conditions[0].icon.value != ""
    ensures r.Some? ==>
              |r.value| == |IconPrefix| + |conditions[0].icon.value| + |IconSuffix| &&
              r.value[..|IconPrefix|] == IconPrefix &&
              r.value[|IconPrefix|..|r.value| - |IconSuffix|] == conditions[0].icon.value &&
              r.value[|r.value| - |IconSuffix|..] == IconSuffix
  {
    if |conditions| > 0 && conditions[0].icon.Some? && conditions[0].icon.value != "" then
      var code := conditions[0].icon.value;
      var url := IconPrefix + code + IconSuffix;
      assert url[..|IconPrefix|] == IconPrefix;
      assert url[|IconPrefix|..|url| - |IconSuffix|] == code;
      assert url[|url| - |IconSuffix|..] == IconSuffix;
      Some(url)
    else None
  }

  /** The icon URL is injective in the icon code: two conditions with
      different codes never show the same image. */
  lemma IconUrlInjective(a: seq<Condition>, b: seq<Condition>)
    requires IconUrl(a).Some? && IconUrl(b).Some?
    ensures IconUrl(a) == IconUrl(b) <==> a[0].icon.value == b[0].icon.value
  {
    if IconUrl(a) == IconUrl(b) {
      var u := IconUrl(a).value;
      assert a[0].icon.value == u[|IconPrefix|..|u| - |IconSuffix|] == b[0].icon.value;
    }
  }

  /** A numeric stat: the integer with its unit, or a dash when missing. */
  function StatText(n: Option<int>, unit: string): (r: string)
    ensures n.None? ==> r == Forecast.Dash
    ensures n.Some? ==> |r| > |unit| && r[|r| - |unit|..] == unit &&
                        CanonicalInt(r[..|r| - |unit|]) &&
                        ParseInt(r[..|r| - |unit|]) == n.value
  {
    match n
    case None => Forecast.Dash
    case Some(v) => WithSuffix(v, unit)
  }

  /** The humidity stat, in percent. */
  function HumidityText(humidity: Option<int>): (r: string)
    ensures humidity.None? ==> r == Forecast.Dash
    ensures humidity.Some? ==> |r| >= 2 && r[|r| - 1] == '%' &&
                               CanonicalInt(r[..|r| - 1]) &&
                               ParseInt(r[..|r| - 1]) == humidity.value
  {
    StatText(humidity, "%")
  }

  /** The pressure stat, in hectopascals. */
  function PressureText(pressure: Option<int>): (r: string)
    ensures pressure.None? ==> r == Forecast.Dash
    ensures pressure.Some? ==> |r| > 4 && r[|r| - 4..] == " hPa" &&
                               CanonicalInt(r[..|r| - 4]) &&
                               ParseInt(r[..|r| - 4]) == pressure.value
  {
    StatText(pressure, " hPa")
  }

  /** The wind stat: the speed rounded to whole metres per second. */
  function WindText(speed: Option<real>): (r: string)
    ensures speed.None? ==> r == Forecast.Dash
    ensures speed.Some? ==> |r| > 4 && r[|r| - 4..] == " m/s" &&
                            CanonicalInt(r[..|r| - 4]) &&
                            ParseInt(r[..|r| - 4]) == Round(speed.value)
  {
    match speed
    case None => StatText(None, " m/s")
    case Some(v) => StatText(Some(Round(v)), " m/s")
  }

  /** What the card shows. `badge` is the emoji drawn over the icon, so it
      is there exactly when the icon is; `range` is the "min / max" line. */
  datatype CardView = CardView(
    name: string,
    country: Option<string>,
    description: string,
    icon: Option<string>,
    badge: Option<string>,
    temp: string,
    feelsLike: string,
    range: Option<string>,
    humidity: string,
    wind: string,
    pressure: string)

  /** The card for a record; with no record every field falls back to its
      empty value. With a record, the name is shown as is, the country only
      when it is a non-empty string, the primary description or a dash, and
      every reading through its formatter. */
  function Card(weather: Option<CurrentWeather>): (v: CardView)
    ensures weather.None? ==>
              v == CardView("", None, Forecast.Dash, None, None, Forecast.Dash, Forecast.Dash,
                            None, Forecast.Dash, Forecast.Dash, Forecast.Dash)
    ensures v.badge.Some? <==> v.icon.Some?
    ensures v.badge.Some? ==> v.badge.value == Forecast.WeatherEmoji(PrimaryMain(weather.value.conditions))
    ensures v.range.Some? <==> weather.Some? && weather.value.tempMin.Some? &&
                               weather.value.tempMax.Some?
    ensures weather.Some? ==>
              var w := weather.value;
              v.name == w.name &&
              (v.country.Some? <==> w.country.Some? && w.country.value != "") &&
              (v.country.Some? ==> v.country == w.country) &&
              v.icon == IconUrl(w.conditions)
    ensures weather.Some? ==>
              var conditions := weather.value.conditions;
              if |conditions| > 0 && conditions[0].description.Some? &&
                 conditions[0].description.value != ""
              then v.description == conditions[0].description.value
              else v.description == Forecast.Dash
    ensures weather.Some? ==>
              var w := weather.value;
              v.temp == FormatTemp(w.temp) && v.feelsLike == FormatTemp(w.feelsLike) &&
              (v.range.Some? ==> v.range.value == FormatTemp(w.tempMin) + " / " + FormatTemp(w.tempMax))
    ensures weather.Some? ==>
              var w := weather.value;
              v.humidity == HumidityText(w.humidity) && v.wind == WindText(w.windSpeed) &&
              v.pressure == PressureText(w.pressure)
  {
    match weather
    case None =>
      CardView("", None, Forecast.Dash, None, None, Forecast.Dash, Forecast.Dash,
               None, Forecast.Dash, Forecast.Dash, Forecast.Dash)
    case Some(w) =>
      var primary := PrimaryMain(w.conditions);
      var icon := IconUrl(w.conditions);
      CardView(
        w.name,
        if w.country.Some? && w.country.value != "" then w.country else None,
        if |w.conditions| > 0 && w.conditions[0].description.Some? &&
           w.conditions[0].description.value != ""
        then w.conditions[0].description.value else Forecast.Dash,
        icon,
        if icon.Some? then Some(Forecast.WeatherEmoji(primary)) else None,
        FormatTemp(w.temp),
        FormatTemp(w.feelsLike),
        if w.tempMin.Some? && w.tempMax.Some?
        then Some(FormatTemp(w.tempMin) + " / " + FormatTemp(w.tempMax)) else None,
        HumidityText(w.humidity),
        WindText(w.windSpeed),
        PressureText(w.pressure))
  }
}
