/** The shapes of the weather provider's records, reduced to the fields
    the modelled components read. A field that may be absent from the
    record (JavaScript `undefined` or `null`) is an `Option`. The records
    are decoded JSON, which has no `NaN`, so a number that is present is a
    finite value. */
module Provider {
  import opened Text

  /** One entry of a record's `weather` array. */
  datatype Condition = Condition(main: string, description: Option<string>, icon: Option<string>)

  /** Current conditions: the fields of `weather.main`, `weather.wind`,
      `weather.sys` and the `weather.weather` array the components use. */
  datatype CurrentWeather = CurrentWeather(
    name: string,
    country: Option<string>,
    temp: Option<real>,
    feelsLike: Option<real>,
    tempMin: Option<real>,
    tempMax: Option<real>,
    humidity: Option<int>,
    pressure: Option<int>,
    windSpeed: Option<real>,
    conditions: seq<Condition>)

  /** One sample of `forecast.list`: its timestamp in epoch seconds, the
      temperature and the conditions, passed through unchanged. */
  datatype ForecastItem = ForecastItem(
    dt: int,
    temp: Option<real>,
    conditions: seq<Condition>)

  /** `conditions[0]?.main`: the primary condition keyword, if any. */
  function PrimaryMain(conditions: seq<Condition>): (r: Option<string>)
    ensures r.Some? <==> |conditions| > 0
    ensures r.Some? ==> r.value == conditions[0].main
  {
    if |conditions| > 0 then Some(conditions[0].main) else None
  }
}
