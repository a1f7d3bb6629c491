/** The five-day forecast card: one sample per calendar day (the first one
    seen for that day), the first five such days, and the helpers that
    label and format each row.

    The calendar day of a timestamp depends on the browser's time zone, so
    it is a parameter: `dayOf(dt)` is the local day number of epoch second
    `dt`, standing in for `new Date(dt * 1000).toDateString()` (two dates
    print alike exactly when they fall on the same local day). */
module Forecast {
  import opened Text
  import opened Provider

  /** Number of days shown (`slice(0, 5)`). */
  const HorizonDays: nat := 5

  // ---------------------------------------------------------------------
  // Daily grouping

  /** The days the samples of `s` fall on. */
  function DaysOf(s: seq<ForecastItem>, dayOf: int -> int): set<int> {
    if s == [] then {} else DaysOf(s[..|s| - 1], dayOf) + {dayOf(s[|s| - 1].dt)}
  }

  /** A day is in `DaysOf(s)` exactly when some sample of `s` falls on it. */
  lemma {:induction false} DaysOfMembers(s: seq<ForecastItem>, dayOf: int -> int)
    ensures forall d :: d in DaysOf(s, dayOf) <==> exists k :: 0 <= k < |s| && dayOf(s[k].dt) == d
  {
    if s != [] {
      var prefix := s[..|s| - 1];
      DaysOfMembers(prefix, dayOf);
      assert forall k :: 0 <= k < |prefix| ==> prefix[k] == s[k];
    }
  }

  /** What the `forEach` over `forecast.list` collects: each sample whose
      day has not been seen before, in input order. */
  function Daily(s: seq<ForecastItem>, dayOf: int -> int): seq<ForecastItem> {
    if s == [] then []
    else
      var kept := Daily(s[..|s| - 1], dayOf);
      var last := s[|s| - 1];
      if dayOf(last.dt) in DaysOf(kept, dayOf) then kept else kept + [last]
  }

  /** Index of the first sample of `s` that falls on day `d`, or `|s|`. */
  function FirstIndexOfDay(s: seq<ForecastItem>, dayOf: int -> int, d: int): (i: nat)
    ensures i <= |s|
    ensures i < |s| ==> dayOf(s[i].dt) == d
    ensures forall k :: 0 <= k < i ==> dayOf(s[k].dt) != d
  {
    if s == [] then 0
    else
      var p := FirstIndexOfDay(s[..|s| - 1], dayOf, d);
      assert forall k :: 0 <= k < |s| - 1 ==> s[..|s| - 1][k] == s[k];
      if p < |s| - 1 then p
      else if dayOf(s[|s| - 1].dt) == d then |s| - 1
      else |s|
  }

  lemma DaysOfAppend(s: seq<ForecastItem>, x: ForecastItem, dayOf: int -> int)
    ensures DaysOf(s + [x], dayOf) == DaysOf(s, dayOf) + {dayOf(x.dt)}
  {
    assert (s + [x])[..|s|] == s;
  }

  /** Every day of the input is represented among the grouped samples, and
      no other day. */
  lemma {:induction false} DailyCoversDays(s: seq<ForecastItem>, dayOf: int -> int)
    ensures DaysOf(Daily(s, dayOf), dayOf) == DaysOf(s, dayOf)
  {
    if s != [] {
      var prefix, last := s[..|s| - 1], s[|s| - 1];
      DailyCoversDays(prefix, dayOf);
      var kept := Daily(prefix, dayOf);
      var day := dayOf(last.dt);
      assert DaysOf(s, dayOf) == DaysOf(prefix, dayOf) + {day};
      if day in DaysOf(kept, dayOf) {
        assert Daily(s, dayOf) == kept;
      } else {
        assert Daily(s, dayOf) == kept + [last];
        DaysOfAppend(kept, last, dayOf);
      }
    }
  }

  /** The grouped samples are a subsequence of the input: input order is
      kept and nothing is invented. */
  lemma {:induction false} DailyIsSubsequence(s: seq<ForecastItem>, dayOf: int -> int)
    ensures IsSubsequence(Daily(s, dayOf), s)
  {
    if s != [] {
      var prefix, last := s[..|s| - 1], s[|s| - 1];
      DailyIsSubsequence(prefix, dayOf);
      var kept := Daily(prefix, dayOf);
      if dayOf(last.dt) !in DaysOf(kept, dayOf) {
        assert (kept + [last])[..|kept|] == kept;
      } else if kept != [] {
        assert s[..|s| - 1] == prefix;
      }
    }
  }

  ghost predicate DistinctDays(s: seq<ForecastItem>, dayOf: int -> int) {
    forall i, j :: 0 <= i < j < |s| ==> dayOf(s[i].dt) != dayOf(s[j].dt)
  }

  /** No two grouped samples fall on the same day. */
  lemma {:induction false} DailyDistinctDays(s: seq<ForecastItem>, dayOf: int -> int)
    ensures DistinctDays(Daily(s, dayOf), dayOf)
  {
    if s != [] {
      var prefix, last := s[..|s| - 1], s[|s| - 1];
      DailyDistinctDays(prefix, dayOf);
      var kept := Daily(prefix, dayOf);
      if dayOf(last.dt) !in DaysOf(kept, dayOf) {
        DaysOfMembers(kept, dayOf);
        var r := kept + [last];
        forall i, j | 0 <= i < j < |r| ensures dayOf(r[i].dt) != dayOf(r[j].dt) {
          if j == |kept| {
            assert r[i] == kept[i] && r[j] == last;
            assert dayOf(kept[i].dt) in DaysOf(kept, dayOf);
          } else {
            assert r[i] == kept[i] && r[j] == kept[j];
            assert dayOf(kept[i].dt) != dayOf(kept[j].dt);
          }
        }
      }
    }
  }

  /** There are exactly as many grouped samples as distinct days in the
      input. */
  lemma DailyCount(s: seq<ForecastItem>, dayOf: int -> int)
    ensures |Daily(s, dayOf)| == |DaysOf(s, dayOf)|
  {
    DailyDaysCount(s, dayOf);
    DailyCoversDays(s, dayOf);
  }

  lemma {:induction false} DailyDaysCount(s: seq<ForecastItem>, dayOf: int -> int)
    ensures |DaysOf(Daily(s, dayOf), dayOf)| == |Daily(s, dayOf)|
  {
    if s != [] {
      var prefix, last := s[..|s| - 1], s[|s| - 1];
      DailyDaysCount(prefix, dayOf);
      var kept := Daily(prefix, dayOf);
      if dayOf(last.dt) !in DaysOf(kept, dayOf) {
        DaysOfAppend(kept, last, dayOf);
      }
    }
  }

  /** Each grouped sample is the first input sample of its day. */
  lemma {:induction false} DailyTakesFirstOfDay(s: seq<ForecastItem>, dayOf: int -> int)
    ensures var r := Daily(s, dayOf);
            forall k :: 0 <= k < |r| ==>
              FirstIndexOfDay(s, dayOf, dayOf(r[k].dt)) < |s| &&
              r[k] == s[FirstIndexOfDay(s, dayOf, dayOf(r[k].dt))]
  {
    if s != [] {
      var prefix, last := s[..|s| - 1], s[|s| - 1];
      DailyTakesFirstOfDay(prefix, dayOf);
      DailyCoversDays(prefix, dayOf);
      DaysOfMembers(prefix, dayOf);
      var kept := Daily(prefix, dayOf);
      var r := Daily(s, dayOf);
      forall k | 0 <= k < |r|
        ensures FirstIndexOfDay(s, dayOf, dayOf(r[k].dt)) < |s|
        ensures r[k] == s[FirstIndexOfDay(s, dayOf, dayOf(r[k].dt))]
      {
        var d := dayOf(r[k].dt);
        if k < |kept| {
          assert r[k] == kept[k];
          assert FirstIndexOfDay(prefix, dayOf, d) < |prefix|;
          assert prefix[FirstIndexOfDay(prefix, dayOf, d)] == s[FirstIndexOfDay(prefix, dayOf, d)];
        } else {
          assert r[k] == last && d !in DaysOf(prefix, dayOf);
          var p := FirstIndexOfDay(prefix, dayOf, d);
          assert forall k :: 0 <= k < |prefix| ==> dayOf(prefix[k].dt) != d;
        }
      }
    }
  }

  /** The days the card shows: the first `HorizonDays` grouped samples.
      There are `min(5, number of distinct days)` of them; an empty list
      shows none. */
  lemma DisplayedDays(s: seq<ForecastItem>, dayOf: int -> int)
    ensures var shown := Take(Daily(s, dayOf), HorizonDays);
            |shown| == (if |DaysOf(s, dayOf)| < HorizonDays then |DaysOf(s, dayOf)| else HorizonDays) &&
            (s == [] ==> shown == [])
  {
    DailyCount(s, dayOf);
  }

  /** A grouping that stops collecting once `n` days are kept: samples
      after the `n`-th new day are ignored. */
  function DailyUpTo(s: seq<ForecastItem>, n: nat, dayOf: int -> int): seq<ForecastItem> {
    if s == [] then []
    else
      var kept := DailyUpTo(s[..|s| - 1], n, dayOf);
      var last := s[|s| - 1];
      if |kept| >= n || dayOf(last.dt) in DaysOf(kept, dayOf) then kept else kept + [last]
  }

  /** Collecting every day and then keeping the first `n`, as the card
      does, is the same as stopping once `n` days are kept. */
  lemma {:induction false} TakeDailyIsDailyUpTo(s: seq<ForecastItem>, n: nat, dayOf: int -> int)
    ensures Take(Daily(s, dayOf), n) == DailyUpTo(s, n, dayOf)
  {
    if s != [] {
      var prefix, last := s[..|s| - 1], s[|s| - 1];
      TakeDailyIsDailyUpTo(prefix, n, dayOf);
      var kept := Daily(prefix, dayOf);
      if |kept| >= n {
        assert Take(kept + [last], n) == Take(kept, n) by {
          assert (kept + [last])[..n] == kept[..n];
        }
      } else {
        assert Take(kept, n) == kept;
        if dayOf(last.dt) !in DaysOf(kept, dayOf) {
          assert |kept + [last]| <= n;
          assert Take(kept + [last], n) == kept + [last];
        }
      }
    }
  }

  /** The grouping loop of `ForecastCard` and the cut to five days. `list`
      is `forecast?.list`; when it is missing the card renders nothing. */
  method DailyForecasts(list: Option<seq<ForecastItem>>, dayOf: int -> int)
    returns (days: Option<seq<ForecastItem>>)
    ensures days.None? <==> list.None?
    ensures list.Some? ==> days == Some(Take(Daily(list.value, dayOf), HorizonDays))
  {
    if list.None? {
      return None;
    }
    var items := list.value;
    var dailyForecasts: seq<ForecastItem> := [];
    var processedDates: set<int> := {};
    for i := 0 to |items|
      invariant dailyForecasts == Daily(items[..i], dayOf)
      invariant processedDates == DaysOf(dailyForecasts, dayOf)
    {
      var dateKey := dayOf(items[i].dt);
      assert items[..i + 1][..i] == items[..i];
      if dateKey !in processedDates {
        DaysOfAppend(dailyForecasts, items[i], dayOf);
        processedDates := processedDates + {dateKey};
        dailyForecasts := dailyForecasts + [items[i]];
      }
    }
    assert items[..|items|] == items;
    days := Some(Take(dailyForecasts, HorizonDays));
  }

  // ---------------------------------------------------------------------
  // Row helpers

  const Dash := "\U{2014}"

  /** The unit suffix: Celsius for "metric", Fahrenheit for anything else. */
  function UnitSymbol(unit: string): string {
    if unit == "metric" then "\U{00B0}C" else "\U{00B0}F"
  }

  /** `formatTemp` of the forecast card: a dash for a missing value,
      otherwise the rounded value followed by the unit's symbol. */
  function FormatTemp(value: Option<real>, unit: string): (r: string)
    ensures value.None? ==> r == Dash
    ensures value.Some? ==> |r| >= 3 && r[|r| - 2..] == UnitSymbol(unit) &&
                            CanonicalInt(r[..|r| - 2]) &&
                            ParseInt(r[..|r| - 2]) == Round(value.value)
  {
    match value
    case None => Dash
    case Some(v) => WithSuffix(Round(v), UnitSymbol(unit))
  }

  /** What `formatDate` shows: a weekday/month/day string in the locale's
      format is `LongDate(dt)`. */
  datatype DateLabel = Today | Tomorrow | LongDate(dt: int)

  /** `formatDate`, with the current local day supplied as `today`:
      "Today" exactly on today, "Tomorrow" exactly on the next day, the
      long date on every other day. */
  function FormatDate(dt: int, dayOf: int -> int, today: int): (r: DateLabel)
    ensures r == Today <==> dayOf(dt) == today
    ensures r == Tomorrow <==> dayOf(dt) == today + 1
    ensures r != Today && r != Tomorrow ==> r == LongDate(dt)
  {
    var tomorrow := today + 1;
    if dayOf(dt) == today then Today
    else if dayOf(dt) == tomorrow then Tomorrow
    else LongDate(dt)
  }

  // ---------------------------------------------------------------------
  // Condition emoji

  const ClearEmoji := "\U{2600}\U{FE0F}"
  const CloudEmoji := "\U{2601}\U{FE0F}"
  const RainEmoji := "\U{1F327}\U{FE0F}"
  const DrizzleEmoji := "\U{1F326}\U{FE0F}"
  const SnowEmoji := "\U{2744}\U{FE0F}"
  const ThunderEmoji := "\U{26C8}\U{FE0F}"
  const FogEmoji := "\U{1F32B}\U{FE0F}"
  const DefaultEmoji := "\U{1F324}\U{FE0F}"

  /** The keyword table the emoji chain tests, in its order. */
  const EmojiRules: seq<Rule<string>> := [
    Rule(["clear"], ClearEmoji),
    Rule(["cloud"], CloudEmoji),
    Rule(["rain"], RainEmoji),
    Rule(["drizzle"], DrizzleEmoji),
    Rule(["snow"], SnowEmoji),
    Rule(["thunder"], ThunderEmoji),
    Rule(["mist", "fog"], FogEmoji)
  ]

  /** `getWeatherEmoji`: the emoji of the first keyword of the table that
      occurs in the lower-cased condition; a missing condition reads as "". */
  function WeatherEmoji(condition: Option<string>): string
  {
    var weather := Lower(condition.GetOr(""));
    if Contains(weather, "clear") then ClearEmoji
    else if Contains(weather, "cloud") then CloudEmoji
    else if Contains(weather, "rain") then RainEmoji
    else if Contains(weather, "drizzle") then DrizzleEmoji
    else if Contains(weather, "snow") then SnowEmoji
    else if Contains(weather, "thunder") then ThunderEmoji
    else if Contains(weather, "mist") || Contains(weather, "fog") then FogEmoji
    else DefaultEmoji
  }

  /** The emoji chain is the first match over `EmojiRules`. */
  lemma WeatherEmojiIsFirstMatch(condition: Option<string>)
    ensures WeatherEmoji(condition) == FirstMatch(EmojiRules, Lower(condition.GetOr("")), DefaultEmoji)
  {
    var w := Lower(condition.GetOr(""));
    var r := EmojiRules;
    assert AnyContained(w, ["clear"]) == Contains(w, "clear");
    assert AnyContained(w, ["cloud"]) == Contains(w, "cloud");
    assert AnyContained(w, ["rain"]) == Contains(w, "rain");
    assert AnyContained(w, ["drizzle"]) == Contains(w, "drizzle");
    assert AnyContained(w, ["snow"]) == Contains(w, "snow");
    assert AnyContained(w, ["thunder"]) == Contains(w, "thunder");
    assert AnyContained(w, ["mist", "fog"]) == (Contains(w, "mist") || Contains(w, "fog"));
    assert FirstMatchFrom(r, w, DefaultEmoji, 6) ==
           (if Contains(w, "mist") || Contains(w, "fog") then FogEmoji else DefaultEmoji);
    assert FirstMatchFrom(r, w, DefaultEmoji, 4) ==
           (if Contains(w, "snow") then SnowEmoji
            else if Contains(w, "thunder") then ThunderEmoji
            else FirstMatchFrom(r, w, DefaultEmoji, 6));
    assert FirstMatchFrom(r, w, DefaultEmoji, 2) ==
           (if Contains(w, "rain") then RainEmoji
            else if Contains(w, "drizzle") then DrizzleEmoji
            else FirstMatchFrom(r, w, DefaultEmoji, 4));
    assert FirstMatchFrom(r, w, DefaultEmoji, 0) ==
           (if Contains(w, "clear") then ClearEmoji
            else if Contains(w, "cloud") then CloudEmoji
            else FirstMatchFrom(r, w, DefaultEmoji, 2));
  }

  /** Letter case does not matter, and a missing or empty condition gets
      the default emoji. */
  lemma WeatherEmojiIgnoresCase(condition: string)
    ensures WeatherEmoji(Some(condition)) == WeatherEmoji(Some(Lower(condition)))
    ensures WeatherEmoji(None) == DefaultEmoji && WeatherEmoji(Some("")) == DefaultEmoji
  {
    LowerIdempotent(condition);
  }

  /** Which keywords each emoji means: clear wins over everything, rain over
      drizzle, and the default emoji is shown exactly when none of the
      keywords occurs. */
  lemma WeatherEmojiKeywords(condition: Option<string>)
    ensures var w := Lower(condition.GetOr(""));
            var e := WeatherEmoji(condition);
            (e == ClearEmoji <==> Contains(w, "clear")) &&
            (e == RainEmoji <==> !Contains(w, "clear") && !Contains(w, "cloud") &&
                                 Contains(w, "rain")) &&
            (e == DrizzleEmoji <==> !Contains(w, "clear") && !Contains(w, "cloud") &&
                                    !Contains(w, "rain") && Contains(w, "drizzle")) &&
            (e == DefaultEmoji <==>
               !Contains(w, "clear") && !Contains(w, "cloud") && !Contains(w, "rain") &&
               !Contains(w, "drizzle") && !Contains(w, "snow") && !Contains(w, "thunder") &&
               !Contains(w, "mist") && !Contains(w, "fog"))
  {
  }
}
