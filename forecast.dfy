/**
 The data of the daily forecast aggregator and its reference definitions.

 A forecast sample is one 3-hourly entry of the weather service's forecast
 list; a day summary is one entry of the daily forecast the aggregator
 produces. The functions below say, without any mutable state, what the
 aggregator must compute: the date key of a sample, the samples that share
 a date, the distinct dates in first-seen order, and the summary of a date.
 */
module Forecast {

  /** One forecast entry: `dt_txt`, `main.temp_max`, `main.temp_min` and the
      `icon` and `description` of the first `weather` condition. */
  datatype Sample = Sample(dtTxt: string, tempMax: int, tempMin: int, icon: string, description: string)

  /** One day of the daily forecast. */
  datatype DaySummary = DaySummary(date: string, tempMax: int, tempMin: int, icon: string, description: string)

  function Max(a: int, b: int): int { if a < b then b else a }

  function Min(a: int, b: int): int { if a < b then a else b }

  /** The text of `t` before its first space, or all of `t` when it has
      none: the first piece of `t.split(" ")`. */
  function DateKey(t: string): string
  {
    if t == [] || t[0] == ' ' then [] else [t[0]] + DateKey(t[1..])
  }

  /** A `dt_txt` value: a date and a time of day separated by one space. */
  function Timestamp(day: string, time: string): string
  {
    day + " " + time
  }

  /** The grouping key of a sample. */
  function DateOf(x: Sample): string
  {
    DateKey(x.dtTxt)
  }

  /** The set of date keys borne by the samples of `s`. */
  function DateSet(s: seq<Sample>): set<string>
  {
    set x | x in s :: DateOf(x)
  }

  /** The samples of `s` whose date key is `d`, in input order. */
  function SamplesOn(s: seq<Sample>, d: string): seq<Sample>
  {
    if s == [] then []
    else
      var x := s[|s| - 1];
      SamplesOn(s[..|s| - 1], d) + (if DateOf(x) == d then [x] else [])
  }

  /** The highest `tempMax` among the samples of `g`. */
  function HighOf(g: seq<Sample>): int
    requires |g| > 0
  {
    if |g| == 1 then g[0].tempMax else Max(HighOf(g[..|g| - 1]), g[|g| - 1].tempMax)
  }

  /** The lowest `tempMin` among the samples of `g`. */
  function LowOf(g: seq<Sample>): int
    requires |g| > 0
  {
    if |g| == 1 then g[0].tempMin else Min(LowOf(g[..|g| - 1]), g[|g| - 1].tempMin)
  }

  /** The summary of date `d`: the high and low over all samples of that
      date, and the icon and description of the first of them. */
  function DayOf(s: seq<Sample>, d: string): DaySummary
    requires SamplesOn(s, d) != []
  {
    var g := SamplesOn(s, d);
    DaySummary(d, HighOf(g), LowOf(g), g[0].icon, g[0].description)
  }

  /** The distinct date keys of `s`, each once, in the order in which they
      first occur. */
  function DistinctDates(s: seq<Sample>): (r: seq<string>)
    ensures forall d :: d in r <==> SamplesOn(s, d) != []
  {
    if s == [] then []
    else
      var ks := DistinctDates(s[..|s| - 1]);
      var d := DateOf(s[|s| - 1]);
      if d in ks then ks else ks + [d]
  }

  /** The index of the first sample of `s` whose date key is `d`. */
  function FirstIndex(s: seq<Sample>, d: string): (r: nat)
    requires d in DateSet(s)
    ensures r < |s| && DateOf(s[r]) == d
    ensures forall j :: 0 <= j < r ==> DateOf(s[j]) != d
  {
    if DateOf(s[0]) == d then 0
    else
      assert d in DateSet(s[1..]) by {
        var x :| x in s && DateOf(x) == d;
        assert x in s[1..];
      }
      1 + FirstIndex(s[1..], d)
  }

  /** The daily forecast: one summary per distinct date, in first-seen
      order, cut to the first `horizon` dates. */
  function DailySpec(s: seq<Sample>, horizon: nat): seq<DaySummary>
  {
    var ks := DistinctDates(s);
    var n := if horizon < |ks| then horizon else |ks|;
    seq(n, i requires 0 <= i < n => DayOf(s, ks[i]))
  }

  /** The set of dates that appear in a daily forecast. */
  function DatesOf(days: seq<DaySummary>): set<string>
  {
    set i | 0 <= i < |days| :: days[i].date
  }

  /** The samples of `s` whose date key lies in `keep`, in input order. */
  function KeepDates(s: seq<Sample>, keep: set<string>): seq<Sample>
  {
    if s == [] then []
    else
      var x := s[|s| - 1];
      KeepDates(s[..|s| - 1], keep) + (if DateOf(x) in keep then [x] else [])
  }
}
