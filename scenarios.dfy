/**
 Worked examples of the daily forecast: a forecast list that covers one
 date, and one that covers more dates than the horizon.
 */
module Scenarios {
  import opened Forecast
  import opened DailyProperties

  /** A list whose samples all bear date `d`: one day, made of all of them. */
  lemma {:induction false} SingleDate(s: seq<Sample>, d: string)
    requires s != []
    requires forall j :: 0 <= j < |s| ==> DateOf(s[j]) == d
    ensures DistinctDates(s) == [d]
    ensures SamplesOn(s, d) == s
  {
    var p := s[..|s| - 1];
    var x := s[|s| - 1];
    assert s == p + [x];
    DistinctDatesSnoc(p, x);
    SamplesOnSnoc(p, x, d);
    if p != [] {
      SingleDate(p, d);
    }
  }

  /** A list whose samples bear pairwise distinct dates: one day per
      sample, in input order, each made of that sample alone. */
  lemma {:induction false} OneSamplePerDate(s: seq<Sample>)
    requires forall i, j :: 0 <= i < j < |s| ==> DateOf(s[i]) != DateOf(s[j])
    ensures |DistinctDates(s)| == |s|
    ensures forall i :: 0 <= i < |s| ==> DistinctDates(s)[i] == DateOf(s[i])
    ensures forall i :: 0 <= i < |s| ==> SamplesOn(s, DateOf(s[i])) == [s[i]]
  {
    if s != [] {
      var p := s[..|s| - 1];
      var x := s[|s| - 1];
      assert s == p + [x];
      OneSamplePerDate(p);
      OneSampleStep(p, x);
    }
  }

  lemma OneSampleStep(p: seq<Sample>, x: Sample)
    requires forall i :: 0 <= i < |p| ==> DateOf(p[i]) != DateOf(x)
    requires |DistinctDates(p)| == |p|
    requires forall i :: 0 <= i < |p| ==> DistinctDates(p)[i] == DateOf(p[i])
    requires forall i :: 0 <= i < |p| ==> SamplesOn(p, DateOf(p[i])) == [p[i]]
    ensures |DistinctDates(p + [x])| == |p| + 1
    ensures forall i :: 0 <= i <= |p| ==> DistinctDates(p + [x])[i] == DateOf((p + [x])[i])
    ensures forall i :: 0 <= i <= |p| ==> SamplesOn(p + [x], DateOf((p + [x])[i])) == [(p + [x])[i]]
  {
    var s := p + [x];
    DistinctDatesSnoc(p, x);
    assert DistinctDates(s) == DistinctDates(p) + [DateOf(x)];
    forall i | 0 <= i <= |p|
      ensures DistinctDates(s)[i] == DateOf(s[i])
      ensures SamplesOn(s, DateOf(s[i])) == [s[i]]
    {
      if i < |p| {
        assert s[i] == p[i];
        OtherDateStep(p, x, p[i]);
      } else {
        assert s[i] == x;
        SamplesOnSnoc(p, x, DateOf(x));
      }
    }
  }

  lemma OtherDateStep(p: seq<Sample>, x: Sample, y: Sample)
    requires SamplesOn(p, DateOf(y)) == [y] && DateOf(x) != DateOf(y)
    ensures SamplesOn(p + [x], DateOf(y)) == [y]
  {
    SamplesOnSnoc(p, x, DateOf(y));
  }

  /** A forecast list that covers one date gives one day (for any non-zero
      horizon): that date, the highest high and lowest low of the list, and
      the first sample's icon and description. */
  lemma OneDateOneDay(s: seq<Sample>, d: string, horizon: nat)
    requires s != [] && horizon > 0
    requires forall j :: 0 <= j < |s| ==> DateOf(s[j]) == d
    ensures DailySpec(s, horizon) == [DaySummary(d, HighOf(s), LowOf(s), s[0].icon, s[0].description)]
  {
    SingleDate(s, d);
    var r := DailySpec(s, horizon);
    assert |r| == 1;
    assert r[0] == DayOf(s, d);
    assert DayOf(s, d) == DaySummary(d, HighOf(s), LowOf(s), s[0].icon, s[0].description);
    assert r == [r[0]];
  }

  /** A forecast list whose samples bear pairwise distinct dates gives one
      day per sample, in input order, as many as the horizon allows. */
  lemma OneDayPerSample(s: seq<Sample>, horizon: nat)
    requires forall i, j :: 0 <= i < j < |s| ==> DateOf(s[i]) != DateOf(s[j])
    ensures |DailySpec(s, horizon)| == Min(|s|, horizon)
    ensures forall i :: 0 <= i < |DailySpec(s, horizon)| ==>
      DailySpec(s, horizon)[i] == DaySummary(DateOf(s[i]), s[i].tempMax, s[i].tempMin, s[i].icon, s[i].description)
  {
    OneSamplePerDate(s);
  }

  /** A sample of date `day` at time of day `time`. */
  function At(day: string, time: string, high: int, low: int, icon: string, description: string): (x: Sample)
    requires ' ' !in day
    ensures DateOf(x) == day
  {
    DateKeyOfTimestamp(day, time);
    Sample(Timestamp(day, time), high, low, icon, description)
  }

  /** Eight 3-hourly samples of 1 June 2024 (at any times of day `t`) with
      highs 20, 22, 25, 24, 23, 21, 19, 18 and lows 15, 14, 13, 16, 17, 18,
      12, 11 give one day: high 25, low 11, and the first sample's icon and
      description. */
  lemma EightSamplesOfOneDate(t: seq<string>)
    requires |t| == 8
    ensures DailySpec([
        At("2024-06-01", t[0], 20, 15, "01n", "clear sky"),
        At("2024-06-01", t[1], 22, 14, "02n", "few clouds"),
        At("2024-06-01", t[2], 25, 13, "10d", "light rain"),
        At("2024-06-01", t[3], 24, 16, "10d", "light rain"),
        At("2024-06-01", t[4], 23, 17, "04d", "overcast clouds"),
        At("2024-06-01", t[5], 21, 18, "04d", "overcast clouds"),
        At("2024-06-01", t[6], 19, 12, "03d", "scattered clouds"),
        At("2024-06-01", t[7], 18, 11, "50n", "mist")], 5)
      == [DaySummary("2024-06-01", 25, 11, "01n", "clear sky")]
  {
    var s := [
        At("2024-06-01", t[0], 20, 15, "01n", "clear sky"),
        At("2024-06-01", t[1], 22, 14, "02n", "few clouds"),
        At("2024-06-01", t[2], 25, 13, "10d", "light rain"),
        At("2024-06-01", t[3], 24, 16, "10d", "light rain"),
        At("2024-06-01", t[4], 23, 17, "04d", "overcast clouds"),
        At("2024-06-01", t[5], 21, 18, "04d", "overcast clouds"),
        At("2024-06-01", t[6], 19, 12, "03d", "scattered clouds"),
        At("2024-06-01", t[7], 18, 11, "50n", "mist")];
    assert forall j :: 0 <= j < |s| ==> DateOf(s[j]) == "2024-06-01";
    OneDateOneDay(s, "2024-06-01", 5);
    HighOfIsMax(s);
    LowOfIsMin(s);
    assert s[2].tempMax == 25 && s[7].tempMin == 11;
    assert forall j :: 0 <= j < |s| ==> s[j].tempMax <= 25 && 11 <= s[j].tempMin;
  }

  /** Six samples of six distinct dates give five days, one per sample in
      input order; the sixth date is dropped. */
  lemma SixDatesFiveDays(s: seq<Sample>)
    requires |s| == 6
    requires forall i, j :: 0 <= i < j < 6 ==> DateOf(s[i]) != DateOf(s[j])
    ensures |DailySpec(s, 5)| == 5
    ensures forall i :: 0 <= i < 5 ==>
      DailySpec(s, 5)[i] == DaySummary(DateOf(s[i]), s[i].tempMax, s[i].tempMin, s[i].icon, s[i].description)
    ensures DateOf(s[5]) !in DatesOf(DailySpec(s, 5))
  {
    OneDayPerSample(s, 5);
  }
}
