/**
 The grouping block of the forecast fetch handler: one pass over the
 forecast list that keeps a per-date accumulator, seeded by the first sample
 of each date and updated by max and min for later ones, followed by the
 accumulators in insertion order, cut to the horizon (5 in the app).
 */
module Aggregator {
  import opened Forecast
  import opened DailyProperties

  /** The number of days the app shows. */
  const Horizon: nat := 5

  /** The accumulator `acc` holds, for every date seen in `seen`, the
      summary of those samples, and `order` lists those dates in insertion
      order. */
  ghost predicate Summarises(seen: seq<Sample>, acc: map<string, DaySummary>, order: seq<string>)
  {
    && order == DistinctDates(seen)
    && (forall d :: d in acc <==> d in order)
    && (forall d :: d in acc ==> SamplesOn(seen, d) != [] && acc[d] == DayOf(seen, d))
  }

  /** One more sample keeps the accumulator a summary of what has been
      seen: a new date is seeded from the sample and appended to the order,
      a known date has its high and low widened. */
  lemma SummarisesStep(seen: seq<Sample>, x: Sample, acc: map<string, DaySummary>, order: seq<string>)
    requires Summarises(seen, acc, order)
    ensures DateOf(x) !in acc ==>
      Summarises(seen + [x], acc[DateOf(x) := DaySummary(DateOf(x), x.tempMax, x.tempMin, x.icon, x.description)],
        order + [DateOf(x)])
    ensures DateOf(x) in acc ==>
      var day := acc[DateOf(x)];
      Summarises(seen + [x], acc[DateOf(x) := day.(tempMax := Max(day.tempMax, x.tempMax), tempMin := Min(day.tempMin, x.tempMin))],
        order)
  {
    var date := DateOf(x);
    DistinctDatesSnoc(seen, x);
    var order' := if date !in acc then order + [date] else order;
    var entry := if date !in acc then DaySummary(date, x.tempMax, x.tempMin, x.icon, x.description)
      else acc[date].(tempMax := Max(acc[date].tempMax, x.tempMax), tempMin := Min(acc[date].tempMin, x.tempMin));
    var acc' := acc[date := entry];
    assert order' == DistinctDates(seen + [x]);
    assert forall d :: d in acc' <==> d in order';
    forall d | d in acc'
      ensures SamplesOn(seen + [x], d) != [] && acc'[d] == DayOf(seen + [x], d)
    {
      if d == date {
        assert date in acc <==> SamplesOn(seen, date) != [];
        assert date in acc ==> acc[date] == DayOf(seen, date);
        SeededOrWidened(seen, x, acc);
        assert acc'[d] == entry;
      } else {
        assert d in acc;
        assert SamplesOn(seen, d) != [];
        assert acc'[d] == acc[d];
        assert acc[d] == DayOf(seen, d);
        Untouched(seen, x, d);
      }
    }
    assert Summarises(seen + [x], acc', order');
  }

  lemma SeededOrWidened(seen: seq<Sample>, x: Sample, acc: map<string, DaySummary>)
    requires DateOf(x) in acc <==> SamplesOn(seen, DateOf(x)) != []
    requires DateOf(x) in acc ==> acc[DateOf(x)] == DayOf(seen, DateOf(x))
    ensures SamplesOn(seen + [x], DateOf(x)) != []
    ensures DayOf(seen + [x], DateOf(x)) ==
      if DateOf(x) !in acc then DaySummary(DateOf(x), x.tempMax, x.tempMin, x.icon, x.description)
      else acc[DateOf(x)].(tempMax := Max(acc[DateOf(x)].tempMax, x.tempMax), tempMin := Min(acc[DateOf(x)].tempMin, x.tempMin))
  {
    SamplesOnSnoc(seen, x, DateOf(x));
    DayOfSnoc(seen, x, DateOf(x));
  }

  lemma Untouched(seen: seq<Sample>, x: Sample, d: string)
    requires SamplesOn(seen, d) != [] && DateOf(x) != d
    ensures SamplesOn(seen + [x], d) != [] && DayOf(seen + [x], d) == DayOf(seen, d)
  {
    SamplesOnSnoc(seen, x, d);
    DayOfSnoc(seen, x, d);
  }

  /** Groups `samples` by date key and folds each group into one summary;
      the result is the daily forecast of `samples` for `horizon` days. */
  method Aggregate(samples: seq<Sample>, horizon: nat) returns (days: seq<DaySummary>)
    ensures days == DailySpec(samples, horizon)
  {
    var acc: map<string, DaySummary> := map[];
    var order: seq<string> := [];
    var i := 0;
    while i < |samples|
      invariant 0 <= i <= |samples|
      invariant Summarises(samples[..i], acc, order)
    {
      var item := samples[i];
      var date := DateKey(item.dtTxt);
      assert samples[..i + 1] == samples[..i] + [item];
      SummarisesStep(samples[..i], item, acc, order);
      if date !in acc {
        acc := acc[date := DaySummary(date, item.tempMax, item.tempMin, item.icon, item.description)];
        order := order + [date];
      } else {
        var day := acc[date];
        acc := acc[date := day.(tempMax := Max(day.tempMax, item.tempMax), tempMin := Min(day.tempMin, item.tempMin))];
      }
      i := i + 1;
    }
    assert samples[..i] == samples;
    var n := if horizon < |order| then horizon else |order|;
    days := seq(n, j requires 0 <= j < n => acc[order[j]]);
    forall j | 0 <= j < n ensures days[j] == DailySpec(samples, horizon)[j] {
      assert order[j] in acc;
    }
  }

  /** What the app shows: the first five days of the forecast list. */
  method DailyForecast(samples: seq<Sample>) returns (days: seq<DaySummary>)
    ensures |days| == Min(|DateSet(samples)|, Horizon)
    ensures days == DailySpec(samples, Horizon)
  {
    days := Aggregate(samples, Horizon);
    DailyLength(samples, Horizon);
  }
}
