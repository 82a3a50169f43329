/**
 What the daily forecast promises, proved about the reference definitions of
 module Forecast: the date key, the length, order and distinctness of the
 days, the per-day extremes, the first-sample-wins icon and description, the
 low-not-above-high invariant, and that dates past the horizon have no
 effect. The step lemmas (`...Snoc`) say how one more sample changes each
 definition; they are what the aggregator's loop relies on.
 */
module DailyProperties {
  import opened Forecast

  // ---------------------------------------------------------------------
  // The date key

  /** `DateKey(t)` is a prefix of `t` without a space, and it is either all
      of `t` or followed by a space in `t`. */
  lemma {:induction false} DateKeyBeforeFirstSpace(t: string)
    ensures DateKey(t) <= t
    ensures ' ' !in DateKey(t)
    ensures DateKey(t) == t || t[|DateKey(t)|] == ' '
  {
    if t != [] && t[0] != ' ' {
      DateKeyBeforeFirstSpace(t[1..]);
    }
  }

  /** `DateKey(t)` is the only prefix of `t` without a space that either is
      all of `t` or is followed by a space in `t`. */
  lemma {:induction false} DateKeyUnique(t: string, k: string)
    requires k <= t && ' ' !in k
    requires k == t || t[|k|] == ' '
    ensures k == DateKey(t)
  {
    if t == [] {
    } else if t[0] == ' ' {
    } else {
      assert k != [];
      assert k[1..] <= t[1..];
      DateKeyUnique(t[1..], k[1..]);
    }
  }

  /** The key of a `"YYYY-MM-DD HH:MM:SS"` timestamp is its date part. */
  lemma DateKeyOfTimestamp(day: string, time: string)
    requires ' ' !in day
    ensures DateKey(Timestamp(day, time)) == day
  {
    DateKeyUnique(Timestamp(day, time), day);
  }

  // ---------------------------------------------------------------------
  // Groups, extremes and distinct dates

  /** The group of `d` holds exactly the samples of `s` that bear date `d`. */
  lemma {:induction false} SamplesOnMembers(s: seq<Sample>, d: string)
    ensures forall x :: x in SamplesOn(s, d) <==> x in s && DateOf(x) == d
  {
    if s != [] {
      var p := s[..|s| - 1];
      assert s == p + [s[|s| - 1]];
      SamplesOnMembers(p, d);
    }
  }

  /** `HighOf(g)` is the largest `tempMax` in `g`. */
  lemma {:induction false} HighOfIsMax(g: seq<Sample>)
    requires |g| > 0
    ensures forall i :: 0 <= i < |g| ==> g[i].tempMax <= HighOf(g)
    ensures exists i :: 0 <= i < |g| && g[i].tempMax == HighOf(g)
  {
    if |g| > 1 {
      var p := g[..|g| - 1];
      HighOfIsMax(p);
      assert forall i :: 0 <= i < |p| ==> p[i] == g[i];
      if HighOf(g) != g[|g| - 1].tempMax {
        var i :| 0 <= i < |p| && p[i].tempMax == HighOf(p);
        assert g[i].tempMax == HighOf(g);
      } else {
        assert g[|g| - 1].tempMax == HighOf(g);
      }
    } else {
      assert g[0].tempMax == HighOf(g);
    }
  }

  /** `LowOf(g)` is the smallest `tempMin` in `g`. */
  lemma {:induction false} LowOfIsMin(g: seq<Sample>)
    requires |g| > 0
    ensures forall i :: 0 <= i < |g| ==> LowOf(g) <= g[i].tempMin
    ensures exists i :: 0 <= i < |g| && g[i].tempMin == LowOf(g)
  {
    if |g| > 1 {
      var p := g[..|g| - 1];
      LowOfIsMin(p);
      assert forall i :: 0 <= i < |p| ==> p[i] == g[i];
      if LowOf(g) != g[|g| - 1].tempMin {
        var i :| 0 <= i < |p| && p[i].tempMin == LowOf(p);
        assert g[i].tempMin == LowOf(g);
      } else {
        assert g[|g| - 1].tempMin == LowOf(g);
      }
    } else {
      assert g[0].tempMin == LowOf(g);
    }
  }

  /** No date occurs twice in `DistinctDates(s)`. */
  lemma {:induction false} DistinctDatesDistinct(s: seq<Sample>)
    ensures forall i, j :: 0 <= i < j < |DistinctDates(s)| ==> DistinctDates(s)[i] != DistinctDates(s)[j]
  {
    if s != [] {
      var p := s[..|s| - 1];
      DistinctDatesDistinct(p);
    }
  }

  // ---------------------------------------------------------------------
  // One more sample

  lemma SamplesOnSnoc(s: seq<Sample>, x: Sample, d: string)
    ensures SamplesOn(s + [x], d) == SamplesOn(s, d) + (if DateOf(x) == d then [x] else [])
  {
    assert (s + [x])[..|s|] == s;
  }

  lemma DistinctDatesSnoc(s: seq<Sample>, x: Sample)
    ensures DistinctDates(s + [x]) ==
      if DateOf(x) in DistinctDates(s) then DistinctDates(s) else DistinctDates(s) + [DateOf(x)]
  {
    assert (s + [x])[..|s|] == s;
  }

  lemma HighLowSnoc(g: seq<Sample>, x: Sample)
    requires g != []
    ensures HighOf(g + [x]) == Max(HighOf(g), x.tempMax)
    ensures LowOf(g + [x]) == Min(LowOf(g), x.tempMin)
  {
    assert (g + [x])[..|g|] == g;
  }

  /** One sample changes only the summary of its own date: it seeds a date
      seen for the first time from itself, and otherwise raises the high and
      lowers the low, leaving icon and description as they were. */
  lemma DayOfSnoc(s: seq<Sample>, x: Sample, d: string)
    requires SamplesOn(s + [x], d) != []
    ensures DateOf(x) != d ==> SamplesOn(s, d) != [] && DayOf(s + [x], d) == DayOf(s, d)
    ensures DateOf(x) == d && SamplesOn(s, d) == [] ==>
      DayOf(s + [x], d) == DaySummary(d, x.tempMax, x.tempMin, x.icon, x.description)
    ensures DateOf(x) == d && SamplesOn(s, d) != [] ==>
      var prev := DayOf(s, d);
      DayOf(s + [x], d) == prev.(tempMax := Max(prev.tempMax, x.tempMax), tempMin := Min(prev.tempMin, x.tempMin))
  {
    SamplesOnSnoc(s, x, d);
    var g := SamplesOn(s, d);
    if DateOf(x) != d {
      assert SamplesOn(s + [x], d) == g + [] == g;
    } else if g != [] {
      HighLowSnoc(g, x);
      assert (g + [x])[0] == g[0];
    }
  }

  lemma FirstIndexSnoc(s: seq<Sample>, x: Sample, d: string)
    requires d in DateSet(s + [x])
    ensures d in DateSet(s) ==> FirstIndex(s + [x], d) == FirstIndex(s, d)
    ensures d !in DateSet(s) ==> FirstIndex(s + [x], d) == |s|
  {
    if d in DateSet(s) {
      var q := FirstIndex(s, d);
      assert (s + [x])[q] == s[q];
    }
  }

  // ---------------------------------------------------------------------
  // Distinct dates

  /** The dates of `DistinctDates(s)` are exactly the date keys of `s`. */
  lemma DistinctDatesAreDateSet(s: seq<Sample>)
    ensures forall d :: d in DistinctDates(s) <==> d in DateSet(s)
  {
    forall d
      ensures d in DistinctDates(s) <==> d in DateSet(s)
    {
      var g := SamplesOn(s, d);
      SamplesOnMembers(s, d);
      if g != [] {
        assert g[0] in g;
      }
    }
  }

  lemma {:induction false} DistinctCard(ks: seq<string>)
    requires forall i, j :: 0 <= i < j < |ks| ==> ks[i] != ks[j]
    ensures |set k | k in ks| == |ks|
  {
    if ks != [] {
      var p := ks[..|ks| - 1];
      var y := ks[|ks| - 1];
      assert ks == p + [y];
      DistinctCard(p);
      assert y !in p;
      assert (set k | k in ks) == (set k | k in p) + {y};
    }
  }

  /** Every date of `DistinctDates(s)` occurs first before every date that
      follows it there. */
  lemma {:induction false} DistinctDatesFirstSeen(s: seq<Sample>)
    ensures forall d :: d in DistinctDates(s) ==> d in DateSet(s)
    ensures forall i, j :: 0 <= i < j < |DistinctDates(s)| ==>
      FirstIndex(s, DistinctDates(s)[i]) < FirstIndex(s, DistinctDates(s)[j])
  {
    DistinctDatesAreDateSet(s);
    if s != [] {
      var p := s[..|s| - 1];
      var x := s[|s| - 1];
      assert s == p + [x];
      DistinctDatesFirstSeen(p);
      DistinctDatesAreDateSet(p);
      DistinctDatesSnoc(p, x);
      var ks := DistinctDates(p);
      var ks' := DistinctDates(s);
      forall i, j | 0 <= i < j < |ks'|
        ensures FirstIndex(s, ks'[i]) < FirstIndex(s, ks'[j])
      {
        assert ks'[i] == ks[i];
        FirstIndexSnoc(p, x, ks[i]);
        if j < |ks| {
          assert ks'[j] == ks[j];
          FirstIndexSnoc(p, x, ks[j]);
        } else {
          assert ks'[j] == DateOf(x) && DateOf(x) !in ks;
          FirstIndexSnoc(p, x, DateOf(x));
        }
      }
    }
  }

  // ---------------------------------------------------------------------
  // The daily forecast

  /** Its length is the number of distinct dates, capped at the horizon; an
      empty input or a zero horizon gives no days. */
  lemma DailyLength(s: seq<Sample>, horizon: nat)
    ensures |DailySpec(s, horizon)| == Min(|DateSet(s)|, horizon)
    ensures s == [] || horizon == 0 ==> DailySpec(s, horizon) == []
  {
    var ks := DistinctDates(s);
    DistinctDatesAreDateSet(s);
    DistinctDatesDistinct(s);
    DistinctCard(ks);
    assert (set k | k in ks) == DateSet(s);
  }

  /** Its dates are pairwise distinct dates of the input, the first
      `|DailySpec(s, horizon)|` of `DistinctDates(s)`, in the order in which
      they first occur. */
  lemma DailyOrder(s: seq<Sample>, horizon: nat)
    ensures forall i :: 0 <= i < |DailySpec(s, horizon)| ==>
      DailySpec(s, horizon)[i].date == DistinctDates(s)[i] && DailySpec(s, horizon)[i].date in DateSet(s)
    ensures forall i, j :: 0 <= i < j < |DailySpec(s, horizon)| ==>
      DailySpec(s, horizon)[i].date != DailySpec(s, horizon)[j].date
    ensures forall i, j :: 0 <= i < j < |DailySpec(s, horizon)| ==>
      FirstIndex(s, DailySpec(s, horizon)[i].date) < FirstIndex(s, DailySpec(s, horizon)[j].date)
  {
    var r := DailySpec(s, horizon);
    var ks := DistinctDates(s);
    DistinctDatesFirstSeen(s);
    DistinctDatesDistinct(s);
    assert forall i :: 0 <= i < |r| ==> r[i].date == ks[i];
  }

  /** A date of the input that is not shown is first seen after every shown
      date, and is left out only when the horizon is full. */
  lemma DailyDropsOnlyLaterDates(s: seq<Sample>, horizon: nat, d: string)
    requires d in DateSet(s) && d !in DatesOf(DailySpec(s, horizon))
    ensures |DailySpec(s, horizon)| == horizon
    ensures forall i :: 0 <= i < horizon ==>
      DailySpec(s, horizon)[i].date in DateSet(s) && FirstIndex(s, DailySpec(s, horizon)[i].date) < FirstIndex(s, d)
  {
    var r := DailySpec(s, horizon);
    var ks := DistinctDates(s);
    DistinctDatesFirstSeen(s);
    DistinctDatesAreDateSet(s);
    ShownDates(s, horizon);
    var p :| 0 <= p < |ks| && ks[p] == d;
    assert |r| <= p;
    forall i | 0 <= i < horizon
      ensures r[i].date in DateSet(s) && FirstIndex(s, r[i].date) < FirstIndex(s, d)
    {
      assert r[i].date == ks[i];
    }
  }

  /** The high of a day is the largest `tempMax` of the samples of that
      date, and its low the smallest `tempMin`. */
  lemma DailyExtremes(s: seq<Sample>, horizon: nat, i: nat)
    requires i < |DailySpec(s, horizon)|
    ensures forall j :: 0 <= j < |s| && DateOf(s[j]) == DailySpec(s, horizon)[i].date ==>
      s[j].tempMax <= DailySpec(s, horizon)[i].tempMax && DailySpec(s, horizon)[i].tempMin <= s[j].tempMin
    ensures exists j :: (0 <= j < |s| && DateOf(s[j]) == DailySpec(s, horizon)[i].date &&
      s[j].tempMax == DailySpec(s, horizon)[i].tempMax)
    ensures exists j :: (0 <= j < |s| && DateOf(s[j]) == DailySpec(s, horizon)[i].date &&
      s[j].tempMin == DailySpec(s, horizon)[i].tempMin)
  {
    var day := DailySpec(s, horizon)[i];
    var g := SamplesOn(s, day.date);
    assert day == DayOf(s, day.date);
    SamplesOnMembers(s, day.date);
    HighOfIsMax(g);
    LowOfIsMin(g);
    forall j | 0 <= j < |s| && DateOf(s[j]) == day.date
      ensures s[j].tempMax <= day.tempMax && day.tempMin <= s[j].tempMin
    {
      assert s[j] in g;
      var k :| 0 <= k < |g| && g[k] == s[j];
    }
    var kh :| 0 <= kh < |g| && g[kh].tempMax == day.tempMax;
    assert g[kh] in s;
    var kl :| 0 <= kl < |g| && g[kl].tempMin == day.tempMin;
    assert g[kl] in s;
  }

  /** The first sample of a date leads its group. */
  lemma {:induction false} SamplesOnFirst(s: seq<Sample>, d: string)
    requires SamplesOn(s, d) != []
    ensures d in DateSet(s) && SamplesOn(s, d)[0] == s[FirstIndex(s, d)]
  {
    DistinctDatesAreDateSet(s);
    var p := s[..|s| - 1];
    var x := s[|s| - 1];
    assert s == p + [x];
    SamplesOnSnoc(p, x, d);
    FirstIndexSnoc(p, x, d);
    DistinctDatesAreDateSet(p);
    if SamplesOn(p, d) != [] {
      SamplesOnFirst(p, d);
    }
  }

  /** The icon and description of a day are those of the first sample of
      that date; later samples of the date never change them. */
  lemma DailyFirstSample(s: seq<Sample>, horizon: nat, i: nat)
    requires i < |DailySpec(s, horizon)|
    ensures DailySpec(s, horizon)[i].date in DateSet(s)
    ensures var first := s[FirstIndex(s, DailySpec(s, horizon)[i].date)];
      DailySpec(s, horizon)[i].icon == first.icon && DailySpec(s, horizon)[i].description == first.description
  {
    var d := DistinctDates(s)[i];
    SamplesOnFirst(s, d);
  }

  /** When no input sample has its low above its high, no day has either. */
  lemma DailyMinLeMax(s: seq<Sample>, horizon: nat)
    requires forall j :: 0 <= j < |s| ==> s[j].tempMin <= s[j].tempMax
    ensures forall i :: 0 <= i < |DailySpec(s, horizon)| ==>
      DailySpec(s, horizon)[i].tempMin <= DailySpec(s, horizon)[i].tempMax
  {
    forall i | 0 <= i < |DailySpec(s, horizon)|
      ensures DailySpec(s, horizon)[i].tempMin <= DailySpec(s, horizon)[i].tempMax
    {
      DailyExtremes(s, horizon, i);
    }
  }

  // ---------------------------------------------------------------------
  // Dates past the horizon

  /** The dates of `ks` that lie in `keep`, in order. */
  function KeepKeys(ks: seq<string>, keep: set<string>): seq<string>
  {
    if ks == [] then []
    else
      var y := ks[|ks| - 1];
      KeepKeys(ks[..|ks| - 1], keep) + (if y in keep then [y] else [])
  }

  lemma {:induction false} KeepKeysMembers(ks: seq<string>, keep: set<string>)
    ensures forall k :: k in KeepKeys(ks, keep) <==> k in ks && k in keep
  {
    if ks != [] {
      var p := ks[..|ks| - 1];
      assert ks == p + [ks[|ks| - 1]];
      KeepKeysMembers(p, keep);
    }
  }

  lemma {:induction false} KeepKeysPrefix(ks: seq<string>, n: nat, keep: set<string>)
    requires n <= |ks|
    requires forall i :: 0 <= i < n ==> ks[i] in keep
    requires forall i :: n <= i < |ks| ==> ks[i] !in keep
    ensures KeepKeys(ks, keep) == ks[..n]
  {
    if ks != [] {
      var p := ks[..|ks| - 1];
      var y := ks[|ks| - 1];
      assert ks == p + [y];
      assert forall i :: 0 <= i < |p| ==> p[i] == ks[i];
      assert KeepKeys(ks, keep) == KeepKeys(p, keep) + (if y in keep then [y] else []);
      if n == |ks| {
        KeepKeysPrefix(p, n - 1, keep);
        assert p[..n - 1] == p;
      } else {
        KeepKeysPrefix(p, n, keep);
        assert p[..n] == ks[..n];
      }
    }
  }

  lemma {:induction false} SamplesOnKeep(s: seq<Sample>, keep: set<string>, d: string)
    ensures SamplesOn(KeepDates(s, keep), d) == if d in keep then SamplesOn(s, d) else []
  {
    if s != [] {
      var p := s[..|s| - 1];
      var x := s[|s| - 1];
      var t := KeepDates(p, keep);
      assert s == p + [x];
      SamplesOnKeep(p, keep, d);
      SamplesOnSnoc(p, x, d);
      if DateOf(x) in keep {
        assert KeepDates(s, keep) == t + [x];
        SamplesOnSnoc(t, x, d);
      } else {
        assert KeepDates(s, keep) == t + [] == t;
      }
    }
  }

  lemma {:induction false} DistinctDatesKeep(s: seq<Sample>, keep: set<string>)
    ensures DistinctDates(KeepDates(s, keep)) == KeepKeys(DistinctDates(s), keep)
  {
    if s != [] {
      var p := s[..|s| - 1];
      var x := s[|s| - 1];
      var dx := DateOf(x);
      var t := KeepDates(p, keep);
      var ks := DistinctDates(p);
      assert s == p + [x];
      DistinctDatesKeep(p, keep);
      DistinctDatesSnoc(p, x);
      KeepKeysMembers(ks, keep);
      if dx !in ks {
        assert (ks + [dx])[..|ks|] == ks;
        assert KeepKeys(DistinctDates(s), keep) == KeepKeys(ks, keep) + (if dx in keep then [dx] else []);
      } else {
        assert KeepKeys(DistinctDates(s), keep) == KeepKeys(ks, keep);
      }
      if dx in keep {
        assert KeepDates(s, keep) == t + [x];
        DistinctDatesSnoc(t, x);
      } else {
        assert KeepDates(s, keep) == t + [] == t;
      }
    }
  }

  /** The dates shown are the first `|DailySpec(s, horizon)|` distinct dates
      and no other. */
  lemma ShownDates(s: seq<Sample>, horizon: nat)
    ensures |DailySpec(s, horizon)| <= |DistinctDates(s)|
    ensures forall i :: 0 <= i < |DailySpec(s, horizon)| ==> DistinctDates(s)[i] in DatesOf(DailySpec(s, horizon))
    ensures forall i :: |DailySpec(s, horizon)| <= i < |DistinctDates(s)| ==>
      DistinctDates(s)[i] !in DatesOf(DailySpec(s, horizon))
  {
    var r := DailySpec(s, horizon);
    var ks := DistinctDates(s);
    var n := |r|;
    var shown := DatesOf(r);
    DistinctDatesDistinct(s);
    forall i | 0 <= i < n ensures ks[i] in shown {
      assert r[i].date == ks[i];
    }
    forall i | n <= i < |ks| ensures ks[i] !in shown {
      assert forall j :: 0 <= j < n ==> r[j].date == ks[j] != ks[i];
    }
  }

  /** Dropping every sample whose date is not shown leaves the daily
      forecast as it was: samples of dates past the horizon affect no day. */
  lemma DailyIgnoresLaterDates(s: seq<Sample>, horizon: nat)
    ensures DailySpec(KeepDates(s, DatesOf(DailySpec(s, horizon))), horizon) == DailySpec(s, horizon)
  {
    var r := DailySpec(s, horizon);
    var ks := DistinctDates(s);
    var n := |r|;
    var shown := DatesOf(r);
    ShownDates(s, horizon);
    KeepKeysPrefix(ks, n, shown);
    var t := KeepDates(s, shown);
    DistinctDatesKeep(s, shown);
    var r' := DailySpec(t, horizon);
    assert DistinctDates(t) == ks[..n];
    assert |r'| == n;
    forall i | 0 <= i < n ensures r'[i] == r[i] {
      SamplesOnKeep(s, shown, ks[i]);
      assert r'[i] == DayOf(t, ks[i]);
      assert r[i] == DayOf(s, ks[i]);
    }
  }
}
