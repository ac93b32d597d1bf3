/** The forecast aggregator of the weather widget: it turns the provider's
    3-hourly forecast samples into at most five daily summaries (lowest and
    highest temperature and an icon per UTC calendar day), in the order in
    which each day first appears in the feed.

    The specification is the function `DailyHighsLows`, built from
    declarative pieces (`DaySet`, `FirstIndex`, `TempsOn`); the imperative
    method `ToDailyHighsLows` mirrors the source's loop over the feed and its
    mutable `byDay` table and is proved equal to it. The lemmas at the end
    state what the widget relies on: grouping by day, first-seen order, the
    five-day cut, the min/max bounds and the first-sample icon. */
module Forecast {
  import opened Wrappers

  /** Seconds in a UTC day (ECMAScript time has no leap seconds). */
  const SecondsPerDay: int := 86400

  /** Number of daily summaries the widget keeps. */
  const MaxDays: nat := 5

  /** 0000-01-01T00:00:00Z and 9999-12-31T23:59:59Z in epoch seconds: the
      timestamps for which `toISOString()` yields the plain `YYYY-MM-DD...`
      form, whose first ten characters name the UTC day. */
  const MinTimestamp: int := -62167219200
  const MaxTimestamp: int := 253402300799

  /** One entry of a sample's `weather` array; only its icon code is read. */
  datatype Condition = Condition(icon: Option<string>)

  /** One forecast sample: epoch seconds `dt`, `main.temp` in degrees
      Celsius, and the optional `weather` array. */
  datatype Sample = Sample(dt: int, temp: real, weather: Option<seq<Condition>>)

  /** One day of the result. `date` is the UTC day index (days since
      1970-01-01), which stands for the `YYYY-MM-DD` key of the source. */
  datatype DailySummary = DailySummary(date: int, min: real, max: real, icon: Option<string>)

  predicate ValidTimestamp(dt: int) {
    MinTimestamp <= dt <= MaxTimestamp
  }

  /** Every sample's timestamp has a four-digit-year ISO date. */
  predicate ValidFeed(list: seq<Sample>) {
    forall i :: 0 <= i < |list| ==> ValidTimestamp(list[i].dt)
  }

  /** The UTC calendar day of a sample: the day whose 86400-second window
      holds its timestamp (floor division, also before 1970). */
  function DayOf(s: Sample): (d: int)
    ensures d * SecondsPerDay <= s.dt < (d + 1) * SecondsPerDay
  {
    s.dt / SecondsPerDay
  }

  /** `item.weather?.[0]?.icon`: absent when the array is missing or empty,
      otherwise the first condition's (possibly absent) icon. */
  function IconOf(s: Sample): (r: Option<string>)
    ensures s.weather.None? ==> r.None?
    ensures s.weather.Some? && |s.weather.value| == 0 ==> r.None?
    ensures s.weather.Some? && |s.weather.value| > 0 ==> r == s.weather.value[0].icon
  {
    match s.weather
    case None => None
    case Some(conditions) => if |conditions| == 0 then None else conditions[0].icon
  }

  /** `Math.min` and `Math.max` on two (non-NaN) numbers. */
  function RealMin(a: real, b: real): (m: real)
    ensures m <= a && m <= b
    ensures m == a || m == b
  {
    if b < a then b else a
  }

  function RealMax(a: real, b: real): (m: real)
    ensures a <= m && b <= m
    ensures m == a || m == b
  {
    if a < b then b else a
  }

  /** The days that occur in `list`. */
  function DaySet(list: seq<Sample>): set<int> {
    set i | 0 <= i < |list| :: DayOf(list[i])
  }

  /** Position of the first sample of day `d`. */
  function FirstIndex(list: seq<Sample>, d: int): (k: nat)
    requires d in DaySet(list)
    ensures k < |list| && DayOf(list[k]) == d
    ensures forall j :: 0 <= j < k ==> DayOf(list[j]) != d
  {
    if DayOf(list[0]) == d then 0
    else
      assert d in DaySet(list[1..]) by {
        var i :| 0 <= i < |list| && DayOf(list[i]) == d;
        assert list[1..][i - 1] == list[i];
      }
      1 + FirstIndex(list[1..], d)
  }

  /** The distinct days of `list`, each once, in the order in which they
      first occur. */
  function Days(list: seq<Sample>): (ds: seq<int>)
    ensures |ds| <= |list|
    ensures list != [] ==> |ds| > 0 && ds[0] == DayOf(list[0])
  {
    if list == [] then []
    else
      assert |list| > 1 ==> list[..|list| - 1][0] == list[0];
      var earlier := Days(list[..|list| - 1]);
      var d := DayOf(list[|list| - 1]);
      if d in earlier then earlier else earlier + [d]
  }

  /** The temperatures of the samples of day `d`, in feed order. */
  function TempsOn(list: seq<Sample>, d: int): (ts: seq<real>)
    ensures |ts| > 0 <==> d in DaySet(list)
  {
    if list == [] then []
    else
      var earlier := list[..|list| - 1];
      assert list == earlier + [list[|list| - 1]];
      DaySetAppend(earlier, list[|list| - 1]);
      if DayOf(list[|list| - 1]) == d then TempsOn(earlier, d) + [list[|list| - 1].temp]
      else TempsOn(earlier, d)
  }

  /** The smallest element: the running `Math.min` over the sequence. */
  function Lowest(xs: seq<real>): (m: real)
    requires |xs| > 0
    ensures m in xs
    ensures forall x :: x in xs ==> m <= x
  {
    if |xs| == 1 then xs[0]
    else
      assert xs == xs[..|xs| - 1] + [xs[|xs| - 1]];
      RealMin(Lowest(xs[..|xs| - 1]), xs[|xs| - 1])
  }

  /** The largest element: the running `Math.max` over the sequence. */
  function Highest(xs: seq<real>): (m: real)
    requires |xs| > 0
    ensures m in xs
    ensures forall x :: x in xs ==> x <= m
  {
    if |xs| == 1 then xs[0]
    else
      assert xs == xs[..|xs| - 1] + [xs[|xs| - 1]];
      RealMax(Highest(xs[..|xs| - 1]), xs[|xs| - 1])
  }

  /** The summary of day `d` over all of `list`. */
  function Summary(list: seq<Sample>, d: int): (r: DailySummary)
    requires d in DaySet(list)
    ensures r.date == d && r.min <= r.max
  {
    var ts := TempsOn(list, d);
    DailySummary(d, Lowest(ts), Highest(ts), IconOf(list[FirstIndex(list, d)]))
  }

  /** The specification of the aggregator: the summaries of the first five
      distinct days, in first-seen order. */
  function DailyHighsLows(list: seq<Sample>): (r: seq<DailySummary>)
    ensures |r| <= MaxDays
    ensures list == [] ==> r == []
  {
    var ds := Days(list);
    DaysFacts(list);
    var n := if |ds| < MaxDays then |ds| else MaxDays;
    seq(n, k requires 0 <= k < n => Summary(list, ds[k]))
  }

  /** The state of the source's `byDay` table after the samples `seen`: its
      keys, in insertion order, are the distinct days of `seen`, and each
      accumulator is the specification summary of its day over `seen`. */
  ghost predicate TableOf(seen: seq<Sample>, byDay: map<int, DailySummary>, order: seq<int>) {
    && order == Days(seen)
    && (forall d :: d in byDay <==> d in DaySet(seen))
    && (forall d :: d in byDay ==> byDay[d] == Summary(seen, d))
  }

  /** `toDailyHighsLows`: one pass over the feed that inserts an accumulator
      for each new day (in an insertion-ordered table, as the source's
      string-keyed object is) and widens the existing one otherwise, then
      keeps the first five accumulators. */
  method ToDailyHighsLows(list: seq<Sample>) returns (days: seq<DailySummary>)
    requires ValidFeed(list)
    ensures days == DailyHighsLows(list)
  {
    var byDay: map<int, DailySummary> := map[];
    var order: seq<int> := [];
    var i := 0;
    while i < |list|
      invariant 0 <= i <= |list|
      invariant TableOf(list[..i], byDay, order)
    {
      var item := list[i];
      var day := DayOf(item);
      var t := item.temp;
      var icon := IconOf(item);
      ghost var next := list[..i] + [item];
      TableStep(list[..i], item, byDay, order);
      if day !in byDay {
        byDay := byDay[day := DailySummary(day, t, t, icon)];
        order := order + [day];
        assert TableOf(next, byDay, order);
      } else {
        var acc := byDay[day];
        byDay := byDay[day := acc.(min := RealMin(acc.min, t), max := RealMax(acc.max, t))];
        assert TableOf(next, byDay, order);
      }
      assert list[..i + 1] == next;
      i := i + 1;
    }
    assert list[..i] == list;
    TableResult(list, byDay, order);
    days := FirstValues(byDay, order);
  }

  /** `Object.values(byDay).slice(0, 5)`: the accumulators of the first five
      keys in insertion order. */
  function FirstValues(byDay: map<int, DailySummary>, order: seq<int>): (r: seq<DailySummary>)
    requires forall k :: 0 <= k < |order| ==> order[k] in byDay
    ensures |r| == if |order| < MaxDays then |order| else MaxDays
    ensures forall k :: 0 <= k < |r| ==> r[k] == byDay[order[k]]
  {
    var n := if |order| < MaxDays then |order| else MaxDays;
    seq(n, k requires 0 <= k < n => byDay[order[k]])
  }

  /** The table built from the whole feed yields the specification result. */
  lemma TableResult(list: seq<Sample>, byDay: map<int, DailySummary>, order: seq<int>)
    requires TableOf(list, byDay, order)
    ensures forall k :: 0 <= k < |order| ==> order[k] in byDay
    ensures FirstValues(byDay, order) == DailyHighsLows(list)
  {
    DaysFacts(list);
    forall k | 0 <= k < |order| ensures order[k] in byDay {
      assert order[k] in Days(list);
    }
  }

  /** One iteration of the source's loop keeps the table in step with the
      samples read so far: a new day is inserted at the end of the key order
      with the sample as its accumulator, a seen day's accumulator is
      widened, and nothing else changes. */
  lemma TableStep(seen: seq<Sample>, item: Sample, byDay: map<int, DailySummary>, order: seq<int>)
    requires TableOf(seen, byDay, order)
    ensures var day := DayOf(item);
      day !in byDay ==>
        TableOf(seen + [item],
                byDay[day := DailySummary(day, item.temp, item.temp, IconOf(item))],
                order + [day])
    ensures var day := DayOf(item);
      day in byDay ==>
        TableOf(seen + [item],
                byDay[day := byDay[day].(min := RealMin(byDay[day].min, item.temp),
                                         max := RealMax(byDay[day].max, item.temp))],
                order)
  {
    var day := DayOf(item);
    var extended := seen + [item];
    assert extended[..|seen|] == seen;
    DaysMembership(seen);
    DaySetAppend(seen, item);
    forall d | d in DaySet(extended)
      ensures Summary(extended, d) == Extend(seen, item, d)
    {
      SummaryAppend(seen, item, d);
    }
    var next := byDay[day := Extend(seen, item, day)];
    assert TableOf(extended, next, if day in byDay then order else order + [day]);
    if day in byDay {
      assert next == byDay[day := byDay[day].(min := RealMin(byDay[day].min, item.temp),
                                              max := RealMax(byDay[day].max, item.temp))];
    } else {
      assert next == byDay[day := DailySummary(day, item.temp, item.temp, IconOf(item))];
    }
  }

  // ---------------------------------------------------------------------
  // Facts about the specification pieces

  /** What one more sample `s` makes of the summary of day `d`: a day seen
      for the first time starts at `s` (both bounds its temperature, its
      icon); an already-seen day of `s` is widened by `s`'s temperature and
      keeps its icon; every other day is untouched. */
  function Extend(list: seq<Sample>, s: Sample, d: int): (r: DailySummary)
    requires d in DaySet(list) || DayOf(s) == d
    ensures r.date == d && r.min <= r.max
    ensures DayOf(s) == d ==> r.min <= s.temp <= r.max
    ensures d in DaySet(list) ==> r.icon == Summary(list, d).icon
  {
    if d !in DaySet(list) then DailySummary(d, s.temp, s.temp, IconOf(s))
    else
      var acc := Summary(list, d);
      if DayOf(s) == d then acc.(min := RealMin(acc.min, s.temp), max := RealMax(acc.max, s.temp))
      else acc
  }

  /** The specification summary after one more sample is the `Extend` of the
      summary before it: the aggregator's loop step is sound. */
  lemma SummaryAppend(list: seq<Sample>, s: Sample, d: int)
    requires d in DaySet(list + [s])
    ensures d in DaySet(list) || DayOf(s) == d
    ensures Summary(list + [s], d) == Extend(list, s, d)
  {
    var extended := list + [s];
    assert extended[..|list|] == list;
    DaySetAppend(list, s);
    FirstIndexAppend(list, s, d);
    if d in DaySet(list) {
      var k := FirstIndex(list, d);
      assert extended[k] == list[k];
      if DayOf(s) == d {
        var ts := TempsOn(list, d);
        assert TempsOn(extended, d) == ts + [s.temp];
        assert (ts + [s.temp])[..|ts|] == ts;
      }
    }
  }

  /** Appending a sample leaves the first occurrence of an already-seen day
      where it was; a new day first occurs at the appended position. */
  lemma FirstIndexAppend(list: seq<Sample>, s: Sample, d: int)
    requires d in DaySet(list + [s])
    ensures d in DaySet(list) ==> FirstIndex(list + [s], d) == FirstIndex(list, d)
    ensures d !in DaySet(list) ==> FirstIndex(list + [s], d) == |list|
  {
    var extended := list + [s];
    var k := FirstIndex(extended, d);
    if d in DaySet(list) {
      var k' := FirstIndex(list, d);
      assert extended[k'] == list[k'];
      assert extended[k] == list[k];
    } else {
      forall j | 0 <= j < |list| ensures DayOf(extended[j]) != d {
        assert extended[j] == list[j];
      }
    }
  }

  /** Appending a sample adds its day to the days of the feed. */
  lemma DaySetAppend(list: seq<Sample>, s: Sample)
    ensures DaySet(list + [s]) == DaySet(list) + {DayOf(s)}
  {
    var extended := list + [s];
    assert forall i :: 0 <= i < |list| ==> extended[i] == list[i];
    assert extended[|list|] == s;
  }

  /** `Days` lists exactly the days of the feed. */
  lemma {:induction false} DaysMembership(list: seq<Sample>)
    ensures forall d :: d in Days(list) <==> d in DaySet(list)
  {
    if list != [] {
      var earlier := list[..|list| - 1];
      assert list == earlier + [list[|list| - 1]];
      DaysMembership(earlier);
      DaySetAppend(earlier, list[|list| - 1]);
    }
  }

  /** `Days` lists each day once. */
  lemma {:induction false} DaysDistinct(list: seq<Sample>)
    ensures forall i, j :: 0 <= i < j < |Days(list)| ==> Days(list)[i] != Days(list)[j]
  {
    if list != [] {
      DaysDistinct(list[..|list| - 1]);
    }
  }

  /** `Days` is ordered by where each day first occurs in the feed. */
  lemma {:induction false} DaysOrdered(list: seq<Sample>)
    ensures forall d :: d in Days(list) ==> d in DaySet(list)
    ensures forall i, j :: 0 <= i < j < |Days(list)| ==>
      FirstIndex(list, Days(list)[i]) < FirstIndex(list, Days(list)[j])
  {
    DaysMembership(list);
    if list != [] {
      var earlier := list[..|list| - 1];
      var s := list[|list| - 1];
      assert list == earlier + [s];
      DaysOrdered(earlier);
      DaysMembership(earlier);
      var before, after := Days(earlier), Days(list);
      forall i, j | 0 <= i < j < |after|
        ensures FirstIndex(list, after[i]) < FirstIndex(list, after[j])
      {
        assert after[i] == before[i] && after[i] in DaySet(earlier);
        FirstIndexAppend(earlier, s, after[i]);
        FirstIndexAppend(earlier, s, after[j]);
        if j < |before| {
          assert after[j] == before[j] && after[j] in DaySet(earlier);
        } else {
          assert after[j] == DayOf(s) && DayOf(s) !in before;
          assert after[j] !in DaySet(earlier);
        }
      }
    }
  }

  /** `Days` lists exactly the days of the feed, each once, ordered by
      where each first occurs. */
  lemma DaysFacts(list: seq<Sample>)
    ensures forall d :: d in Days(list) <==> d in DaySet(list)
    ensures forall i, j :: 0 <= i < j < |Days(list)| ==> Days(list)[i] != Days(list)[j]
    ensures forall i, j :: 0 <= i < j < |Days(list)| ==>
      FirstIndex(list, Days(list)[i]) < FirstIndex(list, Days(list)[j])
  {
    DaysMembership(list);
    DaysDistinct(list);
    DaysOrdered(list);
  }

  /** The temperatures collected for day `d` are exactly those of the
      samples of that day. */
  lemma {:induction false} TempsOnFacts(list: seq<Sample>, d: int)
    ensures forall j :: 0 <= j < |list| && DayOf(list[j]) == d ==> list[j].temp in TempsOn(list, d)
    ensures forall x :: x in TempsOn(list, d) ==>
      exists j :: 0 <= j < |list| && DayOf(list[j]) == d && list[j].temp == x
  {
    if list != [] {
      var earlier := list[..|list| - 1];
      TempsOnFacts(earlier, d);
      assert forall j :: 0 <= j < |earlier| ==> earlier[j] == list[j];
    }
  }

  /** A sequence without repetitions has as many distinct elements as
      entries. */
  lemma {:induction false} DistinctCount(s: seq<int>)
    requires forall i, j :: 0 <= i < j < |s| ==> s[i] != s[j]
    ensures |set x | x in s| == |s|
  {
    if s != [] {
      var init := s[..|s| - 1];
      DistinctCount(init);
      assert (set x | x in s) == (set x | x in init) + {s[|s| - 1]};
      assert s[|s| - 1] !in init;
    }
  }

  // ---------------------------------------------------------------------
  // Properties of the aggregator's result

  /** No samples, no summaries. */
  lemma EmptyFeedEmptyResult()
    ensures DailyHighsLows([]) == []
  {
  }

  /** The result holds one summary per distinct day, up to five. */
  lemma ResultLength(list: seq<Sample>)
    ensures |DailyHighsLows(list)| == if |DaySet(list)| < MaxDays then |DaySet(list)| else MaxDays
  {
    DaysFacts(list);
    DistinctCount(Days(list));
    assert (set x | x in Days(list)) == DaySet(list);
  }

  /** The result's dates are the first entries of `Days`. */
  lemma ResultDates(list: seq<Sample>, r: seq<DailySummary>)
    requires r == DailyHighsLows(list)
    ensures |r| <= |Days(list)|
    ensures forall k :: 0 <= k < |r| ==> r[k].date == Days(list)[k]
  {
  }

  /** Result dates are days of the feed, pairwise distinct, and ordered by
      first occurrence in the feed (not by calendar). */
  lemma FirstSeenOrder(list: seq<Sample>, r: seq<DailySummary>)
    requires r == DailyHighsLows(list)
    ensures forall k :: 0 <= k < |r| ==> r[k].date in DaySet(list)
    ensures forall i, j :: 0 <= i < j < |r| ==> r[i].date != r[j].date
    ensures forall i, j :: 0 <= i < j < |r| ==>
      FirstIndex(list, r[i].date) < FirstIndex(list, r[j].date)
  {
    DaysFacts(list);
    ResultDates(list, r);
  }

  /** No omitted day occurs first before a kept one: the result is the
      first five distinct days of the feed. */
  lemma KeptDaysComeFirst(list: seq<Sample>, r: seq<DailySummary>, d: int, k: int)
    requires r == DailyHighsLows(list)
    requires d in DaySet(list) && 0 <= k < |r|
    requires FirstIndex(list, d) <= FirstIndex(list, r[k].date)
    ensures exists m :: 0 <= m <= k && r[m].date == d
  {
    DaysFacts(list);
    ResultDates(list, r);
    var ds := Days(list);
    assert d in ds;
    var p :| 0 <= p < |ds| && ds[p] == d;
    assert p <= k;
    assert r[p].date == d;
  }

  /** With at most five distinct days, every day of the feed has a summary
      (exactly one, by `FirstSeenOrder`). */
  lemma FewDaysAllShown(list: seq<Sample>, r: seq<DailySummary>)
    requires r == DailyHighsLows(list)
    requires |DaySet(list)| <= MaxDays
    ensures forall d :: d in DaySet(list) ==> exists k :: 0 <= k < |r| && r[k].date == d
  {
    DaysFacts(list);
    ResultLength(list);
    var ds := Days(list);
    DistinctCount(ds);
    assert (set x | x in ds) == DaySet(list);
    forall d | d in DaySet(list)
      ensures exists k :: 0 <= k < |r| && r[k].date == d
    {
      var p :| 0 <= p < |ds| && ds[p] == d;
      assert r[p].date == d;
    }
  }

  /** A day's `min` and `max` bound every temperature of that day, occur
      among them, and so `min <= max`. */
  lemma DayExtremes(list: seq<Sample>, r: seq<DailySummary>, k: int)
    requires r == DailyHighsLows(list)
    requires 0 <= k < |r|
    ensures r[k].min <= r[k].max
    ensures forall j :: 0 <= j < |list| && DayOf(list[j]) == r[k].date ==>
      r[k].min <= list[j].temp <= r[k].max
    ensures exists j :: 0 <= j < |list| && DayOf(list[j]) == r[k].date && list[j].temp == r[k].min
    ensures exists j :: 0 <= j < |list| && DayOf(list[j]) == r[k].date && list[j].temp == r[k].max
  {
    DaysFacts(list);
    var d := r[k].date;
    TempsOnFacts(list, d);
    var ts := TempsOn(list, d);
    assert r[k].min == Lowest(ts) && r[k].max == Highest(ts);
  }

  /** A day with a single sample reports that sample's temperature as both
      its low and its high. */
  lemma SingleSampleDay(list: seq<Sample>, r: seq<DailySummary>, k: int, j: int)
    requires r == DailyHighsLows(list)
    requires 0 <= k < |r| && 0 <= j < |list| && DayOf(list[j]) == r[k].date
    requires forall i :: 0 <= i < |list| && i != j ==> DayOf(list[i]) != r[k].date
    ensures r[k].min == list[j].temp && r[k].max == list[j].temp
  {
    DayExtremes(list, r, k);
  }

  /** A day's icon is the icon of that day's first sample (absent if that
      sample has none). */
  lemma DayIcon(list: seq<Sample>, r: seq<DailySummary>, k: int)
    requires r == DailyHighsLows(list)
    requires 0 <= k < |r|
    ensures exists j ::
      && 0 <= j < |list| && DayOf(list[j]) == r[k].date && r[k].icon == IconOf(list[j])
      && forall i :: 0 <= i < j ==> DayOf(list[i]) != r[k].date
  {
    DaysFacts(list);
    var j := FirstIndex(list, r[k].date);
    assert r[k].icon == IconOf(list[j]);
  }

  /** A further sample of an already-seen day changes neither the days of
      the result, nor their order, nor any icon. */
  lemma LaterSampleKeepsIcons(list: seq<Sample>, s: Sample)
    requires DayOf(s) in DaySet(list)
    ensures |DailyHighsLows(list + [s])| == |DailyHighsLows(list)|
    ensures forall k :: 0 <= k < |DailyHighsLows(list)| ==>
      DailyHighsLows(list + [s])[k].date == DailyHighsLows(list)[k].date &&
      DailyHighsLows(list + [s])[k].icon == DailyHighsLows(list)[k].icon
  {
    var extended := list + [s];
    assert extended[..|list|] == list;
    DaysFacts(list);
    DaysFacts(extended);
    assert Days(extended) == Days(list);
    forall k | 0 <= k < |DailyHighsLows(list)|
      ensures DailyHighsLows(extended)[k].icon == DailyHighsLows(list)[k].icon
    {
      var d := Days(list)[k];
      FirstIndexAppend(list, s, d);
      assert extended[FirstIndex(list, d)] == list[FirstIndex(list, d)];
    }
  }
}

/** Worked feeds for the aggregator. */
module ForecastExamples {
  import opened Wrappers
  import opened Forecast

  /** A sample of day 2 followed by one of day 1: the result lists day 2
      first, because order follows the feed, not the calendar. */
  lemma FirstSeenBeatsCalendar()
    ensures var r := DailyHighsLows([Sample(2 * SecondsPerDay, 10.0, None), Sample(SecondsPerDay, 5.0, None)]);
      |r| == 2 && r[0].date == 2 && r[1].date == 1
  {
    var list := [Sample(2 * SecondsPerDay, 10.0, None), Sample(SecondsPerDay, 5.0, None)];
    assert list[..1] == [list[0]] && [list[0]][..0] == [];
    assert DayOf(list[0]) == 2 && DayOf(list[1]) == 1;
    assert Days([list[0]]) == [2];
    assert Days(list) == [2, 1];
  }

  /** One day sampled at 10, 25 and 3 degrees with icons "01d", "02d" and
      none: the range is widened to 3..25 and the first icon is kept. */
  lemma WideningKeepsFirstIcon()
    ensures DailyHighsLows([
      Sample(0, 10.0, Some([Condition(Some("01d"))])),
      Sample(10800, 25.0, Some([Condition(Some("02d"))])),
      Sample(21600, 3.0, Some([]))]) == [DailySummary(0, 3.0, 25.0, Some("01d"))]
  {
    var list := [
      Sample(0, 10.0, Some([Condition(Some("01d"))])),
      Sample(10800, 25.0, Some([Condition(Some("02d"))])),
      Sample(21600, 3.0, Some([]))];
    assert list[..2][..1] == [list[0]] && [list[0]][..0] == [];
    assert list[..2] == [list[0], list[1]];
    assert DayOf(list[0]) == 0 && DayOf(list[1]) == 0 && DayOf(list[2]) == 0;
    assert Days([list[0]]) == [0];
    assert Days(list[..2]) == [0];
    assert Days(list) == [0];
    assert TempsOn(list, 0) == [10.0, 25.0, 3.0];
    assert FirstIndex(list, 0) == 0;
  }
}
