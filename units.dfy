/** Display-time unit conversion. Temperatures are kept in degrees Celsius;
    the Fahrenheit view converts each shown value with `CToF`. */
module Units {
  import opened Forecast

  /** `cToF`: degrees Celsius to degrees Fahrenheit, `(c * 9) / 5 + 32`.
      Fahrenheit-to-Celsius, `(f - 32) * 5 / 9`, undoes it, and -40 is the
      one temperature that reads the same on both scales. */
  function CToF(c: real): (f: real)
    ensures (f - 32.0) * 5.0 / 9.0 == c
    ensures f == c <==> c == -40.0
  {
    (c * 9.0) / 5.0 + 32.0
  }

  /** Water freezes at 32 degrees Fahrenheit. */
  lemma FreezingPoint()
    ensures CToF(0.0) == 32.0
  {
  }

  /** Water boils at 212 degrees Fahrenheit. */
  lemma BoilingPoint()
    ensures CToF(100.0) == 212.0
  {
  }

  /** The conversion is strictly increasing, so it keeps every comparison. */
  lemma CToFStrictlyIncreasing(a: real, b: real)
    requires a < b
    ensures CToF(a) < CToF(b)
  {
  }

  /** The conversion keeps every non-strict comparison; this is the form the
      display relies on. */
  lemma CToFMonotone(a: real, b: real)
    requires a <= b
    ensures CToF(a) <= CToF(b)
  {
    if a < b {
      CToFStrictlyIncreasing(a, b);
    }
  }

  /** In the Fahrenheit view a day's shown high is still at least its shown
      low, and both still bound every converted sample of that day. */
  lemma FahrenheitKeepsDayBounds(list: seq<Sample>, r: seq<DailySummary>, k: int)
    requires r == DailyHighsLows(list)
    requires 0 <= k < |r|
    ensures CToF(r[k].min) <= CToF(r[k].max)
    ensures forall j :: 0 <= j < |list| && DayOf(list[j]) == r[k].date ==>
      CToF(r[k].min) <= CToF(list[j].temp) <= CToF(r[k].max)
  {
    DayExtremes(list, r, k);
    CToFMonotone(r[k].min, r[k].max);
    forall j | 0 <= j < |list| && DayOf(list[j]) == r[k].date
      ensures CToF(r[k].min) <= CToF(list[j].temp) <= CToF(r[k].max)
    {
      CToFMonotone(r[k].min, list[j].temp);
      CToFMonotone(list[j].temp, r[k].max);
    }
  }
}
