# Weather dashboard: forecast aggregation, unit conversion and query check

This project models the logic of the weather widget's main component
(`src/components/Main.jsx`) in Dafny and proves its behaviour:

- **Forecast aggregation** (`toDailyHighsLows`). The provider's forecast
  feed is a list of 3-hourly samples, each with an epoch timestamp `dt`, a
  temperature `main.temp` and an optional `weather[0].icon`. The widget
  groups them by UTC calendar day. For each day it keeps a running minimum
  and maximum and the icon of the day's first sample. It returns the first
  five days in the order in which they first appear in the feed.
  `Forecast.ToDailyHighsLows` is the imperative loop. Like the source, it
  updates an insertion-ordered table (`byDay` plus the order of its keys).
  It is proved equal to the specification function
  `Forecast.DailyHighsLows`, which is built from declarative pieces: the set
  of days, each day's first sample, and each day's temperatures. Lemmas
  then prove the properties the widget relies on.
- **Unit conversion** (`cToF`), as `Units.CToF` over reals, with its
  inverse, its reference values (water's freezing and boiling points) and
  its monotonicity. The monotonicity means the Fahrenheit view keeps each
  day's high at least as large as its low.
- **The blank-query check** of `handleSubmit`. `SearchForm.Trim` models
  `String.prototype.trim` over the exact ECMAScript whitespace set. A
  whitespace-only query is rejected with "Please enter a city." and no
  request is made. Any other query is fetched in its trimmed form.

Modelling decisions:

- A sample's day key is the integer `dt / 86400`. Dafny's division by a
  positive constant rounds down, as the UTC date does, also before 1970.
  The source's `YYYY-MM-DD` string (`toISOString().slice(0, 10)`) is a
  one-to-one function of this index for timestamps whose year is between
  0000 and 9999. The algorithm only compares keys for equality, so the
  index stands in for the string. `ToDailyHighsLows` requires every
  timestamp to be in that range (`ValidFeed`).
- Temperatures are `real`. The code only takes `Math.min`/`Math.max` of
  them, so no rounding is involved.
- The source's `byDay` object keeps insertion order because its keys are
  not array indices. It is modelled as a `map` from day to accumulator plus
  a sequence of keys in insertion order. Each accumulator is a fresh object
  owned by one key, so updating it in place is modelled as replacing the
  map entry.

The code validates no temperature: a non-numeric `main.temp` is not an
error. The cut to five days is the literal `slice(0, 5)`
(src/components/Main.jsx:36); `Forecast.MaxDays` is that constant.

## Model

| member | source | states |
|---|---|---|
| `Forecast.DayOf` | src/components/Main.jsx:26 | the day key of a sample is the day whose 86400-second UTC window contains its timestamp |
| `Forecast.FirstIndex` | src/components/Main.jsx:29 | the position it returns holds a sample of the given day, and no earlier sample has that day (the sample that creates the day's accumulator) |
| `Forecast.Lowest` | src/components/Main.jsx:29-31 | the running `Math.min` seeded with the first temperature is an element of the sequence and is no larger than any element |
| `Forecast.Highest` | src/components/Main.jsx:29-32 | the running `Math.max` seeded with the first temperature is an element of the sequence and is no smaller than any element |
| `Forecast.TempsOn` | src/components/Main.jsx:27-32 | a day collects at least one temperature exactly when some sample of the feed falls on that day |
| `Forecast.DailyHighsLows` | src/components/Main.jsx:23-37 | the aggregate has at most five entries, and none for an empty feed |
| `Forecast.ToDailyHighsLows` | src/components/Main.jsx:23-37 | the loop that inserts or widens per-day accumulators in an insertion-ordered table, followed by the cut to five, returns exactly the specification `DailyHighsLows` for every feed of in-range timestamps |
| `Forecast.IconOf` | src/components/Main.jsx:28 | a sample's icon is absent when it has no `weather` array or an empty one, and is otherwise the (possibly absent) icon of the array's first condition |
| `Forecast.RealMin` | src/components/Main.jsx:31 | `Math.min` of two temperatures is one of them and no larger than either |
| `Forecast.RealMax` | src/components/Main.jsx:32 | `Math.max` of two temperatures is one of them and no smaller than either |
| `Forecast.Days` | src/components/Main.jsx:29-36 | the table's keys in insertion order are no more than the samples, and a non-empty feed's first key is the day of its first sample |
| `Forecast.Summary` | src/components/Main.jsx:29-33 | the accumulator of a day carries that day as its date and has `min <= max` |
| `Forecast.Extend` | src/components/Main.jsx:29-33 | one more sample yields an accumulator dated with its day, with `min <= max`, bracketing the sample's temperature when it falls on that day, and keeping the icon of an already-seen day |
| `Forecast.TableStep` | src/components/Main.jsx:24-33 | one loop iteration keeps the table in step with the samples read: a new day is inserted last in the key order with the sample's temperature as both bounds and its icon; a seen day's bounds are widened with `Math.min`/`Math.max`; nothing else changes |
| `Forecast.TableResult` | src/components/Main.jsx:36 | the table built from the whole feed has every key in its order present, and its first five values are the specification result |
| `Forecast.FirstValues` | src/components/Main.jsx:36 | `Object.values(byDay).slice(0, 5)` has min(5, number of keys) entries, the accumulators of the keys in insertion order |
| `Forecast.DaySetAppend` | src/components/Main.jsx:25-26 | one more sample adds exactly its own day to the days of the feed |
| `Forecast.FirstIndexAppend` | src/components/Main.jsx:29 | one more sample leaves the first sample of every already-seen day where it was, and is itself the first sample of a new day |
| `Forecast.SummaryAppend` | src/components/Main.jsx:29-33 | after one more sample, a new day's summary starts from that sample (both bounds its temperature, its icon), an already-seen day of that sample is widened with `Math.min`/`Math.max` and keeps its icon, and every other day is unchanged |
| `Forecast.DaysMembership` | src/components/Main.jsx:25-29 | the table's keys, in insertion order, are exactly the days of the feed |
| `Forecast.DaysDistinct` | src/components/Main.jsx:29 | each day is inserted into the table once |
| `Forecast.DaysOrdered` | src/components/Main.jsx:25-29 | the insertion order of the keys is the order of each day's first sample in the feed |
| `Forecast.DaysFacts` | src/components/Main.jsx:25-29 | the table's keys, in insertion order, are exactly the days of the feed, each once, ordered by the position of each day's first sample |
| `Forecast.TempsOnFacts` | src/components/Main.jsx:27-32 | the temperatures collected for a day are exactly those of the samples of that day |
| `Forecast.EmptyFeedEmptyResult` | src/components/Main.jsx:24-36 | an empty feed gives an empty result |
| `Forecast.ResultLength` | src/components/Main.jsx:36 | the result has min(5, number of distinct days) entries |
| `Forecast.ResultDates` | src/components/Main.jsx:36 | the result's dates are the first entries of the table's keys in insertion order |
| `Forecast.FirstSeenOrder` | src/components/Main.jsx:26-36 | result dates occur in the feed, are pairwise distinct, and are ordered by first occurrence in the feed, not by calendar |
| `Forecast.KeptDaysComeFirst` | src/components/Main.jsx:36 | any day first seen no later than a kept day is itself kept, so the result is the first five distinct days |
| `Forecast.FewDaysAllShown` | src/components/Main.jsx:36 | with at most five distinct days, every day of the feed has a summary (exactly one, by distinctness) |
| `Forecast.DayExtremes` | src/components/Main.jsx:29-32 | a day's `min` and `max` bound every temperature of that day's samples and both occur among them, so `min <= max` |
| `Forecast.SingleSampleDay` | src/components/Main.jsx:29 | a day with one sample has `min == max ==` that sample's temperature |
| `Forecast.DayIcon` | src/components/Main.jsx:28-29 | a day's icon is the icon (possibly absent) of the first sample of that day |
| `Forecast.LaterSampleKeepsIcons` | src/components/Main.jsx:30-33 | appending a sample of an already-seen day changes neither the days, their order, nor any icon |
| `ForecastExamples.FirstSeenBeatsCalendar` | src/components/Main.jsx:25-36 | a feed with a day-2 sample then a day-1 sample yields the dates [2, 1] |
| `ForecastExamples.WideningKeepsFirstIcon` | src/components/Main.jsx:28-33 | one day sampled at 10, 25 and 3 with icons "01d", "02d" and none yields min 3, max 25 and icon "01d" |
| `Units.CToF` | src/components/Main.jsx:39-41 | `(c * 9) / 5 + 32` over reals: Fahrenheit-to-Celsius `(f - 32) * 5 / 9` gives `c` back, and the value equals its input exactly at -40 |
| `Units.FreezingPoint` | src/components/Main.jsx:39-41 | 0 degrees Celsius converts to 32 degrees Fahrenheit |
| `Units.BoilingPoint` | src/components/Main.jsx:39-41 | 100 degrees Celsius converts to 212 degrees Fahrenheit |
| `Units.CToFStrictlyIncreasing` | src/components/Main.jsx:39-41 | the conversion is strictly increasing |
| `Units.CToFMonotone` | src/components/Main.jsx:39-41 | the conversion keeps every non-strict comparison between temperatures |
| `Units.FahrenheitKeepsDayBounds` | src/components/Main.jsx:196-200 | converted, a day's high is still at least its low, and both still bound every converted sample of the day |
| `SearchForm.IsTrimmable` | src/components/Main.jsx:89 | the characters `trim` strips, ECMAScript WhiteSpace and LineTerminator: space, tab, line feed and carriage return among them, no other printable ASCII character and not U+200B |
| `SearchForm.SkipLeading` | src/components/Main.jsx:89 | the scan from the front stops at the first non-whitespace character (or the end), having passed only whitespace |
| `SearchForm.SkipTrailing` | src/components/Main.jsx:89 | the scan from the back stops just after the last non-whitespace character (or at the text's start), having passed only whitespace |
| `SearchForm.Trim` | src/components/Main.jsx:89 | the result is no longer than the input, is empty exactly for blank input, and otherwise starts and ends with non-whitespace |
| `SearchForm.TrimKeepsMiddle` | src/components/Main.jsx:89 | the result is a slice of the input with only whitespace before and after it |
| `SearchForm.TrimIsTheCore` | src/components/Main.jsx:89 | any non-empty slice with non-whitespace ends and only whitespace around it is the trimmed string, so trimming is uniquely determined |
| `SearchForm.TrimIdempotent` | src/components/Main.jsx:89 | trimming twice equals trimming once |
| `SearchForm.HandleSubmit` | src/components/Main.jsx:86-94 | a submission is rejected with "Please enter a city." exactly when the field (absent read as "") is blank; otherwise the city fetched is the trimmed, non-empty entry |
| `SearchForm.AbsentOrBlankRejected` | src/components/Main.jsx:89-93 | an absent field or a whitespace-only entry is rejected and nothing is fetched |
| `SearchForm.FetchedCityResubmits` | src/components/Main.jsx:89-94 | submitting the city that was fetched fetches the same city again |

## Left out

- `fetchWeather` (src/components/Main.jsx:43-84): HTTP requests, `Promise.all`, JSON decoding, the response-status check, the missing-API-key message and error display. These are network I/O and asynchronous control flow. The model's `Fetch(city)` outcome stands for the call to it.
- `localStorage` reads and writes of the last city (src/components/Main.jsx:14-20, 78): browser storage side effects.
- React state, effects and JSX rendering (src/components/Main.jsx:7-12, 97-210), including the unit toggle: user interface only.
- Display formatting: `Math.round` of temperatures and wind speed, and the locale-dependent `toLocaleDateString` label. These are floating-point rounding and locale behaviour inside library calls.
- Forecast.DayOf: does not model the `Date`/`toISOString` library itself. The one-to-one mapping between the day index and the `YYYY-MM-DD` string is stated above, not proved. Timestamps outside years 0000-9999 are excluded by `ValidFeed`: there the source throws or changes the string format.
- Forecast.DailyHighsLows: `date` is the integer day index, not the `YYYY-MM-DD` string the source stores.
- Units.CToF: computes over reals, not IEEE doubles. In doubles the product and quotient round, so distinct inputs can convert to the same value (0 and 5e-324 both give 32) and inputs above about 2e307 overflow to Infinity. In the source the conversion is only non-decreasing; `Units.CToFStrictlyIncreasing` and the exact round trip through `(f - 32) * 5 / 9` hold for the real-valued model only, and `Units.FahrenheitKeepsDayBounds` relies only on the non-strict `Units.CToFMonotone`.
- Forecast.IconOf: a `null` entry in `weather` (which `?.icon` maps to undefined) is not representable; every `Condition` is a present value whose own `icon` may be absent.
- Malformed feeds: the model's feed is always a list of samples with an integer `dt` and a real `main.temp`. In the source, a missing `forecastJson.list` (src/components/Main.jsx:25) or a sample without `main` (src/components/Main.jsx:27) throws a TypeError, and a `dt` that `* 1000` turns into NaN (missing, a non-numeric string, a plain object) makes `toISOString` throw a RangeError (src/components/Main.jsx:26). The error reaches `fetchWeather`'s catch (src/components/Main.jsx:79-80), which shows it; the forecast stays as cleared at src/components/Main.jsx:52 and the last city is not saved. Other non-numbers are coerced without an error (`null`, `false`, `""` and `[]` count as timestamp 0, a numeric string as its number); the model does not represent them.
- Fractional timestamps: `dt` is an integer in the model. `Date` truncates a fractional millisecond value toward zero, which the model does not represent.
- NaN and non-numeric temperatures: the code does not check them, and the model's temperatures are reals.
- `src/components/Header.jsx`: static markup with no logic.
