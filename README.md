# Daily forecast aggregator

The weather app asks the forecast service for a list of 3-hourly samples.
Each sample has a `dt_txt` timestamp such as `"2024-06-01 12:00:00"`, a high
(`main.temp_max`), a low (`main.temp_min`) and the `icon` and `description`
of its first weather condition. The fetch handler condenses the list into a
daily forecast in one pass, using a plain object as a map from date key to
summary:

- The date key is the part of `dt_txt` before the first space.
- The first sample of a date creates the summary. It fixes the icon and the
  description, and it seeds the high and the low.
- Every later sample of the same date only widens the high (by `Math.max`)
  and the low (by `Math.min`).
- The summaries come out in the order their dates were first seen, cut to
  the first five dates.

The project has four modules:

- `Forecast` (`forecast.dfy`) holds the two records and the reference
  definitions. These say, without mutable state, what the daily forecast of
  a sample list is:
  - the date key of a sample;
  - the samples of one date;
  - the high and low of a group;
  - the distinct dates in first-seen order;
  - the summary of one date;
  - `DailySpec`, the whole daily forecast for a given horizon.
- `DailyProperties` (`daily_properties.dfy`) proves what those definitions
  mean:
  - how the date key relates to the timestamp;
  - that each day's high and low really are the extremes of that date's
    samples, and are attained;
  - that each day's icon and description come from the first sample of the
    date;
  - that dates are distinct and in first-seen order;
  - how long the result is;
  - that the horizon drops only the latest dates;
  - that samples of dropped dates cannot affect the result;
  - how one more sample changes each definition.
- `Aggregator` (`aggregator.dfy`) is the imperative pass. `Aggregate` keeps
  a `map` from date to summary and a `seq` holding the map's insertion
  order. Its `while` loop has the same two branches as the source. After the
  loop it outputs the first `horizon` summaries. Its loop invariant says the
  map and the order summarise the samples consumed so far, and its
  postcondition ties the output to `DailySpec`. `DailyForecast` fixes the
  horizon at 5, as the app does.
- `Scenarios` (`scenarios.dfy`) covers the shapes of input the app meets:
  - one date only;
  - one sample per date;
  - eight samples of one date, with concrete temperatures;
  - six dates, of which five are shown.

Temperatures are integers. The conditions are those of the app's code:

- An empty list gives an empty forecast.
- A date with one sample gives that sample's values.
- The horizon keeps the first five dates in input order. It does not sort
  the dates.

Because `Aggregate`'s postcondition determines its output from its inputs,
aggregating the same list twice gives the same forecast.

## Model

| member | source | states |
|---|---|---|
| DailyProperties.DateKeyBeforeFirstSpace | src/App.jsx:78 | the date key is a prefix of `dt_txt` with no space in it; it is either all of `dt_txt` or is followed by a space |
| DailyProperties.DateKeyUnique | src/App.jsx:78 | any space-free prefix of `dt_txt` that is the whole text or is followed by a space is the date key (the key is the first `split(" ")` piece and nothing else) |
| DailyProperties.DateKeyOfTimestamp | src/App.jsx:78 | for a timestamp `day + " " + time` with a space-free `day`, the date key is exactly `day` |
| DailyProperties.SamplesOnMembers | src/App.jsx:77-79 | a sample is in the group of date `d` if and only if it is in the list and its date key is `d` |
| DailyProperties.HighOfIsMax | src/App.jsx:88 | the high of a group is at least every sample's `temp_max` and equals one of them |
| DailyProperties.LowOfIsMin | src/App.jsx:89 | the low of a group is at most every sample's `temp_min` and equals one of them |
| DailyProperties.DistinctDatesDistinct | src/App.jsx:79-86 | the list of dates holds no date twice (a date's summary is created only when the map has no entry for it) |
| Forecast.DistinctDates | src/App.jsx:79-86 | a date is in the list of dates if and only if some sample has that date key |
| Forecast.FirstIndex | src/App.jsx:79-86 | gives the position of a sample of date `d` with no earlier sample of date `d`: the sample that creates the summary |
| DailyProperties.DayOfSnoc | src/App.jsx:79-90 | one more sample creates a summary from its own fields for a new date, widens only the high and low of a known date, and leaves every other date's summary unchanged |
| DailyProperties.FirstIndexSnoc | src/App.jsx:79 | one more sample does not move the first sample of a known date, and is the first sample of a new date |
| DailyProperties.DistinctDatesAreDateSet | src/App.jsx:79-80 | the listed dates are exactly the date keys of the samples |
| DailyProperties.DistinctDatesFirstSeen | src/App.jsx:79-92 | the dates are listed in increasing order of their first sample's position (the object's insertion order for these keys) |
| DailyProperties.DailyLength | src/App.jsx:76-92 | the forecast has as many days as the smaller of the number of distinct dates and the horizon; an empty list or a zero horizon gives an empty forecast |
| DailyProperties.DailyOrder | src/App.jsx:79-92 | each shown day is the date at its position among the first-seen dates and is a date of some sample; days are pairwise distinct and in first-seen order |
| DailyProperties.DailyDropsOnlyLaterDates | src/App.jsx:92 | a date of the input that is not shown means the forecast is full (horizon days), and every shown date was first seen before it |
| DailyProperties.DailyExtremes | src/App.jsx:80-89 | each day's high is at least the `temp_max` of every sample of that date and equals one of them; likewise its low is the least `temp_min` of those samples |
| DailyProperties.SamplesOnFirst | src/App.jsx:79-86 | the first sample of a date's group is the first sample of that date in the input |
| DailyProperties.DailyFirstSample | src/App.jsx:79-90 | each day's icon and description are those of the first sample of its date; later samples never change them |
| DailyProperties.DailyMinLeMax | src/App.jsx:82-89 | when every sample's low is at most its high, every day's low is at most its high |
| DailyProperties.DailyIgnoresLaterDates | src/App.jsx:92 | removing all samples of dates that are not shown leaves the forecast unchanged |
| Aggregator.SummarisesStep | src/App.jsx:77-91 | one step of the loop keeps the map and the insertion order a summary of the samples seen: a new date is seeded from the sample and appended to the order, a known date has its high and low widened by max and min |
| Aggregator.Aggregate | src/App.jsx:76-92 | the one-pass grouping with a map and its insertion order returns exactly the reference daily forecast of the samples for the given horizon |
| Aggregator.DailyForecast | src/App.jsx:92 | the forecast the app shows has min(number of distinct dates, 5) days and is the reference daily forecast for horizon 5 |
| Scenarios.OneDateOneDay | src/App.jsx:76-92 | samples that all share one date give one day with that date, the highest high, the lowest low and the first sample's icon and description |
| Scenarios.OneDayPerSample | src/App.jsx:76-92 | samples with pairwise different dates give one day per sample, in input order, up to the horizon, each carrying that sample's own values |
| Scenarios.EightSamplesOfOneDate | src/App.jsx:76-92 | eight samples of 2024-06-01 with highs 20, 22, 25, 24, 23, 21, 19, 18 and lows 15, 14, 13, 16, 17, 18, 12, 11 give the single day (2024-06-01, 25, 11) with the first sample's icon and description ("01n", "clear sky"), not those of the last sample ("50n", "mist") |
| Scenarios.SixDatesFiveDays | src/App.jsx:92 | six samples with six different dates give five days, which are the first five samples' dates and values; the sixth date is not shown |

## Left out

- The request itself is not part of this model. This covers building the URL, the API key from the environment, `fetch`, `await`, the `fRes.ok` and `Array.isArray` test, and the `try`/`catch`/`alert`/`finally` around it (src/App.jsx:50-99). They are I/O and error reporting around the core, and the model starts from the list.
- The React state is not modelled: `setForecast`, `setDailyForecast`, the loading flag, the empty-city guard and the dark-mode toggle. The model's output is the value passed to `setDailyForecast`.
- Rendering is not modelled: the JSX, the chart and `Math.round` on display.
- Malformed samples are not modelled. In JavaScript a sample without `dt_txt` or `main` throws a `TypeError` wherever it occurs. A sample without `weather[0]` throws only when it is the first sample of its date, because only the seeding branch reads it (src/App.jsx:84-85). A later sample of a known date with an empty `weather` list passes through the max/min branch (src/App.jsx:88-89). The handler's `catch` reports the error with an alert. The `Sample` record always has every field, so the throwing paths cannot arise in the model. The model agrees with the code on the non-throwing case: a later sample's icon and description are never read (`DayOfSnoc`, `DailyFirstSample`).
- Temperatures are modelled as integers, not JavaScript floating-point numbers. The code only compares them through `Math.max` and `Math.min`, so integers show the same choices. `NaN`, and `Math.max` propagating it, are not modelled.
- Object key order is modelled as insertion order. JavaScript puts integer-like keys (such as `"7"`) first, in numeric order, before the other keys. The service's dates (`YYYY-MM-DD`) are never integer-like, so that ordering is not modelled.
- Date keys that are names on `Object.prototype` (such as `"constructor"`) are not modelled. For those keys `!map[date]` sees the inherited property, which no real date key hits. The model treats "already has an entry" as key membership in the map.
- Only `weather[0]` of each sample is represented, because the code reads no other condition.
- The horizon is a parameter of `Aggregate` and `DailySpec`. The app's fixed value 5 is `Aggregator.Horizon`, used by `DailyForecast`.
- The empty list and the zero horizon have no scenario lemmas of their own, because `DailyLength`'s second postcondition states both for every input.
- Invariance of the high and low under reordering samples within a day is not stated. The icon and description depend on which sample comes first, so a day's summary is not order-independent as a whole.
- DailyMinLeMax: states "low at most high" for each day only when every sample has `temp_min` at most `temp_max`. The code never enforces that order, so one sample with high 1 and low 2 gives the day (1, 2), and the unconditional form does not hold of the source.
