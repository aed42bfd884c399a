# Window usage statistics — a verified model

This project models the window-usage aggregator of aw-finder, a small web
front-end for an ActivityWatch window watcher. The aggregator takes the
window-focus events of one bucket. Each event may carry a `data` object with
`app` and `title` entries and a `duration` in seconds. It reduces them to:

- a per-application table holding the total seconds, the number of events,
  the distinct window titles and the application's percentage share of all
  seconds;
- the grand total of seconds;
- the number of events.

It returns an empty object when there are no events. The model also covers
what the overview page does with that result: its three headline counters,
which default to 0 when the result is empty; the applications ranked by
total duration, longest first; and each application's title list cut to ten
entries plus a count of the rest.

Files:

- `events.dfy` (module `Events`): the event record and the defaults for a
  missing `data` (the empty object), `app` and `title` (`"Unknown"`) and
  `duration` (0).
- `aggregation.dfy` (module `Aggregation`) has three parts:
  - the aggregator as imperative code. `GetWindowStats` composes the tally
    pass (`TallyEvents`, a loop that builds the per-application dictionary
    and the grand total) and the percentage pass (`AddPercentages`, a loop
    over the applications).
  - the recursive specification `WindowStatsOf`, which the methods are
    proved equal to.
  - per-application reference functions (`AppsOf`, `CountOf`, `DurationOf`,
    `TitlesOf`) and the lemmas that connect them to the specification.
- `map_sums.dfy` (module `MapSums`): sums over the entries of a map. They
  are used to state that the per-application counts and durations add up to
  the grand totals.
- `presentation.dfy` (module `Presentation`): the headline counters, the
  ranking (a stable sort, longest duration first) and the title truncation.

Durations are exact reals, so sums are exact. A percentage is the exact ratio
`app_total / total * 100`, and 0 when the grand total is not positive. The
percentage pass visits the applications in an arbitrary order, yet
`GetWindowStats` is proved equal to a function of its input, so aggregating
the same events twice gives the same result.

For no events the code returns an empty object rather than a result with
zeroed counters; `NoStats` models that. `Presentation.OverviewOfEvents` shows
that the page's defaults still display 0 events, 0 seconds and 0
applications for it.

## Model

| member | source | states |
|---|---|---|
| `Aggregation.GetWindowStats` | main.py:32-67 | The result equals `WindowStatsOf(events)`. It is the empty result exactly when there are no events. Otherwise `total_events` is the number of events and `total_duration` is the sum of all durations. The keys are exactly the applications that occur. Each entry's count, duration and titles are those of that application's events. |
| `Aggregation.TallyEvents` | main.py:37-56 | The loop produces exactly the per-application records and the grand total of the whole sequence. The invariant ties the partial dictionary to the records of the consumed prefix. |
| `Aggregation.AddPercentages` | main.py:59-61 | Visiting each application once, in any order, gives every record its finished entry with its percentage. No application is added or dropped. |
| `Aggregation.Percentage` | main.py:61 | The share is 0 when the grand total is not positive. Otherwise it is `100 / total * app_total`. It lies in [0, 100] when the application's total lies between 0 and the grand total. |
| `Aggregation.PresentIffCounted` | main.py:46-54 | An application has an entry if and only if at least one event is attributed to it. An application with no events has no duration and no titles. |
| `Aggregation.TalliesMatchReference` | main.py:40-56 | The dictionary built event by event is keyed by exactly the applications that occur. Each record holds that application's event count, summed duration and set of distinct titles. |
| `Aggregation.EntriesMatchReference` | main.py:46-61 | The finished table keeps the keys and each application's count, duration and titles. |
| `Aggregation.TalliesConserve` | main.py:53-56 | No event is dropped or double-counted while tallying. The records' counts sum to the number of events, and their durations sum to the grand total. |
| `Aggregation.Conservation` | main.py:53-65 | In the result, the applications' counts sum exactly to `total_events` and their durations exactly to `total_duration`. |
| `Aggregation.DurationOfBounded` | main.py:53-56 | When no duration is negative, one application's duration lies between 0 and the grand total. |
| `Aggregation.PercentageShare` | main.py:61 | A percentage is 0 when the grand total is 0. Otherwise it is the exact share of the application's duration in the grand total. It lies in [0, 100] when durations are non-negative. |
| `Aggregation.PercentagesSumTo100` | main.py:59-61 | Before rounding, the percentages of all applications add up to exactly 100 whenever the grand total is positive. |
| `Aggregation.TitlesDeduplicated` | main.py:50-55 | Titles are kept once each while every event still counts. An application never has more distinct titles than events. |
| `Aggregation.ReadAlikeSameStats` | main.py:40-56 | The result depends on each event only through its application, title and duration after defaulting. Two sequences that agree on those, event by event, aggregate to the same result. |
| `Aggregation.DefaultsApplied` | main.py:41-44 | Aggregating an event without `data` gives the same result as aggregating it with an empty `data` object. An event whose `data` lacks `app` or `title` aggregates as if that entry were `"Unknown"`. An event without `duration` aggregates as if its duration were 0. |
| `Aggregation.MissingAppCountsAsUnknown` | main.py:41-55 | An event with no application name makes the result hold an `"Unknown"` entry with a positive count, and that entry's titles include the event's title. |
| `Aggregation.SameTitleTwice` | main.py:50-55 | Two events of one application with the same title give a single entry with one title and a count of 2. |
| `Presentation.OverviewOfEvents` | main.py:105-113 | The page's counters, read with their defaults, equal the number of events, the summed durations and the number of distinct applications. This holds for every input, including the empty one. |
| `Presentation.InsertRanked` | main.py:123 | Inserting an item keeps the ranking descending by duration and adds exactly that item. |
| `Presentation.Ranked` | main.py:123 | The ranked table is a permutation of the items, ordered by total duration with the longest first. |
| `Presentation.InsertRankedStable` | main.py:123 | An inserted item goes ahead of the items of equal duration, which keep their order. |
| `Presentation.RankedStable` | main.py:123 | The sort is stable: for every duration, the items with that duration appear in the same relative order as in the input. |
| `Presentation.ListTitles` | main.py:143-147 | At most ten titles are shown, and they are a prefix of the list. The shown titles and the remainder count add up to the list's length. A remainder line appears exactly when there are more than ten titles. A list of ten or fewer is shown whole. A longer list shows exactly its first ten titles, and the remainder is its length minus 10. |

## Left out

- Event retrieval (`fetch_recent_window_events`, `fetch_recent_window_events_api`, main.py:19-30 and 189-198): one HTTP request for the whole bucket, with no time range and no timeout, that turns every failure into an empty list. The aggregator takes the event sequence as a parameter instead.
- The Flask routes and the HTML and JSON they build (main.py:69-187): only the counters, the ranking and the title truncation are modelled.
- The background scheduler thread (main.py:200-228): it exists for its timing and concurrency.
- Logging with `rich.print` and the `datetime.now()` timestamps: side effects only.
- `Aggregation.Percentage`: does not model `round(..., 2)`. The percentage is the exact ratio, so the rounded values need not sum to exactly 100 the way the exact ones do.
- The minute conversions `round(total / 60, 2)` (main.py:109 and 126): floating-point display formatting. The model keeps seconds.
- Dictionary insertion order, and the order of the `titles` list made from a set (main.py:60): titles are a `set<string>` and the table is a `map`. `Presentation.Ranked` and `Presentation.ListTitles` take whatever listing of those entries the caller gives.
- JSON `null` values for `data` or `duration`: the code would fail on them. The model treats a member as either present with a value or absent.
- Non-string `app` and `title` values: `data` is a map from strings to strings, so the model cannot express any of these. In the code, a present `null`, number or boolean `app` becomes a key distinct from `"Unknown"`, and `true`, `1` and `1.0` share one key. An array or object `app` or `title` is unhashable, so the aggregator raises `TypeError` (main.py:46 for `app`, main.py:55 for `title`). A non-string hashable title joins the title set.
- `Aggregation.Conservation`, `Aggregation.TalliesConserve` and `Aggregation.PercentagesSumTo100`: do not model floating-point sums. Durations are JSON floats, and the code adds them in IEEE-754 arithmetic (main.py:53 and 56). The model adds exact reals, so these equalities hold exactly only for reals. With floats, the per-application totals can differ from the grand total by rounding. For example, durations 1e16 for one app and then 1.0 and 1.0 for another, in that order, give a grand total of 1e16, while the app totals add up to 1e16 + 2.
- The event `timestamp` and `id` members: the aggregator never reads them.
