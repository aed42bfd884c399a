/**
 The window-usage aggregator: it reduces a sequence of window-focus events to
 a per-application table (total seconds, number of events, distinct titles,
 share of the grand total), the grand total of seconds and the number of
 events. An empty sequence yields an empty result rather than zeroed counters.

 `WindowStatsOf` is the specification, defined over the consumed prefix the
 way the aggregator's loop builds it; `GetWindowStats` is the aggregator
 itself, two loops over local dictionaries, proved equal to it. The per-app
 reference functions (`AppsOf`, `CountOf`, `DurationOf`, `TitlesOf`) describe
 each entry independently of the loop, and the lemmas connect the two.
 */
module Aggregation {
  import opened Events
  import opened MapSums

  /** The running record of one application while events are consumed. */
  datatype Tally = Tally(totalDuration: real, count: nat, titles: set<string>)

  /** One application's entry in the result. Titles form a set: the order of
      the list the aggregator emits carries no meaning. */
  datatype AppUsage = AppUsage(totalDuration: real, count: nat, titles: set<string>, percentage: real)

  /** The aggregator's result: `NoStats` is the empty object returned when
      there are no events at all. */
  datatype WindowStats =
    | NoStats
    | Summary(totalEvents: nat, totalDuration: real, appUsage: map<string, AppUsage>)

  /** The record a newly seen application starts from. */
  const EmptyTally := Tally(0.0, 0, {})

  // ------------------------------------------------------------------
  // Specification: the tables after consuming a prefix of the events
  // ------------------------------------------------------------------

  /** Accounts one event to its application. */
  function Record(tallies: map<string, Tally>, e: Event): map<string, Tally>
  {
    var app := AppName(e);
    var t := if app in tallies then tallies[app] else EmptyTally;
    tallies[app := Tally(t.totalDuration + Duration(e), t.count + 1, t.titles + {Title(e)})]
  }

  /** The per-application records after consuming `events` in order. */
  function Tallies(events: seq<Event>): map<string, Tally>
  {
    if events == [] then map[]
    else Record(Tallies(events[..|events| - 1]), events[|events| - 1])
  }

  /** The sum of every event's duration, a missing duration counting as 0. */
  function TotalDuration(events: seq<Event>): real
  {
    if events == [] then 0.0
    else TotalDuration(events[..|events| - 1]) + Duration(events[|events| - 1])
  }

  /** An application's share of the grand total, in percent, before rounding;
      0 when the grand total is not positive. */
  function Percentage(appTotal: real, total: real): (p: real)
    ensures total <= 0.0 ==> p == 0.0
    ensures total > 0.0 ==> p == Scale(100.0 / total, appTotal)
    ensures total > 0.0 && 0.0 <= appTotal <= total ==> 0.0 <= p <= 100.0
  {
    if total > 0.0 then appTotal / total * 100.0 else 0.0
  }

  /** The finished entry for one application. */
  function Finish(t: Tally, total: real): AppUsage
  {
    AppUsage(t.totalDuration, t.count, t.titles, Percentage(t.totalDuration, total))
  }

  /** Every record finished against the grand total. */
  function Finalize(tallies: map<string, Tally>, total: real): map<string, AppUsage>
  {
    map app | app in tallies :: Finish(tallies[app], total)
  }

  /** What the aggregator returns for `events`. */
  function WindowStatsOf(events: seq<Event>): WindowStats
  {
    if events == [] then NoStats
    else
      var total := TotalDuration(events);
      Summary(|events|, total, Finalize(Tallies(events), total))
  }

  // ------------------------------------------------------------------
  // Reference description of each application's entry
  // ------------------------------------------------------------------

  /** The application names, after defaulting, that occur in `events`. */
  function AppsOf(events: seq<Event>): set<string>
  {
    set e | e in events :: AppName(e)
  }

  /** The number of events attributed to `app`. */
  function CountOf(events: seq<Event>, app: string): nat
  {
    if events == [] then 0
    else CountOf(events[..|events| - 1], app) + (if AppName(events[|events| - 1]) == app then 1 else 0)
  }

  /** The summed duration of the events attributed to `app`. */
  function DurationOf(events: seq<Event>, app: string): real
  {
    if events == [] then 0.0
    else DurationOf(events[..|events| - 1], app) + (if AppName(events[|events| - 1]) == app then Duration(events[|events| - 1]) else 0.0)
  }

  /** The distinct titles of the events attributed to `app`. */
  function TitlesOf(events: seq<Event>, app: string): set<string>
  {
    set e | e in events && AppName(e) == app :: Title(e)
  }

  function TallyCount(t: Tally): real { t.count as real }
  function TallyDuration(t: Tally): real { t.totalDuration }
  function UsageCount(u: AppUsage): real { u.count as real }
  function UsageDuration(u: AppUsage): real { u.totalDuration }
  function UsagePercentage(u: AppUsage): real { u.percentage }

  /** All durations are non-negative, as the tracker reports them. */
  predicate NonNegativeDurations(events: seq<Event>)
  {
    forall e :: e in events ==> Duration(e) >= 0.0
  }

  // ------------------------------------------------------------------
  // The aggregator
  // ------------------------------------------------------------------

  /** Aggregates `events`: the tally pass accounts each event to its
      application and to the grand total, then the percentage pass turns
      each record into its finished entry. No events give the empty result. */
  method GetWindowStats(events: seq<Event>) returns (stats: WindowStats)
    ensures stats == WindowStatsOf(events)
    ensures stats == NoStats <==> events == []
    ensures stats.Summary? ==>
      && stats.totalEvents == |events|
      && stats.totalDuration == TotalDuration(events)
      && stats.appUsage.Keys == AppsOf(events)
      && forall app :: app in stats.appUsage ==>
           && stats.appUsage[app].count == CountOf(events, app)
           && stats.appUsage[app].totalDuration == DurationOf(events, app)
           && stats.appUsage[app].titles == TitlesOf(events, app)
  {
    if |events| == 0 {
      return NoStats;
    }
    var appUsage, totalDuration := TallyEvents(events);
    var finished := AddPercentages(appUsage, totalDuration);
    stats := Summary(|events|, totalDuration, finished);
    EntriesMatchReference(events);
  }

  /** The tally pass: one loop over the events that creates an application's
      record on first sight and adds each event's duration, count and title
      to it and its duration to the grand total. */
  method TallyEvents(events: seq<Event>) returns (appUsage: map<string, Tally>, totalDuration: real)
    ensures appUsage == Tallies(events)
    ensures totalDuration == TotalDuration(events)
  {
    appUsage := map[];
    totalDuration := 0.0;
    for i := 0 to |events|
      invariant appUsage == Tallies(events[..i])
      invariant totalDuration == TotalDuration(events[..i])
    {
      var event := events[i];
      var appName, title, duration := AppName(event), Title(event), Duration(event);
      if appName !in appUsage {
        appUsage := appUsage[appName := EmptyTally];
      }
      var t := appUsage[appName];
      appUsage := appUsage[appName := Tally(t.totalDuration + duration, t.count + 1, t.titles + {title})];
      totalDuration := totalDuration + duration;
      assert events[..i + 1][..i] == events[..i];
    }
    assert events[..|events|] == events;
  }

  /** The percentage pass: visits every application once, in no particular
      order, and gives its entry its share of the grand total. */
  method AddPercentages(appUsage: map<string, Tally>, totalDuration: real) returns (finished: map<string, AppUsage>)
    ensures finished == Finalize(appUsage, totalDuration)
  {
    finished := map[];
    var pending := appUsage.Keys;
    while pending != {}
      invariant pending <= appUsage.Keys
      invariant finished.Keys == appUsage.Keys - pending
      invariant forall app :: app in finished ==> finished[app] == Finish(appUsage[app], totalDuration)
      decreases |pending|
    {
      var app :| app in pending;
      var t := appUsage[app];
      var percentage := Percentage(t.totalDuration, totalDuration);
      finished := finished[app := AppUsage(t.totalDuration, t.count, t.titles, percentage)];
      pending := pending - {app};
    }
  }

  // ------------------------------------------------------------------
  // Properties
  // ------------------------------------------------------------------

  /** How the applications and titles that occur grow by one event. */
  lemma ReferenceStep(events: seq<Event>, app: string)
    requires events != []
    ensures var init, last := events[..|events| - 1], events[|events| - 1];
      && AppsOf(events) == AppsOf(init) + {AppName(last)}
      && TitlesOf(events, app) == TitlesOf(init, app) + (if AppName(last) == app then {Title(last)} else {})
  {
    var init, last := events[..|events| - 1], events[|events| - 1];
    assert events == init + [last];
  }

  /** An application occurs in the events exactly when some event is
      attributed to it; one that does not occur has no duration either. */
  lemma {:induction false} PresentIffCounted(events: seq<Event>, app: string)
    ensures app in AppsOf(events) <==> CountOf(events, app) > 0
    ensures app !in AppsOf(events) ==> DurationOf(events, app) == 0.0 && TitlesOf(events, app) == {}
  {
    if events != [] {
      ReferenceStep(events, app);
      PresentIffCounted(events[..|events| - 1], app);
    }
  }

  /** The record built for each application holds exactly that
      application's event count, summed duration and distinct titles, and
      the records are keyed by exactly the applications that occur. */
  lemma {:induction false} TalliesMatchReference(events: seq<Event>)
    ensures Tallies(events).Keys == AppsOf(events)
    ensures forall app :: app in Tallies(events) ==>
      Tallies(events)[app] == Tally(DurationOf(events, app), CountOf(events, app), TitlesOf(events, app))
  {
    if events != [] {
      var init, last := events[..|events| - 1], events[|events| - 1];
      TalliesMatchReference(init);
      var a := AppName(last);
      if a !in AppsOf(init) {
        PresentIffCounted(init, a);
      }
      ReferenceStep(events, a);
      forall app | app in Tallies(events)
        ensures Tallies(events)[app] == Tally(DurationOf(events, app), CountOf(events, app), TitlesOf(events, app))
      {
        ReferenceStep(events, app);
      }
    }
  }

  /** The finished entries keep each record's figures. */
  lemma EntriesMatchReference(events: seq<Event>)
    requires events != []
    ensures WindowStatsOf(events).appUsage.Keys == AppsOf(events)
    ensures forall app :: app in WindowStatsOf(events).appUsage ==>
      var u := WindowStatsOf(events).appUsage[app];
      u.count == CountOf(events, app) && u.totalDuration == DurationOf(events, app) && u.titles == TitlesOf(events, app)
  {
    TalliesMatchReference(events);
  }

  /** No event is dropped or counted twice: the records' counts add up to
      the number of events and their durations to the grand total. */
  lemma {:induction false} TalliesConserve(events: seq<Event>)
    ensures SumOver(Tallies(events), TallyCount) == |events| as real
    ensures SumOver(Tallies(events), TallyDuration) == TotalDuration(events)
  {
    if events != [] {
      var init, last := events[..|events| - 1], events[|events| - 1];
      TalliesConserve(init);
      var m, a := Tallies(init), AppName(last);
      var t := if a in m then m[a] else EmptyTally;
      var t' := Tally(t.totalDuration + Duration(last), t.count + 1, t.titles + {Title(last)});
      assert Tallies(events) == m[a := t'];
      SumOverUpdate(m, TallyCount, a, t');
      SumOverUpdate(m, TallyDuration, a, t');
    }
  }

  /** In the result, the applications' counts add up to `total_events` and
      their durations to `total_duration`, exactly. */
  lemma Conservation(events: seq<Event>)
    requires events != []
    ensures SumOver(WindowStatsOf(events).appUsage, UsageCount) == WindowStatsOf(events).totalEvents as real
    ensures SumOver(WindowStatsOf(events).appUsage, UsageDuration) == WindowStatsOf(events).totalDuration
  {
    var m := Tallies(events);
    var usage := WindowStatsOf(events).appUsage;
    TalliesConserve(events);
    SumOverScaled(m, TallyCount, usage, UsageCount, 1.0);
    SumOverScaled(m, TallyDuration, usage, UsageDuration, 1.0);
  }

  /** With non-negative durations, one application's duration lies between
      0 and the grand total. */
  lemma {:induction false} DurationOfBounded(events: seq<Event>, app: string)
    requires NonNegativeDurations(events)
    ensures 0.0 <= DurationOf(events, app) <= TotalDuration(events)
  {
    if events != [] {
      var init := events[..|events| - 1];
      assert forall e :: e in init ==> e in events;
      assert events[|events| - 1] in events;
      DurationOfBounded(init, app);
    }
  }

  /** Each percentage is 0 when the grand total is 0, otherwise the exact
      share of the application's duration in the grand total, and lies in
      [0, 100] when durations are non-negative. */
  lemma PercentageShare(events: seq<Event>, app: string)
    requires events != []
    requires app in WindowStatsOf(events).appUsage
    ensures var s := WindowStatsOf(events);
      s.totalDuration == 0.0 ==> s.appUsage[app].percentage == 0.0
    ensures var s := WindowStatsOf(events);
      s.totalDuration > 0.0 ==> s.appUsage[app].percentage == Scale(100.0 / s.totalDuration, DurationOf(events, app))
    ensures NonNegativeDurations(events) ==> 0.0 <= WindowStatsOf(events).appUsage[app].percentage <= 100.0
  {
    EntriesMatchReference(events);
    if NonNegativeDurations(events) {
      DurationOfBounded(events, app);
    }
  }

  /** A total's own share of itself is 100 percent. */
  lemma WholeIsHundredPercent(total: real)
    requires total > 0.0
    ensures Scale(100.0 / total, total) == 100.0
  {
  }

  /** Before rounding, the percentages of all applications add up to exactly
      100 whenever the grand total is positive. */
  lemma PercentagesSumTo100(events: seq<Event>)
    requires TotalDuration(events) > 0.0
    ensures events != []
    ensures SumOver(WindowStatsOf(events).appUsage, UsagePercentage) == 100.0
  {
    var total := TotalDuration(events);
    var m := Tallies(events);
    TalliesConserve(events);
    SumOverScaled(m, TallyDuration, WindowStatsOf(events).appUsage, UsagePercentage, 100.0 / total);
    WholeIsHundredPercent(total);
  }

  /** Repeated titles are kept once while every event still counts: an
      application never has more distinct titles than events. */
  lemma {:induction false} TitlesDeduplicated(events: seq<Event>, app: string)
    ensures |TitlesOf(events, app)| <= CountOf(events, app)
  {
    if events != [] {
      TitlesDeduplicated(events[..|events| - 1], app);
      ReferenceStep(events, app);
    }
  }

  /** Two events of one application with the same title give one title and
      a count of two. */
  lemma SameTitleTwice(e1: Event, e2: Event)
    requires AppName(e1) == AppName(e2) && Title(e1) == Title(e2)
    ensures var u := WindowStatsOf([e1, e2]).appUsage;
      u.Keys == {AppName(e1)} && u[AppName(e1)].count == 2 && u[AppName(e1)].titles == {Title(e1)}
  {
    EntriesMatchReference([e1, e2]);
    assert [e1, e2][..1] == [e1];
    assert [e1][..0] == [];
    assert CountOf([e1], AppName(e1)) == 1;
    assert AppsOf([e1, e2]) == {AppName(e1)};
    assert TitlesOf([e1, e2], AppName(e1)) == {Title(e1)};
  }

  // ------------------------------------------------------------------
  // Defaults of missing members
  // ------------------------------------------------------------------

  /** Two event sequences that read alike, event by event, once the defaults
      are applied. */
  predicate ReadAlike(a: seq<Event>, b: seq<Event>)
  {
    && |a| == |b|
    && forall i :: 0 <= i < |a| ==>
         AppName(a[i]) == AppName(b[i]) && Title(a[i]) == Title(b[i]) && Duration(a[i]) == Duration(b[i])
  }

  /** The aggregator sees an event only through its defaulted application,
      title and duration. */
  lemma {:induction false} ReadAlikeSameStats(a: seq<Event>, b: seq<Event>)
    requires ReadAlike(a, b)
    ensures Tallies(a) == Tallies(b) && TotalDuration(a) == TotalDuration(b)
    ensures WindowStatsOf(a) == WindowStatsOf(b)
  {
    if a != [] {
      var n := |a| - 1;
      var ea, eb := a[n], b[n];
      assert ReadAlike(a[..n], b[..n]) by {
        forall i | 0 <= i < n
          ensures AppName(a[..n][i]) == AppName(b[..n][i]) && Title(a[..n][i]) == Title(b[..n][i])
          ensures Duration(a[..n][i]) == Duration(b[..n][i])
        {
          assert a[..n][i] == a[i] && b[..n][i] == b[i];
        }
      }
      ReadAlikeSameStats(a[..n], b[..n]);
      assert AppName(ea) == AppName(eb) && Title(ea) == Title(eb) && Duration(ea) == Duration(eb);
      assert Record(Tallies(a[..n]), ea) == Record(Tallies(b[..n]), eb);
    }
  }

  /** Replacing one event by another that reads alike changes nothing. */
  lemma ReplaceReadAlike(events: seq<Event>, i: nat, x: Event)
    requires i < |events|
    requires AppName(x) == AppName(events[i]) && Title(x) == Title(events[i]) && Duration(x) == Duration(events[i])
    ensures WindowStatsOf(events[i := x]) == WindowStatsOf(events)
  {
    ReadAlikeSameStats(events[i := x], events);
  }

  /** A missing `data` object aggregates as the empty object, a missing
      `app` or `title` entry as `Unknown`, and a missing duration as 0. */
  lemma DefaultsApplied(events: seq<Event>, i: nat)
    requires i < |events|
    ensures var e := events[i];
      e.data.None? ==> WindowStatsOf(events[i := Event(Some(map[]), e.duration)]) == WindowStatsOf(events)
    ensures var e := events[i];
      e.data.Some? && "app" !in e.data.value ==>
        WindowStatsOf(events[i := Event(Some(e.data.value["app" := Unknown]), e.duration)]) == WindowStatsOf(events)
    ensures var e := events[i];
      e.data.Some? && "title" !in e.data.value ==>
        WindowStatsOf(events[i := Event(Some(e.data.value["title" := Unknown]), e.duration)]) == WindowStatsOf(events)
    ensures var e := events[i];
      e.duration.None? ==> WindowStatsOf(events[i := Event(e.data, Some(0.0))]) == WindowStatsOf(events)
  {
    var e := events[i];
    if e.data.None? {
      ReplaceReadAlike(events, i, Event(Some(map[]), e.duration));
    } else {
      var d := e.data.value;
      if "app" !in d {
        ReplaceReadAlike(events, i, Event(Some(d["app" := Unknown]), e.duration));
      }
      if "title" !in d {
        ReplaceReadAlike(events, i, Event(Some(d["title" := Unknown]), e.duration));
      }
    }
    if e.duration.None? {
      ReplaceReadAlike(events, i, Event(e.data, Some(0.0)));
    }
  }

  /** An event without an application name is counted under `Unknown`, and
      its title is among that entry's titles. */
  lemma MissingAppCountsAsUnknown(events: seq<Event>, i: nat)
    requires i < |events|
    requires events[i].data.None? || "app" !in events[i].data.value
    ensures Unknown in WindowStatsOf(events).appUsage
    ensures WindowStatsOf(events).appUsage[Unknown].count > 0
    ensures Title(events[i]) in WindowStatsOf(events).appUsage[Unknown].titles
  {
    var e := events[i];
    assert e in events && AppName(e) == Unknown;
    EntriesMatchReference(events);
    PresentIffCounted(events, Unknown);
  }
}
