/**
 What the overview page derives from the aggregator's result: the three
 headline counters (read with a default of 0 when the result is empty), the
 applications ranked by total duration, longest first, and each
 application's title list cut to its first ten entries plus a count of the
 rest.
 */
module Presentation {
  import opened Events
  import opened Aggregation

  // ------------------------------------------------------------------
  // Headline counters
  // ------------------------------------------------------------------

  /** Number of events, total seconds and number of applications. */
  datatype Overview = Overview(totalEvents: nat, totalDuration: real, appCount: nat)

  /** The counters as the page reads them, each falling back to 0 (or the
      empty table) when the result has no such member. */
  function OverviewOf(stats: WindowStats): Overview
  {
    match stats
    case NoStats => Overview(0, 0.0, 0)
    case Summary(n, total, usage) => Overview(n, total, |usage|)
  }

  /** The empty result and the defaults together make the page show the
      same counters as a direct count would: events, summed durations and
      distinct applications, for every input including the empty one. */
  lemma OverviewOfEvents(events: seq<Event>)
    ensures OverviewOf(WindowStatsOf(events)) == Overview(|events|, TotalDuration(events), |AppsOf(events)|)
  {
    if events != [] {
      EntriesMatchReference(events);
    } else {
      assert AppsOf(events) == {};
    }
  }

  // ------------------------------------------------------------------
  // Ranking by duration
  // ------------------------------------------------------------------

  /** One row of the table: an application and its entry. */
  type Item = (string, AppUsage)

  function Seconds(item: Item): real
  {
    item.1.totalDuration
  }

  /** Longest total duration first: no item lasts longer than the one
      before it. */
  predicate RankedByDuration(items: seq<Item>)
  {
    forall i :: 0 < i < |items| ==> Seconds(items[i - 1]) >= Seconds(items[i])
  }

  /** The items whose duration is `d`, in their order. */
  function WithSeconds(items: seq<Item>, d: real): seq<Item>
  {
    if items == [] then []
    else (if Seconds(items[0]) == d then [items[0]] else []) + WithSeconds(items[1..], d)
  }

  /** Puts `x` in front of the first item that does not last longer than it. */
  function InsertRanked(x: Item, ranked: seq<Item>): (r: seq<Item>)
    ensures multiset(r) == multiset(ranked) + multiset{x}
    ensures RankedByDuration(ranked) ==> RankedByDuration(r)
    ensures |r| > 0 && (r[0] == x || (ranked != [] && r[0] == ranked[0]))
  {
    if ranked == [] || Seconds(ranked[0]) <= Seconds(x) then [x] + ranked
    else
      assert ranked == [ranked[0]] + ranked[1..];
      [ranked[0]] + InsertRanked(x, ranked[1..])
  }

  /** The table ordered by total duration, longest first, as a stable sort
      that is descending in the duration. */
  function Ranked(items: seq<Item>): (r: seq<Item>)
    ensures multiset(r) == multiset(items)
    ensures RankedByDuration(r)
  {
    if items == [] then []
    else
      assert items == [items[0]] + items[1..];
      InsertRanked(items[0], Ranked(items[1..]))
  }

  /** The items of duration `d` in `[y] + items`. */
  lemma WithSecondsCons(y: Item, items: seq<Item>, d: real)
    ensures WithSeconds([y] + items, d) == WithSeconds([y], d) + WithSeconds(items, d)
    ensures WithSeconds([y], d) == if Seconds(y) == d then [y] else []
  {
    assert ([y] + items)[1..] == items;
    assert [y][1..] == [];
  }

  /** Where `x` lands among the items of its own duration: first. */
  lemma {:induction false} InsertRankedStable(x: Item, ranked: seq<Item>, d: real)
    ensures WithSeconds(InsertRanked(x, ranked), d) == WithSeconds([x], d) + WithSeconds(ranked, d)
  {
    if ranked != [] && Seconds(ranked[0]) > Seconds(x) {
      var r0, rest := ranked[0], ranked[1..];
      var head, own := WithSeconds([r0], d), WithSeconds([x], d);
      InsertRankedStable(x, rest, d);
      WithSecondsCons(r0, InsertRanked(x, rest), d);
      WithSecondsCons(r0, rest, d);
      WithSecondsCons(x, rest, d);
      assert ranked == [r0] + rest;
      // x lasts less than r0, so at most one of them lasts d seconds
      assert head == [] || own == [];
      assert head + own == own + head;
    } else {
      WithSecondsCons(x, ranked, d);
    }
  }

  /** The sort is stable: items of equal duration keep their relative order. */
  lemma {:induction false} RankedStable(items: seq<Item>, d: real)
    ensures WithSeconds(Ranked(items), d) == WithSeconds(items, d)
  {
    if items != [] {
      var first, rest := items[0], items[1..];
      RankedStable(rest, d);
      InsertRankedStable(first, Ranked(rest), d);
      WithSecondsCons(first, rest, d);
      assert items == [first] + rest;
      calc {
        WithSeconds(Ranked(items), d);
        WithSeconds(InsertRanked(first, Ranked(rest)), d);
        WithSeconds([first], d) + WithSeconds(Ranked(rest), d);
        WithSeconds([first], d) + WithSeconds(rest, d);
        WithSeconds(items, d);
      }
    }
  }

  // ------------------------------------------------------------------
  // Title truncation
  // ------------------------------------------------------------------

  /** How many titles the page lists for one application. */
  const ShownTitleLimit := 10

  /** The titles listed and the number left unlisted; a remainder line is
      shown exactly when `more` is positive. */
  datatype TitleListing = TitleListing(shown: seq<string>, more: nat)

  function ListTitles(titles: seq<string>): (r: TitleListing)
    ensures r.shown <= titles
    ensures |r.shown| <= ShownTitleLimit
    ensures |r.shown| + r.more == |titles|
    ensures r.more > 0 <==> |titles| > ShownTitleLimit
    ensures |titles| <= ShownTitleLimit ==> r.shown == titles
    ensures |titles| > ShownTitleLimit ==>
      r.shown == titles[..ShownTitleLimit] && r.more == |titles| - ShownTitleLimit
    ensures r.shown + titles[|r.shown|..] == titles
  {
    var shown := if |titles| <= ShownTitleLimit then titles else titles[..ShownTitleLimit];
    TitleListing(shown, if |titles| > ShownTitleLimit then |titles| - ShownTitleLimit else 0)
  }
}
