/**
 * The data behind the portfolio chart: the time window a timeframe selects,
 * the holdings that are charted, the price history requested for each, and
 * the outer join that sums the per-holding series date by date.
 *
 * The price history and the fallback date parser are parameters: the first
 * stands for the market-data download, the second for the lenient parser
 * tried when none of the three fixed formats reads a date.
 */
module Chart {
  import opened Common
  import opened Text
  import opened Dates
  import opened Holdings

  // ---------------------------------------------------------------------------
  // The window
  // ---------------------------------------------------------------------------

  /** Length in days of each timeframe's window; None for "max", which is unbounded. */
  const DeltaMap: map<string, Option<nat>> := map[
    "1wk" := Some(7), "1mo" := Some(30), "3mo" := Some(90), "6mo" := Some(180),
    "1y" := Some(365), "2y" := Some(730), "5y" := Some(1825), "max" := None]

  /** The first day of the "max" window. */
  const ChartEpoch := Date(2000, 1, 1)

  /** An unknown timeframe is read as "1mo". */
  function WindowDays(timeframe: string): Option<nat> {
    if timeframe in DeltaMap then DeltaMap[timeframe] else DeltaMap["1mo"]
  }

  /** The start of the window ending at `now`. */
  function WindowStart(timeframe: string, now: Instant): Instant {
    assert ValidDate(ChartEpoch);
    match WindowDays(timeframe)
    case Some(days) => now - days * MicrosPerDay
    case None => Midnight(ChartEpoch)
  }

  /** Every timeframe outside the table charts the last 30 days. */
  lemma UnknownTimeframeIsMonth(timeframe: string, now: Instant)
    requires timeframe !in DeltaMap
    ensures WindowDays(timeframe) == Some(30)
    ensures WindowStart(timeframe, now) == now - 30 * MicrosPerDay
  {
  }

  /**
   * Only "max" is unbounded and starts on 1 January 2000; every other
   * timeframe starts between one week and five years before now.
   */
  lemma WindowShape(timeframe: string, now: Instant)
    ensures WindowDays(timeframe).None? <==> timeframe == "max"
    ensures timeframe == "max" ==> ValidDate(ChartEpoch) && WindowStart(timeframe, now) == Midnight(ChartEpoch)
    ensures timeframe != "max" ==>
              now - 1825 * MicrosPerDay <= WindowStart(timeframe, now) <= now - 7 * MicrosPerDay
  {
    if timeframe != "max" {
      assert DeltaMap["1mo"] == Some(30);
      if timeframe in DeltaMap {
        var d := WindowDays(timeframe).value;
        assert 7 <= d <= 1825;
      }
    }
  }

  // ---------------------------------------------------------------------------
  // Which holdings are charted
  // ---------------------------------------------------------------------------

  /** One holding to chart: its position in the holdings, symbol, units and purchase instant. */
  datatype Task = Task(index: nat, symbol: string, units: real, purchase: Instant)

  /** The purchase instant: the three fixed formats in order, then the fallback parser. */
  function PurchaseInstant(dateText: string, fallback: string -> Option<Instant>): (r: Option<Instant>)
    ensures ParseDate(dateText).Some? ==>
              ValidDate(ParseDate(dateText).value) && r == Some(Midnight(ParseDate(dateText).value))
    ensures ParseDate(dateText).None? ==> r == fallback(dateText)
  {
    match ParseDate(dateText)
    case Some(d) => Some(Midnight(d))
    case None => fallback(dateText)
  }

  /**
   * The task for holding `index`, or None when it is skipped: a row with no
   * date cell, units `float()` refuses or a date no parser reads is invalid,
   * and a purchase later than now is not charted.
   */
  function TaskFor(index: nat, h: Row, now: Instant, fallback: string -> Option<Instant>): Option<Task> {
    if |h| < 5 then None
    else
      var units := ParseNumber(h[3]);
      if units.None? then None
      else
        var purchase := PurchaseInstant(Strip(h[4]), fallback);
        if purchase.None? || purchase.value > now then None
        else Some(Task(index, Strip(h[0]), units.value, purchase.value))
  }

  /** A way of turning the holding at a given position into a task, or skipping it. */
  type Picker = (nat, Row) -> Option<Task>

  /** A picker that labels every task it makes with the position it was given. */
  ghost predicate KeepsIndex(pick: Picker) {
    forall i: nat, h: Row :: pick(i, h).Some? ==> pick(i, h).value.index == i
  }

  /** The tasks `pick` makes from the holdings, in holding order. */
  function Picked(hs: seq<Row>, pick: Picker): seq<Task> {
    if hs == [] then []
    else
      var n := |hs| - 1;
      var t := pick(n, hs[n]);
      Picked(hs[..n], pick) + (if t.Some? then [t.value] else [])
  }

  /** The task-making step of `get_portfolio_data_for_graph`. */
  function TaskPicker(now: Instant, fallback: string -> Option<Instant>): Picker {
    (i: nat, h: Row) => TaskFor(i, h, now, fallback)
  }

  /** The tasks of the holdings, in order. */
  function Tasks(hs: seq<Row>, now: Instant, fallback: string -> Option<Instant>): seq<Task> {
    Picked(hs, TaskPicker(now, fallback))
  }

  lemma TaskForIndex(index: nat, h: Row, now: Instant, fallback: string -> Option<Instant>)
    ensures TaskFor(index, h, now, fallback).Some? ==> TaskFor(index, h, now, fallback).value.index == index
  {
  }

  lemma TaskPickerKeepsIndex(now: Instant, fallback: string -> Option<Instant>)
    ensures KeepsIndex(TaskPicker(now, fallback))
  {
    forall i: nat, h: Row
      ensures TaskPicker(now, fallback)(i, h).Some? ==> TaskPicker(now, fallback)(i, h).value.index == i
    {
      TaskForIndex(i, h, now, fallback);
    }
  }

  /**
   * Every picked task is what the picker makes of the holding it names, and
   * task indices increase, so no holding is charted twice and the order is kept.
   */
  lemma {:induction false} PickedSound(hs: seq<Row>, pick: Picker)
    requires KeepsIndex(pick)
    ensures forall j :: 0 <= j < |Picked(hs, pick)| ==>
              Picked(hs, pick)[j].index < |hs| &&
              pick(Picked(hs, pick)[j].index, hs[Picked(hs, pick)[j].index]) == Some(Picked(hs, pick)[j])
    ensures forall j, k :: 0 <= j < k < |Picked(hs, pick)| ==> Picked(hs, pick)[j].index < Picked(hs, pick)[k].index
  {
    if hs != [] {
      var n := |hs| - 1;
      PickedSound(hs[..n], pick);
      var before := Picked(hs[..n], pick);
      var t := pick(n, hs[n]);
      var ts := before + (if t.Some? then [t.value] else []);
      assert Picked(hs, pick) == ts;
      forall j | 0 <= j < |ts|
        ensures ts[j].index < |hs| && pick(ts[j].index, hs[ts[j].index]) == Some(ts[j])
      {
        if j < |before| {
          assert ts[j] == before[j];
          assert hs[ts[j].index] == hs[..n][ts[j].index];
        }
      }
    }
  }

  /** Every holding the picker makes a task of has one in the list. */
  lemma {:induction false} PickedComplete(hs: seq<Row>, pick: Picker, i: nat)
    requires KeepsIndex(pick)
    requires i < |hs| && pick(i, hs[i]).Some?
    ensures exists j :: 0 <= j < |Picked(hs, pick)| && Picked(hs, pick)[j].index == i
  {
    var n := |hs| - 1;
    var before := Picked(hs[..n], pick);
    var t := pick(n, hs[n]);
    var ts := before + (if t.Some? then [t.value] else []);
    assert Picked(hs, pick) == ts;
    if i < n {
      assert hs[..n][i] == hs[i];
      PickedComplete(hs[..n], pick, i);
      var j :| 0 <= j < |before| && before[j].index == i;
      assert ts[j] == before[j];
    } else {
      assert ts[|ts| - 1].index == i;
    }
  }

  /**
   * The holdings charted are exactly those with a task: every task is the
   * task of the holding it names, in increasing holding order, and every
   * holding that yields a task is in the list.
   */
  lemma TasksExact(hs: seq<Row>, now: Instant, fallback: string -> Option<Instant>)
    ensures forall j :: 0 <= j < |Tasks(hs, now, fallback)| ==>
              Tasks(hs, now, fallback)[j].index < |hs| &&
              TaskFor(Tasks(hs, now, fallback)[j].index, hs[Tasks(hs, now, fallback)[j].index], now, fallback)
                == Some(Tasks(hs, now, fallback)[j])
    ensures forall j, k :: 0 <= j < k < |Tasks(hs, now, fallback)| ==>
              Tasks(hs, now, fallback)[j].index < Tasks(hs, now, fallback)[k].index
    ensures forall i :: 0 <= i < |hs| && TaskFor(i, hs[i], now, fallback).Some? ==>
              exists j :: 0 <= j < |Tasks(hs, now, fallback)| && Tasks(hs, now, fallback)[j].index == i
  {
    var pick := TaskPicker(now, fallback);
    TaskPickerKeepsIndex(now, fallback);
    assert Tasks(hs, now, fallback) == Picked(hs, pick);
    PickedSound(hs, pick);
    forall i | 0 <= i < |hs| && TaskFor(i, hs[i], now, fallback).Some?
      ensures exists j :: 0 <= j < |Tasks(hs, now, fallback)| && Tasks(hs, now, fallback)[j].index == i
    {
      assert pick(i, hs[i]) == TaskFor(i, hs[i], now, fallback);
      PickedComplete(hs, pick, i);
    }
  }

  /** A holding dated after now never produces a task. */
  lemma FutureHoldingSkipped(index: nat, h: Row, now: Instant, fallback: string -> Option<Instant>)
    requires |h| >= 5
    requires PurchaseInstant(Strip(h[4]), fallback).Some?
    requires PurchaseInstant(Strip(h[4]), fallback).value > now
    ensures TaskFor(index, h, now, fallback).None?
  {
  }

  lemma TasksStep(hs: seq<Row>, i: nat, now: Instant, fallback: string -> Option<Instant>)
    requires i < |hs|
    ensures var t := TaskFor(i, hs[i], now, fallback);
            Tasks(hs[..i + 1], now, fallback) == Tasks(hs[..i], now, fallback) + (if t.Some? then [t.value] else [])
  {
    assert hs[..i + 1][..i] == hs[..i];
    assert TaskPicker(now, fallback)(i, hs[i]) == TaskFor(i, hs[i], now, fallback);
  }

  /** The loop that collects the tasks. */
  method CollectTasks(hs: seq<Row>, now: Instant, fallback: string -> Option<Instant>) returns (tasks: seq<Task>)
    ensures tasks == Tasks(hs, now, fallback)
  {
    tasks := [];
    var i := 0;
    while i < |hs|
      invariant 0 <= i <= |hs|
      invariant tasks == Tasks(hs[..i], now, fallback)
    {
      var t := TaskFor(i, hs[i], now, fallback);
      TasksStep(hs, i, now, fallback);
      if t.Some? {
        tasks := tasks + [t.value];
      }
      i := i + 1;
    }
    assert hs[..i] == hs;
  }

  // ---------------------------------------------------------------------------
  // Fetching and merging
  // ---------------------------------------------------------------------------

  /** A daily series: value by day (the day's ordinal). */
  type Series = map<int, real>

  /** The download: closes by day for a symbol over [from, to), or None on failure. */
  type History = (string, Instant, Instant) -> Option<Series>

  function Max(a: Instant, b: Instant): (m: Instant)
    ensures m >= a && m >= b && (m == a || m == b)
  {
    if a >= b then a else b
  }

  /** What one task asks for: its symbol from the later of window start and purchase, to a day after now. */
  datatype Request = Request(symbol: string, from: Instant, to: Instant)

  function RequestFor(t: Task, start: Instant, now: Instant): (r: Request)
    ensures r.symbol == t.symbol
    ensures r.from >= start && r.from >= t.purchase && (r.from == start || r.from == t.purchase)
    ensures r.to == now + MicrosPerDay
  {
    Request(t.symbol, Max(start, t.purchase), now + MicrosPerDay)
  }

  function Scaled(s: Series, units: real): (r: Series)
    ensures r.Keys == s.Keys
    ensures forall d :: d in r ==> r[d] == s[d] * units
  {
    map d | d in s :: s[d] * units
  }

  /** One task's series in money: closes times units; a failed or empty download gives nothing. */
  function Fetch(t: Task, start: Instant, now: Instant, history: History): (r: Option<Series>)
  {
    var req := RequestFor(t, start, now);
    match history(req.symbol, req.from, req.to)
    case None => None
    case Some(closes) => if |closes| == 0 then None else Some(Scaled(closes, t.units))
  }

  /** The series that arrive, in task order. */
  function Fetched(tasks: seq<Task>, start: Instant, now: Instant, history: History): seq<Series> {
    if tasks == [] then []
    else
      var n := |tasks| - 1;
      var f := Fetch(tasks[n], start, now, history);
      Fetched(tasks[..n], start, now, history) + (if f.Some? then [f.value] else [])
  }

  /** Every series that arrives is non-empty, and there is at most one per task. */
  lemma {:induction false} FetchedNonEmpty(tasks: seq<Task>, start: Instant, now: Instant, history: History)
    ensures forall i :: 0 <= i < |Fetched(tasks, start, now, history)| ==> |Fetched(tasks, start, now, history)[i]| > 0
    ensures |Fetched(tasks, start, now, history)| <= |tasks|
  {
    if tasks != [] {
      FetchedNonEmpty(tasks[..|tasks| - 1], start, now, history);
    }
  }

  /**
   * The loop over the finished downloads, keeping each series that is
   * there and not empty. (The source takes them in completion order; the
   * sum per day does not depend on it.)
   */
  method CollectSeries(tasks: seq<Task>, start: Instant, now: Instant, history: History) returns (dfs: seq<Series>)
    ensures dfs == Fetched(tasks, start, now, history)
  {
    dfs := [];
    var i := 0;
    while i < |tasks|
      invariant 0 <= i <= |tasks|
      invariant dfs == Fetched(tasks[..i], start, now, history)
    {
      var f := Fetch(tasks[i], start, now, history);
      if f.Some? {
        dfs := dfs + [f.value];
      }
      assert tasks[..i + 1][..i] == tasks[..i];
      i := i + 1;
    }
    assert tasks[..i] == tasks;
  }

  function Get(s: Series, d: int): real {
    if d in s then s[d] else 0.0
  }

  /** The outer join of the series with missing days as 0, summed per day. */
  function Merge(xs: seq<Series>): Series {
    if xs == [] then map[]
    else
      var n := |xs| - 1;
      var before := Merge(xs[..n]);
      map d | d in before.Keys + xs[n].Keys :: Get(before, d) + Get(xs[n], d)
  }

  /** Whether some series has a value on day d. */
  predicate InSome(xs: seq<Series>, d: int) {
    exists i :: 0 <= i < |xs| && d in xs[i]
  }

  /** The sum of the series' values on day d, missing days counting 0, first series first. */
  function SumAt(xs: seq<Series>, d: int): real {
    if xs == [] then 0.0 else Get(xs[0], d) + SumAt(xs[1..], d)
  }

  lemma {:induction false} SumAtSnoc(xs: seq<Series>, s: Series, d: int)
    ensures SumAt(xs + [s], d) == SumAt(xs, d) + Get(s, d)
  {
    if xs != [] {
      assert (xs + [s])[1..] == xs[1..] + [s];
      SumAtSnoc(xs[1..], s, d);
    }
  }

  /**
   * The merged series has a day exactly when some series has it, and its
   * value there is the sum of all series on that day.
   */
  lemma {:induction false} MergeMeaning(xs: seq<Series>, d: int)
    ensures d in Merge(xs) <==> InSome(xs, d)
    ensures Get(Merge(xs), d) == SumAt(xs, d)
  {
    if xs != [] {
      var n := |xs| - 1;
      MergeMeaning(xs[..n], d);
      assert xs[..n] + [xs[n]] == xs;
      SumAtSnoc(xs[..n], xs[n], d);
      if InSome(xs, d) && d !in xs[n] {
        var i :| 0 <= i < |xs| && d in xs[i];
        assert xs[..n][i] == xs[i];
      }
      if InSome(xs[..n], d) {
        var i :| 0 <= i < n && d in xs[..n][i];
        assert xs[i] == xs[..n][i];
      }
    }
  }

  // ---------------------------------------------------------------------------
  // The chart
  // ---------------------------------------------------------------------------

  /**
   * `get_portfolio_data_for_graph`: the portfolio value by day over the
   * window. No holdings, no task or no series gives an empty chart.
   */
  function GraphData(hs: seq<Row>, timeframe: string, now: Instant,
                     fallback: string -> Option<Instant>, history: History): Series {
    if hs == [] then map[]
    else Merge(Fetched(Tasks(hs, now, fallback), WindowStart(timeframe, now), now, history))
  }

  /** Without a single chartable holding the chart is empty. */
  lemma NoTaskNoData(hs: seq<Row>, timeframe: string, now: Instant,
                     fallback: string -> Option<Instant>, history: History)
    requires Tasks(hs, now, fallback) == []
    ensures GraphData(hs, timeframe, now, fallback, history) == map[]
  {
  }

  /**
   * The chart's value on a day is the sum, over the series that arrived, of
   * each one's value that day; the chart has exactly the days some series has.
   */
  lemma ChartSumsSeries(hs: seq<Row>, timeframe: string, now: Instant,
                        fallback: string -> Option<Instant>, history: History, d: int)
    requires hs != []
    ensures var xs := Fetched(Tasks(hs, now, fallback), WindowStart(timeframe, now), now, history);
            && (d in GraphData(hs, timeframe, now, fallback, history) <==> InSome(xs, d))
            && Get(GraphData(hs, timeframe, now, fallback, history), d) == SumAt(xs, d)
  {
    MergeMeaning(Fetched(Tasks(hs, now, fallback), WindowStart(timeframe, now), now, history), d);
  }
}
