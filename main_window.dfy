/**
 * The portfolio window (`invest_mate` in the application): its state, the
 * function each operation applies to that state, and the class whose
 * methods perform the operations step by step and are proved to apply
 * exactly those functions.
 *
 * Every operation takes the market feeds (`Market`) and the current
 * instant as parameters; one instant serves a whole operation.
 */
module MainWindow {
  import opened Common
  import opened Text
  import opened Dates
  import opened Holdings
  import opened Quotes
  import opened Currency
  import opened Aggregation
  import opened Chart

  /** Everything the window keeps about the portfolio, the currency and the selected stock. */
  datatype WindowState = WindowState(
    holdings: seq<Row>,
    positions: seq<Position>,
    profitLoss: real,
    value: real,
    profitLossPercent: real,
    change: real,
    dailyChange: real,
    dailyChangePercent: real,
    currency: string,
    cache: RateCache,
    lastChecked: Instant,
    selected: Option<(string, int)>)

  /** The state of a window opened at `now`: empty portfolio, USD, rate 0, never fetched. */
  function Initial(now: Instant): WindowState {
    WindowState([], [], 0.0, 0.0, 0.0, 0.0, 0.0, 0.0, BaseCurrency, RateCache(0.0, None), now, None)
  }

  function ModeOf(s: WindowState, now: Instant): Conversion {
    Mode(s.currency, s.cache.rate, s.lastChecked, now)
  }

  /** `update_currency`: the rate of the selected currency is fetched and, if it arrives, cached. */
  function AfterRefresh(s: WindowState, m: Market, now: Instant): WindowState {
    s.(cache := Refreshed(s.cache, m.fxRate(s.currency), now))
  }

  /** What `convert_currency` leaves behind: a refresh when the cache is stale, nothing otherwise. */
  function AfterConvert(s: WindowState, m: Market, now: Instant): WindowState {
    if ModeOf(s, now).Stale? then AfterRefresh(s, m, now) else s
  }

  /** The holdings once a submission (if any) is appended. */
  function WithInput(holdings: seq<Row>, textValues: seq<string>): seq<Row> {
    if textValues != [] then holdings + [NewHolding(textValues)] else holdings
  }

  /** The pass starts from zero totals but keeps the previous portfolio change. */
  function StartOf(s: WindowState): Pass {
    Pass(0.0, 0.0, s.change, [], false)
  }

  lemma GroupedKeysIn(hs: seq<Row>)
    requires Keyed(hs)
    ensures KeysIn(Grouped(hs).keys, Grouped(hs).lots)
  {
  }

  /** The pass over the grouped holdings of an update. */
  function PassOf(s: WindowState, textValues: seq<string>, m: Market, now: Instant): Pass
    requires Keyed(s.holdings)
  {
    var g := Grouped(WithInput(s.holdings, textValues));
    GroupedKeysIn(WithInput(s.holdings, textValues));
    Fold(g.keys, g.lots, m, ModeOf(s, now), StartOf(s))
  }

  /**
   * The state while the pass runs: holdings updated, display rows cleared,
   * running totals and change from the pass, daily figures zeroed, and the
   * rate cache refreshed once a stale conversion has been asked for.
   */
  function During(s: WindowState, hs: seq<Row>, p: Pass, m: Market, now: Instant): WindowState {
    s.(holdings := hs, positions := [], profitLoss := p.profitLoss, value := p.value, change := p.change,
       dailyChange := 0.0, dailyChangePercent := 0.0,
       cache := if ModeOf(s, now).Stale? && p.converted then Refreshed(s.cache, m.fxRate(s.currency), now) else s.cache)
  }

  /** `update_portfolio`: the state after an update with the given form values (none for a refresh). */
  function AfterUpdate(s: WindowState, textValues: seq<string>, m: Market, now: Instant): WindowState
    requires Keyed(s.holdings)
  {
    var p := PassOf(s, textValues, m, now);
    var d := DailyFold(p.rows, m, Daily(0.0, 0.0, true));
    During(s, WithInput(s.holdings, textValues), p, m, now).(
      positions := p.rows,
      profitLossPercent :=
        if p.value - p.profitLoss != 0.0 then PortfolioPercent(p.profitLoss, p.value) else s.profitLossPercent,
      dailyChange := d.change,
      dailyChangePercent := d.percent)
  }

  /** Whether the update got through the daily change (false: a missing bar raised). */
  predicate UpdateCompletes(s: WindowState, textValues: seq<string>, m: Market, now: Instant)
    requires Keyed(s.holdings)
  {
    DailyFold(PassOf(s, textValues, m, now).rows, m, Daily(0.0, 0.0, true)).complete
  }

  /** The update spelled out as the pass over the regrouped holdings. */
  lemma AfterUpdateByPass(s: WindowState, textValues: seq<string>, m: Market, now: Instant)
    requires Keyed(s.holdings)
    ensures var hs := WithInput(s.holdings, textValues);
            var g := Grouped(hs);
            && Keyed(hs) && KeysIn(g.keys, g.lots)
            && var p := Fold(g.keys, g.lots, m, ModeOf(s, now), StartOf(s));
            && var d := DailyFold(p.rows, m, Daily(0.0, 0.0, true));
            && AfterUpdate(s, textValues, m, now) ==
               During(s, hs, p, m, now).(
                 positions := p.rows,
                 profitLossPercent :=
                   if p.value - p.profitLoss != 0.0 then PortfolioPercent(p.profitLoss, p.value)
                   else s.profitLossPercent,
                 dailyChange := d.change,
                 dailyChangePercent := d.percent)
            && UpdateCompletes(s, textValues, m, now) == d.complete
  {
    GroupedKeysIn(WithInput(s.holdings, textValues));
  }

  // ---------------------------------------------------------------------------
  // Properties of an update
  // ---------------------------------------------------------------------------

  /** The conversion mode is the same before and after the pass, and while it runs. */
  lemma DuringKeepsMode(s: WindowState, hs: seq<Row>, p: Pass, m: Market, now: Instant)
    ensures ModeOf(During(s, hs, p, m, now), now) == ModeOf(s, now)
    ensures AfterConvert(During(s, hs, p, m, now), m, now) == During(s, hs, p.(converted := true), m, now)
  {
    if ModeOf(s, now).Stale? && p.converted {
      StaleAfterRefresh(s.currency, s.cache, s.lastChecked, m.fxRate(s.currency), now);
      RefreshedIdempotent(s.cache, m.fxRate(s.currency), now);
    }
    if ModeOf(s, now).Stale? {
      StaleAfterRefresh(s.currency, s.cache, s.lastChecked, m.fxRate(s.currency), now);
    }
  }

  /** An update keeps every row a symbol cell, appends the submission, and keeps the mode. */
  lemma UpdateKeepsShape(s: WindowState, textValues: seq<string>, m: Market, now: Instant)
    requires Keyed(s.holdings)
    ensures Keyed(AfterUpdate(s, textValues, m, now).holdings)
    ensures textValues != [] ==> AfterUpdate(s, textValues, m, now).holdings == s.holdings + [NewHolding(textValues)]
    ensures textValues == [] ==> AfterUpdate(s, textValues, m, now).holdings == s.holdings
    ensures ModeOf(AfterUpdate(s, textValues, m, now), now) == ModeOf(s, now)
  {
    DuringKeepsMode(s, WithInput(s.holdings, textValues), PassOf(s, textValues, m, now), m, now);
  }

  /**
   * After an update the portfolio value and profit/loss are the sums over
   * the grouped symbols that could be evaluated, and value minus
   * profit/loss is their total cost basis.
   */
  lemma {:induction false} UpdateTotals(s: WindowState, textValues: seq<string>, m: Market, now: Instant)
    requires Keyed(s.holdings)
    ensures var g := Grouped(WithInput(s.holdings, textValues));
            var s' := AfterUpdate(s, textValues, m, now);
            && KeysIn(g.keys, g.lots)
            && s'.value == ValueTotal(g.keys, g.lots, m)
            && s'.profitLoss == ProfitLossTotal(g.keys, g.lots, m)
            && s'.value - s'.profitLoss == CostTotal(g.keys, g.lots, m)
  {
    var g := Grouped(WithInput(s.holdings, textValues));
    GroupedKeysIn(WithInput(s.holdings, textValues));
    FoldTotals(g.keys, g.lots, m, ModeOf(s, now), StartOf(s));
    TotalCostIdentity(g.keys, g.lots, m);
  }

  /**
   * The overall profit/loss percentage is recomputed from the new totals
   * when the total cost basis is non-zero, and otherwise keeps its previous
   * value (`PortfolioPercentMeaning` says what the percentage is).
   */
  lemma UpdatePercent(s: WindowState, textValues: seq<string>, m: Market, now: Instant)
    requires Keyed(s.holdings)
    ensures var g := Grouped(WithInput(s.holdings, textValues));
            var s' := AfterUpdate(s, textValues, m, now);
            && KeysIn(g.keys, g.lots)
            && (CostTotal(g.keys, g.lots, m) != 0.0 ==>
                  s'.profitLossPercent == PortfolioPercent(s'.profitLoss, s'.value))
            && (CostTotal(g.keys, g.lots, m) == 0.0 ==> s'.profitLossPercent == s.profitLossPercent)
  {
    UpdateTotals(s, textValues, m, now);
  }

  /**
   * The portfolio change left by an update is recomputed from the running
   * totals, so it is the overall percentage of the final totals once some
   * symbol reached them; when none did it keeps its value from before the
   * update, because the update never resets it.
   */
  lemma UpdateChange(s: WindowState, textValues: seq<string>, m: Market, now: Instant)
    requires Keyed(s.holdings)
    ensures var g := Grouped(WithInput(s.holdings, textValues));
            var s' := AfterUpdate(s, textValues, m, now);
            && KeysIn(g.keys, g.lots)
            && (Reached(g.keys, g.lots, m) != [] ==> s'.change == PortfolioPercent(s'.profitLoss, s'.value))
            && (Reached(g.keys, g.lots, m) == [] ==> s'.change == s.change)
  {
    var g := Grouped(WithInput(s.holdings, textValues));
    GroupedKeysIn(WithInput(s.holdings, textValues));
    FoldChange(g.keys, g.lots, m, ModeOf(s, now), StartOf(s));
  }

  /**
   * The display rows: with a usable rate (or USD), one row per evaluated
   * symbol in first-seen order, built from its sums and its converted
   * value; with a stale rate, none at all.
   */
  lemma UpdateRows(s: WindowState, textValues: seq<string>, m: Market, now: Instant)
    requires Keyed(s.holdings)
    ensures var g := Grouped(WithInput(s.holdings, textValues));
            var s', mode := AfterUpdate(s, textValues, m, now), ModeOf(s, now);
            && KeysIn(g.keys, g.lots)
            && var r := Reached(g.keys, g.lots, m);
            && (mode.Stale? ==> s'.positions == [])
            && (!mode.Stale? ==>
                  && |s'.positions| == |r|
                  && forall i :: 0 <= i < |r| ==>
                       Evaluate(r[i], g.lots[r[i]], m).Some? &&
                       s'.positions[i] == RowFor(r[i], Evaluate(r[i], g.lots[r[i]], m).value,
                                                 Apply(mode, Evaluate(r[i], g.lots[r[i]], m).value.sums.value).value))
  {
    var g := Grouped(WithInput(s.holdings, textValues));
    GroupedKeysIn(WithInput(s.holdings, textValues));
    FoldRows(g.keys, g.lots, m, ModeOf(s, now), StartOf(s));
  }

  /**
   * When every position has a daily bar the update completes, and the
   * daily change and percentage are the sums of the positions' moves and
   * percentages.
   */
  lemma UpdateDaily(s: WindowState, textValues: seq<string>, m: Market, now: Instant)
    requires Keyed(s.holdings)
    requires AllQuoted(AfterUpdate(s, textValues, m, now).positions, m)
    ensures var s' := AfterUpdate(s, textValues, m, now);
            && UpdateCompletes(s, textValues, m, now)
            && s'.dailyChange == MoveTotal(s'.positions, m)
            && s'.dailyChangePercent == PercentTotal(s'.positions, m)
  {
    DailyIsSumOverPositions(PassOf(s, textValues, m, now).rows, m, Daily(0.0, 0.0, true));
  }

  /** Refreshing twice at the same instant against the same feeds is refreshing once. */
  lemma {:induction false} RefreshIdempotent(s: WindowState, m: Market, now: Instant)
    requires Keyed(s.holdings)
    ensures Keyed(AfterUpdate(s, [], m, now).holdings)
    ensures AfterUpdate(AfterUpdate(s, [], m, now), [], m, now) == AfterUpdate(s, [], m, now)
  {
    var s1 := AfterUpdate(s, [], m, now);
    UpdateKeepsShape(s, [], m, now);
    var g := Grouped(s.holdings);
    GroupedKeysIn(s.holdings);
    var mode := ModeOf(s, now);
    var p1 := PassOf(s, [], m, now);
    assert p1 == Fold(g.keys, g.lots, m, mode, StartOf(s));
    FoldStartChange(g.keys, g.lots, m, mode, StartOf(s), p1.change);
    assert StartOf(s1) == StartOf(s).(change := p1.change);
    assert PassOf(s1, [], m, now) == p1;
    if mode.Stale? && p1.converted {
      RefreshedIdempotent(s.cache, m.fxRate(s.currency), now);
    }
  }

  // ---------------------------------------------------------------------------
  // Loading a file
  // ---------------------------------------------------------------------------

  /** What the file dialog and the CSV reader give: nothing chosen, a read error, or a table. */
  datatype CsvRead = Cancelled | Unreadable | Table(columns: seq<string>, rows: seq<Row>)

  const RequiredColumns: seq<string> := ["Symbol", "Purchase Price", "Fees", "Units", "Date Purchased", "Category"]

  predicate HasRequiredColumns(columns: seq<string>) {
    forall i :: 0 <= i < |RequiredColumns| ==> RequiredColumns[i] in columns
  }

  /** A table as the reader builds it: every row has one cell per column. */
  predicate Rectangular(read: CsvRead) {
    read.Table? ==> forall i :: 0 <= i < |read.rows| ==> |read.rows[i]| == |read.columns|
  }

  datatype LoadOutcome = NothingChosen | ReadError | InvalidFormat | Loaded | UpdateError

  /** A table with all required columns has rows with a symbol cell. */
  lemma RequiredColumnsGiveKeys(read: CsvRead)
    requires read.Table? && Rectangular(read) && HasRequiredColumns(read.columns)
    ensures Keyed(read.rows)
  {
    assert RequiredColumns[0] in read.columns;
  }

  // ---------------------------------------------------------------------------
  // The window
  // ---------------------------------------------------------------------------

  class InvestMate {
    var portfolioHoldings: seq<Row>
    var totalPortfolioHoldings: seq<Position>
    var totalProfitLoss: real
    var totalPortfolioValue: real
    var totalProfitLossPercent: real
    var totalPortfolioChange: real
    var dailyChange: real
    var dailyChangePercent: real
    var currency: string
    var currencyRate: real
    var lastUpdatedCurrencyDate: Instant
    var currencyRateLastUpdated: Option<Instant>
    var selectedStock: Option<(string, int)>

    function State(): WindowState
      reads this
    {
      WindowState(portfolioHoldings, totalPortfolioHoldings, totalProfitLoss, totalPortfolioValue,
                  totalProfitLossPercent, totalPortfolioChange, dailyChange, dailyChangePercent,
                  currency, RateCache(currencyRate, currencyRateLastUpdated), lastUpdatedCurrencyDate,
                  selectedStock)
    }

    /** Every holding has its symbol cell. */
    predicate Valid()
      reads this
    {
      Keyed(portfolioHoldings)
    }

    constructor(now: Instant)
      ensures Valid()
      ensures State() == Initial(now)
    {
      portfolioHoldings := [];
      totalPortfolioHoldings := [];
      totalProfitLoss := 0.0;
      totalPortfolioValue := 0.0;
      totalProfitLossPercent := 0.0;
      totalPortfolioChange := 0.0;
      dailyChange := 0.0;
      dailyChangePercent := 0.0;
      currency := "USD";
      currencyRate := 0.0;
      lastUpdatedCurrencyDate := now;
      currencyRateLastUpdated := None;
      selectedStock := None;
    }

    /** `update_currency`. */
    method UpdateCurrency(m: Market, now: Instant)
      modifies this
      ensures State() == AfterRefresh(old(State()), m, now)
    {
      var rate := m.fxRate(currency);
      if rate.Some? {
        currencyRate := rate.value;
        currencyRateLastUpdated := Some(now);
      }
    }

    /** `convert_currency`. */
    method ConvertCurrency(amount: real, m: Market, now: Instant) returns (r: Option<real>)
      modifies this
      ensures r == Apply(ModeOf(old(State()), now), amount)
      ensures State() == AfterConvert(old(State()), m, now)
    {
      if currency == "USD" {
        return Some(amount);
      } else {
        if TimedeltaSeconds(now, lastUpdatedCurrencyDate) > 600 {
          UpdateCurrency(m, now);
          return None;
        } else {
          assert ModeOf(old(State()), now) == AtRate(currencyRate);
          var converted := amount * currencyRate;
          assert Apply(AtRate(currencyRate), amount).value == converted;
          return Some(converted);
        }
      }
    }

    /** `group_portfolio_holdings`. */
    method GroupPortfolioHoldings() returns (g: Groups)
      requires Valid()
      ensures g == Grouped(portfolioHoldings)
    {
      g := GroupHoldings(portfolioHoldings);
    }

    /**
     * The body of the pass for one symbol up to the totals: the search
     * names it, the price is read, and the loop over its lots sums them and
     * takes the purchase date from the first; any failure skips the symbol.
     */
    method EvaluateSymbol(symbol: string, lots: seq<Row>, m: Market) returns (e: Option<Evaluated>)
      requires lots != []
      ensures e == Evaluate(symbol, lots, m)
    {
      var reply := m.search(symbol);
      if reply.SearchFailed? {
        return None;
      }
      var first := lots[0];
      var category := if |first| > 4 then first[4] else "General";
      var name := DisplayName(reply, symbol);
      if name.None? {
        return None;
      }
      var price := CurrentPrice(m, symbol);
      var sums, purchaseDate := ReadLots(lots, price);
      if sums.None? {
        return None;
      }
      e := Some(Evaluated(name.value, category, purchaseDate, sums.value));
    }

    /**
     * The loop over a symbol's lots: each is read and added to the sums, and
     * the purchase date comes from the first; an unreadable lot, or a first
     * lot without a date cell, raises (None).
     */
    method ReadLots(lots: seq<Row>, price: real) returns (sums: Option<Sums>, purchaseDate: string)
      requires lots != []
      ensures sums.Some? <==> SumLots(lots, price).Some? && |lots[0]| >= 4
      ensures sums.Some? ==> sums == SumLots(lots, price) && purchaseDate == lots[0][3]
    {
      var total := NoSums;
      purchaseDate := "";
      var j := 0;
      while j < |lots|
        invariant 0 <= j <= |lots|
        invariant ParseLots(lots[..j]).Some?
        invariant total == SumOf(ParseLots(lots[..j]).value, price)
        invariant j > 0 ==> |lots[0]| >= 4 && purchaseDate == lots[0][3]
      {
        var l := ParseLot(lots[j]);
        assert lots[..j + 1][..j] == lots[..j];
        if l.None? {
          ParseLotsFailureSticks(lots, j + 1);
          return None, purchaseDate;
        }
        ghost var before := ParseLots(lots[..j]).value;
        assert ParseLots(lots[..j + 1]).value == before + [l.value];
        assert (before + [l.value])[..|before|] == before;
        total := AddLot(total, price, l.value);
        if j == 0 {
          if |lots[0]| < 4 {
            return None, purchaseDate;
          }
          purchaseDate := lots[0][3];
        }
        j := j + 1;
      }
      assert lots[..j] == lots;
      sums := Some(total);
    }

    /** The totals take a symbol's sums, and the portfolio change is recomputed from them. */
    method AddSums(sums: Sums, m: Market, now: Instant, ghost s0: WindowState, ghost hs: seq<Row>, ghost p: Pass)
      returns (ghost q: Pass)
      requires State() == During(s0, hs, p, m, now)
      modifies this
      ensures q == Added(p, sums)
      ensures State() == During(s0, hs, q, m, now)
    {
      totalProfitLoss := totalProfitLoss + sums.profitLoss;
      totalPortfolioValue := totalPortfolioValue + sums.value;
      totalPortfolioChange :=
        if totalPortfolioValue - totalProfitLoss != 0.0
        then totalProfitLoss / (totalPortfolioValue - totalProfitLoss) * 100.0
        else 0.0;
      q := Added(p, sums);
    }

    /**
     * One symbol of the pass: if it can be evaluated, its sums enter the
     * totals, the portfolio change is recomputed, and its value is
     * converted; the row is returned when the conversion gave a value.
     */
    method PassSymbol(symbol: string, lots: seq<Row>, m: Market, now: Instant,
                      ghost s0: WindowState, ghost hs: seq<Row>, ghost p: Pass)
      returns (row: Option<Position>)
      requires lots != []
      requires State() == During(s0, hs, p, m, now)
      modifies this
      ensures var p' := Step(p, symbol, Evaluate(symbol, lots, m), ModeOf(s0, now));
              && State() == During(s0, hs, p', m, now)
              && p'.rows == p.rows + (if row.Some? then [row.value] else [])
    {
      row := None;
      ghost var mode := ModeOf(s0, now);
      var e := EvaluateSymbol(symbol, lots, m);
      if e.None? {
        return;
      }
      var sums := e.value.sums;
      ghost var q := AddSums(sums, m, now, s0, hs, p);
      DuringKeepsMode(s0, hs, q, m, now);
      var shown := ConvertCurrency(sums.value, m, now);
      assert State() == During(s0, hs, q.(converted := true), m, now);
      ghost var p' := Step(p, symbol, e, mode);
      DuringIgnoresRows(s0, hs, q.(converted := true), p', m, now);
      if shown.Some? {
        row := Some(RowFor(symbol, e.value, shown.value));
      }
    }

    /**
     * `calculate_daily_change`: adds each position's move and percentage to
     * the daily figures; a position without a bar raises (false), leaving
     * what was added before it.
     */
    method CalculateDailyChange(m: Market) returns (ok: bool)
      modifies this
      ensures var d := DailyFold(old(totalPortfolioHoldings), m, Daily(old(dailyChange), old(dailyChangePercent), true));
              && State() == old(State()).(dailyChange := d.change, dailyChangePercent := d.percent)
              && ok == d.complete
    {
      ghost var start := Daily(dailyChange, dailyChangePercent, true);
      var rows := totalPortfolioHoldings;
      var i := 0;
      while i < |rows|
        invariant 0 <= i <= |rows|
        invariant DailyFold(rows[..i], m, start) == Daily(dailyChange, dailyChangePercent, true)
        invariant State() == old(State()).(dailyChange := dailyChange, dailyChangePercent := dailyChangePercent)
      {
        assert rows[..i + 1][..i] == rows[..i];
        var bar := m.lastBar(rows[i].symbol);
        if bar.None? {
          DailyIncompleteSticks(rows, m, start, i + 1);
          return false;
        }
        dailyChange := dailyChange + (bar.value.close - bar.value.open);
        dailyChangePercent := dailyChangePercent + (bar.value.close - bar.value.open) / bar.value.open * 100.0;
        i := i + 1;
      }
      assert rows[..i] == rows;
      ok := true;
    }

    /** The pass over the grouped symbols, in first-seen order, collecting the rows. */
    method RunPass(g: Groups, m: Market, now: Instant, ghost s0: WindowState, ghost hs: seq<Row>)
      returns (edited: seq<Position>)
      requires Keyed(hs) && g == Grouped(hs) && KeysIn(g.keys, g.lots)
      requires State() == During(s0, hs, StartOf(s0), m, now)
      modifies this
      ensures State() == During(s0, hs, Fold(g.keys, g.lots, m, ModeOf(s0, now), StartOf(s0)), m, now)
      ensures edited == Fold(g.keys, g.lots, m, ModeOf(s0, now), StartOf(s0)).rows
    {
      ghost var mode := ModeOf(s0, now);
      GroupedSymbolsHaveLots(hs);
      edited := [];
      var i := 0;
      assert g.keys[..0] == [];
      while i < |g.keys|
        invariant 0 <= i <= |g.keys|
        invariant KeysIn(g.keys[..i], g.lots)
        invariant State() == During(s0, hs, Fold(g.keys[..i], g.lots, m, mode, StartOf(s0)), m, now)
        invariant edited == Fold(g.keys[..i], g.lots, m, mode, StartOf(s0)).rows
      {
        var symbol := g.keys[i];
        FoldSnocKeys(g.keys, i, g.lots, m, mode, StartOf(s0));
        var row := PassSymbol(symbol, g.lots[symbol], m, now, s0, hs, Fold(g.keys[..i], g.lots, m, mode, StartOf(s0)));
        if row.Some? {
          edited := edited + [row.value];
        }
        i := i + 1;
      }
      assert g.keys[..i] == g.keys;
    }

    /** The overall percentage is recomputed only when value minus profit/loss is non-zero. */
    method SetProfitLossPercent()
      modifies this
      ensures State() == old(State()).(profitLossPercent :=
        if old(totalPortfolioValue - totalProfitLoss) != 0.0
        then PortfolioPercent(old(totalProfitLoss), old(totalPortfolioValue))
        else old(totalProfitLossPercent))
    {
      if totalPortfolioValue - totalProfitLoss != 0.0 {
        totalProfitLossPercent := totalProfitLoss / (totalPortfolioValue - totalProfitLoss) * 100.0;
      }
    }

    /** The rows built by the pass are appended to the displayed holdings, in order. */
    method PublishRows(rows: seq<Position>)
      modifies this
      ensures State() == old(State()).(positions := old(totalPortfolioHoldings) + rows)
    {
      var k := 0;
      while k < |rows|
        invariant 0 <= k <= |rows|
        invariant State() == old(State()).(positions := old(totalPortfolioHoldings) + rows[..k])
      {
        totalPortfolioHoldings := totalPortfolioHoldings + [rows[k]];
        assert rows[..k + 1] == rows[..k] + [rows[k]];
        k := k + 1;
      }
      assert rows[..k] == rows;
    }

    /**
     * The start of an update: the submission (padded with the default
     * category) is appended, the display rows and running totals are
     * cleared, and the holdings are regrouped.
     */
    method BeginUpdate(textValues: seq<string>, ghost m: Market, ghost now: Instant)
      returns (g: Groups, ghost hs: seq<Row>)
      requires Valid()
      modifies this
      ensures hs == WithInput(old(portfolioHoldings), textValues) && Keyed(hs) && g == Grouped(hs)
      ensures State() == During(old(State()), hs, StartOf(old(State())), m, now)
    {
      ghost var s0 := State();
      AppendInput(textValues);
      hs := portfolioHoldings;
      totalPortfolioHoldings := [];
      g := GroupPortfolioHoldings();
      ClearTotals();
      DuringAtStart(s0, hs, m, now);
    }

    /** The submitted holding, if any, goes to the end of the portfolio. */
    method AppendInput(textValues: seq<string>)
      requires Valid()
      modifies this
      ensures Valid()
      ensures State() == old(State()).(holdings := WithInput(old(portfolioHoldings), textValues))
    {
      if |textValues| > 0 {
        var newHolding := if |textValues| == 5 then textValues + ["General"] else textValues;
        assert newHolding == NewHolding(textValues);
        portfolioHoldings := portfolioHoldings + [newHolding];
      }
    }

    /** The running totals and the daily figures restart from zero. */
    method ClearTotals()
      modifies this
      ensures State() == old(State()).(profitLoss := 0.0, value := 0.0, dailyChange := 0.0, dailyChangePercent := 0.0)
    {
      totalProfitLoss := 0.0;
      totalPortfolioValue := 0.0;
      dailyChange := 0.0;
      dailyChangePercent := 0.0;
    }

    /**
     * Everything of an update after the regrouping: the pass, the overall
     * percentage, the rows and the daily change.
     */
    method PassAndPublish(g: Groups, m: Market, now: Instant, ghost s0: WindowState, ghost hs: seq<Row>)
      returns (ok: bool)
      requires Keyed(hs) && g == Grouped(hs) && KeysIn(g.keys, g.lots)
      requires State() == During(s0, hs, StartOf(s0), m, now)
      modifies this
      ensures var p := Fold(g.keys, g.lots, m, ModeOf(s0, now), StartOf(s0));
              var d := DailyFold(p.rows, m, Daily(0.0, 0.0, true));
              && State() == During(s0, hs, p, m, now).(
                   positions := p.rows,
                   profitLossPercent :=
                     if p.value - p.profitLoss != 0.0 then PortfolioPercent(p.profitLoss, p.value)
                     else s0.profitLossPercent,
                   dailyChange := d.change,
                   dailyChangePercent := d.percent)
              && ok == d.complete
    {
      var edited := RunPass(g, m, now, s0, hs);
      ghost var p := Fold(g.keys, g.lots, m, ModeOf(s0, now), StartOf(s0));
      ghost var pct := if p.value - p.profitLoss != 0.0 then PortfolioPercent(p.profitLoss, p.value)
                       else s0.profitLossPercent;
      SetProfitLossPercent();
      assert State() == During(s0, hs, p, m, now).(profitLossPercent := pct);
      PublishRows(edited);
      assert totalPortfolioHoldings == edited;
      ok := CalculateDailyChange(m);
    }

    /**
     * `update_portfolio`: appends the submission (padded with the default
     * category), regroups, runs the pass over the symbols, sets the overall
     * percentage when the cost basis is non-zero, publishes the rows, and
     * adds up the daily change; false when the daily change raised.
     */
    method UpdatePortfolio(textValues: seq<string>, m: Market, now: Instant) returns (ok: bool)
      requires Valid()
      modifies this
      ensures Valid()
      ensures State() == AfterUpdate(old(State()), textValues, m, now)
      ensures ok == UpdateCompletes(old(State()), textValues, m, now)
    {
      ghost var s0 := State();
      ghost var hs;
      var g;
      g, hs := BeginUpdate(textValues, m, now);
      GroupedKeysIn(hs);
      ok := PassAndPublish(g, m, now, s0, hs);
      AfterUpdateByPass(s0, textValues, m, now);
    }

    /** `add_investment`: validates the form and, if every field passes, updates with it. */
    method AddInvestment(formValues: seq<string>, m: Market, now: Instant)
      returns (accepted: bool, errors: seq<FieldError>, ok: bool)
      requires Valid() && |formValues| == |InputList|
      modifies this
      ensures Valid()
      ensures errors == FieldErrors(formValues)
      ensures accepted <==> ProperlyFormatted(formValues)
      ensures !accepted ==> State() == old(State()) && ok
      ensures accepted ==> State() == AfterUpdate(old(State()), formValues, m, now) &&
                           ok == UpdateCompletes(old(State()), formValues, m, now)
    {
      accepted, errors := CheckProperlyFormatted(formValues);
      ok := true;
      if accepted {
        ok := UpdatePortfolio(formValues, m, now);
      }
    }

    /**
     * `load_portfolio`: a table missing a required column is refused and
     * nothing changes; otherwise its rows replace the holdings (taken by
     * position, in the file's column order) and the portfolio is refreshed.
     */
    method LoadPortfolio(read: CsvRead, m: Market, now: Instant) returns (outcome: LoadOutcome)
      requires Valid() && Rectangular(read)
      modifies this
      ensures Valid()
      ensures read.Cancelled? ==> outcome == NothingChosen && State() == old(State())
      ensures read.Unreadable? ==> outcome == ReadError && State() == old(State())
      ensures read.Table? && !HasRequiredColumns(read.columns) ==>
                outcome == InvalidFormat && State() == old(State())
      ensures read.Table? && HasRequiredColumns(read.columns) ==>
                Keyed(read.rows) &&
                State() == AfterUpdate(old(State()).(holdings := read.rows), [], m, now) &&
                outcome == (if UpdateCompletes(old(State()).(holdings := read.rows), [], m, now)
                            then Loaded else UpdateError)
    {
      match read {
        case Cancelled =>
          return NothingChosen;
        case Unreadable =>
          return ReadError;
        case Table(columns, rows) =>
          var i := 0;
          while i < |RequiredColumns|
            invariant 0 <= i <= |RequiredColumns|
            invariant forall j :: 0 <= j < i ==> RequiredColumns[j] in columns
          {
            if RequiredColumns[i] !in columns {
              return InvalidFormat;
            }
            i := i + 1;
          }
          RequiredColumnsGiveKeys(read);
          portfolioHoldings := rows;
          var ok := UpdatePortfolio([], m, now);
          outcome := if ok then Loaded else UpdateError;
      }
    }

    /** `on_currency_selected`: switch currency, fetch its rate, refresh the portfolio. */
    method OnCurrencySelected(selected: string, m: Market, now: Instant) returns (ok: bool)
      requires Valid()
      modifies this
      ensures Valid()
      ensures var s := AfterRefresh(old(State()).(currency := selected), m, now);
              State() == AfterUpdate(s, [], m, now) && ok == UpdateCompletes(s, [], m, now)
    {
      currency := selected;
      UpdateCurrency(m, now);
      ok := UpdatePortfolio([], m, now);
    }

    /**
     * `handle_trending_stock_click`: sums `int(units)` over the clicked
     * symbol's holdings and selects the stock with that count; a row whose
     * units are not a whole number raises and nothing is selected.
     */
    method HandleTrendingStockClick(stock: string) returns (ok: bool)
      requires Valid()
      modifies this
      ensures Valid()
      ensures var u := LotUnits(GroupOf(old(portfolioHoldings), stock));
              && (ok <==> u.Some?)
              && (ok ==> State() == old(State()).(selected := Some((stock, u.value))))
              && (!ok ==> State() == old(State()))
    {
      var units := CountUnits(portfolioHoldings, stock);
      if units.None? {
        return false;
      }
      selectedStock := Some((stock, units.value));
      ok := true;
    }

    /** `get_portfolio_data_for_graph`: the portfolio value by day over the timeframe's window. */
    method PortfolioGraph(timeframe: string, now: Instant, fallback: string -> Option<Instant>, history: History)
      returns (series: Series)
      ensures series == GraphData(portfolioHoldings, timeframe, now, fallback, history)
    {
      if portfolioHoldings == [] {
        return map[];
      }
      var start := WindowStart(timeframe, now);
      var tasks := CollectTasks(portfolioHoldings, now, fallback);
      if tasks == [] {
        return map[];
      }
      var dfs := CollectSeries(tasks, start, now, history);
      if dfs == [] {
        return map[];
      }
      series := Merge(dfs);
    }
  }

  lemma FoldSnocKeys(keys: seq<string>, i: nat, lots: map<string, seq<Row>>, m: Market, mode: Conversion, start: Pass)
    requires KeysIn(keys, lots) && i < |keys|
    ensures KeysIn(keys[..i], lots) && KeysIn(keys[..i + 1], lots)
    ensures Fold(keys[..i + 1], lots, m, mode, start) ==
            Step(Fold(keys[..i], lots, m, mode, start), keys[i], Evaluate(keys[i], lots[keys[i]], m), mode)
  {
    assert keys[..i + 1][..i] == keys[..i];
  }

  /** Before any symbol is evaluated, no conversion has been asked for, so the cache is as it was. */
  lemma DuringAtStart(s: WindowState, hs: seq<Row>, m: Market, now: Instant)
    ensures During(s, hs, StartOf(s), m, now) ==
            s.(holdings := hs, positions := [], profitLoss := 0.0, value := 0.0,
               dailyChange := 0.0, dailyChangePercent := 0.0)
  {
  }

  /** The window state during the pass does not depend on the rows collected so far. */
  lemma DuringIgnoresRows(s: WindowState, hs: seq<Row>, p: Pass, p': Pass, m: Market, now: Instant)
    requires p.profitLoss == p'.profitLoss && p.value == p'.value && p.change == p'.change
    requires p.converted == p'.converted
    ensures During(s, hs, p, m, now) == During(s, hs, p', m, now)
  {
  }

  /** Every grouped symbol has at least one lot. */
  lemma GroupedSymbolsHaveLots(hs: seq<Row>)
    requires Keyed(hs)
    ensures forall k :: k in Grouped(hs).keys ==> Grouped(hs).lots[k] != []
  {
    forall k | k in Grouped(hs).keys
      ensures Grouped(hs).lots[k] != []
    {
      GroupOfPresent(hs, k);
    }
  }
}
