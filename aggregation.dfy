/**
 * The aggregation pass of the portfolio window, as functions: per-lot
 * figures, per-symbol sums, the pass over all symbols that accumulates the
 * portfolio totals and the display rows, and the daily change over the rows.
 * The class in InvestMate runs the same computation with loops and is
 * proved to agree with these functions.
 */
module Aggregation {
  import opened Common
  import opened Text
  import opened Holdings
  import opened Quotes
  import opened Currency

  /** The reply of the symbol search used to name a position. */
  datatype SearchReply = SearchFailed | SearchResult(count: int, descriptions: seq<string>)

  /** The external feeds: symbol search, the last daily bar, and the FX rate of a currency. */
  datatype Market = Market(
    search: string -> SearchReply,
    lastBar: string -> Option<QuotedBar>,
    fxRate: string -> Option<real>)

  /**
   * The display name: the first search hit's description when the search
   * reports hits, the symbol itself when it reports none. A failed request,
   * or a positive count with no hit to read, raises (None).
   */
  function DisplayName(reply: SearchReply, symbol: string): (r: Option<string>)
    ensures reply.SearchFailed? ==> r.None?
    ensures reply.SearchResult? && reply.count <= 0 ==> r == Some(symbol)
    ensures reply.SearchResult? && reply.count > 0 ==>
              (r.Some? <==> |reply.descriptions| > 0) &&
              (r.Some? ==> r.value == reply.descriptions[0])
  {
    match reply
    case SearchFailed => None
    case SearchResult(count, descriptions) =>
      if count > 0 then (if |descriptions| > 0 then Some(descriptions[0]) else None)
      else Some(symbol)
  }

  /** `get_current_price`: the last close, or 0 when the feed has nothing. */
  function CurrentPrice(m: Market, symbol: string): (p: real)
    ensures m.lastBar(symbol).None? ==> p == 0.0
    ensures m.lastBar(symbol).Some? ==> p == m.lastBar(symbol).value.close
  {
    match m.lastBar(symbol)
    case None => 0.0
    case Some(b) => b.close
  }

  // ---------------------------------------------------------------------------
  // Lots
  // ---------------------------------------------------------------------------

  /** One purchase lot, read from a row without its symbol cell. */
  datatype Lot = Lot(purchasePrice: real, fees: real, units: real)

  /** `float(...)` of the price, fees and units cells; a short row or a bad cell raises (None). */
  function ParseLot(cells: Row): Option<Lot> {
    if |cells| < 3 then None
    else
      var p, f, u := ParseNumber(cells[0]), ParseNumber(cells[1]), ParseNumber(cells[2]);
      if p.Some? && f.Some? && u.Some? then Some(Lot(p.value, f.value, u.value)) else None
  }

  /** What the lot cost: price times units, less fees. */
  function CostBasis(l: Lot): real {
    l.purchasePrice * l.units - l.fees
  }

  function CurrentValue(price: real, l: Lot): real {
    price * l.units
  }

  /** Running sums of one symbol's lots. */
  datatype Sums = Sums(units: real, value: real, profitLoss: real, invested: real)

  const NoSums := Sums(0.0, 0.0, 0.0, 0.0)

  function AddLot(s: Sums, price: real, l: Lot): Sums {
    var invested := CostBasis(l);
    var value := CurrentValue(price, l);
    Sums(s.units + l.units, s.value + value, s.profitLoss + (value - invested), s.invested + invested)
  }

  /** All lots read, in order, or None when one cannot be. */
  function ParseLots(lots: seq<Row>): (r: Option<seq<Lot>>)
    ensures r.Some? ==> |r.value| == |lots|
  {
    if lots == [] then Some([])
    else
      var n := |lots| - 1;
      var before := ParseLots(lots[..n]);
      var l := ParseLot(lots[n]);
      if before.None? || l.None? then None else Some(before.value + [l.value])
  }

  /** Once a lot cannot be read, the symbol's lots as a whole cannot be. */
  lemma {:induction false} ParseLotsFailureSticks(lots: seq<Row>, k: nat)
    requires k <= |lots| && ParseLots(lots[..k]).None?
    ensures ParseLots(lots).None?
    decreases |lots| - k
  {
    if k < |lots| {
      assert lots[..k + 1][..k] == lots[..k];
      ParseLotsFailureSticks(lots, k + 1);
    } else {
      assert lots[..k] == lots;
    }
  }

  /** The running sums after adding the lots in order. */
  function SumOf(ls: seq<Lot>, price: real): Sums {
    if ls == [] then NoSums
    else AddLot(SumOf(ls[..|ls| - 1], price), price, ls[|ls| - 1])
  }

  /**
   * The sums over a symbol's lots; None as soon as one lot cannot be read,
   * since the loop raises there and nothing of the symbol is kept.
   */
  function SumLots(lots: seq<Row>, price: real): Option<Sums> {
    match ParseLots(lots)
    case None => None
    case Some(ls) => Some(SumOf(ls, price))
  }

  function TotalUnits(ls: seq<Lot>): real {
    if ls == [] then 0.0 else ls[0].units + TotalUnits(ls[1..])
  }

  function TotalCost(ls: seq<Lot>): real {
    if ls == [] then 0.0 else CostBasis(ls[0]) + TotalCost(ls[1..])
  }

  lemma {:induction false} TotalsSnoc(ls: seq<Lot>, l: Lot)
    ensures TotalUnits(ls + [l]) == TotalUnits(ls) + l.units
    ensures TotalCost(ls + [l]) == TotalCost(ls) + CostBasis(l)
  {
    if ls != [] {
      assert (ls + [l])[1..] == ls[1..] + [l];
      TotalsSnoc(ls[1..], l);
    }
  }

  /**
   * The per-symbol figures are the lot formulas summed: the units and cost
   * basis are the totals over the lots in order.
   */
  lemma {:induction false} SumOfTotals(ls: seq<Lot>, price: real)
    ensures SumOf(ls, price).units == TotalUnits(ls)
    ensures SumOf(ls, price).invested == TotalCost(ls)
  {
    if ls != [] {
      var n := |ls| - 1;
      SumOfTotals(ls[..n], price);
      TotalsSnoc(ls[..n], ls[n]);
      assert ls[..n] + [ls[n]] == ls;
    }
  }

  /**
   * A symbol's value is the current price times its total units, and its
   * profit/loss is that value minus its cost basis.
   */
  lemma {:induction false} SumOfValue(ls: seq<Lot>, price: real)
    ensures SumOf(ls, price).value == price * SumOf(ls, price).units
    ensures SumOf(ls, price).profitLoss == SumOf(ls, price).value - SumOf(ls, price).invested
  {
    if ls != [] {
      var n := |ls| - 1;
      SumOfValue(ls[..n], price);
      AddLotKeepsIdentities(SumOf(ls[..n], price), price, ls[n]);
    }
  }

  lemma AddLotKeepsIdentities(s: Sums, price: real, l: Lot)
    requires s.value == price * s.units && s.profitLoss == s.value - s.invested
    ensures AddLot(s, price, l).value == price * AddLot(s, price, l).units
    ensures AddLot(s, price, l).profitLoss == AddLot(s, price, l).value - AddLot(s, price, l).invested
  {
    assert price * (s.units + l.units) == price * s.units + price * l.units;
  }

  /**
   * Two lots of one symbol bought at 100 (fees 1, 10 units) and 120 (no
   * fees, 5 units), priced now at 150: cost basis 1599, value 2250,
   * profit/loss 651, and the position's percentage 65100/1599.
   */
  lemma TwoLotsOfOneSymbol()
    ensures var s := SumOf([Lot(100.0, 1.0, 10.0), Lot(120.0, 0.0, 5.0)], 150.0);
            && s.units == 15.0 && s.invested == 1599.0 && s.value == 2250.0 && s.profitLoss == 651.0
            && PositionPercent(s.profitLoss, s.invested) == 65100.0 / 1599.0
  {
    var ls := [Lot(100.0, 1.0, 10.0), Lot(120.0, 0.0, 5.0)];
    assert ls[..1] == [Lot(100.0, 1.0, 10.0)];
    assert ls[..1][..0] == [];
  }

  // ---------------------------------------------------------------------------
  // Percentages
  // ---------------------------------------------------------------------------

  /** A position's profit/loss as a percentage of its cost basis; 0 when that is 0. */
  function PositionPercent(profitLoss: real, invested: real): real {
    if invested != 0.0 then profitLoss / invested * 100.0 else 0.0
  }

  lemma PositionPercentMeaning(profitLoss: real, invested: real)
    ensures invested == 0.0 ==> PositionPercent(profitLoss, invested) == 0.0
    ensures invested != 0.0 ==> PositionPercent(profitLoss, invested) * invested == profitLoss * 100.0
  {
  }

  /**
   * The portfolio's profit/loss as a percentage of value minus profit/loss
   * (which is the total cost basis); 0 when that is 0.
   */
  function PortfolioPercent(profitLoss: real, value: real): real {
    if value - profitLoss != 0.0 then profitLoss / (value - profitLoss) * 100.0 else 0.0
  }

  lemma PortfolioPercentMeaning(profitLoss: real, value: real)
    ensures value - profitLoss == 0.0 ==> PortfolioPercent(profitLoss, value) == 0.0
    ensures value - profitLoss != 0.0 ==>
              PortfolioPercent(profitLoss, value) * (value - profitLoss) == profitLoss * 100.0
  {
  }

  /**
   * Two symbols with cost bases 1000 (profit 100) and 2000 (loss 50): the
   * totals are profit/loss 50 on value 3050, and the overall percentage
   * divides by value minus profit/loss, which is the combined cost basis 3000.
   */
  lemma TwoSymbolPortfolio()
    ensures PortfolioPercent(100.0 + -50.0, 1100.0 + 1950.0) == 5.0 / 3.0
  {
  }

  // ---------------------------------------------------------------------------
  // One symbol
  // ---------------------------------------------------------------------------

  /** The category of a position: cell 4 of its first lot, or "General" when absent. */
  function Category(first: Row): (c: string)
    ensures |first| > 4 ==> c == first[4]
    ensures |first| <= 4 ==> c == "General"
  {
    if |first| > 4 then first[4] else "General"
  }

  /** What one symbol contributes once its search, price and lots have all been read. */
  datatype Evaluated = Evaluated(name: string, category: string, purchaseDate: string, sums: Sums)

  /**
   * The work of one symbol up to the point where it enters the totals: a
   * failed search, an unreadable lot or a first lot without a date cell
   * raises and the symbol is skipped (None).
   */
  function Evaluate(symbol: string, lots: seq<Row>, m: Market): Option<Evaluated> {
    if lots == [] then None
    else
      var name := DisplayName(m.search(symbol), symbol);
      var sums := SumLots(lots, CurrentPrice(m, symbol));
      if name.None? || sums.None? || |lots[0]| < 4 then None
      else Some(Evaluated(name.value, Category(lots[0]), lots[0][3], sums.value))
  }

  /** One row of the assets list. `displayValue` is the converted total value. */
  datatype Position = Position(
    name: string, symbol: string, units: real, displayValue: real,
    profitLossPercent: real, category: string, purchaseDate: string)

  function RowFor(symbol: string, e: Evaluated, displayValue: real): Position {
    Position(e.name, symbol, e.sums.units, displayValue,
             PositionPercent(e.sums.profitLoss, e.sums.invested), e.category, e.purchaseDate)
  }

  // ---------------------------------------------------------------------------
  // The pass over all symbols
  // ---------------------------------------------------------------------------

  /**
   * The state the pass carries from symbol to symbol: running profit/loss
   * and value, the portfolio change recomputed from them, the rows built so
   * far, and whether a conversion was requested.
   */
  datatype Pass = Pass(profitLoss: real, value: real, change: real, rows: seq<Position>, converted: bool)

  /**
   * One symbol: if it is evaluated, its sums enter the running totals and
   * the change is recomputed from them; then its value is converted, and a
   * row is added only when the conversion returned a value.
   */
  function Step(p: Pass, symbol: string, ev: Option<Evaluated>, mode: Conversion): Pass {
    match ev
    case None => p
    case Some(e) =>
      var shown := Apply(mode, e.sums.value);
      Added(p, e.sums).(rows := if shown.Some? then p.rows + [RowFor(symbol, e, shown.value)] else p.rows,
                        converted := true)
  }

  /** The running totals once a symbol's sums are added, with the change recomputed from them. */
  function Added(p: Pass, sums: Sums): Pass {
    var profitLoss := p.profitLoss + sums.profitLoss;
    var value := p.value + sums.value;
    p.(profitLoss := profitLoss, value := value, change := PortfolioPercent(profitLoss, value))
  }


  /** The change after a step, and whether it converted. */
  lemma StepChange(p: Pass, symbol: string, ev: Option<Evaluated>, mode: Conversion)
    ensures var q := Step(p, symbol, ev, mode);
            && q.change == (if ev.Some? then PortfolioPercent(q.profitLoss, q.value) else p.change)
            && q.converted == (p.converted || ev.Some?)
  {
  }

  predicate KeysIn(keys: seq<string>, lots: map<string, seq<Row>>) {
    forall i :: 0 <= i < |keys| ==> keys[i] in lots
  }

  /** The pass over the symbols in order. */
  function Fold(keys: seq<string>, lots: map<string, seq<Row>>, m: Market, mode: Conversion, start: Pass): Pass
    requires KeysIn(keys, lots)
  {
    if keys == [] then start
    else
      var n := |keys| - 1;
      Step(Fold(keys[..n], lots, m, mode, start), keys[n], Evaluate(keys[n], lots[keys[n]], m), mode)
  }

  /** The symbols that get as far as the totals, in order. */
  function Reached(keys: seq<string>, lots: map<string, seq<Row>>, m: Market): (r: seq<string>)
    requires KeysIn(keys, lots)
    ensures KeysIn(r, lots)
  {
    if keys == [] then []
    else
      var n := |keys| - 1;
      Reached(keys[..n], lots, m) + (if Evaluate(keys[n], lots[keys[n]], m).Some? then [keys[n]] else [])
  }

  /** Value of the symbols, counting 0 for a symbol that is skipped. */
  function ValueTotal(keys: seq<string>, lots: map<string, seq<Row>>, m: Market): real
    requires KeysIn(keys, lots)
  {
    if keys == [] then 0.0
    else
      var e := Evaluate(keys[0], lots[keys[0]], m);
      (if e.Some? then e.value.sums.value else 0.0) + ValueTotal(keys[1..], lots, m)
  }

  /** Profit/loss of the symbols, counting 0 for a symbol that is skipped. */
  function ProfitLossTotal(keys: seq<string>, lots: map<string, seq<Row>>, m: Market): real
    requires KeysIn(keys, lots)
  {
    if keys == [] then 0.0
    else
      var e := Evaluate(keys[0], lots[keys[0]], m);
      (if e.Some? then e.value.sums.profitLoss else 0.0) + ProfitLossTotal(keys[1..], lots, m)
  }

  /** Cost basis of the symbols, counting 0 for a symbol that is skipped. */
  function CostTotal(keys: seq<string>, lots: map<string, seq<Row>>, m: Market): real
    requires KeysIn(keys, lots)
  {
    if keys == [] then 0.0
    else
      var e := Evaluate(keys[0], lots[keys[0]], m);
      (if e.Some? then e.value.sums.invested else 0.0) + CostTotal(keys[1..], lots, m)
  }

  lemma {:induction false} TotalsSnocKeys(keys: seq<string>, k: string, lots: map<string, seq<Row>>, m: Market)
    requires KeysIn(keys, lots) && k in lots
    ensures KeysIn(keys + [k], lots)
    ensures var e := Evaluate(k, lots[k], m);
      && ValueTotal(keys + [k], lots, m) == ValueTotal(keys, lots, m) + (if e.Some? then e.value.sums.value else 0.0)
      && ProfitLossTotal(keys + [k], lots, m) == ProfitLossTotal(keys, lots, m) + (if e.Some? then e.value.sums.profitLoss else 0.0)
      && CostTotal(keys + [k], lots, m) == CostTotal(keys, lots, m) + (if e.Some? then e.value.sums.invested else 0.0)
  {
    if keys != [] {
      assert (keys + [k])[1..] == keys[1..] + [k];
      TotalsSnocKeys(keys[1..], k, lots, m);
    }
  }

  lemma KeysInPrefix(keys: seq<string>, lots: map<string, seq<Row>>, n: nat)
    requires KeysIn(keys, lots) && n <= |keys|
    ensures KeysIn(keys[..n], lots)
  {
  }

  /**
   * The portfolio totals are the sums over the symbols that reached the
   * totals, each skipped symbol contributing nothing.
   */
  lemma {:induction false} FoldTotals(keys: seq<string>, lots: map<string, seq<Row>>, m: Market, mode: Conversion, start: Pass)
    requires KeysIn(keys, lots)
    ensures Fold(keys, lots, m, mode, start).value == start.value + ValueTotal(keys, lots, m)
    ensures Fold(keys, lots, m, mode, start).profitLoss == start.profitLoss + ProfitLossTotal(keys, lots, m)
  {
    if keys != [] {
      var n := |keys| - 1;
      assert keys == keys[..n] + [keys[n]];
      FoldTotals(keys[..n], lots, m, mode, start);
      TotalsSnocKeys(keys[..n], keys[n], lots, m);
    }
  }

  /**
   * The change left by the pass is recomputed from the running totals, so
   * it is the overall percentage of the final totals when some symbol
   * reached them, and the value it had before the pass otherwise (the
   * source never resets it). The pass converts at least once exactly when
   * some symbol reached the totals.
   */
  lemma {:induction false} FoldChange(keys: seq<string>, lots: map<string, seq<Row>>, m: Market, mode: Conversion, start: Pass)
    requires KeysIn(keys, lots)
    ensures var p := Fold(keys, lots, m, mode, start);
      && p.change == (if Reached(keys, lots, m) != [] then PortfolioPercent(p.profitLoss, p.value) else start.change)
      && p.converted == (start.converted || Reached(keys, lots, m) != [])
  {
    if keys != [] {
      var n := |keys| - 1;
      FoldChange(keys[..n], lots, m, mode, start);
      StepChange(Fold(keys[..n], lots, m, mode, start), keys[n], Evaluate(keys[n], lots[keys[n]], m), mode);
    }
  }

  /**
   * The rows: with a working conversion, exactly one row per symbol that
   * reached the totals, in order, each built from that symbol's sums; with a
   * stale cache, none at all, although those symbols still count in the totals.
   */
  lemma {:induction false} FoldRows(keys: seq<string>, lots: map<string, seq<Row>>, m: Market, mode: Conversion, start: Pass)
    requires KeysIn(keys, lots)
    ensures var p, r := Fold(keys, lots, m, mode, start), Reached(keys, lots, m);
      && (mode.Stale? ==> p.rows == start.rows)
      && (!mode.Stale? ==>
            && |p.rows| == |start.rows| + |r|
            && p.rows[..|start.rows|] == start.rows
            && forall i :: 0 <= i < |r| ==>
                 Evaluate(r[i], lots[r[i]], m).Some? &&
                 p.rows[|start.rows| + i] == RowFor(r[i], Evaluate(r[i], lots[r[i]], m).value,
                                                    Apply(mode, Evaluate(r[i], lots[r[i]], m).value.sums.value).value))
  {
    if keys != [] {
      var n := |keys| - 1;
      FoldRows(keys[..n], lots, m, mode, start);
      var p0, r0 := Fold(keys[..n], lots, m, mode, start), Reached(keys[..n], lots, m);
      var p, r := Fold(keys, lots, m, mode, start), Reached(keys, lots, m);
      if !mode.Stale? && Evaluate(keys[n], lots[keys[n]], m).Some? {
        assert r == r0 + [keys[n]];
        assert p.rows[..|p0.rows|] == p0.rows;
        forall j | |start.rows| <= j < |p0.rows|
          ensures p.rows[j] == p0.rows[j]
        {
        }
      }
    }
  }

  /** A step overwrites the change it is given whenever the symbol is evaluated. */
  lemma StepIgnoresChange(p: Pass, c: real, symbol: string, ev: Option<Evaluated>, mode: Conversion)
    ensures Step(p.(change := c), symbol, ev, mode) == if ev.Some? then Step(p, symbol, ev, mode) else p.(change := c)
  {
    if ev.Some? {
      assert Added(p.(change := c), ev.value.sums) == Added(p, ev.value.sums);
    }
  }

  /**
   * The change carried into the pass only survives when no symbol reaches
   * the totals; every other part of the pass is independent of it.
   */
  lemma {:induction false} FoldStartChange(keys: seq<string>, lots: map<string, seq<Row>>, m: Market,
                                           mode: Conversion, start: Pass, c: real)
    requires KeysIn(keys, lots)
    ensures Fold(keys, lots, m, mode, start.(change := c)) ==
            Fold(keys, lots, m, mode, start).(change :=
              if Reached(keys, lots, m) != [] then Fold(keys, lots, m, mode, start).change else c)
  {
    if keys != [] {
      var n := |keys| - 1;
      FoldStartChange(keys[..n], lots, m, mode, start, c);
      var p0 := Fold(keys[..n], lots, m, mode, start);
      var c0 := Fold(keys[..n], lots, m, mode, start.(change := c)).change;
      StepIgnoresChange(p0, c0, keys[n], Evaluate(keys[n], lots[keys[n]], m), mode);
      assert Fold(keys[..n], lots, m, mode, start.(change := c)) == p0.(change := c0);
      if Evaluate(keys[n], lots[keys[n]], m).None? {
        assert Reached(keys, lots, m) == Reached(keys[..n], lots, m);
      } else {
        assert Reached(keys, lots, m) == Reached(keys[..n], lots, m) + [keys[n]];
      }
    }
  }

  /** Profit/loss plus cost basis is value, so value minus profit/loss is the total cost basis. */
  lemma {:induction false} TotalCostIdentity(keys: seq<string>, lots: map<string, seq<Row>>, m: Market)
    requires KeysIn(keys, lots)
    ensures ValueTotal(keys, lots, m) - ProfitLossTotal(keys, lots, m) == CostTotal(keys, lots, m)
  {
    if keys != [] {
      TotalCostIdentity(keys[1..], lots, m);
      var e := Evaluate(keys[0], lots[keys[0]], m);
      if e.Some? {
        SumOfValue(ParseLots(lots[keys[0]]).value, CurrentPrice(m, keys[0]));
      }
    }
  }

  // ---------------------------------------------------------------------------
  // Daily change
  // ---------------------------------------------------------------------------

  /** Running daily change and percentage; `complete` is false once a bar was missing (raised). */
  datatype Daily = Daily(change: real, percent: real, complete: bool)

  /** `calculate_daily_change`: adds each row's move and percentage, stopping at the first missing bar. */
  function DailyFold(rows: seq<Position>, m: Market, start: Daily): Daily {
    if rows == [] then start
    else
      var n := |rows| - 1;
      var d := DailyFold(rows[..n], m, start);
      if !d.complete then d
      else
        match m.lastBar(rows[n].symbol)
        case None => d.(complete := false)
        case Some(b) => Daily(d.change + DailyMove(b), d.percent + DailyChangePercent(b), true)
  }

  /** Once a bar was missing the pass stays stopped: later rows change nothing. */
  lemma {:induction false} DailyIncompleteSticks(rows: seq<Position>, m: Market, start: Daily, k: nat)
    requires k <= |rows| && !DailyFold(rows[..k], m, start).complete
    ensures DailyFold(rows, m, start) == DailyFold(rows[..k], m, start)
    decreases |rows| - k
  {
    if k < |rows| {
      assert rows[..k + 1][..k] == rows[..k];
      DailyIncompleteSticks(rows, m, start, k + 1);
    } else {
      assert rows[..k] == rows;
    }
  }

  predicate AllQuoted(rows: seq<Position>, m: Market) {
    forall i :: 0 <= i < |rows| ==> m.lastBar(rows[i].symbol).Some?
  }

  function MoveTotal(rows: seq<Position>, m: Market): real
    requires AllQuoted(rows, m)
  {
    if rows == [] then 0.0 else DailyMove(m.lastBar(rows[0].symbol).value) + MoveTotal(rows[1..], m)
  }

  function PercentTotal(rows: seq<Position>, m: Market): real
    requires AllQuoted(rows, m)
  {
    if rows == [] then 0.0 else DailyChangePercent(m.lastBar(rows[0].symbol).value) + PercentTotal(rows[1..], m)
  }

  lemma {:induction false} DailyTotalsSnoc(rows: seq<Position>, r: Position, m: Market)
    requires AllQuoted(rows, m) && m.lastBar(r.symbol).Some?
    ensures AllQuoted(rows + [r], m)
    ensures MoveTotal(rows + [r], m) == MoveTotal(rows, m) + DailyMove(m.lastBar(r.symbol).value)
    ensures PercentTotal(rows + [r], m) == PercentTotal(rows, m) + DailyChangePercent(m.lastBar(r.symbol).value)
  {
    if rows != [] {
      assert (rows + [r])[1..] == rows[1..] + [r];
      DailyTotalsSnoc(rows[1..], r, m);
    }
  }

  /**
   * The daily change is a plain sum over the positions: when every row has
   * a bar, the pass adds each row's move and each row's percentage once.
   */
  lemma {:induction false} DailyIsSumOverPositions(rows: seq<Position>, m: Market, start: Daily)
    requires start.complete && AllQuoted(rows, m)
    ensures DailyFold(rows, m, start) ==
            Daily(start.change + MoveTotal(rows, m), start.percent + PercentTotal(rows, m), true)
  {
    if rows != [] {
      var n := |rows| - 1;
      assert rows == rows[..n] + [rows[n]];
      DailyIsSumOverPositions(rows[..n], m, start);
      DailyTotalsSnoc(rows[..n], rows[n], m);
    }
  }

  /**
   * A missing bar stops the pass: the first row without one leaves the sums
   * of the rows before it and marks the pass incomplete.
   */
  lemma {:induction false} DailyStopsAtFirstGap(rows: seq<Position>, m: Market, start: Daily, k: nat)
    requires start.complete
    requires k < |rows| && m.lastBar(rows[k].symbol).None?
    requires AllQuoted(rows[..k], m)
    ensures DailyFold(rows, m, start) == DailyFold(rows[..k], m, start).(complete := false)
  {
    var n := |rows| - 1;
    if n == k {
      assert rows[..n] == rows[..k];
      DailyIsSumOverPositions(rows[..k], m, start);
    } else {
      assert rows[..n][..k] == rows[..k];
      DailyStopsAtFirstGap(rows[..n], m, start, k);
    }
  }
}
