/**
 * The last daily bar of a symbol, as the price feed reports it, and the
 * day's move computed from it.
 */
module Quotes {

  datatype DailyBar = DailyBar(open: real, close: real)

  /** A bar whose open is non-zero, so the day's percentage is a number. */
  type QuotedBar = b: DailyBar | b.open != 0.0 witness DailyBar(1.0, 1.0)

  /** The day's move in price: close minus open. */
  function DailyMove(b: DailyBar): (d: real)
    ensures d > 0.0 <==> b.close > b.open
    ensures d < 0.0 <==> b.close < b.open
  {
    b.close - b.open
  }

  /** The day's move as a percentage of the open. */
  function DailyChangePercent(b: QuotedBar): (p: real)
    ensures p * b.open == DailyMove(b) * 100.0
    ensures p == 0.0 <==> b.close == b.open
    ensures b.open > 0.0 ==> (p > 0.0 <==> b.close > b.open)
  {
    (b.close - b.open) / b.open * 100.0
  }
}
