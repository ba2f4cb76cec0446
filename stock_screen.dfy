/**
 * The stock screen: the analyst consensus shown under the recommendation
 * chart, the day's percentage change of the selected stock with its colour,
 * and the formatting of the key metrics.
 */
module StockScreen {
  import opened Common
  import opened Quotes

  // ---------------------------------------------------------------------------
  // Analyst consensus
  // ---------------------------------------------------------------------------

  /** The latest recommendation counts, most bearish first in `Values`. */
  datatype Counts = Counts(strongSell: int, sell: int, hold: int, buy: int, strongBuy: int)

  function Values(c: Counts): (v: seq<int>)
    ensures |v| == 5
  {
    [c.strongSell, c.sell, c.hold, c.buy, c.strongBuy]
  }

  const Labels: seq<string> := ["Strong Sell", "Sell", "Hold", "Buy", "Strong Buy"]
  const Palette: seq<string> := ["#F24822", "#FF6600", "#FFF200", "#14AE5C", "#144F30"]

  /** `max(values)`. */
  function MaxOf(xs: seq<int>): (m: int)
    requires |xs| > 0
    ensures exists i :: 0 <= i < |xs| && xs[i] == m
    ensures forall i :: 0 <= i < |xs| ==> xs[i] <= m
  {
    if |xs| == 1 then xs[0]
    else
      var rest := MaxOf(xs[1..]);
      assert forall i :: 1 <= i < |xs| ==> xs[i] == xs[1..][i - 1];
      if xs[0] >= rest then xs[0] else rest
  }

  /**
   * The chosen label: the checks run from Strong Sell to Buy, and the first
   * count equal to the maximum wins; Strong Buy is what is left.
   */
  function ConsensusIndex(c: Counts): (i: nat)
    ensures i < 5
    ensures Values(c)[i] == MaxOf(Values(c))
    ensures forall j :: 0 <= j < i ==> Values(c)[j] < MaxOf(Values(c))
  {
    var v, m := Values(c), MaxOf(Values(c));
    if v[0] == m then 0
    else if v[1] == m then 1
    else if v[2] == m then 2
    else if v[3] == m then 3
    else 4
  }

  /** Strong Buy is chosen exactly when strong-buy outnumbers every other count. */
  lemma StrongBuyIffStrictlyAhead(c: Counts)
    ensures ConsensusIndex(c) == 4 <==>
              c.strongBuy > c.strongSell && c.strongBuy > c.sell && c.strongBuy > c.hold && c.strongBuy > c.buy
  {
    var v := Values(c);
    if c.strongBuy > c.strongSell && c.strongBuy > c.sell && c.strongBuy > c.hold && c.strongBuy > c.buy {
      assert forall j :: 0 <= j < 4 ==> v[j] < v[4];
    }
  }

  /** On a tie for the top count the more bearish label is shown. */
  lemma TieGoesToBearish(c: Counts, i: nat, j: nat)
    requires i < j < 5
    requires Values(c)[i] == Values(c)[j] == MaxOf(Values(c))
    ensures ConsensusIndex(c) <= i
  {
  }

  function Bump(c: Counts, i: nat): (b: Counts)
    requires i < 5
    ensures forall j :: 0 <= j < 5 ==> Values(b)[j] == Values(c)[j] + (if j == i then 1 else 0)
  {
    if i == 0 then c.(strongSell := c.strongSell + 1)
    else if i == 1 then c.(sell := c.sell + 1)
    else if i == 2 then c.(hold := c.hold + 1)
    else if i == 3 then c.(buy := c.buy + 1)
    else c.(strongBuy := c.strongBuy + 1)
  }

  /** One more analyst agreeing with the consensus leaves the consensus where it is. */
  lemma ConsensusStable(c: Counts)
    ensures ConsensusIndex(Bump(c, ConsensusIndex(c))) == ConsensusIndex(c)
  {
    var i := ConsensusIndex(c);
    var b := Bump(c, i);
    var v, w := Values(c), Values(b);
    var m := MaxOf(v);
    assert w[i] == m + 1;
    forall j | 0 <= j < 5
      ensures w[j] <= m + 1
    {
    }
    var k := ConsensusIndex(b);
    assert w[k] == MaxOf(w);
    assert MaxOf(w) == m + 1 by {
      assert MaxOf(w) >= w[i];
    }
  }

  /**
   * The consensus panel of the recommendation chart. A failed request (or a
   * reply without counts) leaves the label and colour as they were.
   */
  class BarChartWidget {
    var stock: string
    var analystConsensus: string
    var analystConsensusColor: string

    constructor(stock: string, reply: Option<Counts>)
      ensures this.stock == stock
      ensures reply.None? ==> analystConsensus == "" && analystConsensusColor == ""
      ensures reply.Some? ==>
                analystConsensus == Labels[ConsensusIndex(reply.value)] &&
                analystConsensusColor == Palette[ConsensusIndex(reply.value)]
    {
      this.stock := stock;
      analystConsensus := "";
      analystConsensusColor := "";
      new;
      Plot(reply);
    }

    /** `plot`, down to the choice of label and colour. */
    method Plot(reply: Option<Counts>)
      modifies this
      ensures stock == old(stock)
      ensures reply.None? ==>
                analystConsensus == old(analystConsensus) && analystConsensusColor == old(analystConsensusColor)
      ensures reply.Some? ==>
                analystConsensus == Labels[ConsensusIndex(reply.value)] &&
                analystConsensusColor == Palette[ConsensusIndex(reply.value)]
    {
      if reply.Some? {
        var values := Values(reply.value);
        var top := MaxOf(values);
        if values[0] == top {
          analystConsensus, analystConsensusColor := "Strong Sell", "#F24822";
        } else if values[1] == top {
          analystConsensus, analystConsensusColor := "Sell", "#FF6600";
        } else if values[2] == top {
          analystConsensus, analystConsensusColor := "Hold", "#FFF200";
        } else if values[3] == top {
          analystConsensus, analystConsensusColor := "Buy", "#14AE5C";
        } else {
          analystConsensus, analystConsensusColor := "Strong Buy", "#144F30";
        }
      }
    }
  }

  // ---------------------------------------------------------------------------
  // The day's change of the selected stock
  // ---------------------------------------------------------------------------

  /**
   * `calculate_daily_change` of the stock screen: the last bar's change as a
   * percentage of its open; no bar raises (None).
   */
  function StockDailyChange(bar: Option<QuotedBar>): (r: Option<real>)
    ensures r.Some? <==> bar.Some?
    ensures bar.Some? ==> r.value * bar.value.open == (bar.value.close - bar.value.open) * 100.0
  {
    match bar
    case None => None
    case Some(b) => Some(DailyChangePercent(b))
  }

  /** A stock whose price rose since the open is shown green, one that fell red, one unchanged grey. */
  lemma ChangeColourFollowsPrice(b: QuotedBar)
    requires b.open > 0.0
    ensures DetermineColor(StockDailyChange(Some(b)).value) == Green <==> b.close > b.open
    ensures DetermineColor(StockDailyChange(Some(b)).value) == Red <==> b.close < b.open
    ensures DetermineColor(StockDailyChange(Some(b)).value) == Grey <==> b.close == b.open
  {
    var p := DailyChangePercent(b);
    if b.close < b.open {
      assert p * b.open < 0.0;
    }
  }

  // ---------------------------------------------------------------------------
  // Metrics
  // ---------------------------------------------------------------------------

  /** A metric as the fundamentals reply carries it: absent (null), a string, or a number. */
  datatype Metric = Absent | Text(text: string) | Number(x: real)

  /** How `check_value` renders a metric: "N/A", a number with two decimals (in cents), or an error. */
  datatype Shown = NotAvailable | Fixed2(cents: int) | FormatError

  /** Round to the nearest integer, ties to even, as `format(x, ".2f")` does on the scaled value. */
  function RoundHalfEven(x: real): (n: int)
    ensures x - 0.5 <= n as real <= x + 0.5
  {
    var f := x.Floor;
    var frac := x - f as real;
    if frac > 0.5 then f + 1
    else if frac < 0.5 then f
    else if f % 2 == 0 then f
    else f + 1
  }

  /**
   * `check_value`: None and the empty string read "N/A"; a number is shown
   * with two decimals; any other string cannot take the ".2f" format and raises.
   */
  function CheckValue(v: Metric): (r: Shown)
    ensures r.NotAvailable? <==> v.Absent? || v == Text("")
    ensures r.FormatError? <==> v.Text? && v.text != ""
    ensures v.Number? ==> r.Fixed2? && v.x * 100.0 - 0.5 <= r.cents as real <= v.x * 100.0 + 0.5
  {
    match v
    case Absent => NotAvailable
    case Text(s) => if s == "" then NotAvailable else FormatError
    case Number(x) => Fixed2(RoundHalfEven(x * 100.0))
  }

  /** A number already given in whole cents is shown exactly. */
  lemma CheckValueExactOnCents(k: int)
    ensures CheckValue(Number(k as real / 100.0)) == Fixed2(k)
  {
    var x := k as real / 100.0;
    assert x * 100.0 == k as real;
    assert (k as real).Floor == k;
  }
}
