/**
 * The search screen: the one-month change and sparkline colour of each
 * market index, the symbol list a search request yields, and the
 * autocomplete list that the search box keeps.
 */
module SearchScreen {
  import opened Common

  // ---------------------------------------------------------------------------
  // Index change and sparkline
  // ---------------------------------------------------------------------------

  /**
   * A percentage as numpy computes it: a number, or, when the first close
   * is 0, an infinity (the closes differ) or NaN (they do not).
   */
  datatype Percent = Finite(value: real) | PosInf | NegInf | NaN

  /**
   * `calculate_change`: the change from the first to the last close as a
   * percentage of the first; 0 for fewer than two closes.
   */
  function CalculateChange(closes: seq<real>): (r: Percent)
    ensures |closes| < 2 ==> r == Finite(0.0)
    ensures |closes| >= 2 && closes[0] != 0.0 ==>
              r.Finite? && r.value * closes[0] == (closes[|closes| - 1] - closes[0]) * 100.0
    ensures |closes| >= 2 && closes[0] == 0.0 ==>
              (r == NaN <==> closes[|closes| - 1] == 0.0) &&
              (r == PosInf <==> closes[|closes| - 1] > 0.0) &&
              (r == NegInf <==> closes[|closes| - 1] < 0.0)
  {
    if |closes| < 2 then Finite(0.0)
    else
      var first, last := closes[0], closes[|closes| - 1];
      if first != 0.0 then Finite((last - first) / first * 100.0)
      else if last > 0.0 then PosInf
      else if last < 0.0 then NegInf
      else NaN
  }

  /** With a positive first close, the change is positive exactly when the last close is higher. */
  lemma ChangePositiveIffRise(closes: seq<real>)
    requires |closes| >= 2 && closes[0] > 0.0
    ensures CalculateChange(closes).Finite?
    ensures CalculateChange(closes).value > 0.0 <==> closes[|closes| - 1] > closes[0]
    ensures CalculateChange(closes).value < 0.0 <==> closes[|closes| - 1] < closes[0]
  {
    var first, last := closes[0], closes[|closes| - 1];
    var p := CalculateChange(closes).value;
    if last > first {
      assert p * first > 0.0;
    } else if last < first {
      assert p * first < 0.0;
    }
  }

  /** `determine_color` on such a percentage: NaN compares neither above nor below 0, so it is grey. */
  function ChangeColor(p: Percent): (c: string)
    ensures p.Finite? ==> c == DetermineColor(p.value)
    ensures p.PosInf? ==> c == Green
    ensures p.NegInf? ==> c == Red
    ensures p.NaN? ==> c == Grey
  {
    match p
    case Finite(v) => DetermineColor(v)
    case PosInf => Green
    case NegInf => Red
    case NaN => Grey
  }

  /**
   * The sparkline's colour: green when the last close is above the first,
   * red otherwise (a flat line included); no closes raises (None).
   */
  function SparklineColor(closes: seq<real>): (c: Option<string>)
    ensures c.None? <==> closes == []
    ensures closes != [] ==> (c == Some(Green) <==> closes[|closes| - 1] > closes[0])
    ensures closes != [] ==> (c == Some(Red) <==> closes[|closes| - 1] <= closes[0])
  {
    if closes == [] then None
    else if closes[|closes| - 1] > closes[0] then Some(Green)
    else Some(Red)
  }

  /**
   * For an index with a positive first close and at least two closes, the
   * sparkline is green exactly when the change is shown green; a flat month
   * is the one case where they differ (grey change, red line).
   */
  lemma SparklineAgreesWithChange(closes: seq<real>)
    requires |closes| >= 2 && closes[0] > 0.0
    ensures SparklineColor(closes) == Some(Green) <==> ChangeColor(CalculateChange(closes)) == Green
    ensures closes[|closes| - 1] == closes[0] ==>
              ChangeColor(CalculateChange(closes)) == Grey && SparklineColor(closes) == Some(Red)
  {
    var first, last := closes[0], closes[|closes| - 1];
    var p := CalculateChange(closes).value;
    if last > first {
      assert p * first > 0.0;
    } else if last < first {
      assert p * first < 0.0;
    }
  }

  // ---------------------------------------------------------------------------
  // The search request
  // ---------------------------------------------------------------------------

  /** One hit of the symbol search; `symbol` is None when the hit has no "symbol" key. */
  datatype SearchItem = SearchItem(symbol: Option<string>)

  /** The decoded body: not JSON, JSON without "result", or the list under "result". */
  datatype Body = NotJson | NoResult | Result(items: seq<SearchItem>)

  /** The request: failed outright (time-out, connection error) or answered. */
  datatype Response = RequestFailed | Answered(status: int, body: Body)

  predicate AllHaveSymbol(items: seq<SearchItem>) {
    forall i :: 0 <= i < |items| ==> items[i].symbol.Some?
  }

  /** `[item["symbol"] for item in results]`. */
  function SymbolsOf(items: seq<SearchItem>): (r: seq<string>)
    requires AllHaveSymbol(items)
    ensures |r| == |items|
    ensures forall i :: 0 <= i < |items| ==> r[i] == items[i].symbol.value
  {
    if items == [] then [] else [items[0].symbol.value] + SymbolsOf(items[1..])
  }

  /**
   * What `StockSearchWorker.run` emits: the symbols of the hits for a 200
   * reply, and the empty list for anything else, including every error it catches.
   */
  function Emitted(resp: Response): (r: seq<string>)
    ensures (resp.Answered? && resp.status == 200 && resp.body.Result? && AllHaveSymbol(resp.body.items)) ==>
              |r| == |resp.body.items| &&
              forall i :: 0 <= i < |r| ==> r[i] == resp.body.items[i].symbol.value
    ensures !(resp.Answered? && resp.status == 200 && resp.body.Result? && AllHaveSymbol(resp.body.items)) ==>
              r == []
  {
    match resp
    case RequestFailed => []
    case Answered(status, body) =>
      if status != 200 then []
      else
        match body
        case Result(items) => if AllHaveSymbol(items) then SymbolsOf(items) else []
        case _ => []
  }

  /** One hit without a symbol empties the whole list, not just that entry. */
  lemma MissingSymbolDropsAll(items: seq<SearchItem>, k: nat)
    requires k < |items| && items[k].symbol.None?
    ensures Emitted(Answered(200, Result(items))) == []
  {
  }

  // ---------------------------------------------------------------------------
  // The search box
  // ---------------------------------------------------------------------------

  /**
   * The search box: the last symbol list received, the completer's list of
   * strings, and the query of the most recently started search.
   */
  class SearchBox {
    var stockAutocompleteValues: seq<string>
    var completerModel: seq<string>
    var searchWorker: Option<string>

    constructor()
      ensures stockAutocompleteValues == [] && completerModel == [] && searchWorker == None
    {
      stockAutocompleteValues := [];
      completerModel := [];
      searchWorker := None;
    }

    /**
     * `handle_stock_autocomplete_values`: fewer than two characters clear
     * the completer and start nothing; otherwise a search for the text starts.
     */
    method HandleStockAutocompleteValues(text: string)
      modifies this
      ensures stockAutocompleteValues == old(stockAutocompleteValues)
      ensures |text| < 2 ==> completerModel == [] && searchWorker == old(searchWorker)
      ensures |text| >= 2 ==> completerModel == old(completerModel) && searchWorker == Some(text)
    {
      if |text| < 2 {
        completerModel := [];
        return;
      }
      searchWorker := Some(text);
    }

    /**
     * `update_autocomplete`: records the list, and appends each symbol to
     * the completer at the end, one row at a time; the completer is never
     * cleared here, so earlier suggestions stay.
     */
    method UpdateAutocomplete(symbols: seq<string>)
      modifies this
      ensures stockAutocompleteValues == symbols
      ensures completerModel == old(completerModel) + symbols
      ensures searchWorker == old(searchWorker)
    {
      stockAutocompleteValues := symbols;
      if symbols == [] {
        return;
      }
      var i := 0;
      while i < |symbols|
        invariant 0 <= i <= |symbols|
        invariant completerModel == old(completerModel) + symbols[..i]
        invariant stockAutocompleteValues == symbols && searchWorker == old(searchWorker)
      {
        completerModel := completerModel + [symbols[i]];
        assert symbols[..i + 1] == symbols[..i] + [symbols[i]];
        i := i + 1;
      }
      assert symbols[..i] == symbols;
    }

    /** A finished search delivers what its worker emits. */
    method Deliver(resp: Response)
      modifies this
      ensures stockAutocompleteValues == Emitted(resp)
      ensures completerModel == old(completerModel) + Emitted(resp)
      ensures searchWorker == old(searchWorker)
    {
      UpdateAutocomplete(Emitted(resp));
    }
  }

  /**
   * Two replies in a row leave both lists' symbols in the completer, the
   * first reply's ahead of the second's, while only the second is recorded.
   */
  method TwoRepliesAccumulate(box: SearchBox, first: seq<string>, second: seq<string>)
    modifies box
    ensures box.completerModel == old(box.completerModel) + first + second
    ensures box.stockAutocompleteValues == second
  {
    box.UpdateAutocomplete(first);
    box.UpdateAutocomplete(second);
  }
}
