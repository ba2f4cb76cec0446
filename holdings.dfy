/**
 * The holdings store of the portfolio window: the rows the user enters or
 * imports, how a form submission is validated and padded, how rows are
 * grouped by symbol, and the unit count shown for a clicked symbol.
 *
 * A row is a list of cells: Symbol, Purchase Price, Fees, Units,
 * Date Purchased, Category (imported files may carry further columns).
 */
module Holdings {
  import opened Common
  import opened Text
  import opened Dates

  type Row = seq<string>

  // ---------------------------------------------------------------------------
  // Form validation
  // ---------------------------------------------------------------------------

  datatype FieldKind = TextField | NumberField | DateField

  datatype InputField = InputField(name: string, kind: FieldKind)

  /** The fields of the "Add Investment" form, in order. */
  const InputList: seq<InputField> := [
    InputField("Symbol", TextField),
    InputField("Purchase Price", NumberField),
    InputField("Fees", NumberField),
    InputField("Units", NumberField),
    InputField("Date Purchased (DD-MM-YYYY)", DateField)
  ]

  datatype Problem = IsEmpty | NotProperlyFormatted

  /** One line of the error message: which field, and what is wrong with it. */
  datatype FieldError = FieldError(field: string, problem: Problem)

  /** What the validator finds wrong with one value, if anything. */
  function ProblemWith(f: InputField, value: string): Option<Problem> {
    if value == "" then Some(IsEmpty)
    else
      match f.kind
      case NumberField => if ParseNumber(value).None? then Some(NotProperlyFormatted) else None
      case DateField => if ParseDate(value).None? then Some(NotProperlyFormatted) else None
      case TextField => if !IsAlnum(value) then Some(NotProperlyFormatted) else None
  }

  predicate FieldOk(i: nat, value: string)
    requires i < |InputList|
  {
    ProblemWith(InputList[i], value).None?
  }

  /** Every value is non-empty and well formed for its field. */
  predicate ProperlyFormatted(values: seq<string>)
    requires |values| <= |InputList|
  {
    forall i :: 0 <= i < |values| ==> FieldOk(i, values[i])
  }

  /** A validator: what it finds wrong with a value for a field, if anything. */
  type Checker = (InputField, string) -> Option<Problem>

  /** The error lines a validator produces for the values of `fields`, one per failing field, in field order. */
  function ErrorsBy(fields: seq<InputField>, values: seq<string>, check: Checker): seq<FieldError>
    requires |values| <= |fields|
  {
    if values == [] then []
    else
      var n := |values| - 1;
      var p := check(fields[n], values[n]);
      ErrorsBy(fields, values[..n], check) + (if p.Some? then [FieldError(fields[n].name, p.value)] else [])
  }

  /** The error lines of the form's own validator. */
  function FieldErrors(values: seq<string>): seq<FieldError>
    requires |values| <= |InputList|
  {
    ErrorsBy(InputList, values, ProblemWith)
  }

  lemma ErrorsBySnoc(fields: seq<InputField>, values: seq<string>, check: Checker, i: nat)
    requires i < |values| <= |fields|
    ensures var p := check(fields[i], values[i]);
            ErrorsBy(fields, values[..i + 1], check) ==
            ErrorsBy(fields, values[..i], check) + (if p.Some? then [FieldError(fields[i].name, p.value)] else [])
  {
    assert values[..i + 1][..i] == values[..i];
  }

  lemma {:induction false} ErrorsByEmptyIff(fields: seq<InputField>, values: seq<string>, check: Checker)
    requires |values| <= |fields|
    ensures ErrorsBy(fields, values, check) == [] <==>
            forall i :: 0 <= i < |values| ==> check(fields[i], values[i]).None?
  {
    if values != [] {
      var n := |values| - 1;
      var prefix := values[..n];
      ErrorsByEmptyIff(fields, prefix, check);
      var p := check(fields[n], values[n]);
      assert ErrorsBy(fields, values, check) ==
             ErrorsBy(fields, prefix, check) + (if p.Some? then [FieldError(fields[n].name, p.value)] else []);
      if forall i :: 0 <= i < |values| ==> check(fields[i], values[i]).None? {
        assert forall i :: 0 <= i < n ==> check(fields[i], prefix[i]).None?;
      }
      if ErrorsBy(fields, values, check) == [] {
        forall i | 0 <= i < |values|
          ensures check(fields[i], values[i]).None?
        {
          if i < n {
            assert prefix[i] == values[i];
          }
        }
      }
    }
  }

  /** The submission produces no error line exactly when every field passes. */
  lemma FieldErrorsEmptyIff(values: seq<string>)
    requires |values| <= |InputList|
    ensures FieldErrors(values) == [] <==> ProperlyFormatted(values)
  {
    ErrorsByEmptyIff(InputList, values, ProblemWith);
  }

  /** No two fields of the form share a name. */
  predicate DistinctNames(fields: seq<InputField>) {
    forall i, j :: 0 <= i < j < |fields| ==> fields[i].name != fields[j].name
  }

  lemma {:induction false} ErrorsByExact(fields: seq<InputField>, values: seq<string>, check: Checker, i: nat, p: Problem)
    requires |values| <= |fields| && DistinctNames(fields)
    requires i < |values|
    ensures FieldError(fields[i].name, p) in ErrorsBy(fields, values, check) <==> check(fields[i], values[i]) == Some(p)
  {
    var n := |values| - 1;
    var pn := check(fields[n], values[n]);
    var tail := if pn.Some? then [FieldError(fields[n].name, pn.value)] else [];
    assert ErrorsBy(fields, values, check) == ErrorsBy(fields, values[..n], check) + tail;
    if i < n {
      ErrorsByExact(fields, values[..n], check, i, p);
      assert values[..n][i] == values[i];
    } else {
      NamesAbsent(fields, values[..n], check, fields[n].name);
    }
  }

  /**
   * Every failing field contributes exactly its own error line: the error
   * list names field i with problem p precisely when field i has problem p.
   */
  lemma FieldErrorsExact(values: seq<string>, i: nat, p: Problem)
    requires |values| <= |InputList|
    requires i < |values|
    ensures FieldError(InputList[i].name, p) in FieldErrors(values) <==> ProblemWith(InputList[i], values[i]) == Some(p)
  {
    assert DistinctNames(InputList);
    ErrorsByExact(InputList, values, ProblemWith, i, p);
  }

  lemma {:induction false} NamesAbsent(fields: seq<InputField>, values: seq<string>, check: Checker, name: string)
    requires |values| <= |fields|
    requires forall i :: 0 <= i < |values| ==> fields[i].name != name
    ensures forall e :: e in ErrorsBy(fields, values, check) ==> e.field != name
  {
    if values != [] {
      var n := |values| - 1;
      NamesAbsent(fields, values[..n], check, name);
    }
  }

  /**
   * The check run on a form submission: walks the values in order and
   * collects one error line per failing field; the submission is accepted
   * only when no line was collected.
   */
  method CheckProperlyFormatted(values: seq<string>) returns (ok: bool, errors: seq<FieldError>)
    requires |values| <= |InputList|
    ensures errors == FieldErrors(values)
    ensures ok <==> ProperlyFormatted(values)
    ensures ok <==> errors == []
  {
    var check: Checker := ProblemWith;
    errors := [];
    var i := 0;
    while i < |values|
      invariant 0 <= i <= |values|
      invariant errors == ErrorsBy(InputList, values[..i], check)
    {
      var p := check(InputList[i], values[i]);
      ErrorsBySnoc(InputList, values, check, i);
      if p.Some? {
        errors := errors + [FieldError(InputList[i].name, p.value)];
      }
      i := i + 1;
    }
    assert values[..i] == values;
    FieldErrorsEmptyIff(values);
    ok := errors == [];
  }

  /** The row stored for a submission: five form values get the default category. */
  function NewHolding(values: seq<string>): (row: Row)
    requires values != []
    ensures |values| == 5 ==> row == values + ["General"]
    ensures |values| != 5 ==> row == values
  {
    if |values| == 5 then values + ["General"] else values
  }

  // ---------------------------------------------------------------------------
  // Grouping by symbol
  // ---------------------------------------------------------------------------

  /** Every row has a symbol cell (grouping reads cell 0). */
  predicate Keyed(hs: seq<Row>) {
    forall i :: 0 <= i < |hs| ==> |hs[i]| >= 1
  }

  lemma KeyedPrefix(hs: seq<Row>, n: nat)
    requires Keyed(hs) && n <= |hs|
    ensures Keyed(hs[..n])
  {
  }

  /** The distinct symbols in the order they first appear. */
  function FirstOccurrences(hs: seq<Row>): seq<string>
    requires Keyed(hs)
  {
    if hs == [] then []
    else
      var n := |hs| - 1;
      var rest := FirstOccurrences(hs[..n]);
      if hs[n][0] in rest then rest else rest + [hs[n][0]]
  }

  /** The rows of one symbol without their symbol cell, in insertion order. */
  function GroupOf(hs: seq<Row>, symbol: string): seq<Row>
    requires Keyed(hs)
  {
    if hs == [] then []
    else
      var n := |hs| - 1;
      GroupOf(hs[..n], symbol) + (if hs[n][0] == symbol then [hs[n][1..]] else [])
  }

  /** An insertion-ordered dictionary from symbol to its lots. */
  datatype Groups = Groups(keys: seq<string>, lots: map<string, seq<Row>>)

  predicate Distinct(xs: seq<string>) {
    forall i, j :: 0 <= i < j < |xs| ==> xs[i] != xs[j]
  }

  /** What grouping the holdings yields: keys by first occurrence, each with its lots. */
  function Grouped(hs: seq<Row>): Groups
    requires Keyed(hs)
  {
    var keys := FirstOccurrences(hs);
    Groups(keys, map k | k in keys :: GroupOf(hs, k))
  }

  lemma {:induction false} FirstOccurrencesSpec(hs: seq<Row>)
    requires Keyed(hs)
    ensures Distinct(FirstOccurrences(hs))
    ensures forall k :: k in FirstOccurrences(hs) <==> exists i :: 0 <= i < |hs| && hs[i][0] == k
  {
    if hs != [] {
      var n := |hs| - 1;
      FirstOccurrencesSpec(hs[..n]);
      forall k ensures k in FirstOccurrences(hs) <==> exists i :: 0 <= i < |hs| && hs[i][0] == k {
        if k in FirstOccurrences(hs[..n]) {
          var i :| 0 <= i < n && hs[..n][i][0] == k;
          assert hs[i][0] == k;
        }
        if exists i :: 0 <= i < |hs| && hs[i][0] == k {
          var i :| 0 <= i < |hs| && hs[i][0] == k;
          if i < n {
            assert hs[..n][i][0] == k;
          }
        }
      }
    }
  }

  /** A symbol that never occurs has an empty group. */
  lemma {:induction false} GroupOfAbsent(hs: seq<Row>, symbol: string)
    requires Keyed(hs)
    requires symbol !in FirstOccurrences(hs)
    ensures GroupOf(hs, symbol) == []
  {
    if hs != [] {
      var n := |hs| - 1;
      GroupOfAbsent(hs[..n], symbol);
    }
  }

  /** A symbol that does occur has a non-empty group, so its first lot exists. */
  lemma {:induction false} GroupOfPresent(hs: seq<Row>, symbol: string)
    requires Keyed(hs)
    requires symbol in FirstOccurrences(hs)
    ensures |GroupOf(hs, symbol)| >= 1
  {
    var n := |hs| - 1;
    if hs[n][0] != symbol {
      GroupOfPresent(hs[..n], symbol);
    }
  }

  /** Total of the group sizes over some keys. */
  function GroupSizes(hs: seq<Row>, keys: seq<string>): nat
    requires Keyed(hs)
  {
    if keys == [] then 0 else |GroupOf(hs, keys[0])| + GroupSizes(hs, keys[1..])
  }

  lemma {:induction false} GroupSizesStep(hs: seq<Row>, h: Row, keys: seq<string>)
    requires Keyed(hs) && |h| >= 1
    requires Distinct(keys)
    ensures Keyed(hs + [h])
    ensures GroupSizes(hs + [h], keys) == GroupSizes(hs, keys) + (if h[0] in keys then 1 else 0)
  {
    var hs' := hs + [h];
    assert hs'[..|hs|] == hs;
    if keys != [] {
      GroupSizesStep(hs, h, keys[1..]);
      assert h[0] in keys[1..] ==> h[0] != keys[0];
    }
  }

  lemma {:induction false} GroupSizesAppendKey(hs: seq<Row>, keys: seq<string>, k: string)
    requires Keyed(hs)
    ensures GroupSizes(hs, keys + [k]) == GroupSizes(hs, keys) + |GroupOf(hs, k)|
  {
    if keys != [] {
      assert (keys + [k])[1..] == keys[1..] + [k];
      GroupSizesAppendKey(hs, keys[1..], k);
    }
  }

  /** Grouping loses and duplicates nothing: the group sizes add up to the number of holdings. */
  lemma {:induction false} GroupedCountsEveryHolding(hs: seq<Row>)
    requires Keyed(hs)
    ensures GroupSizes(hs, FirstOccurrences(hs)) == |hs|
  {
    if hs != [] {
      var n := |hs| - 1;
      var prefix, h := hs[..n], hs[n];
      assert hs == prefix + [h];
      GroupedCountsEveryHolding(prefix);
      var keys := FirstOccurrences(prefix);
      FirstOccurrencesSpec(prefix);
      GroupSizesStep(prefix, h, keys);
      if h[0] !in keys {
        GroupSizesAppendKey(hs, keys, h[0]);
        GroupOfAbsent(prefix, h[0]);
        assert GroupOf(hs, h[0]) == [h[1..]];
      }
    }
  }

  /** `g` is what grouping `hs` gives, with the map's keys being the listed keys. */
  ghost predicate GroupedAs(hs: seq<Row>, g: Groups)
    requires Keyed(hs)
  {
    && g.keys == FirstOccurrences(hs)
    && g.lots.Keys == (set k | k in g.keys)
    && forall k :: k in g.keys ==> g.lots[k] == GroupOf(hs, k)
  }

  /** Adding one row to a grouping: a new symbol becomes a key, a known one gets another lot. */
  lemma GroupedAsStep(hs: seq<Row>, h: Row, g: Groups, g': Groups)
    requires Keyed(hs) && |h| >= 1 && GroupedAs(hs, g)
    requires h[0] !in g.lots ==> g' == Groups(g.keys + [h[0]], g.lots[h[0] := [h[1..]]])
    requires h[0] in g.lots ==> g' == g.(lots := g.lots[h[0] := g.lots[h[0]] + [h[1..]]])
    ensures Keyed(hs + [h]) && GroupedAs(hs + [h], g')
  {
    var hs' := hs + [h];
    assert hs'[..|hs|] == hs;
    if h[0] !in g.lots {
      GroupOfAbsent(hs, h[0]);
    }
    forall k | k in g'.keys
      ensures g'.lots[k] == GroupOf(hs', k)
    {
      if k != h[0] {
        assert k in g.keys;
      }
    }
  }

  /**
   * `group_portfolio_holdings`: one pass over the holdings, opening a group at
   * a symbol's first row and appending the row without its symbol after that.
   */
  method GroupHoldings(hs: seq<Row>) returns (g: Groups)
    requires Keyed(hs)
    ensures g == Grouped(hs)
    ensures Distinct(g.keys) && g.lots.Keys == set k | k in g.keys
  {
    g := Groups([], map[]);
    var i := 0;
    while i < |hs|
      invariant 0 <= i <= |hs|
      invariant Keyed(hs[..i]) && GroupedAs(hs[..i], g)
    {
      var h := hs[i];
      var symbol := h[0];
      ghost var before := g;
      if symbol !in g.lots {
        g := Groups(g.keys + [symbol], g.lots[symbol := [h[1..]]]);
      } else {
        g := g.(lots := g.lots[symbol := g.lots[symbol] + [h[1..]]]);
      }
      GroupedAsStep(hs[..i], h, before, g);
      assert hs[..i] + [h] == hs[..i + 1];
      i := i + 1;
    }
    assert hs[..i] == hs;
    FirstOccurrencesSpec(hs);
  }


  // ---------------------------------------------------------------------------
  // Units of a clicked symbol
  // ---------------------------------------------------------------------------

  /** How a units cell is read: `int(...)`, None where it raises. */
  type UnitsReader = string -> Option<int>

  /**
   * Whole units over the rows of `symbol`, reading cell 3 with `read`;
   * a short row or an unreadable cell raises (None).
   */
  function ClickedUnitsBy(hs: seq<Row>, symbol: string, read: UnitsReader): Option<int>
    requires Keyed(hs)
  {
    if hs == [] then Some(0)
    else
      var n := |hs| - 1;
      var before := ClickedUnitsBy(hs[..n], symbol, read);
      if hs[n][0] != symbol then before
      else if before.None? || |hs[n]| < 4 then None
      else
        var u := read(hs[n][3]);
        if u.None? then None else Some(before.value + u.value)
  }

  /** The units of `handle_trending_stock_click`, read with `int(...)`. */
  function ClickedUnits(hs: seq<Row>, symbol: string): Option<int>
    requires Keyed(hs)
  {
    ClickedUnitsBy(hs, symbol, ParseInt)
  }

  /** Whole units over lots (rows without the symbol cell), reading lot cell 2 with `read`. */
  function LotUnitsBy(lots: seq<Row>, read: UnitsReader): Option<int> {
    if lots == [] then Some(0)
    else
      var n := |lots| - 1;
      var before := LotUnitsBy(lots[..n], read);
      if before.None? || |lots[n]| < 3 then None
      else
        var u := read(lots[n][2]);
        if u.None? then None else Some(before.value + u.value)
  }

  function LotUnits(lots: seq<Row>): Option<int> {
    LotUnitsBy(lots, ParseInt)
  }

  lemma LotUnitsBySnoc(lots: seq<Row>, lot: Row, read: UnitsReader)
    ensures var before := LotUnitsBy(lots, read);
            LotUnitsBy(lots + [lot], read) ==
            if before.None? || |lot| < 3 || read(lot[2]).None? then None
            else Some(before.value + read(lot[2]).value)
  {
    assert (lots + [lot])[..|lots|] == lots;
  }

  lemma {:induction false} ClickedUnitsByMatchGroup(hs: seq<Row>, symbol: string, read: UnitsReader)
    requires Keyed(hs)
    ensures ClickedUnitsBy(hs, symbol, read) == LotUnitsBy(GroupOf(hs, symbol), read)
  {
    if hs != [] {
      var n := |hs| - 1;
      ClickedUnitsByMatchGroup(hs[..n], symbol, read);
      var g := GroupOf(hs[..n], symbol);
      if hs[n][0] == symbol {
        var lot := hs[n][1..];
        LotUnitsBySnoc(g, lot, read);
        assert GroupOf(hs, symbol) == g + [lot];
        assert |lot| < 3 <==> |hs[n]| < 4;
        assert |lot| >= 3 ==> lot[2] == hs[n][3];
      } else {
        assert GroupOf(hs, symbol) == g;
      }
    }
  }

  /** The clicked symbol's units are counted over exactly the lots of its group. */
  lemma ClickedUnitsMatchGroup(hs: seq<Row>, symbol: string)
    requires Keyed(hs)
    ensures ClickedUnits(hs, symbol) == LotUnits(GroupOf(hs, symbol))
  {
    ClickedUnitsByMatchGroup(hs, symbol, ParseInt);
  }

  /**
   * `handle_trending_stock_click`: sums `int(units)` over the rows whose
   * symbol is the clicked one.
   */
  method CountUnits(hs: seq<Row>, symbol: string) returns (units: Option<int>)
    requires Keyed(hs)
    ensures units == LotUnits(GroupOf(hs, symbol))
  {
    var read: UnitsReader := ParseInt;
    var total := 0;
    var i := 0;
    while i < |hs|
      invariant 0 <= i <= |hs|
      invariant ClickedUnitsBy(hs[..i], symbol, read) == Some(total)
    {
      assert hs[..i + 1][..i] == hs[..i];
      var h := hs[i];
      if h[0] == symbol {
        if |h| < 4 {
          ClickedUnitsFailureSticks(hs, symbol, read, i + 1);
          ClickedUnitsMatchGroup(hs, symbol);
          return None;
        }
        var u := read(h[3]);
        if u.None? {
          ClickedUnitsFailureSticks(hs, symbol, read, i + 1);
          ClickedUnitsMatchGroup(hs, symbol);
          return None;
        }
        total := total + u.value;
      }
      i := i + 1;
    }
    assert hs[..i] == hs;
    ClickedUnitsMatchGroup(hs, symbol);
    units := Some(total);
  }

  lemma {:induction false} ClickedUnitsFailureSticks(hs: seq<Row>, symbol: string, read: UnitsReader, k: nat)
    requires Keyed(hs) && k <= |hs|
    requires ClickedUnitsBy(hs[..k], symbol, read).None?
    ensures ClickedUnitsBy(hs, symbol, read).None?
    decreases |hs| - k
  {
    if k < |hs| {
      assert hs[..k + 1][..k] == hs[..k];
      ClickedUnitsFailureSticks(hs, symbol, read, k + 1);
    } else {
      assert hs[..k] == hs;
    }
  }
}
