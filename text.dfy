/**
 * The text-to-number conversions the application applies to form fields and
 * stored rows: Python's `float(...)`, `int(...)` and `str.isalnum()`, restricted
 * to plain ASCII decimal notation.
 */
module Text {
  import opened Common

  predicate IsDigit(c: char) { '0' <= c <= '9' }

  predicate IsAsciiLetter(c: char) { 'a' <= c <= 'z' || 'A' <= c <= 'Z' }

  predicate AllDigits(s: string) {
    forall i :: 0 <= i < |s| ==> IsDigit(s[i])
  }

  /** `s.isalnum()`: at least one character, and every character a letter or a digit. */
  predicate IsAlnum(s: string) {
    |s| > 0 && forall i :: 0 <= i < |s| ==> IsDigit(s[i]) || IsAsciiLetter(s[i])
  }

  function DigitValue(c: char): (d: nat)
    requires IsDigit(c)
    ensures d < 10
  {
    c as int - '0' as int
  }

  /** The value of a run of decimal digits, most significant first. */
  function DigitsValue(s: string): nat
    requires AllDigits(s)
  {
    if s == [] then 0 else DigitsValue(s[..|s| - 1]) * 10 + DigitValue(s[|s| - 1])
  }

  function Pow10(n: nat): (p: nat)
    ensures p >= 1
  {
    if n == 0 then 1 else 10 * Pow10(n - 1)
  }

  /** n / 10^k: the value of k fraction digits that read n as a whole number. */
  function Shifted(n: nat, k: nat): real {
    if k == 0 then n as real else Shifted(n, k - 1) / 10.0
  }

  lemma {:induction false} ShiftedIsQuotient(n: nat, k: nat)
    ensures Shifted(n, k) == n as real / Pow10(k) as real
  {
    if k > 0 {
      ShiftedIsQuotient(n, k - 1);
    }
  }

  /** The value of the digits `whole`, a decimal point, and the digits `fraction`. */
  function DecimalValue(whole: string, fraction: string): real
    requires AllDigits(whole) && AllDigits(fraction)
  {
    DigitsValue(whole) as real + Shifted(DigitsValue(fraction), |fraction|)
  }

  predicate HasSign(s: string) { |s| > 0 && (s[0] == '-' || s[0] == '+') }

  function Unsigned(s: string): string {
    if HasSign(s) then s[1..] else s
  }

  function SignedBy(negative: bool, magnitude: real): real {
    if negative then -magnitude else magnitude
  }

  function Signed(s: string, magnitude: real): real {
    if |s| > 0 && s[0] == '-' then -magnitude else magnitude
  }

  /** Index of the first occurrence of `c` in `s`, or |s| when there is none. */
  function IndexOf(s: string, c: char): (k: nat)
    ensures k <= |s|
    ensures k < |s| ==> s[k] == c
    ensures forall j :: 0 <= j < k ==> s[j] != c
  {
    if s == [] then 0
    else if s[0] == c then 0
    else 1 + IndexOf(s[1..], c)
  }

  /**
   * The text before the first decimal point and the text after it; with no
   * point, all of the text and nothing.
   */
  function PointSplit(body: string): (r: (string, string))
    ensures '.' !in r.0
    ensures body == r.0 || body == r.0 + "." + r.1
    ensures body == r.0 ==> r.1 == []
  {
    var k := IndexOf(body, '.');
    if k < |body| then
      assert body == body[..k] + "." + body[k + 1..];
      (body[..k], body[k + 1..])
    else
      assert body[..k] == body;
      (body, [])
  }

  /** The number syntax `int()` reads once white space is gone: an optional sign, then digits. */
  function ReadInt(t: string): (r: Option<int>)
    ensures r.Some? <==> |Unsigned(t)| > 0 && AllDigits(Unsigned(t))
  {
    var body := Unsigned(t);
    if |body| > 0 && AllDigits(body) then
      var n: int := DigitsValue(body);
      Some(if |t| > 0 && t[0] == '-' then -n else n)
    else None
  }

  /**
   * The number syntax `float()` reads once white space is gone: an optional
   * sign, then digits with at most one decimal point and at least one digit
   * in all.
   */
  function ReadNumber(t: string): (r: Option<real>)
    ensures r.Some? ==> |t| > 0
  {
    var (whole, fraction) := PointSplit(Unsigned(t));
    if AllDigits(whole) && AllDigits(fraction) && |whole| + |fraction| > 0 then
      Some(Signed(t, DecimalValue(whole, fraction)))
    else None
  }

  /** `int(s)`: surrounding white space is dropped; anything else raises ValueError (None). */
  function ParseInt(s: string): (r: Option<int>)
    ensures r.Some? <==> |Unsigned(Strip(s))| > 0 && AllDigits(Unsigned(Strip(s)))
  {
    ReadInt(Strip(s))
  }

  /** `float(s)`: surrounding white space is dropped; anything else raises ValueError (None). */
  function ParseNumber(s: string): (r: Option<real>)
    ensures r.Some? ==> |Strip(s)| > 0
  {
    ReadNumber(Strip(s))
  }

  /** Every string `int()` accepts is accepted by `float()`, with the same value. */
  lemma ParseIntThenNumber(s: string)
    requires ParseInt(s).Some?
    ensures ParseNumber(s) == Some(ParseInt(s).value as real)
  {
    var body := Unsigned(Strip(s));
    var k := IndexOf(body, '.');
    assert body[..k] == body;
  }

  /** A number with a decimal point is refused by `int()` yet accepted by `float()`. */
  lemma FractionalUnitsRefusedByInt()
    ensures ParseNumber("2.5") == Some(2.5)
    ensures ParseInt("2.5") == None
  {
    var s := "2.5";
    StripKeepsTrimmed(s);
    assert Unsigned(s) == s;
    assert IndexOf(s, '.') == 1;
    assert s[..1] == "2" && s[2..] == "5";
    assert DigitsValue("2") == 2 by { assert "2"[..0] == []; }
    assert DigitsValue("5") == 5 by { assert "5"[..0] == []; }
    assert !IsDigit(s[1]);
  }

  /** White space around a number is ignored by `int()` and by `float()`. */
  lemma SurroundingSpaceIgnored(s: string)
    ensures ParseInt(" " + s + " ") == ParseInt(s)
    ensures ParseNumber(" " + s + " ") == ParseNumber(s)
  {
    StripDropsPadding(s);
    ParsersReadOnlyStrip(" " + s + " ", s);
  }

  /** Both parsers look at nothing but the stripped text. */
  lemma ParsersReadOnlyStrip(x: string, y: string)
    requires Strip(x) == Strip(y)
    ensures ParseInt(x) == ParseInt(y)
    ensures ParseNumber(x) == ParseNumber(y)
  {
  }

  lemma StripDropsPadding(s: string)
    ensures Strip(" " + s + " ") == Strip(s)
  {
    var padded := " " + s + " ";
    assert padded[1..] == s + " ";
    assert TrimStart(padded) == TrimStart(s + " ");
    TrimStartSpaceEnd(s);
  }

  lemma {:induction false} TrimStartSpaceEnd(s: string)
    ensures TrimEnd(TrimStart(s + " ")) == TrimEnd(TrimStart(s))
  {
    if |s| > 0 && IsSpace(s[0]) {
      assert (s + " ")[1..] == s[1..] + " ";
      TrimStartSpaceEnd(s[1..]);
    } else if |s| > 0 {
      assert (s + " ")[..|s + " "| - 1] == s;
    } else {
      assert TrimStart(" ") == [];
    }
  }

  // ---------------------------------------------------------------------------
  // Decimal notation, the text the parsers read
  // ---------------------------------------------------------------------------

  function DigitChar(d: nat): (c: char)
    requires d < 10
    ensures IsDigit(c)
  {
    ('0' as int + d) as char
  }

  /** The decimal digits of a natural number, without leading zeros. */
  function Digits(n: nat): (s: string)
    ensures |s| > 0 && AllDigits(s)
  {
    if n < 10 then [DigitChar(n)] else Digits(n / 10) + [DigitChar(n % 10)]
  }

  /** The last k decimal digits of n, padded with leading zeros to width k. */
  function Padded(n: nat, k: nat): (s: string)
    ensures |s| == k && AllDigits(s)
  {
    if k == 0 then [] else Padded(n / 10, k - 1) + [DigitChar(n % 10)]
  }

  /** How Python writes an integer: a minus sign for negatives, then its digits. */
  function Decimal(n: int): string {
    if n < 0 then "-" + Digits(-n) else Digits(n)
  }

  lemma {:induction false} DigitsValueOfDigits(n: nat)
    ensures DigitsValue(Digits(n)) == n
  {
    var s := Digits(n);
    if n >= 10 {
      DigitsValueOfDigits(n / 10);
      assert s[..|s| - 1] == Digits(n / 10);
    } else {
      assert s[..0] == [];
    }
  }

  lemma {:induction false} DigitsValueOfPadded(n: nat, k: nat)
    requires n < Pow10(k)
    ensures DigitsValue(Padded(n, k)) == n
  {
    if k > 0 {
      var s := Padded(n, k);
      var q, r := n / 10, n % 10;
      assert n == 10 * q + r;
      assert q < Pow10(k - 1);
      DigitsValueOfPadded(q, k - 1);
      assert s[..|s| - 1] == Padded(q, k - 1);
      assert DigitValue(s[|s| - 1]) == r;
    }
  }

  lemma NoSpaceAtEnds(s: string)
    requires |s| > 0 && (IsDigit(s[0]) || s[0] == '-') && (IsDigit(s[|s| - 1]) || s[|s| - 1] == '.')
    ensures Strip(s) == s
  {
    StripKeepsTrimmed(s);
  }

  /** `int()` reads back every integer as Python writes it. */
  lemma ParseIntRoundTrip(n: int)
    ensures ParseInt(Decimal(n)) == Some(n)
  {
    var s := Decimal(n);
    var m: nat := if n < 0 then -n else n;
    NoSpaceAtEnds(s);
    DigitsValueOfDigits(m);
    assert Unsigned(s) == Digits(m);
  }

  lemma {:induction false} IndexOfAfter(a: string, c: char, rest: string)
    requires forall i :: 0 <= i < |a| ==> a[i] != c
    ensures IndexOf(a + [c] + rest, c) == |a|
  {
    if a != [] {
      assert (a + [c] + rest)[1..] == a[1..] + [c] + rest;
      IndexOfAfter(a[1..], c, rest);
    }
  }

  /** The reader of `float()` on text whose unsigned part is digits, a point and digits. */
  lemma ReadNumberSplits(t: string, whole: string, fraction: string)
    requires Unsigned(t) == whole + "." + fraction
    requires AllDigits(whole) && AllDigits(fraction) && |whole| + |fraction| > 0
    ensures ReadNumber(t) ==
            Some(Signed(t, DecimalValue(whole, fraction)))
  {
    PointSplits(whole, fraction);
  }

  lemma UnsignedDropsSign(sign: string, body: string)
    requires sign == "" || sign == "-"
    requires |body| > 0 && IsDigit(body[0])
    ensures Unsigned(sign + body) == body
  {
    if sign == "-" {
      assert (sign + body)[1..] == body;
    } else {
      assert sign + body == body;
    }
  }

  /** The first point of `whole + "." + fraction`, for an all-digit whole, splits it back into its parts. */
  lemma PointSplits(whole: string, fraction: string)
    requires AllDigits(whole)
    ensures PointSplit(whole + "." + fraction) == (whole, fraction)
  {
    var body := whole + "." + fraction;
    assert body == whole + ['.'] + fraction;
    IndexOfAfter(whole, '.', fraction);
    assert body[..|whole|] == whole;
    assert body[|whole| + 1..] == fraction;
  }

  lemma RenderedNumberIsStripped(sign: string, whole: string, fraction: string)
    requires sign == "" || sign == "-"
    requires |whole| > 0 && AllDigits(whole) && AllDigits(fraction)
    ensures var s := sign + whole + "." + fraction;
            Strip(s) == s && s == sign + (whole + "." + fraction)
  {
    var s := sign + whole + "." + fraction;
    assert s == sign + (whole + "." + fraction);
    assert s[|s| - 1] == (if |fraction| == 0 then '.' else fraction[|fraction| - 1]);
    assert s[0] == (if sign == "-" then '-' else whole[0]);
    NoSpaceAtEnds(s);
  }

  /** The reader of `float()` on a sign ("" or "-"), digits, a point and digits. */
  lemma ReadNumberOfParts(sign: string, whole: string, fraction: string)
    requires sign == "" || sign == "-"
    requires |whole| > 0 && AllDigits(whole) && AllDigits(fraction)
    ensures ReadNumber(sign + whole + "." + fraction) ==
            Some(SignedBy(sign == "-", DecimalValue(whole, fraction)))
  {
    var body := whole + "." + fraction;
    var s := sign + whole + "." + fraction;
    assert Unsigned(s) == body && (s[0] == '-' <==> sign == "-") by {
      assert s == sign + body;
      UnsignedDropsSign(sign, body);
    }
    ReadNumberSplits(s, whole, fraction);
  }

  /** `float()` of a sign ("" or "-"), digits, a point and digits. */
  lemma ParseNumberOfParts(sign: string, whole: string, fraction: string)
    requires sign == "" || sign == "-"
    requires |whole| > 0 && AllDigits(whole) && AllDigits(fraction)
    ensures ParseNumber(sign + whole + "." + fraction) ==
            Some(SignedBy(sign == "-", DecimalValue(whole, fraction)))
  {
    RenderedNumberIsStripped(sign, whole, fraction);
    ReadNumberOfParts(sign, whole, fraction);
  }

  lemma DecimalValueOfRendered(w: nat, f: nat, k: nat)
    requires f < Pow10(k)
    ensures DecimalValue(Digits(w), Padded(f, k)) == w as real + f as real / Pow10(k) as real
  {
    DigitsValueOfDigits(w);
    DigitsValueOfPadded(f, k);
    ShiftedIsQuotient(f, k);
  }

  /**
   * `float()` reads back a decimal with k fraction digits: the whole part w,
   * a point, and f written with k digits give w + f / 10^k, negated after a
   * minus sign.
   */
  lemma ParseNumberRoundTrip(negative: bool, w: nat, f: nat, k: nat)
    requires f < Pow10(k)
    ensures ParseNumber((if negative then "-" else "") + Digits(w) + "." + Padded(f, k)) ==
            Some(SignedBy(negative, DecimalValue(Digits(w), Padded(f, k))))
    ensures DecimalValue(Digits(w), Padded(f, k)) == w as real + f as real / Pow10(k) as real
  {
    var sign: string := if negative then "-" else "";
    ParseNumberOfParts(sign, Digits(w), Padded(f, k));
    DecimalValueOfRendered(w, f, k);
  }

  // ---------------------------------------------------------------------------
  // str.strip()
  // ---------------------------------------------------------------------------

  /** The ASCII characters `str.isspace()` accepts. */
  predicate IsSpace(c: char) {
    c == ' ' || '\t' <= c <= '\r' || '\U{1c}' <= c <= '\U{1f}'
  }

  /** `s.lstrip()`: the suffix left once leading white space is removed. */
  function TrimStart(s: string): (r: string)
    ensures |r| <= |s| && r == s[|s| - |r|..]
    ensures r == [] || !IsSpace(r[0])
    ensures forall i :: 0 <= i < |s| - |r| ==> IsSpace(s[i])
  {
    if |s| > 0 && IsSpace(s[0]) then TrimStart(s[1..]) else s
  }

  /** `s.rstrip()`: the prefix left once trailing white space is removed. */
  function TrimEnd(s: string): (r: string)
    ensures |r| <= |s| && r == s[..|r|]
    ensures r == [] || !IsSpace(r[|r| - 1])
    ensures forall i :: |r| <= i < |s| ==> IsSpace(s[i])
  {
    if |s| > 0 && IsSpace(s[|s| - 1]) then TrimEnd(s[..|s| - 1]) else s
  }

  /** `s.strip()`. */
  function Strip(s: string): string {
    TrimEnd(TrimStart(s))
  }

  /** Stripping is idempotent: a stripped string has nothing left to strip. */
  lemma StripIdempotent(s: string)
    ensures Strip(Strip(s)) == Strip(s)
  {
    var r := Strip(s);
    assert TrimStart(r) == r;
    assert TrimEnd(r) == r;
  }

  /** A string that neither starts nor ends with white space is its own strip. */
  lemma StripKeepsTrimmed(s: string)
    requires s == [] || (!IsSpace(s[0]) && !IsSpace(s[|s| - 1]))
    ensures Strip(s) == s
  {
  }
}
