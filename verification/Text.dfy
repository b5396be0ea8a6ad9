/** Decimal text of unit counts: what is printed reads back as exactly what was printed, in the fewest characters. */
module Text {
  import opened Prelude
  import opened Amount

  predicate IsDigit(c: char) {
    '0' <= c <= '9'
  }

  predicate AllDigits(s: string) {
    forall i :: 0 <= i < |s| ==> IsDigit(s[i])
  }

  function DigitChar(n: nat): (c: char)
    requires n < 10
    ensures IsDigit(c)
  {
    '0' + n as char
  }

  function NumberOf(s: string): nat
    requires AllDigits(s)
  {
    if s == "" then 0 else NumberOf(s[..|s| - 1]) * 10 + (s[|s| - 1] - '0') as nat
  }

  function Digits(n: nat): string {
    if n < 10 then [DigitChar(n)] else Digits(n / 10) + [DigitChar(n % 10)]
  }

  function Zeros(n: nat): string {
    if n == 0 then "" else Zeros(n - 1) + "0"
  }

  /** Left-pads with zeros to a minimum width. */
  function Padded(s: string, width: nat): string {
    if |s| < width then Zeros(width - |s|) + s else s
  }

  function TrimEnd(s: string, c: char): string {
    if s != "" && s[|s| - 1] == c then TrimEnd(s[..|s| - 1], c) else s
  }

  function Shortened(s: string): string {
    TrimEnd(TrimEnd(s, '0'), '.')
  }

  /** The text a decimal is built from: whole units, a point, nine digits, then the zeros dropped. */
  function DecimalText(amount: nat): string {
    Shortened(Digits(amount / FACTOR) + "." + Padded(Digits(amount % FACTOR), SCALE))
  }

  /** The public text of a price level's quantity, which may exceed any decimal. */
  function QuantityText(units: nat): string {
    var text := if |Digits(units)| <= SCALE then Padded(Digits(units), SCALE + 1) else Digits(units);
    Shortened(text[..|text| - SCALE] + "." + text[|text| - SCALE..])
  }

  /** Where the point is, or the length of a text without one. */
  function PointAt(s: string): (p: nat)
    ensures p <= |s| && (p < |s| ==> s[p] == '.') && forall i :: 0 <= i < p ==> s[i] != '.'
  {
    if s == "" || s[0] == '.' then 0 else 1 + PointAt(s[1..])
  }

  /** Reads digits with an optional fraction, keeping every digit given. */
  function Parse(s: string): Option<Decimal> {
    var p := PointAt(s);
    var whole, fraction := s[..p], if p < |s| then s[p + 1..] else "";
    if whole != "" && (p < |s| ==> fraction != "") && AllDigits(whole + fraction)
    then Some(Decimal(NumberOf(whole + fraction), |fraction|)) else None
  }

  // ---------------------------------------------------------------- digits and numbers

  lemma {:induction false} NumberOfDigits(n: nat)
    ensures |Digits(n)| >= 1 && AllDigits(Digits(n)) && NumberOf(Digits(n)) == n
    ensures |Digits(n)| > 1 ==> Digits(n)[0] != '0'
    ensures n > 0 ==> Digits(n)[0] != '0'
  {
    if n >= 10 {
      NumberOfDigits(n / 10);
      assert Digits(n)[..|Digits(n)| - 1] == Digits(n / 10);
    }
  }

  lemma {:induction false} NumberOfJoin(a: string, b: string)
    requires AllDigits(a) && AllDigits(b)
    ensures AllDigits(a + b) && NumberOf(a + b) == NumberOf(a) * Pow10(|b|) + NumberOf(b)
    decreases |b|
  {
    if b == "" {
      assert a + b == a;
    } else {
      var k := |b| - 1;
      NumberOfJoin(a, b[..k]);
      LastOfJoin(a, b);
      Shift(NumberOf(a), Pow10(k), NumberOf(b[..k]), (b[k] - '0') as nat);
    }
  }

  lemma Shift(x: int, p: int, y: int, d: int)
    ensures (x * p + y) * 10 + d == x * (10 * p) + (y * 10 + d)
  {
  }

  lemma {:induction false} NumberBelow(s: string)
    requires AllDigits(s)
    ensures NumberOf(s) < Pow10(|s|)
  {
    if s != "" {
      NumberBelow(s[..|s| - 1]);
    }
  }

  lemma {:induction false} NumberOfZeros(n: nat)
    ensures |Zeros(n)| == n && AllDigits(Zeros(n)) && NumberOf(Zeros(n)) == 0
  {
    if n > 0 {
      NumberOfZeros(n - 1);
      assert Zeros(n)[..n - 1] == Zeros(n - 1);
    }
  }

  /** Texts of one length and one number are one text. */
  lemma {:induction false} SameNumberSameText(a: string, b: string)
    requires AllDigits(a) && AllDigits(b) && |a| == |b| && NumberOf(a) == NumberOf(b)
    ensures a == b
  {
    if a != "" {
      var k := |a| - 1;
      SameNumberSameText(a[..k], b[..k]);
      assert a == a[..k] + [a[k]] && b == b[..k] + [b[k]];
    }
  }

  /** No text of a number is shorter than its digits. */
  lemma {:induction false} DigitsAreShortest(s: string)
    requires AllDigits(s) && s != ""
    ensures |Digits(NumberOf(s))| <= |s|
    ensures |s| == 1 || s[0] != '0' ==> Digits(NumberOf(s)) == s
  {
    var k := |s| - 1;
    if k > 0 {
      DigitsAreShortest(s[..k]);
      assert NumberOf(s) / 10 == NumberOf(s[..k]);
      if s[0] != '0' {
        LeadingDigit(s[..k]);
        assert s == s[..k] + [s[k]];
      }
    } else {
      assert s[..k] == "";
      assert s == [s[0]];
    }
  }

  lemma {:induction false} LeadingDigit(s: string)
    requires AllDigits(s) && s != "" && s[0] != '0'
    ensures NumberOf(s) > 0
  {
    if |s| > 1 {
      LeadingDigit(s[..|s| - 1]);
    } else {
      assert s[..0] == "";
    }
  }

  // ---------------------------------------------------------------- the two printers agree

  /** A whole part without idle zeros, and nine fraction digits, of a unit count. */
  predicate Splits(n: nat, whole: string, fraction: string) {
    && AllDigits(whole) && AllDigits(fraction) && |fraction| == SCALE
    && whole == Digits(n / FACTOR) && NumberOf(fraction) == n % FACTOR
  }

  lemma NineZeros()
    ensures Pow10(SCALE) == FACTOR
  {
    assert Pow10(3) == 1000;
    PowSum(3, 3);
    PowSum(6, 3);
  }

  lemma PaddedNumber(r: nat)
    requires r < FACTOR
    ensures var s := Padded(Digits(r), SCALE); AllDigits(s) && |s| == SCALE && NumberOf(s) == r
  {
    hide Pow10;
    hide Digits;
    hide NumberOf;
    hide Zeros;
    NineZeros();
    var d := Digits(r);
    NumberOfDigits(r);
    FewDigits(r, SCALE);
    NumberOfZeros(SCALE - |d|);
    NumberOfJoin(Zeros(SCALE - |d|), d);
    assert Zeros(SCALE - |d|) + d == Padded(d, SCALE);
  }

  lemma PaddedFraction(n: nat)
    ensures Splits(n, Digits(n / FACTOR), Padded(Digits(n % FACTOR), SCALE))
  {
    hide Digits;
    hide NumberOf;
    hide Padded;
    NumberOfDigits(n / FACTOR);
    PaddedNumber(n % FACTOR);
  }

  lemma {:induction false} FewDigits(n: nat, k: nat)
    requires n < Pow10(k) && k >= 1
    ensures |Digits(n)| <= k
  {
    if n >= 10 {
      FewDigits(n / 10, k - 1);
    }
  }

  lemma CutText(n: nat, text: string)
    requires AllDigits(text) && |text| > SCALE && NumberOf(text) == n && (|text| == SCALE + 1 || text[0] != '0')
    ensures Splits(n, text[..|text| - SCALE], text[|text| - SCALE..])
  {
    NineZeros();
    var whole, fraction := text[..|text| - SCALE], text[|text| - SCALE..];
    assert text == whole + fraction;
    NumberOfJoin(whole, fraction);
    NumberBelow(fraction);
    assert n / FACTOR == NumberOf(whole) && n % FACTOR == NumberOf(fraction) by {
      Divide(NumberOf(whole), NumberOf(fraction));
    }
    DigitsAreShortest(whole);
  }

  lemma Divide(q: nat, r: nat)
    requires r < FACTOR
    ensures (q * FACTOR + r) / FACTOR == q && (q * FACTOR + r) % FACTOR == r
  {
  }

  lemma SplitIsUnique(n: nat, whole: string, fraction: string, whole': string, fraction': string)
    requires Splits(n, whole, fraction) && Splits(n, whole', fraction')
    ensures whole == whole' && fraction == fraction'
  {
    SameNumberSameText(fraction, fraction');
  }

  /** The text published for a quantity is the text its decimal would be built from. */
  lemma QuantityTextIsDecimalText(n: nat)
    ensures QuantityText(n) == DecimalText(n)
  {
    NumberOfDigits(n);
    var d := Digits(n);
    var text := if |d| <= SCALE then Padded(d, SCALE + 1) else d;
    if |d| <= SCALE {
      NumberOfZeros(SCALE + 1 - |d|);
      NumberOfJoin(Zeros(SCALE + 1 - |d|), d);
    }
    CutText(n, text);
    PaddedFraction(n);
    SplitIsUnique(n, text[..|text| - SCALE], text[|text| - SCALE..], Digits(n / FACTOR), Padded(Digits(n % FACTOR), SCALE));
  }

  // ---------------------------------------------------------------- reading back

  lemma {:induction false} TrimFraction(whole: string, fraction: string)
    ensures TrimEnd(whole + "." + fraction, '0') == whole + "." + TrimEnd(fraction, '0')
    decreases |fraction|
  {
    var s := whole + "." + fraction;
    if fraction == "" {
      assert s[|s| - 1] == '.';
    } else {
      var k := |fraction| - 1;
      assert s[|s| - 1] == fraction[k] && s[..|s| - 1] == whole + "." + fraction[..k];
      TrimFraction(whole, fraction[..k]);
    }
  }

  lemma {:induction false} TrimmedDigits(fraction: string)
    requires AllDigits(fraction)
    ensures var t := TrimEnd(fraction, '0'); AllDigits(t) && |t| <= |fraction| && (t != "" ==> t[|t| - 1] != '0')
  {
    if fraction != "" && fraction[|fraction| - 1] == '0' {
      TrimmedDigits(fraction[..|fraction| - 1]);
    }
  }

  /** What is left after the idle zeros, and the point when nothing follows it, are dropped. */
  function Joined(whole: string, fraction: string): string {
    if fraction == "" then whole else whole + "." + fraction
  }

  lemma ShortenedMeans(whole: string, fraction: string)
    requires AllDigits(whole) && AllDigits(fraction) && whole != ""
    ensures Shortened(whole + "." + fraction) == Joined(whole, TrimEnd(fraction, '0'))
  {
    TrimFraction(whole, fraction);
    TrimmedDigits(fraction);
    var t := TrimEnd(fraction, '0');
    var s := whole + "." + t;
    if t == "" {
      assert s[..|s| - 1] == whole && s[|s| - 1] == '.';
      assert IsDigit(whole[|whole| - 1]);
      assert TrimEnd(s, '.') == TrimEnd(whole, '.') == whole;
    } else {
      assert s[|s| - 1] == t[|t| - 1] && IsDigit(t[|t| - 1]);
    }
  }

  lemma {:induction false} PointAfter(whole: string, rest: string)
    requires AllDigits(whole) && (rest == "" || rest[0] == '.')
    ensures PointAt(whole + rest) == |whole|
  {
    if whole == "" {
      assert whole + rest == rest;
    } else {
      assert IsDigit(whole[0]);
      assert (whole + rest)[1..] == whole[1..] + rest;
      PointAfter(whole[1..], rest);
    }
  }

  lemma ParseJoined(whole: string, fraction: string)
    requires AllDigits(whole) && AllDigits(fraction) && whole != ""
    ensures AllDigits(whole + fraction)
    ensures Parse(Joined(whole, fraction)) == Some(Decimal(NumberOf(whole + fraction), |fraction|))
  {
    NumberOfJoin(whole, fraction);
    var rest := if fraction == "" then "" else "." + fraction;
    PointAfter(whole, rest);
    var s := Joined(whole, fraction);
    assert s == whole + rest;
    assert s[..|whole|] == whole;
    if fraction != "" {
      assert s[|whole| + 1..] == fraction;
    }
  }

  lemma AllDigitsJoin(a: string, b: string)
    requires AllDigits(a) && AllDigits(b)
    ensures AllDigits(a + b)
  {
  }

  lemma NormalizeStep(x: int, d: int, scale: nat)
    requires 0 <= d < 10 && scale > 0
    ensures Normalize(Decimal(x * 10 + d, scale)) == if d == 0 then Normalize(Decimal(x, scale - 1)) else Decimal(x * 10 + d, scale)
  {
    assert (x * 10 + d) % 10 == d && (x * 10 + d) / 10 == x;
  }

  /** Dropping the idle zeros of the text is normalizing the decimal. */
  lemma {:induction false} TrimNormalizes(whole: string, fraction: string)
    requires AllDigits(whole) && AllDigits(fraction)
    ensures AllDigits(whole + fraction) && AllDigits(whole + TrimEnd(fraction, '0'))
    ensures var t := TrimEnd(fraction, '0');
      Normalize(Decimal(NumberOf(whole + fraction), |fraction|)) == Decimal(NumberOf(whole + t), |t|)
    decreases |fraction|
  {
    TrimmedDigits(fraction);
    AllDigitsJoin(whole, fraction);
    AllDigitsJoin(whole, TrimEnd(fraction, '0'));
    if fraction != "" {
      var init, last := fraction[..|fraction| - 1], fraction[|fraction| - 1];
      LastOfJoin(whole, fraction);
      AllDigitsJoin(whole, init);
      assert NumberOf(whole + fraction) == NumberOf(whole + init) * 10 + (last - '0') as nat;
      NormalizeStep(NumberOf(whole + init), (last - '0') as nat, |fraction|);
      if last == '0' {
        TrimNormalizes(whole, init);
      }
    }
    hide NumberOf;
  }

  /** The whole part, and the fraction without its idle zeros, of a printed unit count. */
  lemma PrintedParts(n: nat) returns (whole: string, fraction: string)
    ensures AllDigits(whole) && AllDigits(fraction) && whole != "" && AllDigits(whole + fraction)
    ensures whole == Digits(n / FACTOR) && QuantityText(n) == Joined(whole, fraction)
    ensures Normalize(Decimal(n, SCALE)) == Decimal(NumberOf(whole + fraction), |fraction|)
  {
    hide Pow10;
    hide Digits;
    hide NumberOf;
    hide Normalize;
    QuantityTextIsDecimalText(n);
    PaddedFraction(n);
    NineZeros();
    whole := Digits(n / FACTOR);
    var nine := Padded(Digits(n % FACTOR), SCALE);
    fraction := TrimEnd(nine, '0');
    NumberOfDigits(n / FACTOR);
    ShortenedMeans(whole, nine);
    TrimmedDigits(nine);
    TrimNormalizes(whole, nine);
    NumberOfJoin(whole, nine);
    NumberOfJoin(whole, fraction);
  }

  /** Printing then reading is the identity, for every unit count and up to the idle zeros of its decimal. */
  lemma PrintedReadsBack(n: nat)
    ensures Parse(QuantityText(n)) == Some(Normalize(Decimal(n, SCALE)))
    ensures Parse(QuantityText(n)).value.mantissa * Pow10(SCALE) == n * Pow10(Parse(QuantityText(n)).value.scale)
  {
    hide Pow10;
    hide Digits;
    hide NumberOf;
    var whole, fraction := PrintedParts(n);
    ParseJoined(whole, fraction);
    var m := Normalize(Decimal(n, SCALE));
    NormalizeKeepsValue(Decimal(n, SCALE));
    PowSum(SCALE - m.scale, m.scale);
    Reassociate(m.mantissa, Pow10(SCALE - m.scale), Pow10(m.scale));
  }

  lemma Reassociate(x: int, p: int, q: int)
    ensures x * (p * q) == (x * p) * q
  {
  }

  /** Reads a text as a decimal, refusing one whose digits need more than 96 bits or 28 places. */
  function FromText(s: string): Result<Decimal> {
    match Parse(s)
    case Some(d) => if IsDecimal(d) then Ok(d) else Err(Unrepresentable)
    case None => Err(Unrepresentable)
  }

  /** Building a decimal from its text accepts exactly the representable unit counts, and loses nothing. */
  lemma DecimalIsReadFromItsText(n: nat)
    ensures FromText(DecimalText(n)) == DecimalOf(n)
  {
    QuantityTextIsDecimalText(n);
    PrintedReadsBack(n);
    NormalizeKeepsValue(Decimal(n, SCALE));
  }

  /** Different quantities never share a text. */
  lemma TextsAreDistinct(n: nat, m: nat)
    requires QuantityText(n) == QuantityText(m)
    ensures n == m
  {
    hide Normalize;
    hide Parse;
    hide QuantityText;
    PrintedReadsBack(n);
    PrintedReadsBack(m);
    Cancel(Pow10(Normalize(Decimal(n, SCALE)).scale), n, m);
  }

  // ---------------------------------------------------------------- nothing shorter means the same

  lemma EqualValuesNormalizeAlike(x: Decimal, y: Decimal)
    requires x.mantissa * Pow10(y.scale) == y.mantissa * Pow10(x.scale) && x.scale <= y.scale
    ensures Normalize(x) == Normalize(y)
  {
    hide Pow10;
    hide Normalize;
    var zeros := y.scale - x.scale;
    PowSum(zeros, x.scale);
    Reassociate(x.mantissa, Pow10(zeros), Pow10(x.scale));
    Cancel(Pow10(x.scale), x.mantissa * Pow10(zeros), y.mantissa);
    NormalizePadded(x.mantissa, x.scale, zeros);
    assert x.scale + zeros == y.scale;
  }

  /** The whole part of any text of the value is the whole part of the unit count. */
  lemma WholePart(w: nat, f: nat, p: nat, n: nat)
    requires f < p && (w * p + f) * FACTOR == n * p
    ensures w == n / FACTOR
  {
    assert (w * FACTOR) * p <= n * p < ((w + 1) * FACTOR) * p;
    CancelOrder(p, w * FACTOR, n);
    CancelOrder(p, (w + 1) * FACTOR, n);
  }

  lemma CancelOrder(p: nat, x: int, y: int)
    requires p > 0
    ensures x * p <= y * p <==> x <= y
  {
    if x <= y {
      ProductSign(y - x, p);
    } else {
      ProductSign(x - y, p);
    }
    assert (x - y) * p == x * p - y * p;
  }

  lemma AllDigitsParts(a: string, b: string)
    requires AllDigits(a + b)
    ensures AllDigits(a) && AllDigits(b)
  {
    forall i | 0 <= i < |a| ensures IsDigit(a[i]) {
      assert (a + b)[i] == a[i];
    }
    forall i | 0 <= i < |b| ensures IsDigit(b[i]) {
      assert (a + b)[|a| + i] == b[i];
    }
  }

  /** Every text that reads as the same value is at least as long as the one printed. */
  lemma PrintedIsShortest(n: nat, s: string)
    requires Parse(s).Some? && Parse(s).value.mantissa * Pow10(SCALE) == n * Pow10(Parse(s).value.scale)
    ensures |QuantityText(n)| <= |s|
  {
    NineZeros();
    var d, p := Parse(s).value, PointAt(s);
    var whole, fraction := s[..p], if p < |s| then s[p + 1..] else "";
    hide Pow10;
    hide Digits;
    hide NumberOf;
    hide QuantityText;
    hide Normalize;
    AllDigitsParts(whole, fraction);
    NumberOfJoin(whole, fraction);
    NumberBelow(fraction);
    WholePart(NumberOf(whole), NumberOf(fraction), Pow10(|fraction|), n);
    DigitsAreShortest(whole);
    var whole', fraction' := PrintedParts(n);
    if d.scale <= SCALE {
      EqualValuesNormalizeAlike(d, Decimal(n, SCALE));
    } else {
      EqualValuesNormalizeAlike(Decimal(n, SCALE), d);
    }
    NormalizeKeepsValue(d);
  }

  // ---------------------------------------------------------------- as it is computed

  /** Edits a local text: pads, inserts the point, then drops zeros and the point from the end. */
  method PrintQuantity(units: nat) returns (text: string)
    ensures text == QuantityText(units)
  {
    text := Digits(units);
    if |text| <= SCALE {
      text := Padded(text, SCALE + 1);
      NumberOfZeros(SCALE + 1 - |Digits(units)|);
    }
    text := text[..|text| - SCALE] + "." + text[|text| - SCALE..];
    ghost var full := text;
    while text != "" && text[|text| - 1] == '0'
      invariant TrimEnd(text, '0') == TrimEnd(full, '0')
      decreases |text|
    {
      text := text[..|text| - 1];
    }
    while text != "" && text[|text| - 1] == '.'
      invariant TrimEnd(text, '.') == Shortened(full)
      decreases |text|
    {
      text := text[..|text| - 1];
    }
  }
}
