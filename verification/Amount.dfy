/**
 Exact money. An amount is a whole number of 1e-9 units; every operation fails instead
 of rounding. Decimals are modelled once, here, to show that a decimal accepted by the
 engine and its unit count determine each other; the layers above work on unit counts.
 */
module Amount {
  import opened Prelude

  const SCALE: nat := 9
  const FACTOR: int := 1_000_000_000
  const MAX_UNITS: int := 999_999_999_999_999_999_999_999_999_999
  const MANTISSA_LIMIT: int := 0x1_0000_0000_0000_0000_0000_0000
  const MAX_DECIMAL_SCALE: nat := 28

  // ---------------------------------------------------------------- decimals

  /** The value mantissa / 10^scale. */
  datatype Decimal = Decimal(mantissa: int, scale: nat)

  predicate IsDecimal(d: Decimal) {
    -MANTISSA_LIMIT < d.mantissa < MANTISSA_LIMIT && d.scale <= MAX_DECIMAL_SCALE
  }

  function Pow10(n: nat): (r: int)
    ensures r > 0
  {
    if n == 0 then 1 else 10 * Pow10(n - 1)
  }

  /** Drops trailing fractional zeros. */
  function Normalize(d: Decimal): Decimal
    decreases d.scale
  {
    if d.scale > 0 && d.mantissa % 10 == 0 then Normalize(Decimal(d.mantissa / 10, d.scale - 1)) else d
  }

  function UnitsOfDecimal(d: Decimal): Result<int> {
    var n := Normalize(d);
    var _ :- Ensure(n.mantissa >= 0 && n.scale <= SCALE, Precision);
    var amount := n.mantissa * Pow10(SCALE - n.scale);
    var _ :- Ensure(amount <= MAX_UNITS, Range);
    Ok(amount)
  }

  /** Whether a unit count can be stored in a decimal: its shortest mantissa fits 96 bits. */
  predicate Rep(amount: int) {
    0 <= amount && Normalize(Decimal(amount, SCALE)).mantissa < MANTISSA_LIMIT
  }

  function DecimalOf(amount: int): Result<Decimal> {
    if Rep(amount) then Ok(Normalize(Decimal(amount, SCALE))) else Err(Unrepresentable)
  }

  lemma {:induction false} PowSum(a: nat, b: nat)
    ensures Pow10(a + b) == Pow10(a) * Pow10(b)
  {
    if a > 0 {
      PowSum(a - 1, b);
    }
  }

  /** Normalizing keeps the value and leaves no fractional zero behind. */
  lemma {:induction false} NormalizeKeepsValue(d: Decimal)
    ensures var n := Normalize(d);
      n.scale <= d.scale && n.mantissa * Pow10(d.scale - n.scale) == d.mantissa
      && (n.scale > 0 ==> n.mantissa % 10 != 0) && (d.mantissa >= 0 ==> 0 <= n.mantissa <= d.mantissa)
      && (d.mantissa < 0 ==> n.mantissa < 0)
    decreases d.scale
  {
    if d.scale > 0 && d.mantissa % 10 == 0 {
      var e := Decimal(d.mantissa / 10, d.scale - 1);
      NormalizeKeepsValue(e);
      var n := Normalize(e);
      assert Pow10(d.scale - n.scale) == 10 * Pow10(e.scale - n.scale);
      assert n.mantissa * Pow10(d.scale - n.scale) == 10 * (n.mantissa * Pow10(e.scale - n.scale));
    }
  }

  lemma {:induction false} NormalizePadded(mantissa: int, scale: nat, zeros: nat)
    ensures Normalize(Decimal(mantissa * Pow10(zeros), scale + zeros)) == Normalize(Decimal(mantissa, scale))
  {
    if zeros > 0 {
      NormalizePadded(mantissa, scale, zeros - 1);
      TenTimes(mantissa, Pow10(zeros - 1));
    }
  }

  lemma TenTimes(x: int, y: int)
    ensures x * (10 * y) % 10 == 0 && x * (10 * y) / 10 == x * y
  {
    assert x * (10 * y) == 10 * (x * y);
  }

  /** Every count that has a decimal is read back unchanged, and exactly the representable ones have one. */
  lemma UnitsOfDecimalOf(amount: int)
    requires 0 <= amount <= MAX_UNITS
    ensures DecimalOf(amount).Ok? <==> Rep(amount)
    ensures Rep(amount) ==> IsDecimal(DecimalOf(amount).value) && UnitsOfDecimal(DecimalOf(amount).value) == Ok(amount)
  {
    var n := Normalize(Decimal(amount, SCALE));
    NormalizeKeepsValue(Decimal(amount, SCALE));
    assert Normalize(n) == n;
  }

  /** Every decimal accepted as units has a representable count, and the count gives the decimal back. */
  lemma DecimalOfUnits(d: Decimal)
    requires IsDecimal(d) && UnitsOfDecimal(d).Ok?
    ensures Rep(UnitsOfDecimal(d).value) && DecimalOf(UnitsOfDecimal(d).value) == Ok(Normalize(d))
  {
    var n := Normalize(d);
    NormalizeKeepsValue(d);
    assert n.mantissa < MANTISSA_LIMIT;
    var zeros := SCALE - n.scale;
    NormalizePadded(n.mantissa, n.scale, zeros);
    assert Normalize(Decimal(n.mantissa, n.scale)) == n;
    ProductSign(n.mantissa, Pow10(zeros));
    assert n.scale + zeros == SCALE;
  }

  /** The decimals accepted are exactly those whose value is a whole, nonnegative, in-range number of units. */
  lemma UnitsAcceptsExactlyWholeUnits(d: Decimal, amount: int)
    ensures UnitsOfDecimal(d) == Ok(amount)
       <==> 0 <= amount <= MAX_UNITS && d.mantissa * Pow10(SCALE) == amount * Pow10(d.scale)
  {
    hide Pow10;
    var n := Normalize(d);
    NormalizeKeepsValue(d);
    PowSum(d.scale - n.scale, n.scale);
    CommonFactor(Pow10(d.scale - n.scale), n.mantissa, Pow10(SCALE), amount, Pow10(n.scale));
    if n.scale <= SCALE {
      CoarseEnough(n, amount);
    } else {
      TooFine(n, amount);
    }
  }

  lemma CoarseEnough(n: Decimal, amount: int)
    requires n.scale <= SCALE
    ensures n.mantissa * Pow10(SCALE) == amount * Pow10(n.scale) <==> n.mantissa * Pow10(SCALE - n.scale) == amount
    ensures n.mantissa < 0 ==> n.mantissa * Pow10(SCALE - n.scale) < 0
  {
    var zeros := SCALE - n.scale;
    PowSum(zeros, n.scale);
    CommonFactor(Pow10(n.scale), n.mantissa, Pow10(zeros), amount, 1);
    ProductNegative(n.mantissa, Pow10(zeros));
  }

  /** A normalized decimal with more than nine places is not a whole number of units. */
  lemma TooFine(n: Decimal, amount: int)
    requires n.scale > SCALE && n.mantissa % 10 != 0
    ensures n.mantissa * Pow10(SCALE) != amount * Pow10(n.scale)
  {
    var extra := n.scale - SCALE;
    PowSum(extra, SCALE);
    CommonFactor(Pow10(SCALE), n.mantissa, 1, amount, Pow10(extra));
    assert amount * (10 * Pow10(extra - 1)) == 10 * (amount * Pow10(extra - 1));
  }

  lemma ProductNegative(x: int, y: int)
    requires y > 0
    ensures x < 0 ==> x * y < 0
    ensures x >= 0 ==> x * y >= 0
  {
  }

  lemma CommonFactor(f: int, x: int, p: int, y: int, q: int)
    requires f > 0
    ensures (x * f) * p == y * (f * q) <==> x * p == y * q
    ensures x * (p * f) == y * (f * q) <==> x * p == y * q
  {
    assert (x * f) * p == f * (x * p) && x * (p * f) == f * (x * p) && y * (f * q) == f * (y * q);
    Cancel(f, x * p, y * q);
  }

  lemma Cancel(f: int, x: int, y: int)
    requires f > 0
    ensures f * x == f * y <==> x == y
  {
    if x < y {
      assert f * (y - x) > 0;
    } else if x > y {
      assert f * (x - y) > 0;
    }
  }

  lemma ZeroIsStorable()
    ensures Rep(0)
  {
    NormalizeKeepsValue(Decimal(0, SCALE));
  }

  // ---------------------------------------------------------------- operations on unit counts

  function Units(value: int): Result<int> {
    if value < 0 then Err(Precision) else if value > MAX_UNITS then Err(Range) else Ok(value)
  }

  predicate InUnits(value: int) {
    0 <= value <= MAX_UNITS
  }

  function Stored(amount: int): Result<int> {
    if Rep(amount) then Ok(amount) else Err(Unrepresentable)
  }

  function Quote(price: int, amount: int): Result<int> {
    var p :- Units(price);
    var a :- Units(amount);
    var _ :- Ensure(p * a % FACTOR == 0, Rounding);
    var value := p * a / FACTOR;
    var _ :- Ensure(value <= MAX_UNITS, Range);
    Stored(value)
  }

  function Add(left: int, right: int): Result<int> {
    var l :- Units(left);
    var r :- Units(right);
    var _ :- Ensure(l + r <= MAX_UNITS, Range);
    Stored(l + r)
  }

  function Subtract(left: int, right: int): Result<int> {
    var l :- Units(left);
    var r :- Units(right);
    var _ :- Ensure(l - r >= 0, Negative);
    Stored(l - r)
  }

  /** Truncates below one unit; the rate is below one with at most six decimal places. */
  function Fee(received: int, rate: int): Result<int> {
    var _ :- Ensure(rate < FACTOR && rate % 1000 == 0, BadRate);
    var amount :- Units(received);
    var r :- Units(rate);
    Stored(amount * r / FACTOR)
  }

  /** The value of a trade once it is known to be exact. */
  function Value(price: int, amount: int): int {
    price * amount / FACTOR
  }

  predicate Exact(price: int, amount: int) {
    price * amount % FACTOR == 0
  }

  lemma QuoteMeaning(price: int, amount: int)
    requires Quote(price, amount).Ok?
    ensures 0 <= price <= MAX_UNITS && 0 <= amount <= MAX_UNITS && Exact(price, amount)
    ensures Quote(price, amount).value == Value(price, amount) && 0 <= Value(price, amount) <= MAX_UNITS
    ensures Rep(Value(price, amount))
    ensures price > 0 && amount > 0 ==> Value(price, amount) > 0
  {
    ProductSign(price, amount);
  }

  lemma ProductSign(x: int, y: int)
    requires x >= 0 && y >= 0
    ensures x * y >= 0 && (x > 0 && y > 0 ==> x * y > 0)
  {
  }

  /** A fee never exceeds what is received, so a received amount never turns negative. */
  lemma FeeMeaning(received: int, rate: int)
    requires Fee(received, rate).Ok?
    ensures 0 <= Fee(received, rate).value <= received && 0 <= rate < FACTOR
    ensures received > 0 ==> Fee(received, rate).value < received
    ensures Fee(received, rate).value * FACTOR <= received * rate < (Fee(received, rate).value + 1) * FACTOR
  {
    ProductSign(received, rate);
    assert received * (FACTOR - rate) >= 0 by {
      ProductSign(received, FACTOR - rate);
    }
    if received > 0 {
      ProductSign(received, FACTOR - rate);
      assert received * rate < received * FACTOR;
    }
  }

  /** Exact values add up: splitting a quantity splits its value. */
  lemma ExactSplit(price: int, amount: int, part: int)
    requires Exact(price, part)
    ensures Exact(price, amount) <==> Exact(price, amount - part)
    ensures Value(price, amount) == Value(price, part) + Value(price, amount - part)
  {
    assert price * amount == price * part + price * (amount - part);
    DivisibleSum(price * part, price * (amount - part));
  }

  lemma DivisibleSum(x: int, y: int)
    requires x % FACTOR == 0
    ensures (x + y) % FACTOR == 0 <==> y % FACTOR == 0
    ensures (x + y) / FACTOR == x / FACTOR + y / FACTOR
  {
  }

  // ---------------------------------------------------------------- greatest exact quantity for a budget

  /** The value the remainder loop converges to. */
  function Gcd(a: nat, b: nat): nat
    decreases a
  {
    if a == 0 then b else Gcd(b % a, a)
  }

  lemma {:induction false} GcdDivides(a: nat, b: nat) returns (i: nat, j: nat)
    requires b > 0
    ensures Gcd(a, b) > 0 && a == Gcd(a, b) * i && b == Gcd(a, b) * j
    decreases a
  {
    if a == 0 {
      i, j := 0, 1;
    } else {
      var k, l := GcdDivides(b % a, a);
      i, j := l, b / a * l + k;
      assert b == b / a * a + b % a by { DivisionBounds(b, a); }
      Regroup(Gcd(a, b), b / a, l, k);
    }
  }

  lemma Regroup(g: int, q: int, l: int, k: int)
    ensures g * (q * l + k) == q * (g * l) + g * k
  {
  }

  lemma {:induction false} Bezout(a: nat, b: nat) returns (x: int, y: int)
    requires b > 0
    ensures Gcd(a, b) == x * a + y * b
    decreases a
  {
    if a == 0 {
      x, y := 0, 1;
    } else {
      var u, v := Bezout(b % a, a);
      x, y := v - u * (b / a), u;
      BackSubstitute(u, v, a, b, b / a, b % a);
    }
  }

  lemma BackSubstitute(u: int, v: int, a: int, b: int, q: int, r: int)
    requires b == q * a + r
    ensures u * r + v * a == (v - u * q) * a + u * b
  {
    assert u * b == u * q * a + u * r;
  }

  lemma MultipleOf(x: int, d: int, k: int)
    requires d > 0 && x == d * k
    ensures x % d == 0 && x / d == k
  {
    assert x == k * d + 0;
    DivModUnique(x, d, k, 0);
  }

  lemma DivModUnique(x: int, d: int, q: int, r: int)
    requires d > 0 && x == q * d + r && 0 <= r < d
    ensures x / d == q && x % d == r
  {
    var e := x / d - q;
    assert x == x / d * d + x % d;
    assert e * d == r - x % d by {
      assert e * d == x / d * d - q * d;
    }
    assert e > 0 ==> e * d >= d;
    assert e < 0 ==> e * d <= -d;
  }

  lemma GcdDividesFactor(a: nat)
    ensures var g := Gcd(a, FACTOR); g > 0 && FACTOR / g > 0 && FACTOR == g * (FACTOR / g)
  {
    var i, j := GcdDivides(a, FACTOR);
    MultipleOf(FACTOR, Gcd(a, FACTOR), j);
  }

  /** The smallest quantity step whose value at this price is a whole number of units. */
  function Step(price: int): (step: int)
    requires price > 0
    ensures step > 0
  {
    GcdDividesFactor(price % FACTOR);
    FACTOR / Gcd(price % FACTOR, FACTOR)
  }

  function BudgetQuantity(budget: int, price: int, remaining: int): Result<int> {
    var p :- Units(price);
    var _ :- Ensure(p > 0, BadPrice);
    var b :- Units(budget);
    var r :- Units(remaining);
    var maximum := Min(b * FACTOR / p, r);
    Stored(maximum / Step(p) * Step(p))
  }

  /** A value is exact precisely when the quantity is a multiple of the step: the point of the gcd. */
  lemma ExactIffStepDivides(price: int, quantity: int)
    requires price > 0
    ensures Exact(price, quantity) <==> quantity % Step(price) == 0
  {
    var r := price % FACTOR;
    GcdDividesFactor(r);
    var s := Step(price);
    assert price == price / FACTOR * FACTOR + r;
    if quantity % s == 0 {
      var i, j := GcdDivides(r, FACTOR);
      StepMultipleIsExact(price, quantity, price / FACTOR, Gcd(r, FACTOR), i, s, quantity / s);
    }
    if Exact(price, quantity) {
      var x, y := Bezout(r, FACTOR);
      ExactIsStepMultiple(price, quantity, price / FACTOR, r, Gcd(r, FACTOR), x, y, s);
    }
  }

  lemma StepMultipleIsExact(price: int, quantity: int, k: int, g: int, i: int, s: int, m: int)
    requires price == k * FACTOR + g * i && FACTOR == g * s && quantity == s * m
    ensures Exact(price, quantity)
  {
    calc {
      price * quantity;
      (k * FACTOR + g * i) * quantity;
      k * FACTOR * quantity + g * i * (s * m);
      { assert g * i * (s * m) == (g * s) * (i * m); }
      FACTOR * (k * quantity) + FACTOR * (i * m);
      FACTOR * (k * quantity + i * m);
    }
    MultipleOf(price * quantity, FACTOR, k * quantity + i * m);
  }

  lemma ExactIsStepMultiple(price: int, quantity: int, k: int, r: int, g: int, x: int, y: int, s: int)
    requires Exact(price, quantity) && price == k * FACTOR + r
    requires g == x * r + y * FACTOR && FACTOR == g * s && g > 0 && s > 0
    ensures quantity % s == 0
  {
    var n := price * quantity / FACTOR;
    assert r * quantity == FACTOR * (n - k * quantity) by {
      assert price * quantity == k * FACTOR * quantity + r * quantity;
    }
    var t := x * (n - k * quantity) + y * quantity;
    calc {
      g * quantity;
      x * (r * quantity) + y * FACTOR * quantity;
      x * (FACTOR * (n - k * quantity)) + y * FACTOR * quantity;
      FACTOR * t;
      (g * s) * t;
      g * (s * t);
    }
    Cancel(g, quantity, s * t);
    MultipleOf(quantity, s, t);
  }

  /** A quantity that can be paid for exactly and within the budget. */
  predicate Payable(price: int, quantity: int, budget: int) {
    Exact(price, quantity) && Value(price, quantity) <= budget
  }

  lemma PayableIff(price: int, quantity: int, budget: int)
    requires price > 0
    ensures Payable(price, quantity, budget) <==> quantity % Step(price) == 0 && quantity <= budget * FACTOR / price
  {
    ExactIffStepDivides(price, quantity);
    var bound := budget * FACTOR / price;
    assert bound * price <= budget * FACTOR < (bound + 1) * price by {
      assert budget * FACTOR == bound * price + budget * FACTOR % price;
      assert (bound + 1) * price == bound * price + price;
    }
    if quantity <= bound {
      ProductSign(price, bound - quantity);
      assert price * (bound - quantity) == bound * price - price * quantity;
    } else {
      ProductSign(price, quantity - bound - 1);
      assert price * (quantity - bound - 1) == price * quantity - (bound + 1) * price;
    }
  }

  lemma Scale(k: int, m: int, step: int)
    requires step > 0
    ensures k <= m ==> k * step <= m * step
    ensures k > m ==> k * step >= m * step + step
  {
    ProductNegative(m - k, step);
    ProductNegative(m - k + 1, step);
    assert (m - k) * step == m * step - k * step;
    assert (m - k + 1) * step == m * step - k * step + step;
  }

  lemma GreatestMultiple(maximum: int, step: int, other: int)
    requires step > 0 && other <= maximum && other % step == 0
    ensures other <= maximum / step * step <= maximum
  {
    DivisionBounds(maximum, step);
    DivisionBounds(other, step);
    Scale(other / step, maximum / step, step);
  }

  lemma DivisionBounds(x: int, d: int)
    requires d > 0
    ensures x == x / d * d + x % d && x / d * d <= x < x / d * d + d
  {
  }

  lemma NonNegativeQuotient(x: int, d: int)
    requires d > 0 && x >= 0
    ensures x / d >= 0
  {
  }

  /** The computed quantity is the greatest one within the maker's remainder that is exactly payable. */
  lemma BudgetQuantityIsGreatest(budget: int, price: int, remaining: int, other: int)
    requires BudgetQuantity(budget, price, remaining).Ok?
    ensures var q := BudgetQuantity(budget, price, remaining).value;
      0 <= q <= remaining && Payable(price, q, budget)
      && (0 <= other <= remaining && Payable(price, other, budget) ==> other <= q)
  {
    var q := BudgetQuantity(budget, price, remaining).value;
    PayableIff(price, q, budget);
    PayableIff(price, other, budget);
    NonNegativeQuotient(budget * FACTOR, price);
    GreatestWithin(budget * FACTOR / price, remaining, Step(price), other);
  }

  lemma GreatestWithin(bound: int, remaining: int, step: int, other: int)
    requires 0 <= bound && 0 <= remaining && step > 0
    ensures var q := Min(bound, remaining) / step * step;
      0 <= q <= remaining && q <= bound && q % step == 0
      && (0 <= other <= remaining && other <= bound && other % step == 0 ==> other <= q)
  {
    var maximum := Min(bound, remaining);
    GreatestMultiple(maximum, step, 0);
    MultipleOf(maximum / step * step, step, maximum / step);
    if other <= maximum && other % step == 0 {
      GreatestMultiple(maximum, step, other);
    }
  }

  /** After choosing the quantity, quoting it cannot fail for rounding, range or the budget. */
  lemma BudgetQuantityCanBeQuoted(budget: int, price: int, remaining: int)
    requires BudgetQuantity(budget, price, remaining).Ok?
    ensures var q := BudgetQuantity(budget, price, remaining).value;
      Quote(price, q) == Stored(Value(price, q)) && 0 <= Value(price, q) <= budget
  {
    var q := BudgetQuantity(budget, price, remaining).value;
    BudgetQuantityIsGreatest(budget, price, remaining, 0);
    ProductSign(price, q);
  }

  method QuantityForBudget(budget: int, price: int, remaining: int) returns (r: Result<int>)
    ensures r == BudgetQuantity(budget, price, remaining)
  {
    var p :- Units(price);
    if p <= 0 {
      return Err(BadPrice);
    }
    var wanted :- Units(budget);
    var left :- Units(remaining);
    var maximum := Min(wanted * FACTOR / p, left);
    var a: nat, b: nat := p % FACTOR, FACTOR;
    while a != 0
      invariant Gcd(a, b) == Gcd(p % FACTOR, FACTOR)
      invariant b > 0
      decreases a
    {
      a, b := b % a, a;
    }
    var step := FACTOR / b;
    assert step == Step(p);
    return Stored(maximum / step * step);
  }
}
