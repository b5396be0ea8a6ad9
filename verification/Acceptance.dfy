/** What the checks accept, field by field, in plain arithmetic. */
module Acceptance {
  import opened Prelude
  import opened Amount
  import opened Types
  import opened Balances
  import opened Core

  // ---------------------------------------------------------------- arithmetic

  /** An amount is storable exactly when some decimal of the stored kind is worth that many units. */
  lemma StorableExactly(amount: int)
    requires 0 <= amount <= MAX_UNITS
    ensures Rep(amount) <==> exists d :: IsDecimal(d) && d.mantissa * Pow10(SCALE) == amount * Pow10(d.scale)
  {
    UnitsOfDecimalOf(amount);
    if Rep(amount) {
      var d := DecimalOf(amount).value;
      UnitsAcceptsExactlyWholeUnits(d, amount);
      assert IsDecimal(d) && d.mantissa * Pow10(SCALE) == amount * Pow10(d.scale);
    }
    if d :| IsDecimal(d) && d.mantissa * Pow10(SCALE) == amount * Pow10(d.scale) {
      UnitsAcceptsExactlyWholeUnits(d, amount);
      DecimalOfUnits(d);
    }
  }

  /** Adding is exact: it succeeds when the sum is in range and storable, and fails otherwise. */
  lemma AddAccepts(left: int, right: int, sum: int)
    ensures Add(left, right) == Ok(sum) <==> 0 <= left && 0 <= right && sum == left + right && sum <= MAX_UNITS && Rep(sum)
  {
    hide Rep;
  }

  lemma SubtractAccepts(left: int, right: int, difference: int)
    ensures Subtract(left, right) == Ok(difference)
       <==> 0 <= right <= left <= MAX_UNITS && difference == left - right && Rep(difference)
  {
    hide Rep;
  }

  /** A quote is the exact product and nothing else. */
  lemma QuoteAccepts(price: int, amount: int, value: int)
    ensures Quote(price, amount) == Ok(value)
       <==> 0 <= price <= MAX_UNITS && 0 <= amount <= MAX_UNITS && value * FACTOR == price * amount && value <= MAX_UNITS && Rep(value)
  {
    hide Rep;
  }

  /** A fee is the share rounded down, for rates below one with at most six places. */
  lemma FeeAccepts(received: int, rate: int, fee: int)
    ensures Fee(received, rate) == Ok(fee)
       <==> 0 <= rate < FACTOR && rate % 1000 == 0 && 0 <= received <= MAX_UNITS
            && fee * FACTOR <= received * rate < (fee + 1) * FACTOR && Rep(fee)
  {
    hide Rep;
  }

  // ---------------------------------------------------------------- names

  /** Not empty, not too long, and neither beginning nor ending with white space. */
  predicate Name(s: string, limit: nat) {
    1 <= |s| <= limit && s[0] !in " \t\n\r" && s[|s| - 1] !in " \t\n\r"
  }

  lemma NamesAreTrimmed(s: string, limit: nat)
    ensures Trimmed(s) && |s| <= limit <==> Name(s, limit)
  {
  }

  // ---------------------------------------------------------------- orders

  predicate PositiveUnits(value: int) {
    0 < value <= MAX_UNITS
  }

  /** A budget, and nothing that belongs to other orders. */
  ghost predicate BudgetTerms(o: Order) {
    && o.quoteAmount.Some? && PositiveUnits(o.quoteAmount.value) && o.remainingQuote == o.quoteAmount
    && o.price.None? && o.amount == 0 && o.remaining == 0
  }

  /** A quantity that adds up, with an exactly quotable price for a limit order and none for a market sell. */
  ghost predicate QuantityTerms(o: Order) {
    && o.quoteAmount.None? && o.remainingQuote.None?
    && 0 <= o.filled && 0 < o.remaining && o.filled + o.remaining == o.amount <= MAX_UNITS && Rep(o.amount)
    && match o.kind
       case Limit => o.price.Some? && PositiveUnits(o.price.value)
         && exists value :: value * FACTOR == o.price.value * o.amount && value <= MAX_UNITS && Rep(value)
       case _ => o.price.None?
  }

  ghost predicate OrderTerms(o: Order, incoming: bool) {
    && 0 <= o.feeRate < FACTOR && o.feeRate % 1000 == 0
    && 0 < o.id <= MAX_ID && 0 < o.user <= MAX_ID
    && (o.side.Buy? || o.side.Sell?) && (o.kind.Limit? || o.kind.Market?)
    && Name(o.base, 255) && Name(o.quote, 255) && o.base != o.quote
    && (incoming ==> o.filled == 0)
    && if o.kind.Market? && o.side.Buy? then BudgetTerms(o) else QuantityTerms(o)
  }

  lemma BudgetAccepts(o: Order)
    ensures ValidateBudget(o).Ok? <==> BudgetTerms(o)
  {
  }

  lemma QuantityAccepts(o: Order)
    requires o.kind.Limit? || o.kind.Market?
    ensures ValidateQuantity(o).Ok? <==> QuantityTerms(o)
  {
    AddAccepts(o.filled, o.remaining, o.amount);
    hide Rep;
    if o.kind.Limit? && o.price.Some? {
      var p := o.price.value;
      if Quote(p, o.amount).Ok? {
        QuoteAccepts(p, o.amount, Quote(p, o.amount).value);
      }
      if value :| value * FACTOR == p * o.amount && value <= MAX_UNITS && Rep(value) {
        QuoteAccepts(p, o.amount, value);
      }
    }
    hide Quote;
    hide Add;
  }

  /** Exactly which orders pass, when they come in and when they rest. */
  lemma ValidateAccepts(o: Order, incoming: bool)
    ensures Validate(o, incoming).Ok? <==> OrderTerms(o, incoming)
  {
    ZeroIsStorable();
    FeeAccepts(0, o.feeRate, 0);
    hide Rep;
    NamesAreTrimmed(o.base, 255);
    NamesAreTrimmed(o.quote, 255);
    BudgetAccepts(o);
    if o.kind.Limit? || o.kind.Market? {
      QuantityAccepts(o);
    }
    hide ValidateBudget;
    hide ValidateQuantity;
    hide BudgetTerms;
    hide QuantityTerms;
    hide Trimmed;
    hide Name;
  }

  // ---------------------------------------------------------------- deposits and withdrawals

  lemma DepositAccepts(credit: DepositCredit)
    ensures ValidateDeposit(credit).Ok? <==> credit.id != 0 && credit.user > 0 && Name(credit.asset, 128) && PositiveUnits(credit.amount)
  {
    NamesAreTrimmed(credit.asset, 128);
  }

  lemma WithdrawalAccepts(funds: WithdrawalFunds)
    ensures ValidateWithdrawal(funds).Ok?
       <==> funds.id != 0 && 0 < funds.user <= MAX_ID && PositiveUnits(funds.amount)
            && 1 <= |funds.asset| <= 128
            && forall i :: 0 <= i < |funds.asset| ==> 'A' <= funds.asset[i] <= 'Z' || '0' <= funds.asset[i] <= '9'
  {
    assert forall i :: 0 <= i < |funds.asset| ==> funds.asset[i] in funds.asset;
  }
}
