/** Orders, trades and trading pairs. Amounts, prices and rates are counts of 1e-9 units. */
module Types {
  import opened Prelude
  import opened Amount

  type Asset = string

  datatype Side = Buy | Sell | OtherSide(name: string)
  datatype Kind = Limit | Market | OtherKind(name: string)
  datatype Pair = Pair(base: Asset, quote: Asset)

  datatype Order = Order(
    id: nat, user: nat, side: Side, kind: Kind, base: Asset, quote: Asset,
    price: Option<int>, amount: int, quoteAmount: Option<int>,
    filled: int, remaining: int, remainingQuote: Option<int>,
    feeRate: int, createdAt: int)

  datatype Trade = Trade(
    buyerFeeRate: int, sellerFeeRate: int, buyOrderId: nat, sellOrderId: nat,
    buyer: nat, seller: nat, price: int, amount: int, base: Asset, quote: Asset)

  const MAX_ID: int := 0x7FFF_FFFF_FFFF_FFFF

  function PairOf(o: Order): Pair {
    Pair(o.base, o.quote)
  }

  /** The price of an order, or 0 for an order without one. */
  function Price(o: Order): int {
    if o.price.Some? then o.price.value else 0
  }

  predicate IsSpace(c: char) {
    c == ' ' || c == '\t' || c == '\n' || c == '\r'
  }

  predicate Trimmed(s: string) {
    s != [] && !IsSpace(s[0]) && !IsSpace(s[|s| - 1])
  }

  predicate OrderAsset(s: string) {
    Trimmed(s) && |s| <= 255
  }

  /** The checks made on an incoming order and again on every resting order that is considered. */
  function Validate(o: Order, incoming: bool): Result<()> {
    var _ :- Fee(0, o.feeRate);
    var _ :- Ensure(0 < o.id <= MAX_ID && 0 < o.user <= MAX_ID, BadIdentity);
    var _ :- Ensure((o.side.Buy? || o.side.Sell?) && (o.kind.Limit? || o.kind.Market?), BadKind);
    var _ :- Ensure(OrderAsset(o.base) && OrderAsset(o.quote), BadAsset);
    var _ :- Ensure(o.base != o.quote, SameAssets);
    var _ :- Ensure(incoming ==> o.filled == 0, NotFresh);
    if o.kind.Market? && o.side.Buy? then
      ValidateBudget(o)
    else
      ValidateQuantity(o)
  }

  function ValidateBudget(o: Order): Result<()> {
    var _ :- Ensure(o.quoteAmount.Some?, BadMarketBuy);
    var budget := o.quoteAmount.value;
    var _ :- Ensure(
      budget > 0 && o.price.None? && o.amount == 0 && o.remaining == 0 && o.remainingQuote == Some(budget),
      BadMarketBuy);
    var _ :- Units(budget);
    Ok(())
  }

  function ValidateQuantity(o: Order): Result<()> {
    var _ :- Ensure(
      o.amount > 0 && o.remaining > 0 && o.quoteAmount.None? && o.remainingQuote.None?, BadQuantity);
    var total :- Add(o.filled, o.remaining);
    var _ :- Ensure(total == o.amount, BadQuantity);
    if o.kind.Limit? then
      var _ :- Ensure(o.price.Some?, MissingPrice);
      var _ :- Ensure(o.price.value > 0, BadPrice);
      var _ :- Quote(o.price.value, o.amount);
      Ok(())
    else
      Ensure(o.price.None?, BadQuantity)
  }

  function SumAmounts(trades: seq<Trade>): int {
    if trades == [] then 0 else trades[0].amount + SumAmounts(trades[1..])
  }

  function TradeValue(t: Trade): int {
    Value(t.price, t.amount)
  }

  function SumValues(trades: seq<Trade>): int {
    if trades == [] then 0 else TradeValue(trades[0]) + SumValues(trades[1..])
  }

  function SumRemaining(queue: seq<Order>): int {
    if queue == [] then 0 else queue[0].remaining + SumRemaining(queue[1..])
  }
}
