/**
 Price-time matching. One side of a book is its resting orders in priority order;
 the walk plans the trades of an incoming order without touching the book.
 */
module Matcher {
  import opened Prelude
  import opened Amount
  import opened Types

  /** The incoming order as matched so far, its totals, and the makers changed (by price and id). */
  datatype Taker = Taker(order: Order, totalAmount: int, totalQuote: int, makers: map<(int, nat), Order>)

  datatype Visited = Skipped | Filled(taker: Taker, trade: Trade, maker: Order)

  /** The planned trades, the taker afterwards, and the queue as committing the plan leaves it. */
  datatype Walked = Walked(taker: Taker, trades: seq<Trade>, rest: seq<Order>)

  predicate Done(o: Order) {
    match o.remainingQuote
    case Some(budget) => budget == 0
    case None => o.remaining == 0
  }

  /** Whether a maker price is worse than the incoming limit. */
  predicate Beyond(o: Order, price: int) {
    o.price.Some? && if o.side.Sell? then price < o.price.value else price > o.price.value
  }

  function Quantity(o: Order, maker: Order): Result<int> {
    match o.remainingQuote
    case Some(budget) => BudgetQuantity(budget, Price(maker), maker.remaining)
    case None => Ok(Min(o.remaining, maker.remaining))
  }

  function TradeOf(taker: Order, maker: Order, quantity: int): Trade {
    var buy := if taker.side.Sell? then maker else taker;
    var sell := if taker.side.Sell? then taker else maker;
    Trade(buy.feeRate, sell.feeRate, buy.id, sell.id, buy.user, sell.user, Price(maker), quantity, taker.base, taker.quote)
  }

  predicate Matches(o: Order, maker: Order) {
    && maker.price.Some? && maker.kind.Limit? && (maker.side.Buy? <==> o.side.Sell?)
    && maker.base == o.base && maker.quote == o.quote
  }

  /** Considers one maker: refused, left alone, or traded with. */
  function Visit(t: Taker, maker: Order): Result<Visited> {
    var _ :- Validate(maker, false);
    var _ :- Ensure(Matches(t.order, maker), WrongLevel);
    var _ :- Ensure(maker.id != t.order.id, AlreadyInBook);
    if maker.user == t.order.user then Ok(Skipped)
    else
      var quantity :- Quantity(t.order, maker);
      if quantity == 0 then Ok(Skipped) else Fill(t, maker, quantity)
  }

  function Fill(t: Taker, maker: Order, quantity: int): Result<Visited> {
    var value :- Quote(Price(maker), quantity);
    var makerLeft :- Subtract(maker.remaining, quantity);
    var makerFilled :- Add(maker.filled, quantity);
    var maker' := maker.(remaining := makerLeft, filled := makerFilled);
    var order' :- Reduce(t.order, quantity, value);
    var filled :- Add(t.order.filled, quantity);
    var totalAmount :- Add(t.totalAmount, quantity);
    var totalQuote :- Add(t.totalQuote, value);
    var key := (Price(maker), maker.id);
    var _ :- Ensure(key !in t.makers, DuplicateMaker);
    var t' := Taker(order'.(filled := filled), totalAmount, totalQuote, t.makers[key := maker']);
    Ok(Filled(t', TradeOf(t'.order, maker', quantity), maker'))
  }

  /** Takes a fill off the budget or off the quantity still wanted. */
  function Reduce(o: Order, quantity: int, value: int): Result<Order> {
    match o.remainingQuote
    case Some(budget) =>
      var left :- Subtract(budget, value);
      var amount :- Add(o.amount, quantity);
      Ok(o.(remainingQuote := Some(left), amount := amount))
    case None =>
      var left :- Subtract(o.remaining, quantity);
      Ok(o.(remaining := left))
  }

  function Keep(maker: Order, rest: seq<Order>): seq<Order> {
    if maker.remaining > 0 then [maker] + rest else rest
  }

  /** Walks the makers in priority order until the order is done or the price limit is passed. */
  function Walk(t: Taker, queue: seq<Order>): Result<Walked>
    decreases |queue|
  {
    if queue == [] || Beyond(t.order, Price(queue[0])) || Done(t.order) then Ok(Walked(t, [], queue))
    else
      var visited :- Visit(t, queue[0]);
      match visited
      case Skipped =>
        var w :- Walk(t, queue[1..]);
        Ok(w.(rest := [queue[0]] + w.rest))
      case Filled(t', trade, maker') =>
        var w :- Walk(t', queue[1..]);
        Ok(Walked(w.taker, [trade] + w.trades, Keep(maker', w.rest)))
  }

  function Start(o: Order): Taker {
    Taker(o, 0, 0, map[])
  }

  function Plan(o: Order, queue: seq<Order>): Result<Walked> {
    var _ :- Validate(o, true);
    Walk(Start(o), queue)
  }

  // ---------------------------------------------------------------- one fill

  /** A trade is at the maker's price and names the order and the maker, each on its own side with its own fee rate. */
  predicate Names(o: Order, maker: Order, t: Trade) {
    && maker.price == Some(t.price) && t.base == o.base && t.quote == o.quote
    && (if o.side.Sell? then
          && t.sellOrderId == o.id && t.seller == o.user && t.sellerFeeRate == o.feeRate
          && t.buyOrderId == maker.id && t.buyer == maker.user && t.buyerFeeRate == maker.feeRate
        else
          && t.buyOrderId == o.id && t.buyer == o.user && t.buyerFeeRate == o.feeRate
          && t.sellOrderId == maker.id && t.seller == maker.user && t.sellerFeeRate == maker.feeRate)
  }

  /** Everything a fill changes, and nothing else. */
  ghost predicate FillOf(t: Taker, maker: Order, t': Taker, trade: Trade, maker': Order) {
    var q := trade.amount;
    && 0 < q <= maker.remaining && maker' == maker.(remaining := maker.remaining - q, filled := maker.filled + q)
    && Names(t.order, maker, trade) && maker.user != t.order.user
    && Quote(trade.price, q) == Ok(TradeValue(trade)) && Exact(trade.price, q) && TradeValue(trade) > 0
    && t'.totalAmount == t.totalAmount + q && t'.totalQuote == t.totalQuote + TradeValue(trade)
    && t'.makers == t.makers[(Price(maker), maker.id) := maker'] && (Price(maker), maker.id) !in t.makers
    && match t.order.remainingQuote
       case None =>
         && q == Min(t.order.remaining, maker.remaining)
         && t'.order == t.order.(remaining := t.order.remaining - q, filled := t.order.filled + q)
       case Some(budget) =>
         && BudgetQuantity(budget, trade.price, maker.remaining) == Ok(q) && TradeValue(trade) <= budget
         && t'.order == t.order.(remainingQuote := Some(budget - TradeValue(trade)), amount := t.order.amount + q,
                                 filled := t.order.filled + q)
  }

  /** A maker that was considered passed every check, and was traded with or rightly left alone. */
  lemma VisitMeaning(t: Taker, maker: Order)
    requires Visit(t, maker).Ok?
    ensures Validate(maker, false).Ok? && Matches(t.order, maker) && maker.id != t.order.id
    ensures match Visit(t, maker).value
      case Skipped => maker.user == t.order.user || Quantity(t.order, maker) == Ok(0)
      case Filled(t', trade, maker') => FillOf(t, maker, t', trade, maker')
  {
    hide BudgetQuantity;
    hide Quote;
    hide Rep;
    hide Validate;
    if Visit(t, maker).value.Filled? {
      ValidLimit(maker);
      var q := Quantity(t.order, maker).value;
      QuoteMeaning(Price(maker), q);
    }
  }

  lemma ValidLimit(o: Order)
    requires Validate(o, false).Ok? && o.kind.Limit?
    ensures o.amount > 0 && o.remaining > 0 && 0 <= o.filled && o.filled + o.remaining == o.amount
    ensures o.price.Some? && o.price.value > 0 && Quote(o.price.value, o.amount).Ok?
    ensures 0 <= o.feeRate < FACTOR && o.remainingQuote.None?
    ensures o.base != o.quote
  {
    hide Quote;
    hide Rep;
  }
}
