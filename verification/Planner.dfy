/** Planning an order as it is computed: walking sorted levels and their queues, updating one plan in place. */
module Planner {
  import opened Prelude
  import opened Amount
  import opened Types
  import opened Matcher
  import opened MatchingLaws
  import opened Submission
  import opened OrderBooks

  // ---------------------------------------------------------------- the walk from where a plan stands

  /** The plan that continuing from a taker and the trades so far leads to. */
  function Continued(t: Taker, trades: seq<Trade>, queue: seq<Order>): Result<(Taker, seq<Trade>)> {
    match Walk(t, queue)
    case Err(reason) => Err(reason)
    case Ok(w) => Ok((w.taker, trades + w.trades))
  }

  /** One more maker considered, for any makers behind it. */
  lemma ContinuedStep(t: Taker, trades: seq<Trade>, queue: seq<Order>)
    requires queue != []
    ensures Stops(t, queue) ==> Continued(t, trades, queue) == Ok((t, trades))
    ensures !Stops(t, queue) ==>
      Continued(t, trades, queue) == match Visit(t, queue[0])
        case Err(reason) => Err(reason)
        case Ok(Skipped) => Continued(t, trades, queue[1..])
        case Ok(Filled(t', trade, _)) => Continued(t', trades + [trade], queue[1..])
  {
    hide Visit;
    if Stops(t, queue) {
      assert trades + [] == trades;
    } else if Visit(t, queue[0]).Ok? && Visit(t, queue[0]).value.Filled? {
      var visited := Visit(t, queue[0]).value;
      if Walk(visited.taker, queue[1..]).Ok? {
        var rest := Walk(visited.taker, queue[1..]).value.trades;
        assert trades + ([visited.trade] + rest) == trades + [visited.trade] + rest;
      }
    }
  }

  lemma ContinuedEnd(t: Taker, trades: seq<Trade>)
    ensures Continued(t, trades, []) == Ok((t, trades))
  {
    assert trades + [] == trades;
  }

  function ChangesAt(makers: map<int, Changes>, price: int): Changes {
    if price in makers then makers[price] else map[]
  }

  lemma RecordedAt(recorded: map<(int, nat), Order>, makers: map<int, Changes>, k: (int, nat))
    requires Grouped(recorded, makers)
    ensures k in recorded <==> k.1 in ChangesAt(makers, k.0)
  {
    var (price, id) := k;
    if price in makers && id in makers[price] {
      assert (price, id) in recorded;
    }
  }

  lemma GroupedInsert(recorded: map<(int, nat), Order>, makers: map<int, Changes>, maker: Order)
    requires Grouped(recorded, makers)
    ensures Grouped(recorded[Key(maker) := maker], makers[Price(maker) := ChangesAt(makers, Price(maker))[maker.id := maker]])
  {
    hide Price;
  }

  /** A fill leaves the order's own terms alone. */
  predicate SameTerms(o: Order, o': Order) {
    o'.id == o.id && o'.user == o.user && o'.side == o.side && o'.kind == o.kind && o'.price == o.price && PairOf(o') == PairOf(o)
  }

  // ---------------------------------------------------------------- the mutable plan

  class MatchPlan {
    var order: Order
    var trades: seq<Trade>
    var totalAmount: int
    var totalQuote: int
    var makers: map<int, Changes>
    const makerBuy: bool
    ghost var recorded: map<(int, nat), Order>

    ghost predicate Valid()
      reads this
    {
      Grouped(recorded, makers) && makerBuy == order.side.Sell?
    }

    /** The plan so far as a value. */
    ghost function Taken(): Taker
      reads this
    {
      Taker(order, totalAmount, totalQuote, recorded)
    }

    constructor (o: Order)
      ensures Valid() && Taken() == Start(o) && trades == []
    {
      order, trades, totalAmount, totalQuote, makers, recorded := o, [], 0, 0, map[], map[];
      makerBuy := o.side.Sell?;
    }

    method ChooseQuantity(maker: Order, price: int) returns (r: Result<int>)
      requires price == Price(maker)
      ensures r == Quantity(order, maker)
    {
      match order.remainingQuote {
        case Some(budget) => r := QuantityForBudget(budget, price, maker.remaining);
        case None => r := Ok(Min(order.remaining, maker.remaining));
      }
    }

    /** Remembers a changed maker under its price, refusing a second change of the same one. */
    method Record(price: int, maker: Order) returns (r: Result<()>)
      requires Valid() && price == Price(maker)
      modifies this`makers, this`recorded
      ensures r == if Key(maker) in old(recorded) then Err(DuplicateMaker) else Ok(())
      ensures r.Ok? ==> Valid() && recorded == old(recorded)[Key(maker) := maker]
    {
      RecordedAt(recorded, makers, Key(maker));
      var level := ChangesAt(makers, price);
      if maker.id in level {
        return Err(DuplicateMaker);
      }
      GroupedInsert(recorded, makers, maker);
      hide Grouped;
      makers := makers[price := level[maker.id := maker]];
      recorded := recorded[Key(maker) := maker];
      r := Ok(());
    }

    /** Trades a chosen quantity with a maker, every amount checked. */
    method Exchange(original: Order, price: int, quantity: int) returns (r: Result<()>)
      requires Valid() && price == Price(original) && makerBuy == (order.side.Sell?)
      modifies this
      ensures match Fill(old(Taken()), original, quantity)
        case Err(reason) => r == Err(reason)
        case Ok(Filled(t', trade, _)) =>
          r.Ok? && Valid() && Taken() == t' && trades == old(trades) + [trade] && SameTerms(old(order), order)
        case Ok(_) => false
    {
      hide Quote;
      hide Add;
      hide Subtract;
      hide Grouped;
      var value :- Quote(price, quantity);
      var left :- Subtract(original.remaining, quantity);
      var makerFilled :- Add(original.filled, quantity);
      var maker := original.(remaining := left, filled := makerFilled);
      if order.remainingQuote.Some? {
        var budget :- Subtract(order.remainingQuote.value, value);
        order := order.(remainingQuote := Some(budget));
        var amount :- Add(order.amount, quantity);
        order := order.(amount := amount);
      } else {
        var remaining :- Subtract(order.remaining, quantity);
        order := order.(remaining := remaining);
      }
      var filled :- Add(order.filled, quantity);
      order := order.(filled := filled);
      totalAmount :- Add(totalAmount, quantity);
      totalQuote :- Add(totalQuote, value);
      var buy, sell := if makerBuy then maker else order, if makerBuy then order else maker;
      trades := trades + [Trade(buy.feeRate, sell.feeRate, buy.id, sell.id, buy.user, sell.user, price, quantity,
                                order.base, order.quote)];
      r := Record(price, maker);
    }

    /** Considers one maker of a level: refused, left alone, or traded with. */
    method Consider(original: Order, price: int) returns (r: Result<()>)
      requires Valid() && price == Price(original)
      modifies this
      ensures match Visit(old(Taken()), original)
        case Err(reason) => r == Err(reason)
        case Ok(Skipped) => r.Ok? && Valid() && Taken() == old(Taken()) && trades == old(trades)
        case Ok(Filled(t', trade, _)) => r.Ok? && Valid() && Taken() == t' && trades == old(trades) + [trade]
      ensures r.Ok? ==> SameTerms(old(order), order)
    {
      hide Validate;
      hide Fill;
      hide Grouped;
      hide Price;
      var _ :- Validate(original, false);
      if !(original.price == Some(price) && original.kind.Limit? && original.side.Buy? == makerBuy
           && original.base == order.base && original.quote == order.quote) {
        assert !Matches(order, original) by { assert original.price == Some(price) <==> original.price.Some? by { PriceIs(original); } }
        return Err(WrongLevel);
      }
      if original.id == order.id {
        return Err(AlreadyInBook);
      }
      if original.user == order.user {
        return Ok(());
      }
      var quantity :- ChooseQuantity(original, price);
      if quantity == 0 {
        return Ok(());
      }
      r := Exchange(original, price, quantity);
    }

    /** Considers a level's makers in time order; true when the order is done. `behind` is what later levels hold. */
    method PlanLevel(queue: seq<Order>, price: int, ghost behind: seq<Order>) returns (r: Result<bool>)
      requires Valid() && !Beyond(order, price) && forall o :: o in queue ==> Price(o) == price
      modifies this
      ensures match r
        case Err(reason) => old(Continued(Taken(), trades, queue + behind)) == Err(reason)
        case Ok(true) => old(Continued(Taken(), trades, queue + behind)) == Ok((Taken(), trades))
        case Ok(false) => old(Continued(Taken(), trades, queue + behind)) == Continued(Taken(), trades, behind)
      ensures r.Ok? ==> Valid() && SameTerms(old(order), order)
    {
      hide Visit;
      hide Continued;
      hide Grouped;
      hide Price;
      var i := 0;
      while i < |queue|
        invariant i <= |queue| && Valid() && SameTerms(old(order), order) && !Beyond(order, price)
        invariant Continued(Taken(), trades, queue[i..] + behind) == old(Continued(Taken(), trades, queue + behind))
      {
        ghost var ahead := queue[i..] + behind;
        assert ahead[0] == queue[i] && ahead[1..] == queue[i + 1..] + behind;
        ContinuedStep(Taken(), trades, ahead);
        if Done(order) {
          return Ok(true);
        }
        var considered := Consider(queue[i], price);
        if considered.Err? {
          return Err(considered.error);
        }
        i := i + 1;
      }
      assert queue[|queue|..] + behind == behind;
      r := Ok(false);
    }

    /** Considers the levels from the best price on, until the limit is passed or the order is done. */
    method PlanLevels(side: OrderBookSide) returns (r: Result<()>)
      requires Valid() && side.Valid() && side.side == (if makerBuy then Buy else Sell)
      modifies this
      ensures match r
        case Err(reason) => old(Continued(Taken(), trades, side.flat)) == Err(reason)
        case Ok(_) => Valid() && old(Continued(Taken(), trades, side.flat)) == Ok((Taken(), trades)) && SameTerms(old(order), order)
    {
      hide Continued;
      hide Grouped;
      hide Ordered;
      hide AtPrice;
      hide Price;
      var left := side.orders.Keys;
      ghost var ahead := side.flat;
      while left != {}
        invariant Valid() && SameTerms(old(order), order)
        invariant left <= side.orders.Keys && LevelsLeft(side.orders, left, ahead) && Ordered(side.side, ahead)
        invariant Continued(Taken(), trades, ahead) == old(Continued(Taken(), trades, side.flat))
        decreases |left|
      {
        var price := BestPrice(left, makerBuy);
        var queue := side.orders[price];
        ghost var behind := BestLevelIsFirst(side.orders, left, ahead, side.side, price);
        if Beyond(order, price) {
          ContinuedStep(Taken(), trades, ahead);
          return Ok(());
        }
        var done :- PlanLevel(queue, price, behind);
        if done {
          return Ok(());
        }
        left, ahead := left - {price}, behind;
      }
      NothingLeft(side.orders, left, ahead);
      ContinuedEnd(Taken(), trades);
      r := Ok(());
    }

    /** Writes the plan into the book it was made from: changed makers first, then what rests of the order. */
    method CommitBook(book: OrderBook, ghost w: Walked)
      requires Valid() && book.Valid() && w.taker == Taken() && (order.kind.Limit? ==> order.price.Some?)
      requires Distinct(Opposite(order, book.View())) && PlannedMakers(Opposite(order, book.View()), recorded)
      modifies book.buys, book.sells
      ensures book.Valid() && book.View() == Submission.CommitBook(old(book.View()), w)
    {
      hide Grouped;
      hide Distinct;
      hide PlannedMakers;
      hide Commit;
      hide Insert;
      if makerBuy {
        book.buys.ApplyPreparedOrders(makers, recorded);
      } else {
        book.sells.ApplyPreparedOrders(makers, recorded);
      }
      if order.kind.Limit? && order.remaining > 0 {
        book.AddOrder(order);
      }
    }
  }

  /** Plans an incoming order against the other side of a book, leaving the book alone. */
  method PlanOrder(incoming: Order, book: OrderBook) returns (r: Result<MatchPlan>)
    requires book.Valid()
    ensures match Plan(incoming, Opposite(incoming, book.View()))
      case Err(reason) => r == Err(reason)
      case Ok(w) => r.Ok? && fresh(r.value) && r.value.Valid() && r.value.Taken() == w.taker && r.value.trades == w.trades
    ensures r.Ok? ==> SameTerms(incoming, r.value.order)
  {
    hide Validate;
    hide Walk;
    var _ :- Validate(incoming, true);
    var plan := new MatchPlan(incoming);
    var planned := plan.PlanLevels(if plan.makerBuy then book.buys else book.sells);
    if planned.Err? {
      return Err(planned.error);
    }
    r := Ok(plan);
  }

  /** The levels not visited yet hold exactly the makers ahead. */
  ghost predicate LevelsLeft(orders: map<int, seq<Order>>, left: set<int>, ahead: seq<Order>) {
    && (forall p :: p in left ==> p in orders && orders[p] == AtPrice(ahead, p) != [])
    && (forall o :: o in ahead ==> Price(o) in left)
  }

  lemma NothingLeft(orders: map<int, seq<Order>>, left: set<int>, ahead: seq<Order>)
    requires LevelsLeft(orders, left, ahead)
    ensures left == {} ==> ahead == []
  {
    if ahead != [] {
      assert ahead[0] in ahead;
    }
  }

  /** In priority order the best level comes first, in its queue's order. */
  lemma {:induction false} BestLevelIsFirst(
    orders: map<int, seq<Order>>, left: set<int>, ahead: seq<Order>, side: Side, price: int) returns (behind: seq<Order>)
    requires LevelsLeft(orders, left, ahead) && Ordered(side, ahead) && IsBest(left, price, side.Buy?)
    ensures price in orders && ahead == orders[price] + behind && orders[price] != []
    ensures forall o :: o in orders[price] ==> Price(o) == price
    ensures LevelsLeft(orders, left - {price}, behind) && Ordered(side, behind)
    ensures Price(ahead[0]) == price
  {
    behind := SplitLevel(ahead, side, price);
    AtPriceMembers(ahead, price);
    forall p | p in left - {price} ensures AtPrice(behind, p) == AtPrice(ahead, p) {
      AtPriceJoin(orders[price], behind, p);
      NoneAtPrice(orders[price], p);
    }
    assert orders[price][0] in orders[price];
  }

  lemma {:induction false} SplitLevel(ahead: seq<Order>, side: Side, price: int) returns (behind: seq<Order>)
    requires Ordered(side, ahead) && forall o :: o in ahead ==> if side.Buy? then Price(o) <= price else price <= Price(o)
    ensures ahead == AtPrice(ahead, price) + behind && Ordered(side, behind)
    ensures forall o :: o in behind ==> o in ahead && Price(o) != price
  {
    if ahead == [] {
      behind := [];
    } else if Price(ahead[0]) == price {
      TailOrdered(ahead, side);
      behind := SplitLevel(ahead[1..], side, price);
    } else {
      behind := ahead;
      TailOrdered(ahead, side);
      NoneAtPrice(ahead, price);
    }
  }

  lemma PriceIs(o: Order)
    ensures o.price == Some(Price(o)) <==> o.price.Some?
  {
  }
}