/** What a caller can rely on about one accepted order, in terms of the book it met and what it reports. */
module OrderLaws {
  import opened Prelude
  import opened Amount
  import opened Types
  import opened Matcher
  import opened MatchingLaws
  import opened Balances
  import opened Submission
  import opened SubmissionLaws

  /**
   A limit order or a market sell trades with exactly the leading other users' makers within its limit, each in full
   except possibly the last, at their prices, and for as much as it wants or they have.
  */
  lemma QuantityOrderTakesThePrefix(o: Order, b: Book)
    requires BookOk(b, PairOf(o)) && Plan(o, Opposite(o, b)).Ok? && !(o.kind.Market? && o.side.Buy?)
    ensures var w := Plan(o, Opposite(o, b)).value; var makers := Eligible(o, Opposite(o, b));
      && PrefixOf(o, w.trades, makers)
      && SumAmounts(w.trades) == Min(o.amount, SumRemaining(makers))
      && w.taker.order.remaining == o.amount - SumAmounts(w.trades)
  {
    ValidIncoming(o);
    AllRemain(Opposite(o, b), SideOf(o), PairOf(o));
    PlanHasFacts(o, b);
    hide Validate;
    hide Walk;
    hide PrefixOf;
    hide Eligible;
    WalkTakesPrefix(Start(o), Opposite(o, b), SideOf(o));
  }

  lemma AllRemain(queue: seq<Order>, side: Side, pair: Pair)
    requires AllResting(queue, side, pair)
    ensures forall m :: m in queue ==> m.remaining > 0
  {
    forall m | m in queue ensures m.remaining > 0 {
      ValidLimit(m);
    }
  }

  /** After a market buy, nobody else's sell left in the book could still be bought, in any quantity, with what it gave back. */
  lemma MarketBuyLeavesNothingPayable(o: Order, b: Book, accounts: Accounts, r: Order)
    requires BookOk(b, PairOf(o)) && Execute(o, b, accounts).Ok? && o.kind.Market? && o.side.Buy?
    requires r in Execute(o, b, accounts).value.book.sells && r.user != o.user
    ensures Execute(o, b, accounts).value.completion.Some?
    ensures NothingPayable(r, Execute(o, b, accounts).value.completion.value.refund)
  {
    var w := Plan(o, b.sells).value;
    PlanHasFacts(o, b);
    ValidIncoming(o);
    ChargeAddsUp(o, b, w, accounts);
    hide Validate;
    hide Walk;
    hide Charge;
    hide NothingPayable;
    WalkExhaustsBudget(Start(o), b.sells, Sell, PairOf(o));
  }

  /** A market order reports what it filled, and its reservation is what it used plus what came back. */
  lemma MarketOrderReports(o: Order, b: Book, accounts: Accounts)
    requires BookOk(b, PairOf(o)) && Execute(o, b, accounts).Ok?
    ensures var a := Execute(o, b, accounts).value;
      && (a.completion.Some? <==> o.kind.Market?)
      && (o.kind.Market? ==>
            var x := a.completion.value;
            && x.orderId == o.id && x.user == o.user && x.side == o.side && x.base == o.base && x.quote == o.quote
            && x.filledAmount == SumAmounts(a.trades) && x.filledQuote == SumValues(a.trades)
            && x.reserved == (if o.side.Buy? then x.filledQuote else x.filledAmount) + x.refund
            && x.refund >= 0 && (x.filled <==> x.refund == 0) && x.tradeCount == |a.trades|
            && x.reserved == if o.side.Buy? then o.quoteAmount.GetOr(0) else o.amount)
  {
    var w := Plan(o, Opposite(o, b)).value;
    PlanHasFacts(o, b);
    ValidIncoming(o);
    ChargeAddsUp(o, b, w, accounts);
    hide Validate;
    hide Plan;
    hide Charge;
    hide CommitBook;
  }

  /** A limit order that rests leaves opposite it only its own user's orders and prices beyond its limit. */
  lemma LimitOrderClearsItsLimit(o: Order, b: Book, r: Order)
    requires BookOk(b, PairOf(o)) && Plan(o, Opposite(o, b)).Ok? && o.kind.Limit?
    requires Plan(o, Opposite(o, b)).value.taker.order.remaining > 0 && r in Plan(o, Opposite(o, b)).value.rest
    ensures r.user == o.user || Beyond(o, Price(r))
  {
    PlanHasFacts(o, b);
    hide Validate;
    hide Plan;
  }
}
