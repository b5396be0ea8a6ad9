/** Why planning an order against a well-formed book can fail: only for exactness or for numeric range. */
module PlanFailures {
  import opened Prelude
  import opened Amount
  import opened Types
  import opened Matcher
  import opened MatchingLaws
  import opened Submission
  import opened SubmissionLaws

  /** Everything the taker counts is in range. */
  predicate TakerInRange(t: Taker) {
    && InUnits(t.order.filled) && InUnits(t.totalAmount) && InUnits(t.totalQuote)
    && (if t.order.remainingQuote.Some? then InUnits(t.order.remainingQuote.value) && InUnits(t.order.amount)
        else InUnits(t.order.remaining))
  }

  /** The only reasons left: numeric range, and for an order that chooses no quantity by budget, a price that must round. */
  predicate OnlyExactness<T>(r: Result<T>, byBudget: bool) {
    r.Err? ==> r.error == Range || r.error == Unrepresentable || (r.error == Rounding && !byBudget)
  }

  lemma QuantityFailsOnlyFor(o: Order, maker: Order)
    requires InUnits(maker.remaining) && 0 < Price(maker) <= MAX_UNITS
    requires o.remainingQuote.Some? ==> InUnits(o.remainingQuote.value)
    requires o.remainingQuote.None? ==> o.remaining > 0
    ensures OnlyExactness(Quantity(o, maker), true)
    ensures Quantity(o, maker).Ok? ==> 0 <= Quantity(o, maker).value <= maker.remaining
    ensures Quantity(o, maker).Ok? && o.remainingQuote.None? ==> Quantity(o, maker).value <= o.remaining
  {
    hide Rep;
    if o.remainingQuote.Some? {
      var budget := o.remainingQuote.value;
      if BudgetQuantity(budget, Price(maker), maker.remaining).Ok? {
        BudgetQuantityIsGreatest(budget, Price(maker), maker.remaining, 0);
      }
    }
  }

  lemma QuoteFailsOnlyFor(o: Order, maker: Order, quantity: int)
    requires InUnits(quantity) && 0 < Price(maker) <= MAX_UNITS && Quantity(o, maker) == Ok(quantity)
    ensures OnlyExactness(Quote(Price(maker), quantity), o.remainingQuote.Some?)
    ensures Quote(Price(maker), quantity).Ok? ==>
      InUnits(Quote(Price(maker), quantity).value)
      && (o.remainingQuote.Some? ==> Quote(Price(maker), quantity).value <= o.remainingQuote.value)
  {
    if o.remainingQuote.Some? {
      BudgetQuantityCanBeQuoted(o.remainingQuote.value, Price(maker), maker.remaining);
      hide Quote;
    } else {
      ProductSign(Price(maker), quantity);
    }
    hide Rep;
  }

  lemma ReduceFailsOnlyFor(o: Order, quantity: int, value: int)
    requires InUnits(quantity) && InUnits(value)
    requires if o.remainingQuote.Some? then value <= o.remainingQuote.value && InUnits(o.remainingQuote.value) && InUnits(o.amount)
      else quantity <= o.remaining && InUnits(o.remaining)
    ensures OnlyExactness(Reduce(o, quantity, value), true)
    ensures Reduce(o, quantity, value).Ok? ==> var o' := Reduce(o, quantity, value).value;
      && o'.filled == o.filled && (o'.remainingQuote.Some? <==> o.remainingQuote.Some?)
      && (if o'.remainingQuote.Some? then InUnits(o'.remainingQuote.value) && InUnits(o'.amount) else InUnits(o'.remaining))
  {
    hide Rep;
  }

  lemma FillFailsOnlyFor(t: Taker, maker: Order, quantity: int)
    requires TakerInRange(t) && InUnits(maker.filled) && InUnits(maker.remaining) && 0 < Price(maker) <= MAX_UNITS
    requires Quantity(t.order, maker) == Ok(quantity) && 0 < quantity <= maker.remaining && Key(maker) !in t.makers
    requires t.order.remainingQuote.None? ==> quantity <= t.order.remaining
    ensures OnlyExactness(Fill(t, maker, quantity), t.order.remainingQuote.Some?)
    ensures Fill(t, maker, quantity).Ok? ==> Fill(t, maker, quantity).value.Filled? && TakerInRange(Fill(t, maker, quantity).value.taker)
  {
    QuoteFailsOnlyFor(t.order, maker, quantity);
    if Quote(Price(maker), quantity).Ok? {
      ReduceFailsOnlyFor(t.order, quantity, Quote(Price(maker), quantity).value);
    }
    hide Quote;
    hide Quantity;
    hide Reduce;
    hide Rep;
  }

  lemma RestingInRange(m: Order, side: Side, pair: Pair)
    requires Resting(m, side, pair)
    ensures InUnits(m.filled) && InUnits(m.remaining) && m.remaining > 0 && 0 < Price(m) <= MAX_UNITS
  {
    ValidLimit(m);
    QuoteMeaning(Price(m), m.amount);
    hide Quote;
    hide Validate;
  }

  lemma VisitFailsOnlyFor(t: Taker, maker: Order, side: Side, pair: Pair)
    requires Resting(maker, side, pair) && (side.Buy? <==> t.order.side.Sell?) && PairOf(t.order) == pair
    requires maker.id != t.order.id && Key(maker) !in t.makers && TakerInRange(t) && !Done(t.order)
    ensures OnlyExactness(Visit(t, maker), t.order.remainingQuote.Some?)
    ensures Visit(t, maker).Ok? && Visit(t, maker).value.Filled? ==> TakerInRange(Visit(t, maker).value.taker)
  {
    RestingInRange(maker, side, pair);
    ValidLimit(maker);
    QuantityFailsOnlyFor(t.order, maker);
    if Quantity(t.order, maker).Ok? && Quantity(t.order, maker).value != 0 {
      FillFailsOnlyFor(t, maker, Quantity(t.order, maker).value);
    }
    hide Fill;
    hide Quantity;
    hide Validate;
    hide TakerInRange;
  }

  lemma {:induction false} WalkFailsOnlyFor(t: Taker, queue: seq<Order>, side: Side, pair: Pair)
    requires AllResting(queue, side, pair) && Distinct(queue) && (side.Buy? <==> t.order.side.Sell?) && PairOf(t.order) == pair
    requires forall m :: m in queue ==> m.id != t.order.id && Key(m) !in t.makers
    requires TakerInRange(t)
    ensures OnlyExactness(Walk(t, queue), t.order.remainingQuote.Some?)
    decreases |queue|
  {
    hide Resting;
    hide Visit;
    hide TakerInRange;
    if !Stops(t, queue) {
      assert queue[0] in queue;
      FirstIsDistinct(queue);
      hide Distinct;
      VisitFailsOnlyFor(t, queue[0], side, pair);
      if Visit(t, queue[0]).Ok? {
        VisitMeaning(t, queue[0]);
        match Visit(t, queue[0]).value
        case Skipped => WalkFailsOnlyFor(t, queue[1..], side, pair);
        case Filled(t', _, _) => WalkFailsOnlyFor(t', queue[1..], side, pair);
      }
    }
  }

  lemma IncomingTaker(o: Order)
    requires Validate(o, true).Ok?
    ensures TakerInRange(Start(o))
  {
    hide Quote;
    hide Rep;
    hide Trimmed;
  }

  /**
   A well-formed order with a new id against a well-formed book is refused by planning only for numeric range, or
   because a fill would have to round; a market buy never because of rounding.
  */
  lemma PlanFailsOnlyFor(o: Order, b: Book)
    requires BookOk(b, PairOf(o)) && Validate(o, true).Ok? && forall r :: r in b.buys + b.sells ==> r.id != o.id
    ensures OnlyExactness(Plan(o, Opposite(o, b)), o.kind.Market? && o.side.Buy?)
  {
    ValidIncoming(o);
    IncomingTaker(o);
    assert forall m :: m in Opposite(o, b) ==> m in b.buys + b.sells;
    hide Validate;
    hide TakerInRange;
    hide Walk;
    WalkFailsOnlyFor(Start(o), Opposite(o, b), SideOf(o), PairOf(o));
  }

  /** One unquotable ask at the front refuses every limit buy that would take all of it. */
  lemma FrontAskRefusesBuys(o: Order, b: Book)
    requires BookOk(b, PairOf(o)) && Validate(o, true).Ok? && o.kind.Limit? && o.side.Buy?
    requires b.sells != [] && b.sells[0].id != o.id && b.sells[0].user != o.user && Price(b.sells[0]) <= Price(o)
    requires b.sells[0].remaining <= o.amount && !Exact(Price(b.sells[0]), b.sells[0].remaining)
    ensures Plan(o, Opposite(o, b)) == Err(Rounding)
  {
    var ask := b.sells[0];
    assert ask in b.sells;
    ValidIncoming(o);
    RestingInRange(ask, Sell, PairOf(o));
    ValidLimit(ask);
    assert Visit(Start(o), ask) == Err(Rounding) by {
      hide Validate;
      hide Rep;
    }
    hide Validate;
    hide Visit;
  }
}
