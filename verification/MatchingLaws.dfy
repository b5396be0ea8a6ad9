/** What every successful plan guarantees, for every order and every queue of makers. */
module MatchingLaws {
  import opened Prelude
  import opened Amount
  import opened Types
  import opened Matcher

  // ---------------------------------------------------------------- queues

  /** No worse for the opposite side: higher bids and lower asks come first. */
  predicate Ahead(side: Side, a: Order, b: Order) {
    if side.Buy? then Price(a) >= Price(b) else Price(a) <= Price(b)
  }

  ghost predicate Ordered(side: Side, queue: seq<Order>) {
    forall i, j :: 0 <= i < j < |queue| ==> Ahead(side, queue[i], queue[j])
  }

  ghost predicate Distinct(queue: seq<Order>) {
    forall i, j :: 0 <= i < j < |queue| ==> queue[i].id != queue[j].id
  }

  /** An order that may rest on this side of the book of this pair. */
  ghost predicate Resting(o: Order, side: Side, pair: Pair) {
    && o.kind.Limit? && o.side == side && PairOf(o) == pair && Validate(o, false).Ok?
    && (side.Buy? ==> Exact(Price(o), o.remaining))
  }

  ghost predicate AllResting(queue: seq<Order>, side: Side, pair: Pair) {
    forall o :: o in queue ==> Resting(o, side, pair)
  }

  /** The same order with some more of it filled. */
  predicate Continues(o: Order, r: Order) {
    r == o.(filled := r.filled, remaining := r.remaining) && 0 < r.remaining <= o.remaining
    && r.filled + r.remaining == o.filled + o.remaining
  }

  ghost predicate HasOrigin(queue: seq<Order>, r: Order) {
    exists o :: o in queue && Continues(o, r)
  }

  lemma TailOrdered(flat: seq<Order>, side: Side)
    requires flat != [] && Ordered(side, flat)
    ensures Ordered(side, flat[1..]) && forall r :: r in flat[1..] ==> Ahead(side, flat[0], r)
  {
    hide Ahead;
    var rest := flat[1..];
    forall r | r in rest ensures Ahead(side, flat[0], r) {
      var k :| 0 <= k < |rest| && rest[k] == r;
      assert flat[k + 1] == r;
    }
  }

  lemma FirstIsDistinct(queue: seq<Order>)
    requires queue != [] && Distinct(queue)
    ensures Distinct(queue[1..]) && forall o :: o in queue[1..] ==> o.id != queue[0].id
  {
    forall o | o in queue[1..] ensures o.id != queue[0].id {
      var k :| 0 <= k < |queue[1..]| && queue[1..][k] == o;
      assert queue[k + 1] == o;
    }
  }

  /** Stops before the first maker. */
  predicate Stops(t: Taker, queue: seq<Order>) {
    queue == [] || Beyond(t.order, Price(queue[0])) || Done(t.order)
  }

  // ---------------------------------------------------------------- structure of the resulting queue

  lemma PartFillStaysResting(o: Order, r: Order, quantity: int, side: Side, pair: Pair)
    requires Resting(o, side, pair) && 0 < quantity < o.remaining
    requires r == o.(remaining := o.remaining - quantity, filled := o.filled + quantity)
    requires Exact(Price(o), quantity)
    ensures Resting(r, side, pair)
  {
    hide Quote;
    hide Rep;
    hide Value;
    ValidLimit(o);
    ExactSplit(Price(o), o.remaining, quantity);
  }

  /** Makers are only reduced or removed: each one left continues one that was there. */
  lemma {:induction false} WalkKeepsOrders(t: Taker, queue: seq<Order>, side: Side, pair: Pair)
    requires Walk(t, queue).Ok? && AllResting(queue, side, pair)
    ensures AllResting(Walk(t, queue).value.rest, side, pair)
    ensures forall r :: r in Walk(t, queue).value.rest ==> HasOrigin(queue, r)
    decreases |queue|
  {
    hide Validate;
    hide Visit;
    hide Exact;
    hide Quote;
    hide BudgetQuantity;
    hide Value;
    var rest := Walk(t, queue).value.rest;
    if Stops(t, queue) {
      forall r | r in rest ensures HasOrigin(queue, r) {
        assert Continues(r, r) by { ValidLimit(r); }
      }
    } else {
      VisitMeaning(t, queue[0]);
      ValidLimit(queue[0]);
      assert queue[0] in queue;
      match Visit(t, queue[0]).value
      case Skipped =>
        WalkKeepsOrders(t, queue[1..], side, pair);
        assert Continues(queue[0], queue[0]);
      case Filled(t', trade, maker') =>
        WalkKeepsOrders(t', queue[1..], side, pair);
        if maker'.remaining > 0 {
          PartFillStaysResting(queue[0], maker', trade.amount, side, pair);
          assert Continues(queue[0], maker');
        }
    }
  }

  lemma ConsKeepsOrder(head: Order, rest: seq<Order>, queue: seq<Order>, side: Side)
    requires queue != [] && Ordered(side, queue) && Distinct(queue) && Ordered(side, rest) && Distinct(rest)
    requires Price(head) == Price(queue[0]) && head.id == queue[0].id
    requires forall r :: r in rest ==> HasOrigin(queue[1..], r)
    ensures Ordered(side, [head] + rest) && Distinct([head] + rest)
  {
    var both := [head] + rest;
    forall j | 0 < j < |both| ensures Ahead(side, both[0], both[j]) && both[0].id != both[j].id {
      assert both[j] in rest;
      var o :| o in queue[1..] && Continues(o, both[j]);
      var k :| 0 <= k < |queue[1..]| && queue[1..][k] == o;
      assert queue[k + 1] == o;
    }
    forall i, j | 0 <= i < j < |both| ensures Ahead(side, both[i], both[j]) && both[i].id != both[j].id {
      if i > 0 {
        assert both[i] == rest[i - 1] && both[j] == rest[j - 1];
      }
    }
  }

  lemma {:induction false} WalkKeepsPriority(t: Taker, queue: seq<Order>, side: Side, pair: Pair)
    requires Walk(t, queue).Ok? && AllResting(queue, side, pair) && Ordered(side, queue) && Distinct(queue)
    ensures Ordered(side, Walk(t, queue).value.rest) && Distinct(Walk(t, queue).value.rest)
    decreases |queue|
  {
    hide Validate;
    hide Visit;
    hide Ahead;
    if !Stops(t, queue) {
      var next := match Visit(t, queue[0]).value case Skipped => t case Filled(t', _, _) => t';
      WalkKeepsPriority(next, queue[1..], side, pair);
      WalkKeepsOrders(next, queue[1..], side, pair);
      VisitMeaning(t, queue[0]);
      match Visit(t, queue[0]).value
      case Skipped => ConsKeepsOrder(queue[0], Walk(next, queue[1..]).value.rest, queue, side);
      case Filled(_, _, maker') => ConsKeepsOrder(maker', Walk(next, queue[1..]).value.rest, queue, side);
    }
  }

  // ---------------------------------------------------------------- totals

  /** What is left of an order after trading. */
  ghost predicate Advanced(o: Order, o': Order, amount: int, value: int) {
    match o.remainingQuote
    case None => o' == o.(remaining := o.remaining - amount, filled := o.filled + amount)
    case Some(budget) =>
      o' == o.(remainingQuote := Some(budget - value), amount := o.amount + amount, filled := o.filled + amount)
      && budget - value >= 0
  }

  /** Totals, fills and what is still wanted all account for exactly the planned trades. */
  lemma {:induction false} WalkTotals(t: Taker, queue: seq<Order>)
    requires Walk(t, queue).Ok? && (t.order.remainingQuote.Some? ==> t.order.remainingQuote.value >= 0)
    ensures var w := Walk(t, queue).value;
      && w.taker.totalAmount == t.totalAmount + SumAmounts(w.trades)
      && w.taker.totalQuote == t.totalQuote + SumValues(w.trades)
      && Advanced(t.order, w.taker.order, SumAmounts(w.trades), SumValues(w.trades))
      && 0 <= SumAmounts(w.trades) && 0 <= SumValues(w.trades)
      && (w.trades == [] <==> SumAmounts(w.trades) == 0)
      && (t.order.remainingQuote.None? && t.order.remaining >= 0 ==> w.taker.order.remaining >= 0)
    decreases |queue|
  {
    hide Validate;
    hide Visit;
    hide Quote;
    hide BudgetQuantity;
    hide Value;
    hide Exact;
    if !Stops(t, queue) {
      VisitMeaning(t, queue[0]);
      match Visit(t, queue[0]).value
      case Skipped => WalkTotals(t, queue[1..]);
      case Filled(t', trade, maker') =>
        WalkTotals(t', queue[1..]);
        var w := Walk(t', queue[1..]).value;
        assert ([trade] + w.trades)[1..] == w.trades;
    }
  }

  /** The facts each planned trade carries. */
  ghost predicate Settles(o: Order, t: Trade) {
    && t.amount > 0 && t.price > 0 && Quote(t.price, t.amount) == Ok(TradeValue(t)) && Exact(t.price, t.amount)
    && t.base == o.base && t.quote == o.quote && o.base != o.quote && t.buyer != t.seller
    && t.buyOrderId > 0 && t.sellOrderId > 0 && t.buyOrderId != t.sellOrderId && t.buyer > 0 && t.seller > 0
    && (if o.side.Sell? then t.seller == o.user && t.sellOrderId == o.id && t.sellerFeeRate == o.feeRate
        else t.buyer == o.user && t.buyOrderId == o.id && t.buyerFeeRate == o.feeRate)
    && Fee(0, t.buyerFeeRate).Ok? && Fee(0, t.sellerFeeRate).Ok?
    && OrderAsset(t.base) && OrderAsset(t.quote)
    && (o.price.Some? ==> if o.side.Sell? then t.price >= o.price.value else t.price <= o.price.value)
  }

  lemma {:induction false} WalkTradesSettle(t: Taker, queue: seq<Order>, incoming: Order)
    requires Walk(t, queue).Ok? && Validate(incoming, true).Ok?
    requires t.order.id == incoming.id && t.order.user == incoming.user && t.order.side == incoming.side
    requires PairOf(t.order) == PairOf(incoming) && t.order.price == incoming.price && t.order.feeRate == incoming.feeRate
    ensures forall x :: x in Walk(t, queue).value.trades ==> Settles(incoming, x)
    decreases |queue|
  {
    hide Visit;
    hide Quote;
    hide BudgetQuantity;
    hide Value;
    hide Exact;
    hide Rep;
    hide Trimmed;
    if !Stops(t, queue) {
      VisitMeaning(t, queue[0]);
      match Visit(t, queue[0]).value
      case Skipped => WalkTradesSettle(t, queue[1..], incoming);
      case Filled(t', trade, maker') =>
        WalkTradesSettle(t', queue[1..], incoming);
        ValidLimit(queue[0]);
        assert Settles(incoming, trade);
    }
  }

  // ---------------------------------------------------------------- quantity orders: a price-time prefix

  /** The makers an order may trade with: other users', within its limit, in priority order. */
  function Eligible(o: Order, queue: seq<Order>): seq<Order> {
    if queue == [] then []
    else if queue[0].user == o.user || Beyond(o, Price(queue[0])) then Eligible(o, queue[1..])
    else [queue[0]] + Eligible(o, queue[1..])
  }

  function MakerId(o: Order, t: Trade): nat {
    if o.side.Sell? then t.buyOrderId else t.sellOrderId
  }

  /** The trades are the leading makers, each in full except possibly the last, at the makers' prices. */
  ghost predicate PrefixOf(o: Order, trades: seq<Trade>, makers: seq<Order>) {
    && |trades| <= |makers|
    && (forall i :: 0 <= i < |trades| ==>
        MakerId(o, trades[i]) == makers[i].id && trades[i].price == Price(makers[i])
        && 0 < trades[i].amount <= makers[i].remaining)
    && (forall i :: 0 <= i < |trades| - 1 ==> trades[i].amount == makers[i].remaining)
  }

  lemma BeyondStays(o: Order, queue: seq<Order>, side: Side)
    requires Ordered(side, queue) && (side.Buy? <==> o.side.Sell?)
    requires queue != [] && Beyond(o, Price(queue[0]))
    ensures forall m :: m in queue ==> Beyond(o, Price(m))
  {
    forall m | m in queue ensures Beyond(o, Price(m)) {
      var k :| 0 <= k < |queue| && queue[k] == m;
      assert k > 0 ==> Ahead(side, queue[0], queue[k]);
    }
  }

  lemma {:induction false} NoneEligible(o: Order, queue: seq<Order>)
    requires forall m :: m in queue ==> Beyond(o, Price(m))
    ensures Eligible(o, queue) == []
  {
    if queue != [] {
      assert queue[0] in queue;
      NoneEligible(o, queue[1..]);
    }
  }

  lemma EligibleDependsOn(o: Order, o': Order, queue: seq<Order>)
    requires o.user == o'.user && o.price == o'.price && o.side == o'.side
    ensures Eligible(o, queue) == Eligible(o', queue)
  {
  }

  lemma {:induction false} WalkTakesPrefix(t: Taker, queue: seq<Order>, side: Side)
    requires Walk(t, queue).Ok? && t.order.remainingQuote.None? && t.order.remaining >= 0
    requires Ordered(side, queue) && (side.Buy? <==> t.order.side.Sell?)
    requires forall m :: m in queue ==> m.remaining > 0
    ensures var w := Walk(t, queue).value; var makers := Eligible(t.order, queue);
      && PrefixOf(t.order, w.trades, makers)
      && SumAmounts(w.trades) == Min(t.order.remaining, SumRemaining(makers))
      && 0 <= SumRemaining(makers)
      && (w.trades == [] ==> Min(t.order.remaining, SumRemaining(makers)) == 0)
    decreases |queue|
  {
    hide Validate;
    hide Visit;
    hide Quote;
    hide BudgetQuantity;
    hide Value;
    hide Exact;
    hide Ahead;
    var makers := Eligible(t.order, queue);
    if queue != [] && Beyond(t.order, Price(queue[0])) {
      BeyondStays(t.order, queue, side);
      NoneEligible(t.order, queue);
    } else if Stops(t, queue) {
      EligibleRemain(t.order, queue);
    } else {
      VisitMeaning(t, queue[0]);
      assert queue[0] in queue;
      TailOrdered(queue, side);
      match Visit(t, queue[0]).value
      case Skipped => WalkTakesPrefix(t, queue[1..], side);
      case Filled(t', trade, maker') =>
        WalkTakesPrefix(t', queue[1..], side);
        EligibleDependsOn(t.order, t'.order, queue[1..]);
        PrefixCons(t.order, trade, Walk(t', queue[1..]).value.trades, queue[0], Eligible(t'.order, queue[1..]));
    }
  }

  /** A prefix grows by a full fill, or by a last fill that nothing follows. */
  lemma PrefixCons(o: Order, trade: Trade, trades: seq<Trade>, maker: Order, makers: seq<Order>)
    requires PrefixOf(o, trades, makers)
    requires MakerId(o, trade) == maker.id && trade.price == Price(maker) && 0 < trade.amount <= maker.remaining
    requires trades != [] ==> trade.amount == maker.remaining
    ensures PrefixOf(o, [trade] + trades, [maker] + makers)
    ensures SumAmounts([trade] + trades) == trade.amount + SumAmounts(trades)
    ensures SumRemaining([maker] + makers) == maker.remaining + SumRemaining(makers)
  {
    assert ([trade] + trades)[1..] == trades && ([maker] + makers)[1..] == makers;
    var all := [trade] + trades;
    forall i | 0 < i < |all| ensures all[i] == trades[i - 1] && ([maker] + makers)[i] == makers[i - 1] {
    }
  }

  lemma {:induction false} EligibleRemain(o: Order, queue: seq<Order>)
    requires forall m :: m in queue ==> m.remaining > 0
    ensures 0 <= SumRemaining(Eligible(o, queue))
    ensures forall m :: m in Eligible(o, queue) ==> m.remaining > 0
  {
    if queue != [] {
      assert queue[0] in queue;
      EligibleRemain(o, queue[1..]);
      var tail := Eligible(o, queue[1..]);
      assert ([queue[0]] + tail)[1..] == tail;
    }
  }

  // ---------------------------------------------------------------- budget orders: nothing payable is left

  /** No further positive quantity of this order can be paid for exactly within the budget. */
  ghost predicate NothingPayable(r: Order, budget: int) {
    forall q :: 0 < q <= r.remaining ==> !Payable(Price(r), q, budget)
  }

  lemma NothingPayableAtZero(r: Order)
    requires Price(r) > 0
    ensures NothingPayable(r, 0)
  {
    forall q | 0 < q <= r.remaining ensures !Payable(Price(r), q, 0) {
      ProductSign(Price(r), q);
    }
  }

  lemma NothingPayableWhenSkipped(r: Order, budget: int, left: int)
    requires BudgetQuantity(budget, Price(r), r.remaining) == Ok(0) && left <= budget
    ensures NothingPayable(r, left)
  {
    forall q | 0 < q <= r.remaining ensures !Payable(Price(r), q, left) {
      BudgetQuantityIsGreatest(budget, Price(r), r.remaining, q);
    }
  }

  lemma NothingPayableAfterFill(o: Order, r: Order, budget: int, quantity: int, left: int)
    requires BudgetQuantity(budget, Price(o), o.remaining) == Ok(quantity)
    requires r.remaining == o.remaining - quantity && Price(r) == Price(o)
    requires left <= budget - Value(Price(o), quantity)
    ensures NothingPayable(r, left)
  {
    forall q | 0 < q <= r.remaining ensures !Payable(Price(r), q, left) {
      BudgetQuantityIsGreatest(budget, Price(o), o.remaining, quantity + q);
      ExactSplit(Price(o), quantity + q, quantity);
    }
  }

  /** After a budget order, no other user's maker left in the queue admits any further exact quantity. */
  lemma {:induction false} WalkExhaustsBudget(t: Taker, queue: seq<Order>, side: Side, pair: Pair)
    requires Walk(t, queue).Ok? && AllResting(queue, side, pair)
    requires t.order.remainingQuote.Some? && t.order.remainingQuote.value >= 0 && t.order.price.None?
    ensures var w := Walk(t, queue).value;
      w.taker.order.remainingQuote.Some?
      && forall r :: r in w.rest && r.user != t.order.user ==> NothingPayable(r, w.taker.order.remainingQuote.value)
    decreases |queue|
  {
    hide Validate;
    hide Visit;
    hide Quote;
    hide BudgetQuantity;
    hide Value;
    hide Exact;
    hide NothingPayable;
    if Stops(t, queue) {
      forall r | r in queue ensures NothingPayable(r, 0) {
        ValidLimit(r);
        NothingPayableAtZero(r);
      }
    } else {
      VisitMeaning(t, queue[0]);
      WalkTotals(t, queue);
      var left := Walk(t, queue).value.taker.order.remainingQuote.value;
      match Visit(t, queue[0]).value
      case Skipped =>
        WalkExhaustsBudget(t, queue[1..], side, pair);
        if queue[0].user != t.order.user {
          NothingPayableWhenSkipped(queue[0], t.order.remainingQuote.value, left);
        }
      case Filled(t', trade, maker') =>
        WalkExhaustsBudget(t', queue[1..], side, pair);
        WalkTotals(t', queue[1..]);
        NothingPayableAfterFill(queue[0], maker', t.order.remainingQuote.value, trade.amount, left);
    }
  }

  // ---------------------------------------------------------------- limit orders: the book is left uncrossed

  /** If some of a quantity order is left, only its own orders and worse prices remain opposite it. */
  lemma {:induction false} WalkClearsLimit(t: Taker, queue: seq<Order>, side: Side)
    requires Walk(t, queue).Ok? && t.order.remainingQuote.None?
    requires Ordered(side, queue) && (side.Buy? <==> t.order.side.Sell?)
    requires Walk(t, queue).value.taker.order.remaining > 0
    ensures forall r :: r in Walk(t, queue).value.rest ==> r.user == t.order.user || Beyond(t.order, Price(r))
    decreases |queue|
  {
    hide Validate;
    hide Visit;
    hide Quote;
    hide BudgetQuantity;
    hide Value;
    hide Exact;
    hide Ahead;
    if Stops(t, queue) {
      if queue != [] {
        BeyondStays(t.order, queue, side);
      }
    } else {
      VisitMeaning(t, queue[0]);
      ValidLimit(queue[0]);
      TailOrdered(queue, side);
      match Visit(t, queue[0]).value
      case Skipped =>
        WalkClearsLimit(t, queue[1..], side);
      case Filled(t', trade, maker') =>
        WalkTotals(t', queue[1..]);
        WalkClearsLimit(t', queue[1..], side);
    }
  }

  // ---------------------------------------------------------------- committing the plan

  function Key(o: Order): (int, nat) {
    (Price(o), o.id)
  }

  /** Replaces each changed maker in place and drops those with nothing left. */
  function Commit(queue: seq<Order>, changes: map<(int, nat), Order>): seq<Order> {
    if queue == [] then []
    else
      var rest := Commit(queue[1..], changes);
      if Key(queue[0]) in changes then Keep(changes[Key(queue[0])], rest) else [queue[0]] + rest
  }

  lemma {:induction false} CommitNothing(queue: seq<Order>, changes: map<(int, nat), Order>)
    requires forall m :: m in queue ==> Key(m) !in changes
    ensures Commit(queue, changes) == queue
  {
    if queue != [] {
      assert queue[0] in queue;
      CommitNothing(queue[1..], changes);
    }
  }

  /** Committing the recorded changes yields the planned queue, and every change names a maker of the queue. */
  lemma {:induction false} WalkCommits(t: Taker, queue: seq<Order>)
    requires Walk(t, queue).Ok? && Distinct(queue)
    requires forall m :: m in queue ==> Key(m) !in t.makers
    ensures var w := Walk(t, queue).value;
      && Commit(queue, w.taker.makers) == w.rest
      && (forall k :: k in t.makers ==> k in w.taker.makers && w.taker.makers[k] == t.makers[k])
      && (forall k :: k in w.taker.makers ==> k in t.makers || exists m :: m in queue && Key(m) == k)
      && (forall k :: k in w.taker.makers && k !in t.makers ==> Key(w.taker.makers[k]) == k)
    decreases |queue|
  {
    hide Validate;
    hide Visit;
    hide Quote;
    hide BudgetQuantity;
    hide Value;
    hide Exact;
    var w := Walk(t, queue).value;
    if Stops(t, queue) {
      CommitNothing(queue, t.makers);
    } else {
      VisitMeaning(t, queue[0]);
      forall m | m in queue[1..] ensures m.id != queue[0].id {
        var k :| 0 <= k < |queue[1..]| && queue[1..][k] == m;
        assert queue[k + 1] == m;
      }
      assert queue[0] in queue;
      match Visit(t, queue[0]).value
      case Skipped => WalkCommits(t, queue[1..]);
      case Filled(t', trade, maker') => WalkCommits(t', queue[1..]);
    }
  }
}
