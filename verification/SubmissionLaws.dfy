/** What one accepted order does to its book and to the funds reserved for it. */
module SubmissionLaws {
  import opened Prelude
  import opened Amount
  import opened Types
  import opened Matcher
  import opened MatchingLaws
  import opened Balances
  import opened BalanceLaws
  import opened Submission

  // ---------------------------------------------------------------- books

  ghost predicate SideOk(queue: seq<Order>, side: Side, pair: Pair) {
    AllResting(queue, side, pair) && Ordered(side, queue) && Distinct(queue)
  }

  /** A buy and a sell whose prices meet belong to the same user. */
  ghost predicate Uncrossed(b: Book) {
    forall x, y :: x in b.buys && y in b.sells && Price(x) >= Price(y) ==> x.user == y.user
  }

  ghost predicate BookOk(b: Book, pair: Pair) {
    SideOk(b.buys, Buy, pair) && SideOk(b.sells, Sell, pair) && Uncrossed(b)
  }

  function SideOf(o: Order): Side {
    if o.side.Sell? then Buy else Sell
  }

  lemma {:induction false} InsertMembers(queue: seq<Order>, o: Order, side: Side)
    ensures forall r :: r in Insert(queue, o, side) <==> r == o || r in queue
  {
    hide Ahead;
    if queue != [] {
      InsertMembers(queue[1..], o, side);
      assert forall r :: r in queue <==> r == queue[0] || r in queue[1..];
    }
  }

  lemma ConsSideOk(head: Order, rest: seq<Order>, side: Side, pair: Pair)
    requires SideOk(rest, side, pair) && Resting(head, side, pair)
    requires forall r :: r in rest ==> Ahead(side, head, r) && r.id != head.id
    ensures SideOk([head] + rest, side, pair)
  {
    hide Resting;
    hide Ahead;
    var both := [head] + rest;
    forall i, j | 0 <= i < j < |both| ensures Ahead(side, both[i], both[j]) && both[i].id != both[j].id {
      assert both[j] == rest[j - 1] && rest[j - 1] in rest;
      if i > 0 {
        assert both[i] == rest[i - 1];
      }
    }
  }

  lemma TailSideOk(queue: seq<Order>, side: Side, pair: Pair)
    requires queue != [] && SideOk(queue, side, pair)
    ensures SideOk(queue[1..], side, pair) && Resting(queue[0], side, pair)
    ensures forall r :: r in queue[1..] ==> Ahead(side, queue[0], r) && r.id != queue[0].id
  {
    hide Resting;
    hide Ahead;
    assert queue[0] in queue;
    forall r | r in queue[1..] ensures Ahead(side, queue[0], r) && r.id != queue[0].id {
      var k :| 0 <= k < |queue[1..]| && queue[1..][k] == r;
      assert queue[k + 1] == r;
    }
  }

  /** Resting an order keeps the side in price-time priority with distinct ids. */
  lemma {:induction false} InsertSideOk(queue: seq<Order>, o: Order, side: Side, pair: Pair)
    requires SideOk(queue, side, pair) && Resting(o, side, pair)
    requires forall r :: r in queue ==> r.id != o.id
    ensures SideOk(Insert(queue, o, side), side, pair)
  {
    hide Resting;
    hide SideOk;
    if queue == [] {
      assert SideOk([], side, pair) by { EmptySideOk(side, pair); }
      ConsSideOk(o, [], side, pair);
      assert [o] + [] == [o];
    } else {
      TailSideOk(queue, side, pair);
      if Ahead(side, queue[0], o) {
        InsertSideOk(queue[1..], o, side, pair);
        InsertMembers(queue[1..], o, side);
        ConsSideOk(queue[0], Insert(queue[1..], o, side), side, pair);
      } else {
        assert forall r :: r in queue ==> r == queue[0] || r in queue[1..];
        ConsSideOk(o, queue, side, pair);
      }
    }
  }

  lemma EmptySideOk(side: Side, pair: Pair)
    ensures SideOk([], side, pair)
  {
  }

  // ---------------------------------------------------------------- the plan of an accepted order

  /** Everything the matching laws say about the plan of an order against a well-formed book. */
  ghost predicate PlanFacts(o: Order, b: Book, w: Walked) {
    && Validate(o, true).Ok?
    && Commit(Opposite(o, b), w.taker.makers) == w.rest
    && SideOk(w.rest, SideOf(o), PairOf(o))
    && (forall r :: r in w.rest ==> HasOrigin(Opposite(o, b), r))
    && (forall t :: t in w.trades ==> Settles(o, t))
    && w.taker.totalAmount == SumAmounts(w.trades) && w.taker.totalQuote == SumValues(w.trades)
    && 0 <= SumAmounts(w.trades) && 0 <= SumValues(w.trades)
    && Advanced(o, w.taker.order, SumAmounts(w.trades), SumValues(w.trades))
    && (o.remainingQuote.None? ==> w.taker.order.remaining >= 0)
    && (o.kind.Limit? && w.taker.order.remaining > 0 ==>
          forall r :: r in w.rest ==> r.user == o.user || Beyond(o, Price(r)))
  }

  lemma ValidIncoming(o: Order)
    requires Validate(o, true).Ok?
    ensures (o.side.Buy? || o.side.Sell?) && (o.kind.Limit? || o.kind.Market?) && o.base != o.quote && o.filled == 0
    ensures o.id > 0 && o.user > 0
    ensures o.kind.Market? ==> o.price.None?
    ensures o.kind.Market? && o.side.Buy? ==>
      o.remainingQuote.Some? && o.remainingQuote.value > 0 && o.quoteAmount == o.remainingQuote && o.remaining == 0 && o.amount == 0
    ensures !(o.kind.Market? && o.side.Buy?) ==> o.remainingQuote.None? && o.remaining > 0 && o.amount == o.remaining
    ensures o.kind.Limit? ==> o.price.Some? && o.price.value > 0 && Quote(o.price.value, o.amount).Ok?
  {
    hide Quote;
    hide Rep;
    hide Trimmed;
  }

  lemma PlanHasFacts(o: Order, b: Book)
    requires BookOk(b, PairOf(o)) && Plan(o, Opposite(o, b)).Ok?
    ensures PlanFacts(o, b, Plan(o, Opposite(o, b)).value)
  {
    hide Walk;
    hide Validate;
    var queue, side, pair := Opposite(o, b), SideOf(o), PairOf(o);
    var t := Start(o);
    ValidIncoming(o);
    WalkCommits(t, queue);
    WalkKeepsOrders(t, queue, side, pair);
    WalkKeepsPriority(t, queue, side, pair);
    WalkTradesSettle(t, queue, o);
    WalkTotals(t, queue);
    if o.kind.Limit? && Walk(t, queue).value.taker.order.remaining > 0 {
      WalkClearsLimit(t, queue, side);
    }
  }

  // ---------------------------------------------------------------- reservations add up

  /** What trading at the makers' prices instead of the limit saved, in units of 1e-18. */
  function Improvement(limit: int, trades: seq<Trade>): int {
    if trades == [] then 0 else (limit - trades[0].price) * trades[0].amount + Improvement(limit, trades[1..])
  }

  lemma {:induction false} ImprovementMeaning(limit: int, trades: seq<Trade>)
    requires forall t :: t in trades ==> Exact(t.price, t.amount) && t.amount > 0 && t.price <= limit
    ensures Improvement(limit, trades) == limit * SumAmounts(trades) - SumValues(trades) * FACTOR
    ensures Improvement(limit, trades) >= 0
  {
    if trades != [] {
      var t := trades[0];
      assert t in trades;
      ImprovementMeaning(limit, trades[1..]);
      ImprovementStep(limit, t.price, t.amount, SumAmounts(trades[1..]));
      assert t.price * t.amount == TradeValue(t) * FACTOR;
    }
  }

  lemma ImprovementStep(limit: int, price: int, amount: int, rest: int)
    requires price <= limit && amount > 0
    ensures (limit - price) * amount >= 0
    ensures (limit - price) * amount + limit * rest == limit * (amount + rest) - price * amount
  {
    ProductSign(limit - price, amount);
    assert limit * (amount + rest) == limit * amount + limit * rest;
  }

  /** The exact refund of an order, by kind. */
  ghost predicate RefundMeans(o: Order, w: Walked, refund: int) {
    if o.kind.Market? then
      refund == if o.side.Buy? then w.taker.order.remainingQuote.GetOr(0) else w.taker.order.remaining
    else if o.side.Buy? then refund * FACTOR == Improvement(Price(o), w.trades)
    else refund == 0
  }

  /** Whatever the trades were, the reservation covers them and what still rests; the rest is the refund. */
  lemma ReservationCovers(o: Order, b: Book, w: Walked)
    requires PlanFacts(o, b, w) && Reservation(o).Ok? && StillReserved(w.taker.order).Ok?
    ensures var reserved := Reservation(o).value; var used := Used(o, w.taker);
      var remaining := StillReserved(w.taker.order).value; var refund := reserved - used - remaining;
      && reserved > 0 && used >= 0 && remaining >= 0 && refund >= 0 && RefundMeans(o, w, refund)
      && reserved <= MAX_UNITS
      && (o.kind.Limit? && o.side.Buy? ==>
            remaining == Value(Price(o), w.taker.order.remaining) && Exact(Price(o), w.taker.order.remaining))
  {
    ValidIncoming(o);
    hide Validate;
    hide Quote;
    hide Settles;
    hide SideOk;
    hide HasOrigin;
    hide Value;
    hide Exact;
    hide Improvement;
    if o.side.Buy? && o.kind.Limit? {
      LimitBuyCovers(o, b, w);
    } else {
      IncomingInRange(o);
    }
  }

  lemma IncomingInRange(o: Order)
    requires Validate(o, true).Ok?
    ensures 0 <= o.amount <= MAX_UNITS && (o.quoteAmount.Some? ==> 0 <= o.quoteAmount.value <= MAX_UNITS)
  {
    hide Quote;
    hide Rep;
    hide Trimmed;
  }

  lemma LimitBuyCovers(o: Order, b: Book, w: Walked)
    requires PlanFacts(o, b, w) && o.side.Buy? && o.kind.Limit?
    requires Quote(Price(o), o.amount).Ok? && Quote(Price(o), w.taker.order.remaining).Ok?
    ensures var reserved := Value(Price(o), o.amount); var remaining := Value(Price(o), w.taker.order.remaining);
      var refund := reserved - SumValues(w.trades) - remaining;
      && Quote(Price(o), o.amount) == Ok(reserved) && Quote(Price(o), w.taker.order.remaining) == Ok(remaining)
      && 0 < reserved <= MAX_UNITS && remaining >= 0 && refund >= 0 && refund * FACTOR == Improvement(Price(o), w.trades)
      && Exact(Price(o), w.taker.order.remaining)
  {
    ValidIncoming(o);
    QuoteMeaning(Price(o), o.amount);
    QuoteMeaning(Price(o), w.taker.order.remaining);
    hide Validate;
    hide Quote;
    hide SideOk;
    hide HasOrigin;
    hide Value;
    hide Improvement;
    assert forall t :: t in w.trades ==> Exact(t.price, t.amount) && t.amount > 0 && t.price <= Price(o);
    ImprovementMeaning(Price(o), w.trades);
    ExactRefund(Price(o), o.amount, SumAmounts(w.trades), SumValues(w.trades));
    assert w.taker.order.remaining == o.amount - SumAmounts(w.trades);
  }

  lemma ExactRefund(limit: int, amount: int, filled: int, paid: int)
    requires Exact(limit, amount) && Exact(limit, amount - filled)
    ensures (Value(limit, amount) - paid - Value(limit, amount - filled)) * FACTOR == limit * filled - paid * FACTOR
  {
    assert limit * amount == limit * (amount - filled) + limit * filled;
    assert Value(limit, amount) * FACTOR == limit * amount;
    assert Value(limit, amount - filled) * FACTOR == limit * (amount - filled);
  }

  /** So neither subtraction of the refund can go negative. */
  lemma RefundNeverNegative(o: Order, b: Book, w: Walked)
    requires PlanFacts(o, b, w) && Reservation(o).Ok? && StillReserved(w.taker.order).Ok?
    ensures OnlyRange(Refund(Reservation(o).value, Used(o, w.taker), StillReserved(w.taker.order).value))
  {
    ReservationCovers(o, b, w);
    hide PlanFacts;
    hide Reservation;
    hide StillReserved;
    hide Used;
    hide RefundMeans;
    hide Rep;
  }

  /** Reserved = used + still reserved + refund, for every successful order. */
  lemma ChargeAddsUp(o: Order, b: Book, w: Walked, accounts: Accounts)
    requires PlanFacts(o, b, w) && Charge(o, w, accounts).Ok?
    ensures var (_, reserved, refund) := Charge(o, w, accounts).value;
      && Reservation(o) == Ok(reserved) && StillReserved(w.taker.order).Ok? && refund >= 0
      && reserved == Used(o, w.taker) + StillReserved(w.taker.order).value + refund
      && RefundMeans(o, w, refund)
  {
    ReservationCovers(o, b, w);
    hide PlanFacts;
    hide Reservation;
    hide StillReserved;
    hide Used;
    hide RefundMeans;
    hide Rep;
    hide SettleAll;
    hide ChangeReservation;
  }

  // ---------------------------------------------------------------- the book afterwards

  /** Every resting order continues one that was there, or the incoming order itself. */
  ghost predicate Descends(old': seq<Order>, o: Order, side: Side, new': seq<Order>) {
    forall r :: r in new' ==> HasOrigin(old', r) || (o.side == side && Continues(o, r))
  }

  lemma TakerMayRest(o: Order, b: Book, w: Walked)
    requires PlanFacts(o, b, w) && o.kind.Limit? && w.taker.order.remaining > 0 && StillReserved(w.taker.order).Ok?
    ensures Continues(o, w.taker.order) && Resting(w.taker.order, o.side, PairOf(o))
  {
    hide Quote;
    hide Rep;
    hide Trimmed;
    hide SideOk;
    hide Settles;
    hide HasOrigin;
    hide SumValues;
    if o.side.Buy? {
      QuoteMeaning(Price(o), w.taker.order.remaining);
    }
  }

  lemma OriginsAreUncrossed(b: Book, buys: seq<Order>, sells: seq<Order>)
    requires Uncrossed(b)
    requires forall r :: r in buys ==> HasOrigin(b.buys, r)
    requires forall r :: r in sells ==> HasOrigin(b.sells, r)
    ensures Uncrossed(Book(buys, sells))
  {
    forall x, y | x in buys && y in sells && Price(x) >= Price(y) ensures x.user == y.user {
      var x0 :| x0 in b.buys && Continues(x0, x);
      var y0 :| y0 in b.sells && Continues(y0, y);
    }
  }

  lemma OwnOrigins(queue: seq<Order>, side: Side, pair: Pair)
    requires SideOk(queue, side, pair)
    ensures forall r :: r in queue ==> HasOrigin(queue, r)
  {
    forall r | r in queue ensures HasOrigin(queue, r) {
      ValidLimit(r);
      assert Continues(r, r);
    }
  }

  lemma CommittedMakers(o: Order, b: Book, w: Walked) returns (b': Book)
    requires BookOk(b, PairOf(o)) && PlanFacts(o, b, w)
    ensures b' == if o.side.Sell? then b.(buys := w.rest) else b.(sells := w.rest)
    ensures BookOk(b', PairOf(o))
    ensures forall r :: r in b'.buys ==> HasOrigin(b.buys, r)
    ensures forall r :: r in b'.sells ==> HasOrigin(b.sells, r)
  {
    OwnOrigins(b.buys, Buy, PairOf(o));
    OwnOrigins(b.sells, Sell, PairOf(o));
    hide SideOk;
    hide Settles;
    hide HasOrigin;
    hide Validate;
    b' := if o.side.Sell? then b.(buys := w.rest) else b.(sells := w.rest);
    OriginsAreUncrossed(b, b'.buys, b'.sells);
  }

  /** Price-time priority, distinct ids and an uncrossed book survive every accepted order. */
  lemma CommitKeepsBook(o: Order, b: Book, w: Walked)
    requires BookOk(b, PairOf(o)) && PlanFacts(o, b, w) && StillReserved(w.taker.order).Ok?
    requires forall r :: r in b.buys + b.sells ==> r.id != o.id
    ensures var b' := CommitBook(b, w);
      BookOk(b', PairOf(o)) && Descends(b.buys, o, Buy, b'.buys) && Descends(b.sells, o, Sell, b'.sells)
  {
    ValidIncoming(o);
    var mid := CommittedMakers(o, b, w);
    var rested := w.taker.order;
    if o.kind.Limit? && rested.remaining > 0 {
      TakerMayRest(o, b, w);
      RestKeepsBook(o, rested, b, mid);
    }
    hide SideOk;
    hide Settles;
    hide HasOrigin;
    hide Validate;
    hide Resting;
    hide Uncrossed;
  }

  lemma RestKeepsBook(o: Order, rested: Order, b: Book, mid: Book)
    requires BookOk(mid, PairOf(o)) && Continues(o, rested) && Resting(rested, o.side, PairOf(o)) && (o.side.Buy? || o.side.Sell?)
    requires forall r :: r in b.buys + b.sells ==> r.id != o.id
    requires forall r :: r in mid.buys ==> HasOrigin(b.buys, r)
    requires forall r :: r in mid.sells ==> HasOrigin(b.sells, r)
    requires forall r :: r in (if o.side.Sell? then mid.buys else mid.sells) ==> r.user == o.user || Beyond(o, Price(r))
    ensures var b' := AddOrder(mid, rested);
      BookOk(b', PairOf(o)) && Descends(b.buys, o, Buy, b'.buys) && Descends(b.sells, o, Sell, b'.sells)
  {
    hide Validate;
    forall r | r in mid.buys || r in mid.sells ensures r.id != rested.id {
      if r in mid.buys {
        var x :| x in b.buys && Continues(x, r);
        assert x in b.buys + b.sells;
      } else {
        var x :| x in b.sells && Continues(x, r);
        assert x in b.buys + b.sells;
      }
    }
    hide SideOk;
    hide HasOrigin;
    if o.side.Buy? {
      InsertMembers(mid.buys, rested, Buy);
      InsertSideOk(mid.buys, rested, Buy, PairOf(o));
    } else {
      InsertMembers(mid.sells, rested, Sell);
      InsertSideOk(mid.sells, rested, Sell, PairOf(o));
    }
  }
}
