/** Where the obvious claim about matching is too strong, and exactly what holds instead. */
module Edges {
  import opened Prelude
  import opened Amount
  import opened Types
  import opened Matcher
  import opened MatchingLaws
  import opened Submission
  import opened SubmissionLaws
  import opened OrderLaws
  import opened Balances
  import opened Core

  // ---------------------------------------------------------------- who is passed over

  /** A maker is passed over exactly when it is the order's own, or when no quantity of it can be paid for exactly. */
  lemma PassedOverExactly(t: Taker, maker: Order)
    requires Visit(t, maker).Ok? && !Done(t.order) && (t.order.remainingQuote.None? ==> t.order.remaining > 0)
    ensures Visit(t, maker).value.Skipped? <==>
      maker.user == t.order.user || (t.order.remainingQuote.Some? && NothingPayable(maker, t.order.remainingQuote.value))
    ensures Visit(t, maker).value.Skipped? <==>
      maker.user == t.order.user || (t.order.remainingQuote.Some? && LessThanAStep(t.order.remainingQuote.value, maker))
  {
    hide BudgetQuantity;
    hide Quote;
    hide Validate;
    hide Payable;
    hide LessThanAStep;
    VisitMeaning(t, maker);
    ValidLimit(maker);
    if t.order.remainingQuote.Some? && maker.user != t.order.user {
      var budget := t.order.remainingQuote.value;
      var q := Quantity(t.order, maker).value;
      ZeroBelowAStep(budget, maker);
      BudgetQuantityIsGreatest(budget, Price(maker), maker.remaining, q);
      if q == 0 {
        forall other | 0 < other <= maker.remaining ensures !Payable(Price(maker), other, budget) {
          BudgetQuantityIsGreatest(budget, Price(maker), maker.remaining, other);
        }
      }
    }
  }

  /** What the budget pays for at this price, or what the maker has, is below the smallest exactly payable quantity. */
  predicate LessThanAStep(budget: int, maker: Order) {
    Price(maker) > 0 && Min(budget * FACTOR / Price(maker), maker.remaining) < Step(Price(maker))
  }

  lemma ZeroBelowAStep(budget: int, maker: Order)
    requires BudgetQuantity(budget, Price(maker), maker.remaining).Ok?
    ensures BudgetQuantity(budget, Price(maker), maker.remaining).value == 0 <==> LessThanAStep(budget, maker)
  {
    hide Rep;
    NonNegativeQuotient(budget * FACTOR, Price(maker));
    var maximum := Min(budget * FACTOR / Price(maker), maker.remaining);
    NoWholeStep(maximum, Step(Price(maker)));
  }

  lemma NoWholeStep(maximum: int, step: int)
    requires step > 0 && maximum >= 0
    ensures maximum / step * step == 0 <==> maximum < step
  {
    DivisionBounds(maximum, step);
    ProductSign(maximum / step, step);
  }

  /** A quantity order that meets only its own user's orders trades nothing, leaves them all, and may rest across them. */
  lemma {:induction false} OwnOrdersAreLeft(t: Taker, queue: seq<Order>)
    requires t.order.remainingQuote.None? && t.order.remaining > 0
    requires forall m :: m in queue ==>
      m.user == t.order.user && Validate(m, false).Ok? && Matches(t.order, m) && m.id != t.order.id
    ensures Walk(t, queue) == Ok(Walked(t, [], queue))
  {
    hide Validate;
    hide Matches;
    hide Fill;
    hide Beyond;
    if queue != [] {
      assert queue[0] in queue && [queue[0]] + queue[1..] == queue;
      OwnOrdersAreLeft(t, queue[1..]);
    }
  }

  /** So one user's orders can leave a crossed book: any two of them whose prices meet do. */
  lemma OwnOrdersMayCross(ask: Order, bid: Order, b: Book)
    requires b == Book([], [ask]) && ask.side.Sell? && bid.side.Buy? && bid.kind.Limit? && bid.user == ask.user && bid.id != ask.id
    requires Validate(ask, false).Ok? && Validate(bid, true).Ok? && Matches(bid, ask) && Price(bid) >= Price(ask)
    ensures Plan(bid, Opposite(bid, b)).Ok?
    ensures var b' := CommitBook(b, Plan(bid, Opposite(bid, b)).value);
      b' == Book([bid], [ask]) && Price(b'.buys[0]) >= Price(b'.sells[0])
  {
    ValidIncoming(bid);
    hide Validate;
    OwnOrdersAreLeft(Start(bid), [ask]);
    hide Walk;
    CommitNothing([ask], map[]);
  }

  /** An order's own makers come out of the walk as they went in. */
  lemma {:induction false} OwnMakersStay(t: Taker, queue: seq<Order>, m: Order)
    requires Walk(t, queue).Ok? && m in queue && m.user == t.order.user
    ensures m in Walk(t, queue).value.rest
    decreases |queue|
  {
    hide Validate;
    hide Visit;
    hide Quote;
    hide BudgetQuantity;
    hide Value;
    hide Exact;
    if !Stops(t, queue) {
      VisitMeaning(t, queue[0]);
      match Visit(t, queue[0]).value
      case Skipped =>
        if m != queue[0] {
          OwnMakersStay(t, queue[1..], m);
        }
      case Filled(t', _, _) =>
        OwnMakersStay(t', queue[1..], m);
    }
  }

  /** Some bid is at least as high as some ask. */
  ghost predicate Crossed(b: Book) {
    exists x, y :: x in b.buys && y in b.sells && Price(x) >= Price(y)
  }

  /** The order wants more than others offer within its limit, and its own user has an order there. */
  ghost predicate OverrunsItsOwn(o: Order, b: Book) {
    && o.amount > SumRemaining(Eligible(o, Opposite(o, b)))
    && exists r :: r in Opposite(o, b) && r.user == o.user && !Beyond(o, Price(r))
  }

  /**
   Exactly when a limit order leaves a book crossed that was not: it asks for more than all others offer within its
   limit, while an order of its own user stands within that limit. Both can be read off the book beforehand.
  */
  lemma CrossedExactly(o: Order, b: Book)
    requires BookOk(b, PairOf(o)) && !Crossed(b) && o.kind.Limit? && Plan(o, Opposite(o, b)).Ok?
    ensures Crossed(CommitBook(b, Plan(o, Opposite(o, b)).value)) <==> OverrunsItsOwn(o, b)
  {
    var w := Plan(o, Opposite(o, b)).value;
    var rest, rested := w.rest, w.taker.order;
    PlanHasFacts(o, b);
    ValidIncoming(o);
    QuantityOrderTakesThePrefix(o, b);
    assert Walk(Start(o), Opposite(o, b)) == Ok(w);
    hide Validate;
    hide Walk;
    hide Plan;
    hide Beyond;
    CommittedBook(o, b, w);
    if rested.remaining > 0 && OverrunsItsOwn(o, b) {
      var r :| r in Opposite(o, b) && r.user == o.user && !Beyond(o, Price(r));
      OwnMakersStay(Start(o), Opposite(o, b), r);
      RestedCrosses(o, b, w, r);
    }
    if Crossed(CommitBook(b, w)) {
      OnlyRestedCrosses(o, b, w);
    }
  }

  lemma RestedCrosses(o: Order, b: Book, w: Walked, r: Order)
    requires PlanFacts(o, b, w) && o.kind.Limit? && w.taker.order.remaining > 0
    requires r in w.rest && !Beyond(o, Price(r))
    ensures Crossed(CommitBook(b, w))
  {
    CommittedBook(o, b, w);
    ValidIncoming(o);
    hide PlanFacts;
    hide CommitBook;
    hide Validate;
    var b', rested := CommitBook(b, w), w.taker.order;
    assert Price(rested) == Price(o);
    if o.side.Buy? {
      assert rested in b'.buys && r in b'.sells && Price(rested) >= Price(r);
    } else {
      assert r in b'.buys && rested in b'.sells && Price(r) >= Price(rested);
    }
  }

  /** What is left opposite was there, at the same price and of the same user. */
  lemma RestHasOrigin(o: Order, b: Book, w: Walked, m: Order) returns (r: Order)
    requires PlanFacts(o, b, w) && m in w.rest
    ensures r in Opposite(o, b) && r.user == m.user && Price(r) == Price(m)
  {
    hide SideOk;
    hide Settles;
    assert HasOrigin(Opposite(o, b), m);
    r :| r in Opposite(o, b) && Continues(r, m);
  }

  lemma OnlyRestedCrosses(o: Order, b: Book, w: Walked)
    requires PlanFacts(o, b, w) && o.kind.Limit? && !Crossed(b) && Crossed(CommitBook(b, w))
    ensures w.taker.order.remaining > 0
    ensures exists r :: r in Opposite(o, b) && r.user == o.user && !Beyond(o, Price(r))
  {
    CommittedBook(o, b, w);
    ValidIncoming(o);
    hide CommitBook;
    hide Validate;
    hide SideOk;
    hide Settles;
    hide HasOrigin;
    var x, y :| x in CommitBook(b, w).buys && y in CommitBook(b, w).sells && Price(x) >= Price(y);
    var origin := RestHasOrigin(o, b, w, if o.side.Sell? then x else y);
    assert (if o.side.Sell? then y else x) == w.taker.order;
    assert !Beyond(o, Price(origin));
  }

  /** The committed book, as its members. */
  lemma CommittedBook(o: Order, b: Book, w: Walked)
    requires PlanFacts(o, b, w)
    ensures w.taker.order.side == o.side && w.taker.order.price == o.price && w.taker.order.kind == o.kind
    ensures var b' := CommitBook(b, w); var rests := o.kind.Limit? && w.taker.order.remaining > 0;
      && (forall x :: x in b'.buys <==>
            (if o.side.Sell? then x in w.rest else x in b.buys) || (rests && o.side.Buy? && x == w.taker.order))
      && (forall y :: y in b'.sells <==>
            (if o.side.Sell? then y in b.sells else y in w.rest) || (rests && o.side.Sell? && y == w.taker.order))
  {
    ValidIncoming(o);
    hide Validate;
    hide SideOk;
    hide Settles;
    hide HasOrigin;
    hide Commit;
    InsertMembers(if o.side.Sell? then b.sells else b.buys, w.taker.order, o.side);
    hide Insert;
  }

  lemma SmallIsStorable(n: int)
    requires 0 <= n < MANTISSA_LIMIT
    ensures Rep(n)
  {
    NormalizeKeepsValue(Decimal(n, SCALE));
  }

  /** An order that trades nothing reserves its full amount and rests as it came. */
  lemma RestsUntouched(o: Order, b: Book, accounts: Accounts, reserved: int, locked: Accounts)
    requires Plan(o, Opposite(o, b)) == Ok(Walked(Start(o), [], Opposite(o, b))) && o.kind.Limit? && o.remaining == o.amount > 0
    requires Reservation(o) == Ok(reserved) && StillReserved(o) == Ok(reserved) && 0 <= reserved <= MAX_UNITS && Rep(reserved) && Rep(0)
    requires ChangeReservation(accounts, ReserveKey(o), reserved, true) == Ok(locked)
    ensures Execute(o, b, accounts) == Ok(Submission.Applied(AddOrder(b, o), locked, o.id, [], None))
  {
    hide Plan;
    hide Reservation;
    hide StillReserved;
    hide ChangeReservation;
    hide Rep;
    hide Insert;
    CommitNothing(Opposite(o, b), map[]);
    assert Charge(o, Walked(Start(o), [], Opposite(o, b)), accounts) == Ok((locked, reserved, 0));
  }

  const OWN_ASK: Order := Order(1, 1, Sell, Limit, "A", "B", Some(FACTOR), FACTOR, None, 0, FACTOR, None, 0, 0)
  const OWN_BID: Order := Order(2, 1, Buy, Limit, "A", "B", Some(FACTOR), FACTOR, None, 0, FACTOR, None, 0, 0)
  const BOTH_FUNDED: Core :=
    Core(map[(1, "A") := Balance(FACTOR, 0), (1, "B") := Balance(FACTOR, 0)], map[], map[], map[], map[], map[])

  /** What an accepted submission leaves behind. */
  lemma SubmitLeaves(c: Core, o: Order, a: Submission.Applied)
    requires o.id !in c.submissions && Execute(o, BookAt(c, PairOf(o)), c.accounts) == Ok(a)
    ensures var c' := Next(c, Submit(o));
      BookAt(c', PairOf(o)) == a.book && c'.accounts == a.accounts && c'.submissions == c.submissions[o.id := o]
  {
    hide Execute;
  }

  lemma RunTwo(c: Core, x: Command, y: Command)
    ensures Run(c, [x, y]) == Next(Next(c, x), y)
  {
    hide Next;
    assert [x, y][1..] == [y] && [y][1..] == [];
    assert Run(Next(c, x), [y]) == Next(Next(c, x), y);
  }

  /** From a genesis, a user's ask and then the same user's bid at the same price: both rest, and the book is crossed. */
  lemma OwnOrdersCrossInARun()
    ensures IsGenesis(BOTH_FUNDED)
    ensures var c := Run(BOTH_FUNDED, [Submit(OWN_ASK), Submit(OWN_BID)]);
      BookAt(c, Pair("A", "B")) == Book([OWN_BID], [OWN_ASK]) && Crossed(BookAt(c, Pair("A", "B")))
  {
    hide Execute;
    hide Next;
    hide Run;
    var accounts := BOTH_FUNDED.accounts;
    var asked := accounts[(1, "A") := Balance(0, FACTOR)];
    AskRests(accounts, asked);
    SubmitLeaves(BOTH_FUNDED, OWN_ASK, Submission.Applied(Book([], [OWN_ASK]), asked, 1, [], None));
    BidRests(asked);
    SubmitLeaves(Next(BOTH_FUNDED, Submit(OWN_ASK)), OWN_BID,
      Submission.Applied(Book([OWN_BID], [OWN_ASK]), asked[(1, "B") := Balance(0, FACTOR)], 2, [], None));
    RunTwo(BOTH_FUNDED, Submit(OWN_ASK), Submit(OWN_BID));
    assert OWN_BID in [OWN_BID] && OWN_ASK in [OWN_ASK];
  }

  lemma AskRests(accounts: Accounts, asked: Accounts)
    requires (1, "A") in accounts && accounts[(1, "A")] == Balance(FACTOR, 0) && asked == accounts[(1, "A") := Balance(0, FACTOR)]
    ensures Execute(OWN_ASK, EMPTY_BOOK, accounts) == Ok(Submission.Applied(Book([], [OWN_ASK]), asked, 1, [], None))
  {
    hide Rep;
    SmallIsStorable(0);
    SmallIsStorable(FACTOR);
    assert Validate(OWN_ASK, true).Ok?;
    hide Validate;
    assert Plan(OWN_ASK, []) == Ok(Walked(Start(OWN_ASK), [], []));
    RestsUntouched(OWN_ASK, EMPTY_BOOK, accounts, FACTOR, asked);
    hide Execute;
  }

  lemma BidRests(asked: Accounts)
    requires (1, "B") in asked && asked[(1, "B")] == Balance(FACTOR, 0)
    ensures Execute(OWN_BID, Book([], [OWN_ASK]), asked) ==
            Ok(Submission.Applied(Book([OWN_BID], [OWN_ASK]), asked[(1, "B") := Balance(0, FACTOR)], 2, [], None))
  {
    hide Rep;
    SmallIsStorable(0);
    SmallIsStorable(FACTOR);
    assert Validate(OWN_BID, true).Ok? && Validate(OWN_ASK, false).Ok?;
    hide Validate;
    OwnOrdersAreLeft(Start(OWN_BID), [OWN_ASK]);
    RestsUntouched(OWN_BID, Book([], [OWN_ASK]), asked, FACTOR, asked[(1, "B") := Balance(0, FACTOR)]);
    hide Execute;
  }

  // ---------------------------------------------------------------- remainders of limit orders

  /**
   What rests of a limit order can be quoted at its own price exactly when the quantity it can fill can: the smaller of
   its amount and what other users offer within its limit. Fills happen at the makers' prices, so this is no
   consequence of matching; for buys the remainder is checked, for sells it is not.
  */
  lemma RemainderIsExactWhenFilledIs(o: Order, b: Book)
    requires BookOk(b, PairOf(o)) && Plan(o, Opposite(o, b)).Ok? && o.kind.Limit?
    ensures var w := Plan(o, Opposite(o, b)).value;
      Exact(Price(o), w.taker.order.remaining) <==> Exact(Price(o), Min(o.amount, SumRemaining(Eligible(o, Opposite(o, b)))))
  {
    hide Validate;
    hide BookOk;
    hide Exact;
    hide Value;
    hide PrefixOf;
    hide Eligible;
    LimitIsExact(o);
    QuantityOrderTakesThePrefix(o, b);
    hide Plan;
    ExactBothWays(Price(o), o.amount, Min(o.amount, SumRemaining(Eligible(o, Opposite(o, b)))));
  }

  lemma LimitIsExact(o: Order)
    requires Validate(o, true).Ok? && o.kind.Limit?
    ensures Exact(Price(o), o.amount)
  {
    ValidIncoming(o);
    QuoteMeaning(Price(o), o.amount);
    hide Exact;
    hide Value;
  }

  lemma ExactBothWays(price: int, amount: int, filled: int)
    requires Exact(price, amount)
    ensures Exact(price, amount - filled) <==> Exact(price, filled)
  {
    if Exact(price, filled) {
      ExactSplit(price, amount, filled);
    }
    if Exact(price, amount - filled) {
      ExactSplit(price, amount, amount - filled);
    }
  }

  // ---------------------------------------------------------------- two examples

  const ASK: Order := Order(2, 2, Sell, Limit, "A", "B", Some(1), FACTOR, None, 0, FACTOR, None, 0, 0)
  const BID: Order := Order(1, 1, Buy, Limit, "A", "B", Some(FACTOR), FACTOR / 2, None, 0, FACTOR / 2, None, 0, 0)

  /** An ask at one unit of price sells half of itself at a better price; the other half cannot be quoted. */
  lemma SellRemainderMayBeInexact()
    ensures Plan(ASK, Opposite(ASK, Book([BID], []))).Ok?
    ensures var b' := CommitBook(Book([BID], []), Plan(ASK, Opposite(ASK, Book([BID], []))).value);
      b'.buys == [] && |b'.sells| == 1 && b'.sells[0].id == ASK.id && !Exact(Price(b'.sells[0]), b'.sells[0].remaining)
  {
    hide Rep;
    SmallIsStorable(0);
    SmallIsStorable(1);
    SmallIsStorable(FACTOR / 2);
    SmallIsStorable(FACTOR);
    assert Validate(ASK, true).Ok?;
    assert Validate(BID, false).Ok?;
    var filled := BID.(remaining := 0, filled := FACTOR / 2);
    var rested := ASK.(remaining := FACTOR / 2, filled := FACTOR / 2);
    var t' := Taker(rested, FACTOR / 2, FACTOR / 2, map[(FACTOR, 1) := filled]);
    assert Fill(Start(ASK), BID, FACTOR / 2) == Ok(Filled(t', TradeOf(ASK, BID, FACTOR / 2), filled));
    hide Validate;
    hide Fill;
    assert [BID][1..] == [];
    assert Visit(Start(ASK), BID) == Fill(Start(ASK), BID, FACTOR / 2);
    assert Walk(t', []) == Ok(Walked(t', [], []));
    assert Key(BID) == (FACTOR, 1) && Commit([BID][1..], t'.makers) == [];
    assert Commit([BID], t'.makers) == [];
  }

  const CHEAP: Order := Order(3, 3, Sell, Limit, "A", "B", Some(1), FACTOR, None, FACTOR / 2, FACTOR / 2, None, 0, 0)
  const DEAR: Order := Order(4, 4, Sell, Limit, "A", "B", Some(FACTOR), FACTOR, None, 0, FACTOR, None, 0, 0)
  const SPENDER: Order := Order(5, 5, Buy, Market, "A", "B", None, 0, Some(FACTOR), 0, 0, Some(FACTOR), 0, 0)

  /** The budget order once it has bought one unit at the dear price. */
  function Spent(): Taker {
    var filled := DEAR.(remaining := 0, filled := FACTOR);
    Taker(SPENDER.(remainingQuote := Some(0), amount := FACTOR, filled := FACTOR), FACTOR, FACTOR, map[(FACTOR, 4) := filled])
  }

  lemma SpenderVisits()
    ensures Validate(SPENDER, true).Ok?
    ensures Visit(Start(SPENDER), CHEAP) == Ok(Skipped)
    ensures Visit(Start(SPENDER), DEAR) == Ok(Filled(Spent(), TradeOf(SPENDER, DEAR, FACTOR), DEAR.(remaining := 0, filled := FACTOR)))
  {
    hide Rep;
    SmallIsStorable(0);
    SmallIsStorable(1);
    SmallIsStorable(FACTOR / 2);
    SmallIsStorable(FACTOR);
    assert Validate(SPENDER, true).Ok?;
    assert Validate(CHEAP, false).Ok? && Validate(DEAR, false).Ok?;
    hide Validate;
    assert Gcd(1, FACTOR) == 1 && Gcd(0, FACTOR) == FACTOR;
    assert BudgetQuantity(FACTOR, 1, FACTOR / 2) == Ok(0);
    assert BudgetQuantity(FACTOR, FACTOR, FACTOR) == Ok(FACTOR);
    hide BudgetQuantity;
  }

  /** A market buy passes over the better price, no part of which it could pay for exactly, and trades at the worse. */
  lemma MarketBuyMayTradeAtAWorsePrice()
    ensures Price(CHEAP) < Price(DEAR) && Plan(SPENDER, [CHEAP, DEAR]).Ok?
    ensures var w := Plan(SPENDER, [CHEAP, DEAR]).value;
      |w.trades| == 1 && w.trades[0].sellOrderId == DEAR.id && w.trades[0].amount == FACTOR && w.rest == [CHEAP]
  {
    SpenderVisits();
    hide Visit;
    hide Validate;
    assert [DEAR][1..] == [] && [CHEAP, DEAR][1..] == [DEAR];
    var trade := TradeOf(SPENDER, DEAR, FACTOR);
    assert Walk(Spent(), []) == Ok(Walked(Spent(), [], []));
    assert [trade] + [] == [trade] && Keep(DEAR.(remaining := 0, filled := FACTOR), []) == [];
    assert Walk(Start(SPENDER), [DEAR]) == Ok(Walked(Spent(), [trade], []));
    assert [CHEAP] + [] == [CHEAP];
  }
}
