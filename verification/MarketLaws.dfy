/** The public projection never loses track: after every record it shows exactly the core's own books. */
module MarketLaws {
  import opened Prelude
  import opened Amount
  import opened Types
  import opened Matcher
  import opened MatchingLaws
  import opened Balances
  import opened BalanceLaws
  import opened Submission
  import opened SubmissionLaws
  import opened Core
  import opened CoreLaws
  import opened Journal
  import opened Market

  // ---------------------------------------------------------------- what a queue looks like from outside

  /** The total quantity resting at a price. */
  function LevelSum(queue: seq<Order>, price: int): int {
    if queue == [] then 0 else (if Price(queue[0]) == price then queue[0].remaining else 0) + LevelSum(queue[1..], price)
  }

  ghost predicate ShowsLevels(levels: map<int, int>, queue: seq<Order>) {
    forall price: int :: At(levels, price) == LevelSum(queue, price) && (price in levels ==> levels[price] > 0)
  }

  function View(o: Order): RestingView {
    RestingView(PairOf(o), o.side.Buy?, Price(o), o.remaining)
  }

  function SideQueue(books: map<Pair, Book>, p: Pair, buy: bool): seq<Order> {
    var b := if p in books then books[p] else EMPTY_BOOK;
    if buy then b.buys else b.sells
  }

  /** The resting order with this id, found through the submission that created it. */
  function Live(books: map<Pair, Book>, subs: map<nat, Order>, id: nat): Option<Order> {
    if id in subs then Find(SideQueue(books, PairOf(subs[id]), subs[id].side.Buy?), id) else None
  }

  ghost predicate ShowsOrders(orders: map<nat, RestingView>, books: map<Pair, Book>, subs: map<nat, Order>) {
    forall id: nat ::
      (id in orders <==> Live(books, subs, id).Some?)
      && (id in orders ==> orders[id] == View(Live(books, subs, id).value))
  }

  ghost predicate ShowsDepths(depths: map<Pair, Depth>, books: map<Pair, Book>) {
    forall p: Pair ::
      ShowsLevels((if p in depths then depths[p] else NO_DEPTH).bids, SideQueue(books, p, true))
      && ShowsLevels((if p in depths then depths[p] else NO_DEPTH).asks, SideQueue(books, p, false))
  }

  ghost predicate Shows(j: Projection, books: map<Pair, Book>, subs: map<nat, Order>) {
    ShowsOrders(j.orders, books, subs) && ShowsDepths(j.depths, books)
  }

  /** Each queue holds distinct, positive orders of its own submissions. */
  ghost predicate OwnQueue(queue: seq<Order>, p: Pair, buy: bool, subs: map<nat, Order>) {
    && Distinct(queue)
    && forall o :: o in queue ==> OwnOrder(o, p, buy, subs)
  }

  ghost predicate Owned(books: map<Pair, Book>, subs: map<nat, Order>) {
    forall p :: p in books ==> OwnQueue(books[p].buys, p, true, subs) && OwnQueue(books[p].sells, p, false, subs)
  }

  lemma InvIsOwned(c: Core)
    requires Inv(c)
    ensures Owned(c.books, c.submissions)
  {
    hide Validate;
    hide Exact;
    hide AllInRange;
    hide Ordered;
    hide Uncrossed;
    forall p | p in c.books
      ensures OwnQueue(c.books[p].buys, p, true, c.submissions) && OwnQueue(c.books[p].sells, p, false, c.submissions)
    {
      assert BookInv(c.books[p], p, c.submissions);
      QueueIsOwn(c.books[p].buys, p, Buy, c.submissions);
      QueueIsOwn(c.books[p].sells, p, Sell, c.submissions);
    }
  }

  lemma QueueIsOwn(queue: seq<Order>, p: Pair, side: Side, subs: map<nat, Order>)
    requires SideOk(queue, side, p) && Traceable(queue, subs)
    ensures OwnQueue(queue, p, side.Buy?, subs)
  {
    forall o | o in queue ensures o.remaining > 0 {
      ValidLimit(o);
    }
    hide Validate;
    hide Exact;
  }

  // ---------------------------------------------------------------- one reduction

  /** Takes a quantity off the order with this id, dropping it when nothing is left. */
  function ReduceIn(queue: seq<Order>, id: nat, quantity: int): seq<Order> {
    if queue == [] then []
    else if queue[0].id == id then
      Keep(queue[0].(remaining := queue[0].remaining - quantity, filled := queue[0].filled + quantity), queue[1..])
    else [queue[0]] + ReduceIn(queue[1..], id, quantity)
  }

  lemma {:induction false} ReduceInFind(queue: seq<Order>, o: Order, quantity: int, j: nat)
    requires o in queue && Distinct(queue) && quantity <= o.remaining
    ensures Find(queue, o.id) == Some(o)
    ensures var o' := o.(remaining := o.remaining - quantity, filled := o.filled + quantity);
      Find(ReduceIn(queue, o.id, quantity), j) ==
        if j != o.id then Find(queue, j) else if quantity == o.remaining then None else Some(o')
  {
    if queue[0].id == o.id {
      var i :| 0 <= i < |queue| && queue[i] == o;
      assert i == 0;
      FindMeaning(queue[1..], o.id);
    } else {
      assert o in queue[1..];
      ReduceInFind(queue[1..], o, quantity, j);
    }
  }

  lemma {:induction false} ReduceInLevels(queue: seq<Order>, o: Order, quantity: int, price: int)
    requires o in queue && Distinct(queue) && (forall x :: x in queue ==> x.remaining > 0) && quantity <= o.remaining
    ensures LevelSum(ReduceIn(queue, o.id, quantity), price) == LevelSum(queue, price) - if price == Price(o) then quantity else 0
    ensures LevelSum(queue, Price(o)) >= o.remaining
  {
    if queue[0].id == o.id {
      var i :| 0 <= i < |queue| && queue[i] == o;
      assert i == 0;
      LevelSumNonNegative(queue[1..], Price(o));
      var o' := o.(remaining := o.remaining - quantity, filled := o.filled + quantity);
      assert ([o'] + queue[1..])[1..] == queue[1..];
    } else {
      assert o in queue[1..];
      ReduceInLevels(queue[1..], o, quantity, price);
      var rest := ReduceIn(queue[1..], o.id, quantity);
      assert ([queue[0]] + rest)[1..] == rest;
      assert queue[0] in queue;
    }
  }

  lemma {:induction false} LevelSumNonNegative(queue: seq<Order>, price: int)
    requires forall x :: x in queue ==> x.remaining > 0
    ensures LevelSum(queue, price) >= 0
  {
    if queue != [] {
      assert queue[0] in queue;
      LevelSumNonNegative(queue[1..], price);
    }
  }

  lemma {:induction false} ReduceInOwn(queue: seq<Order>, o: Order, quantity: int, p: Pair, buy: bool, subs: map<nat, Order>)
    requires OwnQueue(queue, p, buy, subs) && o in queue && 0 < quantity <= o.remaining
    ensures OwnQueue(ReduceIn(queue, o.id, quantity), p, buy, subs)
    ensures forall x :: x in ReduceIn(queue, o.id, quantity) ==> exists y :: y in queue && y.id == x.id
  {
    hide OwnQueue;
    var head, tail := queue[0], queue[1..];
    OwnTail(queue, p, buy, subs);
    assert forall x :: x in queue <==> x == head || x in tail;
    if head.id == o.id {
      assert o == head;
      var o' := o.(remaining := o.remaining - quantity, filled := o.filled + quantity);
      if o'.remaining > 0 {
        OwnCons(o', tail, p, buy, subs);
      }
    } else {
      ReduceInOwn(tail, o, quantity, p, buy, subs);
      OwnCons(head, ReduceIn(tail, o.id, quantity), p, buy, subs);
    }
  }

  predicate OwnOrder(o: Order, p: Pair, buy: bool, subs: map<nat, Order>) {
    o.remaining > 0 && PairOf(o) == p && o.side.Buy? == buy && o.id in subs && PairOf(subs[o.id]) == p && subs[o.id].side.Buy? == buy
  }

  lemma OwnTail(queue: seq<Order>, p: Pair, buy: bool, subs: map<nat, Order>)
    requires OwnQueue(queue, p, buy, subs) && queue != []
    ensures OwnOrder(queue[0], p, buy, subs) && OwnQueue(queue[1..], p, buy, subs)
    ensures forall x :: x in queue[1..] ==> x.id != queue[0].id
  {
    assert queue[0] in queue;
    forall x | x in queue[1..] ensures x.id != queue[0].id {
      var k :| 0 <= k < |queue[1..]| && queue[1..][k] == x;
      assert queue[k + 1] == x;
    }
  }

  lemma OwnCons(head: Order, rest: seq<Order>, p: Pair, buy: bool, subs: map<nat, Order>)
    requires OwnOrder(head, p, buy, subs) && OwnQueue(rest, p, buy, subs) && forall x :: x in rest ==> x.id != head.id
    ensures OwnQueue([head] + rest, p, buy, subs)
  {
    var both := [head] + rest;
    forall i, j | 0 <= i < j < |both| ensures both[i].id != both[j].id {
      assert both[j] == rest[j - 1] && rest[j - 1] in rest;
      if i > 0 {
        assert both[i] == rest[i - 1];
      }
    }
  }

  function WithQueue(books: map<Pair, Book>, p: Pair, buy: bool, queue: seq<Order>): map<Pair, Book> {
    var b := if p in books then books[p] else EMPTY_BOOK;
    books[p := if buy then b.(buys := queue) else b.(sells := queue)]
  }

  lemma LoweredShows(levels: map<int, int>, queue: seq<Order>, o: Order, quantity: int)
    requires ShowsLevels(levels, queue) && o in queue && Distinct(queue)
    requires (forall x :: x in queue ==> x.remaining > 0) && 0 < quantity <= o.remaining
    ensures Price(o) in levels && levels[Price(o)] >= quantity
    ensures ShowsLevels(Lowered(levels, Price(o), quantity), ReduceIn(queue, o.id, quantity))
  {
    ReduceInLevels(queue, o, quantity, Price(o));
    assert At(levels, Price(o)) == LevelSum(queue, Price(o));
    var levels' := Lowered(levels, Price(o), quantity);
    forall price: int
      ensures At(levels', price) == LevelSum(ReduceIn(queue, o.id, quantity), price) && (price in levels' ==> levels'[price] > 0)
    {
      ReduceInLevels(queue, o, quantity, price);
      assert At(levels, price) == LevelSum(queue, price) && (price in levels ==> levels[price] > 0);
    }
  }

  lemma OrderIsShown(j: Projection, books: map<Pair, Book>, subs: map<nat, Order>, p: Pair, buy: bool, o: Order)
    requires ShowsOrders(j.orders, books, subs) && OwnQueue(SideQueue(books, p, buy), p, buy, subs) && o in SideQueue(books, p, buy)
    ensures o.id in j.orders && j.orders[o.id] == View(o)
    ensures View(o).pair == p && View(o).buy == buy && o.remaining > 0
  {
    ReduceInFind(SideQueue(books, p, buy), o, 0, o.id);
    assert Live(books, subs, o.id) == Some(o);
  }

  lemma LevelsAreShown(j: Projection, books: map<Pair, Book>, subs: map<nat, Order>, p: Pair, buy: bool, o: Order, quantity: int)
    requires ShowsDepths(j.depths, books) && OwnQueue(SideQueue(books, p, buy), p, buy, subs)
    requires o in SideQueue(books, p, buy) && 0 < quantity <= o.remaining
    ensures var levels := if buy then DepthAt(j, p).bids else DepthAt(j, p).asks;
      && p in j.depths && Price(o) in levels && levels[Price(o)] >= quantity
      && ShowsLevels(Lowered(levels, Price(o), quantity), ReduceIn(SideQueue(books, p, buy), o.id, quantity))
  {
    var levels := if buy then DepthAt(j, p).bids else DepthAt(j, p).asks;
    assert ShowsLevels(levels, SideQueue(books, p, buy));
    LoweredShows(levels, SideQueue(books, p, buy), o, quantity);
  }

  /** Reducing a maker publicly is reducing it in the book. */
  lemma ReduceTracks(j: Projection, books: map<Pair, Book>, subs: map<nat, Order>, p: Pair, buy: bool, o: Order, quantity: int)
    requires Shows(j, books, subs) && p in books && OwnQueue(SideQueue(books, p, buy), p, buy, subs)
    requires o in SideQueue(books, p, buy) && 0 < quantity && Subtract(o.remaining, quantity).Ok?
    ensures var books' := WithQueue(books, p, buy, ReduceIn(SideQueue(books, p, buy), o.id, quantity));
      ReduceView(j, o.id, quantity).Follows? && Shows(ReduceView(j, o.id, quantity).value, books', subs)
      && OwnQueue(SideQueue(books', p, buy), p, buy, subs)
  {
    hide ShowsOrders;
    hide ShowsDepths;
    hide ShowsLevels;
    hide OwnQueue;
    hide Subtract;
    hide Lowered;
    hide ReduceIn;
    var queue := SideQueue(books, p, buy);
    SubtractMeaning(o.remaining, quantity);
    OrderIsShown(j, books, subs, p, buy, o);
    LevelsAreShown(j, books, subs, p, buy, o, quantity);
    ReduceInOwn(queue, o, quantity, p, buy, subs);
    ReducedOrders(j.orders, books, subs, p, buy, o, quantity);
    var levels := if buy then DepthAt(j, p).bids else DepthAt(j, p).asks;
    ReducedDepths(j.depths, books, p, buy, ReduceIn(queue, o.id, quantity), Lowered(levels, Price(o), quantity));
  }

  lemma SubtractMeaning(left: int, right: int)
    requires Subtract(left, right).Ok?
    ensures Subtract(left, right).value == left - right >= 0 && right >= 0
  {
    hide Rep;
  }

  lemma ReducedOrders(
    orders: map<nat, RestingView>, books: map<Pair, Book>, subs: map<nat, Order>, p: Pair, buy: bool, o: Order, quantity: int)
    requires ShowsOrders(orders, books, subs) && p in books && OwnQueue(SideQueue(books, p, buy), p, buy, subs)
    requires o in SideQueue(books, p, buy) && 0 < quantity <= o.remaining
    ensures var books' := WithQueue(books, p, buy, ReduceIn(SideQueue(books, p, buy), o.id, quantity));
      var orders' := if quantity == o.remaining then orders - {o.id} else orders[o.id := View(o).(remaining := o.remaining - quantity)];
      ShowsOrders(orders', books', subs)
  {
    var queue := SideQueue(books, p, buy);
    var books' := WithQueue(books, p, buy, ReduceIn(queue, o.id, quantity));
    forall id: nat ensures Live(books', subs, id) ==
      if id != o.id then Live(books, subs, id)
      else if quantity == o.remaining then None
      else Some(o.(remaining := o.remaining - quantity, filled := o.filled + quantity))
    {
      ReduceInFind(queue, o, quantity, id);
    }
  }

  lemma ReducedDepths(
    depths: map<Pair, Depth>, books: map<Pair, Book>, p: Pair, buy: bool, queue': seq<Order>, levels': map<int, int>)
    requires ShowsDepths(depths, books) && ShowsLevels(levels', queue')
    ensures var depth := if p in depths then depths[p] else NO_DEPTH;
      ShowsDepths(depths[p := if buy then depth.(bids := levels') else depth.(asks := levels')], WithQueue(books, p, buy, queue'))
  {
    hide ShowsLevels;
    var depth := if p in depths then depths[p] else NO_DEPTH;
    var depths' := depths[p := if buy then depth.(bids := levels') else depth.(asks := levels')];
    var books' := WithQueue(books, p, buy, queue');
    forall q: Pair ensures
      ShowsLevels((if q in depths' then depths'[q] else NO_DEPTH).bids, SideQueue(books', q, true))
      && ShowsLevels((if q in depths' then depths'[q] else NO_DEPTH).asks, SideQueue(books', q, false))
    {
      assert ShowsLevels((if q in depths then depths[q] else NO_DEPTH).bids, SideQueue(books, q, true));
      assert ShowsLevels((if q in depths then depths[q] else NO_DEPTH).asks, SideQueue(books, q, false));
    }
  }

  // ---------------------------------------------------------------- a submission's trades

  /** Reduces the makers of trades one after another. */
  function ReduceAll(queue: seq<Order>, o: Order, trades: seq<Trade>): seq<Order>
    decreases |trades|
  {
    if trades == [] then queue
    else ReduceAll(ReduceIn(queue, MakerOf(o, trades[0]), trades[0].amount), o, trades[1..])
  }

  /** Each trade names a maker still in the queue, with a reduction the exact arithmetic accepts. */
  ghost predicate Reducible(queue: seq<Order>, o: Order, trades: seq<Trade>, filled: int)
    decreases |trades|
  {
    trades == [] ||
    (var t := trades[0];
     && t.amount > 0 && Add(filled, t.amount) == Ok(filled + t.amount)
     && (exists m :: m in queue && m.id == MakerOf(o, t) && Subtract(m.remaining, t.amount).Ok?)
     && Reducible(ReduceIn(queue, MakerOf(o, t), t.amount), o, trades[1..], filled + t.amount))
  }

  lemma FillArithmetic(t: Taker, maker: Order)
    requires Visit(t, maker).Ok? && Visit(t, maker).value.Filled?
    ensures var Filled(t', trade, maker') := Visit(t, maker).value;
      && Subtract(maker.remaining, trade.amount).Ok? && Add(t.totalAmount, trade.amount) == Ok(t'.totalAmount)
      && (t.order.remainingQuote.None? ==> Rep(t'.order.remaining))
  {
    hide BudgetQuantity;
    hide Quote;
    hide Rep;
    hide Validate;
  }

  lemma {:induction false} ReduceAllSkips(head: Order, queue: seq<Order>, o: Order, trades: seq<Trade>, filled: int)
    requires Reducible(queue, o, trades, filled) && (forall m :: m in queue ==> m.id != head.id)
    ensures Reducible([head] + queue, o, trades, filled)
    ensures ReduceAll([head] + queue, o, trades) == [head] + ReduceAll(queue, o, trades)
    decreases |trades|
  {
    hide Subtract;
    hide Add;
    if trades != [] {
      var t := trades[0];
      var m :| m in queue && m.id == MakerOf(o, t) && Subtract(m.remaining, t.amount).Ok?;
      assert m in [head] + queue;
      var next := ReduceIn(queue, MakerOf(o, t), t.amount);
      assert ([head] + queue)[1..] == queue;
      assert ReduceIn([head] + queue, MakerOf(o, t), t.amount) == [head] + next;
      ReduceInIds(queue, MakerOf(o, t), t.amount);
      ReduceAllSkips(head, next, o, trades[1..], filled + t.amount);
    }
  }

  lemma {:induction false} ReduceInIds(queue: seq<Order>, id: nat, quantity: int)
    ensures forall x :: x in ReduceIn(queue, id, quantity) ==> exists y :: y in queue && y.id == x.id
  {
    if queue != [] {
      assert queue[0] in queue;
      ReduceInIds(queue[1..], id, quantity);
    }
  }

  lemma NoReduction(queue: seq<Order>, o: Order, filled: int)
    ensures Reducible(queue, o, [], filled) && ReduceAll(queue, o, []) == queue
  {
  }

  /** Replaying a plan's trades as public reductions reproduces the planned queue. */
  lemma {:induction false} WalkIsReductions(t: Taker, queue: seq<Order>, o: Order)
    requires Walk(t, queue).Ok? && Distinct(queue) && t.order.side == o.side && (o.side.Buy? || o.side.Sell?)
    ensures var w := Walk(t, queue).value;
      Reducible(queue, o, w.trades, t.totalAmount) && ReduceAll(queue, o, w.trades) == w.rest
    decreases |queue|
  {
    hide Visit;
    hide Quote;
    hide BudgetQuantity;
    hide Value;
    hide Exact;
    hide Subtract;
    hide Add;
    hide Validate;
    NoReduction(queue, o, t.totalAmount);
    hide Reducible;
    hide ReduceAll;
    if !Stops(t, queue) {
      VisitMeaning(t, queue[0]);
      FirstIsDistinct(queue);
      match Visit(t, queue[0]).value
      case Skipped =>
        WalkIsReductions(t, queue[1..], o);
        ReduceAllSkips(queue[0], queue[1..], o, Walk(t, queue[1..]).value.trades, t.totalAmount);
        assert [queue[0]] + queue[1..] == queue;
      case Filled(t', trade, maker') =>
        FillArithmetic(t, queue[0]);
        WalkIsReductions(t', queue[1..], o);
        FirstReduction(queue, o, trade, Walk(t', queue[1..]).value.trades, t.totalAmount);
    }
  }

  /** A trade with the first maker, followed by trades with later ones. */
  lemma {:induction false} FirstReduction(queue: seq<Order>, o: Order, trade: Trade, trades: seq<Trade>, filled: int)
    requires queue != [] && (forall m :: m in queue[1..] ==> m.id != queue[0].id)
    requires MakerOf(o, trade) == queue[0].id && trade.amount > 0 && Subtract(queue[0].remaining, trade.amount).Ok?
    requires Add(filled, trade.amount) == Ok(filled + trade.amount) && Reducible(queue[1..], o, trades, filled + trade.amount)
    ensures var maker' := queue[0].(remaining := queue[0].remaining - trade.amount, filled := queue[0].filled + trade.amount);
      Reducible(queue, o, [trade] + trades, filled)
      && ReduceAll(queue, o, [trade] + trades) == Keep(maker', ReduceAll(queue[1..], o, trades))
  {
    hide Subtract;
    hide Add;
    var maker' := queue[0].(remaining := queue[0].remaining - trade.amount, filled := queue[0].filled + trade.amount);
    ReduceAllSkips(maker', queue[1..], o, trades, filled + trade.amount);
    assert ReduceIn(queue, queue[0].id, trade.amount) == Keep(maker', queue[1..]);
    assert ([trade] + trades)[1..] == trades;
    assert queue[0] in queue;
  }

  lemma FirstReducible(queue: seq<Order>, o: Order, trades: seq<Trade>, filled: int) returns (m: Order)
    requires Reducible(queue, o, trades, filled) && trades != []
    ensures m in queue && m.id == MakerOf(o, trades[0]) && Subtract(m.remaining, trades[0].amount).Ok? && trades[0].amount > 0
    ensures Add(filled, trades[0].amount) == Ok(filled + trades[0].amount)
    ensures Reducible(ReduceIn(queue, m.id, trades[0].amount), o, trades[1..], filled + trades[0].amount)
  {
    hide Subtract;
    hide Add;
    m :| m in queue && m.id == MakerOf(o, trades[0]) && Subtract(m.remaining, trades[0].amount).Ok?;
  }

  lemma {:induction false} WithQueueAgain(books: map<Pair, Book>, p: Pair, buy: bool, queue: seq<Order>, queue': seq<Order>)
    ensures var mid := WithQueue(books, p, buy, queue);
      SideQueue(mid, p, buy) == queue && p in mid && WithQueue(mid, p, buy, queue') == WithQueue(books, p, buy, queue')
  {
  }

  lemma {:induction false} TradesTrack(
    j: Projection, books: map<Pair, Book>, subs: map<nat, Order>, p: Pair, buy: bool, o: Order, trades: seq<Trade>, filled: int)
    requires Shows(j, books, subs) && p in books && OwnQueue(SideQueue(books, p, buy), p, buy, subs)
    requires Reducible(SideQueue(books, p, buy), o, trades, filled)
    ensures var r := ReduceTrades(j, o, Outputs(trades), filled);
      var books' := WithQueue(books, p, buy, ReduceAll(SideQueue(books, p, buy), o, trades));
      && r.Follows? && r.value.1 == filled + SumAmounts(trades) && Shows(r.value.0, books', subs)
      && OwnQueue(SideQueue(books', p, buy), p, buy, subs)
    decreases |trades|
  {
    hide Shows;
    hide OwnQueue;
    hide Subtract;
    hide Add;
    hide ReduceView;
    hide OutputOf;
    hide Reducible;
    hide ReduceIn;
    var queue := SideQueue(books, p, buy);
    if trades == [] {
      assert WithQueue(books, p, buy, queue) == books;
    } else {
      var t := trades[0];
      var m := FirstReducible(queue, o, trades, filled);
      ReduceTracks(j, books, subs, p, buy, m, t.amount);
      var queue' := ReduceIn(queue, m.id, t.amount);
      var next := WithQueue(books, p, buy, queue');
      WithQueueAgain(books, p, buy, queue', ReduceAll(queue', o, trades[1..]));
      hide WithQueue;
      hide SideQueue;
      TradesTrack(ReduceView(j, m.id, t.amount).value, next, subs, p, buy, o, trades[1..], filled + t.amount);
      OutputsCons(trades);
    }
  }

  lemma OutputsCons(trades: seq<Trade>)
    requires trades != []
    ensures Outputs(trades)[0].trade == trades[0] && Outputs(trades)[1..] == Outputs(trades[1..])
  {
    hide FeesOf;
  }

  // ---------------------------------------------------------------- resting and cancelling

  lemma {:induction false} InsertFind(queue: seq<Order>, o: Order, side: Side, j: nat)
    requires forall m :: m in queue ==> m.id != o.id
    ensures Find(Insert(queue, o, side), j) == if j == o.id then Some(o) else Find(queue, j)
  {
    hide Ahead;
    if queue != [] {
      assert queue[0] in queue;
      InsertFind(queue[1..], o, side, j);
      assert ([queue[0]] + Insert(queue[1..], o, side))[1..] == Insert(queue[1..], o, side);
      assert ([o] + queue)[1..] == queue;
      FindMeaning(queue, o.id);
    }
  }

  lemma {:induction false} InsertLevels(queue: seq<Order>, o: Order, side: Side, price: int)
    ensures LevelSum(Insert(queue, o, side), price) == LevelSum(queue, price) + if Price(o) == price then o.remaining else 0
  {
    hide Ahead;
    if queue != [] {
      InsertLevels(queue[1..], o, side, price);
      assert ([queue[0]] + Insert(queue[1..], o, side))[1..] == Insert(queue[1..], o, side);
      assert ([o] + queue)[1..] == queue;
    }
  }

  lemma {:induction false} RemoveIsReduction(queue: seq<Order>, o: Order)
    requires o in queue && Distinct(queue)
    ensures ReduceIn(queue, o.id, o.remaining) == Remove(queue, o.id)
  {
    if queue[0].id == o.id {
      var i :| 0 <= i < |queue| && queue[i] == o;
      assert i == 0;
    } else {
      RemoveIsReduction(queue[1..], o);
    }
  }

  /** Publicly resting an order is inserting it in the book. */
  lemma RestTracks(j: Projection, books: map<Pair, Book>, subs: map<nat, Order>, o: Order)
    requires Shows(j, books, subs) && PairOf(o) in books && (o.side.Buy? || o.side.Sell?) && o.remaining > 0
    requires o.id in subs && PairOf(subs[o.id]) == PairOf(o) && subs[o.id].side == o.side
    requires forall m :: m in SideQueue(books, PairOf(o), o.side.Buy?) ==> m.id != o.id && m.remaining > 0
    ensures var r := Rest(j, o, o.remaining);
      r.Follows? && Shows(r.value, books[PairOf(o) := AddOrder(books[PairOf(o)], o)], subs)
  {
    hide ShowsOrders;
    hide ShowsDepths;
    hide ShowsLevels;
    hide Insert;
    var p, buy := PairOf(o), o.side.Buy?;
    var queue := SideQueue(books, p, buy);
    NotShown(j, books, subs, o);
    RestedOrders(j.orders, books, subs, o);
    SideIsShown(j.depths, books, p, buy);
    var levels := if buy then DepthAt(j, p).bids else DepthAt(j, p).asks;
    RaisedShows(levels, queue, o);
    ReducedDepths(j.depths, books, p, buy, Insert(queue, o, o.side), levels[Price(o) := At(levels, Price(o)) + o.remaining]);
    assert WithQueue(books, p, buy, Insert(queue, o, o.side)) == books[p := AddOrder(books[p], o)];
  }

  lemma NotShown(j: Projection, books: map<Pair, Book>, subs: map<nat, Order>, o: Order)
    requires ShowsOrders(j.orders, books, subs) && o.id in subs && PairOf(subs[o.id]) == PairOf(o) && subs[o.id].side == o.side
    requires forall m :: m in SideQueue(books, PairOf(o), o.side.Buy?) ==> m.id != o.id
    ensures o.id !in j.orders
  {
    FindMeaning(SideQueue(books, PairOf(o), o.side.Buy?), o.id);
    assert Live(books, subs, o.id).None?;
  }

  lemma SideIsShown(depths: map<Pair, Depth>, books: map<Pair, Book>, p: Pair, buy: bool)
    requires ShowsDepths(depths, books)
    ensures var depth := if p in depths then depths[p] else NO_DEPTH;
      ShowsLevels(if buy then depth.bids else depth.asks, SideQueue(books, p, buy))
  {
    hide ShowsLevels;
  }

  lemma RestedOrders(orders: map<nat, RestingView>, books: map<Pair, Book>, subs: map<nat, Order>, o: Order)
    requires ShowsOrders(orders, books, subs) && o.id in subs && PairOf(subs[o.id]) == PairOf(o) && subs[o.id].side == o.side
    requires forall m :: m in SideQueue(books, PairOf(o), o.side.Buy?) ==> m.id != o.id
    ensures var books' := WithQueue(books, PairOf(o), o.side.Buy?, Insert(SideQueue(books, PairOf(o), o.side.Buy?), o, o.side));
      ShowsOrders(orders[o.id := View(o)], books', subs)
  {
    var p, buy := PairOf(o), o.side.Buy?;
    var queue := SideQueue(books, p, buy);
    var books' := WithQueue(books, p, buy, Insert(queue, o, o.side));
    forall id: nat ensures Live(books', subs, id) == if id == o.id then Some(o) else Live(books, subs, id) {
      InsertFind(queue, o, o.side, id);
    }
  }

  lemma RaisedShows(levels: map<int, int>, queue: seq<Order>, o: Order)
    requires ShowsLevels(levels, queue) && o.remaining > 0
    ensures ShowsLevels(levels[Price(o) := At(levels, Price(o)) + o.remaining], Insert(queue, o, o.side))
  {
    var levels' := levels[Price(o) := At(levels, Price(o)) + o.remaining];
    forall price: int
      ensures At(levels', price) == LevelSum(Insert(queue, o, o.side), price) && (price in levels' ==> levels'[price] > 0)
    {
      InsertLevels(queue, o, o.side, price);
      assert At(levels, price) == LevelSum(queue, price) && (price in levels ==> levels[price] > 0);
    }
  }

  // ---------------------------------------------------------------- every record is followed

  /** An empty book shows nothing, and a new submission id is not resting yet. */
  lemma ShowsWithSubmission(j: Projection, c: Core, o: Order)
    requires Shows(j, c.books, c.submissions) && Owned(c.books, c.submissions) && o.id !in c.submissions
    ensures Shows(j, c.books, c.submissions[o.id := o])
    ensures Shows(j, c.books[PairOf(o) := BookAt(c, PairOf(o))], c.submissions[o.id := o])
  {
    var subs', books' := c.submissions[o.id := o], c.books[PairOf(o) := BookAt(c, PairOf(o))];
    NewIdIsNotLive(c, o);
    hide ShowsLevels;
    hide Owned;
    forall p: Pair, buy: bool ensures SideQueue(books', p, buy) == SideQueue(c.books, p, buy) {
    }
    ShowsDepthsSame(j.depths, c.books, books');
    ShowsOrdersSame(j.orders, c.books, c.submissions, c.books, subs');
    ShowsOrdersSame(j.orders, c.books, subs', books', subs');
  }

  lemma NewIdIsNotLive(c: Core, o: Order)
    requires Owned(c.books, c.submissions) && o.id !in c.submissions
    ensures forall id: nat :: Live(c.books, c.submissions[o.id := o], id) == Live(c.books, c.submissions, id)
  {
    hide Distinct;
    FindMeaning(SideQueue(c.books, PairOf(o), o.side.Buy?), o.id);
  }

  lemma ShowsOrdersSame(
    orders: map<nat, RestingView>, books: map<Pair, Book>, subs: map<nat, Order>, books': map<Pair, Book>, subs': map<nat, Order>)
    requires ShowsOrders(orders, books, subs) && forall id: nat :: Live(books', subs', id) == Live(books, subs, id)
    ensures ShowsOrders(orders, books', subs')
  {
    hide Live;
  }

  lemma ShowsDepthsSame(depths: map<Pair, Depth>, books: map<Pair, Book>, books': map<Pair, Book>)
    requires ShowsDepths(depths, books) && forall p: Pair, buy: bool :: SideQueue(books', p, buy) == SideQueue(books, p, buy)
    ensures ShowsDepths(depths, books')
  {
    hide ShowsLevels;
    hide SideQueue;
    forall p: Pair ensures
      ShowsLevels((if p in depths then depths[p] else NO_DEPTH).bids, SideQueue(books', p, true))
      && ShowsLevels((if p in depths then depths[p] else NO_DEPTH).asks, SideQueue(books', p, false))
    {
      assert ShowsLevels((if p in depths then depths[p] else NO_DEPTH).bids, SideQueue(books, p, true));
    }
  }

  /** The arithmetic of an accepted order's fills, as the projection repeats it. */
  lemma {:induction false} WalkRemainderStored(t: Taker, queue: seq<Order>)
    requires Walk(t, queue).Ok? && t.order.remainingQuote.None? && Rep(t.order.remaining)
    ensures Rep(Walk(t, queue).value.taker.order.remaining)
    decreases |queue|
  {
    hide Visit;
    hide Rep;
    hide Validate;
    hide Quote;
    hide BudgetQuantity;
    if !Stops(t, queue) {
      VisitMeaning(t, queue[0]);
      match Visit(t, queue[0]).value
      case Skipped => WalkRemainderStored(t, queue[1..]);
      case Filled(t', _, _) =>
        FillArithmetic(t, queue[0]);
        WalkRemainderStored(t', queue[1..]);
    }
  }

  lemma IncomingRemainderStored(o: Order)
    requires Validate(o, true).Ok? && o.remainingQuote.None?
    ensures Rep(o.remaining) && 0 <= o.remaining <= MAX_UNITS && o.amount == o.remaining
  {
    ValidIncoming(o);
    hide Rep;
    hide Quote;
    hide Trimmed;
  }

  lemma PlanReduces(o: Order, b: Book, w: Walked)
    requires BookOk(b, PairOf(o)) && Plan(o, Opposite(o, b)) == Ok(w)
    ensures Reducible(Opposite(o, b), o, w.trades, 0) && ReduceAll(Opposite(o, b), o, w.trades) == w.rest
  {
    ValidIncoming(o);
    hide Validate;
    hide Walk;
    hide Reducible;
    hide ReduceAll;
    hide AllResting;
    hide Ordered;
    hide Uncrossed;
    WalkIsReductions(Start(o), Opposite(o, b), o);
  }

  lemma PlanRemainder(o: Order, b: Book, w: Walked)
    requires BookOk(b, PairOf(o)) && Plan(o, Opposite(o, b)) == Ok(w) && o.kind.Limit?
    ensures Subtract(o.amount, SumAmounts(w.trades)) == Ok(w.taker.order.remaining)
  {
    hide Validate;
    hide Walk;
    hide Rep;
    hide BookOk;
    hide SideOk;
    hide HasOrigin;
    hide Settles;
    ValidIncoming(o);
    IncomingRemainderStored(o);
    PlanHasFacts(o, b);
    hide SumAmounts;
    hide SumValues;
    hide Commit;
    WalkRemainderStored(Start(o), Opposite(o, b));
  }

  /** What an order rests as: itself, with what it filled taken off. */
  ghost predicate RestsAs(o: Order, rested: Order) {
    rested == o.(filled := rested.filled, remaining := rested.remaining)
  }

  lemma CommitIsMid(o: Order, b: Book, w: Walked)
    requires PlanFacts(o, b, w)
    ensures var mid := if o.side.Buy? then b.(sells := w.rest) else b.(buys := w.rest);
      CommitBook(b, w) == if o.kind.Limit? && w.taker.order.remaining > 0 then AddOrder(mid, w.taker.order) else mid
    ensures o.kind.Limit? ==> RestsAs(o, w.taker.order)
  {
    ValidIncoming(o);
    hide Validate;
    hide SideOk;
    hide HasOrigin;
    hide Settles;
    hide Commit;
    hide Insert;
  }

  lemma RestPlanned(j: Projection, books: map<Pair, Book>, mid: map<Pair, Book>, subs: map<nat, Order>, o: Order, rested: Order)
    requires Shows(j, mid, subs) && Owned(books, subs) && PairOf(o) in books && PairOf(o) in mid
    requires o.id in subs && subs[o.id] == o && (forall r :: r in books[PairOf(o)].buys + books[PairOf(o)].sells ==> r.id != o.id)
    requires SideQueue(mid, PairOf(o), o.side.Buy?) == SideQueue(books, PairOf(o), o.side.Buy?)
    requires RestsAs(o, rested) && rested.remaining > 0 && (o.side.Buy? || o.side.Sell?)
    ensures var r := Rest(j, o, rested.remaining);
      r.Follows? && Shows(r.value, mid[PairOf(o) := AddOrder(mid[PairOf(o)], rested)], subs)
  {
    hide Shows;
    hide Distinct;
    var queue := SideQueue(books, PairOf(o), o.side.Buy?);
    forall m | m in queue ensures m.id != o.id && m.remaining > 0 {
      assert m in books[PairOf(o)].buys + books[PairOf(o)].sells;
    }
    RestTracks(j, mid, subs, rested);
    assert Rest(j, o, rested.remaining) == Rest(j, rested, rested.remaining);
  }

  /** The book part of following an accepted submission. */
  lemma FollowPlanned(j: Projection, books: map<Pair, Book>, subs: map<nat, Order>, o: Order, w: Walked)
    requires Shows(j, books, subs) && Owned(books, subs) && PairOf(o) in books && BookOk(books[PairOf(o)], PairOf(o))
    requires o.id in subs && subs[o.id] == o && (forall r :: r in books[PairOf(o)].buys + books[PairOf(o)].sells ==> r.id != o.id)
    requires Plan(o, Opposite(o, books[PairOf(o)])) == Ok(w)
    ensures var r := FollowSubmission(j, o, Outputs(w.trades));
      r.Follows? && Shows(r.value, books[PairOf(o) := CommitBook(books[PairOf(o)], w)], subs)
  {
    hide Shows;
    hide BookOk;
    hide Plan;
    hide ReduceTrades;
    hide OwnQueue;
    hide Validate;
    hide Rest;
    var p, b, buy := PairOf(o), books[PairOf(o)], !o.side.Buy?;
    PlanHasFacts(o, b);
    PlanReduces(o, b, w);
    PlanIsForSide(o, b, w);
    TradesTrack(j, books, subs, p, buy, o, w.trades, 0);
    var j' := ReduceTrades(j, o, Outputs(w.trades), 0).value.0;
    var mid := WithQueue(books, p, buy, w.rest);
    CommitIsMid(o, b, w);
    hide PlanFacts;
    hide CommitBook;
    hide AddOrder;
    hide Owned;
    hide Reducible;
    if o.kind.Limit? {
      PlanRemainder(o, b, w);
      if w.taker.order.remaining > 0 {
        RestPlanned(j', books, mid, subs, o, w.taker.order);
        assert mid[p := AddOrder(mid[p], w.taker.order)] == books[p := CommitBook(b, w)];
      }
    }
  }

  lemma PlanIsForSide(o: Order, b: Book, w: Walked)
    requires PlanFacts(o, b, w)
    ensures (o.side.Buy? || o.side.Sell?) && (o.kind.Limit? ==> w.taker.order.remaining >= 0)
  {
    ValidIncoming(o);
    hide Validate;
    hide SideOk;
    hide HasOrigin;
    hide Settles;
  }

  lemma FollowSubmit(c: Core, j: Projection, o: Order, n: nat)
    requires Inv(c) && Shows(j, c.books, c.submissions)
    ensures var (c', outcome) := ApplySubmit(c, o); var r := FollowBooks(j, Record(n, Submit(o), outcome));
      r.Follows? && Shows(r.value, c'.books, c'.submissions)
  {
    hide Shows;
    hide Inv;
    hide Execute;
    hide FollowSubmission;
    InvIsOwned(c);
    if o.id !in c.submissions {
      ShowsWithSubmission(j, c, o);
      if Execute(o, BookAt(c, PairOf(o)), c.accounts).Ok? {
        FollowExecuted(c, j, o);
      }
    }
  }

  lemma FollowExecuted(c: Core, j: Projection, o: Order)
    requires Inv(c) && o.id !in c.submissions && Execute(o, BookAt(c, PairOf(o)), c.accounts).Ok?
    requires Shows(j, c.books[PairOf(o) := BookAt(c, PairOf(o))], c.submissions[o.id := o])
    ensures var a := Execute(o, BookAt(c, PairOf(o)), c.accounts).value; var r := FollowSubmission(j, o, Outputs(a.trades));
      r.Follows? && Shows(r.value, c.books[PairOf(o) := a.book], c.submissions[o.id := o])
  {
    hide Shows;
    hide BookOk;
    hide BookInv;
    hide Inv;
    hide Plan;
    hide Charge;
    hide FollowSubmission;
    hide Owned;
    hide CommitBook;
    var p, b := PairOf(o), BookAt(c, PairOf(o));
    BookAtInv(c, p);
    assert BookOk(b, p) by { BookInvOk(b, p, c.submissions); }
    FreshInBook(c, b, p, o);
    OwnedWithSubmission(c, o);
    var books := c.books[p := b];
    var w := Plan(o, Opposite(o, b)).value;
    FollowPlanned(j, books, c.submissions[o.id := o], o, w);
    assert books[p := CommitBook(b, w)] == c.books[p := CommitBook(b, w)];
  }

  lemma OwnedWithSubmission(c: Core, o: Order)
    requires Inv(c) && o.id !in c.submissions
    ensures Owned(c.books[PairOf(o) := BookAt(c, PairOf(o))], c.submissions[o.id := o])
  {
    InvIsOwned(c);
    hide Inv;
    hide Distinct;
    assert OwnQueue([], PairOf(o), true, c.submissions) && OwnQueue([], PairOf(o), false, c.submissions) by {
      assert Distinct([]) by { NothingDistinct(); }
    }
  }

  lemma NothingDistinct()
    ensures Distinct([])
  {
  }

  lemma FollowCancel(c: Core, j: Projection, id: nat, user: nat, pair: Pair, n: nat)
    requires Inv(c) && Shows(j, c.books, c.submissions)
    ensures var (c', outcome) := ApplyCancel(c, id, user, pair); var r := FollowBooks(j, Record(n, Cancel(id, user, pair), outcome));
      r.Follows? && Shows(r.value, c'.books, c'.submissions)
  {
    hide Shows;
    hide CancelOrder;
    hide ReduceView;
    hide ChangeReservation;
    hide Unlocking;
    hide Inv;
    hide OwnQueue;
    hide ReduceIn;
    hide Remove;
    hide Subtract;
    if id !in c.cancellations && CancelOrder(c, id, user, pair).Ok? {
      CancelFacts(c, id, user, pair);
      InvIsOwned(c);
      var o := CancelOrder(c, id, user, pair).value.1;
      var buy := o.side.Buy?;
      RemainingInRange(c, pair, o);
      var queue := SideQueue(c.books, pair, buy);
      FullReduction(queue, o, pair, buy, c.submissions);
      ReduceTracks(j, c.books, c.submissions, pair, buy, o, o.remaining);
      assert WithQueue(c.books, pair, buy, Remove(queue, id)) == c.books[pair := WithoutOrder(c.books[pair], id, buy)];
    }
  }

  lemma RemainingInRange(c: Core, pair: Pair, o: Order)
    requires Inv(c) && pair in c.books && (o in c.books[pair].buys || o in c.books[pair].sells)
    ensures 0 <= o.remaining <= MAX_UNITS
  {
    assert BookInv(c.books[pair], pair, c.submissions);
    assert Validate(o, false).Ok?;
    hide Quote;
    hide Rep;
    hide Trimmed;
  }

  lemma FullReduction(queue: seq<Order>, o: Order, p: Pair, buy: bool, subs: map<nat, Order>)
    requires OwnQueue(queue, p, buy, subs) && o in queue && 0 <= o.remaining <= MAX_UNITS
    ensures o.remaining > 0 && Subtract(o.remaining, o.remaining) == Ok(0) && ReduceIn(queue, o.id, o.remaining) == Remove(queue, o.id)
  {
    RemoveIsReduction(queue, o);
    ZeroIsStorable();
    hide Rep;
  }

  /** On every reachable state the projection follows the next record and shows the resulting books. */
  lemma StepIsFollowed(c: Core, j: Projection, command: Command, n: nat)
    requires Inv(c) && Shows(j, c.books, c.submissions)
    ensures var (c', outcome) := Apply(c, command); var r := FollowBooks(j, Record(n, command, outcome));
      r.Follows? && Shows(r.value, c'.books, c'.submissions)
  {
    match command
    case Submit(o) => FollowSubmit(c, j, o, n);
    case Cancel(id, user, pair) => FollowCancel(c, j, id, user, pair, n);
    case _ => FollowAccountStep(c, j, command, n);
  }

  lemma FollowAccountStep(c: Core, j: Projection, command: Command, n: nat)
    requires Inv(c) && Shows(j, c.books, c.submissions) && !command.Submit? && !command.Cancel?
    ensures var (c', outcome) := Apply(c, command); var r := FollowBooks(j, Record(n, command, outcome));
      r.Follows? && Shows(r.value, c'.books, c'.submissions)
  {
    AccountStepKeepsInv(c, command);
    AccountOutcome(c, command);
    hide Shows;
    hide Inv;
    hide Apply;
    hide FollowSubmission;
    hide ReduceView;
  }

  /** Commands on accounts never produce an outcome about a book. */
  predicate AboutNoBook(outcome: Outcome) {
    outcome.Applied? && outcome.output.Some? ==> !outcome.output.value.Submitted? && !outcome.output.value.Cancelled?
  }

  lemma AccountOutcome(c: Core, command: Command)
    requires !command.Submit? && !command.Cancel?
    ensures AboutNoBook(Apply(c, command).1)
  {
    hide ApplyDeposit;
    hide ApplyWithdrawal;
    hide ChangeReservation;
    hide Adjusted;
    if command.CreditDeposit? {
      DepositOutcome(c, command.credit);
    } else if command.Withdrawal? {
      WithdrawalOutcome(c, command.action, command.funds);
    }
  }

  lemma DepositOutcome(c: Core, credit: DepositCredit)
    ensures AboutNoBook(ApplyDeposit(c, credit).1)
  {
    hide Credited;
    hide ValidateDeposit;
  }

  lemma WithdrawalOutcome(c: Core, action: WithdrawalAction, funds: WithdrawalFunds)
    ensures AboutNoBook(ApplyWithdrawal(c, action, funds).1)
  {
    hide MoveFunds;
    hide Admit;
  }
}
