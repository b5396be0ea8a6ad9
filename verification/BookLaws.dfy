/** The book an accepted order leaves, order by order, in terms of the trades it made. */
module BookLaws {
  import opened Prelude
  import opened Amount
  import opened Types
  import opened Matcher
  import opened MatchingLaws
  import opened Balances
  import opened Submission
  import opened SubmissionLaws
  import opened TradeLaws
  import opened PriorityLaws

  /** How much was traded with the maker at this position. */
  function Taken(at: seq<nat>, trades: seq<Trade>, i: nat): int
    requires |at| == |trades|
  {
    if at == [] then 0 else (if at[0] == i then trades[0].amount else 0) + Taken(at[1..], trades[1..], i)
  }

  /** A maker loses what was traded with it, and leaves when nothing remains. */
  ghost predicate LeftOf(maker: Order, taken: int, rest: seq<Order>) {
    && 0 <= taken <= maker.remaining
    && if taken == maker.remaining then forall r :: r in rest ==> r.id != maker.id
       else maker.(remaining := maker.remaining - taken, filled := maker.filled + taken) in rest
  }

  ghost predicate Leaves(queue: seq<Order>, at: seq<nat>, trades: seq<Trade>, rest: seq<Order>) {
    |at| == |trades| && forall i :: 0 <= i < |queue| ==> LeftOf(queue[i], Taken(at, trades, i), rest)
  }

  lemma {:induction false} TakenShifted(at: seq<nat>, trades: seq<Trade>, i: nat)
    requires |at| == |trades|
    ensures Taken(Shifted(at), trades, i + 1) == Taken(at, trades, i) && Taken(Shifted(at), trades, 0) == 0
  {
    if at != [] {
      assert Shifted(at)[1..] == Shifted(at[1..]);
      TakenShifted(at[1..], trades[1..], i);
    }
  }

  lemma TakenBehind(at: seq<nat>, trade: Trade, trades: seq<Trade>, i: nat)
    requires |at| == |trades|
    ensures Taken([0] + Shifted(at), [trade] + trades, i) == if i == 0 then trade.amount else Taken(at, trades, i - 1)
  {
    TailOfJoin([0], Shifted(at));
    TailOfJoin([trade], trades);
    assert ([0] + Shifted(at))[1..] == Shifted(at) && ([trade] + trades)[1..] == trades;
    TakenShifted(at, trades, if i == 0 then 0 else i - 1);
  }

  lemma {:induction false} WalkLeaves(t: Taker, queue: seq<Order>, o: Order, side: Side, pair: Pair) returns (at: seq<nat>)
    requires Walk(t, queue).Ok? && AllResting(queue, side, pair) && Distinct(queue)
    requires t.order.id == o.id && t.order.user == o.user && t.order.side == o.side && t.order.feeRate == o.feeRate
    requires t.order.base == o.base && t.order.quote == o.quote
    ensures TradesWith(o, queue, at, Walk(t, queue).value.trades)
    ensures Leaves(queue, at, Walk(t, queue).value.trades, Walk(t, queue).value.rest)
    decreases |queue|
  {
    hide Visit;
    hide Quote;
    hide BudgetQuantity;
    hide Value;
    hide Exact;
    hide Validate;
    hide TradesWith;
    hide Distinct;
    hide Leaves;
    if Stops(t, queue) {
      at := [];
      NoTrades(o, queue);
      AllAreLeft(queue, side, pair);
    } else {
      VisitMeaning(t, queue[0]);
      FirstIsDistinct(queue);
      match Visit(t, queue[0]).value
      case Skipped =>
        var w := Walk(t, queue[1..]).value;
        var rest := WalkLeaves(t, queue[1..], o, side, pair);
        TradesBehind(o, queue, rest, w.trades);
        SkippedLeaves(queue, rest, w.trades, w.rest, side, pair);
        at := Shifted(rest);
      case Filled(t', trade, maker') =>
        var w := Walk(t', queue[1..]).value;
        var rest := WalkLeaves(t', queue[1..], o, side, pair);
        TradesCons(o, queue, rest, trade, w.trades);
        WalkKeepsOrders(t', queue[1..], side, pair);
        FilledLeaves(queue, rest, trade, w.trades, maker', w.rest);
        at := [0] + Shifted(rest);
    }
  }

  lemma AllAreLeft(queue: seq<Order>, side: Side, pair: Pair)
    requires AllResting(queue, side, pair)
    ensures Leaves(queue, [], [], queue)
  {
    forall i | 0 <= i < |queue| ensures LeftOf(queue[i], 0, queue) {
      assert queue[i] in queue;
      ValidLimit(queue[i]);
    }
  }

  lemma SkippedLeaves(queue: seq<Order>, at: seq<nat>, trades: seq<Trade>, rest: seq<Order>, side: Side, pair: Pair)
    requires queue != [] && Resting(queue[0], side, pair) && Leaves(queue[1..], at, trades, rest)
    requires forall m :: m in queue[1..] ==> m.id != queue[0].id
    ensures Leaves(queue, Shifted(at), trades, [queue[0]] + rest)
  {
    ValidLimit(queue[0]);
    hide Validate;
    forall i | 0 <= i < |queue| ensures LeftOf(queue[i], Taken(Shifted(at), trades, i), [queue[0]] + rest) {
      TakenShifted(at, trades, if i == 0 then 0 else i - 1);
      if i > 0 {
        assert queue[i] == queue[1..][i - 1] && queue[i] in queue[1..];
        assert LeftOf(queue[i], Taken(at, trades, i - 1), rest);
      }
    }
  }

  lemma FilledLeaves(queue: seq<Order>, at: seq<nat>, trade: Trade, trades: seq<Trade>, maker': Order, rest: seq<Order>)
    requires queue != [] && Leaves(queue[1..], at, trades, rest)
    requires forall m :: m in queue[1..] ==> m.id != queue[0].id
    requires forall r :: r in rest ==> HasOrigin(queue[1..], r)
    requires 0 < trade.amount <= queue[0].remaining
    requires maker' == queue[0].(remaining := queue[0].remaining - trade.amount, filled := queue[0].filled + trade.amount)
    ensures Leaves(queue, [0] + Shifted(at), [trade] + trades, Keep(maker', rest))
  {
    forall i | 0 <= i < |queue| ensures LeftOf(queue[i], Taken([0] + Shifted(at), [trade] + trades, i), Keep(maker', rest)) {
      TakenBehind(at, trade, trades, i);
      if i > 0 {
        assert queue[i] == queue[1..][i - 1] && queue[i] in queue[1..];
        assert LeftOf(queue[i], Taken(at, trades, i - 1), rest);
      }
    }
  }

  // ---------------------------------------------------------------- the whole book

  /** The part of an order that its trades did not fill. */
  function Unfilled(o: Order, trades: seq<Trade>): Order {
    o.(remaining := o.amount - SumAmounts(trades), filled := SumAmounts(trades))
  }

  /** The order rests somewhere on its own side, which is otherwise as it was. */
  ghost predicate AddedTo(own: seq<Order>, own': seq<Order>, o: Order) {
    exists n :: 0 <= n <= |own| && own' == own[..n] + [o] + own[n..]
  }

  lemma CommittedSides(o: Order, b: Book, w: Walked)
    requires PlanFacts(o, b, w)
    ensures var b' := CommitBook(b, w);
      var own, own' := if o.side.Sell? then b.sells else b.buys, if o.side.Sell? then b'.sells else b'.buys;
      && (if o.side.Sell? then b'.buys else b'.sells) == w.rest
      && own' == (if o.kind.Limit? && SumAmounts(w.trades) < o.amount then Insert(own, Unfilled(o, w.trades), o.side) else own)
  {
    ValidIncoming(o);
    hide Validate;
    hide SideOk;
    hide Settles;
    hide HasOrigin;
    hide Insert;
    hide Commit;
    hide SumAmounts;
    assert o.kind.Limit? ==> w.taker.order == Unfilled(o, w.trades);
  }

  lemma InsertedIsAdded(own: seq<Order>, o: Order, side: Side)
    ensures AddedTo(own, Insert(own, o, side), o)
  {
    var n := InsertedAt(own, o, side);
    hide Insert;
  }

  /**
   What an accepted order does to its book. Opposite it, each maker loses exactly what was traded with it and leaves when
   nothing remains. On its own side, a limit order rests with what is unfilled, if anything is; a market order never does.
  */
  lemma AcceptedOrderLeaves(o: Order, b: Book, accounts: Accounts) returns (at: seq<nat>)
    requires BookOk(b, PairOf(o)) && Execute(o, b, accounts).Ok?
    ensures var a := Execute(o, b, accounts).value;
      var queue, rest := if o.side.Sell? then b.buys else b.sells, if o.side.Sell? then a.book.buys else a.book.sells;
      var own, own' := if o.side.Sell? then b.sells else b.buys, if o.side.Sell? then a.book.sells else a.book.buys;
      && TradesWith(o, queue, at, a.trades) && Leaves(queue, at, a.trades, rest)
      && (if o.kind.Limit? && SumAmounts(a.trades) < o.amount then AddedTo(own, own', Unfilled(o, a.trades)) else own' == own)
  {
    var queue := Opposite(o, b);
    var w := Plan(o, queue).value;
    PlanHasFacts(o, b);
    CommittedSides(o, b, w);
    hide PlanFacts;
    hide Validate;
    at := WalkLeaves(Start(o), queue, o, SideOf(o), PairOf(o));
    InsertedIsAdded(if o.side.Sell? then b.sells else b.buys, Unfilled(o, w.trades), o.side);
    hide Plan;
    hide Walk;
    hide Charge;
    hide CommitBook;
    hide TradesWith;
    hide Leaves;
    hide AddedTo;
    hide Unfilled;
    hide SumAmounts;
  }
}
