/** Who trades with whom in an accepted order, at what rates, and what that does to every account, in plain arithmetic. */
module TradeLaws {
  import opened Prelude
  import opened Amount
  import opened Types
  import opened Matcher
  import opened MatchingLaws
  import opened Balances
  import opened BalanceLaws
  import opened Submission
  import opened SubmissionLaws
  import opened ReserveLaws
  import opened Core
  import opened CoreLaws
  import opened Acceptance
  import ConservationLaws

  // ---------------------------------------------------------------- the makers of the trades

  /** The trades are with makers of the queue, in their order, each with one of another user and within its remainder. */
  ghost predicate TradesWith(o: Order, queue: seq<Order>, at: seq<nat>, trades: seq<Trade>) {
    && |at| == |trades|
    && (forall i :: 0 <= i < |at| ==>
        at[i] < |queue| && Names(o, queue[at[i]], trades[i]) && queue[at[i]].user != o.user
        && 0 < trades[i].amount <= queue[at[i]].remaining && Exact(trades[i].price, trades[i].amount))
    && forall i, j :: 0 <= i < j < |at| ==> at[i] < at[j]
  }

  function Shifted(at: seq<nat>): seq<nat> {
    seq(|at|, i requires 0 <= i < |at| => at[i] + 1)
  }

  lemma TradesBehind(o: Order, queue: seq<Order>, at: seq<nat>, trades: seq<Trade>)
    requires queue != [] && TradesWith(o, queue[1..], at, trades)
    ensures TradesWith(o, queue, Shifted(at), trades)
  {
    hide Names;
    hide Exact;
  }

  lemma TradesCons(o: Order, queue: seq<Order>, at: seq<nat>, trade: Trade, trades: seq<Trade>)
    requires queue != [] && TradesWith(o, queue[1..], at, trades)
    requires Names(o, queue[0], trade) && queue[0].user != o.user && 0 < trade.amount <= queue[0].remaining
    requires Exact(trade.price, trade.amount)
    ensures TradesWith(o, queue, [0] + Shifted(at), [trade] + trades)
  {
    TradesBehind(o, queue, at, trades);
    hide Names;
    hide Exact;
  }

  lemma {:induction false} WalkTradesWith(t: Taker, queue: seq<Order>, o: Order) returns (at: seq<nat>)
    requires Walk(t, queue).Ok?
    requires t.order.id == o.id && t.order.user == o.user && t.order.side == o.side && t.order.feeRate == o.feeRate
    requires t.order.base == o.base && t.order.quote == o.quote
    ensures TradesWith(o, queue, at, Walk(t, queue).value.trades)
    decreases |queue|
  {
    hide Visit;
    hide Quote;
    hide BudgetQuantity;
    hide Value;
    hide Exact;
    hide Validate;
    hide TradesWith;
    if Stops(t, queue) {
      at := [];
      NoTrades(o, queue);
    } else {
      VisitMeaning(t, queue[0]);
      match Visit(t, queue[0]).value
      case Skipped =>
        var rest := WalkTradesWith(t, queue[1..], o);
        TradesBehind(o, queue, rest, Walk(t, queue[1..]).value.trades);
        at := Shifted(rest);
      case Filled(t', trade, _) =>
        var rest := WalkTradesWith(t', queue[1..], o);
        TradesCons(o, queue, rest, trade, Walk(t', queue[1..]).value.trades);
        at := [0] + Shifted(rest);
    }
  }

  lemma NoTrades(o: Order, queue: seq<Order>)
    ensures TradesWith(o, queue, [], [])
  {
  }

  /**
   Every planned trade is with a maker of the other side, in priority order: it carries that maker's price, id and user,
   and on each side the fee rate of that side's own order.
  */
  lemma PlanTradesWith(o: Order, queue: seq<Order>) returns (at: seq<nat>)
    requires Plan(o, queue).Ok?
    ensures TradesWith(o, queue, at, Plan(o, queue).value.trades)
  {
    hide Validate;
    hide Walk;
    hide TradesWith;
    at := WalkTradesWith(Start(o), queue, o);
  }

  // ---------------------------------------------------------------- what the trades pay

  /** A quantity bought from or sold to one maker. */
  datatype MakerFill = MakerFill(maker: Order, quantity: int)

  function FillsOf(queue: seq<Order>, at: seq<nat>, trades: seq<Trade>): seq<MakerFill>
    requires |at| == |trades| && forall i :: 0 <= i < |at| ==> at[i] < |queue|
  {
    seq(|at|, i requires 0 <= i < |at| => MakerFill(queue[at[i]], trades[i].amount))
  }

  /** What a fill is worth at the maker's price. */
  function Worth(f: MakerFill): int {
    Price(f.maker) * f.quantity / FACTOR
  }

  /** What is left of a received amount after the fee at a rate, rounded down. */
  function AfterFee(received: int, rate: int): int {
    received - received * rate / FACTOR
  }

  /** The buyer receives the quantity and the seller its worth, each after the fee of its own order. */
  function Received(o: Order, f: MakerFill, k: AccountKey): int {
    var buy, sell := if o.side.Sell? then f.maker else o, if o.side.Sell? then o else f.maker;
    (if k == (buy.user, o.base) then AfterFee(f.quantity, buy.feeRate) else 0)
    + (if k == (sell.user, o.quote) then AfterFee(Worth(f), sell.feeRate) else 0)
  }

  /** The buyer pays the worth and the seller delivers the quantity. */
  function Given(o: Order, f: MakerFill, k: AccountKey): int {
    var buyer, seller := if o.side.Sell? then f.maker.user else o.user, if o.side.Sell? then o.user else f.maker.user;
    (if k == (buyer, o.quote) then Worth(f) else 0) + (if k == (seller, o.base) then f.quantity else 0)
  }

  function AllReceived(o: Order, fills: seq<MakerFill>, k: AccountKey): int {
    if fills == [] then 0 else Received(o, fills[0], k) + AllReceived(o, fills[1..], k)
  }

  function AllGiven(o: Order, fills: seq<MakerFill>, k: AccountKey): int {
    if fills == [] then 0 else Given(o, fills[0], k) + AllGiven(o, fills[1..], k)
  }

  function AllWorth(fills: seq<MakerFill>): int {
    if fills == [] then 0 else Worth(fills[0]) + AllWorth(fills[1..])
  }

  function AllQuantity(fills: seq<MakerFill>): int {
    if fills == [] then 0 else fills[0].quantity + AllQuantity(fills[1..])
  }

  /** The fees of a settled trade are those of its two orders. */
  lemma SettledFees(o: Order, maker: Order, t: Trade)
    requires Names(o, maker, t) && SettlementFees(t).Ok? && t.amount >= 0
    ensures var buy, sell := if o.side.Sell? then maker else o, if o.side.Sell? then o else maker;
      FeesOf(t) == (t.amount * buy.feeRate / FACTOR, Worth(MakerFill(maker, t.amount)) * sell.feeRate / FACTOR)
      && TradeValue(t) == Worth(MakerFill(maker, t.amount))
  {
    hide Rep;
  }

  lemma TradePays(o: Order, maker: Order, t: Trade, k: AccountKey)
    requires Names(o, maker, t) && SettlementFees(t).Ok? && t.amount >= 0
    ensures Receipt(t, k) == Received(o, MakerFill(maker, t.amount), k) && LockUse(t, k) == Given(o, MakerFill(maker, t.amount), k)
  {
    SettledFees(o, maker, t);
    hide SettlementFees;
    hide FeesOf;
    hide Worth;
    hide TradeValue;
  }

  /** Settling trades with these makers moves every account by exactly what their fills pay. */
  lemma {:induction false} SettlementPays(o: Order, makers: seq<MakerFill>, trades: seq<Trade>, m: Accounts, k: AccountKey)
    requires |makers| == |trades| && SettleAll(m, trades).Ok?
    requires forall i :: 0 <= i < |makers| ==>
      Names(o, makers[i].maker, trades[i]) && makers[i].quantity == trades[i].amount >= 0
    ensures var after := SettleAll(m, trades).value;
      && Of(after, k).available == Of(m, k).available + AllReceived(o, makers, k)
      && Of(after, k).locked == Of(m, k).locked - AllGiven(o, makers, k)
    ensures SumValues(trades) == AllWorth(makers) && SumAmounts(trades) == AllQuantity(makers)
    decreases |trades|
  {
    hide Names;
    hide SettlementFees;
    hide Receipt;
    hide LockUse;
    hide Received;
    hide Given;
    hide Worth;
    hide Value;
    if trades != [] {
      var t := trades[0];
      SettledFeeExists(m, t);
      SettleMoves(m, t, k);
      hide Settle;
      TradePays(o, makers[0].maker, t, k);
      assert makers[0] == MakerFill(makers[0].maker, t.amount);
      SettledFees(o, makers[0].maker, t);
      SettlementPays(o, makers[1..], trades[1..], Settle(m, t).value, k);
    }
  }

  lemma SettledFeeExists(m: Accounts, t: Trade)
    requires Settle(m, t).Ok?
    ensures SettlementFees(t).Ok?
  {
    hide SettlementFees;
    hide Stage;
    hide Trimmed;
  }

  // ---------------------------------------------------------------- what an accepted order moves

  /** What must stay locked for the part that rests. */
  ghost predicate StillHeld(o: Order, filled: int, still: int) {
    if o.kind.Market? then still == 0
    else if o.side.Buy? then still * FACTOR == Price(o) * (o.amount - filled)
    else still == o.amount - filled
  }

  /**
   Every account changes by what the fills pay it. The order's own account also sets aside what its fills use and what
   still rests: quote for a buy, base for a sell.
  */
  ghost predicate OrderMoves(o: Order, fills: seq<MakerFill>, still: int, m: Accounts, m': Accounts) {
    var own := (o.user, if o.side.Buy? then o.quote else o.base);
    var aside := (if o.side.Buy? then AllWorth(fills) else AllQuantity(fills)) + still;
    forall k: AccountKey ::
      && Of(m', k).available == Of(m, k).available + AllReceived(o, fills, k) - (if k == own then aside else 0)
      && Of(m', k).locked == Of(m, k).locked - AllGiven(o, fills, k) + (if k == own then aside else 0)
  }

  lemma StillIsHeld(o: Order, b: Book, w: Walked)
    requires PlanFacts(o, b, w) && StillReserved(w.taker.order).Ok?
    ensures StillHeld(o, SumAmounts(w.trades), StillReserved(w.taker.order).value)
  {
    ValidIncoming(o);
    var rested := w.taker.order;
    if o.kind.Limit? && o.side.Buy? {
      QuoteAccepts(Price(rested), rested.remaining, StillReserved(rested).value);
    }
    hide Validate;
    hide SideOk;
    hide Settles;
    hide HasOrigin;
    hide Quote;
  }

  /** These fills are the trades, with the makers they name. */
  ghost predicate FillsAre(o: Order, fills: seq<MakerFill>, trades: seq<Trade>) {
    |fills| == |trades| && forall i :: 0 <= i < |fills| ==>
      Names(o, fills[i].maker, trades[i]) && fills[i].quantity == trades[i].amount >= 0
  }

  lemma TradesAreFills(o: Order, queue: seq<Order>, at: seq<nat>, trades: seq<Trade>)
    requires TradesWith(o, queue, at, trades)
    ensures FillsAre(o, FillsOf(queue, at, trades), trades)
  {
    hide Names;
    hide Exact;
  }

  lemma ChargePaysAccount(o: Order, w: Walked, accounts: Accounts, fills: seq<MakerFill>, k: AccountKey)
    requires Charge(o, w, accounts).Ok? && FillsAre(o, fills, w.trades) && Charge(o, w, accounts).value.2 >= 0
    ensures var (final, reserved, refund) := Charge(o, w, accounts).value; var own := k == ReserveKey(o);
      && Of(final, k).available == Of(accounts, k).available + AllReceived(o, fills, k) - (if own then reserved - refund else 0)
      && Of(final, k).locked == Of(accounts, k).locked - AllGiven(o, fills, k) + (if own then reserved - refund else 0)
      && SumValues(w.trades) == AllWorth(fills) && SumAmounts(w.trades) == AllQuantity(fills)
  {
    hide Reservation;
    hide StillReserved;
    hide Refund;
    hide Used;
    hide SettleAll;
    hide ChangeReservation;
    hide Names;
    hide AllReceived;
    hide AllGiven;
    hide AllWorth;
    hide AllQuantity;
    hide SumValues;
    hide SumAmounts;
    var (final, reserved, refund) := Charge(o, w, accounts).value;
    var locked := ChangeReservation(accounts, ReserveKey(o), reserved, true).value;
    ReservationMoves(accounts, ReserveKey(o), reserved, true, k);
    SettlementPays(o, fills, w.trades, locked, k);
    hide FillsAre;
    if refund > 0 {
      ReservationMoves(SettleAll(locked, w.trades).value, ReserveKey(o), refund, false, k);
    }
    hide ReserveKey;
  }

  lemma ChargePays(o: Order, b: Book, w: Walked, accounts: Accounts, fills: seq<MakerFill>, still: int)
    requires PlanFacts(o, b, w) && Charge(o, w, accounts).Ok? && StillReserved(w.taker.order) == Ok(still)
    requires FillsAre(o, fills, w.trades)
    ensures OrderMoves(o, fills, still, accounts, Charge(o, w, accounts).value.0)
    ensures SumAmounts(w.trades) == AllQuantity(fills)
  {
    ChargeAddsUp(o, b, w, accounts);
    UsedIs(o, b, w);
    hide PlanFacts;
    hide StillReserved;
    hide Charge;
    hide Used;
    hide RefundMeans;
    hide FillsAre;
    hide AllReceived;
    hide AllGiven;
    hide AllWorth;
    hide AllQuantity;
    hide SumValues;
    hide SumAmounts;
    var (final, reserved, refund) := Charge(o, w, accounts).value;
    forall k: AccountKey
      ensures Of(final, k).available == Of(accounts, k).available + AllReceived(o, fills, k)
                                        - (if k == ReserveKey(o) then reserved - refund else 0)
      ensures Of(final, k).locked == Of(accounts, k).locked - AllGiven(o, fills, k)
                                     + (if k == ReserveKey(o) then reserved - refund else 0)
    {
      ChargePaysAccount(o, w, accounts, fills, k);
    }
    ChargePaysAccount(o, w, accounts, fills, ReserveKey(o));
  }

  lemma UsedIs(o: Order, b: Book, w: Walked)
    requires PlanFacts(o, b, w)
    ensures Used(o, w.taker) == if o.side.Buy? then SumValues(w.trades) else SumAmounts(w.trades)
  {
    hide Validate;
    hide SideOk;
    hide Settles;
    hide HasOrigin;
  }

  /** An accepted order moves money exactly as its fills with the named makers say, at the fee rates of the orders. */
  lemma AcceptedOrderMoves(o: Order, b: Book, accounts: Accounts) returns (at: seq<nat>, still: int)
    requires BookOk(b, PairOf(o)) && Execute(o, b, accounts).Ok?
    ensures var a := Execute(o, b, accounts).value; var queue := if o.side.Sell? then b.buys else b.sells;
      && TradesWith(o, queue, at, a.trades)
      && StillHeld(o, AllQuantity(FillsOf(queue, at, a.trades)), still)
      && OrderMoves(o, FillsOf(queue, at, a.trades), still, accounts, a.accounts)
  {
    var queue := Opposite(o, b);
    var w := Plan(o, queue).value;
    at := PlanTradesWith(o, queue);
    PlanHasFacts(o, b);
    ChargeAddsUp(o, b, w, accounts);
    TradesAreFills(o, queue, at, w.trades);
    hide Plan;
    hide Charge;
    hide CommitBook;
    hide PlanFacts;
    hide RefundMeans;
    hide TradesWith;
    hide FillsAre;
    hide AllQuantity;
    hide OrderMoves;
    still := StillReserved(w.taker.order).value;
    var fills := FillsOf(queue, at, w.trades);
    ChargePays(o, b, w, accounts, fills, still);
    StillIsHeld(o, b, w);
  }

  // ---------------------------------------------------------------- the recorded outcome

  function TradesIn(outputs: seq<TradeOutput>): seq<Trade> {
    seq(|outputs|, i requires 0 <= i < |outputs| => outputs[i].trade)
  }

  /** The fees recorded with each trade are those of its two orders. */
  ghost predicate RecordsFees(o: Order, fills: seq<MakerFill>, outputs: seq<TradeOutput>) {
    |outputs| == |fills| && forall i :: 0 <= i < |fills| ==>
      var maker := fills[i].maker; var buy, sell := if o.side.Sell? then maker else o, if o.side.Sell? then o else maker;
      && outputs[i].buyerFee == fills[i].quantity * buy.feeRate / FACTOR
      && outputs[i].sellerFee == Worth(fills[i]) * sell.feeRate / FACTOR
  }

  lemma {:induction false} OutputsAre(trades: seq<Trade>)
    ensures |Outputs(trades)| == |trades| && TradesIn(Outputs(trades)) == trades
    ensures forall i :: 0 <= i < |trades| ==> Outputs(trades)[i] == OutputOf(trades[i])
  {
    hide OutputOf;
    if trades != [] {
      OutputsAre(trades[1..]);
      assert TradesIn(Outputs(trades)) == [trades[0]] + TradesIn(Outputs(trades[1..])) by {
        assert OutputOf(trades[0]).trade == trades[0] by { OutputNames(trades[0]); }
      }
    }
  }

  lemma OutputNames(t: Trade)
    ensures OutputOf(t) == TradeOutput(t, FeesOf(t).0, FeesOf(t).1)
  {
  }

  lemma FeesAreRecorded(o: Order, b: Book, accounts: Accounts, queue: seq<Order>, at: seq<nat>)
    requires Execute(o, b, accounts).Ok? && TradesWith(o, queue, at, Execute(o, b, accounts).value.trades)
    ensures var trades := Execute(o, b, accounts).value.trades; RecordsFees(o, FillsOf(queue, at, trades), Outputs(trades))
  {
    hide Plan;
    hide CommitBook;
    hide SettleAll;
    hide ChangeReservation;
    hide Reservation;
    hide StillReserved;
    hide Refund;
    hide Names;
    hide Exact;
    hide SettlementFees;
    hide FeesOf;
    hide Worth;
    var w := Plan(o, Opposite(o, b)).value;
    var locked := ChangeReservation(accounts, ReserveKey(o), Reservation(o).value, true).value;
    var trades := w.trades;
    OutputsAre(trades);
    hide Outputs;
    var fills := FillsOf(queue, at, trades);
    forall i | 0 <= i < |fills|
      ensures var maker := fills[i].maker; var buy, sell := if o.side.Sell? then maker else o, if o.side.Sell? then o else maker;
        Outputs(trades)[i].buyerFee == fills[i].quantity * buy.feeRate / FACTOR
        && Outputs(trades)[i].sellerFee == Worth(fills[i]) * sell.feeRate / FACTOR
    {
      ConservationLaws.SettledFeesExist(locked, trades, trades[i]);
      SettledFees(o, queue[at[i]], trades[i]);
    }
  }

  /**
   A new order is either refused, and then nothing but its record changes; or accepted, and then the trades published are
   with the named makers, with the fees of the two orders, and every account moves exactly as they say.
  */
  lemma SubmitMoves(c: Core, o: Order) returns (at: seq<nat>, still: int)
    requires Inv(c) && o.id !in c.submissions
    ensures var (c', outcome) := Apply(c, Submit(o)); var b := BookAt(c, PairOf(o));
      var queue := if o.side.Sell? then b.buys else b.sells;
      match outcome
      case Applied(Some(Submitted(id, outputs, _))) =>
        && id == o.id && TradesWith(o, queue, at, TradesIn(outputs))
        && RecordsFees(o, FillsOf(queue, at, TradesIn(outputs)), outputs)
        && StillHeld(o, AllQuantity(FillsOf(queue, at, TradesIn(outputs))), still)
        && OrderMoves(o, FillsOf(queue, at, TradesIn(outputs)), still, c.accounts, c'.accounts)
        && c' == c.(accounts := c'.accounts, books := c.books[PairOf(o) := BookAt(c', PairOf(o))], submissions := c.submissions[o.id := o])
      case Applied(Some(Rejected(order, reason))) =>
        order == o && Execute(o, b, c.accounts) == Err(reason) && c' == c.(submissions := c.submissions[o.id := o])
      case _ => false
  {
    var b := BookAt(c, PairOf(o));
    BookAtInv(c, PairOf(o));
    BookInvOk(b, PairOf(o), c.submissions);
    hide Inv;
    hide BookOk;
    hide BookInv;
    at, still := [], 0;
    if Execute(o, b, c.accounts).Ok? {
      at, still := AcceptedOrderMoves(o, b, c.accounts);
      var queue := if o.side.Sell? then b.buys else b.sells;
      FeesAreRecorded(o, b, c.accounts, queue, at);
      var a := Execute(o, b, c.accounts).value;
      OutputsAre(a.trades);
      ExecutedId(o, b, c.accounts);
    }
    hide Execute;
    hide Outputs;
    hide TradesWith;
    hide OrderMoves;
    hide RecordsFees;
    hide FillsOf;
    hide StillHeld;
    hide AllQuantity;
  }

  lemma ExecutedId(o: Order, b: Book, accounts: Accounts)
    requires Execute(o, b, accounts).Ok?
    ensures Execute(o, b, accounts).value.orderId == o.id
  {
    hide Plan;
    hide Charge;
    hide CommitBook;
  }
}
