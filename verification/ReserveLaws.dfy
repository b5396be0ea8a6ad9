/** The locked funds behind resting orders: trades consume them exactly, and they never run short. */
module ReserveLaws {
  import opened Prelude
  import opened Amount
  import opened Types
  import opened Matcher
  import opened MatchingLaws
  import opened Balances
  import opened BalanceLaws
  import opened Submission
  import opened SubmissionLaws

  /** The locked funds a resting order stands for: price times remainder of a buy, remainder of a sell. */
  function ReserveOf(o: Order, k: AccountKey): int {
    if k != ReserveKey(o) then 0
    else if o.side.Buy? then Value(Price(o), o.remaining)
    else o.remaining
  }

  function Reserves(queue: seq<Order>, k: AccountKey): int {
    if queue == [] then 0 else ReserveOf(queue[0], k) + Reserves(queue[1..], k)
  }

  function BookReserves(b: Book, k: AccountKey): int {
    Reserves(b.buys, k) + Reserves(b.sells, k)
  }

  lemma ReservePositive(o: Order, k: AccountKey, side: Side, pair: Pair)
    requires Resting(o, side, pair)
    ensures ReserveOf(o, k) >= 0
  {
    ValidLimit(o);
    hide Validate;
    ProductSign(Price(o), o.remaining);
  }

  lemma {:induction false} ReservesNonNegative(queue: seq<Order>, k: AccountKey, side: Side, pair: Pair)
    requires AllResting(queue, side, pair)
    ensures Reserves(queue, k) >= 0
  {
    hide Resting;
    hide ReserveOf;
    if queue != [] {
      assert queue[0] in queue;
      ReservePositive(queue[0], k, side, pair);
      ReservesNonNegative(queue[1..], k, side, pair);
    }
  }

  lemma {:induction false} InsertReserves(queue: seq<Order>, o: Order, side: Side, k: AccountKey)
    ensures Reserves(Insert(queue, o, side), k) == Reserves(queue, k) + ReserveOf(o, k)
  {
    hide ReserveOf;
    hide Ahead;
    if queue != [] {
      InsertReserves(queue[1..], o, side, k);
      assert ([queue[0]] + Insert(queue[1..], o, side))[1..] == Insert(queue[1..], o, side);
      assert ([o] + queue)[1..] == queue;
    }
  }

  /** What the taker itself pays or delivers in its trades. */
  function TakerUse(o: Order, trades: seq<Trade>, k: AccountKey): int {
    if k != ReserveKey(o) then 0 else if o.side.Buy? then SumValues(trades) else SumAmounts(trades)
  }

  /** A fill takes from the maker exactly the reserve it loses, and the rest from the taker. */
  lemma FillReserve(o: Order, maker: Order, t: Trade, k: AccountKey, side: Side, pair: Pair)
    requires Resting(maker, side, pair) && Names(o, maker, t) && 0 < t.amount <= maker.remaining && Exact(t.price, t.amount)
    requires (o.side.Buy? || o.side.Sell?) && side == SideOf(o) && PairOf(o) == pair
    ensures var quantity := t.amount;
      var maker' := maker.(remaining := maker.remaining - quantity, filled := maker.filled + quantity);
      && ReserveOf(maker', k) + LockUse(t, k) == ReserveOf(maker, k) + TakerUse(o, [t], k)
      && (maker'.remaining == 0 ==> ReserveOf(maker', k) == 0)
  {
    hide Validate;
    hide Value;
    assert [t][1..] == [];
    assert SumValues([t]) == TradeValue(t) && SumAmounts([t]) == t.amount;
    assert maker.side == side;
    ExactSplit(Price(maker), maker.remaining, t.amount);
    assert Value(Price(maker), 0) == 0 by { ZeroValue(Price(maker)); }
  }

  lemma ZeroValue(price: int)
    ensures Value(price, 0) == 0
  {
  }

  lemma TakerUseCons(o: Order, t: Trade, trades: seq<Trade>, k: AccountKey)
    ensures TakerUse(o, [t] + trades, k) == TakerUse(o, [t], k) + TakerUse(o, trades, k)
    ensures LockUses([t] + trades, k) == LockUse(t, k) + LockUses(trades, k)
  {
    hide Value;
    hide LockUse;
    assert ([t] + trades)[1..] == trades && [t][1..] == [];
    assert SumValues([t]) == TradeValue(t);
    assert SumAmounts([t]) == t.amount + SumAmounts([t][1..]);
    assert SumValues([t] + trades) == TradeValue(t) + SumValues(trades);
    assert SumAmounts([t] + trades) == t.amount + SumAmounts(trades);
  }

  /** Over a whole plan, the makers' reserves fall by what the trades consume beyond the taker's share. */
  lemma {:induction false} WalkReserves(t: Taker, queue: seq<Order>, o: Order, k: AccountKey)
    requires Walk(t, queue).Ok? && AllResting(queue, SideOf(o), PairOf(o)) && (o.side.Buy? || o.side.Sell?)
    requires t.order.side == o.side && PairOf(t.order) == PairOf(o) && t.order.user == o.user
    requires t.order.id == o.id && t.order.feeRate == o.feeRate
    ensures var w := Walk(t, queue).value;
      Reserves(w.rest, k) + LockUses(w.trades, k) == Reserves(queue, k) + TakerUse(o, w.trades, k)
    decreases |queue|
  {
    hide Resting;
    hide Visit;
    hide Quote;
    hide BudgetQuantity;
    hide Value;
    hide Exact;
    hide ReserveOf;
    hide LockUse;
    hide Validate;
    if !Stops(t, queue) {
      VisitMeaning(t, queue[0]);
      assert queue[0] in queue;
      match Visit(t, queue[0]).value
      case Skipped =>
        WalkReserves(t, queue[1..], o, k);
        var rest := Walk(t, queue[1..]).value.rest;
        assert ([queue[0]] + rest)[1..] == rest;
      case Filled(t', trade, maker') =>
        WalkReserves(t', queue[1..], o, k);
        var w := Walk(t', queue[1..]).value;
        FillReserve(o, queue[0], trade, k, SideOf(o), PairOf(o));
        TakerUseCons(o, trade, w.trades, k);
        assert ([maker'] + w.rest)[1..] == w.rest;
    }
  }

  lemma PlanReserves(o: Order, b: Book, k: AccountKey)
    requires BookOk(b, PairOf(o)) && Plan(o, Opposite(o, b)).Ok?
    ensures var w := Plan(o, Opposite(o, b)).value;
      Reserves(w.rest, k) + LockUses(w.trades, k) == Reserves(Opposite(o, b), k) + TakerUse(o, w.trades, k)
  {
    ValidIncoming(o);
    hide Validate;
    hide Walk;
    WalkReserves(Start(o), Opposite(o, b), o, k);
  }

  // ---------------------------------------------------------------- locked funds follow the book

  lemma ReservationMoves(m: Accounts, k: AccountKey, value: int, lock: bool, j: AccountKey)
    requires ChangeReservation(m, k, value, lock).Ok?
    ensures var m' := ChangeReservation(m, k, value, lock).value; var moved := if lock then value else -value;
      && Of(m', j).locked == Of(m, j).locked + (if j == k then moved else 0)
      && Of(m', j).available == Of(m, j).available - (if j == k then moved else 0)
      && k in m && m'.Keys == m.Keys && InRange(m'[k]) && value > 0
  {
    hide Rep;
  }

  lemma ChargeMoves(o: Order, b: Book, w: Walked, accounts: Accounts, k: AccountKey)
    requires PlanFacts(o, b, w) && Charge(o, w, accounts).Ok?
    ensures var (final, reserved, refund) := Charge(o, w, accounts).value;
      Of(final, k).locked == Of(accounts, k).locked - LockUses(w.trades, k) + (if k == ReserveKey(o) then reserved - refund else 0)
  {
    ChargeAddsUp(o, b, w, accounts);
    hide PlanFacts;
    hide Reservation;
    hide StillReserved;
    hide Used;
    hide Refund;
    hide SettleAll;
    hide ChangeReservation;
    hide RefundMeans;
    var locked := ChangeReservation(accounts, ReserveKey(o), Reservation(o).value, true).value;
    ReservationMoves(accounts, ReserveKey(o), Reservation(o).value, true, k);
    SettleAllMoves(locked, w.trades, k);
    var settled := SettleAll(locked, w.trades).value;
    var refund := Charge(o, w, accounts).value.2;
    if refund > 0 {
      ReservationMoves(settled, ReserveKey(o), refund, false, k);
    }
  }

  lemma CommitReserves(o: Order, b: Book, w: Walked, k: AccountKey)
    requires PlanFacts(o, b, w) && StillReserved(w.taker.order).Ok? && BookOk(b, PairOf(o))
    ensures BookReserves(CommitBook(b, w), k) == BookReserves(b, k) - Reserves(Opposite(o, b), k) + Reserves(w.rest, k)
      + (if k == ReserveKey(o) then StillReserved(w.taker.order).value else 0)
  {
    ValidIncoming(o);
    var rested := w.taker.order;
    RestedReserve(o, b, w, k);
    hide Validate;
    hide SideOk;
    hide Settles;
    hide HasOrigin;
    hide Value;
    hide ReserveOf;
    hide StillReserved;
    if o.kind.Limit? && rested.remaining > 0 {
      var mid := if o.side.Sell? then b.sells else b.buys;
      InsertReserves(mid, rested, o.side, k);
    }
  }

  lemma RestedReserve(o: Order, b: Book, w: Walked, k: AccountKey)
    requires PlanFacts(o, b, w) && StillReserved(w.taker.order).Ok?
    ensures var still := if k == ReserveKey(o) then StillReserved(w.taker.order).value else 0;
      if o.kind.Limit? && w.taker.order.remaining > 0 then ReserveOf(w.taker.order, k) == still else still == 0
  {
    ValidIncoming(o);
    hide Validate;
    hide SideOk;
    hide Settles;
    hide HasOrigin;
    hide Value;
    hide Rep;
    if o.kind.Limit? && o.side.Buy? {
      QuoteMeaning(Price(o), w.taker.order.remaining);
      ZeroValue(Price(o));
      hide Quote;
    }
  }

  /** An accepted order changes every account's locked funds by exactly the change in what its book stands for. */
  lemma ExecuteKeepsBacking(o: Order, b: Book, accounts: Accounts, k: AccountKey)
    requires BookOk(b, PairOf(o)) && Execute(o, b, accounts).Ok?
    ensures var a := Execute(o, b, accounts).value;
      Of(a.accounts, k).locked - BookReserves(a.book, k) == Of(accounts, k).locked - BookReserves(b, k)
  {
    hide Plan;
    hide Charge;
    var w := Plan(o, Opposite(o, b)).value;
    PlanHasFacts(o, b);
    ChargeAddsUp(o, b, w, accounts);
    ChargeMoves(o, b, w, accounts, k);
    CommitReserves(o, b, w, k);
    PlanReserves(o, b, k);
    TotalsAreUse(o, b, w, k);
    hide PlanFacts;
    hide CommitBook;
    hide BookReserves;
    hide RefundMeans;
  }

  lemma TotalsAreUse(o: Order, b: Book, w: Walked, k: AccountKey)
    requires PlanFacts(o, b, w)
    ensures TakerUse(o, w.trades, k) == if k == ReserveKey(o) then Used(o, w.taker) else 0
  {
    hide Validate;
    hide SideOk;
    hide Settles;
    hide HasOrigin;
  }

  // ---------------------------------------------------------------- funds never run short

  /** Every account has at least as much locked as the book's orders stand for. */
  ghost predicate Covered(accounts: Accounts, b: Book) {
    forall k: AccountKey :: Of(accounts, k).locked >= BookReserves(b, k)
  }

  lemma PlanIsSound(o: Order, b: Book, w: Walked)
    requires PlanFacts(o, b, w)
    ensures forall t :: t in w.trades ==> Sound(t)
  {
    ValidIncoming(o);
    hide Validate;
    hide SideOk;
    hide HasOrigin;
    forall t | t in w.trades ensures Sound(t) {
      assert Settles(o, t);
      SettlesIsSound(o, t);
    }
  }

  lemma SettlesIsSound(o: Order, t: Trade)
    requires Settles(o, t)
    ensures Sound(t)
  {
    QuoteMeaning(t.price, t.amount);
    hide Quote;
    hide Value;
  }

  /** Once the taker's funds are locked, settling its trades fails only for numeric range, never for want of funds. */
  lemma SettlementNeverShort(o: Order, b: Book, accounts: Accounts, w: Walked, reserved: int, locked: Accounts)
    requires BookOk(b, PairOf(o)) && Plan(o, Opposite(o, b)) == Ok(w) && AllInRange(accounts) && Covered(accounts, b)
    requires Reservation(o) == Ok(reserved) && ChangeReservation(accounts, ReserveKey(o), reserved, true) == Ok(locked)
    ensures OnlyRange(SettleAll(locked, w.trades))
    ensures SettleAll(locked, w.trades).Ok? ==> AllInRange(SettleAll(locked, w.trades).value)
  {
    hide Plan;
    hide Reservation;
    hide ChangeReservation;
    hide AllInRange;
    hide SettleAll;
    PlanHasFacts(o, b);
    ReservationCoversUse(o, b, w);
    ReservationKeepsRange(accounts, ReserveKey(o), reserved, true);
    forall k: AccountKey ensures Of(locked, k).locked >= LockUses(w.trades, k) {
      ReservationMoves(accounts, ReserveKey(o), reserved, true, k);
      PlanReserves(o, b, k);
      TotalsAreUse(o, b, w, k);
      assert Of(accounts, k).locked >= BookReserves(b, k);
      BookReservesParts(o, b, w, k);
    }
    PlanIsSound(o, b, w);
    SettleAllOnlyRange(locked, w.trades);
  }

  /** The reservation covers the trades even when the remainder turns out not to be quotable. */
  lemma ReservationCoversUse(o: Order, b: Book, w: Walked)
    requires PlanFacts(o, b, w) && Reservation(o).Ok?
    ensures Reservation(o).value >= Used(o, w.taker)
  {
    ValidIncoming(o);
    hide Validate;
    hide Quote;
    hide SideOk;
    hide HasOrigin;
    hide Value;
    hide Improvement;
    if o.side.Buy? && o.kind.Limit? {
      assert forall t :: t in w.trades ==> Exact(t.price, t.amount) && t.amount > 0 && t.price <= Price(o);
      ImprovementMeaning(Price(o), w.trades);
      QuoteMeaning(Price(o), o.amount);
      assert SumAmounts(w.trades) <= o.amount;
      LimitCoversPaid(Price(o), o.amount, SumAmounts(w.trades), SumValues(w.trades));
    }
  }

  lemma LimitCoversPaid(limit: int, amount: int, filled: int, paid: int)
    requires Exact(limit, amount) && limit >= 0 && filled <= amount && paid * FACTOR <= limit * filled
    ensures paid <= Value(limit, amount)
  {
    ProductSign(limit, amount - filled);
    assert limit * amount == limit * filled + limit * (amount - filled);
    assert Value(limit, amount) * FACTOR == limit * amount;
  }

  lemma BookReservesParts(o: Order, b: Book, w: Walked, k: AccountKey)
    requires BookOk(b, PairOf(o)) && PlanFacts(o, b, w)
    ensures BookReserves(b, k) >= Reserves(Opposite(o, b), k) && Reserves(w.rest, k) >= 0
  {
    ReservesNonNegative(b.buys, k, Buy, PairOf(o));
    ReservesNonNegative(b.sells, k, Sell, PairOf(o));
    ReservesNonNegative(w.rest, k, SideOf(o), PairOf(o));
    hide Resting;
    hide ReserveOf;
    hide Validate;
    hide Settles;
  }

  lemma ReservationKeepsRange(m: Accounts, k: AccountKey, value: int, lock: bool)
    requires AllInRange(m) && ChangeReservation(m, k, value, lock).Ok?
    ensures AllInRange(ChangeReservation(m, k, value, lock).value)
  {
    ReservationMoves(m, k, value, lock, k);
    hide Rep;
    hide InRange;
  }

  /** Unlocking what is locked fails only for numeric range. */
  lemma UnlockOnlyRange(m: Accounts, k: AccountKey, value: int)
    requires AllInRange(m) && 0 < value <= Of(m, k).locked
    ensures OnlyRange(ChangeReservation(m, k, value, false))
  {
    hide Rep;
  }

  lemma ReservationOfValid(o: Order, b: Book, w: Walked)
    requires PlanFacts(o, b, w)
    ensures Reservation(o).Ok? && (!(o.kind.Limit? && o.side.Buy?) ==> StillReserved(w.taker.order).Ok?)
  {
    ValidIncoming(o);
    hide Validate;
    hide Quote;
    hide SideOk;
    hide Settles;
    hide HasOrigin;
  }

  /** What is locked for the order after settling, before the refund is released. */
  lemma LockedCoversRefund(o: Order, b: Book, accounts: Accounts, w: Walked, reserved: int, locked: Accounts)
    requires BookOk(b, PairOf(o)) && Plan(o, Opposite(o, b)) == Ok(w) && PlanFacts(o, b, w) && Covered(accounts, b)
    requires Reservation(o) == Ok(reserved) && StillReserved(w.taker.order).Ok?
    requires ChangeReservation(accounts, ReserveKey(o), reserved, true) == Ok(locked) && SettleAll(locked, w.trades).Ok?
    ensures Of(SettleAll(locked, w.trades).value, ReserveKey(o)).locked
         >= reserved - Used(o, w.taker) - StillReserved(w.taker.order).value >= 0
  {
    hide Plan;
    hide Reservation;
    hide StillReserved;
    hide ChangeReservation;
    hide SettleAll;
    var k := ReserveKey(o);
    ReservationCovers(o, b, w);
    ReservationMoves(accounts, k, reserved, true, k);
    SettleAllMoves(locked, w.trades, k);
    PlanReserves(o, b, k);
    TotalsAreUse(o, b, w, k);
    BookReservesParts(o, b, w, k);
    assert Of(accounts, k).locked >= BookReserves(b, k);
    hide PlanFacts;
    hide Used;
    hide RefundMeans;
    hide BookReserves;
    hide Reserves;
    hide BookOk;
    hide ReserveKey;
  }

  /** The refund is always still locked when it is released. */
  lemma RefundNeverShort(o: Order, b: Book, accounts: Accounts, w: Walked, reserved: int, locked: Accounts)
    requires BookOk(b, PairOf(o)) && Plan(o, Opposite(o, b)) == Ok(w) && PlanFacts(o, b, w) && Covered(accounts, b)
    requires Reservation(o) == Ok(reserved) && StillReserved(w.taker.order).Ok?
    requires ChangeReservation(accounts, ReserveKey(o), reserved, true) == Ok(locked) && SettleAll(locked, w.trades).Ok?
    requires AllInRange(SettleAll(locked, w.trades).value)
    ensures var refund := Refund(reserved, Used(o, w.taker), StillReserved(w.taker.order).value);
      OnlyRange(refund) && (refund.Ok? ==> OnlyRange(Release(SettleAll(locked, w.trades).value, ReserveKey(o), refund.value)))
  {
    RefundNeverNegative(o, b, w);
    LockedCoversRefund(o, b, accounts, w, reserved, locked);
    hide *;
    ReleaseOnlyRange(SettleAll(locked, w.trades).value, ReserveKey(o), reserved, Used(o, w.taker), StillReserved(w.taker.order).value);
  }

  lemma ReleaseOnlyRange(settled: Accounts, k: AccountKey, reserved: int, used: int, remaining: int)
    requires AllInRange(settled) && Of(settled, k).locked >= reserved - used - remaining
    ensures var refund := Refund(reserved, used, remaining);
      refund.Ok? ==> OnlyRange(Release(settled, k, refund.value))
  {
    hide Rep;
    var refund := Refund(reserved, used, remaining);
    if refund.Ok? && refund.value > 0 {
      assert refund.value == reserved - used - remaining;
      UnlockOnlyRange(settled, k, refund.value);
    }
  }

  /**
   After a successful lock, an order can still be refused only because the remainder of a limit buy
   is not exactly payable at its limit, or for numeric range.
  */
  lemma ChargeFailsOnlyFor(o: Order, b: Book, accounts: Accounts)
    requires BookOk(b, PairOf(o)) && Plan(o, Opposite(o, b)).Ok? && AllInRange(accounts) && Covered(accounts, b)
    requires Charge(o, Plan(o, Opposite(o, b)).value, accounts).Err?
    ensures var w := Plan(o, Opposite(o, b)).value; var e := Charge(o, w, accounts).error;
      && Reservation(o).Ok?
      && (|| ChangeReservation(accounts, ReserveKey(o), Reservation(o).value, true) == Err(e)
          || (o.kind.Limit? && o.side.Buy? && StillReserved(w.taker.order) == Err(e))
          || e == Range || e == Unrepresentable)
  {
    hide Plan;
    hide SettleAll;
    hide ChangeReservation;
    hide AllInRange;
    hide Reservation;
    hide StillReserved;
    hide PlanFacts;
    hide Covered;
    hide BookOk;
    hide Refund;
    hide Release;
    hide Used;
    hide ReserveKey;
    var w := Plan(o, Opposite(o, b)).value;
    PlanHasFacts(o, b);
    ReservationOfValid(o, b, w);
    var lock := ChangeReservation(accounts, ReserveKey(o), Reservation(o).value, true);
    if lock.Ok? {
      SettlementNeverShort(o, b, accounts, w, Reservation(o).value, lock.value);
      if SettleAll(lock.value, w.trades).Ok? && StillReserved(w.taker.order).Ok? {
        RefundNeverShort(o, b, accounts, w, Reservation(o).value, lock.value);
      }
    }
  }
}
