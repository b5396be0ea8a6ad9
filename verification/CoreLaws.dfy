/** Invariants of every reachable core state: books stay well formed, uncrossed, and traceable to submissions. */
module CoreLaws {
  import opened Prelude
  import opened Amount
  import opened Types
  import opened Matcher
  import opened MatchingLaws
  import opened Balances
  import opened BalanceLaws
  import opened Submission
  import opened SubmissionLaws
  import opened ReserveLaws
  import opened Core

  /** Every resting order continues the submission recorded under its id. */
  ghost predicate Traceable(queue: seq<Order>, submissions: map<nat, Order>) {
    forall o :: o in queue ==> o.id in submissions && Continues(submissions[o.id], o)
  }

  ghost predicate BookInv(b: Book, pair: Pair, submissions: map<nat, Order>) {
    BookOk(b, pair) && Traceable(b.buys, submissions) && Traceable(b.sells, submissions)
  }

  ghost predicate Inv(c: Core) {
    AllInRange(c.accounts) && forall p :: p in c.books ==> BookInv(c.books[p], p, c.submissions)
  }

  lemma EmptyBookInv(pair: Pair, submissions: map<nat, Order>)
    ensures BookInv(EMPTY_BOOK, pair, submissions)
  {
  }

  lemma BookInvOk(b: Book, pair: Pair, submissions: map<nat, Order>)
    requires BookInv(b, pair, submissions)
    ensures BookOk(b, pair)
  {
  }

  lemma BookAtInv(c: Core, p: Pair)
    requires Inv(c)
    ensures BookInv(BookAt(c, p), p, c.submissions)
  {
    EmptyBookInv(p, c.submissions);
  }

  lemma ContinuesTransitive(a: Order, b: Order, c: Order)
    requires Continues(a, b) && Continues(b, c)
    ensures Continues(a, c)
  {
  }

  lemma TraceableAfter(queue: seq<Order>, o: Order, side: Side, queue': seq<Order>, submissions: map<nat, Order>)
    requires Traceable(queue, submissions) && Descends(queue, o, side, queue') && o.id !in submissions
    ensures Traceable(queue', submissions[o.id := o])
  {
    forall r | r in queue' ensures r.id in submissions[o.id := o] && Continues(submissions[o.id := o][r.id], r) {
      if HasOrigin(queue, r) {
        var x :| x in queue && Continues(x, r);
        ContinuesTransitive(submissions[x.id], x, r);
      }
    }
  }

  lemma TraceableGrows(queue: seq<Order>, submissions: map<nat, Order>, id: nat, o: Order)
    requires Traceable(queue, submissions) && id !in submissions
    ensures Traceable(queue, submissions[id := o])
  {
  }

  /** Facts about an accepted order in one place. */
  lemma ExecuteFacts(o: Order, b: Book, accounts: Accounts)
    requires BookOk(b, PairOf(o)) && Execute(o, b, accounts).Ok? && (forall r :: r in b.buys + b.sells ==> r.id != o.id)
    ensures var a := Execute(o, b, accounts).value;
      BookOk(a.book, PairOf(o)) && Descends(b.buys, o, Buy, a.book.buys) && Descends(b.sells, o, Sell, a.book.sells)
      && a.orderId == o.id
  {
    hide Plan;
    hide Charge;
    hide BookOk;
    hide CommitBook;
    hide Descends;
    var w := Plan(o, Opposite(o, b)).value;
    PlanHasFacts(o, b);
    ChargeAddsUp(o, b, w, accounts);
    CommitKeepsBook(o, b, w);
  }

  /** Recording a submission does not disturb the books. */
  lemma RecordingKeepsInv(c: Core, o: Order)
    requires Inv(c) && o.id !in c.submissions
    ensures Inv(c.(submissions := c.submissions[o.id := o]))
  {
    hide AllInRange;
    hide BookOk;
    hide Traceable;
    forall p | p in c.books ensures BookInv(c.books[p], p, c.submissions[o.id := o]) {
      TraceableGrows(c.books[p].buys, c.submissions, o.id, o);
      TraceableGrows(c.books[p].sells, c.submissions, o.id, o);
    }
  }

  lemma SubmitKeepsInv(c: Core, o: Order)
    requires Inv(c)
    ensures Inv(ApplySubmit(c, o).0)
  {
    hide Execute;
    hide AllInRange;
    hide BookOk;
    hide Traceable;
    if o.id !in c.submissions {
      var b := BookAt(c, PairOf(o));
      BookAtInv(c, PairOf(o));
      RecordingKeepsInv(c, o);
      if Execute(o, b, c.accounts).Ok? {
        FreshInBook(c, b, PairOf(o), o);
        ExecuteFacts(o, b, c.accounts);
        ExecuteKeepsRange(o, b, c.accounts);
        var a := Execute(o, b, c.accounts).value;
        TraceableAfter(b.buys, o, Buy, a.book.buys, c.submissions);
        TraceableAfter(b.sells, o, Sell, a.book.sells, c.submissions);
      }
    }
  }

  lemma FreshInBook(c: Core, b: Book, pair: Pair, o: Order)
    requires BookInv(b, pair, c.submissions) && o.id !in c.submissions
    ensures forall r :: r in b.buys + b.sells ==> r.id != o.id
  {
    hide BookOk;
    hide Continues;
  }

  lemma SettleKeepsRange(m: Accounts, t: Trade)
    requires AllInRange(m) && Settle(m, t).Ok?
    ensures AllInRange(Settle(m, t).value)
  {
    hide Quote;
    hide Fee;
    hide Rep;
    hide Trimmed;
    hide Stage;
    hide Value;
    var fees := SettlementFees(t).value;
    StageKeepsRange(m, map[], Changes(t, TradeValue(t), fees.0, fees.1));
  }

  lemma {:induction false} StageKeepsRange(m: Accounts, staged: Accounts, changes: seq<Change>)
    requires AllInRange(staged) && Stage(m, staged, changes).Ok?
    ensures AllInRange(Stage(m, staged, changes).value)
    decreases |changes|
  {
    hide Loaded;
    if changes != [] {
      var c := changes[0];
      var before := if c.key in staged then Ok(staged[c.key]) else Loaded(Of(m, c.key));
      StageKeepsRange(m, staged[c.key := Moved(before.value, c).value], changes[1..]);
    }
  }

  lemma {:induction false} SettleAllKeepsRange(m: Accounts, trades: seq<Trade>)
    requires AllInRange(m) && SettleAll(m, trades).Ok?
    ensures AllInRange(SettleAll(m, trades).value)
    decreases |trades|
  {
    hide Settle;
    hide AllInRange;
    if trades != [] {
      SettleKeepsRange(m, trades[0]);
      SettleAllKeepsRange(Settle(m, trades[0]).value, trades[1..]);
    }
  }

  lemma ExecuteKeepsRange(o: Order, b: Book, accounts: Accounts)
    requires AllInRange(accounts) && Execute(o, b, accounts).Ok?
    ensures AllInRange(Execute(o, b, accounts).value.accounts)
  {
    hide Plan;
    hide SettleAll;
    hide AllInRange;
    hide ChangeReservation;
    hide StillReserved;
    hide Reservation;
    hide Refund;
    hide CommitBook;
    var w := Plan(o, Opposite(o, b)).value;
    var locked := ChangeReservation(accounts, ReserveKey(o), Reservation(o).value, true).value;
    ReservationKeepsRange(accounts, ReserveKey(o), Reservation(o).value, true);
    SettleAllKeepsRange(locked, w.trades);
    var settled := SettleAll(locked, w.trades).value;
    var refund := Charge(o, w, accounts).value.2;
    if refund > 0 {
      ReservationKeepsRange(settled, ReserveKey(o), refund, false);
    }
  }

  // ---------------------------------------------------------------- cancelling

  lemma {:induction false} FindMeaning(queue: seq<Order>, id: nat)
    ensures match Find(queue, id)
      case Some(o) => o in queue && o.id == id
      case None => forall o :: o in queue ==> o.id != id
  {
    if queue != [] {
      FindMeaning(queue[1..], id);
    }
  }

  lemma {:induction false} RemoveSideOk(queue: seq<Order>, id: nat, side: Side, pair: Pair)
    requires SideOk(queue, side, pair)
    ensures SideOk(Remove(queue, id), side, pair)
    ensures forall r :: r in Remove(queue, id) <==> r in queue && r.id != id
  {
    hide Resting;
    hide Ahead;
    hide SideOk;
    if queue != [] {
      TailSideOk(queue, side, pair);
      assert forall r :: r in queue <==> r == queue[0] || r in queue[1..];
      if queue[0].id != id {
        RemoveSideOk(queue[1..], id, side, pair);
        ConsSideOk(queue[0], Remove(queue[1..], id), side, pair);
      }
    }
  }

  /** What cancelling a resting order gives back. */
  function Unlocking(o: Order): Result<int> {
    if o.side.Buy? then Quote(Price(o), o.remaining) else Ok(o.remaining)
  }

  lemma CancelFacts(c: Core, id: nat, user: nat, pair: Pair)
    requires Inv(c) && CancelOrder(c, id, user, pair).Ok?
    ensures var (c', o) := CancelOrder(c, id, user, pair).value; var b := c.books[pair]; var buy := o.side.Buy?;
      && pair in c.books && o.id == id && o.user == user && PairOf(o) == pair && (o.side.Buy? || o.side.Sell?)
      && (if buy then o in b.buys else o in b.sells)
      && Unlocking(o).Ok? && ChangeReservation(c.accounts, ReserveKey(o), Unlocking(o).value, false) == Ok(c'.accounts)
      && c' == c.(accounts := c'.accounts, books := c.books[pair := WithoutOrder(b, id, buy)], cancellations := c.cancellations[id := o])
  {
    hide Quote;
    hide ChangeReservation;
    hide AllInRange;
    hide BookInv;
    FindMeaning(c.books[pair].buys, id);
    FindMeaning(c.books[pair].sells, id);
  }

  lemma WithoutOrderKeepsBook(b: Book, pair: Pair, id: nat, buy: bool, submissions: map<nat, Order>)
    requires BookInv(b, pair, submissions)
    ensures BookInv(WithoutOrder(b, id, buy), pair, submissions)
  {
    RemoveSideOk(b.buys, id, Buy, pair);
    RemoveSideOk(b.sells, id, Sell, pair);
    hide SideOk;
    hide Continues;
  }

  lemma CancelKeepsInv(c: Core, id: nat, user: nat, pair: Pair)
    requires Inv(c)
    ensures Inv(ApplyCancel(c, id, user, pair).0)
  {
    hide CancelOrder;
    hide BookInv;
    hide AllInRange;
    hide ChangeReservation;
    hide Unlocking;
    if id !in c.cancellations && CancelOrder(c, id, user, pair).Ok? {
      CancelFacts(c, id, user, pair);
      var o := CancelOrder(c, id, user, pair).value.1;
      ReservationKeepsRange(c.accounts, ReserveKey(o), Unlocking(o).value, false);
      WithoutOrderKeepsBook(c.books[pair], pair, id, o.side.Buy?, c.submissions);
    }
  }

  // ---------------------------------------------------------------- account commands

  lemma AccountsKeepRange(m: Accounts, k: AccountKey, amount: int)
    requires AllInRange(m)
    ensures Credited(m, k, amount).Ok? ==> AllInRange(Credited(m, k, amount).value)
    ensures Paid(m, k, amount).Ok? ==> AllInRange(Paid(m, k, amount).value)
    ensures Adjusted(m, k.0, k.1, amount).Ok? ==> AllInRange(Adjusted(m, k.0, k.1, amount).value)
  {
    hide Rep;
    hide Trimmed;
  }

  lemma MoveKeepsRange(m: Accounts, action: WithdrawalAction, funds: WithdrawalFunds)
    requires AllInRange(m) && MoveFunds(m, action, funds).Ok?
    ensures AllInRange(MoveFunds(m, action, funds).value)
  {
    AccountsKeepRange(m, FundsKey(funds), funds.amount);
    hide AllInRange;
    match action
    case Reserve => ReservationKeepsRange(m, FundsKey(funds), funds.amount, true);
    case Release => ReservationKeepsRange(m, FundsKey(funds), funds.amount, false);
    case Complete =>
  }

  /** Each command keeps every book well formed and every balance in range. */
  lemma StepKeepsInv(c: Core, command: Command)
    requires Inv(c)
    ensures Inv(Next(c, command))
  {
    match command
    case Submit(o) => SubmitKeepsInv(c, o);
    case Cancel(id, user, pair) => CancelKeepsInv(c, id, user, pair);
    case _ => AccountStepKeepsInv(c, command);
  }

  /** Commands that touch only accounts and receipts. */
  ghost predicate BooksUntouched(c: Core, c': Core) {
    c'.books == c.books && c'.submissions == c.submissions && c'.cancellations == c.cancellations
  }

  lemma UntouchedKeepsInv(c: Core, c': Core)
    requires Inv(c) && BooksUntouched(c, c') && AllInRange(c'.accounts)
    ensures Inv(c')
  {
    hide BookInv;
    hide AllInRange;
  }

  lemma WithdrawalKeepsRange(c: Core, action: WithdrawalAction, funds: WithdrawalFunds)
    requires AllInRange(c.accounts)
    ensures var c' := ApplyWithdrawal(c, action, funds).0; BooksUntouched(c, c') && AllInRange(c'.accounts)
  {
    hide AllInRange;
    hide MoveFunds;
    hide Admit;
    if MoveFunds(c.accounts, action, funds).Ok? {
      MoveKeepsRange(c.accounts, action, funds);
    }
  }

  lemma DepositKeepsRange(c: Core, credit: DepositCredit)
    requires AllInRange(c.accounts)
    ensures var c' := ApplyDeposit(c, credit).0; BooksUntouched(c, c') && AllInRange(c'.accounts)
  {
    hide AllInRange;
    hide Credited;
    hide ValidateDeposit;
    AccountsKeepRange(c.accounts, (credit.user, credit.asset), credit.amount);
  }

  lemma AccountStepKeepsInv(c: Core, command: Command)
    requires Inv(c) && !command.Submit? && !command.Cancel?
    ensures Inv(Next(c, command)) && BooksUntouched(c, Next(c, command))
  {
    hide BookInv;
    hide AllInRange;
    hide Adjusted;
    hide ChangeReservation;
    hide ApplyDeposit;
    hide ApplyWithdrawal;
    hide Inv;
    assert AllInRange(c.accounts) by { InvRange(c); }
    match command {
      case Withdrawal(action, funds) => WithdrawalKeepsRange(c, action, funds);
      case CreditDeposit(credit) => DepositKeepsRange(c, credit);
      case AdjustBalance(user, asset, delta) => AccountsKeepRange(c.accounts, (user, asset), delta);
      case Lock(user, asset, amount) =>
        if ChangeReservation(c.accounts, (user, asset), amount, true).Ok? {
          ReservationKeepsRange(c.accounts, (user, asset), amount, true);
        }
      case Unlock(user, asset, amount) =>
        if ChangeReservation(c.accounts, (user, asset), amount, false).Ok? {
          ReservationKeepsRange(c.accounts, (user, asset), amount, false);
        }
    }
    UntouchedKeepsInv(c, Next(c, command));
  }

  lemma InvRange(c: Core)
    requires Inv(c)
    ensures AllInRange(c.accounts)
  {
  }

  lemma GenesisInv(c: Core)
    requires IsGenesis(c)
    ensures Inv(c)
  {
  }

  /** Every state of every run is well formed. */
  lemma {:induction false} RunKeepsInv(c: Core, commands: seq<Command>)
    requires Inv(c)
    ensures Inv(Run(c, commands))
    decreases |commands|
  {
    hide Inv;
    hide Next;
    if commands != [] {
      StepKeepsInv(c, commands[0]);
      RunKeepsInv(Next(c, commands[0]), commands[1..]);
    }
  }

  /** In every reachable state, a resting buy and sell of a pair whose prices meet belong to one user. */
  lemma ReachableBooksUncrossed(genesis: Core, commands: seq<Command>, p: Pair, buy: Order, sell: Order)
    requires IsGenesis(genesis)
    requires var c := Run(genesis, commands); p in c.books && buy in c.books[p].buys && sell in c.books[p].sells
    requires Price(buy) >= Price(sell)
    ensures buy.user == sell.user
  {
    GenesisInv(genesis);
    RunKeepsInv(genesis, commands);
    hide SideOk;
    hide Traceable;
    hide AllInRange;
  }

  /** In every reachable state, order ids are unique across all books and both sides. */
  lemma ReachableIdsUnique(genesis: Core, commands: seq<Command>, p: Pair, q: Pair, x: Order, y: Order)
    requires IsGenesis(genesis)
    requires var c := Run(genesis, commands);
      p in c.books && q in c.books && x in c.books[p].buys + c.books[p].sells && y in c.books[q].buys + c.books[q].sells
    requires x.id == y.id
    ensures x == y && p == q
  {
    GenesisInv(genesis);
    RunKeepsInv(genesis, commands);
    IdsUnique(Run(genesis, commands), p, q, x, y);
  }

  lemma IdsUnique(c: Core, p: Pair, q: Pair, x: Order, y: Order)
    requires Inv(c) && p in c.books && q in c.books && x.id == y.id
    requires x in c.books[p].buys + c.books[p].sells && y in c.books[q].buys + c.books[q].sells
    ensures x == y && p == q
  {
    hide Validate;
    hide Exact;
    hide AllInRange;
    assert BookInv(c.books[p], p, c.submissions) && BookInv(c.books[q], q, c.submissions);
    var s := c.submissions[x.id];
    assert PairOf(x) == PairOf(s) == PairOf(y) && x.side == s.side == y.side;
    var queue := if x.side.Buy? then c.books[p].buys else c.books[p].sells;
    assert x in queue && y in queue;
    var i :| 0 <= i < |queue| && queue[i] == x;
    var j :| 0 <= j < |queue| && queue[j] == y;
    assert i == j by {
      assert Distinct(queue);
    }
  }
}
