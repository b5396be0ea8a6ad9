/**
 Over every run: locked funds are exactly what resting orders, reserved withdrawals and explicit
 locks stand for, so nothing that is entitled to locked funds ever finds them missing.
*/
module BackingLaws {
  import opened Prelude
  import opened Amount
  import opened Types
  import opened Matcher
  import opened MatchingLaws
  import opened Balances
  import opened BalanceLaws
  import opened Submission
  import opened SubmissionLaws
  import opened ReserveLaws
  import opened Core
  import opened CoreLaws
  import opened PlanFailures

  // ---------------------------------------------------------------- obligations

  ghost function BookTerms(books: map<Pair, Book>, k: AccountKey): map<Pair, int> {
    map p | p in books :: BookReserves(books[p], k)
  }

  /** What a withdrawal still holds of an account. */
  function HeldBy(r: WithdrawalReceipt, k: AccountKey): int {
    if r.status.Reserved? && k == FundsKey(r.original) then r.original.amount else 0
  }

  ghost function HoldTerms(withdrawals: map<Uuid, WithdrawalReceipt>, k: AccountKey): map<Uuid, int> {
    map u | u in withdrawals :: HeldBy(withdrawals[u], k)
  }

  /** Resting buys at price times remainder, resting sells, and reserved withdrawals of one account. */
  ghost function Obligation(c: Core, k: AccountKey): int {
    Sum(BookTerms(c.books, k)) + Sum(HoldTerms(c.withdrawals, k))
  }

  lemma BookChange(books: map<Pair, Book>, p: Pair, b: Book, k: AccountKey)
    ensures Sum(BookTerms(books[p := b], k)) ==
            Sum(BookTerms(books, k)) - BookReserves(if p in books then books[p] else EMPTY_BOOK, k) + BookReserves(b, k)
  {
    assert BookTerms(books[p := b], k) == BookTerms(books, k)[p := BookReserves(b, k)];
    SumUpdate(BookTerms(books, k), p, BookReserves(b, k));
  }

  lemma HoldChange(withdrawals: map<Uuid, WithdrawalReceipt>, u: Uuid, r: WithdrawalReceipt, k: AccountKey)
    ensures Sum(HoldTerms(withdrawals[u := r], k)) ==
            Sum(HoldTerms(withdrawals, k)) - (if u in withdrawals then HeldBy(withdrawals[u], k) else 0) + HeldBy(r, k)
  {
    assert HoldTerms(withdrawals[u := r], k) == HoldTerms(withdrawals, k)[u := HeldBy(r, k)];
    SumUpdate(HoldTerms(withdrawals, k), u, HeldBy(r, k));
  }

  // ---------------------------------------------------------------- explicit locks

  /** The net of applied Lock and Unlock commands, per account. */
  function NetStep(net: map<AccountKey, int>, c: Core, command: Command): map<AccountKey, int> {
    match command
    case Lock(user, asset, amount) =>
      if Apply(c, command).1.Applied? then net[(user, asset) := At(net, (user, asset)) + amount] else net
    case Unlock(user, asset, amount) =>
      if Apply(c, command).1.Applied? then net[(user, asset) := At(net, (user, asset)) - amount] else net
    case _ => net
  }

  function NetRun(net: map<AccountKey, int>, c: Core, commands: seq<Command>): map<AccountKey, int>
    decreases |commands|
  {
    if commands == [] then net
    else NetRun(NetStep(net, c, commands[0]), Next(c, commands[0]), commands[1..])
  }

  ghost predicate Backed(c: Core, net: map<AccountKey, int>) {
    forall k: AccountKey :: Of(c.accounts, k).locked == Obligation(c, k) + At(net, k)
  }

  // ---------------------------------------------------------------- each command keeps the books backed

  lemma SubmitBacked(c: Core, o: Order, k: AccountKey)
    requires Inv(c)
    ensures var c' := ApplySubmit(c, o).0;
      Of(c'.accounts, k).locked - Obligation(c', k) == Of(c.accounts, k).locked - Obligation(c, k)
  {
    hide Execute;
    hide BookInv;
    hide BookReserves;
    if o.id !in c.submissions {
      var b := BookAt(c, PairOf(o));
      BookAtInv(c, PairOf(o));
      assert BookOk(b, PairOf(o)) by { BookInvOk(b, PairOf(o), c.submissions); }
      if Execute(o, b, c.accounts).Ok? {
        ExecuteKeepsBacking(o, b, c.accounts, k);
        BookChange(c.books, PairOf(o), Execute(o, b, c.accounts).value.book, k);
      }
    }
  }

  lemma {:induction false} RemoveReserves(queue: seq<Order>, o: Order, k: AccountKey)
    requires o in queue && Distinct(queue)
    ensures Reserves(Remove(queue, o.id), k) == Reserves(queue, k) - ReserveOf(o, k)
  {
    hide ReserveOf;
    if queue[0].id == o.id {
      var i :| 0 <= i < |queue| && queue[i] == o;
      assert i == 0;
    } else {
      RemoveReserves(queue[1..], o, k);
      assert ([queue[0]] + Remove(queue[1..], o.id))[1..] == Remove(queue[1..], o.id);
    }
  }

  lemma UnlockingIsReserve(o: Order, k: AccountKey)
    requires Unlocking(o).Ok? && (o.side.Buy? || o.side.Sell?)
    ensures ReserveOf(o, k) == if k == ReserveKey(o) then Unlocking(o).value else 0
  {
    if o.side.Buy? {
      QuoteMeaning(Price(o), o.remaining);
      hide Quote;
    }
  }

  lemma CancelBacked(c: Core, id: nat, user: nat, pair: Pair, k: AccountKey)
    requires Inv(c)
    ensures var c' := ApplyCancel(c, id, user, pair).0;
      Of(c'.accounts, k).locked - Obligation(c', k) == Of(c.accounts, k).locked - Obligation(c, k)
  {
    hide CancelOrder;
    hide ChangeReservation;
    hide Unlocking;
    hide ReserveOf;
    hide AllResting;
    hide Ordered;
    hide AllInRange;
    if id !in c.cancellations && CancelOrder(c, id, user, pair).Ok? {
      CancelFacts(c, id, user, pair);
      var o := CancelOrder(c, id, user, pair).value.1;
      var b := c.books[pair];
      assert BookInv(b, pair, c.submissions);
      ReservationMoves(c.accounts, ReserveKey(o), Unlocking(o).value, false, k);
      UnlockingIsReserve(o, k);
      RemoveReserves(if o.side.Buy? then b.buys else b.sells, o, k);
      BookChange(c.books, pair, WithoutOrder(b, id, o.side.Buy?), k);
    }
  }

  lemma PaidMoves(m: Accounts, k: AccountKey, amount: int, j: AccountKey)
    requires Paid(m, k, amount).Ok?
    ensures var m' := Paid(m, k, amount).value;
      Of(m', j).locked == Of(m, j).locked - (if j == k then amount else 0) && Of(m', j).available == Of(m, j).available
      && k in m && amount >= 0
  {
    hide Rep;
  }

  lemma WithdrawalBacked(c: Core, action: WithdrawalAction, funds: WithdrawalFunds, k: AccountKey)
    ensures var c' := ApplyWithdrawal(c, action, funds).0;
      Of(c'.accounts, k).locked - Obligation(c', k) == Of(c.accounts, k).locked - Obligation(c, k)
  {
    hide ChangeReservation;
    hide Paid;
    hide ValidateWithdrawal;
    if Admit(c, action, funds) == Ok(true) {
      var moved := MoveFunds(c.accounts, action, funds);
      if moved.Ok? {
        match action {
          case Reserve => ReservationMoves(c.accounts, FundsKey(funds), funds.amount, true, k);
          case Release => ReservationMoves(c.accounts, FundsKey(funds), funds.amount, false, k);
          case Complete => PaidMoves(c.accounts, FundsKey(funds), funds.amount, k);
        }
        HoldChange(c.withdrawals, funds.id, WithdrawalReceipt(funds, StatusAfter(action)), k);
      } else if action.Reserve? {
        HoldChange(c.withdrawals, funds.id, WithdrawalReceipt(funds, Refused(moved.error)), k);
      }
    }
  }

  lemma AvailableOnly(m: Accounts, k: AccountKey, amount: int, j: AccountKey)
    ensures Credited(m, k, amount).Ok? ==> Of(Credited(m, k, amount).value, j).locked == Of(m, j).locked
    ensures Adjusted(m, k.0, k.1, amount).Ok? ==> Of(Adjusted(m, k.0, k.1, amount).value, j).locked == Of(m, j).locked
  {
    hide Add;
    hide Subtract;
    hide Trimmed;
  }

  /** One command keeps locked funds equal to obligations plus explicit locks. */
  lemma StepKeepsBacking(c: Core, net: map<AccountKey, int>, command: Command)
    requires Inv(c) && Backed(c, net)
    ensures Backed(Next(c, command), NetStep(net, c, command))
  {
    hide Inv;
    hide Obligation;
    var c', net' := Next(c, command), NetStep(net, c, command);
    forall k: AccountKey ensures Of(c'.accounts, k).locked == Obligation(c', k) + At(net', k) {
      assert Of(c.accounts, k).locked == Obligation(c, k) + At(net, k);
      StepMovesLocks(c, net, command, k);
    }
  }

  lemma LockCommandMoves(c: Core, net: map<AccountKey, int>, user: nat, asset: Asset, amount: int, lock: bool, k: AccountKey)
    ensures var command := if lock then Lock(user, asset, amount) else Unlock(user, asset, amount);
      var c', net' := Next(c, command), NetStep(net, c, command);
      Of(c'.accounts, k).locked - At(net', k) == Of(c.accounts, k).locked - At(net, k)
      && c'.books == c.books && c'.withdrawals == c.withdrawals
  {
    hide ChangeReservation;
    if ChangeReservation(c.accounts, (user, asset), amount, lock).Ok? {
      ReservationMoves(c.accounts, (user, asset), amount, lock, k);
    }
  }

  lemma CreditCommandMoves(c: Core, command: Command, k: AccountKey)
    requires command.CreditDeposit? || command.AdjustBalance?
    ensures var c' := Next(c, command);
      Of(c'.accounts, k).locked == Of(c.accounts, k).locked && c'.books == c.books && c'.withdrawals == c.withdrawals
  {
    hide Credited;
    hide Adjusted;
    hide ValidateDeposit;
    hide ApplyWithdrawal;
    hide ApplySubmit;
    hide ApplyCancel;
    hide ChangeReservation;
    match command
    case CreditDeposit(credit) => AvailableOnly(c.accounts, (credit.user, credit.asset), credit.amount, k);
    case AdjustBalance(user, asset, delta) => AvailableOnly(c.accounts, (user, asset), delta, k);
  }

  lemma StepMovesLocks(c: Core, net: map<AccountKey, int>, command: Command, k: AccountKey)
    requires Inv(c)
    ensures var c', net' := Next(c, command), NetStep(net, c, command);
      Of(c'.accounts, k).locked - Obligation(c', k) - At(net', k) == Of(c.accounts, k).locked - Obligation(c, k) - At(net, k)
  {
    hide Inv;
    hide ApplySubmit;
    hide ApplyCancel;
    hide ApplyWithdrawal;
    hide ApplyDeposit;
    hide OnAccounts;
    match command
    case Submit(o) => SubmitBacked(c, o, k);
    case Cancel(id, user, pair) => CancelBacked(c, id, user, pair, k);
    case Withdrawal(action, funds) => WithdrawalBacked(c, action, funds, k);
    case Lock(user, asset, amount) => LockCommandMoves(c, net, user, asset, amount, true, k);
    case Unlock(user, asset, amount) => LockCommandMoves(c, net, user, asset, amount, false, k);
    case _ => CreditCommandMoves(c, command, k);
  }

  lemma GenesisBacked(c: Core)
    requires IsGenesis(c)
    ensures Backed(c, map[])
  {
    forall k: AccountKey ensures Of(c.accounts, k).locked == Obligation(c, k) + At(map[], k) {
      assert BookTerms(c.books, k) == map[] && HoldTerms(c.withdrawals, k) == map[];
    }
  }

  lemma {:induction false} RunKeepsBacking(c: Core, net: map<AccountKey, int>, commands: seq<Command>)
    requires Inv(c) && Backed(c, net)
    ensures Inv(Run(c, commands)) && Backed(Run(c, commands), NetRun(net, c, commands))
    decreases |commands|
  {
    hide Inv;
    hide Next;
    hide Backed;
    hide NetStep;
    if commands != [] {
      StepKeepsInv(c, commands[0]);
      StepKeepsBacking(c, net, commands[0]);
      RunKeepsBacking(Next(c, commands[0]), NetStep(net, c, commands[0]), commands[1..]);
    }
  }

  /** In every reachable state, each account's locked units are exactly its obligations plus its net explicit locks. */
  lemma LockedFundsAreBacked(genesis: Core, commands: seq<Command>, k: AccountKey)
    requires IsGenesis(genesis)
    ensures var c := Run(genesis, commands);
      Of(c.accounts, k).locked == Obligation(c, k) + At(NetRun(map[], genesis, commands), k)
  {
    GenesisInv(genesis);
    GenesisBacked(genesis);
    RunKeepsBacking(genesis, map[], commands);
  }

  // ---------------------------------------------------------------- without Unlock, funds are always there

  predicate NoUnlock(commands: seq<Command>) {
    forall i :: 0 <= i < |commands| ==> !commands[i].Unlock?
  }

  ghost predicate NonNegative(net: map<AccountKey, int>) {
    forall k: AccountKey :: At(net, k) >= 0
  }

  lemma NetStaysNonNegative(net: map<AccountKey, int>, c: Core, command: Command)
    requires NonNegative(net) && !command.Unlock?
    ensures NonNegative(NetStep(net, c, command))
  {
    hide Units;
    hide Add;
    hide Subtract;
    if command.Lock? && Apply(c, command).1.Applied? {
      var k := (command.user, command.asset);
      assert NetStep(net, c, command) == net[k := At(net, k) + command.amount];
      forall j: AccountKey ensures At(NetStep(net, c, command), j) >= 0 {
        assert At(net, j) >= 0 && At(net, k) >= 0;
      }
    }
  }

  lemma {:induction false} NetRunNonNegative(net: map<AccountKey, int>, c: Core, commands: seq<Command>)
    requires NonNegative(net) && NoUnlock(commands)
    ensures NonNegative(NetRun(net, c, commands))
    decreases |commands|
  {
    hide NonNegative;
    hide NetStep;
    if commands != [] {
      NetStaysNonNegative(net, c, commands[0]);
      NetRunNonNegative(NetStep(net, c, commands[0]), Next(c, commands[0]), commands[1..]);
    }
  }

  /** A reachable state whose explicit locks are never in debt. */
  ghost predicate Solvent(c: Core) {
    Inv(c) && HoldsAdmitted(c) && forall k: AccountKey :: Of(c.accounts, k).locked >= Obligation(c, k)
  }

  /** Every receipt is about a well-formed withdrawal of its own id. */
  ghost predicate HoldsAdmitted(c: Core) {
    forall u :: u in c.withdrawals ==> ValidateWithdrawal(c.withdrawals[u].original).Ok? && c.withdrawals[u].original.id == u
  }

  lemma ValidHold(funds: WithdrawalFunds)
    requires ValidateWithdrawal(funds).Ok?
    ensures 0 < funds.amount <= MAX_UNITS
  {
    hide WithdrawalAsset;
  }

  lemma StepKeepsHoldsAdmitted(c: Core, command: Command)
    requires HoldsAdmitted(c)
    ensures HoldsAdmitted(Next(c, command))
  {
    hide ApplySubmit;
    hide ApplyCancel;
    hide ApplyWithdrawal;
    hide ApplyDeposit;
    hide Adjusted;
    hide ChangeReservation;
    match command
    case Submit(o) => SubmitKeepsWithdrawals(c, o);
    case Cancel(id, user, pair) => CancelKeepsWithdrawals(c, id, user, pair);
    case CreditDeposit(credit) => DepositKeepsWithdrawals(c, credit);
    case Withdrawal(action, funds) => WithdrawalKeepsHoldsAdmitted(c, action, funds);
    case _ =>
  }

  lemma WithdrawalKeepsHoldsAdmitted(c: Core, action: WithdrawalAction, funds: WithdrawalFunds)
    requires HoldsAdmitted(c)
    ensures HoldsAdmitted(ApplyWithdrawal(c, action, funds).0)
  {
    WithdrawalWritesItsReceipt(c, action, funds);
    hide ApplyWithdrawal;
    hide ValidateWithdrawal;
  }

  /** A withdrawal step writes at most the receipt of its own id, and only for a well-formed request. */
  lemma WithdrawalWritesItsReceipt(c: Core, action: WithdrawalAction, funds: WithdrawalFunds)
    ensures var after := ApplyWithdrawal(c, action, funds).0.withdrawals;
      after == c.withdrawals
      || (ValidateWithdrawal(funds).Ok? && funds.id in after
          && after == c.withdrawals[funds.id := WithdrawalReceipt(funds, after[funds.id].status)])
  {
    if Admit(c, action, funds).Ok? {
      AdmittedIsValid(c, action, funds);
    }
    hide MoveFunds;
    hide Admit;
    hide ValidateWithdrawal;
  }

  lemma AdmittedIsValid(c: Core, action: WithdrawalAction, funds: WithdrawalFunds)
    requires Admit(c, action, funds).Ok?
    ensures ValidateWithdrawal(funds).Ok?
  {
    hide ValidateWithdrawal;
    hide Resume;
  }

  lemma SubmitKeepsWithdrawals(c: Core, o: Order)
    ensures ApplySubmit(c, o).0.withdrawals == c.withdrawals
  {
    hide Execute;
  }

  lemma CancelKeepsWithdrawals(c: Core, id: nat, user: nat, pair: Pair)
    ensures ApplyCancel(c, id, user, pair).0.withdrawals == c.withdrawals
  {
    hide ChangeReservation;
    hide Quote;
  }

  lemma DepositKeepsWithdrawals(c: Core, credit: DepositCredit)
    ensures ApplyDeposit(c, credit).0.withdrawals == c.withdrawals
  {
    hide Credited;
    hide ValidateDeposit;
  }

  lemma {:induction false} RunKeepsHoldsAdmitted(c: Core, commands: seq<Command>)
    requires HoldsAdmitted(c)
    ensures HoldsAdmitted(Run(c, commands))
    decreases |commands|
  {
    hide HoldsAdmitted;
    hide Next;
    if commands != [] {
      StepKeepsHoldsAdmitted(c, commands[0]);
      RunKeepsHoldsAdmitted(Next(c, commands[0]), commands[1..]);
    }
  }

  /** Every run without Unlock commands stays solvent. */
  lemma RunsWithoutUnlockAreSolvent(genesis: Core, commands: seq<Command>)
    requires IsGenesis(genesis) && NoUnlock(commands)
    ensures Solvent(Run(genesis, commands))
  {
    GenesisInv(genesis);
    RunKeepsInv(genesis, commands);
    RunKeepsHoldsAdmitted(genesis, commands);
    NetRunNonNegative(map[], genesis, commands);
    var c := Run(genesis, commands);
    hide Inv;
    hide HoldsAdmitted;
    forall k: AccountKey ensures Of(c.accounts, k).locked >= Obligation(c, k) {
      LockedFundsAreBacked(genesis, commands, k);
    }
  }

  lemma TermsNonNegative(c: Core, k: AccountKey)
    requires Inv(c) && HoldsAdmitted(c)
    ensures forall p :: p in BookTerms(c.books, k) ==> BookTerms(c.books, k)[p] >= 0
    ensures forall u :: u in HoldTerms(c.withdrawals, k) ==> HoldTerms(c.withdrawals, k)[u] >= 0
  {
    hide ReserveOf;
    hide Resting;
    hide Traceable;
    hide Ordered;
    hide Distinct;
    hide AllInRange;
    forall u | u in c.withdrawals ensures HeldBy(c.withdrawals[u], k) >= 0 {
      ValidHold(c.withdrawals[u].original);
    }
    hide ValidateWithdrawal;
    forall p | p in c.books ensures BookReserves(c.books[p], k) >= 0 {
      assert BookInv(c.books[p], p, c.submissions);
      ReservesNonNegative(c.books[p].buys, k, Buy, p);
      ReservesNonNegative(c.books[p].sells, k, Sell, p);
    }
  }

  /** Each part of the obligation is covered on its own: one book, or one withdrawal. */
  lemma PartsAreCovered(c: Core, k: AccountKey, p: Pair, u: Uuid)
    requires Solvent(c)
    ensures Of(c.accounts, k).locked >= BookReserves(BookAt(c, p), k)
    ensures u in c.withdrawals ==> Of(c.accounts, k).locked >= HeldBy(c.withdrawals[u], k)
  {
    TermsNonNegative(c, k);
    SumAtLeast(BookTerms(c.books, k), p);
    SumAtLeast(HoldTerms(c.withdrawals, k), u);
    SumNonNegative(BookTerms(c.books, k));
    SumNonNegative(HoldTerms(c.withdrawals, k));
    hide Inv;
    assert Of(c.accounts, k).locked >= Obligation(c, k);
  }

  /**
   A submission that passes planning and locks its funds is refused only because the remainder of a
   limit buy is not exactly payable at its limit, or for numeric range: never for missing funds.
  */
  lemma SubmitNeverShort(c: Core, o: Order)
    requires Solvent(c) && Plan(o, Opposite(o, BookAt(c, PairOf(o)))).Ok?
    requires Charge(o, Plan(o, Opposite(o, BookAt(c, PairOf(o)))).value, c.accounts).Err?
    ensures var w := Plan(o, Opposite(o, BookAt(c, PairOf(o)))).value; var e := Charge(o, w, c.accounts).error;
      && Reservation(o).Ok?
      && (|| ChangeReservation(c.accounts, ReserveKey(o), Reservation(o).value, true) == Err(e)
          || (o.kind.Limit? && o.side.Buy? && StillReserved(w.taker.order) == Err(e))
          || e == Range || e == Unrepresentable)
  {
    var b := BookAt(c, PairOf(o));
    BookAtInv(c, PairOf(o));
    forall k: AccountKey ensures Of(c.accounts, k).locked >= BookReserves(b, k) {
      PartsAreCovered(c, k, PairOf(o), 0);
    }
    assert BookOk(b, PairOf(o)) by { BookInvOk(b, PairOf(o), c.submissions); }
    assert AllInRange(c.accounts) by { InvRange(c); }
    hide Plan;
    hide Charge;
    hide Inv;
    hide BookOk;
    hide AllInRange;
    hide BookReserves;
    ChargeFailsOnlyFor(o, b, c.accounts);
  }

  lemma {:induction false} ReservesAtLeast(queue: seq<Order>, o: Order, k: AccountKey, side: Side, pair: Pair)
    requires AllResting(queue, side, pair) && o in queue
    ensures Reserves(queue, k) >= ReserveOf(o, k)
  {
    hide Resting;
    hide ReserveOf;
    assert queue[0] in queue;
    ReservePositive(queue[0], k, side, pair);
    if queue[0] != o {
      ReservesAtLeast(queue[1..], o, k, side, pair);
    } else {
      ReservesNonNegative(queue[1..], k, side, pair);
    }
  }

  /** Quoting the remainder of a resting order for its cancellation cannot need rounding or exceed the range. */
  lemma UnlockingOnlyRange(o: Order, pair: Pair)
    requires Resting(o, o.side, pair) && (o.side.Buy? || o.side.Sell?)
    ensures OnlyRange(Unlocking(o)) && (Unlocking(o).Ok? ==> Unlocking(o).value > 0)
  {
    ValidLimit(o);
    hide Validate;
    hide Rep;
    if o.side.Buy? {
      QuoteMeaning(Price(o), o.amount);
      ValueMonotoneInAmount(Price(o), o.remaining, o.amount);
      if Unlocking(o).Ok? {
        QuoteMeaning(Price(o), o.remaining);
      }
    }
  }

  lemma ValueMonotoneInAmount(price: int, low: int, high: int)
    requires price >= 0 && 0 <= low <= high
    ensures 0 <= Value(price, low) <= Value(price, high)
  {
    ProductSign(price, low);
    ProductSign(price, high - low);
    assert price * high == price * low + price * (high - low);
  }

  /** What a resting order still reserves is locked. */
  lemma RestingReserveIsLocked(c: Core, p: Pair, o: Order)
    requires Solvent(c) && p in c.books && (o in c.books[p].buys || o in c.books[p].sells)
    ensures Resting(o, if o in c.books[p].buys then Buy else Sell, p) && OnlyRange(Unlocking(o))
    ensures Unlocking(o).Ok? ==> 0 < Unlocking(o).value <= Of(c.accounts, ReserveKey(o)).locked
  {
    hide Validate;
    hide Quote;
    hide Reserves;
    hide Exact;
    hide Value;
    var b, k := c.books[p], ReserveKey(o);
    PartsAreCovered(c, k, p, 0);
    assert BookInv(b, p, c.submissions);
    hide Solvent;
    var side := if o in b.buys then Buy else Sell;
    assert Resting(o, side, p);
    UnlockingOnlyRange(o, p);
    ReservesAtLeast(if o.side.Buy? then b.buys else b.sells, o, k, o.side, p);
    ReservesNonNegative(b.buys, k, Buy, p);
    ReservesNonNegative(b.sells, k, Sell, p);
    if Unlocking(o).Ok? {
      UnlockingIsReserve(o, k);
    }
    hide Unlocking;
    hide BookInv;
  }

  /** An owner's cancel of a resting order succeeds, or fails only for numeric range. */
  lemma OwnerCancelNeverShort(c: Core, p: Pair, o: Order)
    requires Solvent(c) && p in c.books && o.id !in c.cancellations
    requires o in c.books[p].buys || o in c.books[p].sells
    ensures var (c', outcome) := ApplyCancel(c, o.id, o.user, p);
      outcome == Outcome.Applied(Some(Cancelled(o))) || outcome == Failed(Range) || outcome == Failed(Unrepresentable)
  {
    RestingReserveIsLocked(c, p, o);
    RestingIsLocated(c, p, o);
    hide Unlocking;
    hide BookInv;
    if Unlocking(o).Ok? {
      UnlockOnlyRange(c.accounts, ReserveKey(o), Unlocking(o).value);
    }
    ValidLimit(o);
    hide Validate;
    hide Solvent;
    hide ChangeReservation;
  }

  lemma RestingIsLocated(c: Core, p: Pair, o: Order)
    requires Inv(c) && p in c.books && (o in c.books[p].buys || o in c.books[p].sells)
    ensures Locate(c.books[p], o.id) == Ok((o, o in c.books[p].buys))
    ensures o.side == if o in c.books[p].buys then Buy else Sell
  {
    hide Validate;
    hide Exact;
    hide AllInRange;
    var b := c.books[p];
    assert BookInv(b, p, c.submissions);
    FindMeaning(b.buys, o.id);
    FindMeaning(b.sells, o.id);
    forall x | x in b.buys + b.sells && x.id == o.id ensures x == o {
      IdsUnique(c, p, p, x, o);
    }
  }

  /** A well-formed new order is refused only for its own funds, for exactness, or for numeric range. */
  lemma SubmitRefusedOnlyFor(c: Core, o: Order, e: Fault)
    requires Solvent(c) && o.id !in c.submissions && Validate(o, true).Ok?
    requires Execute(o, BookAt(c, PairOf(o)), c.accounts) == Err(e)
    ensures e == Rounding || e == Range || e == Unrepresentable
      || (Reservation(o).Ok? && ChangeReservation(c.accounts, ReserveKey(o), Reservation(o).value, true) == Err(e))
  {
    var b := BookAt(c, PairOf(o));
    assert BookInv(b, PairOf(o), c.submissions) by { BookAtInv(c, PairOf(o)); }
    BookInvOk(b, PairOf(o), c.submissions);
    FreshInBook(c, b, PairOf(o), o);
    PlanFailsOnlyFor(o, b);
    hide Solvent;
    hide BookInv;
    hide BookOk;
    hide Validate;
    hide Plan;
    hide Charge;
    hide CommitBook;
    hide ChangeReservation;
    hide StillReserved;
    hide Reservation;
    if Plan(o, Opposite(o, b)).Ok? {
      var w := Plan(o, Opposite(o, b)).value;
      SubmitNeverShort(c, o);
      RemainderFailsOnlyFor(o, b, w);
    }
  }

  lemma RemainderFailsOnlyFor(o: Order, b: Book, w: Walked)
    requires BookOk(b, PairOf(o)) && Plan(o, Opposite(o, b)) == Ok(w)
    ensures StillReserved(w.taker.order).Err? ==>
      StillReserved(w.taker.order).error == Rounding || StillReserved(w.taker.order).error == Range
      || StillReserved(w.taker.order).error == Unrepresentable
  {
    PlanHasFacts(o, b);
    ValidIncoming(o);
    hide Plan;
    hide SideOk;
    hide HasOrigin;
    hide Settles;
    hide Validate;
    hide Rep;
    hide Commit;
    if o.kind.Limit? {
      QuoteMeaning(Price(o), o.amount);
    }
  }

  /** Releasing or completing a reserved withdrawal succeeds, or fails only for numeric range. */
  lemma ReservedWithdrawalNeverShort(c: Core, funds: WithdrawalFunds, action: WithdrawalAction)
    requires Solvent(c) && funds.id in c.withdrawals && c.withdrawals[funds.id] == WithdrawalReceipt(funds, Reserved)
    requires !action.Reserve?
    ensures var (c', outcome) := ApplyWithdrawal(c, action, funds);
      outcome == Outcome.Applied(Some(WithdrawalChanged(action, funds))) || outcome == Failed(Range) || outcome == Failed(Unrepresentable)
  {
    var k := FundsKey(funds);
    assert ValidateWithdrawal(funds).Ok?;
    ValidHold(funds);
    PartsAreCovered(c, k, Pair("", ""), funds.id);
    assert AllInRange(c.accounts) by { InvRange(c); }
    hide Solvent;
    hide BookReserves;
    hide WithdrawalAsset;
    hide Rep;
    if action.Release? {
      UnlockOnlyRange(c.accounts, k, funds.amount);
      hide ChangeReservation;
    }
  }
}
