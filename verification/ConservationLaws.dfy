/** Over every run and for every asset, holdings change exactly by what the recorded outcomes say. */
module ConservationLaws {
  import opened Prelude
  import opened Amount
  import opened Types
  import opened Matcher
  import opened Balances
  import opened BalanceLaws
  import opened Submission
  import opened ReserveLaws
  import opened Core

  /** The fees recorded with the trades of one submission, in one asset. */
  function FeesRecorded(outputs: seq<TradeOutput>, asset: Asset): int {
    if outputs == [] then 0
    else
      var x := outputs[0];
      (if x.trade.base == asset then x.buyerFee else 0) + (if x.trade.quote == asset then x.sellerFee else 0)
      + FeesRecorded(outputs[1..], asset)
  }

  /** What a recorded outcome says entered (or, negative, left) circulation. */
  function Ledger(command: Command, outcome: Outcome, asset: Asset): int {
    match (command, outcome)
    case (_, Applied(Some(Submitted(_, outputs, _)))) => -FeesRecorded(outputs, asset)
    case (_, Applied(Some(DepositCredited(credit)))) => if credit.asset == asset then credit.amount else 0
    case (_, Applied(Some(WithdrawalChanged(Complete, funds)))) => if funds.asset == asset then -funds.amount else 0
    case (AdjustBalance(_, a, delta), Applied(_)) => if a == asset then delta else 0
    case _ => 0
  }

  function LedgerRun(c: Core, commands: seq<Command>, asset: Asset): int
    decreases |commands|
  {
    if commands == [] then 0
    else Ledger(commands[0], Apply(c, commands[0]).1, asset) + LedgerRun(Next(c, commands[0]), commands[1..], asset)
  }

  lemma {:induction false} RecordedFees(trades: seq<Trade>, asset: Asset)
    ensures FeesRecorded(Outputs(trades), asset) == AllFeesIn(trades, asset)
  {
    hide FeesOf;
    if trades != [] {
      RecordedFees(trades[1..], asset);
      assert ([OutputOf(trades[0])] + Outputs(trades[1..]))[1..] == Outputs(trades[1..]);
    }
  }

  lemma ReservationTotal(m: Accounts, k: AccountKey, value: int, lock: bool, asset: Asset)
    requires ChangeReservation(m, k, value, lock).Ok?
    ensures Total(ChangeReservation(m, k, value, lock).value, asset) == Total(m, asset)
  {
    hide Rep;
    hide Total;
    var m' := ChangeReservation(m, k, value, lock).value;
    TotalUpdate(m, k, m'[k], asset);
  }

  /** An accepted order removes from circulation exactly the fees of its trades. */
  lemma ExecuteTotal(o: Order, b: Book, accounts: Accounts, asset: Asset)
    requires Execute(o, b, accounts).Ok?
    ensures var a := Execute(o, b, accounts).value;
      Total(a.accounts, asset) == Total(accounts, asset) - AllFeesIn(a.trades, asset)
  {
    hide Plan;
    hide SettleAll;
    hide ChangeReservation;
    hide StillReserved;
    hide Reservation;
    hide Refund;
    hide CommitBook;
    hide Total;
    hide AllFeesIn;
    var w := Plan(o, Opposite(o, b)).value;
    var locked := ChangeReservation(accounts, ReserveKey(o), Reservation(o).value, true).value;
    ReservationTotal(accounts, ReserveKey(o), Reservation(o).value, true, asset);
    SettleAllTotal(locked, w.trades, asset);
    var settled := SettleAll(locked, w.trades).value;
    var refund := Charge(o, w, accounts).value.2;
    if refund > 0 {
      ReservationTotal(settled, ReserveKey(o), refund, false, asset);
    }
  }

  /** The fees recorded with an accepted order were computable for every trade. */
  lemma {:induction false} SettledFeesExist(m: Accounts, trades: seq<Trade>, t: Trade)
    requires SettleAll(m, trades).Ok? && t in trades
    ensures SettlementFees(t).Ok?
    decreases |trades|
  {
    hide SettlementFees;
    hide Stage;
    hide Units;
    hide Trimmed;
    if trades[0] != t {
      SettledFeesExist(Settle(m, trades[0]).value, trades[1..], t);
    }
  }

  lemma AccountTotals(m: Accounts, k: AccountKey, amount: int, asset: Asset)
    ensures Credited(m, k, amount).Ok? ==>
      Total(Credited(m, k, amount).value, asset) == Total(m, asset) + if k.1 == asset then amount else 0
    ensures Adjusted(m, k.0, k.1, amount).Ok? ==>
      Total(Adjusted(m, k.0, k.1, amount).value, asset) == Total(m, asset) + if k.1 == asset then amount else 0
    ensures Paid(m, k, amount).Ok? ==>
      Total(Paid(m, k, amount).value, asset) == Total(m, asset) - if k.1 == asset then amount else 0
  {
    hide Rep;
    hide Total;
    hide Trimmed;
    if Credited(m, k, amount).Ok? {
      TotalUpdate(m, k, Credited(m, k, amount).value[k], asset);
    }
    if Adjusted(m, k.0, k.1, amount).Ok? {
      TotalUpdate(m, k, Adjusted(m, k.0, k.1, amount).value[k], asset);
    }
    if Paid(m, k, amount).Ok? {
      TotalUpdate(m, k, Paid(m, k, amount).value[k], asset);
    }
  }

  lemma SubmitTotal(c: Core, o: Order, asset: Asset)
    ensures var (c', outcome) := ApplySubmit(c, o);
      Total(c'.accounts, asset) == Total(c.accounts, asset) + Ledger(Submit(o), outcome, asset)
  {
    hide Execute;
    hide Total;
    hide AllFeesIn;
    var b := BookAt(c, PairOf(o));
    if o.id !in c.submissions && Execute(o, b, c.accounts).Ok? {
      ExecuteTotal(o, b, c.accounts, asset);
      RecordedFees(Execute(o, b, c.accounts).value.trades, asset);
    }
  }

  lemma CancelTotal(c: Core, id: nat, user: nat, pair: Pair, asset: Asset)
    ensures var (c', outcome) := ApplyCancel(c, id, user, pair);
      Total(c'.accounts, asset) == Total(c.accounts, asset) && Ledger(Cancel(id, user, pair), outcome, asset) == 0
  {
    hide Quote;
    hide ChangeReservation;
    hide Total;
    hide Locate;
    if id !in c.cancellations && CancelOrder(c, id, user, pair).Ok? {
      var (o, buy) := Locate(c.books[pair], id).value;
      var unlock := if buy then Quote(Price(o), o.remaining) else Ok(o.remaining);
      ReservationTotal(c.accounts, ReserveKey(o), unlock.value, false, asset);
    }
  }

  lemma WithdrawalTotal(c: Core, action: WithdrawalAction, funds: WithdrawalFunds, asset: Asset)
    ensures var (c', outcome) := ApplyWithdrawal(c, action, funds);
      Total(c'.accounts, asset) == Total(c.accounts, asset) + Ledger(Withdrawal(action, funds), outcome, asset)
  {
    hide ChangeReservation;
    hide Paid;
    hide Admit;
    hide Total;
    var k := FundsKey(funds);
    if MoveFunds(c.accounts, action, funds).Ok? {
      match action
      case Reserve => ReservationTotal(c.accounts, k, funds.amount, true, asset);
      case Release => ReservationTotal(c.accounts, k, funds.amount, false, asset);
      case Complete => AccountTotals(c.accounts, k, funds.amount, asset);
    }
  }

  lemma DepositTotal(c: Core, credit: DepositCredit, asset: Asset)
    ensures var (c', outcome) := ApplyDeposit(c, credit);
      Total(c'.accounts, asset) == Total(c.accounts, asset) + Ledger(CreditDeposit(credit), outcome, asset)
  {
    hide Credited;
    hide ValidateDeposit;
    hide Total;
    AccountTotals(c.accounts, (credit.user, credit.asset), credit.amount, asset);
  }

  lemma DirectTotal(c: Core, command: Command, asset: Asset)
    requires command.AdjustBalance? || command.Lock? || command.Unlock?
    ensures var (c', outcome) := Apply(c, command);
      Total(c'.accounts, asset) == Total(c.accounts, asset) + Ledger(command, outcome, asset)
  {
    hide Adjusted;
    hide ChangeReservation;
    hide Total;
    match command
    case AdjustBalance(user, a, delta) => AccountTotals(c.accounts, (user, a), delta, asset);
    case Lock(user, a, amount) =>
      if ChangeReservation(c.accounts, (user, a), amount, true).Ok? {
        ReservationTotal(c.accounts, (user, a), amount, true, asset);
      }
    case Unlock(user, a, amount) =>
      if ChangeReservation(c.accounts, (user, a), amount, false).Ok? {
        ReservationTotal(c.accounts, (user, a), amount, false, asset);
      }
  }

  lemma StepConserves(c: Core, command: Command, asset: Asset)
    ensures var (c', outcome) := Apply(c, command);
      Total(c'.accounts, asset) == Total(c.accounts, asset) + Ledger(command, outcome, asset)
  {
    hide ApplySubmit;
    hide ApplyCancel;
    hide ApplyWithdrawal;
    hide ApplyDeposit;
    hide Adjusted;
    hide ChangeReservation;
    hide Total;
    hide Ledger;
    match command
    case Submit(o) => SubmitTotal(c, o, asset);
    case Cancel(id, user, pair) => CancelTotal(c, id, user, pair, asset);
    case Withdrawal(action, funds) => WithdrawalTotal(c, action, funds, asset);
    case CreditDeposit(credit) => DepositTotal(c, credit, asset);
    case _ => DirectTotal(c, command, asset);
  }

  /**
   What all users hold of an asset after any run is what they held before, plus credited deposits and
   applied adjustments, minus completed withdrawals and exactly the fees recorded with the trades.
  */
  lemma {:induction false} RunConserves(c: Core, commands: seq<Command>, asset: Asset)
    ensures Total(Run(c, commands).accounts, asset) == Total(c.accounts, asset) + LedgerRun(c, commands, asset)
    decreases |commands|
  {
    hide Apply;
    hide Total;
    hide Ledger;
    if commands != [] {
      StepConserves(c, commands[0], asset);
      RunConserves(Next(c, commands[0]), commands[1..], asset);
    }
  }
}
