/** The single-owner core: a deterministic machine over commands, with its dedup indexes as part of its state. */
module Core {
  import opened Prelude
  import opened Amount
  import opened Types
  import opened Matcher
  import opened MatchingLaws
  import opened Balances
  import opened Submission

  type Uuid = nat

  const NIL: Uuid := 0

  datatype DepositCredit = DepositCredit(id: Uuid, user: nat, asset: Asset, amount: int)
  datatype DepositReceipt = DepositReceipt(original: DepositCredit, rejection: Option<Fault>)

  datatype WithdrawalFunds = WithdrawalFunds(id: Uuid, user: nat, asset: Asset, amount: int)
  datatype WithdrawalAction = Reserve | Release | Complete
  datatype WithdrawalStatus = Reserved | Released | Completed | Refused(reason: Fault)
  datatype WithdrawalReceipt = WithdrawalReceipt(original: WithdrawalFunds, status: WithdrawalStatus)

  datatype Command =
    | Withdrawal(action: WithdrawalAction, funds: WithdrawalFunds)
    | CreditDeposit(credit: DepositCredit)
    | Submit(order: Order)
    | Cancel(orderId: nat, user: nat, pair: Pair)
    | AdjustBalance(user: nat, asset: Asset, delta: int)
    | Lock(user: nat, asset: Asset, amount: int)
    | Unlock(user: nat, asset: Asset, amount: int)

  datatype TradeOutput = TradeOutput(trade: Trade, buyerFee: int, sellerFee: int)

  datatype Batch =
    | WithdrawalChanged(action: WithdrawalAction, funds: WithdrawalFunds)
    | WithdrawalRejected(funds: WithdrawalFunds, reason: Fault)
    | DepositCredited(credit: DepositCredit)
    | Submitted(orderId: nat, trades: seq<TradeOutput>, completion: Option<Completion>)
    | Cancelled(order: Order)
    | Rejected(order: Order, reason: Fault)

  datatype Outcome =
    | Applied(output: Option<Batch>)
    | Failed(reason: Fault)
    | DuplicateCancellation(order: Order)

  datatype Core = Core(
    accounts: Accounts,
    books: map<Pair, Book>,
    submissions: map<nat, Order>,
    cancellations: map<nat, Order>,
    deposits: map<Uuid, DepositReceipt>,
    withdrawals: map<Uuid, WithdrawalReceipt>)

  function BookAt(c: Core, p: Pair): Book {
    if p in c.books then c.books[p] else EMPTY_BOOK
  }

  // ---------------------------------------------------------------- submit

  function OutputOf(t: Trade): TradeOutput {
    TradeOutput(t, FeesOf(t).0, FeesOf(t).1)
  }

  function Outputs(trades: seq<Trade>): seq<TradeOutput> {
    if trades == [] then [] else [OutputOf(trades[0])] + Outputs(trades[1..])
  }

  function ApplySubmit(c: Core, o: Order): (Core, Outcome) {
    if o.id in c.submissions then
      var original := c.submissions[o.id];
      (c, if o.(createdAt := original.createdAt) == original then Outcome.Applied(None) else Failed(Conflict))
    else
      var c' := c.(submissions := c.submissions[o.id := o]);
      match Execute(o, BookAt(c, PairOf(o)), c.accounts)
      case Ok(a) =>
        (c'.(books := c.books[PairOf(o) := a.book], accounts := a.accounts),
         Outcome.Applied(Some(Submitted(a.orderId, Outputs(a.trades), a.completion))))
      case Err(reason) => (c', Outcome.Applied(Some(Rejected(o, reason))))
  }

  // ---------------------------------------------------------------- cancel

  function Find(queue: seq<Order>, id: nat): Option<Order> {
    if queue == [] then None
    else if queue[0].id == id then Some(queue[0])
    else Find(queue[1..], id)
  }

  function Remove(queue: seq<Order>, id: nat): seq<Order> {
    if queue == [] then []
    else if queue[0].id == id then queue[1..]
    else [queue[0]] + Remove(queue[1..], id)
  }

  /** The order with this id and whether it is on the buy side. */
  function Locate(b: Book, id: nat): Result<(Order, bool)> {
    match Find(b.buys, id)
    case Some(o) => Ok((o, true))
    case None =>
      match Find(b.sells, id)
      case Some(o) => Ok((o, false))
      case None => Err(NoOrder)
  }

  function WithoutOrder(b: Book, id: nat, buy: bool): Book {
    if buy then b.(buys := Remove(b.buys, id)) else b.(sells := Remove(b.sells, id))
  }

  function CancelOrder(c: Core, id: nat, user: nat, pair: Pair): Result<(Core, Order)> {
    var _ :- Ensure(pair in c.books, NoBook);
    var located :- Locate(c.books[pair], id);
    var (o, buy) := located;
    var _ :- Ensure(o.user == user, Unauthorized);
    var _ :- Ensure(o.kind.Limit? && if buy then o.side.Buy? else o.side.Sell?, BadResting);
    var _ :- Ensure(o.price.Some? && o.price.value > 0 && o.remaining > 0, BadResting);
    var _ :- Ensure(PairOf(o) == pair, BadResting);
    var unlock :- if buy then Quote(Price(o), o.remaining) else Ok(o.remaining);
    var accounts :- ChangeReservation(c.accounts, ReserveKey(o), unlock, false);
    Ok((c.(accounts := accounts, books := c.books[pair := WithoutOrder(c.books[pair], id, buy)],
           cancellations := c.cancellations[id := o]), o))
  }

  function ApplyCancel(c: Core, id: nat, user: nat, pair: Pair): (Core, Outcome) {
    if id in c.cancellations then
      var o := c.cancellations[id];
      (c, if o.user == user && PairOf(o) == pair then DuplicateCancellation(o) else Failed(Unauthorized))
    else
      match CancelOrder(c, id, user, pair)
      case Ok((c', o)) => (c', Outcome.Applied(Some(Cancelled(o))))
      case Err(reason) => (c, Failed(reason))
  }

  // ---------------------------------------------------------------- deposits

  function ValidateDeposit(credit: DepositCredit): Result<()> {
    var _ :- Ensure(credit.id != NIL && credit.user > 0, BadIdentity);
    var _ :- Ensure(Trimmed(credit.asset) && |credit.asset| <= 128, BadDeposit);
    var _ :- Ensure(credit.amount > 0, NotPositive);
    var _ :- Units(credit.amount);
    Ok(())
  }

  function Credited(accounts: Accounts, k: AccountKey, amount: int): Result<Accounts> {
    var available :- Add(Of(accounts, k).available, amount);
    Ok(accounts[k := Of(accounts, k).(available := available)])
  }

  function ApplyDeposit(c: Core, credit: DepositCredit): (Core, Outcome) {
    if credit.id in c.deposits then
      var receipt := c.deposits[credit.id];
      (c, if receipt.original != credit then Failed(Conflict)
          else match receipt.rejection
               case Some(reason) => Failed(reason)
               case None => Outcome.Applied(None))
    else
      match ValidateDeposit(credit)
      case Err(reason) => (c, Failed(reason))
      case Ok(_) =>
        match Credited(c.accounts, (credit.user, credit.asset), credit.amount)
        case Ok(accounts) =>
          (c.(accounts := accounts, deposits := c.deposits[credit.id := DepositReceipt(credit, None)]),
           Outcome.Applied(Some(DepositCredited(credit))))
        case Err(reason) =>
          (c.(deposits := c.deposits[credit.id := DepositReceipt(credit, Some(reason))]), Failed(reason))
  }

  // ---------------------------------------------------------------- withdrawals

  predicate WithdrawalAsset(s: string) {
    s != [] && |s| <= 128 && forall ch :: ch in s ==> 'A' <= ch <= 'Z' || '0' <= ch <= '9'
  }

  function ValidateWithdrawal(funds: WithdrawalFunds): Result<()> {
    var _ :- Ensure(funds.id != NIL && 0 < funds.user <= MAX_ID, BadIdentity);
    var _ :- Ensure(WithdrawalAsset(funds.asset), BadWithdrawal);
    var _ :- Ensure(funds.amount > 0, NotPositive);
    var _ :- Units(funds.amount);
    Ok(())
  }

  function StatusAfter(action: WithdrawalAction): WithdrawalStatus {
    match action
    case Reserve => Reserved
    case Release => Released
    case Complete => Completed
  }

  /** Whether a command with a known id repeats, may proceed, or is refused. */
  function Resume(receipt: WithdrawalReceipt, action: WithdrawalAction, funds: WithdrawalFunds): Result<bool> {
    var _ :- Ensure(receipt.original == funds, Conflict);
    match receipt.status
    case Refused(reason) => Err(reason)
    case status =>
      if status == StatusAfter(action) then Ok(false)
      else if status.Reserved? then Ok(true)
      else Err(Finalized)
  }

  function FundsKey(funds: WithdrawalFunds): AccountKey {
    (funds.user, funds.asset)
  }

  /** Takes a completed withdrawal out of the locked balance. */
  function Paid(accounts: Accounts, k: AccountKey, amount: int): Result<Accounts> {
    var _ :- Ensure(k in accounts, MissingBalance);
    var locked :- Subtract(accounts[k].locked, amount);
    Ok(accounts[k := accounts[k].(locked := locked)])
  }

  function MoveFunds(accounts: Accounts, action: WithdrawalAction, funds: WithdrawalFunds): Result<Accounts> {
    match action
    case Reserve => ChangeReservation(accounts, FundsKey(funds), funds.amount, true)
    case Release => ChangeReservation(accounts, FundsKey(funds), funds.amount, false)
    case Complete => Paid(accounts, FundsKey(funds), funds.amount)
  }

  function Admit(c: Core, action: WithdrawalAction, funds: WithdrawalFunds): Result<bool> {
    var _ :- ValidateWithdrawal(funds);
    if funds.id in c.withdrawals then Resume(c.withdrawals[funds.id], action, funds)
    else
      var _ :- Ensure(action.Reserve?, NoReservation);
      Ok(true)
  }

  function WithReceipt(c: Core, funds: WithdrawalFunds, status: WithdrawalStatus): Core {
    c.(withdrawals := c.withdrawals[funds.id := WithdrawalReceipt(funds, status)])
  }

  function ApplyWithdrawal(c: Core, action: WithdrawalAction, funds: WithdrawalFunds): (Core, Outcome) {
    match Admit(c, action, funds)
    case Err(reason) => (c, Failed(reason))
    case Ok(false) => (c, Outcome.Applied(None))
    case Ok(true) =>
      match MoveFunds(c.accounts, action, funds)
      case Ok(accounts) =>
        (WithReceipt(c, funds, StatusAfter(action)).(accounts := accounts),
         Outcome.Applied(Some(WithdrawalChanged(action, funds))))
      case Err(reason) =>
        if action.Reserve? then
          (WithReceipt(c, funds, Refused(reason)), Outcome.Applied(Some(WithdrawalRejected(funds, reason))))
        else (c, Failed(reason))
  }

  // ---------------------------------------------------------------- direct balance commands

  function Adjusted(accounts: Accounts, user: nat, asset: Asset, delta: int): Result<Accounts> {
    var k := (user, asset);
    var _ :- Ensure(user > 0 && Trimmed(asset), BadAccount);
    var available :- if delta >= 0 then Add(Of(accounts, k).available, delta) else Subtract(Of(accounts, k).available, -delta);
    Ok(accounts[k := Of(accounts, k).(available := available)])
  }

  function OnAccounts(c: Core, r: Result<Accounts>): (Core, Outcome) {
    match r
    case Ok(accounts) => (c.(accounts := accounts), Outcome.Applied(None))
    case Err(reason) => (c, Failed(reason))
  }

  // ---------------------------------------------------------------- the machine

  function Apply(c: Core, command: Command): (Core, Outcome) {
    match command
    case Withdrawal(action, funds) => ApplyWithdrawal(c, action, funds)
    case CreditDeposit(credit) => ApplyDeposit(c, credit)
    case Submit(o) => ApplySubmit(c, o)
    case Cancel(id, user, pair) => ApplyCancel(c, id, user, pair)
    case AdjustBalance(user, asset, delta) => OnAccounts(c, Adjusted(c.accounts, user, asset, delta))
    case Lock(user, asset, amount) => OnAccounts(c, ChangeReservation(c.accounts, (user, asset), amount, true))
    case Unlock(user, asset, amount) => OnAccounts(c, ChangeReservation(c.accounts, (user, asset), amount, false))
  }

  function Next(c: Core, command: Command): Core {
    Apply(c, command).0
  }

  function Run(c: Core, commands: seq<Command>): Core
    decreases |commands|
  {
    if commands == [] then c else Run(Next(c, commands[0]), commands[1..])
  }

  /** A starting point: accounts with nothing locked and no history. */
  ghost predicate IsGenesis(c: Core) {
    && c == Core(c.accounts, map[], map[], map[], map[], map[])
    && forall k :: k in c.accounts ==> 0 <= c.accounts[k].available <= MAX_UNITS && c.accounts[k].locked == 0
  }
}
