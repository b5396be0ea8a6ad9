/** Which account each command moves, by how much, and exactly when: deposits, withdrawals, adjustments, locks and cancels. */
module MoneyLaws {
  import opened Prelude
  import opened Amount
  import opened Types
  import opened Matcher
  import opened MatchingLaws
  import opened Balances
  import opened BalanceLaws
  import opened Submission
  import opened SubmissionLaws
  import opened Core
  import opened CoreLaws
  import opened Acceptance

  /** One account changes by these amounts, and every other account is as it was. */
  ghost predicate MovesOnly(m: Accounts, m': Accounts, k: AccountKey, available: int, locked: int) {
    && k in m' && m'[k].available == Of(m, k).available + available && m'[k].locked == Of(m, k).locked + locked
    && forall j :: j != k ==> (j in m' <==> j in m) && (j in m ==> m'[j] == m[j])
  }

  /** Everything but the accounts is as it was. */
  ghost predicate OnlyAccounts(c: Core, c': Core) {
    c' == c.(accounts := c'.accounts)
  }

  predicate StorableUnits(value: int) {
    0 <= value <= MAX_UNITS && Rep(value)
  }

  /** Both parts of a balance can be changed by these amounts. */
  predicate CanMove(b: Balance, available: int, locked: int) {
    && InUnits(b.available) && InUnits(b.locked)
    && StorableUnits(b.available + available) && StorableUnits(b.locked + locked)
  }

  // ---------------------------------------------------------------- the three ways a balance changes

  lemma ReservationExactly(m: Accounts, k: AccountKey, value: int, lock: bool)
    ensures var r := ChangeReservation(m, k, value, lock); var v := if lock then value else -value;
      && (r.Ok? <==> value > 0 && k in m && CanMove(m[k], -v, v))
      && (r.Ok? ==> MovesOnly(m, r.value, k, -v, v) && r.value.Keys == m.Keys)
  {
    hide Rep;
  }

  lemma CreditedExactly(m: Accounts, k: AccountKey, amount: int)
    requires amount > 0
    ensures var r := Credited(m, k, amount); var before := Of(m, k).available;
      && (r.Ok? <==> 0 <= before && StorableUnits(before + amount))
      && (r.Ok? ==> MovesOnly(m, r.value, k, amount, 0))
  {
    hide Rep;
  }

  lemma AdjustedExactly(m: Accounts, user: nat, asset: Asset, delta: int)
    ensures var r := Adjusted(m, user, asset, delta); var before := Of(m, (user, asset)).available;
      && (r.Ok? <==> user > 0 && Trimmed(asset) && InUnits(before) && StorableUnits(before + delta))
      && (r.Ok? ==> MovesOnly(m, r.value, (user, asset), delta, 0))
  {
    hide Rep;
    hide Trimmed;
  }

  lemma PaidExactly(m: Accounts, k: AccountKey, amount: int)
    requires amount > 0
    ensures var r := Paid(m, k, amount);
      && (r.Ok? <==> k in m && m[k].locked <= MAX_UNITS && StorableUnits(m[k].locked - amount))
      && (r.Ok? ==> MovesOnly(m, r.value, k, 0, -amount))
  {
    hide Rep;
  }

  // ---------------------------------------------------------------- deposits

  /** A deposit that may be credited: well formed, and its account can take it. */
  ghost predicate Creditable(m: Accounts, credit: DepositCredit) {
    var before := Of(m, (credit.user, credit.asset)).available;
    && credit.id != 0 && credit.user > 0 && Name(credit.asset, 128) && PositiveUnits(credit.amount)
    && 0 <= before && StorableUnits(before + credit.amount)
  }

  /** A new deposit goes to its user's account in its asset, in full, and to no other; or no account moves. */
  lemma DepositMoves(c: Core, credit: DepositCredit)
    requires credit.id !in c.deposits
    ensures var (c', outcome) := Apply(c, CreditDeposit(credit));
      && (outcome.Applied? <==> Creditable(c.accounts, credit))
      && (if outcome.Applied? then
            outcome == Outcome.Applied(Some(DepositCredited(credit)))
            && MovesOnly(c.accounts, c'.accounts, (credit.user, credit.asset), credit.amount, 0)
          else outcome.Failed? && c'.accounts == c.accounts)
      && c' == c.(accounts := c'.accounts, deposits := c'.deposits)
  {
    DepositAccepts(credit);
    hide Name;
    hide Rep;
    hide ValidateDeposit;
    if PositiveUnits(credit.amount) {
      CreditedExactly(c.accounts, (credit.user, credit.asset), credit.amount);
    }
    hide Credited;
    hide MovesOnly;
  }

  /** A well-formed new deposit that cannot be credited is recorded with the reason, and the reason is numeric. */
  lemma DepositRejectedFor(c: Core, credit: DepositCredit)
    requires InRange(Of(c.accounts, (credit.user, credit.asset))) && credit.id !in c.deposits && !Creditable(c.accounts, credit)
    requires credit.id != 0 && credit.user > 0 && Name(credit.asset, 128) && PositiveUnits(credit.amount)
    ensures var (c', outcome) := Apply(c, CreditDeposit(credit));
      && (outcome == Failed(Range) || outcome == Failed(Unrepresentable))
      && (outcome == Failed(Range) <==> Of(c.accounts, (credit.user, credit.asset)).available + credit.amount > MAX_UNITS)
      && c' == c.(deposits := c.deposits[credit.id := DepositReceipt(credit, Some(outcome.reason))])
  {
    DepositAccepts(credit);
    hide Name;
    hide Rep;
    hide ValidateDeposit;
  }

  // ---------------------------------------------------------------- withdrawals

  ghost predicate WellFormed(funds: WithdrawalFunds) {
    && funds.id != 0 && 0 < funds.user <= MAX_ID && PositiveUnits(funds.amount) && 1 <= |funds.asset| <= 128
    && forall i :: 0 <= i < |funds.asset| ==> 'A' <= funds.asset[i] <= 'Z' || '0' <= funds.asset[i] <= '9'
  }

  /** What a step moves: reserving locks, releasing unlocks, completing takes out of the locked part. */
  function Freed(action: WithdrawalAction, amount: int): (int, int) {
    match action
    case Reserve => (-amount, amount)
    case Release => (amount, -amount)
    case Complete => (0, -amount)
  }

  ghost predicate Movable(m: Accounts, action: WithdrawalAction, funds: WithdrawalFunds) {
    var k := (funds.user, funds.asset);
    k in m && match action
      case Reserve => CanMove(m[k], -funds.amount, funds.amount)
      case Release => CanMove(m[k], funds.amount, -funds.amount)
      case Complete => m[k].locked <= MAX_UNITS && StorableUnits(m[k].locked - funds.amount)
  }

  /**
   A withdrawal step moves its own account exactly when it is well formed, comes in order (a reservation first, then one
   of the other two on what was reserved) and the account can take it. Otherwise no account moves.
  */
  lemma WithdrawalMoves(c: Core, action: WithdrawalAction, funds: WithdrawalFunds)
    ensures var (c', outcome) := Apply(c, Withdrawal(action, funds)); var freed := Freed(action, funds.amount);
      var inOrder := if action.Reserve? then funds.id !in c.withdrawals
        else funds.id in c.withdrawals && c.withdrawals[funds.id] == WithdrawalReceipt(funds, Reserved);
      var moved := outcome == Outcome.Applied(Some(WithdrawalChanged(action, funds)));
      && (moved <==> WellFormed(funds) && inOrder && Movable(c.accounts, action, funds))
      && (if moved then MovesOnly(c.accounts, c'.accounts, (funds.user, funds.asset), freed.0, freed.1) else c'.accounts == c.accounts)
      && c' == c.(accounts := c'.accounts, withdrawals := c'.withdrawals)
  {
    WithdrawalAccepts(funds);
    var k := (funds.user, funds.asset);
    ReservationExactly(c.accounts, k, funds.amount, true);
    ReservationExactly(c.accounts, k, funds.amount, false);
    hide Rep;
    hide ValidateWithdrawal;
    if funds.amount > 0 {
      PaidExactly(c.accounts, k, funds.amount);
    }
    hide ChangeReservation;
    hide Paid;
    hide MovesOnly;
  }

  /** A well-formed new reservation that cannot be made is recorded with its reason: no account, too little, or numeric. */
  lemma ReservationRefusedFor(c: Core, funds: WithdrawalFunds)
    requires InRange(Of(c.accounts, (funds.user, funds.asset))) && funds.id !in c.withdrawals
    requires WellFormed(funds) && !Movable(c.accounts, Reserve, funds)
    ensures var (c', outcome) := Apply(c, Withdrawal(Reserve, funds)); var k := (funds.user, funds.asset);
      && outcome.Applied? && outcome.output.Some? && outcome.output.value.WithdrawalRejected? && outcome.output.value.funds == funds
      && var e := outcome.output.value.reason;
      && (e == MissingBalance <==> k !in c.accounts)
      && (e == Negative <==> k in c.accounts && c.accounts[k].available < funds.amount)
      && (e == MissingBalance || e == Negative || e == Range || e == Unrepresentable)
      && c' == c.(withdrawals := c.withdrawals[funds.id := WithdrawalReceipt(funds, Refused(e))])
  {
    WithdrawalAccepts(funds);
    RefusedLock(c.accounts, (funds.user, funds.asset), funds.amount);
    hide Rep;
    hide ValidateWithdrawal;
    hide ChangeReservation;
    hide CanMove;
  }

  lemma RefusedLock(m: Accounts, k: AccountKey, amount: int)
    requires InRange(Of(m, k)) && PositiveUnits(amount) && !(k in m && CanMove(m[k], -amount, amount))
    ensures var r := ChangeReservation(m, k, amount, true);
      && r.Err?
      && (r.error == MissingBalance <==> k !in m) && (r.error == Negative <==> k in m && m[k].available < amount)
      && (r.error == MissingBalance || r.error == Negative || r.error == Range || r.error == Unrepresentable)
  {
    hide Rep;
  }

  // ---------------------------------------------------------------- direct commands

  /** An adjustment changes the available part of one account by exactly its delta, or nothing. */
  lemma AdjustMoves(c: Core, user: nat, asset: Asset, delta: int)
    ensures var (c', outcome) := Apply(c, AdjustBalance(user, asset, delta)); var before := Of(c.accounts, (user, asset)).available;
      && (outcome.Applied? <==> user > 0 && Name(asset, |asset|) && InUnits(before) && StorableUnits(before + delta))
      && (if outcome.Applied? then MovesOnly(c.accounts, c'.accounts, (user, asset), delta, 0) else c'.accounts == c.accounts)
      && OnlyAccounts(c, c')
  {
    NamesAreTrimmed(asset, |asset|);
    AdjustedExactly(c.accounts, user, asset, delta);
    hide Name;
    hide Trimmed;
    hide Adjusted;
    hide MovesOnly;
  }

  /** Lock and Unlock move an amount inside one existing account, or nothing. */
  lemma LockMoves(c: Core, user: nat, asset: Asset, amount: int, lock: bool)
    ensures var (c', outcome) := Apply(c, if lock then Lock(user, asset, amount) else Unlock(user, asset, amount));
      var v := if lock then amount else -amount; var k := (user, asset);
      && (outcome.Applied? <==> amount > 0 && k in c.accounts && CanMove(c.accounts[k], -v, v))
      && (if outcome.Applied? then MovesOnly(c.accounts, c'.accounts, k, -v, v) else c'.accounts == c.accounts)
      && OnlyAccounts(c, c')
  {
    ReservationExactly(c.accounts, (user, asset), amount, lock);
    hide ChangeReservation;
    hide MovesOnly;
    hide CanMove;
  }

  // ---------------------------------------------------------------- cancels

  /** A queue without the element at one position. */
  ghost predicate LosesOnly(queue: seq<Order>, queue': seq<Order>, o: Order) {
    exists i :: 0 <= i < |queue| && queue[i] == o && queue' == queue[..i] + queue[i + 1..]
  }

  lemma {:induction false} RemoveLoses(queue: seq<Order>, id: nat)
    requires Find(queue, id).Some?
    ensures Find(queue, id).value.id == id && Find(queue, id).value in queue
    ensures LosesOnly(queue, Remove(queue, id), Find(queue, id).value)
  {
    var o := Find(queue, id).value;
    if queue[0].id == id {
      assert queue[0] == o && queue[..0] + queue[1..] == queue[1..];
    } else {
      RemoveLoses(queue[1..], id);
      var rest := Remove(queue[1..], id);
      var i :| 0 <= i < |queue[1..]| && queue[1..][i] == o && rest == queue[1..][..i] + queue[1..][i + 1..];
      LeavingOut(queue, i + 1);
      assert queue[i + 1] == o;
    }
  }

  /** The owner gets back what the order still reserved: price times remainder of a buy, the remainder of a sell. */
  ghost predicate GivesBack(m: Accounts, m': Accounts, o: Order, returned: int) {
    && (if o.side.Buy? then returned * FACTOR == Price(o) * o.remaining else returned == o.remaining)
    && MovesOnly(m, m', (o.user, if o.side.Buy? then o.quote else o.base), returned, -returned)
  }

  /** The order leaves its side of the book, and the other side is as it was. */
  ghost predicate TakesOut(b: Book, b': Book, o: Order) {
    if o.side.Buy? then b'.sells == b.sells && LosesOnly(b.buys, b'.buys, o)
    else b'.buys == b.buys && LosesOnly(b.sells, b'.sells, o)
  }

  lemma LocatedIsTakenOut(b: Book, id: nat)
    requires Locate(b, id).Ok?
    ensures var (o, buy) := Locate(b, id).value; var b' := WithoutOrder(b, id, buy);
      o.id == id && (if buy then b'.sells == b.sells && LosesOnly(b.buys, b'.buys, o)
                     else b'.buys == b.buys && LosesOnly(b.sells, b'.sells, o))
  {
    hide Find;
    hide Remove;
    hide LosesOnly;
    if Find(b.buys, id).Some? {
      RemoveLoses(b.buys, id);
    } else {
      RemoveLoses(b.sells, id);
    }
  }

  lemma UnlockingGivesBack(m: Accounts, o: Order, unlock: int)
    requires (if o.side.Buy? then Quote(Price(o), o.remaining) else Ok(o.remaining)) == Ok(unlock)
    requires ChangeReservation(m, ReserveKey(o), unlock, false).Ok?
    ensures GivesBack(m, ChangeReservation(m, ReserveKey(o), unlock, false).value, o, unlock)
  {
    if o.side.Buy? {
      QuoteAccepts(Price(o), o.remaining, unlock);
    }
    ReservationExactly(m, ReserveKey(o), unlock, false);
    hide Quote;
    hide ChangeReservation;
    hide MovesOnly;
  }

  /**
   A cancel takes exactly one order of the asking user, with the id and pair asked for, out of its side of the book, and
   gives that user what the order still reserved. Nothing else changes but the record of the cancellation.
  */
  lemma CancelMoves(c: Core, id: nat, user: nat, pair: Pair, o: Order)
    requires Apply(c, Cancel(id, user, pair)).1 == Outcome.Applied(Some(Cancelled(o)))
    ensures var c' := Next(c, Cancel(id, user, pair));
      && pair in c.books && pair in c'.books && id !in c.cancellations
      && o.id == id && o.user == user && PairOf(o) == pair && (o.side.Buy? || o.side.Sell?)
      && TakesOut(c.books[pair], c'.books[pair], o)
      && (exists returned :: GivesBack(c.accounts, c'.accounts, o, returned))
      && c' == c.(accounts := c'.accounts, books := c.books[pair := c'.books[pair]], cancellations := c.cancellations[id := o])
  {
    LocatedIsTakenOut(c.books[pair], id);
    hide Locate;
    hide LosesOnly;
    hide Quote;
    hide ChangeReservation;
    hide WithoutOrder;
    hide GivesBack;
    var unlock := (if o.side.Buy? then Quote(Price(o), o.remaining) else Ok(o.remaining)).value;
    UnlockingGivesBack(c.accounts, o, unlock);
  }

  /** Any other answer to a cancel leaves everything as it was. */
  lemma CancelElseKeeps(c: Core, id: nat, user: nat, pair: Pair)
    requires !Apply(c, Cancel(id, user, pair)).1.Applied?
    ensures Next(c, Cancel(id, user, pair)) == c
  {
    hide CancelOrder;
  }
}
