/** Which refused withdrawal steps stay refused for good, and which may succeed later. */
module RefusalLaws {
  import opened Prelude
  import opened Amount
  import opened Types
  import opened Balances
  import opened BalanceLaws
  import opened Core
  import opened RetryLaws
  import opened Journal

  /** Malformed, or at odds with what is recorded under its id: other content, refused, or already finalized otherwise. */
  predicate RefusedByRecord(c: Core, action: WithdrawalAction, funds: WithdrawalFunds) {
    ValidateWithdrawal(funds).Err? || (funds.id in c.withdrawals && Resume(c.withdrawals[funds.id], action, funds).Err?)
  }

  /** Such a step is refused in every later state, and changes nothing. */
  lemma RefusedByRecordStays(c: Core, action: WithdrawalAction, funds: WithdrawalFunds, between: seq<Command>)
    requires RefusedByRecord(c, action, funds)
    ensures var later := Run(c, between);
      Inert(later, Withdrawal(action, funds)) && Apply(later, Withdrawal(action, funds)).1.Failed?
  {
    hide ValidateWithdrawal;
    RunRemembers(c, between);
    var later := Run(c, between);
    assert RefusedByRecord(later, action, funds);
    hide Run;
    hide Remembers;
    RefusedNow(later, action, funds);
  }

  lemma RefusedNow(c: Core, action: WithdrawalAction, funds: WithdrawalFunds)
    requires RefusedByRecord(c, action, funds)
    ensures Inert(c, Withdrawal(action, funds)) && Apply(c, Withdrawal(action, funds)).1.Failed?
  {
    hide ValidateWithdrawal;
    hide Resume;
    hide MoveFunds;
  }

  // ---------------------------------------------------------------- every other step can still be applied

  lemma ValidFunds(funds: WithdrawalFunds)
    requires ValidateWithdrawal(funds).Ok?
    ensures funds.user > 0 && Trimmed(funds.asset) && 0 < funds.amount <= MAX_UNITS
  {
    var s := funds.asset;
    assert WithdrawalAsset(s);
    assert s[0] in s && s[|s| - 1] in s;
  }

  /** The state with one account set. */
  function With(c: Core, k: AccountKey, available: int, locked: int): Core {
    c.(accounts := c.accounts[k := Balance(available, locked)])
  }

  lemma AdjustSets(c: Core, k: AccountKey, delta: int)
    requires k.0 > 0 && Trimmed(k.1) && 0 <= Of(c.accounts, k).available <= MAX_UNITS
    requires 0 <= Of(c.accounts, k).available + delta <= MAX_UNITS && Rep(Of(c.accounts, k).available + delta)
    requires -MAX_UNITS <= delta <= MAX_UNITS
    ensures Next(c, AdjustBalance(k.0, k.1, delta)) == With(c, k, Of(c.accounts, k).available + delta, Of(c.accounts, k).locked)
  {
    hide Rep;
    hide Trimmed;
  }

  lemma UnlockSets(c: Core, k: AccountKey)
    requires k in c.accounts && c.accounts[k].available == 0 && 0 <= c.accounts[k].locked <= MAX_UNITS && Rep(c.accounts[k].locked)
    ensures Next(c, Unlock(k.0, k.1, c.accounts[k].locked)) == With(c, k, c.accounts[k].locked, 0)
  {
    ZeroIsStorable();
    hide Rep;
    var b := c.accounts[k];
    if b.locked == 0 {
      assert c.accounts[k := Balance(0, 0)] == c.accounts;
    }
  }

  /** Commands that leave an account with exactly this much available and nothing locked. */
  function Refill(k: AccountKey, b: Balance, amount: int): seq<Command> {
    [AdjustBalance(k.0, k.1, -b.available), Unlock(k.0, k.1, b.locked), AdjustBalance(k.0, k.1, -b.locked), AdjustBalance(k.0, k.1, amount)]
  }

  lemma Refilled(c: Core, k: AccountKey, amount: int)
    requires k.0 > 0 && Trimmed(k.1) && InRange(Of(c.accounts, k)) && Rep(Of(c.accounts, k).locked)
    requires 0 <= amount <= MAX_UNITS && Rep(amount)
    ensures Run(c, Refill(k, Of(c.accounts, k), amount)) == With(c, k, amount, 0)
  {
    ZeroIsStorable();
    hide Rep;
    hide Trimmed;
    hide Apply;
    hide Next;
    var b := Of(c.accounts, k);
    AdjustSets(c, k, -b.available);
    var c1 := With(c, k, 0, b.locked);
    UnlockSets(c1, k);
    var c2 := With(c1, k, b.locked, 0);
    AdjustSets(c2, k, -b.locked);
    var c3 := With(c2, k, 0, 0);
    AdjustSets(c3, k, amount);
    assert With(c3, k, amount, 0) == With(c, k, amount, 0);
    hide With;
    var x, y, z, u :=
      AdjustBalance(k.0, k.1, -b.available), Unlock(k.0, k.1, b.locked),
      AdjustBalance(k.0, k.1, -b.locked), AdjustBalance(k.0, k.1, amount);
    RunFour(c, x, y, z, u);
  }

  lemma RunFour(c: Core, x: Command, y: Command, z: Command, u: Command)
    ensures Run(c, [x, y, z, u]) == Next(Next(Next(Next(c, x), y), z), u)
  {
    hide Next;
    assert [x, y, z, u][1..] == [y, z, u] && [y, z, u][1..] == [z, u] && [z, u][1..] == [u] && [u][1..] == [];
    var c2 := Next(Next(c, x), y);
    assert Run(c2, [z, u]) == Run(Next(c2, z), [u]);
  }

  /** What makes a release or completion applicable once the money is there: the reservation, or a lock for one on record. */
  function Enabling(c: Core, funds: WithdrawalFunds): Command {
    if funds.id in c.withdrawals then Lock(funds.user, funds.asset, funds.amount) else Withdrawal(Reserve, funds)
  }

  lemma LocksTheAmount(accounts: Accounts, k: AccountKey, amount: int)
    requires 0 < amount <= MAX_UNITS && Rep(amount)
    ensures var full := accounts[k := Balance(amount, 0)]; var held := accounts[k := Balance(0, amount)];
      && ChangeReservation(full, k, amount, true) == Ok(held)
      && ChangeReservation(held, k, amount, false) == Ok(full)
      && Paid(held, k, amount) == Ok(accounts[k := Balance(0, 0)])
  {
    ZeroIsStorable();
    hide Rep;
    var full, held := accounts[k := Balance(amount, 0)], accounts[k := Balance(0, amount)];
    assert full[k := Balance(0, amount)] == held && held[k := Balance(amount, 0)] == full;
    assert held[k := Balance(0, 0)] == accounts[k := Balance(0, 0)];
  }

  /** With exactly the amount available, one enabling command and then the step is applied. */
  lemma EnabledStep(c: Core, action: WithdrawalAction, funds: WithdrawalFunds)
    requires !action.Reserve? && ValidateWithdrawal(funds).Ok? && Rep(funds.amount)
    requires funds.id in c.withdrawals ==> c.withdrawals[funds.id] == WithdrawalReceipt(funds, Reserved)
    ensures var ready := With(c, FundsKey(funds), funds.amount, 0);
      Apply(Next(ready, Enabling(ready, funds)), Withdrawal(action, funds)).1 == Outcome.Applied(Some(WithdrawalChanged(action, funds)))
  {
    var k := FundsKey(funds);
    ValidFunds(funds);
    LocksTheAmount(c.accounts, k, funds.amount);
    hide ValidateWithdrawal;
    hide ChangeReservation;
    hide Paid;
    hide Rep;
    var ready := With(c, k, funds.amount, 0);
    var held := Next(ready, Enabling(ready, funds));
    assert held.accounts == c.accounts[k := Balance(0, funds.amount)];
    assert funds.id in held.withdrawals && held.withdrawals[funds.id] == WithdrawalReceipt(funds, Reserved);
  }

  /** The way from any state to one in which the step is applied. */
  function Way(c: Core, funds: WithdrawalFunds): seq<Command> {
    Refill(FundsKey(funds), Of(c.accounts, FundsKey(funds)), funds.amount) + [Enabling(c, funds)]
  }

  lemma {:induction false} WayLeadsThere(c: Core, action: WithdrawalAction, funds: WithdrawalFunds)
    requires !action.Reserve? && ValidateWithdrawal(funds).Ok? && Rep(funds.amount)
    requires funds.id in c.withdrawals ==> c.withdrawals[funds.id] == WithdrawalReceipt(funds, Reserved)
    requires InRange(Of(c.accounts, FundsKey(funds))) && Rep(Of(c.accounts, FundsKey(funds)).locked)
    ensures !Apply(Run(c, Way(c, funds)), Withdrawal(action, funds)).1.Failed?
  {
    hide Apply;
    hide ValidateWithdrawal;
    hide Rep;
    var k := FundsKey(funds);
    ValidFunds(funds);
    Refilled(c, k, funds.amount);
    EnabledStep(c, action, funds);
    var ready := With(c, k, funds.amount, 0);
    RunAppend(c, Refill(k, Of(c.accounts, k), funds.amount), [Enabling(c, funds)]);
    RunOne(ready, Enabling(c, funds));
    hide Refill;
    hide Next;
  }

  /**
   A withdrawal step is refused in every later state if and only if it is malformed or at odds with its record now.
   Any other refusal, such as a release before its reservation, can be followed by success. Stored amounts are
   decimals, which is what the last two requirements say of the amounts concerned.
  */
  lemma RefusedForGoodExactly(c: Core, action: WithdrawalAction, funds: WithdrawalFunds)
    requires InRange(Of(c.accounts, FundsKey(funds)))
    requires Rep(Of(c.accounts, FundsKey(funds)).locked) && Rep(funds.amount)
    ensures (forall between: seq<Command> :: Apply(Run(c, between), Withdrawal(action, funds)).1.Failed?)
       <==> RefusedByRecord(c, action, funds)
  {
    hide Rep;
    hide ValidateWithdrawal;
    hide MoveFunds;
    if RefusedByRecord(c, action, funds) {
      forall between: seq<Command> ensures Apply(Run(c, between), Withdrawal(action, funds)).1.Failed? {
        RefusedByRecordStays(c, action, funds, between);
      }
    } else if action.Reserve? || (funds.id in c.withdrawals && Resume(c.withdrawals[funds.id], action, funds) == Ok(false)) {
      var none: seq<Command> := [];
      NotRefusedNow(c, action, funds);
      NotForGood(c, action, funds, none);
    } else {
      WayLeadsThere(c, action, funds);
      NotForGood(c, action, funds, Way(c, funds));
    }
  }

  lemma NotForGood(c: Core, action: WithdrawalAction, funds: WithdrawalFunds, way: seq<Command>)
    requires !Apply(Run(c, way), Withdrawal(action, funds)).1.Failed?
    ensures !(forall between: seq<Command> :: Apply(Run(c, between), Withdrawal(action, funds)).1.Failed?)
  {
    hide Apply;
    hide Run;
  }

  lemma NotRefusedNow(c: Core, action: WithdrawalAction, funds: WithdrawalFunds)
    requires !RefusedByRecord(c, action, funds)
    requires action.Reserve? || (funds.id in c.withdrawals && Resume(c.withdrawals[funds.id], action, funds) == Ok(false))
    ensures !Apply(c, Withdrawal(action, funds)).1.Failed?
  {
    hide MoveFunds;
    hide ValidateWithdrawal;
  }

  // ---------------------------------------------------------------- an example

  const FUNDS: WithdrawalFunds := WithdrawalFunds(1, 1, "A", FACTOR)
  const FUNDED: Core := Core(map[(1, "A") := Balance(FACTOR, 0)], map[], map[], map[], map[], map[])

  lemma FundsAreValid()
    ensures ValidateWithdrawal(FUNDS).Ok? && Rep(FUNDS.amount)
  {
    NormalizeKeepsValue(Decimal(FACTOR, SCALE));
  }

  lemma ReleaseComesTooEarly(c: Core, funds: WithdrawalFunds)
    requires ValidateWithdrawal(funds).Ok? && funds.id !in c.withdrawals
    ensures Apply(c, Withdrawal(Release, funds)) == (c, Failed(NoReservation))
  {
    hide ValidateWithdrawal;
    hide MoveFunds;
  }

  /** A release that comes before its reservation is refused; after the reservation the same release is applied. */
  lemma RefusedReleaseSucceedsLater()
    ensures IsGenesis(FUNDED)
    ensures Apply(FUNDED, Withdrawal(Release, FUNDS)).1 == Failed(NoReservation)
    ensures var later := Run(FUNDED, [Withdrawal(Release, FUNDS), Withdrawal(Reserve, FUNDS)]);
      Apply(later, Withdrawal(Release, FUNDS)).1 == Outcome.Applied(Some(WithdrawalChanged(Release, FUNDS)))
  {
    hide Rep;
    hide ValidateWithdrawal;
    hide MoveFunds;
    FundsAreValid();
    assert FUNDED == With(FUNDED, (1, "A"), FACTOR, 0);
    EnabledStep(FUNDED, Release, FUNDS);
    ReleaseComesTooEarly(FUNDED, FUNDS);
    hide Apply;
    hide Next;
    var both := [Withdrawal(Release, FUNDS), Withdrawal(Reserve, FUNDS)];
    assert both[1..] == [both[1]];
    RunOne(FUNDED, both[1]);
  }
}
