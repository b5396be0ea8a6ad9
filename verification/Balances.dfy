/** Available and locked balances: reservations and the settlement of one trade, as value functions. */
module Balances {
  import opened Prelude
  import opened Amount
  import opened Types

  type AccountKey = (nat, Asset)

  datatype Balance = Balance(available: int, locked: int)

  type Accounts = map<AccountKey, Balance>

  /** The balance of an account; an account without a row has nothing. */
  function Of(m: Accounts, k: AccountKey): Balance {
    if k in m then m[k] else Balance(0, 0)
  }

  /** Moves an amount from available to locked, or back. */
  function ChangeReservation(m: Accounts, k: AccountKey, value: int, lock: bool): Result<Accounts> {
    var _ :- Ensure(value > 0, NotPositive);
    var _ :- Units(value);
    var _ :- Ensure(k in m, MissingBalance);
    if lock then
      var available :- Subtract(m[k].available, value);
      var locked :- Add(m[k].locked, value);
      Ok(m[k := Balance(available, locked)])
    else
      var available :- Add(m[k].available, value);
      var locked :- Subtract(m[k].locked, value);
      Ok(m[k := Balance(available, locked)])
  }

  datatype Change = Change(key: AccountKey, available: int, locked: int)

  /** The four movements of a trade: the buyer pays, the seller is paid, the seller delivers, the buyer receives. */
  function Changes(t: Trade, value: int, buyerFee: int, sellerFee: int): seq<Change> {
    [Change((t.buyer, t.quote), 0, -value),
     Change((t.seller, t.quote), value - sellerFee, 0),
     Change((t.seller, t.base), 0, -t.amount),
     Change((t.buyer, t.base), t.amount - buyerFee, 0)]
  }

  function Loaded(b: Balance): Result<Balance> {
    var available :- Units(b.available);
    var locked :- Units(b.locked);
    Ok(Balance(available, locked))
  }

  function Moved(b: Balance, c: Change): Result<Balance> {
    var next := Balance(b.available + c.available, b.locked + c.locked);
    var _ :- Ensure(next.available >= 0 && next.locked >= 0, Insufficient);
    var _ :- Ensure(next.available <= MAX_UNITS && next.locked <= MAX_UNITS, Range);
    Ok(next)
  }

  /** Applies changes to staged copies; changes to one account add up. */
  function Stage(m: Accounts, staged: Accounts, changes: seq<Change>): Result<Accounts>
    decreases |changes|
  {
    if changes == [] then Ok(staged)
    else
      var c := changes[0];
      var before :- if c.key in staged then Ok(staged[c.key]) else Loaded(Of(m, c.key));
      var next :- Moved(before, c);
      Stage(m, staged[c.key := next], changes[1..])
  }

  predicate Storable(staged: Accounts) {
    forall k :: k in staged ==> Rep(staged[k].available) && Rep(staged[k].locked)
  }

  function SettlementFees(t: Trade): Result<(int, int)> {
    var value :- Quote(t.price, t.amount);
    var buyerFee :- Fee(t.amount, t.buyerFeeRate);
    var sellerFee :- Fee(value, t.sellerFeeRate);
    Ok((buyerFee, sellerFee))
  }

  /** Settles both assets of one trade, or changes nothing. */
  function Settle(m: Accounts, t: Trade): Result<Accounts> {
    var _ :- Ensure(t.buyer > 0 && t.seller > 0, BadIdentity);
    var _ :- Ensure(t.buyOrderId > 0 && t.sellOrderId > 0 && t.buyOrderId != t.sellOrderId, BadIdentity);
    var _ :- Ensure(OrderAsset(t.base) && OrderAsset(t.quote), BadAsset);
    var _ :- Ensure(t.base != t.quote, SameAssets);
    var _ :- Ensure(t.price > 0 && t.amount > 0, NotPositive);
    var _ :- Units(t.amount);
    var fees :- SettlementFees(t);
    var staged :- Stage(m, map[], Changes(t, TradeValue(t), fees.0, fees.1));
    var _ :- Ensure(Storable(staged), Unrepresentable);
    Ok(m + staged)
  }

  function SettleAll(m: Accounts, trades: seq<Trade>): Result<Accounts>
    decreases |trades|
  {
    if trades == [] then Ok(m)
    else
      var next :- Settle(m, trades[0]);
      SettleAll(next, trades[1..])
  }

  // ---------------------------------------------------------------- what settlement moves

  /** The locked amount a trade consumes from an account. */
  function LockUse(t: Trade, k: AccountKey): int {
    (if k == (t.buyer, t.quote) then TradeValue(t) else 0) + (if k == (t.seller, t.base) then t.amount else 0)
  }

  function LockUses(trades: seq<Trade>, k: AccountKey): int {
    if trades == [] then 0 else LockUse(trades[0], k) + LockUses(trades[1..], k)
  }

  /** The available amount a trade pays into an account, after fees. */
  function Receipt(t: Trade, k: AccountKey): int {
    var fees := FeesOf(t);
    (if k == (t.seller, t.quote) then TradeValue(t) - fees.1 else 0) + (if k == (t.buyer, t.base) then t.amount - fees.0 else 0)
  }

  /** The fees of a trade; (0, 0) for one that cannot be settled. */
  function FeesOf(t: Trade): (int, int) {
    match SettlementFees(t)
    case Ok(fees) => fees
    case Err(_) => (0, 0)
  }

  function LockedChange(changes: seq<Change>, k: AccountKey): int {
    if changes == [] then 0
    else (if changes[0].key == k then changes[0].locked else 0) + LockedChange(changes[1..], k)
  }

  function AvailableChange(changes: seq<Change>, k: AccountKey): int {
    if changes == [] then 0
    else (if changes[0].key == k then changes[0].available else 0) + AvailableChange(changes[1..], k)
  }

  lemma LoadedIsSame(b: Balance)
    ensures Loaded(b).Ok? ==> Loaded(b).value == b
  {
  }

  /** Staging adds up exactly the changes of each account and touches no other. */
  lemma {:induction false} StageAddsUp(m: Accounts, staged: Accounts, changes: seq<Change>, k: AccountKey)
    requires Stage(m, staged, changes).Ok?
    ensures var after := Stage(m, staged, changes).value;
      && Of(m + after, k).locked == Of(m + staged, k).locked + LockedChange(changes, k)
      && Of(m + after, k).available == Of(m + staged, k).available + AvailableChange(changes, k)
      && (k in after <==> k in staged || exists c :: c in changes && c.key == k)
    decreases |changes|
  {
    hide Units;
    if changes != [] {
      var c := changes[0];
      LoadedIsSame(Of(m, c.key));
      var before := Of(m + staged, c.key);
      var next := Moved(before, c).value;
      StageAddsUp(m, staged[c.key := next], changes[1..], k);
      assert forall x :: x in changes <==> x == c || x in changes[1..];
    }
  }

  predicate TouchedBy(t: Trade, k: AccountKey) {
    k == (t.buyer, t.quote) || k == (t.seller, t.quote) || k == (t.seller, t.base) || k == (t.buyer, t.base)
  }

  /** A settled trade moves exactly its value, its amount and its fees, and only in its four accounts. */
  lemma SettleMoves(m: Accounts, t: Trade, k: AccountKey)
    requires Settle(m, t).Ok?
    ensures var after := Settle(m, t).value;
      && Of(after, k).locked == Of(m, k).locked - LockUse(t, k)
      && Of(after, k).available == Of(m, k).available + Receipt(t, k)
      && (k in after <==> k in m || TouchedBy(t, k))
      && (!TouchedBy(t, k) && k in m ==> after[k] == m[k])
  {
    hide Quote;
    hide Fee;
    hide Rep;
    hide Trimmed;
    hide Stage;
    hide Value;
    var fees := SettlementFees(t).value;
    var changes := Changes(t, TradeValue(t), fees.0, fees.1);
    StageAddsUp(m, map[], changes, k);
    var staged := Stage(m, map[], changes).value;
    assert Settle(m, t).value == m + staged;
    assert m + map[] == m;
    Four(changes, k);
    assert forall c :: c in changes ==> c == changes[0] || c == changes[1] || c == changes[2] || c == changes[3];
    assert changes[0] in changes && changes[1] in changes && changes[2] in changes && changes[3] in changes;
  }

  lemma Four(changes: seq<Change>, k: AccountKey)
    requires |changes| == 4
    ensures LockedChange(changes, k) ==
            LockedAt(changes[0], k) + LockedAt(changes[1], k) + LockedAt(changes[2], k) + LockedAt(changes[3], k)
    ensures AvailableChange(changes, k) ==
            AvailableAt(changes[0], k) + AvailableAt(changes[1], k) + AvailableAt(changes[2], k) + AvailableAt(changes[3], k)
  {
    var two := changes[1..];
    var three := two[1..];
    var four := three[1..];
    assert four[1..] == [];
    assert LockedChange(three, k) == LockedAt(three[0], k) + LockedChange(four, k);
    assert LockedChange(two, k) == LockedAt(two[0], k) + LockedChange(three, k);
    assert AvailableChange(three, k) == AvailableAt(three[0], k) + AvailableChange(four, k);
    assert AvailableChange(two, k) == AvailableAt(two[0], k) + AvailableChange(three, k);
  }

  function LockedAt(c: Change, k: AccountKey): int {
    if c.key == k then c.locked else 0
  }

  function AvailableAt(c: Change, k: AccountKey): int {
    if c.key == k then c.available else 0
  }
}
