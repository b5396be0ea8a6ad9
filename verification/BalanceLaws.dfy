/** Settlement conserves assets up to fees, cannot run short of reserved funds, and works on a sparse copy. */
module BalanceLaws {
  import opened Prelude
  import opened Amount
  import opened Types
  import opened Balances

  // ---------------------------------------------------------------- totals per asset

  ghost function Holdings(m: Accounts, asset: Asset): map<AccountKey, int> {
    map k | k in m && k.1 == asset :: m[k].available + m[k].locked
  }

  /** Everything all users hold of an asset, available and locked. */
  ghost function Total(m: Accounts, asset: Asset): int {
    Sum(Holdings(m, asset))
  }

  lemma TotalUpdate(m: Accounts, k: AccountKey, b: Balance, asset: Asset)
    ensures Total(m[k := b], asset) == Total(m, asset)
      + if k.1 == asset then b.available + b.locked - Of(m, k).available - Of(m, k).locked else 0
  {
    var held := Holdings(m, asset);
    if k.1 == asset {
      assert Holdings(m[k := b], asset) == held[k := b.available + b.locked];
      SumUpdate(held, k, b.available + b.locked);
    } else {
      assert Holdings(m[k := b], asset) == held;
    }
  }

  function ChangeTotal(changes: seq<Change>, asset: Asset): int {
    if changes == [] then 0
    else (if changes[0].key.1 == asset then changes[0].available + changes[0].locked else 0) + ChangeTotal(changes[1..], asset)
  }

  lemma {:induction false} StageTotal(m: Accounts, staged: Accounts, changes: seq<Change>, asset: Asset)
    requires Stage(m, staged, changes).Ok?
    ensures Total(m + Stage(m, staged, changes).value, asset) == Total(m + staged, asset) + ChangeTotal(changes, asset)
    decreases |changes|
  {
    hide Units;
    hide Total;
    if changes != [] {
      var c := changes[0];
      LoadedIsSame(Of(m, c.key));
      var next := Moved(Of(m + staged, c.key), c).value;
      TotalUpdate(m + staged, c.key, next, asset);
      assert (m + staged)[c.key := next] == m + staged[c.key := next];
      StageTotal(m, staged[c.key := next], changes[1..], asset);
    }
  }

  /** The fees a trade takes out of circulation in an asset. */
  function FeesIn(t: Trade, asset: Asset): int {
    (if t.base == asset then FeesOf(t).0 else 0) + (if t.quote == asset then FeesOf(t).1 else 0)
  }

  function AllFeesIn(trades: seq<Trade>, asset: Asset): int {
    if trades == [] then 0 else FeesIn(trades[0], asset) + AllFeesIn(trades[1..], asset)
  }

  /** One trade moves assets between its parties and removes exactly its two fees. */
  lemma SettleTotal(m: Accounts, t: Trade, asset: Asset)
    requires Settle(m, t).Ok?
    ensures Total(Settle(m, t).value, asset) == Total(m, asset) - FeesIn(t, asset)
  {
    hide Quote;
    hide Fee;
    hide Rep;
    hide Trimmed;
    hide Stage;
    hide Total;
    hide Value;
    var fees := SettlementFees(t).value;
    var changes := Changes(t, TradeValue(t), fees.0, fees.1);
    StageTotal(m, map[], changes, asset);
    assert m + map[] == m;
    var two := changes[1..];
    var three := two[1..];
    var four := three[1..];
    assert ChangeTotal(two, asset) ==
           (if t.quote == asset then TradeValue(t) - fees.1 else 0) + ChangeTotal(three, asset);
    assert ChangeTotal(three, asset) == (if t.base == asset then -t.amount else 0) + ChangeTotal(four, asset);
    assert ChangeTotal(four, asset) == (if t.base == asset then t.amount - fees.0 else 0) + ChangeTotal(four[1..], asset);
  }

  lemma {:induction false} SettleAllTotal(m: Accounts, trades: seq<Trade>, asset: Asset)
    requires SettleAll(m, trades).Ok?
    ensures Total(SettleAll(m, trades).value, asset) == Total(m, asset) - AllFeesIn(trades, asset)
    decreases |trades|
  {
    hide Settle;
    hide Total;
    hide FeesIn;
    if trades != [] {
      SettleTotal(m, trades[0], asset);
      SettleAllTotal(Settle(m, trades[0]).value, trades[1..], asset);
    }
  }

  /** Settling a list of trades consumes exactly their locked amounts and creates only their accounts. */
  lemma {:induction false} SettleAllMoves(m: Accounts, trades: seq<Trade>, k: AccountKey)
    requires SettleAll(m, trades).Ok?
    ensures Of(SettleAll(m, trades).value, k).locked == Of(m, k).locked - LockUses(trades, k)
    ensures k in m ==> k in SettleAll(m, trades).value
    ensures k in SettleAll(m, trades).value ==> k in m || exists t :: t in trades && TouchedBy(t, k)
    ensures k in m && (forall t :: t in trades ==> !TouchedBy(t, k)) ==> SettleAll(m, trades).value[k] == m[k]
    decreases |trades|
  {
    hide Settle;
    hide LockUse;
    hide TouchedBy;
    if trades != [] {
      SettleMoves(m, trades[0], k);
      SettleAllMoves(Settle(m, trades[0]).value, trades[1..], k);
      assert trades[0] in trades;
    }
  }

  // ---------------------------------------------------------------- why settlement can fail

  predicate InRange(b: Balance) {
    0 <= b.available <= MAX_UNITS && 0 <= b.locked <= MAX_UNITS
  }

  ghost predicate AllInRange(m: Accounts) {
    forall k :: k in m ==> InRange(m[k])
  }

  /** The only reasons left when precision, funds and identity are not in question. */
  predicate OnlyRange<T>(r: Result<T>) {
    r.Err? ==> r.error == Range || r.error == Unrepresentable
  }

  predicate FreshKeys(staged: Accounts, changes: seq<Change>) {
    && (forall i :: 0 <= i < |changes| ==> changes[i].key !in staged)
    && (forall i, j :: 0 <= i < j < |changes| ==> changes[i].key != changes[j].key)
  }

  lemma {:induction false} StageOnlyRange(m: Accounts, staged: Accounts, changes: seq<Change>)
    requires AllInRange(m) && AllInRange(staged) && FreshKeys(staged, changes)
    requires forall i :: 0 <= i < |changes| ==>
      changes[i].available >= 0 && Of(m, changes[i].key).locked + changes[i].locked >= 0
    ensures OnlyRange(Stage(m, staged, changes))
    ensures Stage(m, staged, changes).Ok? ==> AllInRange(Stage(m, staged, changes).value)
    decreases |changes|
  {
    if changes != [] {
      var c := changes[0];
      var before := Of(m, c.key);
      if Moved(before, c).Ok? {
        StageOnlyRange(m, staged[c.key := Moved(before, c).value], changes[1..]);
      }
    }
  }

  /** A trade between two users whose terms are already known to be exact. */
  ghost predicate Sound(t: Trade) {
    && t.buyer > 0 && t.seller > 0 && t.buyer != t.seller
    && t.buyOrderId > 0 && t.sellOrderId > 0 && t.buyOrderId != t.sellOrderId
    && OrderAsset(t.base) && OrderAsset(t.quote) && t.base != t.quote && t.price > 0 && t.amount > 0
    && Quote(t.price, t.amount) == Ok(TradeValue(t)) && TradeValue(t) > 0
    && Fee(0, t.buyerFeeRate).Ok? && Fee(0, t.sellerFeeRate).Ok?
  }

  lemma FeeOnlyRange(received: int, rate: int)
    requires Fee(0, rate).Ok? && 0 <= received <= MAX_UNITS
    ensures OnlyRange(Fee(received, rate))
  {
    hide Rep;
  }

  /** With the buyer's and the seller's funds locked, a sound trade fails only for numeric range. */
  lemma SettleOnlyRange(m: Accounts, t: Trade)
    requires AllInRange(m) && Sound(t)
    requires Of(m, (t.buyer, t.quote)).locked >= TradeValue(t) && Of(m, (t.seller, t.base)).locked >= t.amount
    ensures OnlyRange(Settle(m, t))
    ensures Settle(m, t).Ok? ==> AllInRange(Settle(m, t).value)
  {
    hide Rep;
    hide Trimmed;
    hide Stage;
    hide Value;
    QuoteMeaning(t.price, t.amount);
    FeeOnlyRange(t.amount, t.buyerFeeRate);
    FeeOnlyRange(TradeValue(t), t.sellerFeeRate);
    if SettlementFees(t).Ok? {
      var fees := SettlementFees(t).value;
      FeeMeaning(t.amount, t.buyerFeeRate);
      FeeMeaning(TradeValue(t), t.sellerFeeRate);
      SettleStageOnlyRange(m, t, fees.0, fees.1);
    }
  }

  lemma SettleStageOnlyRange(m: Accounts, t: Trade, buyerFee: int, sellerFee: int)
    requires AllInRange(m) && t.buyer != t.seller && t.base != t.quote
    requires buyerFee <= t.amount && sellerFee <= TradeValue(t)
    requires Of(m, (t.buyer, t.quote)).locked >= TradeValue(t) && Of(m, (t.seller, t.base)).locked >= t.amount
    ensures var staged := Stage(m, map[], Changes(t, TradeValue(t), buyerFee, sellerFee));
      OnlyRange(staged) && (staged.Ok? ==> AllInRange(staged.value))
  {
    hide Value;
    hide Stage;
    StageOnlyRange(m, map[], Changes(t, TradeValue(t), buyerFee, sellerFee));
  }

  lemma LockUsesNonNegative(trades: seq<Trade>, k: AccountKey)
    requires forall t :: t in trades ==> TradeValue(t) >= 0 && t.amount >= 0
    ensures LockUses(trades, k) >= 0
  {
    hide Value;
    if trades != [] {
      assert trades[0] in trades;
      assert forall t :: t in trades[1..] ==> t in trades;
      LockUsesNonNegative(trades[1..], k);
    }
  }

  /** With enough locked for all of them, a list of sound trades fails only for numeric range. */
  lemma {:induction false} SettleAllOnlyRange(m: Accounts, trades: seq<Trade>)
    requires AllInRange(m) && (forall t :: t in trades ==> Sound(t))
    requires forall k: AccountKey :: Of(m, k).locked >= LockUses(trades, k)
    ensures OnlyRange(SettleAll(m, trades))
    ensures SettleAll(m, trades).Ok? ==> AllInRange(SettleAll(m, trades).value)
    decreases |trades|
  {
    hide Settle;
    hide Sound;
    if trades != [] {
      var t := trades[0];
      assert t in trades;
      assert forall x :: x in trades[1..] ==> x in trades;
      forall k: AccountKey ensures LockUses(trades[1..], k) >= 0 && Of(m, k).locked >= LockUse(t, k) {
        SoundSigns(trades);
        LockUsesNonNegative(trades[1..], k);
      }
      SoundKeys(t);
      assert Of(m, (t.buyer, t.quote)).locked >= LockUse(t, (t.buyer, t.quote));
      assert Of(m, (t.seller, t.base)).locked >= LockUse(t, (t.seller, t.base));
      SettleOnlyRange(m, t);
      if Settle(m, t).Ok? {
        var next := Settle(m, t).value;
        forall k: AccountKey ensures Of(next, k).locked >= LockUses(trades[1..], k) {
          SettleMoves(m, t, k);
          assert Of(m, k).locked >= LockUses(trades, k);
        }
        SettleAllOnlyRange(next, trades[1..]);
      }
    }
  }

  lemma SoundSigns(trades: seq<Trade>)
    requires forall t :: t in trades ==> Sound(t)
    ensures forall t :: t in trades ==> TradeValue(t) >= 0 && t.amount >= 0
  {
    hide Value;
    hide Quote;
  }

  lemma SoundKeys(t: Trade)
    requires Sound(t)
    ensures t.base != t.quote && t.buyer != t.seller && TradeValue(t) > 0 && t.amount > 0
  {
    hide Value;
    hide Quote;
  }

  // ---------------------------------------------------------------- working on a sparse copy

  /**
   The copy overlays the whole map, and agrees with it on every tracked account,
   including on whether the account exists.
  */
  ghost predicate Mirrors(copy: Accounts, base: Accounts, whole: Accounts, tracked: set<AccountKey>) {
    whole == base + copy && forall k :: k in tracked ==> (k in copy <==> k in whole)
  }

  lemma MirrorsAgree(copy: Accounts, base: Accounts, whole: Accounts, tracked: set<AccountKey>, k: AccountKey)
    requires Mirrors(copy, base, whole, tracked) && k in tracked
    ensures Of(copy, k) == Of(whole, k) && (k in copy <==> k in whole)
  {
  }

  lemma ReservationMirrors(
    copy: Accounts, base: Accounts, whole: Accounts, tracked: set<AccountKey>, k: AccountKey, value: int, lock: bool)
    requires Mirrors(copy, base, whole, tracked) && k in tracked
    ensures match ChangeReservation(copy, k, value, lock)
      case Err(e) => ChangeReservation(whole, k, value, lock) == Err(e)
      case Ok(copy') =>
        ChangeReservation(whole, k, value, lock).Ok?
        && Mirrors(copy', base, ChangeReservation(whole, k, value, lock).value, tracked)
  {
    hide Add;
    hide Subtract;
    hide Units;
    MirrorsAgree(copy, base, whole, tracked, k);
  }

  lemma {:induction false} StageIndependent(copy: Accounts, whole: Accounts, staged: Accounts, changes: seq<Change>)
    requires forall c :: c in changes ==> Of(copy, c.key) == Of(whole, c.key)
    ensures Stage(copy, staged, changes) == Stage(whole, staged, changes)
    decreases |changes|
  {
    hide Loaded;
    hide Moved;
    if changes != [] {
      var c := changes[0];
      assert c in changes;
      var before := if c.key in staged then Ok(staged[c.key]) else Loaded(Of(copy, c.key));
      if before.Ok? && Moved(before.value, c).Ok? {
        StageIndependent(copy, whole, staged[c.key := Moved(before.value, c).value], changes[1..]);
      }
    }
  }

  ghost predicate Tracks(tracked: set<AccountKey>, t: Trade) {
    (t.buyer, t.base) in tracked && (t.buyer, t.quote) in tracked && (t.seller, t.base) in tracked && (t.seller, t.quote) in tracked
  }

  lemma SettleMirrors(copy: Accounts, base: Accounts, whole: Accounts, tracked: set<AccountKey>, t: Trade)
    requires Mirrors(copy, base, whole, tracked) && Tracks(tracked, t)
    ensures match Settle(copy, t)
      case Err(e) => Settle(whole, t) == Err(e)
      case Ok(copy') => Settle(whole, t).Ok? && Mirrors(copy', base, Settle(whole, t).value, tracked)
  {
    hide Stage;
    hide SettlementFees;
    hide Units;
    hide Trimmed;
    hide Value;
    hide Rep;
    if SettlementFees(t).Ok? {
      var fees := SettlementFees(t).value;
      var changes := Changes(t, TradeValue(t), fees.0, fees.1);
      StageIndependent(copy, whole, map[], changes);
    }
  }

  /** Settling on the copy succeeds or fails exactly as on the whole map, with the same result. */
  lemma {:induction false} SettleAllMirrors(
    copy: Accounts, base: Accounts, whole: Accounts, tracked: set<AccountKey>, trades: seq<Trade>)
    requires Mirrors(copy, base, whole, tracked) && (forall t :: t in trades ==> Tracks(tracked, t))
    ensures match SettleAll(copy, trades)
      case Err(e) => SettleAll(whole, trades) == Err(e)
      case Ok(copy') => SettleAll(whole, trades).Ok? && Mirrors(copy', base, SettleAll(whole, trades).value, tracked)
    decreases |trades|
  {
    hide Settle;
    hide Mirrors;
    hide Tracks;
    if trades != [] {
      SettleMirrors(copy, base, whole, tracked, trades[0]);
      if Settle(copy, trades[0]).Ok? {
        SettleAllMirrors(Settle(copy, trades[0]).value, base, Settle(whole, trades[0]).value, tracked, trades[1..]);
      }
    }
  }
}
