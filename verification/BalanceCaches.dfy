/** The balance cache as it is kept: one map changed in place, all or nothing in every operation. */
module BalanceCaches {
  import opened Prelude
  import opened Amount
  import opened Types
  import opened Balances

  class BalanceCache {
    var balances: Accounts

    constructor ()
      ensures balances == map[]
    {
      balances := map[];
    }

    method ChangeReservation(k: AccountKey, value: int, lock: bool) returns (r: Result<()>)
      modifies this
      ensures match Balances.ChangeReservation(old(balances), k, value, lock)
        case Err(reason) => r == Err(reason) && balances == old(balances)
        case Ok(next) => r.Ok? && balances == next
    {
      hide Add;
      hide Subtract;
      hide Units;
      var _ :- Ensure(value > 0, NotPositive);
      var _ :- Units(value);
      if k !in balances {
        return Err(MissingBalance);
      }
      var b := balances[k];
      var available: int;
      var locked: int;
      if lock {
        available :- Subtract(b.available, value);
        locked :- Add(b.locked, value);
      } else {
        available :- Add(b.available, value);
        locked :- Subtract(b.locked, value);
      }
      balances := balances[k := Balance(available, locked)];
      r := Ok(());
    }

    /** Writes the available amount of an account, creating it when it is missing. */
    method SetAvailable(k: AccountKey, available: int)
      modifies this
      ensures balances == old(balances)[k := Of(old(balances), k).(available := available)]
    {
      var b := if k in balances then balances[k] else Balance(0, 0);
      balances := balances[k := b.(available := available)];
    }

    method OpenAccount(k: AccountKey, b: Balance)
      modifies this
      ensures balances == old(balances)[k := b]
    {
      balances := balances[k := b];
    }

    method SetLocked(k: AccountKey, locked: int)
      modifies this
      ensures balances == old(balances)[k := Of(old(balances), k).(locked := locked)]
    {
      var b := if k in balances then balances[k] else Balance(0, 0);
      balances := balances[k := b.(locked := locked)];
    }

    /** Copies an account that is not there yet; a missing account stays missing. */
    method CopyAccountFrom(source: BalanceCache, k: AccountKey)
      modifies this
      ensures balances == if k !in old(balances) && k in old(source.balances)
        then old(balances)[k := old(source.balances)[k]]
        else old(balances)
      ensures source != this ==> source.balances == old(source.balances)
    {
      if k !in balances && k in source.balances {
        balances := balances[k := source.balances[k]];
      }
    }

    /** Publishes prepared accounts, one row after the other. */
    method CommitPrepared(prepared: Accounts)
      modifies this
      ensures balances == old(balances) + prepared
    {
      var left := prepared.Keys;
      while left != {}
        invariant left <= prepared.Keys
        invariant forall k :: k in balances <==> k in old(balances) || (k in prepared && k !in left)
        invariant forall k :: k in balances ==>
          balances[k] == if k in prepared && k !in left then prepared[k] else old(balances)[k]
        decreases |left|
      {
        ghost var some := Element(left);
        var k: AccountKey :| k in left;
        balances := balances[k := prepared[k]];
        left := left - {k};
      }
    }

    /** Applies the four movements of a trade to copies, coalescing those of one account. */
    method StageChanges(changes: seq<Change>) returns (r: Result<Accounts>)
      ensures r == Stage(balances, map[], changes)
    {
      var staged: Accounts := map[];
      var i := 0;
      assert changes[0..] == changes;
      while i < |changes|
        invariant i <= |changes| && Stage(balances, staged, changes[i..]) == Stage(balances, map[], changes)
      {
        hide Units;
        ghost var before := staged;
        var c := changes[i];
        assert changes[i..][0] == c && changes[i..][1..] == changes[i + 1..];
        if c.key !in staged {
          var b := Of(balances, c.key);
          var available :- Units(b.available);
          var locked :- Units(b.locked);
          staged := staged[c.key := Balance(available, locked)];
        }
        var b := staged[c.key];
        var next := Balance(b.available + c.available, b.locked + c.locked);
        var _ :- Ensure(next.available >= 0 && next.locked >= 0, Insufficient);
        var _ :- Ensure(next.available <= MAX_UNITS && next.locked <= MAX_UNITS, Range);
        staged := staged[c.key := next];
        assert staged == before[c.key := next];
        i := i + 1;
      }
      r := Ok(staged);
    }

    /** Whether every staged amount can be stored; nothing is published before all have been looked at. */
    method AllStorable(staged: Accounts) returns (storable: bool)
      ensures storable == Storable(staged)
    {
      hide Rep;
      var left := staged.Keys;
      while left != {}
        invariant left <= staged.Keys
        invariant forall k :: k in staged && k !in left ==> Rep(staged[k].available) && Rep(staged[k].locked)
        decreases |left|
      {
        ghost var some := Element(left);
        var k: AccountKey :| k in left;
        if !Rep(staged[k].available) || !Rep(staged[k].locked) {
          return false;
        }
        left := left - {k};
      }
      storable := true;
    }

    method SettleTrade(t: Trade) returns (r: Result<()>)
      modifies this
      ensures match Settle(old(balances), t)
        case Err(reason) => r == Err(reason) && balances == old(balances)
        case Ok(next) => r.Ok? && balances == next
    {
      hide Quote;
      hide Fee;
      hide Stage;
      hide Trimmed;
      hide Rep;
      var _ :- Ensure(t.buyer > 0 && t.seller > 0, BadIdentity);
      var _ :- Ensure(t.buyOrderId > 0 && t.sellOrderId > 0 && t.buyOrderId != t.sellOrderId, BadIdentity);
      var _ :- Ensure(OrderAsset(t.base) && OrderAsset(t.quote), BadAsset);
      var _ :- Ensure(t.base != t.quote, SameAssets);
      var _ :- Ensure(t.price > 0 && t.amount > 0, NotPositive);
      var amount :- Units(t.amount);
      var value :- Quote(t.price, t.amount);
      QuoteMeaning(t.price, t.amount);
      var buyerFee :- Fee(t.amount, t.buyerFeeRate);
      var sellerFee :- Fee(value, t.sellerFeeRate);
      var staged :- StageChanges(Changes(t, value, buyerFee, sellerFee));
      var storable := AllStorable(staged);
      if !storable {
        return Err(Unrepresentable);
      }
      CommitPrepared(staged);
      r := Ok(());
    }
  }
}
