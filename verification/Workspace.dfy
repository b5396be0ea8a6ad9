/**
 The balance side of a submission as it is computed: a sparse cache holding only copies of the accounts involved
 is locked, settled and refunded, and nothing reaches the real cache unless all of it succeeds.
*/
module Workspace {
  import opened Prelude
  import opened Amount
  import opened Types
  import opened Matcher
  import opened Balances
  import opened BalanceLaws
  import opened BalanceCaches
  import opened Submission
  import opened Planner

  function KeysOf(t: Trade): seq<AccountKey> {
    [(t.buyer, t.base), (t.buyer, t.quote), (t.seller, t.base), (t.seller, t.quote)]
  }

  function AllKeys(trades: seq<Trade>): seq<AccountKey> {
    if trades == [] then [] else KeysOf(trades[0]) + AllKeys(trades[1..])
  }

  /** The accounts a submission may touch. */
  function Involved(o: Order, trades: seq<Trade>): seq<AccountKey> {
    [ReserveKey(o)] + AllKeys(trades)
  }

  ghost function AsSet(keys: seq<AccountKey>): set<AccountKey> {
    set k | k in keys
  }

  lemma {:induction false} AllKeysTrack(trades: seq<Trade>)
    ensures forall t :: t in trades ==> Tracks(AsSet(AllKeys(trades)), t)
  {
    if trades != [] {
      AllKeysTrack(trades[1..]);
      forall t | t in trades ensures Tracks(AsSet(AllKeys(trades)), t) {
        if t == trades[0] {
          var first := KeysOf(t);
          assert first[0] in first && first[1] in first && first[2] in first && first[3] in first;
        } else {
          assert t in trades[1..];
        }
      }
    }
  }

  lemma InvolvedTrack(o: Order, trades: seq<Trade>)
    ensures ReserveKey(o) in AsSet(Involved(o, trades))
    ensures forall t :: t in trades ==> Tracks(AsSet(Involved(o, trades)), t)
  {
    AllKeysTrack(trades);
    assert Involved(o, trades)[0] == ReserveKey(o);
  }

  /** A copy of some accounts: present exactly when the original is, and equal to it. */
  ghost predicate CopyOf(copy: Accounts, base: Accounts, keys: seq<AccountKey>) {
    && (forall k :: k in keys ==> (k in copy <==> k in base))
    && (forall k :: k in copy ==> k in base && copy[k] == base[k])
  }

  lemma CopyMirrors(copy: Accounts, base: Accounts, keys: seq<AccountKey>)
    requires CopyOf(copy, base, keys)
    ensures Mirrors(copy, base, base, AsSet(keys))
  {
    assert base + copy == base;
  }

  /**
   Charging an order on any copy that mirrors the balances gives what charging it on the balances themselves gives:
   the same failure, or a copy that published over the balances is the same result.
  */
  lemma ChargeMirrors(o: Order, w: Walked, copy: Accounts, base: Accounts, keys: seq<AccountKey>)
    requires CopyOf(copy, base, keys) && ReserveKey(o) in keys && forall t :: t in w.trades ==> Tracks(AsSet(keys), t)
    ensures match Charge(o, w, copy)
      case Err(reason) => Charge(o, w, base) == Err(reason)
      case Ok((copy', reserved, refund)) => Charge(o, w, base) == Ok((base + copy', reserved, refund))
  {
    hide Mirrors;
    hide Tracks;
    hide ChangeReservation;
    hide SettleAll;
    hide Reservation;
    hide StillReserved;
    hide Refund;
    var tracked, k := AsSet(keys), ReserveKey(o);
    CopyMirrors(copy, base, keys);
    if Reservation(o).Ok? {
      var reserved := Reservation(o).value;
      ReservationMirrors(copy, base, base, tracked, k, reserved, true);
      if ChangeReservation(copy, k, reserved, true).Ok? {
        var copy1, whole1 := ChangeReservation(copy, k, reserved, true).value, ChangeReservation(base, k, reserved, true).value;
        SettleAllMirrors(copy1, base, whole1, tracked, w.trades);
        if SettleAll(copy1, w.trades).Ok? {
          var copy2, whole2 := SettleAll(copy1, w.trades).value, SettleAll(whole1, w.trades).value;
          MirrorsIsOverlay(copy2, base, whole2, tracked);
          if StillReserved(w.taker.order).Ok? {
            var refund := Refund(reserved, Used(o, w.taker), StillReserved(w.taker.order).value);
            if refund.Ok? && refund.value > 0 {
              ReservationMirrors(copy2, base, whole2, tracked, k, refund.value, false);
              if ChangeReservation(copy2, k, refund.value, false).Ok? {
                MirrorsIsOverlay(ChangeReservation(copy2, k, refund.value, false).value, base,
                                 ChangeReservation(whole2, k, refund.value, false).value, tracked);
              }
            }
          }
        }
      }
    }
  }

  lemma MirrorsIsOverlay(copy: Accounts, base: Accounts, whole: Accounts, tracked: set<AccountKey>)
    requires Mirrors(copy, base, whole, tracked)
    ensures whole == base + copy
  {
  }

  // ---------------------------------------------------------------- as it is computed

  method CopyAccounts(prepared: BalanceCache, source: BalanceCache, keys: seq<AccountKey>, ghost seen: seq<AccountKey>)
    requires prepared != source && CopyOf(prepared.balances, source.balances, seen)
    modifies prepared
    ensures CopyOf(prepared.balances, source.balances, seen + keys)
  {
    var i := 0;
    assert seen + keys[..0] == seen;
    while i < |keys|
      invariant i <= |keys| && CopyOf(prepared.balances, source.balances, seen + keys[..i])
    {
      prepared.CopyAccountFrom(source, keys[i]);
      assert seen + keys[..i + 1] == seen + keys[..i] + [keys[i]];
      i := i + 1;
    }
    assert keys[..|keys|] == keys;
  }

  /** Copies the accounts of an order and of its trades. */
  method Prepare(o: Order, trades: seq<Trade>, source: BalanceCache) returns (prepared: BalanceCache)
    ensures fresh(prepared) && CopyOf(prepared.balances, source.balances, Involved(o, trades))
  {
    prepared := new BalanceCache();
    CopyAccounts(prepared, source, [ReserveKey(o)], []);
    ghost var seen := [] + [ReserveKey(o)];
    hide CopyOf;
    hide KeysOf;
    var i := 0;
    assert trades[0..] == trades;
    while i < |trades|
      invariant i <= |trades| && CopyOf(prepared.balances, source.balances, seen)
      invariant Involved(o, trades) == seen + AllKeys(trades[i..])
    {
      CopyAccounts(prepared, source, KeysOf(trades[i]), seen);
      assert trades[i..][1..] == trades[i + 1..];
      seen := seen + KeysOf(trades[i]);
      i := i + 1;
    }
    assert seen + AllKeys([]) == seen;
  }

  /** Locks the reservation, settles every trade and returns what is not needed, all on the prepared copy. */
  method ChargeOn(o: Order, plan: MatchPlan, ghost w: Walked, prepared: BalanceCache) returns (r: Result<(int, int)>)
    requires w.taker == plan.Taken() && w.trades == plan.trades
    modifies prepared
    ensures match Charge(o, w, old(prepared.balances))
      case Err(reason) => r == Err(reason)
      case Ok((accounts, reserved, refund)) => r == Ok((reserved, refund)) && prepared.balances == accounts
  {
    hide Quote;
    hide Subtract;
    hide Settle;
    hide ChangeReservation;
    var buy := o.side.Buy?;
    var k := ReserveKey(o);
    var reserved: int;
    if buy {
      if o.price.Some? {
        reserved :- Quote(o.price.value, o.amount);
      } else {
        reserved := o.quoteAmount.GetOr(0);
      }
    } else {
      reserved := o.amount;
    }
    var locked := prepared.ChangeReservation(k, reserved, true);
    if locked.Err? {
      return Err(locked.error);
    }
    ghost var start := prepared.balances;
    var i := 0;
    assert plan.trades[0..] == plan.trades;
    while i < |plan.trades|
      invariant i <= |plan.trades| && SettleAll(prepared.balances, plan.trades[i..]) == SettleAll(start, plan.trades)
    {
      assert plan.trades[i..][0] == plan.trades[i] && plan.trades[i..][1..] == plan.trades[i + 1..];
      var settled := prepared.SettleTrade(plan.trades[i]);
      if settled.Err? {
        return Err(settled.error);
      }
      i := i + 1;
    }
    var remaining: int;
    if plan.order.kind.Market? {
      remaining := 0;
    } else if plan.order.side.Buy? {
      remaining :- Quote(Price(plan.order), plan.order.remaining);
    } else {
      remaining := plan.order.remaining;
    }
    var used := if buy then plan.totalQuote else plan.totalAmount;
    var unused :- Subtract(reserved, used);
    var refund :- Subtract(unused, remaining);
    if refund > 0 {
      var released := prepared.ChangeReservation(k, refund, false);
      if released.Err? {
        return Err(released.error);
      }
    }
    r := Ok((reserved, refund));
  }
}
