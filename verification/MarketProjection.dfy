/** The public order book as the output worker keeps it: maps updated in place, record by record. */
module MarketProjection {
  import opened Prelude
  import opened Amount
  import opened Types
  import opened Submission
  import opened Core
  import opened Journal
  import opened Market

  lemma {:induction false} TopStep(levels: map<int, int>, bids: bool, count: nat, best: int)
    requires levels != map[] && count > 0 && IsBest(levels.Keys, best, bids)
    ensures Top(levels, bids, count) == [(best, levels[best])] + Top(levels - {best}, bids, count - 1)
  {
  }

  lemma BestLevel(levels: map<int, int>, bids: bool) returns (best: int)
    requires levels != map[]
    ensures IsBest(levels.Keys, best, bids)
  {
    assert |levels.Keys| == |levels| > 0;
    best := BestExists(levels.Keys, bids);
  }

  predicate Better(p: int, q: int, bids: bool) {
    if bids then p > q else p < q
  }

  ghost predicate Shown(top: seq<(int, int)>, p: int) {
    exists i :: 0 <= i < |top| && top[i].0 == p
  }

  /** Every level shown is better than this price. */
  ghost predicate AllBetter(top: seq<(int, int)>, p: int, bids: bool) {
    forall i :: 0 <= i < |top| ==> Better(top[i].0, p, bids)
  }

  /** These are distinct levels, strictly best first, and better than every level left out. */
  ghost predicate ShowsBest(top: seq<(int, int)>, levels: map<int, int>, bids: bool) {
    && (forall i :: 0 <= i < |top| ==> top[i].0 in levels && top[i].1 == levels[top[i].0])
    && (forall i, j :: 0 <= i < j < |top| ==> Better(top[i].0, top[j].0, bids))
    && (forall p :: p in levels && !Shown(top, p) ==> AllBetter(top, p, bids))
  }

  lemma ShowsBestCons(best: int, rest: seq<(int, int)>, levels: map<int, int>, bids: bool)
    requires IsBest(levels.Keys, best, bids) && ShowsBest(rest, levels - {best}, bids)
    ensures ShowsBest([(best, levels[best])] + rest, levels, bids)
  {
    var top := [(best, levels[best])] + rest;
    forall i, j | 0 <= i < j < |top| ensures Better(top[i].0, top[j].0, bids) {
      assert top[j] == rest[j - 1];
      if i > 0 {
        assert top[i] == rest[i - 1];
      }
    }
    forall p | p in levels && !Shown(top, p) ensures AllBetter(top, p, bids) {
      assert top[0].0 != p;
      LeftOut(best, rest, top, p, bids);
    }
  }

  lemma LeftOut(best: int, rest: seq<(int, int)>, top: seq<(int, int)>, p: int, bids: bool)
    requires |top| == |rest| + 1 && top[0].0 == best && top[1..] == rest
    requires Better(best, p, bids) && (Shown(rest, p) || AllBetter(rest, p, bids))
    ensures Shown(top, p) || AllBetter(top, p, bids)
  {
    if Shown(rest, p) {
      var i :| 0 <= i < |rest| && rest[i].0 == p;
      assert top[i + 1].0 == p;
    } else {
      forall i | 0 <= i < |top| ensures Better(top[i].0, p, bids) {
        if i > 0 {
          assert top[i] == rest[i - 1];
        }
      }
    }
  }

  /** What a snapshot shows of one side: as many of the best levels as there are, up to the count. */
  lemma {:induction false} TopMeans(levels: map<int, int>, bids: bool, count: nat)
    ensures ShowsBest(Top(levels, bids, count), levels, bids) && |Top(levels, bids, count)| <= count
    ensures |Top(levels, bids, count)| < count ==> forall p :: p in levels ==> Shown(Top(levels, bids, count), p)
    decreases count
  {
    hide ShowsBest;
    if levels == map[] {
      assert ShowsBest([], levels, bids) by { ShowsNothing(levels, bids); }
    } else if count == 0 {
      assert ShowsBest([], levels, bids) by { ShowsNothing(levels, bids); }
    } else {
      var best := BestLevel(levels, bids);
      TopStep(levels, bids, count, best);
      TopMeans(levels - {best}, bids, count - 1);
      var rest, top := Top(levels - {best}, bids, count - 1), Top(levels, bids, count);
      ShowsBestCons(best, rest, levels, bids);
      hide Top;
      forall p | |top| < count && p in levels ensures Shown(top, p) {
        if p == best {
          assert top[0].0 == p;
        } else {
          assert p in levels - {best};
          var i :| 0 <= i < |rest| && rest[i].0 == p;
          assert top[i + 1].0 == p;
        }
      }
    }
  }

  lemma ShowsNothing(levels: map<int, int>, bids: bool)
    ensures ShowsBest([], levels, bids)
  {
  }

  /** The best levels of one side in order, at most as many as asked for. */
  method TopLevels(levels: map<int, int>, bids: bool, count: nat) returns (top: seq<(int, int)>)
    ensures top == Top(levels, bids, count)
  {
    top := [];
    var left, more := levels, count;
    while left != map[] && more > 0
      invariant top + Top(left, bids, more) == Top(levels, bids, count)
      decreases more
    {
      assert left.Keys != {} by { var k :| k in left; assert k in left.Keys; }
      var best := BestPrice(left.Keys, bids);
      TopStep(left, bids, more, best);
      hide Top;
      top := top + [(best, left[best])];
      left, more := left - {best}, more - 1;
    }
  }

  class MarketView {
    var orders: map<nat, RestingView>
    var depths: map<Pair, Depth>
    var latest: map<Pair, Snapshot>

    /** The projection this stands for. */
    function View(): Projection
      reads this
    {
      Projection(orders, depths, latest)
    }

    constructor ()
      ensures View() == EMPTY_PROJECTION
    {
      orders, depths, latest := map[], map[], map[];
    }

    /** Takes a quantity off a resting order and off its price level, dropping either when nothing is left. */
    method Reduce(id: nat, quantity: int) returns (ok: bool)
      modifies this`orders, this`depths
      ensures ok == ReduceView(old(View()), id, quantity).Follows?
      ensures ok ==> View() == ReduceView(old(View()), id, quantity).value
    {
      hide Subtract;
      if id !in orders {
        return false;
      }
      var v := orders[id];
      var left := Subtract(v.remaining, quantity);
      if left.Err? {
        return false;
      }
      if v.pair !in depths {
        return false;
      }
      var depth := depths[v.pair];
      var levels := if v.buy then depth.bids else depth.asks;
      if v.price !in levels || levels[v.price] < quantity {
        return false;
      }
      levels := levels[v.price := levels[v.price] - quantity];
      if levels[v.price] == 0 {
        levels := levels - {v.price};
      }
      LoweredIs(if v.buy then depth.bids else depth.asks, v.price, quantity, levels);
      depths := depths[v.pair := if v.buy then depth.(bids := levels) else depth.(asks := levels)];
      orders := if left.value == 0 then orders - {id} else orders[id := v.(remaining := left.value)];
      ok := true;
    }

    /** Reduces the makers of a submission's trades in turn and totals what the order filled. */
    method ReduceMakers(o: Order, outputs: seq<TradeOutput>) returns (ok: bool, filled: int)
      modifies this`orders, this`depths
      ensures ok == ReduceTrades(old(View()), o, outputs, 0).Follows?
      ensures ok ==> ReduceTrades(old(View()), o, outputs, 0).value == (View(), filled)
    {
      hide ReduceView;
      hide Add;
      filled := 0;
      var index := 0;
      assert outputs[0..] == outputs;
      while index < |outputs|
        invariant index <= |outputs|
        invariant ReduceTrades(View(), o, outputs[index..], filled) == ReduceTrades(old(View()), o, outputs, 0)
      {
        var t := outputs[index].trade;
        assert outputs[index..][0].trade == t && outputs[index..][1..] == outputs[index + 1..];
        ok := Reduce(if o.side.Buy? then t.sellOrderId else t.buyOrderId, t.amount);
        if !ok {
          return false, filled;
        }
        var total := Add(filled, t.amount);
        if total.Err? {
          return false, filled;
        }
        filled := total.value;
        index := index + 1;
      }
      ok := true;
    }

    /** Adds what rests of an accepted limit order. */
    method AddResting(o: Order, remaining: int) returns (ok: bool)
      modifies this`orders, this`depths
      ensures ok == Rest(old(View()), o, remaining).Follows?
      ensures ok ==> View() == Rest(old(View()), o, remaining).value
    {
      var pair, price := PairOf(o), Price(o);
      var depth := if pair in depths then depths[pair] else NO_DEPTH;
      var levels := if o.side.Buy? then depth.bids else depth.asks;
      var level := if price in levels then levels[price] else 0;
      levels := levels[price := level + remaining];
      depths := depths[pair := if o.side.Buy? then depth.(bids := levels) else depth.(asks := levels)];
      if o.id in orders {
        return false;
      }
      orders := orders[o.id := RestingView(pair, o.side.Buy?, price, remaining)];
      ok := true;
    }

    method Submission(o: Order, outputs: seq<TradeOutput>) returns (ok: bool)
      modifies this`orders, this`depths
      ensures ok == FollowSubmission(old(View()), o, outputs).Follows?
      ensures ok ==> View() == FollowSubmission(old(View()), o, outputs).value
    {
      hide ReduceTrades;
      hide Rest;
      hide Subtract;
      var filled: int;
      ok, filled := ReduceMakers(o, outputs);
      if ok && o.kind.Limit? {
        var remaining := Subtract(o.amount, filled);
        if remaining.Err? {
          return false;
        }
        if remaining.value > 0 {
          ok := AddResting(o, remaining.value);
        }
      }
    }

    method FollowOrders(r: Record) returns (ok: bool)
      modifies this`orders, this`depths
      ensures ok == FollowBooks(old(View()), r).Follows?
      ensures ok ==> View() == FollowBooks(old(View()), r).value
    {
      hide FollowSubmission;
      hide ReduceView;
      match r.outcome {
        case Applied(Some(Submitted(_, outputs, _))) =>
          if r.command.Submit? {
            ok := Submission(r.command.order, outputs);
          } else {
            ok := true;
          }
        case Applied(Some(Cancelled(o))) =>
          ok := Reduce(o.id, o.remaining);
        case _ =>
          ok := true;
      }
    }

    /** Follows one record and, when it touched a pair, keeps and returns the pair's full snapshot. */
    method Apply(r: Record) returns (ok: bool, snapshot: Option<Snapshot>)
      modifies this
      ensures ok == Project(old(View()), r).Follows?
      ensures ok ==> Project(old(View()), r).value == (View(), snapshot)
    {
      hide FollowBooks;
      hide TouchedPair;
      hide Top;
      ok := FollowOrders(r);
      snapshot := None;
      if !ok {
        return;
      }
      match TouchedPair(r) {
        case None =>
        case Some(p) =>
          var depth := if p in depths then depths[p] else NO_DEPTH;
          var bids := TopLevels(depth.bids, true, SHOWN_LEVELS);
          var asks := TopLevels(depth.asks, false, SHOWN_LEVELS);
          var s := Snapshot(r.sequence, depth.sequence, p, bids, asks, TradesOf(r));
          depths := depths[p := depth.(sequence := r.sequence)];
          latest := latest[p := s];
          snapshot := Some(s);
      }
    }
  }

  lemma LoweredIs(levels: map<int, int>, price: int, quantity: int, levels': map<int, int>)
    requires price in levels
    requires levels' == if levels[price] == quantity then levels[price := 0] - {price} else levels[price := levels[price] - quantity]
    ensures levels' == Lowered(levels, price, quantity)
  {
    assert levels[price := 0] - {price} == levels - {price};
  }
}
