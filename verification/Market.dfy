/** The public order book, rebuilt only from journal records. */
module Market {
  import opened Prelude
  import opened Amount
  import opened Types
  import opened Balances
  import opened Submission
  import opened Core
  import opened Journal

  /** What the public side keeps of a resting order. */
  datatype RestingView = RestingView(pair: Pair, buy: bool, price: int, remaining: int)

  /** Quantity per price on each side, and the sequence of the pair's last snapshot. */
  datatype Depth = Depth(bids: map<int, int>, asks: map<int, int>, sequence: nat)

  const NO_DEPTH: Depth := Depth(map[], map[], 0)
  const SHOWN_LEVELS: nat := 20

  datatype MarketTrade = MarketTrade(sequence: nat, index: nat, price: int, amount: int, side: Side)

  datatype Snapshot = Snapshot(
    sequence: nat, previous: nat, pair: Pair, bids: seq<(int, int)>, asks: seq<(int, int)>, trades: seq<MarketTrade>)

  datatype Projection = Projection(orders: map<nat, RestingView>, depths: map<Pair, Depth>, latest: map<Pair, Snapshot>)

  const EMPTY_PROJECTION: Projection := Projection(map[], map[], map[])

  function DepthAt(j: Projection, p: Pair): Depth {
    if p in j.depths then j.depths[p] else NO_DEPTH
  }

  /** Takes a quantity off one price level and drops the level when nothing is left. */
  function Lowered(levels: map<int, int>, price: int, quantity: int): map<int, int>
    requires price in levels
  {
    if levels[price] == quantity then levels - {price} else levels[price := levels[price] - quantity]
  }

  /** Why the projection could not follow a record. */
  datatype Followed<T> = Follows(value: T) | Lost

  function ReduceView(j: Projection, id: nat, quantity: int): Followed<Projection> {
    if id !in j.orders then Lost
    else
      var v := j.orders[id];
      match Subtract(v.remaining, quantity)
      case Err(_) => Lost
      case Ok(left) =>
        var depth := DepthAt(j, v.pair);
        var levels := if v.buy then depth.bids else depth.asks;
        if v.pair !in j.depths || v.price !in levels || levels[v.price] < quantity then Lost
        else
          var levels' := Lowered(levels, v.price, quantity);
          var depth' := if v.buy then depth.(bids := levels') else depth.(asks := levels');
          var orders' := if left == 0 then j.orders - {id} else j.orders[id := v.(remaining := left)];
          Follows(j.(orders := orders', depths := j.depths[v.pair := depth']))
  }

  function MakerOf(o: Order, t: Trade): nat {
    if o.side.Buy? then t.sellOrderId else t.buyOrderId
  }

  /** Reduces the makers of a submission's trades in order, and totals what the order filled. */
  function ReduceTrades(j: Projection, o: Order, outputs: seq<TradeOutput>, filled: int): Followed<(Projection, int)>
    decreases |outputs|
  {
    if outputs == [] then Follows((j, filled))
    else
      var t := outputs[0].trade;
      match ReduceView(j, MakerOf(o, t), t.amount)
      case Lost => Lost
      case Follows(j') =>
        match Add(filled, t.amount)
        case Err(_) => Lost
        case Ok(filled') => ReduceTrades(j', o, outputs[1..], filled')
  }

  function Rest(j: Projection, o: Order, remaining: int): Followed<Projection> {
    var p := PairOf(o);
    var depth := DepthAt(j, p);
    var price := Price(o);
    var levels := if o.side.Buy? then depth.bids else depth.asks;
    var levels' := levels[price := At(levels, price) + remaining];
    var depth' := if o.side.Buy? then depth.(bids := levels') else depth.(asks := levels');
    if o.id in j.orders then Lost
    else Follows(j.(orders := j.orders[o.id := RestingView(p, o.side.Buy?, price, remaining)], depths := j.depths[p := depth']))
  }

  function FollowSubmission(j: Projection, o: Order, outputs: seq<TradeOutput>): Followed<Projection> {
    match ReduceTrades(j, o, outputs, 0)
    case Lost => Lost
    case Follows((j', filled)) =>
      if !o.kind.Limit? then Follows(j')
      else
        match Subtract(o.amount, filled)
        case Err(_) => Lost
        case Ok(remaining) => if remaining > 0 then Rest(j', o, remaining) else Follows(j')
  }

  /** The pair whose book a record may have changed. */
  function TouchedPair(r: Record): Option<Pair> {
    match (r.command, r.outcome)
    case (Submit(o), Applied(Some(Submitted(_, _, _)))) => Some(PairOf(o))
    case (_, Applied(Some(Cancelled(o)))) => Some(PairOf(o))
    case _ => None
  }

  function FollowBooks(j: Projection, r: Record): Followed<Projection> {
    match (r.command, r.outcome)
    case (Submit(o), Applied(Some(Submitted(_, outputs, _)))) => FollowSubmission(j, o, outputs)
    case (_, Applied(Some(Cancelled(o)))) => ReduceView(j, o.id, o.remaining)
    case _ => Follows(j)
  }

  // ---------------------------------------------------------------- snapshots

  /** The best levels of one side, best first. */
  ghost function Top(levels: map<int, int>, bids: bool, count: nat): seq<(int, int)>
    decreases count
  {
    if levels == map[] || count == 0 then []
    else
      assert exists p :: IsBest(levels.Keys, p, bids) by { var p := BestExists(levels.Keys, bids); }
      var p :| IsBest(levels.Keys, p, bids);
      [(p, levels[p])] + Top(levels - {p}, bids, count - 1)
  }

  function PublicTrades(o: Order, outputs: seq<TradeOutput>, sequence: nat): seq<MarketTrade> {
    seq(|outputs|, i requires 0 <= i < |outputs| =>
      MarketTrade(sequence, i, outputs[i].trade.price, outputs[i].trade.amount, o.side))
  }

  function TradesOf(r: Record): seq<MarketTrade> {
    match (r.command, r.outcome)
    case (Submit(o), Applied(Some(Submitted(_, outputs, _)))) => PublicTrades(o, outputs, r.sequence)
    case _ => []
  }

  ghost function SnapshotOf(j: Projection, p: Pair, r: Record): Snapshot {
    var depth := DepthAt(j, p);
    Snapshot(r.sequence, depth.sequence, p, Top(depth.bids, true, SHOWN_LEVELS), Top(depth.asks, false, SHOWN_LEVELS), TradesOf(r))
  }

  /** Follows one record and, when a pair was touched, publishes its full snapshot. */
  ghost function Project(j: Projection, r: Record): Followed<(Projection, Option<Snapshot>)> {
    match FollowBooks(j, r)
    case Lost => Lost
    case Follows(j') =>
      match TouchedPair(r)
      case None => Follows((j', None))
      case Some(p) =>
        var s := SnapshotOf(j', p, r);
        Follows((j'.(depths := j'.depths[p := DepthAt(j', p).(sequence := r.sequence)], latest := j'.latest[p := s]), Some(s)))
  }
}
