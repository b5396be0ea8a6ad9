/** What each published snapshot shows, over every journal: the best prices of each side and the trades just made. */
module SnapshotLaws {
  import opened Prelude
  import opened Amount
  import opened Types
  import opened Matcher
  import opened MatchingLaws
  import opened Submission
  import opened SubmissionLaws
  import opened Core
  import opened CoreLaws
  import opened Journal
  import opened Market
  import opened MarketLaws
  import opened MarketProjection
  import opened MarketRuns

  /** The prices at which something rests. */
  function Prices(queue: seq<Order>): set<int> {
    set o | o in queue :: Price(o)
  }

  /**
   The best prices of a side, best first, each with the sum of what rests there: all of them, or the first twenty.
   Any price left out is worse than every price shown.
  */
  ghost predicate ShowsSide(levels: seq<(int, int)>, queue: seq<Order>, bids: bool) {
    && |levels| == Min(20, |Prices(queue)|)
    && (forall i :: 0 <= i < |levels| ==> levels[i].0 in Prices(queue) && levels[i].1 == LevelSum(queue, levels[i].0))
    && (forall i, j :: 0 <= i < j < |levels| ==> if bids then levels[i].0 > levels[j].0 else levels[i].0 < levels[j].0)
    && (forall o, i :: o in queue && !Shown(levels, Price(o)) && 0 <= i < |levels| ==>
          if bids then levels[i].0 > Price(o) else levels[i].0 < Price(o))
  }

  function FirstPrices(levels: seq<(int, int)>): set<int> {
    set i | 0 <= i < |levels| :: levels[i].0
  }

  lemma {:induction false} DistinctPrices(levels: seq<(int, int)>)
    requires forall i, j :: 0 <= i < j < |levels| ==> levels[i].0 != levels[j].0
    ensures |FirstPrices(levels)| == |levels|
  {
    if levels != [] {
      var n := |levels| - 1;
      DistinctPrices(levels[..n]);
      assert FirstPrices(levels) == FirstPrices(levels[..n]) + {levels[n].0};
      assert levels[n].0 !in FirstPrices(levels[..n]);
    }
  }

  lemma Smaller<T>(a: set<T>, b: set<T>)
    requires a <= b
    ensures |a| <= |b|
  {
    assert b == a + (b - a);
  }

  lemma LevelsAre(levels: map<int, int>, queue: seq<Order>)
    requires ShowsLevels(levels, queue) && forall o :: o in queue ==> o.remaining > 0
    ensures levels.Keys == Prices(queue) && forall price :: price in levels ==> levels[price] == LevelSum(queue, price)
  {
    forall price: int
      ensures price in levels <==> exists o :: o in queue && Price(o) == price
      ensures price in levels ==> levels[price] == LevelSum(queue, price)
    {
      LevelIsOccupied(queue, price);
      assert At(levels, price) == LevelSum(queue, price);
    }
    hide ShowsLevels;
    hide LevelSum;
    assert forall price :: price in levels.Keys <==> price in Prices(queue);
  }

  lemma ShownCount(top: seq<(int, int)>, levels: map<int, int>, bids: bool)
    requires ShowsBest(top, levels, bids) && |top| <= 20
    requires |top| < 20 ==> forall p :: p in levels ==> Shown(top, p)
    ensures |top| == Min(20, |levels.Keys|)
  {
    DistinctPrices(top);
    assert FirstPrices(top) <= levels.Keys;
    Smaller(FirstPrices(top), levels.Keys);
    if |top| < 20 {
      forall price | price in levels.Keys ensures price in FirstPrices(top) {
        assert Shown(top, price);
      }
      assert FirstPrices(top) == levels.Keys;
    }
  }

  /** Where levels are the sums of a side, the best of them are what the side offers. */
  lemma TopShowsSide(levels: map<int, int>, queue: seq<Order>, bids: bool)
    requires ShowsLevels(levels, queue) && forall o :: o in queue ==> o.remaining > 0
    ensures ShowsSide(Top(levels, bids, SHOWN_LEVELS), queue, bids)
  {
    TopMeans(levels, bids, SHOWN_LEVELS);
    var top := Top(levels, bids, SHOWN_LEVELS);
    LevelsAre(levels, queue);
    ShownCount(top, levels, bids);
    hide Top;
    hide ShowsLevels;
    hide LevelSum;
    hide Shown;
    forall o, i | o in queue && !Shown(top, Price(o)) && 0 <= i < |top|
      ensures if bids then top[i].0 > Price(o) else top[i].0 < Price(o)
    {
      assert Price(o) in Prices(queue);
      assert AllBetter(top, Price(o), bids);
    }
  }

  // ---------------------------------------------------------------- the trades

  /** The recorded trades in order, as price and amount, on the side of the order that came in. */
  ghost predicate ShowsTrades(trades: seq<MarketTrade>, side: Side, outputs: seq<TradeOutput>, sequence: nat) {
    |trades| == |outputs| && forall i :: 0 <= i < |trades| ==>
      trades[i] == MarketTrade(sequence, i, outputs[i].trade.price, outputs[i].trade.amount, side)
  }

  /** What a record has for the public: the trades of an accepted order, or none for a cancel. */
  ghost predicate ShowsRecord(s: Snapshot, command: Command, outcome: Outcome) {
    match outcome
    case Applied(Some(Submitted(_, outputs, _))) =>
      command.Submit? && s.pair == Pair(command.order.base, command.order.quote)
      && ShowsTrades(s.trades, command.order.side, outputs, s.sequence)
    case Applied(Some(Cancelled(o))) => s.pair == Pair(o.base, o.quote) && s.trades == []
    case _ => false
  }

  predicate ChangesABook(outcome: Outcome) {
    outcome.Applied? && outcome.output.Some? && (outcome.output.value.Submitted? || outcome.output.value.Cancelled?)
  }

  lemma OnlySubmitsAreSubmitted(c: Core, command: Command)
    ensures var outcome := Apply(c, command).1;
      outcome.Applied? && outcome.output.Some? && outcome.output.value.Submitted? ==> command.Submit?
  {
    hide ApplySubmit;
    if !command.Submit? && !command.Cancel? {
      AccountOutcome(c, command);
      hide Apply;
    }
    hide CancelOrder;
  }

  // ---------------------------------------------------------------- over every journal

  lemma ReductionKeepsLatest(j: Projection, id: nat, quantity: int)
    requires ReduceView(j, id, quantity).Follows?
    ensures ReduceView(j, id, quantity).value.latest == j.latest
  {
    hide Subtract;
    hide Lowered;
  }

  lemma {:induction false} TradesKeepLatest(j: Projection, o: Order, outputs: seq<TradeOutput>, filled: int)
    requires ReduceTrades(j, o, outputs, filled).Follows?
    ensures ReduceTrades(j, o, outputs, filled).value.0.latest == j.latest
    decreases |outputs|
  {
    hide ReduceView;
    hide Add;
    if outputs != [] {
      var t := outputs[0].trade;
      ReductionKeepsLatest(j, MakerOf(o, t), t.amount);
      TradesKeepLatest(ReduceView(j, MakerOf(o, t), t.amount).value, o, outputs[1..], Add(filled, t.amount).value);
    }
  }

  lemma FollowKeepsLatest(j: Projection, r: Record)
    requires FollowBooks(j, r).Follows?
    ensures FollowBooks(j, r).value.latest == j.latest
  {
    hide ReduceTrades;
    hide ReduceView;
    hide Subtract;
    match (r.command, r.outcome)
    case (Submit(o), Applied(Some(Submitted(_, outputs, _)))) => TradesKeepLatest(j, o, outputs, 0);
    case (_, Applied(Some(Cancelled(o)))) => ReductionKeepsLatest(j, o.id, o.remaining);
    case _ =>
  }

  lemma OtherwiseBooksStay(c: Core, command: Command)
    requires Inv(c) && !ChangesABook(Apply(c, command).1)
    ensures Next(c, command).books == c.books
  {
    hide Execute;
    hide Outputs;
    hide CancelOrder;
    if !command.Submit? && !command.Cancel? {
      AccountStepKeepsInv(c, command);
      hide Apply;
    }
    hide Inv;
  }

  lemma RestingIsPositive(c: Core, p: Pair)
    requires Inv(c)
    ensures forall o :: o in BookAt(c, p).buys || o in BookAt(c, p).sells ==> o.remaining > 0
  {
    InvIsOwned(c);
    hide Inv;
    hide Distinct;
    hide Continues;
  }

  lemma SnapshotShows(c: Core, j: Projection, p: Pair, r: Record)
    requires Inv(c) && Shows(j, c.books, c.submissions)
    ensures var s := SnapshotOf(j, p, r);
      ShowsSide(s.bids, BookAt(c, p).buys, true) && ShowsSide(s.asks, BookAt(c, p).sells, false)
  {
    RestingIsPositive(c, p);
    SideIsShown(j.depths, c.books, p, true);
    SideIsShown(j.depths, c.books, p, false);
    hide Inv;
    hide ShowsOrders;
    hide ShowsDepths;
    hide ShowsLevels;
    hide ShowsSide;
    var depth, b := DepthAt(j, p), BookAt(c, p);
    assert SideQueue(c.books, p, true) == b.buys && SideQueue(c.books, p, false) == b.sells;
    TopShowsSide(depth.bids, b.buys, true);
    TopShowsSide(depth.asks, b.sells, false);
    hide Top;
  }

  lemma SnapshotIsOf(c: Core, j: Projection, command: Command, n: nat)
    requires TouchedPair(Record(n, command, Apply(c, command).1)).Some?
    ensures var outcome := Apply(c, command).1; var r := Record(n, command, outcome);
      var s := SnapshotOf(j, TouchedPair(r).value, r);
      s.sequence == n && s.pair == TouchedPair(r).value && ShowsRecord(s, command, outcome)
  {
    OnlySubmitsAreSubmitted(c, command);
    hide Apply;
    hide Top;
  }

  lemma TouchesWhenChanged(c: Core, command: Command, n: nat)
    ensures TouchedPair(Record(n, command, Apply(c, command).1)).Some? <==> ChangesABook(Apply(c, command).1)
  {
    OnlySubmitsAreSubmitted(c, command);
    hide Apply;
  }

  /** The snapshot of one record, from a projection that shows the books before it. */
  lemma StepSnapshot(c: Core, j: Projection, command: Command, n: nat)
    requires Inv(c) && Shows(j, c.books, c.submissions)
    ensures var (c', outcome) := Apply(c, command); var r := Project(j, Record(n, command, outcome));
      && r.Follows? && (r.value.1.Some? <==> ChangesABook(outcome))
      && match r.value.1
         case None => c'.books == c.books && r.value.0.latest == j.latest
         case Some(s) =>
           && s.sequence == n && ShowsRecord(s, command, outcome)
           && ShowsSide(s.bids, BookAt(c', s.pair).buys, true) && ShowsSide(s.asks, BookAt(c', s.pair).sells, false)
           && r.value.0.latest == j.latest[s.pair := s]
  {
    StepIsFollowed(c, j, command, n);
    StepKeepsInv(c, command);
    TouchesWhenChanged(c, command, n);
    var (c', outcome) := Apply(c, command);
    var r := Record(n, command, outcome);
    var j' := FollowBooks(j, r).value;
    FollowKeepsLatest(j, r);
    if TouchedPair(r).Some? {
      SnapshotShows(c', j', TouchedPair(r).value, r);
      SnapshotIsOf(c, j', command, n);
    } else {
      OtherwiseBooksStay(c, command);
    }
    hide Apply;
    hide Inv;
    hide Shows;
    hide FollowBooks;
    hide TouchedPair;
    hide SnapshotOf;
    hide ShowsSide;
    hide ShowsRecord;
    hide ChangesABook;
  }

  /**
   Over every journal from a genesis: a snapshot is published exactly with the records that change a book. It names that
   book's pair, shows the best prices of the bids and of the asks of the book after the record, each with all that
   rests there, and the record's trades; and it becomes the pair's latest.
  */
  lemma SnapshotsShowTheBook(genesis: Core, commands: seq<Command>, command: Command)
    requires IsGenesis(genesis)
    ensures var c := Run(genesis, commands); var (c', outcome) := Apply(c, command);
      var before := ProjectAll(EMPTY_PROJECTION, Records(genesis, commands, 1));
      && before.Follows?
      && var r := Project(before.value, Record(|commands| + 1, command, outcome));
      && r.Follows? && (r.value.1.Some? <==> ChangesABook(outcome))
      && match r.value.1
         case None => c'.books == c.books && r.value.0.latest == before.value.latest
         case Some(s) =>
           && s.sequence == |commands| + 1 && ShowsRecord(s, command, outcome)
           && ShowsSide(s.bids, BookAt(c', s.pair).buys, true) && ShowsSide(s.asks, BookAt(c', s.pair).sells, false)
           && r.value.0.latest == before.value.latest[s.pair := s]
  {
    ProjectionFollowsEveryRun(genesis, commands);
    GenesisInv(genesis);
    RunKeepsInv(genesis, commands);
    StepSnapshot(Run(genesis, commands), ProjectAll(EMPTY_PROJECTION, Records(genesis, commands, 1)).value, command, |commands| + 1);
    hide Run;
    hide Apply;
    hide Inv;
    hide Shows;
    hide Project;
    hide ProjectAll;
    hide ShowsSide;
    hide ShowsRecord;
    hide ChangesABook;
  }
}
