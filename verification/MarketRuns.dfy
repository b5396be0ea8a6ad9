/** The projection over whole journals: it follows every run and its snapshots form an unbroken chain per pair. */
module MarketRuns {
  import opened Prelude
  import opened Amount
  import opened Types
  import opened Submission
  import opened MatchingLaws
  import opened Core
  import opened CoreLaws
  import opened Journal
  import opened Market
  import opened MarketLaws

  ghost function ProjectAll(j: Projection, records: seq<Record>): Followed<Projection>
    decreases |records|
  {
    if records == [] then Follows(j)
    else
      match Project(j, records[0])
      case Lost => Lost
      case Follows((j', _)) => ProjectAll(j', records[1..])
  }

  // ---------------------------------------------------------------- the projection never errors

  lemma SequenceKeepsShows(j: Projection, books: map<Pair, Book>, subs: map<nat, Order>, p: Pair, n: nat, latest: map<Pair, Snapshot>)
    requires Shows(j, books, subs)
    ensures Shows(j.(depths := j.depths[p := DepthAt(j, p).(sequence := n)], latest := latest), books, subs)
  {
    hide ShowsLevels;
    hide ShowsOrders;
    var depths' := j.depths[p := DepthAt(j, p).(sequence := n)];
    forall q: Pair ensures
      ShowsLevels((if q in depths' then depths'[q] else NO_DEPTH).bids, SideQueue(books, q, true))
      && ShowsLevels((if q in depths' then depths'[q] else NO_DEPTH).asks, SideQueue(books, q, false))
    {
      assert ShowsLevels((if q in j.depths then j.depths[q] else NO_DEPTH).bids, SideQueue(books, q, true));
    }
  }

  lemma StepIsProjected(c: Core, j: Projection, command: Command, n: nat)
    requires Inv(c) && Shows(j, c.books, c.submissions)
    ensures var (c', outcome) := Apply(c, command); var r := Project(j, Record(n, command, outcome));
      r.Follows? && Shows(r.value.0, c'.books, c'.submissions)
  {
    hide Shows;
    hide Inv;
    hide FollowBooks;
    hide Apply;
    StepIsFollowed(c, j, command, n);
    var (c', outcome) := Apply(c, command);
    var r := Record(n, command, outcome);
    var j' := FollowBooks(j, r).value;
    if TouchedPair(r).Some? {
      var p := TouchedPair(r).value;
      SequenceKeepsShows(j', c'.books, c'.submissions, p, n, j'.latest[p := SnapshotOf(j', p, r)]);
    }
  }

  lemma {:induction false} RunIsProjected(c: Core, j: Projection, commands: seq<Command>, first: nat)
    requires Inv(c) && Shows(j, c.books, c.submissions)
    ensures var r := ProjectAll(j, Records(c, commands, first)); var c' := Run(c, commands);
      r.Follows? && Shows(r.value, c'.books, c'.submissions)
    decreases |commands|
  {
    hide Shows;
    hide Inv;
    hide Apply;
    hide Project;
    if commands != [] {
      StepIsProjected(c, j, commands[0], first);
      StepKeepsInv(c, commands[0]);
      var r := Record(first, commands[0], Apply(c, commands[0]).1);
      var rest := Records(Next(c, commands[0]), commands[1..], first + 1);
      assert ([r] + rest)[1..] == rest;
      RunIsProjected(Next(c, commands[0]), Project(j, r).value.0, commands[1..], first + 1);
    }
  }

  lemma NothingShown()
    ensures Shows(EMPTY_PROJECTION, map[], map[])
  {
  }

  /** On every journal the core can write, the projection never errors and shows exactly the core's books. */
  lemma ProjectionFollowsEveryRun(genesis: Core, commands: seq<Command>)
    requires IsGenesis(genesis)
    ensures var r := ProjectAll(EMPTY_PROJECTION, Records(genesis, commands, 1)); var c := Run(genesis, commands);
      r.Follows? && Shows(r.value, c.books, c.submissions)
  {
    GenesisInv(genesis);
    NothingShown();
    hide Shows;
    hide Inv;
    RunIsProjected(genesis, EMPTY_PROJECTION, commands, 1);
  }

  /** What showing means to a reader: every price level is the sum of the resting remainders, and nothing else is listed. */
  lemma PublicDepthIsCoreDepth(genesis: Core, commands: seq<Command>, p: Pair, price: int)
    requires IsGenesis(genesis)
    ensures var r := ProjectAll(EMPTY_PROJECTION, Records(genesis, commands, 1)); var b := BookAt(Run(genesis, commands), p);
      && r.Follows?
      && At(DepthAt(r.value, p).bids, price) == LevelSum(b.buys, price) && At(DepthAt(r.value, p).asks, price) == LevelSum(b.sells, price)
      && (price in DepthAt(r.value, p).bids <==> exists o :: o in b.buys && Price(o) == price)
      && (price in DepthAt(r.value, p).asks <==> exists o :: o in b.sells && Price(o) == price)
  {
    ProjectionFollowsEveryRun(genesis, commands);
    GenesisInv(genesis);
    RunKeepsInv(genesis, commands);
    var c := Run(genesis, commands);
    var j := ProjectAll(EMPTY_PROJECTION, Records(genesis, commands, 1)).value;
    InvIsOwned(c);
    hide Inv;
    hide Run;
    hide ProjectAll;
    SideIsShown(j.depths, c.books, p, true);
    SideIsShown(j.depths, c.books, p, false);
    var b := BookAt(c, p);
    assert SideQueue(c.books, p, true) == b.buys && SideQueue(c.books, p, false) == b.sells;
    hide Distinct;
    LevelIsOccupied(b.buys, price);
    LevelIsOccupied(b.sells, price);
  }

  lemma {:induction false} LevelIsOccupied(queue: seq<Order>, price: int)
    requires forall o :: o in queue ==> o.remaining > 0
    ensures LevelSum(queue, price) >= 0 && (LevelSum(queue, price) > 0 <==> exists o :: o in queue && Price(o) == price)
  {
    if queue != [] {
      assert queue[0] in queue;
      LevelIsOccupied(queue[1..], price);
      assert forall o :: o in queue <==> o == queue[0] || o in queue[1..];
    }
  }

  // ---------------------------------------------------------------- snapshots form a chain

  /** The sequence of the last record that touched a pair, or the given default. */
  function LastTouch(records: seq<Record>, p: Pair, default: nat): nat
    decreases |records|
  {
    if records == [] then default
    else LastTouch(records[1..], p, if TouchedPair(records[0]) == Some(p) then records[0].sequence else default)
  }

  lemma ReduceKeepsSequence(j: Projection, id: nat, quantity: int, p: Pair)
    requires ReduceView(j, id, quantity).Follows?
    ensures DepthAt(ReduceView(j, id, quantity).value, p).sequence == DepthAt(j, p).sequence
  {
    hide Subtract;
    hide Lowered;
  }

  lemma {:induction false} TradesKeepSequence(j: Projection, o: Order, outputs: seq<TradeOutput>, filled: int, p: Pair)
    requires ReduceTrades(j, o, outputs, filled).Follows?
    ensures DepthAt(ReduceTrades(j, o, outputs, filled).value.0, p).sequence == DepthAt(j, p).sequence
    decreases |outputs|
  {
    hide ReduceView;
    hide Add;
    if outputs != [] {
      var t := outputs[0].trade;
      ReduceKeepsSequence(j, MakerOf(o, t), t.amount, p);
      TradesKeepSequence(ReduceView(j, MakerOf(o, t), t.amount).value, o, outputs[1..], Add(filled, t.amount).value, p);
    }
  }

  lemma FollowKeepsSequence(j: Projection, r: Record, p: Pair)
    requires FollowBooks(j, r).Follows?
    ensures DepthAt(FollowBooks(j, r).value, p).sequence == DepthAt(j, p).sequence
  {
    hide ReduceTrades;
    hide ReduceView;
    hide Subtract;
    match (r.command, r.outcome)
    case (Submit(o), Applied(Some(Submitted(_, outputs, _)))) => TradesKeepSequence(j, o, outputs, 0, p);
    case (_, Applied(Some(Cancelled(o)))) => ReduceKeepsSequence(j, o.id, o.remaining, p);
    case _ =>
  }

  lemma ProjectSequence(j: Projection, r: Record, p: Pair)
    requires Project(j, r).Follows?
    ensures var (j', s) := Project(j, r).value;
      && DepthAt(j', p).sequence == (if TouchedPair(r) == Some(p) then r.sequence else DepthAt(j, p).sequence)
      && (s.Some? ==> TouchedPair(r) == Some(s.value.pair) && s.value.sequence == r.sequence
                      && s.value.previous == DepthAt(j, s.value.pair).sequence)
  {
    FollowKeepsSequence(j, r, p);
    if TouchedPair(r).Some? {
      FollowKeepsSequence(j, r, TouchedPair(r).value);
    }
    hide FollowBooks;
    hide Top;
  }

  lemma {:induction false} SequencesTrack(j: Projection, records: seq<Record>, p: Pair)
    requires ProjectAll(j, records).Follows?
    ensures DepthAt(ProjectAll(j, records).value, p).sequence == LastTouch(records, p, DepthAt(j, p).sequence)
    decreases |records|
  {
    hide Project;
    hide DepthAt;
    if records != [] {
      ProjectSequence(j, records[0], p);
      SequencesTrack(Project(j, records[0]).value.0, records[1..], p);
    }
  }

  /** Each snapshot names, as its predecessor, the pair's preceding snapshot (0 when there is none). */
  lemma SnapshotsFormAChain(earlier: seq<Record>, r: Record)
    requires ProjectAll(EMPTY_PROJECTION, earlier).Follows? && Project(ProjectAll(EMPTY_PROJECTION, earlier).value, r).Follows?
    ensures var s := Project(ProjectAll(EMPTY_PROJECTION, earlier).value, r).value.1;
      && (s.Some? <==> TouchedPair(r).Some?)
      && (s.Some? ==> s.value.sequence == r.sequence && TouchedPair(r) == Some(s.value.pair)
                      && s.value.previous == LastTouch(earlier, s.value.pair, 0))
  {
    var j := ProjectAll(EMPTY_PROJECTION, earlier).value;
    if TouchedPair(r).Some? {
      ProjectSequence(j, r, TouchedPair(r).value);
      SequencesTrack(EMPTY_PROJECTION, earlier, TouchedPair(r).value);
    }
    hide FollowBooks;
    hide ProjectAll;
    hide Top;
  }
}
