/** Price-time priority over whole runs: of two orders resting at one price, the one that arrived earlier stands first. */
module PriorityLaws {
  import opened Prelude
  import opened Amount
  import opened Types
  import opened Matcher
  import opened MatchingLaws
  import opened Balances
  import opened Submission
  import opened SubmissionLaws
  import opened Core
  import opened CoreLaws
  import opened Journal
  import opened MoneyLaws

  // ---------------------------------------------------------------- one queue

  /** The same order, filled further or not. */
  predicate Same(x: Order, y: Order) {
    x.id == y.id && Price(x) == Price(y)
  }

  ghost predicate Rests(queue: seq<Order>, x: Order) {
    exists k :: 0 <= k < |queue| && Same(queue[k], x)
  }

  ghost predicate Precedes(queue: seq<Order>, x: Order, y: Order) {
    exists k, l :: 0 <= k < l < |queue| && Same(queue[k], x) && Same(queue[l], y)
  }

  /** Ids resting on a side were submitted before. */
  ghost predicate Known(queue: seq<Order>, submissions: map<nat, Order>) {
    forall i :: 0 <= i < |queue| ==> queue[i].id in submissions
  }

  /** Of two orders at one price, either both stood so before, or the later one has just been submitted. */
  ghost predicate KeepsTime(queue: seq<Order>, queue': seq<Order>, submissions: map<nat, Order>) {
    forall i, j :: 0 <= i < j < |queue'| && Price(queue'[i]) == Price(queue'[j]) ==>
      Precedes(queue, queue'[i], queue'[j]) || (queue'[i].id in submissions && queue'[j].id !in submissions)
  }

  /** Nothing is new and all that is left stands as before. */
  ghost predicate OnlyLeaves(queue: seq<Order>, queue': seq<Order>) {
    && (forall i :: 0 <= i < |queue'| ==> Rests(queue, queue'[i]))
    && forall i, j :: 0 <= i < j < |queue'| ==> Precedes(queue, queue'[i], queue'[j])
  }

  lemma SameQueueLeaves(queue: seq<Order>)
    ensures OnlyLeaves(queue, queue)
  {
    forall i | 0 <= i < |queue| ensures Rests(queue, queue[i]) {
      assert Same(queue[i], queue[i]);
    }
    forall i, j | 0 <= i < j < |queue| ensures Precedes(queue, queue[i], queue[j]) {
      assert Same(queue[i], queue[i]) && Same(queue[j], queue[j]);
    }
  }

  lemma TailLeaves(queue: seq<Order>, rest: seq<Order>)
    requires queue != [] && OnlyLeaves(queue[1..], rest)
    ensures OnlyLeaves(queue, rest)
  {
    hide Same;
    var tail := queue[1..];
    forall i | 0 <= i < |rest| ensures Rests(queue, rest[i]) {
      assert Rests(tail, rest[i]);
      var k :| 0 <= k < |tail| && Same(tail[k], rest[i]);
      assert tail[k] == queue[k + 1];
    }
    forall i, j | 0 <= i < j < |rest| ensures Precedes(queue, rest[i], rest[j]) {
      assert Precedes(tail, rest[i], rest[j]);
      var k, l :| 0 <= k < l < |tail| && Same(tail[k], rest[i]) && Same(tail[l], rest[j]);
      assert tail[k] == queue[k + 1] && tail[l] == queue[l + 1];
    }
  }

  lemma ConsLeaves(queue: seq<Order>, head: Order, rest: seq<Order>)
    requires queue != [] && Same(queue[0], head) && OnlyLeaves(queue[1..], rest)
    ensures OnlyLeaves(queue, [head] + rest)
  {
    var both, tail := [head] + rest, queue[1..];
    TailLeaves(queue, rest);
    forall i | 0 <= i < |both| ensures Rests(queue, both[i]) {
      if i > 0 {
        assert both[i] == rest[i - 1];
      }
    }
    forall i, j | 0 <= i < j < |both| ensures Precedes(queue, both[i], both[j]) {
      assert both[j] == rest[j - 1];
      if i == 0 {
        assert Rests(tail, rest[j - 1]);
        var l :| 0 <= l < |tail| && Same(tail[l], rest[j - 1]);
        assert Same(queue[0], both[i]) && Same(queue[l + 1], both[j]);
      } else {
        assert both[i] == rest[i - 1];
      }
    }
  }

  /** Matching takes makers out or reduces them, and never reorders them. */
  lemma {:induction false} WalkOnlyLeaves(t: Taker, queue: seq<Order>)
    requires Walk(t, queue).Ok?
    ensures OnlyLeaves(queue, Walk(t, queue).value.rest)
    decreases |queue|
  {
    hide Visit;
    hide OnlyLeaves;
    if Stops(t, queue) {
      SameQueueLeaves(queue);
    } else {
      VisitMeaning(t, queue[0]);
      hide Validate;
      hide Names;
      hide Quote;
      hide BudgetQuantity;
      match Visit(t, queue[0]).value
      case Skipped =>
        WalkOnlyLeaves(t, queue[1..]);
        ConsLeaves(queue, queue[0], Walk(t, queue[1..]).value.rest);
      case Filled(t', _, maker') =>
        WalkOnlyLeaves(t', queue[1..]);
        var rest := Walk(t', queue[1..]).value.rest;
        TailLeaves(queue, rest);
        ConsLeaves(queue, maker', rest);
    }
  }

  lemma RemovalOnlyLeaves(queue: seq<Order>, queue': seq<Order>, o: Order)
    requires LosesOnly(queue, queue', o)
    ensures OnlyLeaves(queue, queue')
  {
    var n :| 0 <= n < |queue| && queue[n] == o && queue' == queue[..n] + queue[n + 1..];
    forall i | 0 <= i < |queue'| ensures queue'[i] == queue[if i < n then i else i + 1] {
    }
    forall i | 0 <= i < |queue'| ensures Rests(queue, queue'[i]) {
      assert Same(queue[if i < n then i else i + 1], queue'[i]);
    }
    forall i, j | 0 <= i < j < |queue'| ensures Precedes(queue, queue'[i], queue'[j]) {
      assert Same(queue[if i < n then i else i + 1], queue'[i]) && Same(queue[if j < n then j else j + 1], queue'[j]);
    }
  }

  lemma LeavingKeepsTime(queue: seq<Order>, queue': seq<Order>, submissions: map<nat, Order>)
    requires OnlyLeaves(queue, queue')
    ensures KeepsTime(queue, queue', submissions)
  {
    hide Precedes;
    hide Rests;
  }

  /** A resting order goes behind everything of the same or a better price and before everything worse. */
  lemma {:induction false} InsertedAt(queue: seq<Order>, o: Order, side: Side) returns (n: nat)
    ensures n <= |queue| && Insert(queue, o, side) == queue[..n] + [o] + queue[n..]
    ensures forall i :: 0 <= i < n ==> Ahead(side, queue[i], o)
    ensures n < |queue| ==> !Ahead(side, queue[n], o)
  {
    hide Ahead;
    if queue == [] || !Ahead(side, queue[0], o) {
      n := 0;
    } else {
      var m := InsertedAt(queue[1..], o, side);
      n := m + 1;
      assert queue[1..][..m] == queue[1..n] && queue[1..][m..] == queue[n..];
      assert queue[..n] == [queue[0]] + queue[1..n];
      forall i | 0 <= i < n ensures Ahead(side, queue[i], o) {
        assert i > 0 ==> queue[i] == queue[1..][i - 1];
      }
    }
  }

  /** So a new order stands last in time at its price. */
  lemma InsertKeepsTime(queue: seq<Order>, o: Order, side: Side, submissions: map<nat, Order>)
    requires Ordered(side, queue) && Known(queue, submissions) && o.id !in submissions
    ensures KeepsTime(queue, Insert(queue, o, side), submissions)
  {
    var n := InsertedAt(queue, o, side);
    var queue' := Insert(queue, o, side);
    hide Insert;
    forall l | n <= l < |queue| ensures Price(queue[l]) != Price(o) {
      assert n < l ==> Ahead(side, queue[n], queue[l]);
    }
    assert queue'[n] == o && forall i :: 0 <= i < |queue'| && i != n ==> queue'[i] == queue[if i < n then i else i - 1];
    forall i, j | 0 <= i < j < |queue'| && Price(queue'[i]) == Price(queue'[j]) && i != n && j != n
      ensures Precedes(queue, queue'[i], queue'[j])
    {
      assert Same(queue[if i < n then i else i - 1], queue'[i]) && Same(queue[if j < n then j else j - 1], queue'[j]);
    }
  }

  // ---------------------------------------------------------------- one command

  ghost predicate BookKeepsTime(b: Book, b': Book, submissions: map<nat, Order>) {
    KeepsTime(b.buys, b'.buys, submissions) && KeepsTime(b.sells, b'.sells, submissions)
  }

  lemma SameBookKeepsTime(b: Book, submissions: map<nat, Order>)
    ensures BookKeepsTime(b, b, submissions)
  {
    SameQueueLeaves(b.buys);
    SameQueueLeaves(b.sells);
    LeavingKeepsTime(b.buys, b.buys, submissions);
    LeavingKeepsTime(b.sells, b.sells, submissions);
  }

  lemma AcceptedKeepsTime(o: Order, b: Book, accounts: Accounts, submissions: map<nat, Order>)
    requires BookOk(b, PairOf(o)) && Execute(o, b, accounts).Ok?
    requires Known(b.buys, submissions) && Known(b.sells, submissions) && o.id !in submissions
    ensures BookKeepsTime(b, Execute(o, b, accounts).value.book, submissions)
  {
    var queue := Opposite(o, b);
    var w := Plan(o, queue).value;
    PlanHasFacts(o, b);
    ValidIncoming(o);
    WalkOnlyLeaves(Start(o), queue);
    LeavingKeepsTime(queue, w.rest, submissions);
    SameBookKeepsTime(b, submissions);
    InsertKeepsTime(if o.side.Sell? then b.sells else b.buys, w.taker.order, o.side, submissions);
    hide Plan;
    hide Charge;
    hide Validate;
    hide KeepsTime;
    hide Known;
    hide Settles;
    hide Insert;
  }

  lemma RestingIsKnown(c: Core, p: Pair)
    requires Inv(c)
    ensures Known(BookAt(c, p).buys, c.submissions) && Known(BookAt(c, p).sells, c.submissions)
  {
    BookAtInv(c, p);
    var b := BookAt(c, p);
    hide BookOk;
    hide Continues;
    assert forall i :: 0 <= i < |b.buys| ==> b.buys[i] in b.buys;
    assert forall i :: 0 <= i < |b.sells| ==> b.sells[i] in b.sells;
  }

  /** No command reorders what rests at one price, on any side of any book. */
  lemma StepKeepsTime(c: Core, command: Command, p: Pair)
    requires Inv(c)
    ensures BookKeepsTime(BookAt(c, p), BookAt(Next(c, command), p), c.submissions)
  {
    SameBookKeepsTime(BookAt(c, p), c.submissions);
    match command
    case Submit(o) => SubmitKeepsTime(c, o, p);
    case Cancel(id, user, pair) => CancelKeepsTime(c, id, user, pair, p);
    case _ =>
      AccountStepKeepsInv(c, command);
      hide Apply;
      hide Inv;
      hide BookKeepsTime;
  }

  lemma SubmitKeepsTime(c: Core, o: Order, p: Pair)
    requires Inv(c)
    ensures BookKeepsTime(BookAt(c, p), BookAt(Next(c, Submit(o)), p), c.submissions)
  {
    SameBookKeepsTime(BookAt(c, p), c.submissions);
    var b := BookAt(c, PairOf(o));
    BookAtInv(c, PairOf(o));
    BookInvOk(b, PairOf(o), c.submissions);
    hide BookKeepsTime;
    hide BookOk;
    if o.id !in c.submissions && Execute(o, b, c.accounts).Ok? {
      RestingIsKnown(c, PairOf(o));
      hide Known;
      AcceptedKeepsTime(o, b, c.accounts, c.submissions);
    }
    hide Inv;
    hide BookInv;
    hide Execute;
  }

  lemma CancelKeepsTime(c: Core, id: nat, user: nat, pair: Pair, p: Pair)
    ensures BookKeepsTime(BookAt(c, p), BookAt(Next(c, Cancel(id, user, pair)), p), c.submissions)
  {
    SameBookKeepsTime(BookAt(c, p), c.submissions);
    match Apply(c, Cancel(id, user, pair)).1
    case Applied(Some(Cancelled(o))) =>
      CancelMoves(c, id, user, pair, o);
      hide Apply;
      hide GivesBack;
      hide Next;
      var b, b' := c.books[pair], Next(c, Cancel(id, user, pair)).books[pair];
      SameBookKeepsTime(b, c.submissions);
      hide KeepsTime;
      hide LosesOnly;
      if o.side.Buy? {
        RemovalOnlyLeaves(b.buys, b'.buys, o);
        LeavingKeepsTime(b.buys, b'.buys, c.submissions);
      } else {
        RemovalOnlyLeaves(b.sells, b'.sells, o);
        LeavingKeepsTime(b.sells, b'.sells, c.submissions);
      }
      hide OnlyLeaves;
    case _ =>
      hide CancelOrder;
      hide BookKeepsTime;
  }

  // ---------------------------------------------------------------- whole runs

  /** How many commands came before the first submission of this id. */
  function Arrival(commands: seq<Command>, id: nat): nat {
    if commands == [] then 0
    else if commands[0].Submit? && commands[0].order.id == id then 0
    else 1 + Arrival(commands[1..], id)
  }

  lemma {:induction false} ArrivalThen(commands: seq<Command>, x: Command, id: nat)
    ensures Arrival(commands, id) <= |commands|
    ensures Arrival(commands + [x], id) ==
      if Arrival(commands, id) < |commands| then Arrival(commands, id)
      else if x.Submit? && x.order.id == id then |commands| else |commands| + 1
  {
    if commands == [] {
      assert [] + [x] == [x] && [x][1..] == [];
    } else {
      TailOfJoin(commands, [x]);
      ArrivalThen(commands[1..], x, id);
    }
  }

  /** What rests at one price stands in the order of arrival. */
  ghost predicate InTime(queue: seq<Order>, commands: seq<Command>) {
    forall i, j :: 0 <= i < j < |queue| && Price(queue[i]) == Price(queue[j]) ==>
      Arrival(commands, queue[i].id) < Arrival(commands, queue[j].id)
  }

  ghost predicate AllInTime(c: Core, commands: seq<Command>) {
    && (forall p: Pair :: InTime(BookAt(c, p).buys, commands) && InTime(BookAt(c, p).sells, commands))
    && forall id: nat :: id in c.submissions <==> Arrival(commands, id) < |commands|
  }

  lemma StaysInTime(queue: seq<Order>, queue': seq<Order>, commands: seq<Command>, x: Command, before: map<nat, Order>)
    requires KeepsTime(queue, queue', before) && InTime(queue, commands) && Known(queue, before)
    requires forall id: nat :: id in before <==> Arrival(commands, id) < |commands|
    requires forall i :: 0 <= i < |queue'| && queue'[i].id !in before ==> x.Submit? && x.order.id == queue'[i].id
    ensures InTime(queue', commands + [x])
  {
    hide Arrival;
    forall i, j | 0 <= i < j < |queue'| && Price(queue'[i]) == Price(queue'[j])
      ensures Arrival(commands + [x], queue'[i].id) < Arrival(commands + [x], queue'[j].id)
    {
      ArrivalThen(commands, x, queue'[i].id);
      ArrivalThen(commands, x, queue'[j].id);
      if Precedes(queue, queue'[i], queue'[j]) {
        var k, l :| 0 <= k < l < |queue| && Same(queue[k], queue'[i]) && Same(queue[l], queue'[j]);
        assert Arrival(commands, queue[k].id) < Arrival(commands, queue[l].id);
      }
    }
  }

  /** What rests after a command was known before or is what the command submits. */
  lemma OnlySubmittedIsNew(c: Core, x: Command)
    ensures forall id: nat :: id in Next(c, x).submissions <==> id in c.submissions || (x.Submit? && x.order.id == id)
  {
    hide Execute;
    hide CancelOrder;
    hide Adjusted;
    hide ChangeReservation;
    hide MoveFunds;
    hide Admit;
    hide Credited;
    hide ValidateDeposit;
    if x.Cancel? && CancelOrder(c, x.orderId, x.user, x.pair).Ok? {
      CancelKeepsSubmissions(c, x.orderId, x.user, x.pair);
    }
  }

  lemma CancelKeepsSubmissions(c: Core, id: nat, user: nat, pair: Pair)
    requires CancelOrder(c, id, user, pair).Ok?
    ensures CancelOrder(c, id, user, pair).value.0.submissions == c.submissions
  {
    hide Locate;
    hide Quote;
    hide ChangeReservation;
  }

  lemma SideStaysInTime(queue: seq<Order>, queue': seq<Order>, commands: seq<Command>, x: Command, c: Core)
    requires KeepsTime(queue, queue', c.submissions) && InTime(queue, commands)
    requires Known(queue, c.submissions) && Known(queue', Next(c, x).submissions)
    requires forall id: nat :: id in c.submissions <==> Arrival(commands, id) < |commands|
    ensures InTime(queue', commands + [x])
  {
    OnlySubmittedIsNew(c, x);
    hide Next;
    hide KeepsTime;
    hide InTime;
    hide Arrival;
    StaysInTime(queue, queue', commands, x, c.submissions);
  }

  lemma StepInTime(c: Core, commands: seq<Command>, x: Command)
    requires Inv(c) && AllInTime(c, commands)
    ensures AllInTime(Next(c, x), commands + [x])
  {
    OnlySubmittedIsNew(c, x);
    StepKeepsInv(c, x);
    var c' := Next(c, x);
    hide Inv;
    hide Next;
    hide KeepsTime;
    hide InTime;
    forall p: Pair ensures InTime(BookAt(c', p).buys, commands + [x]) && InTime(BookAt(c', p).sells, commands + [x]) {
      StepKeepsTime(c, x, p);
      RestingIsKnown(c, p);
      RestingIsKnown(c', p);
      hide Known;
      SideStaysInTime(BookAt(c, p).buys, BookAt(c', p).buys, commands, x, c);
      SideStaysInTime(BookAt(c, p).sells, BookAt(c', p).sells, commands, x, c);
    }
    forall id: nat ensures id in c'.submissions <==> Arrival(commands + [x], id) < |commands + [x]| {
      ArrivalThen(commands, x, id);
    }
    hide Arrival;
  }

  lemma {:induction false} RunInTime(genesis: Core, commands: seq<Command>)
    requires IsGenesis(genesis)
    ensures AllInTime(Run(genesis, commands), commands)
    decreases |commands|
  {
    hide AllInTime;
    hide Next;
    if commands == [] {
      NothingLate(genesis);
    } else {
      var n := |commands| - 1;
      RunInTime(genesis, commands[..n]);
      SplitAround(commands, n);
      GenesisInv(genesis);
      RunKeepsInv(genesis, commands[..n]);
      StepInTime(Run(genesis, commands[..n]), commands[..n], commands[n]);
      RunAppend(genesis, commands[..n], [commands[n]]);
      RunOne(Run(genesis, commands[..n]), commands[n]);
      assert commands[..n] + [commands[n]] == commands;
      hide Run;
      hide Inv;
    }
  }

  lemma NothingLate(genesis: Core)
    requires IsGenesis(genesis)
    ensures AllInTime(genesis, [])
  {
  }

  /**
   Price-time priority in every reachable state: on each side of each book, one order stands before another exactly when
   its price is better for the other side, or the prices are equal and it was submitted earlier.
  */
  lemma PriceTimePriority(genesis: Core, commands: seq<Command>, p: Pair, buy: bool, i: nat, j: nat)
    requires IsGenesis(genesis)
    requires var b := BookAt(Run(genesis, commands), p); var queue := if buy then b.buys else b.sells;
      i < |queue| && j < |queue| && i != j
    ensures var b := BookAt(Run(genesis, commands), p); var queue := if buy then b.buys else b.sells;
      var x, y := queue[i], queue[j];
      && x.price.Some? && y.price.Some?
      && (i < j <==> (if buy then x.price.value > y.price.value else x.price.value < y.price.value)
                     || (x.price == y.price && Arrival(commands, x.id) < Arrival(commands, y.id)))
      && Arrival(commands, x.id) < |commands|
  {
    GenesisInv(genesis);
    RunKeepsInv(genesis, commands);
    RunInTime(genesis, commands);
    var c := Run(genesis, commands);
    BookAtInv(c, p);
    RestingIsKnown(c, p);
    var b := BookAt(c, p);
    var queue := if buy then b.buys else b.sells;
    assert queue[i] in queue && queue[j] in queue;
    ValidLimit(queue[i]);
    ValidLimit(queue[j]);
    hide Run;
    hide Arrival;
    hide Validate;
    hide Exact;
    hide Traceable;
    hide Inv;
    hide Uncrossed;
  }
}
