/**
 The core thread, the journal worker and the output worker over a bounded queue, a durable log and a
 delivery cursor. Their steps interleave freely, and the process may crash between any two of them.
*/
module Protocol {
  import opened Prelude
  import opened Amount
  import opened Types
  import opened Balances
  import opened Submission
  import opened Core
  import opened Journal
  import opened Market

  const CAPACITY: nat := 100_000
  const GROUP_LIMIT: nat := 256

  // ---------------------------------------------------------------- requests and replies

  datatype Query = BalanceOf(user: nat, asset: Asset) | BookOf(pair: Pair, depth: Option<nat>)

  datatype Answer = BalanceIs(available: int, locked: int) | BookIs(bids: seq<Order>, asks: seq<Order>)

  datatype Request = Do(command: Command) | Ask(query: Query)

  function FirstOrders(queue: seq<Order>, depth: Option<nat>): seq<Order> {
    if depth.Some? && depth.value < |queue| then queue[..depth.value] else queue
  }

  function AnswerTo(c: Core, q: Query): Answer {
    match q
    case BalanceOf(user, asset) => BalanceIs(Of(c.accounts, (user, asset)).available, Of(c.accounts, (user, asset)).locked)
    case BookOf(pair, depth) => BookIs(FirstOrders(BookAt(c, pair).buys, depth), FirstOrders(BookAt(c, pair).sells, depth))
  }

  /** A computed but unpublished result. `at` is how many commands precede or include it. */
  datatype Pending =
    | Executed(at: nat, command: Command, outcome: Outcome)
    | Looked(at: nat, query: Query, answer: Answer)

  datatype Reply = Accepted | Refusal(reason: Fault) | InvalidOutcome | CancelledIs(order: Order) | AnswerIs(answer: Answer)

  /** What the caller is told, once the result is committed. */
  function ReplyOf(p: Pending): Reply {
    match p
    case Looked(_, _, answer) => AnswerIs(answer)
    case Executed(_, command, outcome) =>
      match (command, outcome)
      case (_, Failed(reason)) => Refusal(reason)
      case (Cancel(_, _, _), Applied(Some(Cancelled(o)))) => CancelledIs(o)
      case (Cancel(_, _, _), DuplicateCancellation(o)) => CancelledIs(o)
      case (Cancel(_, _, _), _) => InvalidOutcome
      case (Withdrawal(_, _), Applied(Some(WithdrawalRejected(_, reason)))) => Refusal(reason)
      case _ => Accepted
  }

  function PendCommands(pend: seq<Pending>): seq<Command> {
    if pend == [] then []
    else (if pend[0].Executed? then [pend[0].command] else []) + PendCommands(pend[1..])
  }

  /** The records a group adds to a log: its commands only, numbered on. */
  function RecordsOf(pend: seq<Pending>, next: nat): seq<Record> {
    if pend == [] then []
    else if pend[0].Executed? then [Record(next, pend[0].command, pend[0].outcome)] + RecordsOf(pend[1..], next + 1)
    else RecordsOf(pend[1..], next)
  }

  /** The log after atomically committing a group. */
  function Append(log: seq<Record>, pend: seq<Pending>): seq<Record> {
    log + RecordsOf(pend, |log| + 1)
  }

  // ---------------------------------------------------------------- the system

  datatype Phase = Down | Recovering(until: nat) | Running | Stopping

  datatype Worker =
    | Idle
    | Holding(group: seq<Pending>)
    | Committed(group: seq<Pending>)
    | Answering(group: seq<Pending>)
    | Finished(successful: bool)

  datatype Output =
    | Sending(cursor: nat, sent: nat, market: bool)
    | SawDone(cursor: nat)
    | EndedOk
    | EndedFailed

  datatype System = System(
    // survives a crash
    log: seq<Record>, delivered: nat,
    // seen by the outside world
    published: seq<Event>, replies: seq<Pending>,
    // lost in a crash
    phase: Phase, core: Core, slot: bool, queue: seq<Pending>, worker: Worker,
    durable: nat, journalDone: bool, closed: bool, output: Output)

  /** Steps of the core thread and of the owner that starts and halts it. */
  datatype CoreAction = Boot | Open | Close | CheckCapacity | GiveUpSlot | Serve(request: Request) | StopCore

  datatype JournalAction =
    | TakeGroup(count: nat)
    | CommitGroup
    | FailCommit(written: bool)
    | PublishDurable
    | AnswerOne
    | FinishGroup
    | StopWorker

  datatype OutputAction =
    | SendEvent(landed: bool, confirmed: bool)
    | SendMarket(confirmed: bool)
    | MarkDelivered
    | FailRead
    | ReadJournalDone
    | ReadDurable

  datatype Action = ByCore(core: CoreAction) | ByJournal(journal: JournalAction) | ByOutput(output: OutputAction) | Crash

  function Compute(s: System, request: Request, at: nat): (Core, Pending) {
    match request
    case Do(command) =>
      var (core', outcome) := Apply(s.core, command);
      (core', Executed(at + 1, command, outcome))
    case Ask(query) => (s.core, Looked(at, query, AnswerTo(s.core, query)))
  }

  /** Results computed but not committed yet. */
  function Inflight(s: System): seq<Pending> {
    (if s.worker.Holding? then s.worker.group else []) + s.queue
  }

  /** How many commands the core has executed in its current history. */
  function Executions(s: System): nat {
    |s.log| + |PendCommands(Inflight(s))|
  }

  function NextEvents(s: System): seq<Event> {
    if s.output.Sending? && s.output.cursor < |s.log| then EventsOf(s.log[s.output.cursor]) else []
  }

  predicate Up(s: System) {
    !s.phase.Down?
  }

  predicate CoreEnabled(s: System, a: CoreAction) {
    match a
    case Boot => s.phase.Down?
    case Open => s.phase.Recovering? && s.output.Sending? && s.output.cursor >= s.phase.until
    case Close => Up(s)
    case CheckCapacity => s.phase.Running? && !s.closed && !s.slot && |s.queue| < CAPACITY
    case GiveUpSlot => s.slot
    case Serve(_) => s.phase.Running? && s.slot
    case StopCore => s.phase.Running? || s.phase.Recovering?
  }

  predicate JournalEnabled(s: System, a: JournalAction) {
    match a
    case TakeGroup(count) => Up(s) && s.worker.Idle? && 1 <= count <= GROUP_LIMIT && count <= |s.queue|
    case CommitGroup => s.worker.Holding?
    case FailCommit(_) => s.worker.Holding?
    case PublishDurable => s.worker.Committed?
    case AnswerOne => s.worker.Answering? && s.worker.group != []
    case FinishGroup => s.worker.Answering? && s.worker.group == []
    case StopWorker => s.worker.Idle? && s.phase.Stopping? && s.queue == []
  }

  /** The record at the cursor is fully sent: its events, and the order book snapshot if it touched one. */
  predicate RecordSent(s: System) {
    && s.output.Sending? && s.output.cursor < s.durable && s.output.sent == |NextEvents(s)|
    && (s.output.market || (s.output.cursor < |s.log| && TouchedPair(s.log[s.output.cursor]).None?))
  }

  predicate OutputEnabled(s: System, a: OutputAction) {
    Up(s) &&
    match a
    case SendEvent(landed, confirmed) =>
      s.output.Sending? && s.output.cursor < s.durable && s.output.sent < |NextEvents(s)| && (confirmed ==> landed)
    case SendMarket(_) =>
      s.output.Sending? && s.output.cursor < s.durable && s.output.sent == |NextEvents(s)| && !s.output.market
    case MarkDelivered => RecordSent(s)
    case FailRead => s.output.Sending? && s.output.sent == 0 && !s.output.market
    case ReadJournalDone => s.output.Sending? && s.output.sent == 0 && !s.output.market && s.journalDone
    case ReadDurable => s.output.SawDone?
  }

  predicate Enabled(s: System, a: Action) {
    match a
    case ByCore(x) => CoreEnabled(s, x)
    case ByJournal(x) => JournalEnabled(s, x)
    case ByOutput(x) => OutputEnabled(s, x)
    case Crash => true
  }

  /** Restarts from what survives: replay the log, resume delivery at the cursor. */
  function Booted(genesis: Core, s: System): System {
    match Recover(genesis, s.log, s.delivered)
    case None => s
    case Some(core) =>
      s.(phase := Recovering(|s.log|), core := core, slot := false, queue := [], worker := Idle, durable := |s.log|,
         journalDone := false, closed := false, output := Sending(s.delivered, 0, false))
  }

  function CoreStep(genesis: Core, s: System, a: CoreAction): System
    requires CoreEnabled(s, a)
  {
    match a
    case Boot => Booted(genesis, s)
    case Open => s.(phase := Running)
    case Close => s.(closed := true)
    case CheckCapacity => s.(slot := true)
    case GiveUpSlot => s.(slot := false)
    case Serve(request) =>
      var (core', pending) := Compute(s, request, Executions(s));
      s.(core := core', queue := s.queue + [pending], slot := false)
    case StopCore => s.(phase := Stopping, slot := false)
  }

  function JournalStep(s: System, a: JournalAction): System
    requires JournalEnabled(s, a)
  {
    match a
    case TakeGroup(count) => s.(worker := Holding(s.queue[..count]), queue := s.queue[count..])
    case CommitGroup => s.(log := Append(s.log, s.worker.group), worker := Committed(s.worker.group))
    case FailCommit(written) =>
      s.(log := if written then Append(s.log, s.worker.group) else s.log, worker := Finished(false), closed := true, journalDone := true)
    case PublishDurable => s.(durable := |s.log|, worker := Answering(s.worker.group))
    case AnswerOne => s.(replies := s.replies + [s.worker.group[0]], worker := Answering(s.worker.group[1..]))
    case FinishGroup => s.(worker := Idle)
    case StopWorker => s.(worker := Finished(true), journalDone := true)
  }

  function OutputStep(s: System, a: OutputAction): System
    requires OutputEnabled(s, a)
  {
    match a
    case SendEvent(landed, confirmed) =>
      var published' := if landed then s.published + [NextEvents(s)[s.output.sent]] else s.published;
      if confirmed then s.(published := published', output := s.output.(sent := s.output.sent + 1))
      else s.(published := published', output := EndedFailed, closed := true)
    case SendMarket(confirmed) =>
      if confirmed then s.(output := s.output.(market := true)) else s.(output := EndedFailed, closed := true)
    case MarkDelivered =>
      if s.delivered == s.output.cursor then s.(delivered := s.output.cursor + 1, output := Sending(s.output.cursor + 1, 0, false))
      else s.(output := EndedFailed, closed := true)
    case FailRead => s.(output := EndedFailed, closed := true)
    case ReadJournalDone => s.(output := SawDone(s.output.cursor))
    case ReadDurable =>
      if s.output.cursor == s.durable then s.(output := EndedOk, closed := true) else s.(output := Sending(s.output.cursor, 0, false))
  }

  /** A crash loses everything but the journal, the delivery cursor and what already left the process. */
  function Crashed(s: System): System {
    s.(phase := Down, slot := false, queue := [], worker := Idle, journalDone := false, closed := false)
  }

  function Step(genesis: Core, s: System, a: Action): System
    requires Enabled(s, a)
  {
    match a
    case ByCore(x) => CoreStep(genesis, s, x)
    case ByJournal(x) => JournalStep(s, x)
    case ByOutput(x) => OutputStep(s, x)
    case Crash => Crashed(s)
  }

  /** The system before its first start: an empty journal. */
  function Fresh(genesis: Core): System {
    System([], 0, [], [], Down, genesis, false, [], Idle, 0, false, false, EndedFailed)
  }

  ghost predicate Runs(genesis: Core, s: System, actions: seq<Action>, s': System)
    decreases |actions|
  {
    if actions == [] then s == s'
    else Enabled(s, actions[0]) && Runs(genesis, Step(genesis, s, actions[0]), actions[1..], s')
  }

  // ---------------------------------------------------------------- deduplication by event id

  /** What a consumer keeps: the first event of each id. */
  function Dedup(events: seq<Event>): seq<Event> {
    if events == [] then []
    else
      var kept := Dedup(events[..|events| - 1]);
      var last := events[|events| - 1];
      if exists i :: 0 <= i < |kept| && SameId(kept[i], last) then kept else kept + [last]
  }
}
