/** The durable journal as a log of commands with their outcomes, its replay, and the events it publishes. */
module Journal {
  import opened Prelude
  import opened Types
  import opened Submission
  import opened Core

  datatype Record = Record(sequence: nat, command: Command, outcome: Outcome)

  /** The journal of a run: each command with the outcome it had, numbered from `first`. */
  function Records(c: Core, commands: seq<Command>, first: nat): seq<Record>
    decreases |commands|
  {
    if commands == [] then []
    else [Record(first, commands[0], Apply(c, commands[0]).1)] + Records(Next(c, commands[0]), commands[1..], first + 1)
  }

  function Commands(records: seq<Record>): seq<Command> {
    seq(|records|, i requires 0 <= i < |records| => records[i].command)
  }

  /** The state a log stands for. */
  function Replay(genesis: Core, records: seq<Record>): Core {
    Run(genesis, Commands(records))
  }

  /** Replays records in sequence, insisting that each outcome is reproduced. */
  function ReplayFrom(c: Core, records: seq<Record>, next: nat): Option<Core>
    decreases |records|
  {
    if records == [] then Some(c)
    else
      var r := records[0];
      var (c', outcome) := Apply(c, r.command);
      if r.sequence == next && outcome == r.outcome then ReplayFrom(c', records[1..], next + 1) else None
  }

  /** Recovery: the whole log replays, and the delivery cursor is not ahead of it. */
  function Recover(genesis: Core, log: seq<Record>, delivered: nat): Option<Core> {
    match ReplayFrom(genesis, log, 1)
    case None => None
    case Some(c) => if delivered <= |log| then Some(c) else None
  }

  // ---------------------------------------------------------------- laws of replay

  lemma {:induction false} RunAppend(c: Core, first: seq<Command>, second: seq<Command>)
    ensures Run(c, first + second) == Run(Run(c, first), second)
    decreases |first|
  {
    hide Next;
    if first == [] {
      assert first + second == second;
    } else {
      RunAppend(Next(c, first[0]), first[1..], second);
      assert (first + second)[1..] == first[1..] + second;
    }
  }

  lemma RunOne(c: Core, command: Command)
    ensures Run(c, [command]) == Next(c, command)
  {
    hide Apply;
    assert [command][1..] == [];
    assert Run(Next(c, command), []) == Next(c, command);
  }

  lemma {:induction false} RecordsAppend(c: Core, first: seq<Command>, second: seq<Command>, n: nat)
    ensures Records(c, first + second, n) == Records(c, first, n) + Records(Run(c, first), second, n + |first|)
    decreases |first|
  {
    hide Apply;
    if first == [] {
      assert first + second == second;
    } else {
      RecordsAppend(Next(c, first[0]), first[1..], second, n + 1);
      assert (first + second)[1..] == first[1..] + second;
    }
  }

  lemma {:induction false} RecordsShape(c: Core, commands: seq<Command>, n: nat)
    ensures |Records(c, commands, n)| == |commands| && Commands(Records(c, commands, n)) == commands
    ensures forall i :: 0 <= i < |commands| ==> Records(c, commands, n)[i].sequence == n + i
    decreases |commands|
  {
    hide Apply;
    if commands != [] {
      RecordsShape(Next(c, commands[0]), commands[1..], n + 1);
    }
  }

  /** A log written by the core replays to the state the core was in: recovery reproduces every outcome. */
  lemma {:induction false} WrittenLogReplays(c: Core, commands: seq<Command>, n: nat)
    ensures ReplayFrom(c, Records(c, commands, n), n) == Some(Run(c, commands))
    decreases |commands|
  {
    hide Apply;
    if commands != [] {
      WrittenLogReplays(Next(c, commands[0]), commands[1..], n + 1);
      var rest := Records(Next(c, commands[0]), commands[1..], n + 1);
      assert ([Record(n, commands[0], Apply(c, commands[0]).1)] + rest)[1..] == rest;
    }
  }

  /** Conversely, recovery accepts only logs that the core would have written. */
  lemma {:induction false} OnlyWrittenLogsReplay(c: Core, records: seq<Record>, n: nat)
    requires ReplayFrom(c, records, n).Some?
    ensures records == Records(c, Commands(records), n) && ReplayFrom(c, records, n).value == Run(c, Commands(records))
    decreases |records|
  {
    hide Apply;
    if records != [] {
      assert Commands(records)[1..] == Commands(records[1..]);
      OnlyWrittenLogsReplay(Next(c, records[0].command), records[1..], n + 1);
    }
  }

  /** Recovery succeeds exactly on written logs with a cursor within them, and yields the fold of the log. */
  lemma RecoverExactly(genesis: Core, log: seq<Record>, delivered: nat)
    ensures Recover(genesis, log, delivered) ==
      if log == Records(genesis, Commands(log), 1) && delivered <= |log| then Some(Replay(genesis, log)) else None
  {
    hide Apply;
    WrittenLogReplays(genesis, Commands(log), 1);
    if ReplayFrom(genesis, log, 1).Some? {
      OnlyWrittenLogsReplay(genesis, log, 1);
    }
  }

  // ---------------------------------------------------------------- published events

  datatype Payload =
    | TradeExecuted(output: TradeOutput)
    | MarketCompleted(completion: Completion)
    | OrderCancelled(orderId: nat, user: nat, pair: Pair)
    | OrderRejected(orderId: nat, user: nat, side: Side, kind: Kind, pair: Pair, price: Option<int>,
                    amount: Option<int>, quoteAmount: Option<int>, feeRate: int)
    | Deposited(credit: DepositCredit)
    | FundsMoved(action: WithdrawalAction, funds: WithdrawalFunds)
    | FundsRefused(funds: WithdrawalFunds)

  /** An event is identified by its record and its position in it. */
  datatype Event = Event(sequence: nat, index: nat, payload: Payload)

  function RejectionOf(o: Order): Payload {
    var budgetBuy := o.kind.Market? && o.side.Buy?;
    OrderRejected(o.id, o.user, o.side, o.kind, PairOf(o), o.price, if budgetBuy then None else Some(o.amount), o.quoteAmount, o.feeRate)
  }

  function Payloads(batch: Batch): seq<Payload> {
    match batch
    case WithdrawalRejected(funds, _) => [FundsRefused(funds)]
    case WithdrawalChanged(action, funds) => [FundsMoved(action, funds)]
    case DepositCredited(credit) => [Deposited(credit)]
    case Rejected(o, _) => [RejectionOf(o)]
    case Cancelled(o) => [OrderCancelled(o.id, o.user, PairOf(o))]
    case Submitted(_, trades, completion) =>
      seq(|trades|, i requires 0 <= i < |trades| => TradeExecuted(trades[i]))
      + match completion case Some(x) => [MarketCompleted(x)] case None => []
  }

  /** The events of one record, in the order they are sent. */
  function EventsOf(r: Record): seq<Event> {
    match r.outcome
    case Applied(Some(batch)) =>
      seq(|Payloads(batch)|, i requires 0 <= i < |Payloads(batch)| => Event(r.sequence, i, Payloads(batch)[i]))
    case _ => []
  }

  function Stream(records: seq<Record>): seq<Event> {
    if records == [] then [] else EventsOf(records[0]) + Stream(records[1..])
  }

  lemma {:induction false} StreamAppend(first: seq<Record>, second: seq<Record>)
    ensures Stream(first + second) == Stream(first) + Stream(second)
  {
    hide EventsOf;
    if first == [] {
      assert first + second == second;
    } else {
      StreamAppend(first[1..], second);
      assert (first + second)[1..] == first[1..] + second;
    }
  }

  lemma StreamOfOne(r: Record)
    ensures Stream([r]) == EventsOf(r)
  {
    hide EventsOf;
    assert [r][1..] == [];
    assert EventsOf(r) + [] == EventsOf(r);
  }

  lemma StreamTake(log: seq<Record>, k: nat)
    requires k < |log|
    ensures Stream(log[..k + 1]) == Stream(log[..k]) + EventsOf(log[k])
    ensures Stream(log) == Stream(log[..k]) + EventsOf(log[k]) + Stream(log[k + 1..])
  {
    hide EventsOf;
    hide Stream;
    var before, r, after := log[..k], log[k], log[k + 1..];
    StreamOfOne(r);
    SplitAround(log, k);
    StreamAppend(before, [r]);
    StreamAppend(log[..k + 1], after);
  }

  /** The log is numbered without gaps. */
  ghost predicate Numbered(log: seq<Record>, first: nat) {
    forall i :: 0 <= i < |log| ==> log[i].sequence == first + i
  }

  predicate SameId(x: Event, y: Event) {
    x.sequence == y.sequence && x.index == y.index
  }

  /** In the stream of a numbered log no two events share an id. */
  lemma {:induction false} StreamIdsDistinct(log: seq<Record>, first: nat)
    requires Numbered(log, first)
    ensures forall i, j :: 0 <= i < j < |Stream(log)| ==> !SameId(Stream(log)[i], Stream(log)[j])
    ensures forall i :: 0 <= i < |Stream(log)| ==> first <= Stream(log)[i].sequence
  {
    hide Payloads;
    if log != [] {
      StreamIdsDistinct(log[1..], first + 1);
      var head, rest := EventsOf(log[0]), Stream(log[1..]);
      assert Stream(log) == head + rest;
      forall i | 0 <= i < |head| ensures head[i].sequence == first && head[i].index == i {
        assert log[0].sequence == first;
      }
    }
  }
}
