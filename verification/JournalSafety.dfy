/** In every interleaving, whatever was answered is committed, and recovery restores exactly what was committed. */
module JournalSafety {
  import opened Prelude
  import opened Types
  import opened Submission
  import opened Core
  import opened CoreLaws
  import opened Journal
  import opened Market
  import opened MarketRuns
  import opened Protocol

  // ---------------------------------------------------------------- answers that follow from a command history

  /** The answer is the one the core gives after exactly the first `at` commands of the history. */
  ghost predicate BackedBy(genesis: Core, history: seq<Command>, p: Pending) {
    match p
    case Executed(at, command, outcome) =>
      1 <= at <= |history| && history[at - 1] == command && outcome == Apply(Run(genesis, history[..at - 1]), command).1
    case Looked(at, query, answer) => at <= |history| && answer == AnswerTo(Run(genesis, history[..at]), query)
  }

  /** Each pending result follows from the history before it and the pending commands ahead of it. */
  ghost predicate Queued(genesis: Core, before: seq<Command>, pend: seq<Pending>)
    decreases |pend|
  {
    pend == [] ||
    (match pend[0]
     case Executed(at, command, outcome) =>
       at == |before| + 1 && outcome == Apply(Run(genesis, before), command).1 && Queued(genesis, before + [command], pend[1..])
     case Looked(at, query, answer) =>
       at == |before| && answer == AnswerTo(Run(genesis, before), query) && Queued(genesis, before, pend[1..]))
  }

  lemma BackedByGrows(genesis: Core, history: seq<Command>, more: seq<Command>, p: Pending)
    requires BackedBy(genesis, history, p)
    ensures BackedBy(genesis, history + more, p)
  {
    hide Apply;
    hide AnswerTo;
    hide Run;
    match p
    case Executed(at, _, _) => assert (history + more)[..at - 1] == history[..at - 1];
    case Looked(at, _, _) => assert (history + more)[..at] == history[..at];
  }

  function After(before: seq<Command>, p: Pending): seq<Command> {
    if p.Executed? then before + [p.command] else before
  }

  lemma QueuedHead(genesis: Core, before: seq<Command>, pend: seq<Pending>)
    requires Queued(genesis, before, pend) && pend != []
    ensures BackedBy(genesis, After(before, pend[0]), pend[0]) && Queued(genesis, After(before, pend[0]), pend[1..])
  {
    hide Apply;
    hide AnswerTo;
    hide Run;
    if pend[0].Executed? {
      assert (before + [pend[0].command])[..|before|] == before;
    } else {
      assert before[..|before|] == before;
    }
  }

  lemma AfterTheFirst(before: seq<Command>, pend: seq<Pending>)
    requires pend != []
    ensures After(before, pend[0]) + PendCommands(pend[1..]) == before + PendCommands(pend)
  {
    if pend[0].Executed? {
      Reassociated(before, [pend[0].command], PendCommands(pend[1..]));
    } else {
      assert [] + PendCommands(pend[1..]) == PendCommands(pend[1..]);
    }
  }

  lemma InTail<T>(s: seq<T>, x: T)
    requires x in s
    ensures x == s[0] || x in s[1..]
  {
  }

  lemma {:induction false} QueuedIsBacked(genesis: Core, before: seq<Command>, pend: seq<Pending>)
    requires Queued(genesis, before, pend)
    ensures forall p :: p in pend ==> BackedBy(genesis, before + PendCommands(pend), p)
    decreases |pend|
  {
    hide Queued;
    hide BackedBy;
    if pend != [] {
      var here, behind := After(before, pend[0]), pend[1..];
      QueuedHead(genesis, before, pend);
      BackedByGrows(genesis, here, PendCommands(behind), pend[0]);
      QueuedIsBacked(genesis, here, behind);
      AfterTheFirst(before, pend);
      hide PendCommands;
      hide After;
      forall p | p in pend ensures BackedBy(genesis, before + PendCommands(pend), p) {
        InTail(pend, p);
      }
    }
  }

  lemma {:induction false} PendCommandsJoin(first: seq<Pending>, second: seq<Pending>)
    ensures PendCommands(first + second) == PendCommands(first) + PendCommands(second)
    decreases |first|
  {
    if first == [] {
      JoinedWithNothing(second);
      JoinedWithNothing(PendCommands(second));
    } else {
      PendCommandsJoin(first[1..], second);
      TailOfJoin(first, second);
      Reassociated(if first[0].Executed? then [first[0].command] else [], PendCommands(first[1..]), PendCommands(second));
    }
  }

  lemma {:induction false} QueuedSplits(genesis: Core, before: seq<Command>, first: seq<Pending>, second: seq<Pending>)
    ensures PendCommands(first + second) == PendCommands(first) + PendCommands(second)
    ensures Queued(genesis, before, first + second)
       <==> Queued(genesis, before, first) && Queued(genesis, before + PendCommands(first), second)
    decreases |first|
  {
    hide Apply;
    hide AnswerTo;
    hide Run;
    PendCommandsJoin(first, second);
    if first == [] {
      JoinedWithNothing(second);
      JoinedWithNothing(before);
    } else {
      QueuedSplits(genesis, After(before, first[0]), first[1..], second);
      TailOfJoin(first, second);
      AfterTheFirst(before, first);
      hide PendCommands;
    }
  }

  /** The records a group adds are those the core would write for its commands. */
  lemma {:induction false} GroupRecords(genesis: Core, before: seq<Command>, pend: seq<Pending>)
    requires Queued(genesis, before, pend)
    ensures RecordsOf(pend, |before| + 1) == Records(Run(genesis, before), PendCommands(pend), |before| + 1)
    decreases |pend|
  {
    hide Apply;
    hide AnswerTo;
    if pend != [] {
      if pend[0].Executed? {
        var command := pend[0].command;
        RunAppend(genesis, before, [command]);
        assert Run(Run(genesis, before), [command]) == Next(Run(genesis, before), command) by { RunOne(Run(genesis, before), command); }
        GroupRecords(genesis, before + [command], pend[1..]);
        assert PendCommands(pend)[1..] == PendCommands(pend[1..]);
      } else {
        assert PendCommands(pend) == PendCommands(pend[1..]);
        GroupRecords(genesis, before, pend[1..]);
      }
    }
  }

  /** A journal holds exactly what the core writes for its commands. */
  ghost predicate Written(genesis: Core, log: seq<Record>) {
    log == Records(genesis, Commands(log), 1)
  }

  /** Committing a group extends the journal as if the core had written it, and backs every answer in the group. */
  lemma CommitExtends(genesis: Core, log: seq<Record>, group: seq<Pending>, rest: seq<Pending>)
    requires Written(genesis, log) && Queued(genesis, Commands(log), group + rest)
    ensures var log' := Append(log, group);
      && Written(genesis, log') && Commands(log') == Commands(log) + PendCommands(group)
      && (forall p :: p in group ==> BackedBy(genesis, Commands(log'), p))
      && Queued(genesis, Commands(log'), rest)
  {
    hide Apply;
    hide BackedBy;
    var before := Commands(log);
    QueuedSplits(genesis, before, group, rest);
    QueuedIsBacked(genesis, before, group);
    GroupRecords(genesis, before, group);
    hide Queued;
    RecordsAppend(genesis, before, PendCommands(group), 1);
    assert 1 + |before| == |before| + 1;
    assert Append(log, group) == Records(genesis, before + PendCommands(group), 1);
    RecordsShape(genesis, before + PendCommands(group), 1);
  }

  // ---------------------------------------------------------------- the invariant

  /** The core is ahead of the journal by exactly the results in flight. */
  ghost predicate CoreAhead(genesis: Core, s: System) {
    && s.core == Run(genesis, Commands(s.log) + PendCommands(Inflight(s)))
    && Queued(genesis, Commands(s.log), Inflight(s))
  }

  ghost predicate AllBacked(genesis: Core, log: seq<Record>, pend: seq<Pending>) {
    forall p :: p in pend ==> BackedBy(genesis, Commands(log), p)
  }

  ghost predicate Safe(genesis: Core, s: System) {
    && Written(genesis, s.log)
    && (Up(s) && !s.worker.Finished? ==> CoreAhead(genesis, s))
    && (s.worker.Committed? || s.worker.Answering? ==> AllBacked(genesis, s.log, s.worker.group))
    && AllBacked(genesis, s.log, s.replies)
    && |s.queue| <= CAPACITY && (s.slot ==> |s.queue| < CAPACITY && s.phase.Running?)
    && s.delivered <= |s.log| && (Up(s) ==> s.durable <= |s.log|)
    && (s.phase.Down? ==> s.worker.Idle?)
  }

  lemma BootSafe(genesis: Core, s: System)
    requires Safe(genesis, s) && s.phase.Down?
    ensures Safe(genesis, Booted(genesis, s)) && Up(Booted(genesis, s)) && Booted(genesis, s).core == Replay(genesis, s.log)
  {
    hide Apply;
    RecoverExactly(genesis, s.log, s.delivered);
    hide Recover;
    hide AllBacked;
    var s' := Booted(genesis, s);
    assert Inflight(s') == [];
    assert Commands(s.log) + [] == Commands(s.log);
  }

  lemma ServeSafe(genesis: Core, s: System, request: Request)
    requires Safe(genesis, s) && CoreEnabled(s, Serve(request))
    ensures Safe(genesis, CoreStep(genesis, s, Serve(request)))
  {
    hide Apply;
    hide AnswerTo;
    hide AllBacked;
    hide Written;
    var s' := CoreStep(genesis, s, Serve(request));
    if !s.worker.Finished? {
      var before := Commands(s.log);
      var flight := Inflight(s);
      var p := Compute(s, request, Executions(s)).1;
      assert Inflight(s') == flight + [p];
      QueuedSplits(genesis, before, flight, [p]);
      OneQueued(genesis, before + PendCommands(flight), p);
      match request {
        case Do(command) =>
          RunAppend(genesis, before + PendCommands(flight), [command]);
          RunOne(s.core, command);
          assert before + PendCommands(flight + [p]) == before + PendCommands(flight) + [command];
        case Ask(_) =>
          assert before + PendCommands(flight + [p]) == before + PendCommands(flight);
      }
    }
  }

  lemma OneQueued(genesis: Core, before: seq<Command>, p: Pending)
    ensures PendCommands([p]) == if p.Executed? then [p.command] else []
    ensures Queued(genesis, before, [p]) <==>
      match p
      case Executed(at, command, outcome) => at == |before| + 1 && outcome == Apply(Run(genesis, before), command).1
      case Looked(at, query, answer) => at == |before| && answer == AnswerTo(Run(genesis, before), query)
  {
    hide Apply;
    hide AnswerTo;
    hide Run;
    assert [p][1..] == [];
  }

  lemma CommitSafe(genesis: Core, s: System)
    requires Safe(genesis, s) && s.worker.Holding? && Up(s)
    ensures var log' := Append(s.log, s.worker.group);
      && Written(genesis, log') && AllBacked(genesis, log', s.worker.group) && AllBacked(genesis, log', s.replies)
      && CoreAhead(genesis, s.(log := log', worker := Committed(s.worker.group))) && |s.log| <= |log'|
  {
    hide Apply;
    hide BackedBy;
    var group, log' := s.worker.group, Append(s.log, s.worker.group);
    CommitExtends(genesis, s.log, group, s.queue);
    forall p | p in s.replies ensures BackedBy(genesis, Commands(log'), p) {
      BackedByGrows(genesis, Commands(s.log), PendCommands(group), p);
    }
    QueuedSplits(genesis, Commands(s.log), group, s.queue);
    hide Queued;
    hide Written;
    hide PendCommands;
    hide Append;
    hide Run;
    var s' := s.(log := log', worker := Committed(group));
    JoinedWithNothing(s.queue);
    assert Inflight(s') == s.queue && Inflight(s) == group + s.queue;
    Reassociated(Commands(s.log), PendCommands(group), PendCommands(s.queue));
  }

  lemma JournalStepSafe(genesis: Core, s: System, a: JournalAction)
    requires Safe(genesis, s) && JournalEnabled(s, a)
    ensures Safe(genesis, JournalStep(s, a))
  {
    hide Apply;
    hide AnswerTo;
    hide Append;
    hide Written;
    var s' := JournalStep(s, a);
    if a.CommitGroup? || a.FailCommit? {
      hide CoreAhead;
      hide AllBacked;
      CommitSafe(genesis, s);
    } else {
      hide BackedBy;
      hide Queued;
      hide Run;
      if a.TakeGroup? {
        assert s.queue[..a.count] + s.queue[a.count..] == s.queue;
      }
      assert Inflight(s') == Inflight(s);
    }
  }

  lemma CoreStepSafe(genesis: Core, s: System, a: CoreAction)
    requires Safe(genesis, s) && CoreEnabled(s, a)
    ensures Safe(genesis, CoreStep(genesis, s, a))
  {
    hide AllBacked;
    hide CoreAhead;
    hide Written;
    hide Booted;
    hide Compute;
    if a.Boot? {
      BootSafe(genesis, s);
    } else if a.Serve? {
      ServeSafe(genesis, s, a.request);
    } else {
      var s' := CoreStep(genesis, s, a);
      if Up(s) && !s.worker.Finished? {
        StillAhead(genesis, s, s');
      }
    }
  }

  /** The output worker never touches the core, the queue, the journal or the replies. */
  lemma OutputTouchesOnlyDelivery(s: System, a: OutputAction)
    requires OutputEnabled(s, a)
    ensures var s' := OutputStep(s, a);
      && s' == s.(published := s'.published, output := s'.output, closed := s'.closed, delivered := s'.delivered)
      && (s'.delivered == s.delivered || (a.MarkDelivered? && s'.delivered == s.delivered + 1 && s.delivered < s.durable))
  {
    hide EventsOf;
    hide TouchedPair;
  }

  lemma OutputStepSafe(genesis: Core, s: System, a: OutputAction)
    requires Safe(genesis, s) && OutputEnabled(s, a)
    ensures Safe(genesis, OutputStep(s, a))
  {
    hide AllBacked;
    hide CoreAhead;
    hide Written;
    hide EventsOf;
    hide TouchedPair;
    hide OutputStep;
    var s' := OutputStep(s, a);
    OutputTouchesOnlyDelivery(s, a);
    if !s.worker.Finished? {
      StillAhead(genesis, s, s');
    }
  }

  /** Every step of every thread, and every crash, keeps the invariant. */
  lemma StepSafe(genesis: Core, s: System, a: Action)
    requires Safe(genesis, s) && Enabled(s, a)
    ensures Safe(genesis, Step(genesis, s, a))
  {
    hide AllBacked;
    hide CoreAhead;
    hide Written;
    hide CoreStep;
    hide JournalStep;
    hide OutputStep;
    hide TouchedPair;
    hide EventsOf;
    match a {
      case ByCore(x) => CoreStepSafe(genesis, s, x);
      case ByJournal(x) => JournalStepSafe(genesis, s, x);
      case ByOutput(x) => OutputStepSafe(genesis, s, x);
      case Crash =>
    }
  }

  lemma StillAhead(genesis: Core, s: System, s': System)
    requires CoreAhead(genesis, s) && s'.core == s.core && s'.log == s.log && s'.queue == s.queue && s'.worker == s.worker
    ensures CoreAhead(genesis, s')
  {
    hide Queued;
    hide Run;
    assert Inflight(s') == Inflight(s);
  }

  lemma FreshSafe(genesis: Core)
    ensures Safe(genesis, Fresh(genesis))
  {
    assert Commands([]) == [];
  }

  lemma {:induction false} RunsSafe(genesis: Core, s: System, actions: seq<Action>, s': System)
    requires Safe(genesis, s) && Runs(genesis, s, actions, s')
    ensures Safe(genesis, s') && s.log <= s'.log && s.replies <= s'.replies
    decreases |actions|
  {
    hide Safe;
    hide Step;
    hide Enabled;
    if actions != [] {
      StepSafe(genesis, s, actions[0]);
      NothingForgotten(genesis, s, actions[0]);
      RunsSafe(genesis, Step(genesis, s, actions[0]), actions[1..], s');
    }
  }

  /** No step, not even a crash, takes back a record or a reply. */
  lemma NothingForgotten(genesis: Core, s: System, a: Action)
    requires Enabled(s, a)
    ensures s.log <= Step(genesis, s, a).log && s.replies <= Step(genesis, s, a).replies
  {
    hide EventsOf;
    hide TouchedPair;
    hide OutputStep;
    hide JournalStep;
    hide CoreStep;
    match a {
      case ByCore(x) => CoreForgetsNothing(genesis, s, x);
      case ByJournal(x) => JournalForgetsNothing(s, x);
      case ByOutput(x) => OutputTouchesOnlyDelivery(s, x);
      case Crash =>
    }
  }

  lemma CoreForgetsNothing(genesis: Core, s: System, a: CoreAction)
    requires CoreEnabled(s, a)
    ensures CoreStep(genesis, s, a).log == s.log && CoreStep(genesis, s, a).replies == s.replies
  {
    hide Apply;
    hide AnswerTo;
    hide Recover;
  }

  lemma JournalForgetsNothing(s: System, a: JournalAction)
    requires JournalEnabled(s, a)
    ensures s.log <= JournalStep(s, a).log && s.replies <= JournalStep(s, a).replies
  {
    hide RecordsOf;
  }

  // ---------------------------------------------------------------- what this means

  /** Whenever the core publishes a result, the queue slot it checked for is still free. */
  lemma PublishNeverFindsTheQueueFull(genesis: Core, actions: seq<Action>, s: System, request: Request)
    requires Runs(genesis, Fresh(genesis), actions, s) && Enabled(s, ByCore(Serve(request)))
    ensures |s.queue| < CAPACITY
  {
    FreshSafe(genesis);
    RunsSafe(genesis, Fresh(genesis), actions, s);
  }

  /** After any interleaving and any crash, recovery succeeds and yields exactly the fold of the committed log. */
  lemma RecoveryAlwaysSucceeds(genesis: Core, actions: seq<Action>, s: System)
    requires Runs(genesis, Fresh(genesis), actions, s)
    ensures Recover(genesis, s.log, s.delivered) == Some(Replay(genesis, s.log))
    ensures s.log == Records(genesis, Commands(s.log), 1)
  {
    FreshSafe(genesis);
    RunsSafe(genesis, Fresh(genesis), actions, s);
    RecoverExactly(genesis, s.log, s.delivered);
  }

  /**
   Every reply ever given is about committed commands only. A command's reply carries the outcome recorded
   in the journal; a query's reply is computed from a committed prefix.
  */
  lemma RepliesAreCommitted(genesis: Core, actions: seq<Action>, s: System, p: Pending)
    requires Runs(genesis, Fresh(genesis), actions, s) && p in s.replies
    ensures p.at <= |s.log|
    ensures p.Executed? ==> p.at >= 1 && s.log[p.at - 1] == Record(p.at, p.command, p.outcome)
    ensures p.Looked? ==> p.answer == AnswerTo(Replay(genesis, s.log[..p.at]), p.query)
  {
    FreshSafe(genesis);
    RunsSafe(genesis, Fresh(genesis), actions, s);
    assert BackedBy(genesis, Commands(s.log), p);
    hide Apply;
    hide AnswerTo;
    var history := Commands(s.log);
    if p.Executed? {
      RecordAt(genesis, history, 1, p.at - 1);
    } else {
      assert Commands(s.log[..p.at]) == history[..p.at];
    }
  }

  lemma {:induction false} RecordAt(c: Core, commands: seq<Command>, n: nat, i: nat)
    requires i < |commands|
    ensures |Records(c, commands, n)| == |commands|
    ensures Records(c, commands, n)[i] == Record(n + i, commands[i], Apply(Run(c, commands[..i]), commands[i]).1)
    decreases |commands|
  {
    hide Apply;
    RecordsShape(c, commands, n);
    if i > 0 {
      RecordAt(Next(c, commands[0]), commands[1..], n + 1, i - 1);
      assert commands[..i][1..] == commands[1..][..i - 1];
    }
  }

  /** A reply once given stays backed by the journal across every later step, crash and recovery. */
  lemma AcknowledgedIsNeverLost(genesis: Core, actions: seq<Action>, s: System, later: seq<Action>, s': System, p: Pending)
    requires Runs(genesis, Fresh(genesis), actions, s) && Runs(genesis, s, later, s') && p in s.replies && p.Executed?
    ensures 1 <= p.at <= |s.log| && s.log <= s'.log && s'.log[p.at - 1] == Record(p.at, p.command, p.outcome)
    ensures Recover(genesis, s'.log, s'.delivered) == Some(Run(Replay(genesis, s.log), Commands(s'.log[|s.log|..])))
  {
    hide Safe;
    hide Runs;
    hide Recover;
    hide Fresh;
    RepliesAreCommitted(genesis, actions, s, p);
    FreshSafe(genesis);
    RunsSafe(genesis, Fresh(genesis), actions, s);
    RunsSafe(genesis, s, later, s');
    SafeRecovers(genesis, s');
    ReplayExtends(genesis, s.log, s'.log);
    hide Replay;
  }

  lemma SafeRecovers(genesis: Core, s: System)
    requires Safe(genesis, s)
    ensures Recover(genesis, s.log, s.delivered) == Some(Replay(genesis, s.log))
  {
    RecoverExactly(genesis, s.log, s.delivered);
  }

  lemma ReplayExtends(genesis: Core, log: seq<Record>, log': seq<Record>)
    requires log <= log'
    ensures Replay(genesis, log') == Run(Replay(genesis, log), Commands(log'[|log|..]))
  {
    hide Apply;
    assert Commands(log') == Commands(log) + Commands(log'[|log|..]);
    RunAppend(genesis, Commands(log), Commands(log'[|log|..]));
  }

  /** The public projection of any journal the system ever has never errors, so the output worker is never stopped by it. */
  lemma JournalIsAlwaysProjectable(genesis: Core, actions: seq<Action>, s: System)
    requires IsGenesis(genesis) && Runs(genesis, Fresh(genesis), actions, s)
    ensures ProjectAll(EMPTY_PROJECTION, s.log).Follows?
  {
    RecoveryAlwaysSucceeds(genesis, actions, s);
    ProjectionFollowsEveryRun(genesis, Commands(s.log));
  }
}
