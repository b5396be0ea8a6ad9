/**
 At-least-once delivery that reads as exactly-once: across crashes, ambiguous commits and ambiguous sends, what a
 consumer keeps after dropping repeated ids is always a prefix of the journal's own event stream.
*/
module DeliverySafety {
  import opened Prelude
  import opened Types
  import opened Core
  import opened Journal
  import opened Market
  import opened Protocol
  import opened JournalSafety

  // ---------------------------------------------------------------- sending one event of the stream

  /** Sending the stream's next event, or one that was already sent, keeps the consumer's view a prefix of the stream. */
  lemma DedupGrows(published: seq<Event>, stream: seq<Event>, k: nat)
    requires k < |stream| && Dedup(published) <= stream && k <= |Dedup(published)|
    requires forall i, j :: 0 <= i < j < |stream| ==> !SameId(stream[i], stream[j])
    ensures Dedup(published + [stream[k]]) <= stream && k < |Dedup(published + [stream[k]])|
    ensures Dedup(published) <= Dedup(published + [stream[k]])
  {
    var kept, e := Dedup(published), stream[k];
    assert (published + [e])[..|published|] == published;
    if k < |kept| {
      assert SameId(kept[k], e);
    } else {
      assert forall i :: 0 <= i < |kept| ==> kept[i] == stream[i];
      assert Dedup(published + [e]) == kept + [e];
    }
  }

  /** The n-th event of a record sits right after everything earlier records publish. */
  lemma EventPosition(log: seq<Record>, cursor: nat, n: nat)
    requires cursor < |log| && n < |EventsOf(log[cursor])|
    ensures |Stream(log[..cursor])| + n < |Stream(log)|
    ensures Stream(log)[|Stream(log[..cursor])| + n] == EventsOf(log[cursor])[n]
  {
    StreamTake(log, cursor);
    hide EventsOf;
    hide Stream;
  }

  lemma StreamGrows(log: seq<Record>, log': seq<Record>)
    requires log <= log'
    ensures Stream(log) <= Stream(log')
  {
    assert log' == log + log'[|log|..];
    StreamAppend(log, log'[|log|..]);
  }

  lemma WrittenIsNumbered(genesis: Core, log: seq<Record>)
    requires Written(genesis, log)
    ensures Numbered(log, 1)
    ensures forall i, j :: 0 <= i < j < |Stream(log)| ==> !SameId(Stream(log)[i], Stream(log)[j])
  {
    RecordsShape(genesis, Commands(log), 1);
    hide Records;
    StreamIdsDistinct(log, 1);
  }

  // ---------------------------------------------------------------- the invariant

  /** The consumer's view is a prefix of the stream and covers at least `count` of its events. */
  ghost predicate Covers(published: seq<Event>, log: seq<Record>, count: nat) {
    && Dedup(published) <= Stream(log)
    && count <= |Dedup(published)|
    && forall e :: e in published ==> e in Stream(log)
  }

  /** How many events of the stream the output worker has certainly sent. */
  function Sent(s: System): nat
    requires s.delivered <= |s.log|
  {
    |Stream(s.log[..s.delivered])| + if Up(s) && s.output.Sending? then s.output.sent else 0
  }

  predicate CursorKept(s: System) {
    match s.output
    case Sending(cursor, sent, market) =>
      cursor == s.delivered <= s.durable && sent <= |NextEvents(s)| && (cursor == s.durable ==> sent == 0 && !market)
    case SawDone(cursor) => cursor == s.delivered <= s.durable && s.worker.Finished?
    case EndedOk => s.delivered == s.durable && s.worker.Finished?
    case EndedFailed => s.delivered <= s.durable
  }

  predicate JournalKept(s: System) {
    && s.durable <= |s.log|
    && (s.journalDone ==> s.worker.Finished?)
    && (s.worker.Idle? || s.worker.Holding? || s.worker.Answering? || s.worker == Finished(true) ==> s.durable == |s.log|)
    && (s.worker == Finished(true) ==> s.phase.Stopping? && s.queue == [])
    && (s.phase.Recovering? ==> s.phase.until == |s.log| && s.queue == [] && s.worker.Idle?)
  }

  ghost predicate Delivers(s: System) {
    && s.delivered <= |s.log|
    && (Up(s) ==> JournalKept(s) && CursorKept(s))
    && Covers(s.published, s.log, Sent(s))
  }

  lemma FreshDelivers(genesis: Core)
    ensures Delivers(Fresh(genesis))
  {
    var s := Fresh(genesis);
    assert s.log[..s.delivered] == [];
  }

  lemma BootDelivers(genesis: Core, s: System)
    requires Delivers(s) && s.phase.Down?
    ensures Delivers(Booted(genesis, s))
  {
    hide Recover;
    hide Covers;
    hide EventsOf;
  }

  /** Sending the next event of the record at the cursor extends what the consumer keeps. */
  lemma SendCovers(genesis: Core, published: seq<Event>, log: seq<Record>, cursor: nat, n: nat)
    requires Written(genesis, log) && cursor < |log| && n < |EventsOf(log[cursor])|
    requires Covers(published, log, |Stream(log[..cursor])| + n)
    ensures Covers(published + [EventsOf(log[cursor])[n]], log, |Stream(log[..cursor])| + n + 1)
  {
    hide Dedup;
    hide Stream;
    hide EventsOf;
    hide Apply;
    hide Records;
    var k := |Stream(log[..cursor])| + n;
    WrittenIsNumbered(genesis, log);
    EventPosition(log, cursor, n);
    hide Numbered;
    hide SameId;
    DedupGrows(published, Stream(log), k);
  }

  lemma CoversFewer(published: seq<Event>, log: seq<Record>, count: nat, fewer: nat)
    requires Covers(published, log, count) && fewer <= count
    ensures Covers(published, log, fewer)
  {
    hide Dedup;
    hide Stream;
  }

  lemma SendDelivers(genesis: Core, s: System, a: OutputAction)
    requires Safe(genesis, s) && Delivers(s) && OutputEnabled(s, a) && a.SendEvent?
    ensures Delivers(OutputStep(s, a))
  {
    hide Apply;
    hide AnswerTo;
    hide AllBacked;
    hide CoreAhead;
    hide Written;
    hide Covers;
    hide Stream;
    hide EventsOf;
    hide TouchedPair;
    var count, e := |Stream(s.log[..s.delivered])|, NextEvents(s)[s.output.sent];
    SendCovers(genesis, s.published, s.log, s.output.cursor, s.output.sent);
    CoversFewer(s.published + [e], s.log, count + s.output.sent + 1, count);
    CoversFewer(s.published, s.log, Sent(s), count);
    hide Safe;
    var s' := OutputStep(s, a);
    assert s'.published == if a.landed then s.published + [e] else s.published;
    assert NextEvents(s') == if a.confirmed then NextEvents(s) else [];
  }

  lemma OutputDelivers(genesis: Core, s: System, a: OutputAction)
    requires Safe(genesis, s) && Delivers(s) && OutputEnabled(s, a)
    ensures Delivers(OutputStep(s, a))
  {
    hide Safe;
    hide Covers;
    hide Stream;
    hide EventsOf;
    hide TouchedPair;
    if a.SendEvent? {
      SendDelivers(genesis, s, a);
    } else {
      if a.MarkDelivered? {
        StreamTake(s.log, s.delivered);
      }
      CoversFewer(s.published, s.log, Sent(s), |Stream(s.log[..s.delivered])|);
    }
  }

  lemma CoreDelivers(genesis: Core, s: System, a: CoreAction)
    requires Delivers(s) && CoreEnabled(s, a)
    ensures Delivers(CoreStep(genesis, s, a))
  {
    hide Covers;
    hide Stream;
    hide EventsOf;
    hide Booted;
    hide Compute;
    if a.Boot? {
      BootDelivers(genesis, s);
    }
  }

  lemma CoversGrows(s: System, log': seq<Record>)
    requires Delivers(s) && s.log <= log'
    ensures Covers(s.published, log', Sent(s)) && log'[..s.delivered] == s.log[..s.delivered]
    ensures s.output.Sending? && s.output.cursor < |s.log| ==> log'[s.output.cursor] == s.log[s.output.cursor]
  {
    StreamGrows(s.log, log');
    hide Stream;
    hide Dedup;
    hide EventsOf;
    assert forall e :: e in Stream(s.log) ==> e in Stream(log');
  }

  lemma JournalDelivers(s: System, a: JournalAction)
    requires Delivers(s) && JournalEnabled(s, a)
    ensures Delivers(JournalStep(s, a))
  {
    CoversGrows(s, JournalStep(s, a).log);
    hide Covers;
    hide Stream;
    hide EventsOf;
    hide RecordsOf;
  }

  lemma StepDelivers(genesis: Core, s: System, a: Action)
    requires Safe(genesis, s) && Delivers(s) && Enabled(s, a)
    ensures Delivers(Step(genesis, s, a))
  {
    hide Safe;
    hide CoreStep;
    hide JournalStep;
    hide OutputStep;
    hide Stream;
    hide EventsOf;
    match a {
      case ByCore(x) => CoreDelivers(genesis, s, x);
      case ByJournal(x) => JournalDelivers(s, x);
      case ByOutput(x) => OutputDelivers(genesis, s, x);
      case Crash => CoversFewer(s.published, s.log, Sent(s), |Stream(s.log[..s.delivered])|);
    }
  }

  lemma {:induction false} RunsDeliver(genesis: Core, s: System, actions: seq<Action>, s': System)
    requires Safe(genesis, s) && Delivers(s) && Runs(genesis, s, actions, s')
    ensures Safe(genesis, s') && Delivers(s')
    decreases |actions|
  {
    hide Safe;
    hide Delivers;
    hide Step;
    hide Enabled;
    if actions != [] {
      StepSafe(genesis, s, actions[0]);
      StepDelivers(genesis, s, actions[0]);
      RunsDeliver(genesis, Step(genesis, s, actions[0]), actions[1..], s');
    }
  }

  lemma ReachableDelivers(genesis: Core, actions: seq<Action>, s: System)
    requires Runs(genesis, Fresh(genesis), actions, s)
    ensures Safe(genesis, s) && Delivers(s)
  {
    FreshSafe(genesis);
    FreshDelivers(genesis);
    RunsDeliver(genesis, Fresh(genesis), actions, s);
  }

  // ---------------------------------------------------------------- what this means

  /** Once the process is up, delivered <= durable <= committed. */
  lemma CursorsAreOrdered(genesis: Core, actions: seq<Action>, s: System)
    requires Runs(genesis, Fresh(genesis), actions, s)
    ensures s.delivered <= |s.log|
    ensures Up(s) ==> s.delivered <= s.durable <= |s.log|
  {
    ReachableDelivers(genesis, actions, s);
    hide Covers;
  }

  /**
   Whatever was lost, repeated or sent twice: the published events without repeated ids are a prefix of the
   journal's event stream, and that prefix covers every record marked delivered.
  */
  lemma PublishedIsAPrefix(genesis: Core, actions: seq<Action>, s: System)
    requires Runs(genesis, Fresh(genesis), actions, s)
    ensures Dedup(s.published) <= Stream(s.log)
    ensures s.delivered <= |s.log| && Stream(s.log[..s.delivered]) <= Dedup(s.published)
  {
    ReachableDelivers(genesis, actions, s);
    StreamGrows(s.log[..s.delivered], s.log);
    hide Stream;
    hide Dedup;
    hide Safe;
  }

  /** A repeated event id always carries the same payload as before. */
  lemma RepeatsAreIdentical(genesis: Core, actions: seq<Action>, s: System, e: Event, e': Event)
    requires Runs(genesis, Fresh(genesis), actions, s)
    requires e in s.published && e' in s.published && SameId(e, e')
    ensures e == e'
  {
    ReachableDelivers(genesis, actions, s);
    WrittenIsNumbered(genesis, s.log);
    hide Safe;
    hide Dedup;
    var stream := Stream(s.log);
    hide Stream;
    assert e in stream && e' in stream;
  }

  /** The stored cursor is always the one the output worker holds, so advancing it never finds another. */
  lemma MarkDeliveredNeverFails(genesis: Core, actions: seq<Action>, s: System)
    requires Runs(genesis, Fresh(genesis), actions, s) && Enabled(s, ByOutput(MarkDelivered))
    ensures s.delivered == s.output.cursor
    ensures Step(genesis, s, ByOutput(MarkDelivered)).delivered == s.delivered + 1
  {
    ReachableDelivers(genesis, actions, s);
    hide Covers;
  }

  /** Commands are accepted again only after everything committed before the crash is delivered. */
  lemma OpensOnlyWhenAllIsDelivered(genesis: Core, actions: seq<Action>, s: System)
    requires Runs(genesis, Fresh(genesis), actions, s) && Enabled(s, ByCore(Open))
    ensures s.delivered == |s.log| && Dedup(s.published) == Stream(s.log)
  {
    ReachableDelivers(genesis, actions, s);
    assert s.log[..|s.log|] == s.log;
    hide Dedup;
    hide Stream;
    hide EventsOf;
    hide Safe;
  }

  // ---------------------------------------------------------------- commits left ambiguous

  /** A commit is reported failed although it was written, with at least one command in it. */
  predicate LeavesATail(s: System, a: Action) {
    a == ByJournal(FailCommit(true)) && s.worker.Holding? && PendCommands(s.worker.group) != []
  }

  /** Whether such a commit happened since the last start, given whether it had before these actions. */
  ghost predicate Ambiguous(genesis: Core, s: System, actions: seq<Action>, before: bool)
    decreases |actions|
  {
    if actions == [] || !Enabled(s, actions[0]) then before
    else Ambiguous(genesis, Step(genesis, s, actions[0]), actions[1..], StillAmbiguous(s, actions[0], before))
  }

  predicate StillAmbiguous(s: System, a: Action, before: bool) {
    a != ByCore(Boot) && (before || LeavesATail(s, a))
  }

  /** Only such a commit puts the journal ahead of what the output worker is shown, and only once the worker has ended. */
  predicate TailIs(s: System, ambiguous: bool) {
    Up(s) ==> if s.worker.Finished? then ambiguous <==> s.durable < |s.log| else !ambiguous
  }

  lemma {:induction false} RecordsOfLength(pend: seq<Pending>, next: nat)
    ensures |RecordsOf(pend, next)| == |PendCommands(pend)|
    decreases |pend|
  {
    if pend != [] {
      RecordsOfLength(pend[1..], next);
      RecordsOfLength(pend[1..], next + 1);
    }
  }

  lemma JournalTail(s: System, a: JournalAction, before: bool)
    requires JournalEnabled(s, a) && JournalKept(s) && TailIs(s, before) && Up(s)
    ensures TailIs(JournalStep(s, a), StillAmbiguous(s, ByJournal(a), before))
  {
    if s.worker.Holding? {
      RecordsOfLength(s.worker.group, |s.log| + 1);
    }
    hide RecordsOf;
    hide PendCommands;
  }

  lemma CoreTail(genesis: Core, s: System, a: CoreAction, before: bool)
    requires CoreEnabled(s, a) && TailIs(s, before)
    ensures TailIs(CoreStep(genesis, s, a), StillAmbiguous(s, ByCore(a), before))
  {
    hide Recover;
    hide Compute;
  }

  lemma StepTail(genesis: Core, s: System, a: Action, before: bool)
    requires Safe(genesis, s) && Delivers(s) && Enabled(s, a) && TailIs(s, before)
    ensures TailIs(Step(genesis, s, a), StillAmbiguous(s, a, before))
  {
    hide JournalStep;
    hide OutputStep;
    hide CoreStep;
    hide AllBacked;
    hide CoreAhead;
    hide Written;
    hide Covers;
    hide PendCommands;
    hide EventsOf;
    hide TouchedPair;
    match a {
      case ByCore(x) => CoreTail(genesis, s, x, before);
      case ByJournal(x) => JournalTail(s, x, before);
      case ByOutput(x) => OutputTouchesOnlyDelivery(s, x);
      case Crash =>
    }
  }

  lemma {:induction false} RunTail(genesis: Core, s: System, actions: seq<Action>, s': System, before: bool)
    requires Safe(genesis, s) && Delivers(s) && TailIs(s, before) && Runs(genesis, s, actions, s')
    ensures TailIs(s', Ambiguous(genesis, s, actions, before))
    decreases |actions|
  {
    hide Safe;
    hide Delivers;
    hide Step;
    hide Enabled;
    hide TailIs;
    hide StillAmbiguous;
    if actions != [] {
      var a := actions[0];
      StepSafe(genesis, s, a);
      StepDelivers(genesis, s, a);
      StepTail(genesis, s, a, before);
      RunTail(genesis, Step(genesis, s, a), actions[1..], s', StillAmbiguous(s, a, before));
    }
  }

  /**
   When the output worker ends well, everything it was shown is delivered. That is every committed record if and only
   if no commit since the last start was reported failed although it was written.
  */
  lemma OutputEndsWhenAllIsDelivered(genesis: Core, actions: seq<Action>, s: System)
    requires Runs(genesis, Fresh(genesis), actions, s) && Up(s) && s.output.EndedOk?
    ensures s.worker.Finished? && s.delivered == s.durable
    ensures s.worker.successful ==> s.delivered == |s.log|
    ensures s.delivered == |s.log| ==> Dedup(s.published) == Stream(s.log)
    ensures s.delivered == |s.log| <==> !Ambiguous(genesis, Fresh(genesis), actions, false)
  {
    ReachableDelivers(genesis, actions, s);
    FreshSafe(genesis);
    FreshDelivers(genesis);
    RunTail(genesis, Fresh(genesis), actions, s, false);
    assert s.log[..|s.log|] == s.log;
    hide Dedup;
    hide Stream;
    hide EventsOf;
    hide Safe;
    hide Ambiguous;
    hide Runs;
  }

  /** A halt in which both workers ended well leaves nothing queued and nothing undelivered. */
  lemma CleanHaltLeavesNothing(genesis: Core, actions: seq<Action>, s: System)
    requires Runs(genesis, Fresh(genesis), actions, s) && Up(s) && s.worker == Finished(true) && s.output.EndedOk?
    ensures s.queue == [] && s.delivered == s.durable == |s.log| && Dedup(s.published) == Stream(s.log)
  {
    ReachableDelivers(genesis, actions, s);
    OutputEndsWhenAllIsDelivered(genesis, actions, s);
    hide Covers;
    hide EventsOf;
    hide Safe;
  }

  /** Just started on an empty journal, having executed one command that the journal worker holds. */
  function Holding1(genesis: Core, command: Command): System {
    var (core, outcome) := Apply(genesis, command);
    System([], 0, [], [], Running, core, false, [], Holding([Executed(1, command, outcome)]), 0, false, false, Sending(0, 0, false))
  }

  lemma OneCommandHeld(genesis: Core, command: Command)
    ensures Runs(genesis, Fresh(genesis),
                 [ByCore(Boot), ByCore(Open), ByCore(CheckCapacity), ByCore(Serve(Do(command))), ByJournal(TakeGroup(1))],
                 Holding1(genesis, command))
  {
    hide Apply;
    hide AnswerTo;
    var s0 := Fresh(genesis);
    var s1 := Step(genesis, s0, ByCore(Boot));
    assert Recover(genesis, s0.log, s0.delivered) == Some(genesis);
    hide Recover;
    var s2 := Step(genesis, s1, ByCore(Open));
    var s3 := Step(genesis, s2, ByCore(CheckCapacity));
    assert Executions(s3) == 0 by { assert Inflight(s3) == []; }
    var s4 := Step(genesis, s3, ByCore(Serve(Do(command))));
    assert s4.queue == [Executed(1, command, Apply(genesis, command).1)];
    assert s4.queue[..1] == s4.queue && s4.queue[1..] == [];
    var s5 := Step(genesis, s4, ByJournal(TakeGroup(1)));
    assert s5 == Holding1(genesis, command);
    RunsPrepends(genesis, s4, ByJournal(TakeGroup(1)), [], s5);
    RunsPrepends(genesis, s3, ByCore(Serve(Do(command))), [ByJournal(TakeGroup(1))], s5);
    RunsPrepends(genesis, s2, ByCore(CheckCapacity), [ByCore(Serve(Do(command))), ByJournal(TakeGroup(1))], s5);
    RunsPrepends(genesis, s1, ByCore(Open), [ByCore(CheckCapacity), ByCore(Serve(Do(command))), ByJournal(TakeGroup(1))], s5);
    RunsPrepends(genesis, s0, ByCore(Boot),
                 [ByCore(Open), ByCore(CheckCapacity), ByCore(Serve(Do(command))), ByJournal(TakeGroup(1))], s5);
  }

  /** The second case is real: a commit that failed after writing leaves a record that this output worker never sees. */
  lemma AmbiguousCommitEndsEarly(genesis: Core, command: Command)
    ensures exists actions: seq<Action>, s: System ::
      Runs(genesis, Fresh(genesis), actions, s) && Up(s) && s.output.EndedOk? && s.delivered < |s.log|
  {
    hide Apply;
    hide AnswerTo;
    hide Recover;
    OneCommandHeld(genesis, command);
    var s5 := Holding1(genesis, command);
    var first := [ByCore(Boot), ByCore(Open), ByCore(CheckCapacity), ByCore(Serve(Do(command))), ByJournal(TakeGroup(1))];
    var s6 := JournalStep(s5, FailCommit(true));
    assert s5.worker.group[1..] == [];
    assert |RecordsOf(s5.worker.group, 1)| == 1;
    assert |s6.log| == 1;
    var s7 := OutputStep(s6, ReadJournalDone);
    var s8 := OutputStep(s7, ReadDurable);
    RunsPrepends(genesis, s7, ByOutput(ReadDurable), [], s8);
    RunsPrepends(genesis, s6, ByOutput(ReadJournalDone), [ByOutput(ReadDurable)], s8);
    var second := [ByJournal(FailCommit(true)), ByOutput(ReadJournalDone), ByOutput(ReadDurable)];
    RunsPrepends(genesis, s5, ByJournal(FailCommit(true)), [ByOutput(ReadJournalDone), ByOutput(ReadDurable)], s8);
    RunsJoin(genesis, Fresh(genesis), first, s5, second, s8);
  }

  lemma RunsPrepends(genesis: Core, s: System, a: Action, rest: seq<Action>, s': System)
    requires Enabled(s, a) && Runs(genesis, Step(genesis, s, a), rest, s')
    ensures Runs(genesis, s, [a] + rest, s')
  {
    hide Step;
    hide Enabled;
    assert ([a] + rest)[1..] == rest;
  }

  lemma {:induction false} RunsJoin(genesis: Core, s: System, first: seq<Action>, s': System, second: seq<Action>, s'': System)
    requires Runs(genesis, s, first, s') && Runs(genesis, s', second, s'')
    ensures Runs(genesis, s, first + second, s'')
    decreases |first|
  {
    hide Step;
    hide Enabled;
    if first == [] {
      assert first + second == second;
    } else {
      RunsJoin(genesis, Step(genesis, s, first[0]), first[1..], s', second, s'');
      assert (first + second)[1..] == first[1..] + second;
    }
  }
}
