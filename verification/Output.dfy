/** The output worker as it runs: it reads committed records in order, sends them, and moves the cursor behind them. */
module Output {
  import opened Prelude
  import opened Types
  import opened Core
  import opened Journal
  import opened Market
  import opened MarketRuns
  import opened MarketProjection
  import opened Audit
  import opened Store

  class OutputWorker {
    const store: Store
    const market: MarketView
    var cursor: nat
    /** What reached the outside, in order. */
    ghost var published: seq<Event>
    ghost var shown: seq<Snapshot>

    constructor (store: Store)
      ensures this.store == store && cursor == store.delivered && fresh(market) && market.View() == EMPTY_PROJECTION
      ensures published == [] && shown == []
    {
      this.store := store;
      market := new MarketView();
      cursor := store.delivered;
      published, shown := [], [];
    }

    /** One send may land and be confirmed, land without a confirmation, or be lost. */
    method Send(e: Event) returns (confirmed: bool)
      modifies this`published
      ensures published == old(published) + [e] || (!confirmed && published == old(published))
    {
      var landed: bool := *;
      confirmed := *;
      confirmed := confirmed && landed;
      if landed {
        published := published + [e];
      }
    }

    /** Sends the events of a record in order, stopping at the first that is not confirmed. */
    method SendBatch(events: seq<Event>) returns (ok: bool)
      modifies this`published
      ensures old(published) <= published <= old(published) + events
      ensures ok ==> published == old(published) + events
    {
      var i := 0;
      while i < |events|
        invariant i <= |events| && published == old(published) + events[..i]
      {
        ok := Send(events[i]);
        assert events[..i + 1] == events[..i] + [events[i]];
        assert events == events[..i + 1] + events[i + 1..];
        if !ok {
          return;
        }
        i := i + 1;
      }
      ok := true;
    }

    method SendSnapshot(s: Option<Snapshot>) returns (confirmed: bool)
      modifies this`shown
      ensures shown == old(shown) + Shot(s) || (!confirmed && shown == old(shown))
    {
      if s.None? {
        assert shown + [] == shown;
        return true;
      }
      var landed: bool := *;
      confirmed := *;
      confirmed := confirmed && landed;
      if landed {
        shown := shown + [s.value];
      }
    }

    /** Rebuilds the public book of everything delivered before this start. */
    method Rebuild(ghost log: seq<Record>) returns (ok: bool)
      requires Stores(store.rows, log) && Numbered(log, 1) && cursor <= |log| && market.View() == EMPTY_PROJECTION
      modifies market
      ensures ok <==> ProjectAll(EMPTY_PROJECTION, log[..cursor]).Follows?
      ensures ok ==> Follows(market.View()) == ProjectAll(EMPTY_PROJECTION, log[..cursor])
    {
      hide Project;
      hide ProjectAll;
      hide Stores;
      hide Numbered;
      var sequence := 1;
      NothingProjected();
      assert log[..0] == [];
      while sequence <= cursor
        invariant 1 <= sequence <= cursor + 1
        invariant Follows(market.View()) == ProjectAll(EMPTY_PROJECTION, log[..sequence - 1])
      {
        var record := store.ReadRecord(sequence);
        assert record == Some(log[sequence - 1]);
        assert log[..sequence] == log[..sequence - 1] + [log[sequence - 1]];
        ProjectSnoc(EMPTY_PROJECTION, log[..sequence - 1], log[sequence - 1]);
        var snapshot;
        ok, snapshot := market.Apply(record.value);
        if !ok {
          assert log[..cursor] == log[..sequence] + log[sequence..cursor];
          ProjectLosesForGood(EMPTY_PROJECTION, log[..sequence], log[sequence..cursor]);
          return;
        }
        sequence := sequence + 1;
      }
      ok := true;
    }

    /** Sends what one record publishes, then its snapshot, and only then moves the stored cursor. */
    method DeliverNext(ghost log: seq<Record>) returns (ok: bool)
      requires Stores(store.rows, log) && Numbered(log, 1) && cursor < |log| && store.delivered == cursor
      requires Follows(market.View()) == ProjectAll(EMPTY_PROJECTION, log[..cursor])
      modifies this`cursor, this`published, this`shown, market, store`delivered
      ensures store.delivered == cursor == if ok then old(cursor) + 1 else old(cursor)
      ensures old(shown) <= shown && (ok ==> shown == old(shown) + Shots(old(market.View()), [log[old(cursor)]]))
      ensures old(published) <= published <= old(published) + EventsOf(log[old(cursor)])
      ensures ok ==> published == old(published) + EventsOf(log[old(cursor)])
      ensures ok ==> Follows(market.View()) == ProjectAll(EMPTY_PROJECTION, log[..cursor])
      ensures ok ==> match Project(old(market.View()), log[old(cursor)]) case Lost => false case Follows((j, _)) => j == market.View()
    {
      hide Project;
      hide ProjectAll;
      hide EventsOf;
      var read := store.ReadRecord(cursor + 1);
      var record := read.value;
      assert record == log[cursor];
      assert log[..cursor + 1] == log[..cursor] + [log[cursor]];
      ProjectSnoc(EMPTY_PROJECTION, log[..cursor], log[cursor]);
      ok := SendBatch(EventsOf(record));
      if !ok {
        return;
      }
      var snapshot;
      ok, snapshot := market.Apply(record);
      if !ok {
        return;
      }
      ShotsOfOne(old(market.View()), record);
      ok := SendSnapshot(snapshot);
      if !ok {
        return;
      }
      ok := store.MarkDelivered(record.sequence);
      cursor := record.sequence;
    }

    /**
     The worker's loop over successive looks at the journal worker. However it stops, every record behind the stored
     cursor was fully sent, and nothing was sent that is not next in the event stream of what was reported durable. It
     opens the core once the records found at the start are behind the cursor, delivers one record at each look that
     finds one, and ends when a finished journal worker has nothing more.
    */
    method RunStore(startupEnd: nat, looks: seq<Look>, ghost log: seq<Record>) returns (end: Ending, used: nat, ready: bool)
      requires Stores(store.rows, log) && Numbered(log, 1) && store.delivered == cursor <= startupEnd <= |log|
      requires Growing(startupEnd, looks) && Reported(startupEnd, looks) <= |log|
      requires Follows(market.View()) == ProjectAll(EMPTY_PROJECTION, log[..cursor])
      modifies this`cursor, this`published, this`shown, market, store`delivered
      ensures used <= |looks| && old(cursor) <= store.delivered == cursor <= Reported(startupEnd, looks[..used]) <= |log|
      ensures old(published) + Stream(log[old(cursor)..cursor]) <= published
      ensures published <= old(published) + Stream(log[old(cursor)..Reported(startupEnd, looks[..used])])
      ensures old(shown) <= shown
      ensures !end.Failed? ==> published == old(published) + Stream(log[old(cursor)..cursor])
      ensures !end.Failed? ==> shown == old(shown) + Shots(old(market.View()), log[old(cursor)..cursor])
      ensures !end.Failed? ==> Follows(market.View()) == ProjectAll(EMPTY_PROJECTION, log[..cursor])
      ensures ready ==> startupEnd <= cursor
      ensures end.Ended? ==> ready && used > 0 && looks[used - 1].done && cursor == looks[used - 1].durableAgain
      ensures end.Running? ==> used == |looks| && KeepsUp(looks, old(cursor), cursor)
    {
      hide Project;
      hide ProjectAll;
      hide EventsOf;
      hide Stream;
      hide Shots;
      hide KeepsUp;
      hide Growing;
      hide Reported;
      hide Stores;
      hide Numbered;
      ghost var first, start := cursor, market.View();
      NoStream(log, first);
      NoShots(start, log, first);
      ReachesItself(start, log, first);
      NothingToKeepUpWith(startupEnd, looks, first);
      used, ready := 0, false;
      JoinedWithNothing(published);
      JoinedWithNothing(shown);
      while used < |looks|
        invariant used <= |looks| && first <= store.delivered == cursor <= Reported(startupEnd, looks[..used]) <= |log|
        invariant ready ==> startupEnd <= cursor
        invariant published == old(published) + Stream(log[first..cursor])
        invariant Follows(market.View()) == ProjectAll(EMPTY_PROJECTION, log[..cursor])
        invariant shown == old(shown) + Shots(start, log[first..cursor])
        invariant Follows(market.View()) == ProjectAll(start, log[first..cursor])
        invariant KeepsUp(looks[..used], first, cursor)
      {
        GrowsBy(startupEnd, looks, used);
        ready := ready || startupEnd <= cursor;
        var look := looks[used];
        ghost var at := cursor;
        used := used + 1;
        if cursor < look.durable {
          StreamNext(log, first, at);
          ShotsNext(start, log, first, at, market.View());
          StreamSlices(log, first, at + 1, look.durableAgain);
          var ok := DeliverNext(log);
          if !ok {
            return Ending.Failed, used, ready;
          }
        } else if look.done && cursor == look.durableAgain {
          return Ended, used, ready;
        }
        KeepsUpOnceMore(looks, used - 1, first, at, cursor);
      }
      assert looks[..used] == looks;
      StreamSlices(log, first, cursor, Reported(startupEnd, looks));
      end := Running;
    }
  }

  /** One look at the journal worker: the durable position, then whether it has finished, then the position again. */
  datatype Look = Look(durable: nat, done: bool, durableAgain: nat)

  datatype Ending = Failed | Ended | Running

  /** The last durable position seen. */
  function Reported(startupEnd: nat, looks: seq<Look>): nat {
    if looks == [] then startupEnd else looks[|looks| - 1].durableAgain
  }

  /** The durable position never goes back. */
  predicate Growing(startupEnd: nat, looks: seq<Look>) {
    forall i :: 0 <= i < |looks| ==> Reported(startupEnd, looks[..i]) <= looks[i].durable <= looks[i].durableAgain
  }

  /** From this look on the journal worker is found finished. */
  predicate FinishedFrom(looks: seq<Look>, i: nat) {
    forall k :: i <= k < |looks| ==> looks[k].done && looks[k].durable == looks[k].durableAgain
  }

  /**
   A worker that is still running has delivered one record at every look since any given one, or all that was durable
   then; and since the journal worker was found finished, one at every look.
  */
  predicate KeepsUp(looks: seq<Look>, first: nat, cursor: nat) {
    forall i :: 0 <= i < |looks| ==>
      Min(looks[i].durable, first + |looks| - i) <= cursor && (FinishedFrom(looks, i) ==> first + |looks| - i <= cursor)
  }

  lemma NothingToKeepUpWith(startupEnd: nat, looks: seq<Look>, first: nat)
    ensures Reported(startupEnd, looks[..0]) == startupEnd && KeepsUp(looks[..0], first, first)
  {
  }

  lemma {:induction false} ReportedGrows(startupEnd: nat, looks: seq<Look>, i: nat, j: nat)
    requires Growing(startupEnd, looks) && i <= j <= |looks|
    ensures Reported(startupEnd, looks[..i]) <= Reported(startupEnd, looks[..j])
    decreases j - i
  {
    if i < j {
      assert looks[..i + 1][i] == looks[i];
      assert Reported(startupEnd, looks[..i]) <= looks[i].durable;
      ReportedGrows(startupEnd, looks, i + 1, j);
    }
  }

  /** The next look reports no less than those before it, and no more than the last. */
  lemma GrowsBy(startupEnd: nat, looks: seq<Look>, used: nat)
    requires Growing(startupEnd, looks) && used < |looks|
    ensures startupEnd <= Reported(startupEnd, looks[..used]) <= looks[used].durable <= looks[used].durableAgain
    ensures Reported(startupEnd, looks[..used + 1]) == looks[used].durableAgain <= Reported(startupEnd, looks)
    ensures forall i :: 0 <= i < used ==> looks[i].durable <= looks[used].durable
  {
    ReportedGrows(startupEnd, looks, 0, used);
    ReportedGrows(startupEnd, looks, used + 1, |looks|);
    assert looks[..|looks|] == looks;
    forall i | 0 <= i < used ensures looks[i].durable <= looks[used].durable {
      ReportedGrows(startupEnd, looks, i + 1, used);
      assert Reported(startupEnd, looks[..i + 1]) == looks[i].durableAgain;
    }
  }

  /** A look either delivers a record, or finds none and does not end. */
  lemma KeepsUpOnceMore(looks: seq<Look>, n: nat, first: nat, before: nat, after: nat)
    requires n < |looks| && first <= before && KeepsUp(looks[..n], first, before)
    requires forall i :: 0 <= i < n ==> looks[i].durable <= looks[n].durable
    requires looks[n].durable <= looks[n].durableAgain
    requires if before < looks[n].durable then after == before + 1 else after == before
    requires before >= looks[n].durable ==> !(looks[n].done && looks[n].durable == looks[n].durableAgain)
    ensures KeepsUp(looks[..n + 1], first, after)
  {
    var earlier, now := looks[..n], looks[..n + 1];
    forall i | 0 <= i < |now|
      ensures Min(now[i].durable, first + |now| - i) <= after && (FinishedFrom(now, i) ==> first + |now| - i <= after)
    {
      if i < n {
        assert earlier[i] == now[i];
        assert FinishedFrom(now, i) ==> FinishedFrom(earlier, i) by {
          assert forall k :: i <= k < n ==> earlier[k] == now[k];
        }
      }
      assert now[n] == looks[n];
    }
  }

  function Shot(s: Option<Snapshot>): seq<Snapshot> {
    if s.Some? then [s.value] else []
  }

  /** The snapshots of following some records, in order. */
  ghost function Shots(j: Projection, records: seq<Record>): seq<Snapshot>
    decreases |records|
  {
    if records == [] then []
    else
      match Project(j, records[0])
      case Lost => []
      case Follows((j', s)) => Shot(s) + Shots(j', records[1..])
  }

  lemma ShotsOfOne(j: Projection, r: Record)
    requires Project(j, r).Follows?
    ensures Shots(j, [r]) == Shot(Project(j, r).value.1)
  {
    hide Project;
    assert [r][1..] == [];
    JoinedWithNothing(Shot(Project(j, r).value.1));
  }

  lemma {:induction false} ShotsJoin(j: Projection, records: seq<Record>, r: Record)
    requires ProjectAll(j, records).Follows?
    ensures Shots(j, records + [r]) == Shots(j, records) + Shots(ProjectAll(j, records).value, [r])
    decreases |records|
  {
    hide Project;
    if records == [] {
      JoinedWithNothing([r]);
      JoinedWithNothing(Shots(j, [r]));
    } else {
      TailOfJoin(records, [r]);
      var (j', s) := Project(j, records[0]).value;
      ShotsJoin(j', records[1..], r);
      Reassociated(Shot(s), Shots(j', records[1..]), Shots(ProjectAll(j', records[1..]).value, [r]));
    }
  }

  lemma NoShots(j: Projection, log: seq<Record>, at: nat)
    requires at <= |log|
    ensures Shots(j, log[at..at]) == []
  {
    assert log[at..at] == [];
  }

  lemma ReachesItself(j: Projection, log: seq<Record>, at: nat)
    requires at <= |log|
    ensures ProjectAll(j, log[at..at]) == Follows(j)
  {
    assert log[at..at] == [];
  }

  /** One more delivered record shows one more record's snapshots. */
  lemma ShotsNext(j: Projection, log: seq<Record>, first: nat, at: nat, now: Projection)
    requires first <= at < |log| && ProjectAll(j, log[first..at]) == Follows(now)
    ensures Shots(j, log[first..at + 1]) == Shots(j, log[first..at]) + Shots(now, [log[at]])
    ensures ProjectAll(j, log[first..at + 1]) ==
      match Project(now, log[at]) case Lost => Lost case Follows((j', _)) => Follows(j')
  {
    hide Project;
    hide Shots;
    assert log[first..at + 1] == log[first..at] + [log[at]];
    ShotsJoin(j, log[first..at], log[at]);
    ProjectSnoc(j, log[first..at], log[at]);
  }

  lemma NoStream(log: seq<Record>, at: nat)
    requires at <= |log|
    ensures Stream(log[at..at]) == []
  {
    assert log[at..at] == [];
  }

  lemma StreamNext(log: seq<Record>, first: nat, at: nat)
    requires first <= at < |log|
    ensures Stream(log[first..at + 1]) == Stream(log[first..at]) + EventsOf(log[at])
  {
    hide EventsOf;
    StreamSlices(log, first, at, at + 1);
    assert log[at..at + 1] == [log[at]] && [log[at]][1..] == [];
    assert Stream([log[at]]) == EventsOf(log[at]) + Stream([]);
  }

  lemma NothingProjected()
    ensures ProjectAll(EMPTY_PROJECTION, []) == Follows(EMPTY_PROJECTION)
  {
  }

  lemma {:induction false} ProjectSnoc(j: Projection, records: seq<Record>, r: Record)
    ensures ProjectAll(j, records + [r]) == match ProjectAll(j, records)
      case Lost => Lost
      case Follows(j') => match Project(j', r) case Lost => Lost case Follows((j'', _)) => Follows(j'')
    decreases |records|
  {
    hide Project;
    if records == [] {
      assert [] + [r] == [r] && [r][1..] == [];
      if Project(j, r).Follows? {
        assert ProjectAll(Project(j, r).value.0, []) == Follows(Project(j, r).value.0);
      }
    } else {
      assert (records + [r])[1..] == records[1..] + [r];
      if Project(j, records[0]).Follows? {
        ProjectSnoc(Project(j, records[0]).value.0, records[1..], r);
      }
    }
  }

  lemma {:induction false} ProjectLosesForGood(j: Projection, records: seq<Record>, more: seq<Record>)
    requires ProjectAll(j, records).Lost?
    ensures ProjectAll(j, records + more).Lost?
    decreases |records|
  {
    hide Project;
    assert (records + more)[1..] == records[1..] + more;
    if Project(j, records[0]).Follows? {
      ProjectLosesForGood(Project(j, records[0]).value.0, records[1..], more);
    }
  }
}
