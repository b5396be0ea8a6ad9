/** Reading the committed journal page by page, up to a fixed cut, while it keeps growing. */
module Audit {
  import opened Prelude
  import opened Types
  import opened Core
  import opened Journal
  import Protocol
  import DeliverySafety

  const PAGE_BYTES: nat := 4 * 1024 * 1024
  const DEFAULT_LIMIT: nat := 50

  /** The rows of the journal table by primary key. A row may hold a record numbered otherwise. */
  type Table = map<nat, Record>

  datatype Problem = WrongEngine | OutOfRange | Gap | Misnumbered | TooLarge | MissingTail

  datatype PageQuery = PageQuery(after: nat, through: Option<nat>, engine: Option<nat>, limit: Option<nat>)

  datatype Page = Page(through: nat, nextAfter: nat, events: seq<Event>)

  datatype Reading = Read(page: Page) | Denied(problem: Problem)

  // ---------------------------------------------------------------- the table

  /** The table of an intact journal: one row a record, keyed from one without gaps. */
  ghost predicate Stores(rows: Table, log: seq<Record>) {
    && (forall k :: 1 <= k <= |log| ==> k in rows)
    && (forall k :: k in rows ==> 1 <= k <= |log| && rows[k] == log[k - 1])
  }

  /** `last` is the greatest key of the table, or zero. */
  predicate IsLast(rows: Table, last: nat) {
    (last == 0 || last in rows) && forall k :: k in rows ==> k <= last
  }

  /** The row an ordered scan of (after, through] reads first. */
  function FirstRow(rows: Table, after: nat, through: nat): (r: Option<nat>)
    ensures r.Some? ==> after < r.value <= through && r.value in rows && forall k :: after < k < r.value ==> k !in rows
    ensures r.None? ==> forall k :: after < k <= through ==> k !in rows
    decreases through - after
  {
    if after >= through then None
    else if after + 1 in rows then Some(after + 1)
    else FirstRow(rows, after + 1, through)
  }

  predicate Whole(rows: Table, after: nat, end: nat) {
    forall k :: after < k <= end ==> k in rows && rows[k].sequence == k
  }

  /** The records of consecutive rows. */
  function Rows(rows: Table, after: nat, end: nat): seq<Record>
    requires after <= end && Whole(rows, after, end)
  {
    seq(end - after, i requires 0 <= i < end - after => rows[after + 1 + i])
  }

  function Size(events: seq<Event>, size: Event -> nat): nat {
    if events == [] then 0 else Size(events[..|events| - 1], size) + size(events[|events| - 1])
  }

  lemma {:induction false} SizeGrows(first: seq<Event>, second: seq<Event>, size: Event -> nat)
    ensures Size(first + second, size) == Size(first, size) + Size(second, size)
    decreases |second|
  {
    if second == [] {
      assert first + second == first;
    } else {
      var k := |second| - 1;
      SizeGrows(first, second[..k], size);
      LastOfJoin(first, second);
    }
  }

  // ---------------------------------------------------------------- one page

  lemma OneMoreEvent(events: seq<Event>, more: seq<Event>, i: nat, size: Event -> nat)
    requires i < |more|
    ensures events + more[..i + 1] == events + more[..i] + [more[i]]
    ensures Size(events + more[..i + 1], size) == Size(events + more[..i], size) + size(more[i]) <= Size(events + more, size)
  {
    SplitAround(more, i);
    var before := events + more[..i];
    Reassociated(events, more[..i], [more[i]]);
    assert (before + [more[i]])[..|before|] == before;
    Reassociated(events, more[..i + 1], more[i + 1..]);
    SizeGrows(events + more[..i + 1], more[i + 1..], size);
  }

  /** Adds the events of one record to a page, giving up when the page grows too large. */
  method AddEvents(events: seq<Event>, bytes: nat, more: seq<Event>, size: Event -> nat)
    returns (events': seq<Event>, bytes': nat, fits: bool)
    requires bytes == Size(events, size) <= PAGE_BYTES
    ensures fits <==> Size(events + more, size) <= PAGE_BYTES
    ensures fits ==> events' == events + more && bytes' == Size(events', size)
  {
    events', bytes', fits := events, bytes, true;
    var i := 0;
    assert events + more[..0] == events;
    while i < |more|
      invariant i <= |more| && events' == events + more[..i] && bytes' == Size(events', size) <= PAGE_BYTES
    {
      OneMoreEvent(events, more, i, size);
      bytes' := bytes' + size(more[i]);
      if bytes' > PAGE_BYTES {
        return events', bytes', false;
      }
      events' := events' + [more[i]];
      i := i + 1;
    }
    assert more[..|more|] == more;
  }

  lemma OneMoreRow(rows: Table, after: nat, at: nat)
    requires after <= at && Whole(rows, after, at + 1)
    ensures Stream(Rows(rows, after, at + 1)) == Stream(Rows(rows, after, at)) + EventsOf(rows[at + 1])
  {
    hide EventsOf;
    var one := [rows[at + 1]];
    assert Rows(rows, after, at + 1) == Rows(rows, after, at) + one;
    StreamAppend(Rows(rows, after, at), one);
    assert one[1..] == [];
    assert Stream(one) == EventsOf(rows[at + 1]) + Stream([]);
  }

  /** What a page that was read contains: whole records after `after`, in order, and nothing else. */
  ghost predicate PageMeans(rows: Table, after: nat, limit: nat, page: Page, size: Event -> nat) {
    && after <= page.nextAfter <= page.through && page.nextAfter <= after + limit
    && Whole(rows, after, page.nextAfter)
    && page.events == Stream(Rows(rows, after, page.nextAfter))
    && Size(page.events, size) <= PAGE_BYTES
  }

  /** The scan ended because the page is full, the cut is reached, or no row is left. */
  ghost predicate ScanEnds(rows: Table, after: nat, limit: nat, page: Page) {
    page.nextAfter == after + limit || page.nextAfter == page.through || FirstRow(rows, page.nextAfter, page.through).None?
  }

  lemma EmptyPage(rows: Table, after: nat, size: Event -> nat)
    ensures Whole(rows, after, after) && Stream(Rows(rows, after, after)) == [] && Size([], size) == 0
  {
  }

  /** Everything a request may be answered, and for which reason it may be denied. */
  ghost predicate Answers(rows: Table, last: nat, engine: nat, query: PageQuery, size: Event -> nat, r: Reading) {
    var through, limit := query.through.GetOr(last), query.limit.GetOr(DEFAULT_LIMIT);
    match r
    case Read(page) =>
      && (query.engine.None? || query.engine.value == engine)
      && page.through == through <= last
      && PageMeans(rows, query.after, limit, page, size) && ScanEnds(rows, query.after, limit, page)
      && (page.nextAfter == through || page.nextAfter > query.after)
    case Denied(WrongEngine) => query.engine.Some? && query.engine.value != engine
    case Denied(OutOfRange) => !(query.after <= through <= last)
    case Denied(TooLarge) =>
      exists end | query.after <= end <= Min(query.after + limit, through) && Whole(rows, query.after, end) ::
        Size(Stream(Rows(rows, query.after, end)), size) > PAGE_BYTES
    case Denied(MissingTail) => query.after < through && (limit == 0 || FirstRow(rows, query.after, through).None?)
    case Denied(_) => !Whole(rows, query.after, Min(query.after + limit, through))
  }

  method ReadPage(rows: Table, last: nat, engine: nat, query: PageQuery, size: Event -> nat) returns (r: Reading)
    requires IsLast(rows, last)
    ensures Answers(rows, last, engine, query, size, r)
  {
    hide EventsOf;
    hide Stream;
    hide Size;
    hide FirstRow;
    if query.engine.Some? && query.engine.value != engine { return Denied(WrongEngine); }
    var through, limit := query.through.GetOr(last), query.limit.GetOr(DEFAULT_LIMIT);
    if !(query.after <= through <= last) { return Denied(OutOfRange); }
    var page := Page(through, query.after, []);
    EmptyPage(rows, query.after, size);
    var bytes, count := 0, 0;
    while count < limit
      invariant count <= limit && page.through == through && page.nextAfter == query.after + count
      invariant PageMeans(rows, query.after, limit, page, size) && bytes == Size(page.events, size)
    {
      var row := FirstRow(rows, page.nextAfter, through);
      if row.None? { break; }
      var sequence := row.value;
      if sequence != page.nextAfter + 1 {
        assert page.nextAfter + 1 !in rows;
        return Denied(Gap);
      }
      var record := rows[sequence];
      if record.sequence != sequence { return Denied(Misnumbered); }
      OneMoreRow(rows, query.after, page.nextAfter);
      var events, total, fits := AddEvents(page.events, bytes, EventsOf(record), size);
      if !fits { return Denied(TooLarge); }
      page, bytes, count := Page(through, sequence, events), total, count + 1;
    }
    if page.nextAfter != through && page.nextAfter <= query.after { return Denied(MissingTail); }
    return Read(page);
  }

  // ---------------------------------------------------------------- many pages over a growing journal

  lemma RowsOfLog(rows: Table, log: seq<Record>, after: nat, end: nat)
    requires Stores(rows, log) && after <= end && Whole(rows, after, end)
    ensures end <= |log| || after == end
    ensures end <= |log| ==> Rows(rows, after, end) == log[after..end]
  {
    if after < end {
      assert end in rows;
    }
  }

  lemma StreamSlices(log: seq<Record>, i: nat, j: nat, k: nat)
    requires i <= j <= k <= |log|
    ensures Stream(log[i..k]) == Stream(log[i..j]) + Stream(log[j..k])
  {
    assert log[i..k] == log[i..j] + log[j..k];
    StreamAppend(log[i..j], log[j..k]);
  }

  /** On an intact journal, a request inside the committed range is only ever denied for the size of its records. */
  lemma OnlySizeDenies(rows: Table, log: seq<Record>, engine: nat, query: PageQuery, size: Event -> nat, r: Reading)
    requires Stores(rows, log) && Numbered(log, 1) && Answers(rows, |log|, engine, query, size, r)
    requires query.engine.None? || query.engine.value == engine
    requires query.after <= query.through.GetOr(|log|) <= |log| && query.limit.GetOr(DEFAULT_LIMIT) >= 1
    ensures r.Read? || r.problem.TooLarge?
    ensures r.Denied? ==>
      Size(Stream(log[query.after..Min(query.after + query.limit.GetOr(DEFAULT_LIMIT), query.through.GetOr(|log|))]), size) > PAGE_BYTES
    ensures r.Read? ==>
      && r.page.nextAfter == Min(query.after + query.limit.GetOr(DEFAULT_LIMIT), query.through.GetOr(|log|))
      && r.page.events == Stream(log[query.after..r.page.nextAfter])
  {
    hide EventsOf;
    hide Stream;
    hide Size;
    var after, through, limit := query.after, query.through.GetOr(|log|), query.limit.GetOr(DEFAULT_LIMIT);
    var full := Min(after + limit, through);
    assert Whole(rows, after, full);
    if r.Read? {
      RowsOfLog(rows, log, after, r.page.nextAfter);
    } else if r.problem.TooLarge? {
      var end :| after <= end <= full && Whole(rows, after, end) && Size(Stream(Rows(rows, after, end)), size) > PAGE_BYTES;
      RowsOfLog(rows, log, after, end);
      StreamSlices(log, after, end, full);
      SizeGrows(Stream(log[after..end]), Stream(log[end..full]), size);
    }
  }

  /** One successful request: the journal as it was then, the limit asked for, and the page that came back. */
  datatype Turn = Turn(rows: Table, log: seq<Record>, engine: nat, limit: nat, page: Page)

  /** A client that keeps asking from where the last page ended, up to the same cut. */
  ghost predicate Session(turns: seq<Turn>, after: nat, through: nat, size: Event -> nat)
    decreases |turns|
  {
    turns == [] ||
    var t := turns[0];
    && Stores(t.rows, t.log)
    && Answers(t.rows, |t.log|, t.engine, PageQuery(after, Some(through), Some(t.engine), Some(t.limit)), size, Read(t.page))
    && Session(turns[1..], t.page.nextAfter, through, size)
  }

  function Collected(turns: seq<Turn>): seq<Event> {
    if turns == [] then [] else turns[0].page.events + Collected(turns[1..])
  }

  function Reached(turns: seq<Turn>, after: nat): nat {
    if turns == [] then after else turns[|turns| - 1].page.nextAfter
  }

  /**
   Whatever the page limits, and however the journal grows between requests, the pages put together are exactly the
   event stream of the records they cover; and every page makes progress, so the cut is reached.
  */
  lemma {:induction false} PagesAreTheStream(turns: seq<Turn>, cut: seq<Record>, after: nat, size: Event -> nat)
    requires Session(turns, after, |cut|, size) && after <= |cut|
    requires forall t :: t in turns ==> cut <= t.log
    ensures after <= Reached(turns, after) <= |cut|
    ensures Collected(turns) == Stream(cut[after..Reached(turns, after)])
    ensures Reached(turns, after) == |cut| || Reached(turns, after) >= after + |turns|
    decreases |turns|
  {
    hide EventsOf;
    hide Stream;
    hide Size;
    if turns == [] {
      assert cut[after..after] == [];
      assert Stream(cut[after..after]) == [] by { StreamSlices(cut, after, after, after); }
    } else {
      var t := turns[0];
      var next := t.page.nextAfter;
      RowsOfLog(t.rows, t.log, after, next);
      assert t.log[after..next] == cut[after..next];
      PagesAreTheStream(turns[1..], cut, next, size);
      assert Reached(turns, after) == Reached(turns[1..], next);
      StreamSlices(cut, after, next, Reached(turns, after));
    }
  }

  /** Enough pages always reach the cut. */
  lemma EnoughPagesReachTheCut(turns: seq<Turn>, cut: seq<Record>, after: nat, size: Event -> nat)
    requires Session(turns, after, |cut|, size) && after <= |cut| && |turns| >= |cut| - after
    requires forall t :: t in turns ==> cut <= t.log
    ensures Collected(turns) == Stream(cut[after..])
  {
    hide Session;
    hide Stream;
    PagesAreTheStream(turns, cut, after, size);
    assert cut[after..|cut|] == cut[after..];
  }

  /** What an auditor reads up to a delivered cut is, event by event, what the output worker delivered. */
  lemma AuditEqualsDelivery(genesis: Core, actions: seq<Protocol.Action>, s: Protocol.System, through: nat,
                            turns: seq<Turn>, size: Event -> nat)
    requires Protocol.Runs(genesis, Protocol.Fresh(genesis), actions, s) && through <= s.delivered
    requires Session(turns, 0, through, size) && |turns| >= through
    requires through <= |s.log| && forall t :: t in turns ==> s.log[..through] <= t.log
    ensures Collected(turns) == Stream(s.log[..through]) <= Protocol.Dedup(s.published)
  {
    hide Session;
    DeliverySafety.PublishedIsAPrefix(genesis, actions, s);
    var cut := s.log[..through];
    EnoughPagesReachTheCut(turns, cut, 0, size);
    assert cut[0..] == cut;
    StreamSlices(s.log, 0, through, s.delivered);
    assert s.log[0..s.delivered] == s.log[..s.delivered];
    hide Stream;
    hide Protocol.Dedup;
    assert Stream(cut) <= Stream(s.log[..s.delivered]);
  }
}
