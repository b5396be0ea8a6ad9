/** The durable store as it is used: an append-only table of records, a genesis row and a delivery cursor. */
module Store {
  import opened Prelude
  import opened Amount
  import opened Types
  import opened Balances
  import opened BalanceLaws
  import opened BalanceCaches
  import opened Core
  import opened CoreLaws
  import opened Journal
  import opened Protocol
  import opened Audit
  import opened Engine

  // ---------------------------------------------------------------- the genesis row

  datatype Seed = Seed(user: nat, asset: Asset, available: int, locked: int)

  predicate SeedOk(s: Seed) {
    s.user > 0 && Trimmed(s.asset) && s.locked == 0 && Units(s.available).Ok?
  }

  /** The accounts a genesis row restores; any bad or repeated account refuses it. */
  function Restored(seeds: seq<Seed>): Option<Accounts> {
    if seeds == [] then Some(map[])
    else
      var last := seeds[|seeds| - 1];
      match Restored(seeds[..|seeds| - 1])
      case None => None
      case Some(m) =>
        if SeedOk(last) && (last.user, last.asset) !in m then Some(m[(last.user, last.asset) := Balance(last.available, 0)]) else None
  }

  /** A core that has balances and no history. */
  function GenesisOf(accounts: Accounts): Core {
    Core(accounts, map[], map[], map[], map[], map[])
  }

  predicate AccountOk(k: AccountKey, b: Balance) {
    k.0 > 0 && Trimmed(k.1) && b.locked == 0 && Units(b.available).Ok?
  }

  predicate AllAccountsOk(accounts: Accounts) {
    forall k :: k in accounts ==> AccountOk(k, accounts[k])
  }

  function KeyOf(s: Seed): AccountKey {
    (s.user, s.asset)
  }

  function SeedOf(k: AccountKey, b: Balance): Seed {
    Seed(k.0, k.1, b.available, b.locked)
  }

  /** One row for each account, in some order. */
  ghost predicate Lists(seeds: seq<Seed>, accounts: Accounts) {
    if seeds == [] then accounts == map[]
    else
      var last := seeds[|seeds| - 1];
      KeyOf(last) in accounts && last == SeedOf(KeyOf(last), accounts[KeyOf(last)])
      && Lists(seeds[..|seeds| - 1], accounts - {KeyOf(last)})
  }

  lemma AllButOne(accounts: Accounts, k: AccountKey)
    requires k in accounts
    ensures AllAccountsOk(accounts) <==> AllAccountsOk(accounts - {k}) && AccountOk(k, accounts[k])
  {
    hide AccountOk;
    var others := accounts - {k};
    if AllAccountsOk(others) && AccountOk(k, accounts[k]) {
      forall j | j in accounts ensures AccountOk(j, accounts[j]) {
        assert j != k ==> j in others && AccountOk(j, others[j]);
      }
    }
  }

  /** What the genesis row of a state restores: exactly its balances, unless an account could not have been opened. */
  lemma {:induction false} SeedsRestore(seeds: seq<Seed>, accounts: Accounts)
    requires Lists(seeds, accounts)
    ensures Restored(seeds) == if AllAccountsOk(accounts) then Some(accounts) else None
  {
    hide Units;
    hide Trimmed;
    if seeds != [] {
      var last := seeds[|seeds| - 1];
      var k, others := KeyOf(last), accounts - {KeyOf(last)};
      SeedsRestore(seeds[..|seeds| - 1], others);
      AllButOne(accounts, k);
      assert SeedOk(last) ==> others[k := Balance(last.available, 0)] == accounts;
    }
  }

  /** The order of names, character by character. */
  predicate NameBefore(a: string, b: string) {
    b != [] && (a == [] || a[0] < b[0] || (a[0] == b[0] && NameBefore(a[1..], b[1..])))
  }

  /** Accounts are ordered by user, then by asset. */
  predicate Before(j: AccountKey, k: AccountKey) {
    j.0 < k.0 || (j.0 == k.0 && NameBefore(j.1, k.1))
  }

  predicate InOrder(seeds: seq<Seed>) {
    forall i, j :: 0 <= i < j < |seeds| ==> Before(KeyOf(seeds[i]), KeyOf(seeds[j]))
  }

  lemma {:induction false} NamesCompare(a: string, b: string)
    ensures a != b <==> NameBefore(a, b) || NameBefore(b, a)
    ensures !(NameBefore(a, b) && NameBefore(b, a))
  {
    if a != [] && b != [] && a[0] == b[0] {
      NamesCompare(a[1..], b[1..]);
      assert a == [a[0]] + a[1..] && b == [b[0]] + b[1..];
    }
  }

  lemma {:induction false} NamesFollow(a: string, b: string, c: string)
    requires NameBefore(a, b) && NameBefore(b, c)
    ensures NameBefore(a, c)
  {
    if a != [] && a[0] == b[0] == c[0] {
      NamesFollow(a[1..], b[1..], c[1..]);
    }
  }

  /** Two different accounts come one before the other, never both. */
  lemma KeysCompare(j: AccountKey, k: AccountKey)
    ensures j != k <==> Before(j, k) || Before(k, j)
    ensures !(Before(j, k) && Before(k, j))
  {
    NamesCompare(j.1, k.1);
  }

  lemma KeysFollow(i: AccountKey, j: AccountKey, k: AccountKey)
    requires Before(i, j) && Before(j, k)
    ensures Before(i, k)
  {
    if i.0 == j.0 == k.0 {
      NamesFollow(i.1, j.1, k.1);
    }
  }

  lemma {:induction false} ListsItsKeys(seeds: seq<Seed>, accounts: Accounts, k: AccountKey)
    requires Lists(seeds, accounts)
    ensures k in accounts <==> exists i :: 0 <= i < |seeds| && KeyOf(seeds[i]) == k
  {
    if seeds != [] {
      var last := |seeds| - 1;
      ListsItsKeys(seeds[..last], accounts - {KeyOf(seeds[last])}, k);
      if k in accounts && k != KeyOf(seeds[last]) {
        var i :| 0 <= i < last && KeyOf(seeds[..last][i]) == k;
        assert KeyOf(seeds[i]) == k;
      }
      if i :| 0 <= i < |seeds| && KeyOf(seeds[i]) == k && i != last {
        assert KeyOf(seeds[..last][i]) == k;
      }
    }
  }

  /** The balances determine the genesis row. */
  lemma {:induction false} OneGenesisRow(s: seq<Seed>, t: seq<Seed>, accounts: Accounts)
    requires Lists(s, accounts) && InOrder(s) && Lists(t, accounts) && InOrder(t)
    ensures s == t
  {
    hide Before;
    if s != [] && t != [] {
      var j, k := KeyOf(s[|s| - 1]), KeyOf(t[|t| - 1]);
      ListsItsKeys(s, accounts, k);
      ListsItsKeys(t, accounts, j);
      KeysCompare(j, k);
      OneGenesisRow(s[..|s| - 1], t[..|t| - 1], accounts - {j});
      assert s == s[..|s| - 1] + [s[|s| - 1]] && t == t[..|t| - 1] + [t[|t| - 1]];
    }
  }

  method FirstKey(keys: set<AccountKey>) returns (first: AccountKey)
    requires keys != {}
    ensures first in keys && forall k :: k in keys && k != first ==> Before(first, k)
  {
    hide Before;
    ghost var some := Element(keys);
    first :| first in keys;
    var left := keys - {first};
    while left != {}
      invariant left <= keys && first in keys
      invariant forall k :: k in keys && k !in left && k != first ==> Before(first, k)
      decreases |left|
    {
      ghost var next := Element(left);
      var j: AccountKey :| j in left;
      KeysCompare(first, j);
      if j != first && Before(j, first) {
        forall k | k in keys && k !in left && k != first ensures Before(j, k) {
          KeysFollow(j, first, k);
        }
        first := j;
      }
      left := left - {j};
    }
  }

  /** Reads every account of a cache once, sorted by user and asset. */
  method JournalSeed(cache: BalanceCache) returns (seeds: seq<Seed>)
    ensures Lists(seeds, cache.balances) && InOrder(seeds)
  {
    hide Before;
    seeds := [];
    var left := cache.balances.Keys;
    ghost var done: Accounts := map[];
    while left != {}
      invariant left <= cache.balances.Keys && Lists(seeds, done) && InOrder(seeds)
      invariant done == map k | k in cache.balances && k !in left :: cache.balances[k]
      invariant forall i, k :: 0 <= i < |seeds| && k in left ==> Before(KeyOf(seeds[i]), k)
      decreases |left|
    {
      var k := FirstKey(left);
      ghost var before := done;
      done := done[k := cache.balances[k]];
      assert done - {k} == before;
      var s := SeedOf(k, cache.balances[k]);
      assert (seeds + [s])[..|seeds|] == seeds;
      seeds := seeds + [s];
      left := left - {k};
    }
    assert done == cache.balances;
  }

  // ---------------------------------------------------------------- replaying stored rows

  lemma {:induction false} ReplaySnoc(c: Core, records: seq<Record>, r: Record, n: nat)
    ensures ReplayFrom(c, records + [r], n) == match ReplayFrom(c, records, n)
      case None => None
      case Some(c') =>
        if r.sequence == n + |records| && Apply(c', r.command).1 == r.outcome then Some(Next(c', r.command)) else None
    decreases |records|
  {
    hide Apply;
    if records == [] {
      assert [] + [r] == [r] && [r][1..] == [];
      assert ReplayFrom(Next(c, r.command), [], n + 1) == Some(Next(c, r.command));
    } else {
      assert (records + [r])[1..] == records[1..] + [r];
      ReplaySnoc(Next(c, records[0].command), records[1..], r, n + 1);
    }
  }

  /** A log that fails to replay fails however it goes on. */
  lemma {:induction false} ReplayFailsForGood(c: Core, records: seq<Record>, more: seq<Record>, n: nat)
    requires ReplayFrom(c, records, n).None?
    ensures ReplayFrom(c, records + more, n).None?
    decreases |records|
  {
    hide Apply;
    assert (records + more)[1..] == records[1..] + more;
    var (c', outcome) := Apply(c, records[0].command);
    if records[0].sequence == n && outcome == records[0].outcome {
      ReplayFailsForGood(c', records[1..], more, n + 1);
    }
  }

  /** What recovery must find, and the state it then rebuilds. */
  ghost function Recovered(genesis: Option<seq<Seed>>, rows: Table, last: nat, delivered: nat): Option<Core> {
    if genesis.None? || Restored(genesis.value).None? || !Whole(rows, 0, last) || delivered > last then None
    else ReplayFrom(GenesisOf(Restored(genesis.value).value), Rows(rows, 0, last), 1)
  }

  /** On the table of a log, this is recovery of the log. */
  lemma RecoveredIsRecover(seeds: seq<Seed>, accounts: Accounts, rows: Table, log: seq<Record>, delivered: nat)
    requires Restored(seeds) == Some(accounts) && Stores(rows, log) && Numbered(log, 1)
    ensures Recovered(Some(seeds), rows, |log|, delivered) == Recover(GenesisOf(accounts), log, delivered)
  {
    hide Apply;
    hide ReplayFrom;
    assert Whole(rows, 0, |log|);
    RowsOfLog(rows, log, 0, |log|);
    assert log[0..|log|] == log;
  }

  // ---------------------------------------------------------------- appending a group

  /** The table after a group's records are written behind `last`. */
  function Written(rows: Table, pend: seq<Pending>, last: nat): Table
    decreases |pend|
  {
    if pend == [] then rows
    else if pend[0].Executed? then Written(rows[last + 1 := Record(last + 1, pend[0].command, pend[0].outcome)], pend[1..], last + 1)
    else Written(rows, pend[1..], last)
  }

  /** Writing a group into the table of a log makes it the table of the log with the group appended. */
  lemma {:induction false} WrittenIsAppended(rows: Table, log: seq<Record>, pend: seq<Pending>)
    requires Stores(rows, log)
    ensures Stores(Written(rows, pend, |log|), log + RecordsOf(pend, |log| + 1))
    decreases |pend|
  {
    if pend == [] {
      assert log + [] == log;
    } else if pend[0].Executed? {
      var r := Record(|log| + 1, pend[0].command, pend[0].outcome);
      StoresOneMore(rows, log, r);
      WrittenIsAppended(rows[|log| + 1 := r], log + [r], pend[1..]);
      assert log + [r] + RecordsOf(pend[1..], |log| + 2) == log + RecordsOf(pend, |log| + 1);
    } else {
      WrittenIsAppended(rows, log, pend[1..]);
    }
  }

  lemma StoresOneMore(rows: Table, log: seq<Record>, r: Record)
    requires Stores(rows, log)
    ensures Stores(rows[|log| + 1 := r], log + [r])
  {
  }

  class Store {
    var genesis: Option<seq<Seed>>
    var rows: Table
    var last: nat
    var delivered: nat

    /** `last` is what the greatest sequence query returns. */
    ghost predicate Valid()
      reads this
    {
      IsLast(rows, last)
    }

    constructor ()
      ensures Valid() && genesis == None && rows == map[] && delivered == 0
    {
      genesis, rows, last, delivered := None, map[], 0, 0;
    }

    /** Writes the genesis row once, and only for a state without history. */
    method Initialize(state: EngineState) returns (ok: bool)
      requires Valid() && state.Valid()
      modifies this`genesis
      ensures ok <==> old(genesis).None? && last == 0 && delivered == 0 && state.View() == GenesisOf(state.cache.balances)
      ensures if ok then genesis.Some? && Lists(genesis.value, state.cache.balances) && InOrder(genesis.value)
        else genesis == old(genesis)
    {
      if genesis.Some? || last != 0 || delivered != 0 {
        return false;
      }
      if state.deposits != map[] || state.withdrawals != map[] || state.submissions != map[] || state.cancellations != map[] {
        return false;
      }
      if |state.books| != 0 {
        assert state.Books().Keys == state.books.Keys;
        return false;
      }
      assert state.Books() == map[];
      var seeds := JournalSeed(state.cache);
      genesis := Some(seeds);
      ok := true;
    }

    method ReadRecord(sequence: nat) returns (r: Option<Record>)
      ensures r.Some? ==> sequence in rows && r.value == rows[sequence] && r.value.sequence == sequence
      ensures forall log :: Stores(rows, log) && Numbered(log, 1) ==>
        r == if 1 <= sequence <= |log| then Some(log[sequence - 1]) else None
    {
      if sequence in rows && rows[sequence].sequence == sequence {
        return Some(rows[sequence]);
      }
      r := None;
    }

    /** Moves the delivery cursor by exactly one record, or not at all. */
    method MarkDelivered(sequence: nat) returns (ok: bool)
      modifies this`delivered
      ensures ok <==> old(delivered) + 1 == sequence
      ensures delivered == if ok then sequence else old(delivered)
    {
      ok := delivered + 1 == sequence;
      if ok {
        delivered := sequence;
      }
    }

    /**
     Commits the commands of a group atomically. The commit may fail without a trace, or fail after it was written;
     only a confirmed one moves the worker's own sequence.
    */
    method Append(pend: seq<Pending>, sequence: nat, written: bool, confirmed: bool) returns (ok: bool, sequence': nat)
      requires Valid() && sequence == last && (confirmed ==> written)
      modifies this`rows, this`last
      ensures Valid() && ok == confirmed && sequence' == if ok then last else sequence
      ensures rows == if written then Written(old(rows), pend, old(last)) else old(rows)
      ensures forall log :: Stores(old(rows), log) && |log| == old(last) ==>
        Stores(rows, if written then Protocol.Append(log, pend) else log)
        && last == |if written then Protocol.Append(log, pend) else log|
    {
      forall log | Stores(rows, log) && |log| == last
        ensures Stores(Written(rows, pend, last), Protocol.Append(log, pend))
        ensures forall next :: IsLast(Written(rows, pend, last), next) ==> next == |Protocol.Append(log, pend)|
      {
        WrittenIsAppended(rows, log, pend);
        LastIsLength(Written(rows, pend, last), Protocol.Append(log, pend));
      }
      var transaction: Table, next := rows, last;
      var i := 0;
      assert pend[0..] == pend;
      while i < |pend|
        invariant i <= |pend| && next >= last && IsLast(transaction, next)
        invariant Written(transaction, pend[i..], next) == Written(rows, pend, last)
      {
        assert pend[i..][0] == pend[i] && pend[i..][1..] == pend[i + 1..];
        if pend[i].Executed? {
          next := next + 1;
          transaction := transaction[next := Record(next, pend[i].command, pend[i].outcome)];
        }
        i := i + 1;
      }
      if written {
        rows, last := transaction, next;
      }
      ok, sequence' := confirmed, if confirmed then next else sequence;
    }

    /** Rebuilds the state by replaying every stored command, insisting that each outcome is reproduced. */
    method Recover() returns (r: Option<EngineState>)
      requires Valid()
      ensures match Recovered(genesis, rows, last, delivered)
        case None => r.None?
        case Some(c) => r.Some? && r.value.Valid() && r.value.View() == c
    {
      hide Inv;
      hide Apply;
      hide ReplayFrom;
      hide Restored;
      if genesis.None? {
        return None;
      }
      var state := new EngineState();
      var restored := RestoreInto(state.cache, genesis.value);
      if !restored {
        return None;
      }
      RestoredInv(genesis.value);
      assert state.View() == GenesisOf(state.cache.balances);
      var replayed := ReplayRows(state, rows, last);
      if !replayed || delivered > last {
        return None;
      }
      r := Some(state);
    }
  }

  /** Replays the rows in sequence into a state, stopping at the first one that is missing or not reproduced. */
  method ReplayRows(state: EngineState, rows: Table, last: nat) returns (ok: bool)
    requires IsLast(rows, last) && state.Valid()
    modifies state, state.cache, state.owned
    ensures state.Valid()
    ensures ok <==> Whole(rows, 0, last) && ReplayFrom(old(state.View()), Rows(rows, 0, last), 1).Some?
    ensures ok ==> ReplayFrom(old(state.View()), Rows(rows, 0, last), 1) == Some(state.View())
  {
    hide Apply;
    hide ReplayFrom;
    hide Whole;
    hide Rows;
    hide FirstRow;
    hide IsLast;
    hide EngineState.Valid;
    hide EngineState.View;
    hide EngineState.Sides;
    ghost var first := state.View();
    var next := 1;
    NothingReplayed(first, rows);
    while next <= last
      invariant 1 <= next <= last + 1 && fresh(state.owned - old(state.owned))
      invariant state.Valid() && Whole(rows, 0, next - 1)
      invariant ReplayFrom(first, Rows(rows, 0, next - 1), 1) == Some(state.View())
    {
      NextRow(rows, next, last);
      var sequence := FirstRow(rows, next - 1, last).value;
      if sequence != next || rows[sequence].sequence != sequence {
        return false;
      }
      var record := rows[sequence];
      ReplayOneRow(first, rows, next, last);
      var replayed := state.ApplyCommand(record.command);
      if replayed != record.outcome {
        return false;
      }
      next := next + 1;
    }
    ok := true;
  }

  /** The scan always finds another row up to the last; a gap or a misnumbered row spoils the table. */
  lemma NextRow(rows: Table, next: nat, last: nat)
    requires IsLast(rows, last) && 1 <= next <= last
    ensures var row := FirstRow(rows, next - 1, last);
      row.Some? && row.value in rows && (row.value != next || rows[row.value].sequence != row.value ==> !Whole(rows, 0, last))
  {
    var row := FirstRow(rows, next - 1, last);
    if row.Some? && row.value != next {
      assert next !in rows;
    }
  }

  /** Opens the accounts of a genesis row, one by one. */
  method RestoreInto(cache: BalanceCache, seeds: seq<Seed>) returns (ok: bool)
    requires cache.balances == map[]
    modifies cache
    ensures ok <==> Restored(seeds).Some?
    ensures ok ==> Restored(seeds) == Some(cache.balances)
  {
    hide SeedOk;
    var i := 0;
    while i < |seeds|
      invariant i <= |seeds| && Restored(seeds[..i]) == Some(cache.balances)
    {
      var s := seeds[i];
      assert seeds[..i + 1][..i] == seeds[..i];
      if !SeedOk(s) || KeyOf(s) in cache.balances {
        RestoredNoneForGood(seeds, i + 1);
        return false;
      }
      cache.OpenAccount(KeyOf(s), Balance(s.available, 0));
      i := i + 1;
    }
    assert seeds[..|seeds|] == seeds;
    ok := true;
  }

  lemma {:induction false} RestoredInRange(seeds: seq<Seed>)
    requires Restored(seeds).Some?
    ensures AllInRange(Restored(seeds).value)
  {
    hide Trimmed;
    if seeds != [] {
      RestoredInRange(seeds[..|seeds| - 1]);
    }
  }

  lemma RestoredInv(seeds: seq<Seed>)
    ensures Restored(seeds).Some? ==> Inv(GenesisOf(Restored(seeds).value))
  {
    if Restored(seeds).Some? {
      RestoredInRange(seeds);
    }
    hide Restored;
  }

  lemma LastIsLength(rows: Table, log: seq<Record>)
    requires Stores(rows, log)
    ensures forall last :: IsLast(rows, last) ==> last == |log|
  {
    assert |log| > 0 ==> |log| in rows;
  }

  lemma NothingReplayed(c: Core, rows: Table)
    ensures Whole(rows, 0, 0) && ReplayFrom(c, Rows(rows, 0, 0), 1) == Some(c)
  {
    assert Rows(rows, 0, 0) == [];
  }

  /** Replaying one more row succeeds exactly when it reproduces the outcome; otherwise the whole table is refused. */
  lemma ReplayOneRow(c: Core, rows: Table, next: nat, last: nat)
    requires 1 <= next <= last && Whole(rows, 0, next - 1) && next in rows && rows[next].sequence == next
    requires ReplayFrom(c, Rows(rows, 0, next - 1), 1).Some?
    ensures Whole(rows, 0, next)
    ensures var before := ReplayFrom(c, Rows(rows, 0, next - 1), 1).value;
      if Apply(before, rows[next].command).1 == rows[next].outcome
      then ReplayFrom(c, Rows(rows, 0, next), 1) == Some(Next(before, rows[next].command))
      else Whole(rows, 0, last) ==> ReplayFrom(c, Rows(rows, 0, last), 1).None?
  {
    hide Apply;
    hide ReplayFrom;
    var records, r := Rows(rows, 0, next - 1), rows[next];
    assert Rows(rows, 0, next) == records + [r];
    ReplaySnoc(c, records, r, 1);
    if ReplayFrom(c, records + [r], 1).None? && Whole(rows, 0, last) {
      assert Rows(rows, 0, last) == records + [r] + Rows(rows, next, last);
      ReplayFailsForGood(c, records + [r], Rows(rows, next, last), 1);
    }
  }

  lemma {:induction false} RestoredNoneForGood(seeds: seq<Seed>, i: nat)
    requires i <= |seeds| && Restored(seeds[..i]).None?
    ensures Restored(seeds).None?
    decreases |seeds| - i
  {
    if i == |seeds| {
      assert seeds[..i] == seeds;
    } else {
      assert seeds[..i + 1][..i] == seeds[..i];
      RestoredNoneForGood(seeds, i + 1);
    }
  }
}
