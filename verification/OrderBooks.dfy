/**
 One pair's order book as it is stored: a FIFO queue per price and a cached count on each side, updated in place.
 Each side keeps, as a ghost, the flat priority list that the rest of the model reasons about.
*/
module OrderBooks {
  import opened Prelude
  import opened Types
  import opened Matcher
  import opened MatchingLaws
  import opened Submission
  import opened Core

  // ---------------------------------------------------------------- price levels of a flat list

  function AtPrice(flat: seq<Order>, price: int): seq<Order> {
    if flat == [] then []
    else if Price(flat[0]) == price then [flat[0]] + AtPrice(flat[1..], price)
    else AtPrice(flat[1..], price)
  }

  lemma {:induction false} AtPriceMembers(flat: seq<Order>, price: int)
    ensures forall o :: o in AtPrice(flat, price) <==> o in flat && Price(o) == price
    ensures |AtPrice(flat, price)| <= |flat|
  {
    if flat != [] {
      AtPriceMembers(flat[1..], price);
    }
  }

  lemma {:induction false} AtPriceJoin(a: seq<Order>, b: seq<Order>, price: int)
    ensures AtPrice(a + b, price) == AtPrice(a, price) + AtPrice(b, price)
  {
    if a == [] {
      assert a + b == b;
    } else {
      assert (a + b)[1..] == a[1..] + b;
      AtPriceJoin(a[1..], b, price);
    }
  }

  /** The levels of a flat list: every price in use with its queue, and no empty queue. */
  ghost predicate Levels(orders: map<int, seq<Order>>, flat: seq<Order>) {
    && (forall p :: p in orders ==> orders[p] == AtPrice(flat, p) != [])
    && (forall o :: o in flat ==> Price(o) in orders)
    && (forall o :: o in flat ==> o.price.Some?)
  }

  function LevelAt(orders: map<int, seq<Order>>, price: int): seq<Order> {
    if price in orders then orders[price] else []
  }

  lemma LevelAtMeans(orders: map<int, seq<Order>>, flat: seq<Order>, price: int)
    requires Levels(orders, flat)
    ensures LevelAt(orders, price) == AtPrice(flat, price)
  {
    if price !in orders {
      NoneAtPrice(flat, price);
    }
  }

  lemma {:induction false} NoneAtPrice(flat: seq<Order>, price: int)
    requires forall o :: o in flat ==> Price(o) != price
    ensures AtPrice(flat, price) == []
  {
    if flat != [] {
      assert flat[0] in flat;
      NoneAtPrice(flat[1..], price);
    }
  }

  // ---------------------------------------------------------------- adding

  lemma ConsOrdered(head: Order, rest: seq<Order>, side: Side)
    requires Ordered(side, rest) && forall r :: r in rest ==> Ahead(side, head, r)
    ensures Ordered(side, [head] + rest)
  {
    hide Ahead;
    var all := [head] + rest;
    forall i, j | 0 <= i < j < |all| ensures Ahead(side, all[i], all[j]) {
      assert all[j] == rest[j - 1] && rest[j - 1] in rest;
      if i > 0 {
        assert all[i] == rest[i - 1];
      }
    }
  }

  lemma {:induction false} InsertShape(flat: seq<Order>, o: Order, side: Side)
    requires Ordered(side, flat)
    ensures Ordered(side, Insert(flat, o, side)) && |Insert(flat, o, side)| == |flat| + 1
    ensures forall r :: r in Insert(flat, o, side) <==> r == o || r in flat
    ensures forall p :: AtPrice(Insert(flat, o, side), p) == if p == Price(o) then AtPrice(flat, p) + [o] else AtPrice(flat, p)
  {
    hide Ordered;
    hide Price;
    if flat == [] {
      assert Ordered(side, []) by { EmptyOrdered(side); }
      ConsOrdered(o, [], side);
      assert [o] + [] == [o] && [o][1..] == [];
    } else {
      TailOrdered(flat, side);
      var rest := flat[1..];
      if Ahead(side, flat[0], o) {
        InsertShape(rest, o, side);
        ConsOrdered(flat[0], Insert(rest, o, side), side);
        assert ([flat[0]] + Insert(rest, o, side))[1..] == Insert(rest, o, side);
      } else {
        assert ([o] + flat)[1..] == flat;
        BehindNone(flat, o, side);
        ConsOrdered(o, flat, side);
        NoneAtPrice(flat, Price(o));
      }
    }
  }

  /** An order better than the first is better than all, and alone at its price. */
  lemma BehindNone(flat: seq<Order>, o: Order, side: Side)
    requires flat != [] && Ordered(side, flat) && !Ahead(side, flat[0], o)
    ensures forall r :: r in flat ==> Ahead(side, o, r) && Price(r) != Price(o)
  {
    TailOrdered(flat, side);
    hide Ordered;
    assert forall r :: r in flat ==> r == flat[0] || r in flat[1..];
  }

  lemma EmptyOrdered(side: Side)
    ensures Ordered(side, [])
  {
  }

  lemma LevelsAfterInsert(orders: map<int, seq<Order>>, flat: seq<Order>, o: Order, side: Side)
    requires Levels(orders, flat) && Ordered(side, flat) && o.price.Some?
    ensures Levels(orders[Price(o) := LevelAt(orders, Price(o)) + [o]], Insert(flat, o, side))
    ensures Ordered(side, Insert(flat, o, side)) && |Insert(flat, o, side)| == |flat| + 1
  {
    InsertShape(flat, o, side);
    LevelAtMeans(orders, flat, Price(o));
    hide Ordered;
    hide Insert;
    hide AtPrice;
  }

  // ---------------------------------------------------------------- removing

  /** Removes the first order of this id at this price. */
  function RemoveAt(flat: seq<Order>, id: nat, price: int): seq<Order> {
    if flat == [] then []
    else if flat[0].id == id && Price(flat[0]) == price then flat[1..]
    else [flat[0]] + RemoveAt(flat[1..], id, price)
  }

  lemma {:induction false} RemoveAtShape(flat: seq<Order>, id: nat, price: int)
    ensures forall p :: AtPrice(RemoveAt(flat, id, price), p) == if p == price then Remove(AtPrice(flat, p), id) else AtPrice(flat, p)
    ensures forall r :: r in RemoveAt(flat, id, price) ==> r in flat
    ensures |RemoveAt(flat, id, price)| == |flat| - if Find(AtPrice(flat, price), id).Some? then 1 else 0
  {
    if flat != [] {
      RemoveAtShape(flat[1..], id, price);
      assert AtPrice(flat, price) != [] && AtPrice(flat, price)[0] == flat[0] ==> true;
    }
  }

  lemma {:induction false} RemoveAtOrdered(flat: seq<Order>, id: nat, price: int, side: Side)
    requires Ordered(side, flat)
    ensures Ordered(side, RemoveAt(flat, id, price))
  {
    hide Ordered;
    hide Ahead;
    if flat != [] {
      TailOrdered(flat, side);
      RemoveAtOrdered(flat[1..], id, price, side);
      RemoveAtShape(flat[1..], id, price);
      if !(flat[0].id == id && Price(flat[0]) == price) {
        ConsOrdered(flat[0], RemoveAt(flat[1..], id, price), side);
      }
    }
  }

  /** Where ids are unique, the price an order rests at does not matter for finding it. */
  lemma {:induction false} RemoveAtIsRemove(flat: seq<Order>, o: Order)
    requires Distinct(flat) && o in flat
    ensures RemoveAt(flat, o.id, Price(o)) == Remove(flat, o.id) && Find(AtPrice(flat, Price(o)), o.id) == Some(o)
  {
    if flat[0] != o {
      var k :| 0 <= k < |flat| && flat[k] == o;
      assert flat[0].id != flat[k].id;
      assert flat[1..][k - 1] == o;
      RemoveAtIsRemove(flat[1..], o);
    }
  }

  // ---------------------------------------------------------------- committing prepared changes

  type Changes = map<nat, Order>

  /** A queue with its changed makers replaced in place and the emptied ones dropped. */
  function Merge(queue: seq<Order>, changed: Changes): seq<Order> {
    if queue == [] then []
    else if queue[0].id in changed then Keep(changed[queue[0].id], Merge(queue[1..], changed))
    else [queue[0]] + Merge(queue[1..], changed)
  }

  /** Changes only ids that are in the queue. */
  ghost predicate Planned(queue: seq<Order>, changed: Changes) {
    forall id :: id in changed ==> exists o :: o in queue && o.id == id
  }

  lemma {:induction false} MergeNothing(queue: seq<Order>)
    ensures Merge(queue, map[]) == queue
  {
    if queue != [] {
      MergeNothing(queue[1..]);
    }
  }

  lemma {:induction false} MergeIgnores(queue: seq<Order>, changed: Changes, id: nat)
    requires forall o :: o in queue ==> o.id != id
    ensures Merge(queue, changed) == Merge(queue, changed - {id})
  {
    if queue != [] {
      assert queue[0] in queue;
      MergeIgnores(queue[1..], changed, id);
    }
  }

  lemma PlannedTail(queue: seq<Order>, changed: Changes)
    requires queue != [] && Planned(queue, changed)
    ensures Planned(queue[1..], changed - {queue[0].id})
  {
    forall id | id in changed - {queue[0].id} ensures exists o :: o in queue[1..] && o.id == id {
      var o :| o in queue && o.id == id;
      assert o in queue[1..];
    }
  }

  /** What the front of a queue becomes once the changes are consulted: nothing, itself, or its replacement. */
  function Popped(o: Order, changed: Changes): seq<Order> {
    if o.id !in changed then [o] else if changed[o.id].remaining > 0 then [changed[o.id]] else []
  }

  lemma PopKeeps(queue: seq<Order>, changed: Changes)
    requires Distinct(queue) && Planned(queue, changed) && changed != map[]
    ensures queue != []
    ensures Distinct(queue[1..]) && Planned(queue[1..], changed - {queue[0].id})
    ensures Merge(queue, changed) == Popped(queue[0], changed) + Merge(queue[1..], changed - {queue[0].id})
  {
    var some := Element(changed.Keys);
    FirstIsDistinct(queue);
    PlannedTail(queue, changed);
    MergeIgnores(queue[1..], changed, queue[0].id);
  }

  /**
   Pops the front of a queue until the last change is made, then pushes back what stays. The unchanged tail behind
   the last changed maker is never touched, and no change is ever missing from the queue.
  */
  method ApplyToLevel(front: seq<Order>, changes: Changes) returns (queue: seq<Order>)
    requires Distinct(front) && Planned(front, changes)
    ensures queue == Merge(front, changes)
  {
    hide Distinct;
    hide Planned;
    hide Merge;
    queue := front;
    var changed: Changes, prefix: seq<Order> := changes, [];
    while changed != map[]
      invariant Distinct(queue) && Planned(queue, changed)
      invariant prefix + Merge(queue, changed) == Merge(front, changes)
      decreases |queue|
    {
      PopKeeps(queue, changed);
      var o := queue[0];
      queue := queue[1..];
      if o.id in changed {
        var next := changed[o.id];
        if next.remaining > 0 {
          prefix := prefix + [next];
        }
      } else {
        prefix := prefix + [o];
      }
      changed := changed - {o.id};
    }
    MergeNothing(queue);
    while prefix != []
      invariant prefix + queue == Merge(front, changes)
      decreases |prefix|
    {
      queue := [prefix[|prefix| - 1]] + queue;
      prefix := prefix[..|prefix| - 1];
    }
  }

  /** The changes of one level applied to the flat list. */
  function MergeAt(flat: seq<Order>, price: int, changed: Changes): seq<Order> {
    if flat == [] then []
    else if Price(flat[0]) == price && flat[0].id in changed then Keep(changed[flat[0].id], MergeAt(flat[1..], price, changed))
    else [flat[0]] + MergeAt(flat[1..], price, changed)
  }

  /** Prepared makers keep their price and their id. */
  ghost predicate Prepared(price: int, changed: Changes) {
    forall id :: id in changed ==> changed[id].price.Some? && Price(changed[id]) == price && changed[id].id == id
  }

  lemma {:induction false} MergeAtShape(flat: seq<Order>, price: int, changed: Changes)
    requires Prepared(price, changed)
    ensures forall p ::
      AtPrice(MergeAt(flat, price, changed), p) == (if p == price then Merge(AtPrice(flat, p), changed) else AtPrice(flat, p))
    ensures |MergeAt(flat, price, changed)| == |flat| - |AtPrice(flat, price)| + |Merge(AtPrice(flat, price), changed)|
  {
    if flat != [] {
      MergeAtShape(flat[1..], price, changed);
    }
  }

  /** Every order left stands where one of its price stood. */
  lemma {:induction false} MergeAtOrigins(flat: seq<Order>, price: int, changed: Changes)
    requires Prepared(price, changed)
    ensures forall r :: r in MergeAt(flat, price, changed) ==> exists o :: o in flat && Price(o) == Price(r)
    ensures (forall o :: o in flat ==> o.price.Some?) ==> forall r :: r in MergeAt(flat, price, changed) ==> r.price.Some?
  {
    hide Price;
    if flat != [] {
      var head, rest := flat[0], MergeAt(flat[1..], price, changed);
      MergeAtOrigins(flat[1..], price, changed);
      assert head in flat && forall o :: o in flat[1..] ==> o in flat;
      forall r | r in MergeAt(flat, price, changed) ensures exists o :: o in flat && Price(o) == Price(r) {
        if r in rest {
          var o :| o in flat[1..] && Price(o) == Price(r);
        } else {
          assert Price(r) == Price(head);
        }
      }
    }
  }

  lemma {:induction false} MergeAtOrdered(flat: seq<Order>, price: int, changed: Changes, side: Side)
    requires Prepared(price, changed) && Ordered(side, flat)
    ensures Ordered(side, MergeAt(flat, price, changed))
  {
    hide Ordered;
    if flat == [] {
      EmptyOrdered(side);
    } else {
      TailOrdered(flat, side);
      var rest := MergeAt(flat[1..], price, changed);
      MergeAtOrdered(flat[1..], price, changed, side);
      MergeAtOrigins(flat[1..], price, changed);
      ConsOrdered(flat[0], rest, side);
      if Price(flat[0]) == price && flat[0].id in changed {
        ConsOrdered(changed[flat[0].id], rest, side);
      }
    }
  }

  lemma LevelsAfterMerge(orders: map<int, seq<Order>>, flat: seq<Order>, price: int, changed: Changes, queue: seq<Order>)
    requires Levels(orders, flat) && Prepared(price, changed) && queue == Merge(AtPrice(flat, price), changed)
    ensures Levels(if queue == [] then orders - {price} else orders[price := queue], MergeAt(flat, price, changed))
  {
    MergeAtShape(flat, price, changed);
    MergeAtOrigins(flat, price, changed);
    hide MergeAt;
    hide Merge;
    hide AtPrice;
    hide Price;
    hide Prepared;
    var flat' := MergeAt(flat, price, changed);
    AtPriceMembers(flat', price);
    forall r | r in flat' ensures Price(r) in orders && (queue == [] ==> Price(r) != price) {
      var o :| o in flat && Price(o) == Price(r);
    }
  }

  lemma {:induction false} AtPriceDistinct(flat: seq<Order>, price: int)
    requires Distinct(flat)
    ensures Distinct(AtPrice(flat, price))
  {
    if flat != [] {
      FirstIsDistinct(flat);
      AtPriceDistinct(flat[1..], price);
      AtPriceMembers(flat[1..], price);
      var rest := AtPrice(flat[1..], price);
      assert forall o :: o in rest ==> o.id != flat[0].id;
      hide AtPrice;
      forall i, j | 0 <= i < j < |[flat[0]] + rest| ensures ([flat[0]] + rest)[i].id != ([flat[0]] + rest)[j].id {
        assert ([flat[0]] + rest)[j] == rest[j - 1] && rest[j - 1] in rest;
      }
    }
  }

  /** The recorded changes whose price is among `done`. */
  function Part(makers: map<(int, nat), Order>, done: set<int>): map<(int, nat), Order> {
    map k | k in makers && k.0 in done :: makers[k]
  }

  /** The same changes, grouped by price. */
  ghost predicate Grouped(makers: map<(int, nat), Order>, changes: map<int, Changes>) {
    && (forall k :: k in makers ==> k.0 in changes && k.1 in changes[k.0] && changes[k.0][k.1] == makers[k])
    && (forall p :: p in changes ==> forall id :: id in changes[p] ==> (p, id) in makers)
  }

  /** Committing one more level. */
  lemma {:induction false} CommitOneLevel(
    flat: seq<Order>, makers: map<(int, nat), Order>, changes: map<int, Changes>, done: set<int>, price: int)
    requires Grouped(makers, changes) && price in changes && price !in done
    requires forall k :: k in makers ==> Key(makers[k]) == k
    ensures Commit(flat, Part(makers, done + {price})) == MergeAt(Commit(flat, Part(makers, done)), price, changes[price])
  {
    if flat != [] {
      CommitOneLevel(flat[1..], makers, changes, done, price);
      var head, rest := flat[0], Commit(flat[1..], Part(makers, done));
      if Key(head) in Part(makers, done) {
        var next := makers[Key(head)];
        assert Price(next) != price;
        assert ([next] + rest)[1..] == rest;
      } else {
        assert ([head] + rest)[1..] == rest;
      }
    }
  }

  lemma {:induction false} CommitLeavesLevel(flat: seq<Order>, makers: map<(int, nat), Order>, price: int)
    requires forall k :: k in makers ==> Key(makers[k]) == k && k.0 != price
    ensures AtPrice(Commit(flat, makers), price) == AtPrice(flat, price)
  {
    if flat != [] {
      CommitLeavesLevel(flat[1..], makers, price);
      var head, rest := flat[0], Commit(flat[1..], makers);
      if Key(head) in makers {
        assert ([makers[Key(head)]] + rest)[1..] == rest;
      } else {
        assert ([head] + rest)[1..] == rest;
      }
    }
  }

  // ---------------------------------------------------------------- one side

  method Position(queue: seq<Order>, id: nat) returns (at: nat)
    ensures at <= |queue| && (forall i :: 0 <= i < at ==> queue[i].id != id) && (at < |queue| ==> queue[at].id == id)
  {
    at := 0;
    while at < |queue| && queue[at].id != id
      invariant at <= |queue| && forall i :: 0 <= i < at ==> queue[i].id != id
    {
      at := at + 1;
    }
  }

  lemma {:induction false} PositionMeans(queue: seq<Order>, id: nat, at: nat)
    requires at <= |queue| && (forall i :: 0 <= i < at ==> queue[i].id != id) && (at < |queue| ==> queue[at].id == id)
    ensures Find(queue, id) == if at < |queue| then Some(queue[at]) else None
    ensures Remove(queue, id) == if at < |queue| then queue[..at] + queue[at + 1..] else queue
    decreases |queue|
  {
    if queue != [] {
      if at == 0 {
        FirstLeftOut(queue);
      } else {
        var tail := queue[1..];
        PositionMeans(tail, id, at - 1);
        if at < |queue| {
          LeavingOut(queue, at);
        } else {
          assert [queue[0]] + tail == queue;
        }
      }
    }
  }

  lemma FirstLeftOut(queue: seq<Order>)
    requires queue != []
    ensures queue[..0] + queue[1..] == queue[1..]
  {
  }

  class OrderBookSide {
    var orders: map<int, seq<Order>>
    var total: nat
    const side: Side
    ghost var flat: seq<Order>

    ghost predicate Valid()
      reads this
    {
      Levels(orders, flat) && Ordered(side, flat) && total == |flat|
    }

    constructor (side: Side)
      ensures Valid() && flat == [] && this.side == side
    {
      orders, total, flat := map[], 0, [];
      this.side := side;
    }

    /** Puts an order last in the queue of its price. */
    method AddOrder(o: Order)
      requires Valid() && o.price.Some?
      modifies this
      ensures Valid() && flat == Insert(old(flat), o, side)
    {
      hide Ordered;
      hide Levels;
      hide Insert;
      var price := o.price.value;
      LevelsAfterInsert(orders, flat, o, side);
      orders := orders[price := LevelAt(orders, price) + [o]];
      total := total + 1;
      flat := Insert(flat, o, side);
    }

    /** Takes an order out of the queue of its price, and the level with it when nothing else is there. */
    method RemoveOrder(id: nat, price: int) returns (removed: Option<Order>)
      requires Valid()
      modifies this
      ensures Valid() && removed == Find(AtPrice(old(flat), price), id)
      ensures flat == if removed.Some? then RemoveAt(old(flat), id, price) else old(flat)
      ensures forall o :: o in old(flat) && Distinct(old(flat)) && o.id == id && Price(o) == price ==>
        removed == Some(o) && flat == Remove(old(flat), id)
    {
      hide Ordered;
      LevelAtMeans(orders, flat, price);
      ghost var before := flat;
      forall o | o in before && Distinct(before) && o.id == id && Price(o) == price
        ensures Find(AtPrice(before, price), id) == Some(o) && RemoveAt(before, id, price) == Remove(before, id)
      {
        RemoveAtIsRemove(before, o);
      }
      hide Distinct;
      if price !in orders {
        return None;
      }
      var queue := orders[price];
      var at := Position(queue, id);
      PositionMeans(queue, id, at);
      if at == |queue| {
        return None;
      }
      removed := Some(queue[at]);
      RemoveAtShape(flat, id, price);
      RemoveAtOrdered(flat, id, price, side);
      queue := queue[..at] + queue[at + 1..];
      flat := RemoveAt(flat, id, price);
      LevelsAfterRemoval(orders, before, queue, flat, price);
      orders := if queue == [] then orders - {price} else orders[price := queue];
      total := total - 1;
    }

    method ApplyPreparedLevel(price: int, changed: Changes)
      requires Valid() && Prepared(price, changed)
      requires Distinct(AtPrice(flat, price)) && Planned(AtPrice(flat, price), changed)
      modifies this
      ensures Valid() && flat == MergeAt(old(flat), price, changed)
    {
      hide Ordered;
      hide Distinct;
      hide Levels;
      hide AtPrice;
      hide Planned;
      hide Prepared;
      LevelAtMeans(orders, flat, price);
      MergeAtShape(flat, price, changed);
      MergeAtOrdered(flat, price, changed, side);
      var queue := LevelAt(orders, price);
      var queue' := ApplyToLevel(queue, changed);
      LevelsAfterMerge(orders, flat, price, changed, queue');
      MergeShrinks(queue, changed);
      AtPriceMembers(flat, price);
      total := total - (|queue| - |queue'|);
      orders := if queue' == [] then orders - {price} else orders[price := queue'];
      flat := MergeAt(flat, price, changed);
    }

    /** Applies the makers a plan changed, level by level. */
    method ApplyPreparedOrders(changes: map<int, Changes>, ghost makers: map<(int, nat), Order>)
      requires Valid() && Distinct(flat) && Grouped(makers, changes) && PlannedMakers(flat, makers)
      modifies this
      ensures Valid() && flat == Commit(old(flat), makers)
    {
      ghost var before := flat;
      var left := changes.Keys;
      assert Part(makers, {}) == map[];
      CommitNothing(flat, map[]);
      AllParts(makers, changes);
      hide Valid;
      hide Distinct;
      hide Commit;
      hide Prepared;
      hide Planned;
      hide PlannedMakers;
      hide Grouped;
      hide Part;
      hide AtPrice;
      ghost var done: set<int> := {};
      while left != {}
        invariant Valid() && left !! done && left + done == changes.Keys
        invariant flat == Commit(before, Part(makers, done))
        decreases |left|
      {
        ghost var some := Element(left);
        var price: int :| price in left;
        OneLevel(before, makers, changes, done, price);
        ApplyPreparedLevel(price, changes[price]);
        MovedOver(left, done, price);
        done := done + {price};
        left := left - {price};
      }
    }
  }

  /** Every prepared maker names an order of the queue and keeps its price and id. */
  ghost predicate PlannedMakers(flat: seq<Order>, makers: map<(int, nat), Order>) {
    forall k :: k in makers ==> Key(makers[k]) == k && makers[k].price.Some? && exists o :: o in flat && Key(o) == k
  }

  lemma AllParts(makers: map<(int, nat), Order>, changes: map<int, Changes>)
    requires Grouped(makers, changes)
    ensures Part(makers, changes.Keys) == makers
  {
  }

  lemma OneLevel(flat: seq<Order>, makers: map<(int, nat), Order>, changes: map<int, Changes>, done: set<int>, price: int)
    requires Distinct(flat) && Grouped(makers, changes) && PlannedMakers(flat, makers) && price in changes && price !in done
    ensures var now := Commit(flat, Part(makers, done));
      && Prepared(price, changes[price]) && Distinct(AtPrice(now, price)) && Planned(AtPrice(now, price), changes[price])
      && Commit(flat, Part(makers, done + {price})) == MergeAt(now, price, changes[price])
  {
    CommitLeavesLevel(flat, Part(makers, done), price);
    CommitOneLevel(flat, makers, changes, done, price);
    AtPriceDistinct(flat, price);
    PlannedAt(flat, makers, changes, price);
  }

  lemma {:induction false} MergeShrinks(queue: seq<Order>, changed: Changes)
    ensures |Merge(queue, changed)| <= |queue|
  {
    if queue != [] {
      MergeShrinks(queue[1..], changed);
    }
  }

  lemma PlannedAt(flat: seq<Order>, makers: map<(int, nat), Order>, changes: map<int, Changes>, price: int)
    requires Grouped(makers, changes) && price in changes && PlannedMakers(flat, makers)
    ensures Planned(AtPrice(flat, price), changes[price]) && Prepared(price, changes[price])
  {
    AtPriceMembers(flat, price);
    forall id | id in changes[price]
      ensures changes[price][id].price.Some? && Key(changes[price][id]) == (price, id)
      ensures exists o :: o in AtPrice(flat, price) && o.id == id
    {
      var k := (price, id);
      assert k in makers;
      var o :| o in flat && Key(o) == k;
      assert o in AtPrice(flat, price);
    }
  }

  lemma LevelsAfterRemoval(orders: map<int, seq<Order>>, flat: seq<Order>, queue: seq<Order>, flat': seq<Order>, price: int)
    requires Levels(orders, flat) && (forall r :: r in flat' ==> r in flat)
    requires forall p :: AtPrice(flat', p) == if p == price then queue else AtPrice(flat, p)
    ensures Levels(if queue == [] then orders - {price} else orders[price := queue], flat')
  {
    forall r | r in flat' && queue == [] ensures Price(r) != price {
      AtPriceMembers(flat', price);
    }
  }

  // ---------------------------------------------------------------- both sides

  class OrderBook {
    const buys: OrderBookSide
    const sells: OrderBookSide

    /** Both sides as flat priority lists. */
    ghost function View(): Book
      reads buys, sells
    {
      Book(buys.flat, sells.flat)
    }

    ghost predicate Valid()
      reads buys, sells
    {
      buys.Valid() && sells.Valid() && buys.side == Buy && sells.side == Sell && buys != sells
    }

    constructor ()
      ensures Valid() && View() == EMPTY_BOOK && fresh(buys) && fresh(sells)
    {
      buys := new OrderBookSide(Buy);
      sells := new OrderBookSide(Sell);
    }

    method AddOrder(o: Order)
      requires Valid() && o.price.Some?
      modifies buys, sells
      ensures Valid() && View() == Submission.AddOrder(old(View()), o)
    {
      hide Insert;
      match o.side {
        case Buy => buys.AddOrder(o);
        case Sell => sells.AddOrder(o);
        case OtherSide(_) =>
      }
    }

    method RemoveOrder(id: nat, buy: bool, price: int) returns (removed: Option<Order>)
      requires Valid()
      modifies buys, sells
      ensures Valid() && removed == Find(AtPrice(if buy then old(buys.flat) else old(sells.flat), price), id)
      ensures removed.None? ==> View() == old(View())
      ensures forall o ::
        o in (if buy then old(buys.flat) else old(sells.flat)) && Distinct(if buy then old(buys.flat) else old(sells.flat))
        && o.id == id && Price(o) == price
        ==> removed == Some(o) && View() == WithoutOrder(old(View()), id, buy)
    {
      hide AtPrice;
      hide Find;
      hide Remove;
      if buy {
        removed := buys.RemoveOrder(id, price);
      } else {
        removed := sells.RemoveOrder(id, price);
      }
    }
  }
}
