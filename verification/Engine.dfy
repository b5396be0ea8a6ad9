/** The engine state as one thread owns it, and the commands that change it in place. Each refines the core machine. */
module Engine {
  import opened Prelude
  import opened Amount
  import opened Types
  import opened Matcher
  import opened MatchingLaws
  import opened Balances
  import opened BalanceLaws
  import opened BalanceCaches
  import opened Submission
  import opened SubmissionLaws
  import opened Core
  import opened CoreLaws
  import opened ConservationLaws
  import opened OrderBooks
  import opened Planner
  import opened Workspace

  datatype AppliedSubmission = AppliedSubmission(orderId: nat, trades: seq<Trade>, completion: Option<Completion>)

  ghost function Parts(b: OrderBook): set<object> {
    {b.buys, b.sells}
  }

  ghost function SidesOf(books: map<Pair, OrderBook>): set<object> {
    (set p | p in books :: books[p].buys as object) + (set p | p in books :: books[p].sells as object)
  }

  lemma SidesGrow(books: map<Pair, OrderBook>, pair: Pair, book: OrderBook)
    ensures SidesOf(books[pair := book]) <= SidesOf(books) + Parts(book)
  {
  }

  /** The plan of an accepted order names makers of the book, so committing it cannot miss one. */
  lemma PlanNamesMakers(o: Order, b: Book)
    requires BookOk(b, PairOf(o)) && Plan(o, Opposite(o, b)).Ok?
    ensures var w := Plan(o, Opposite(o, b)).value;
      && Distinct(Opposite(o, b)) && PlannedMakers(Opposite(o, b), w.taker.makers)
      && (w.taker.order.kind.Limit? ==> w.taker.order.price.Some?)
  {
    var w := Plan(o, Opposite(o, b)).value;
    PlanHasFacts(o, b);
    ValidIncoming(o);
    hide Validate;
    hide Walk;
    WalkCommits(Start(o), Opposite(o, b));
    WalkPrices(Start(o), Opposite(o, b));
  }

  /** Changed makers still have a price. */
  lemma {:induction false} WalkPrices(t: Taker, queue: seq<Order>)
    requires Walk(t, queue).Ok?
    ensures forall k :: k in Walk(t, queue).value.taker.makers ==> k in t.makers || Walk(t, queue).value.taker.makers[k].price.Some?
    ensures forall k :: k in t.makers ==>
      k in Walk(t, queue).value.taker.makers && Walk(t, queue).value.taker.makers[k] == t.makers[k]
    decreases |queue|
  {
    hide Validate;
    hide Visit;
    hide Quote;
    hide BudgetQuantity;
    hide Value;
    hide Exact;
    if !Stops(t, queue) {
      VisitMeaning(t, queue[0]);
      match Visit(t, queue[0]).value
      case Skipped => WalkPrices(t, queue[1..]);
      case Filled(t', _, _) => WalkPrices(t', queue[1..]);
    }
  }

  class EngineState {
    var books: map<Pair, OrderBook>
    const cache: BalanceCache
    var submissions: map<nat, Order>
    var cancellations: map<nat, Order>
    var deposits: map<Uuid, DepositReceipt>
    var withdrawals: map<Uuid, WithdrawalReceipt>
    /** Everything the books have ever been made of. */
    ghost var owned: set<object>

    /** The objects that make up the books. */
    ghost function Sides(): set<object>
      reads this`books
    {
      SidesOf(books)
    }

    ghost function Books(): map<Pair, Book>
      reads this`books, Sides()
    {
      map p | p in books :: books[p].View()
    }

    /** The core state this stands for. */
    ghost function View(): Core
      reads this, cache, Sides()
    {
      Core(cache.balances, Books(), submissions, cancellations, deposits, withdrawals)
    }

    /** Every book is well built and shares nothing with another. */
    ghost predicate Built()
      reads this`books, Sides()
    {
      && (forall p :: p in books ==> books[p].Valid())
      && (forall p, q :: p in books && q in books && p != q ==> Parts(books[p]) !! Parts(books[q]))
    }

    ghost predicate Valid()
      reads this, cache, Sides()
    {
      Built() && Inv(View()) && Sides() <= owned
    }

    /** The sides are neither the state itself nor its cache. */
    lemma Apart()
      ensures (this as object) !in Sides() && (cache as object) !in Sides()
    {
    }

    /** One book of a well built state. */
    lemma KnownBook(p: Pair)
      requires Built() && p in books
      ensures books[p].Valid() && Parts(books[p]) <= Sides() && Books()[p] == books[p].View()
    {
    }

    lemma SameBooks()
      ensures Books().Keys == books.Keys
    {
    }

    /** The books as wholes, from each of them. */
    lemma BooksAre(views: map<Pair, Book>)
      requires books.Keys == views.Keys && forall p :: p in books ==> books[p].Valid() && books[p].View() == views[p]
      requires forall p, q :: p in books && q in books && p != q ==> Parts(books[p]) !! Parts(books[q])
      ensures Built() && Books() == views
    {
      hide OrderBook.Valid;
      hide OrderBook.View;
    }

    constructor ()
      ensures fresh(cache) && owned == {} && Valid() && View() == Core(map[], map[], map[], map[], map[], map[])
    {
      books, submissions, cancellations, deposits, withdrawals := map[], map[], map[], map[], map[];
      cache := new BalanceCache();
      owned := {};
    }

    // -------------------------------------------------------------- submit

    /** The pair's book, or a new empty one that is not part of the state yet. */
    method BookFor(pair: Pair) returns (book: OrderBook)
      requires Built()
      ensures book.Valid() && book.View() == BookAt(View(), pair)
      ensures if pair in books then book == books[pair] && Parts(book) <= Sides()
              else fresh(book.buys) && fresh(book.sells) && Parts(book) !! Sides()
    {
      if pair in books {
        book := books[pair];
      } else {
        book := new OrderBook();
      }
    }

    /** Plans, charges on a copy, and only then publishes the book and the balances. */
    method ProcessSubmit(o: Order) returns (r: Result<AppliedSubmission>)
      requires Valid()
      modifies this`books, cache, Sides()
      ensures Built() && fresh(Sides() - old(Sides()))
      ensures match Execute(o, BookAt(old(View()), PairOf(o)), old(cache.balances))
        case Err(reason) => r == Err(reason) && cache.balances == old(cache.balances) && Books() == old(Books())
        case Ok(a) =>
          && r == Ok(AppliedSubmission(a.orderId, a.trades, a.completion))
          && cache.balances == a.accounts && Books() == old(Books())[PairOf(o) := a.book]
    {
      hide Inv;
      hide OrderBook.Valid;
      hide OrderBook.View;
      hide EngineState.Books;
      hide EngineState.Built;
      hide Execute;
      hide Distinct;
      hide PlannedMakers;
      hide BookOk;
      hide Plan;
      hide Charge;
      hide Submission.CommitBook;
      var pair := PairOf(o);
      var book := BookFor(pair);
      ghost var b, accounts := book.View(), cache.balances;
      BookAtInvOk(View(), pair);
      var computed := Compute(o, book);
      ExecuteSteps(o, b, accounts);
      if computed.Err? {
        return Err(computed.error);
      }
      var (plan, prepared, reserved, refund) := computed.value;
      ghost var w := Plan(o, Opposite(o, b)).value;
      PlanNamesMakers(o, b);
      r := Ok(AppliedSubmission(plan.order.id, plan.trades, PlanCompletion(o, plan, reserved, refund)));
      SidesGrow(books, pair, book);
      Publish(pair, book, plan, w, prepared);
    }

    /** Commits the plan and puts the book in its place. */
    method PublishBook(pair: Pair, book: OrderBook, plan: MatchPlan, ghost w: Walked)
      requires Built() && book.Valid() && plan.Valid()
      requires if pair in books then book == books[pair] else Parts(book) !! Sides()
      requires w.taker == plan.Taken() && (plan.order.kind.Limit? ==> plan.order.price.Some?)
      requires Distinct(Opposite(plan.order, book.View())) && PlannedMakers(Opposite(plan.order, book.View()), plan.recorded)
      modifies this`books, book.buys, book.sells
      ensures Built() && books == old(books)[pair := book]
      ensures Books() == old(Books())[pair := Submission.CommitBook(old(book.View()), w)]
    {
      hide Submission.CommitBook;
      hide Distinct;
      hide PlannedMakers;
      hide OrderBook.Valid;
      hide OrderBook.View;
      hide Grouped;
      hide Opposite;
      ghost var before := Books();
      CommitPlan(pair, book, plan, w);
      hide MatchPlan.Valid;
      books := books[pair := book];
      BooksAre(before[pair := book.View()]);
    }

    /** Publishes everything a computed order changed: its book, then the prepared accounts. */
    method Publish(pair: Pair, book: OrderBook, plan: MatchPlan, ghost w: Walked, prepared: Accounts)
      requires Built() && book.Valid() && plan.Valid()
      requires if pair in books then book == books[pair] else Parts(book) !! Sides()
      requires w.taker == plan.Taken() && (plan.order.kind.Limit? ==> plan.order.price.Some?)
      requires Distinct(Opposite(plan.order, book.View())) && PlannedMakers(Opposite(plan.order, book.View()), plan.recorded)
      modifies this`books, cache, book.buys, book.sells
      ensures Built() && books == old(books)[pair := book]
      ensures Books() == old(Books())[pair := Submission.CommitBook(old(book.View()), w)]
      ensures cache.balances == old(cache.balances) + prepared
    {
      hide Submission.CommitBook;
      hide Distinct;
      hide PlannedMakers;
      hide OrderBook.Valid;
      hide OrderBook.View;
      hide EngineState.Books;
      hide EngineState.Built;
      PublishBook(pair, book, plan, w);
      Apart();
      cache.CommitPrepared(prepared);
    }

    /** Plans an order and charges it on copies of the accounts involved. Nothing of the state changes. */
    method Compute(o: Order, book: OrderBook) returns (r: Result<(MatchPlan, Accounts, int, int)>)
      requires book.Valid()
      ensures match Plan(o, Opposite(o, book.View()))
        case Err(reason) => r == Err(reason)
        case Ok(w) =>
          match Charge(o, w, cache.balances)
          case Err(reason) => r == Err(reason)
          case Ok((accounts, reserved, refund)) =>
            && r.Ok? && r.value.2 == reserved && r.value.3 == refund && cache.balances + r.value.1 == accounts
            && r.value.0.Valid() && r.value.0.Taken() == w.taker && r.value.0.trades == w.trades
            && SameTerms(o, r.value.0.order)
    {
      hide Plan;
      hide Charge;
      hide OrderBook.Valid;
      hide CopyOf;
      hide Tracks;
      var planned := PlanOrder(o, book);
      if planned.Err? {
        return Err(planned.error);
      }
      var plan := planned.value;
      ghost var w := Plan(o, Opposite(o, book.View())).value;
      var prepared := Prepare(o, plan.trades, cache);
      InvolvedTrack(o, plan.trades);
      ChargeMirrors(o, w, prepared.balances, cache.balances, Involved(o, plan.trades));
      var charged := ChargeOn(o, plan, w, prepared);
      if charged.Err? {
        return Err(charged.error);
      }
      r := Ok((plan, prepared.balances, charged.value.0, charged.value.1));
    }

    /** Commits a plan to the pair's book; the books of other pairs keep their contents. */
    method CommitPlan(pair: Pair, book: OrderBook, plan: MatchPlan, ghost w: Walked)
      requires Built() && book.Valid() && plan.Valid()
      requires if pair in books then book == books[pair] else Parts(book) !! Sides()
      requires w.taker == plan.Taken() && (plan.order.kind.Limit? ==> plan.order.price.Some?)
      requires Distinct(Opposite(plan.order, book.View())) && PlannedMakers(Opposite(plan.order, book.View()), plan.recorded)
      modifies book.buys, book.sells
      ensures book.Valid() && book.View() == Submission.CommitBook(old(book.View()), w)
      ensures forall p :: p in books && p != pair ==>
        Parts(books[p]) !! Parts(book) && books[p].View() == old(books[p].View()) && books[p].Valid()
    {
      hide Submission.CommitBook;
      hide Distinct;
      hide PlannedMakers;
      hide Grouped;
      hide Levels;
      hide Ordered;
      plan.CommitBook(book, w);
    }

    /** Runs an order once; the same id again changes nothing and is refused unless the content is the same. */
    method Submit(o: Order) returns (outcome: Outcome)
      requires Valid()
      modifies this`books, this`submissions, cache, Sides()
      ensures Built() && fresh(Sides() - old(Sides()))
      ensures View() == ApplySubmit(old(View()), o).0 && outcome == ApplySubmit(old(View()), o).1
    {
      hide Inv;
      hide Execute;
      hide Outputs;
      hide SettlementFees;
      hide EngineState.Books;
      hide EngineState.Built;
      if o.id in submissions {
        var original := submissions[o.id];
        return if o.(createdAt := original.createdAt) == original then Outcome.Applied(None) else Failed(Conflict);
      }
      ghost var before := View();
      RecordingKeepsInv(before, o);
      Apart();
      submissions := submissions[o.id := o];
      var r := ProcessSubmit(o);
      ExecutedFeesExist(o, BookAt(before, PairOf(o)), before.accounts);
      outcome := Announce(o, r);
    }

    // -------------------------------------------------------------- cancel

    /** Takes an order off its book; the books of other pairs keep their contents. */
    method RemoveFrom(pair: Pair, o: Order, buy: bool)
      requires Built() && pair in books
      requires Distinct(if buy then books[pair].buys.flat else books[pair].sells.flat)
      requires o in (if buy then books[pair].buys.flat else books[pair].sells.flat)
      modifies books[pair].buys, books[pair].sells
      ensures books[pair].Valid() && books[pair].View() == WithoutOrder(old(books[pair].View()), o.id, buy)
      ensures forall p :: p in books && p != pair ==>
        Parts(books[p]) !! Parts(books[pair]) && books[p].View() == old(books[p].View()) && books[p].Valid()
    {
      hide Distinct;
      hide WithoutOrder;
      hide AtPrice;
      hide Levels;
      hide Ordered;
      var removed := books[pair].RemoveOrder(o.id, buy, Price(o));
    }

    method TakeOff(pair: Pair, o: Order, buy: bool)
      requires Built() && pair in books
      requires Distinct(if buy then books[pair].buys.flat else books[pair].sells.flat)
      requires o in (if buy then books[pair].buys.flat else books[pair].sells.flat)
      modifies books[pair].buys, books[pair].sells
      ensures Built() && Books() == old(Books())[pair := WithoutOrder(old(Books()[pair]), o.id, buy)]
    {
      hide Distinct;
      hide WithoutOrder;
      hide OrderBook.View;
      hide OrderBook.Valid;
      ghost var before := Books();
      RemoveFrom(pair, o, buy);
      BooksAre(before[pair := WithoutOrder(before[pair], o.id, buy)]);
    }

    /** Finds a resting order, unlocks what it still reserves, and only then takes it off the book. */
    method ProcessCancel(id: nat, user: nat, pair: Pair) returns (r: Result<Order>)
      requires Valid()
      modifies cache, Sides()
      ensures Built()
      ensures match CancelOrder(old(View()), id, user, pair)
        case Err(reason) =>
          r == Err(reason) && cache.balances == old(cache.balances) && Books() == old(Books())
        case Ok((c', o)) =>
          r == Ok(o) && cache.balances == c'.accounts && Books() == c'.books
    {
      hide Inv;
      hide Locate;
      hide Distinct;
      hide Cancellable;
      hide CancelOrder;
      hide WithoutOrder;
      hide OrderBook.Valid;
      hide EngineState.Built;
      hide EngineState.Books;
      ghost var before := View();
      CancelSteps(before, id, user, pair);
      SameBooks();
      if pair !in books {
        return Err(NoBook);
      }
      BookIsOk(before, pair);
      KnownBook(pair);
      var checked := CheckCancel(books[pair], id, user, pair);
      if checked.Err? {
        return Err(checked.error);
      }
      var (o, buy, unlock) := checked.value;
      var unlocked := cache.ChangeReservation(ReserveKey(o), unlock, false);
      if unlocked.Err? {
        return Err(unlocked.error);
      }
      TakeOff(pair, o, buy);
      r := Ok(o);
    }

    /** Cancels an order once; a repeated cancellation by its owner is answered with the order already cancelled. */
    method Cancel(id: nat, user: nat, pair: Pair) returns (outcome: Outcome)
      requires Valid()
      modifies this`cancellations, cache, Sides()
      ensures Built() && View() == ApplyCancel(old(View()), id, user, pair).0 && outcome == ApplyCancel(old(View()), id, user, pair).1
    {
      hide Inv;
      hide CancelOrder;
      hide EngineState.Books;
      hide EngineState.Built;
      if id in cancellations {
        var o := cancellations[id];
        return if o.user == user && o.base == pair.base && o.quote == pair.quote then DuplicateCancellation(o) else Failed(Unauthorized);
      }
      ghost var before := View();
      CancelChanges(before, id, user, pair);
      var r := ProcessCancel(id, user, pair);
      match r {
        case Ok(o) =>
          Apart();
          cancellations := cancellations[id := o];
          outcome := Outcome.Applied(Some(Cancelled(o)));
        case Err(reason) =>
          outcome := Failed(reason);
      }
    }

    // -------------------------------------------------------------- deposits

    /** Credits a deposit once. A refused calculation is remembered, so the same deposit never succeeds later. */
    method Deposit(credit: DepositCredit) returns (outcome: Outcome)
      modifies this`deposits, cache
      ensures View() == ApplyDeposit(old(View()), credit).0 && outcome == ApplyDeposit(old(View()), credit).1
    {
      Apart();
      hide Add;
      hide Trimmed;
      hide EngineState.Books;
      if credit.id in deposits {
        var receipt := deposits[credit.id];
        if receipt.original != credit {
          return Failed(Conflict);
        }
        return if receipt.rejection.Some? then Failed(receipt.rejection.value) else Outcome.Applied(None);
      }
      var checked := ValidateDeposit(credit);
      if checked.Err? {
        return Failed(checked.error);
      }
      var k := (credit.user, credit.asset);
      var next := Add(Of(cache.balances, k).available, credit.amount);
      match next {
        case Ok(available) =>
          cache.SetAvailable(k, available);
          deposits := deposits[credit.id := DepositReceipt(credit, None)];
          outcome := Outcome.Applied(Some(DepositCredited(credit)));
        case Err(reason) =>
          deposits := deposits[credit.id := DepositReceipt(credit, Some(reason))];
          outcome := Failed(reason);
      }
    }

    // -------------------------------------------------------------- withdrawals

    /** Moves the money of an admitted withdrawal step. */
    method MoveWithdrawal(action: WithdrawalAction, funds: WithdrawalFunds) returns (r: Result<()>)
      modifies cache
      ensures match MoveFunds(old(cache.balances), action, funds)
        case Err(reason) => r == Err(reason) && cache.balances == old(cache.balances)
        case Ok(accounts) => r.Ok? && cache.balances == accounts
    {
      hide Add;
      hide Subtract;
      hide Balances.ChangeReservation;
      var k := FundsKey(funds);
      match action {
        case Reserve => r := cache.ChangeReservation(k, funds.amount, true);
        case Release => r := cache.ChangeReservation(k, funds.amount, false);
        case Complete =>
          if k !in cache.balances {
            return Err(MissingBalance);
          }
          var locked :- Subtract(cache.balances[k].locked, funds.amount);
          cache.SetLocked(k, locked);
          r := Ok(());
      }
    }

    /**
     One step of a withdrawal's life. A repeated step changes nothing; a refused reservation is remembered, while a
     refused release or completion is not.
    */
    method Withdraw(action: WithdrawalAction, funds: WithdrawalFunds) returns (outcome: Outcome)
      modifies this`withdrawals, cache
      ensures View() == ApplyWithdrawal(old(View()), action, funds).0 && outcome == ApplyWithdrawal(old(View()), action, funds).1
    {
      Apart();
      hide MoveFunds;
      hide ValidateWithdrawal;
      hide EngineState.Books;
      var checked := ValidateWithdrawal(funds);
      if checked.Err? {
        return Failed(checked.error);
      }
      if funds.id in withdrawals {
        var receipt := withdrawals[funds.id];
        if receipt.original != funds {
          return Failed(Conflict);
        }
        if receipt.status.Refused? {
          return Failed(receipt.status.reason);
        }
        if receipt.status == StatusAfter(action) {
          return Outcome.Applied(None);
        }
        if !receipt.status.Reserved? {
          return Failed(Finalized);
        }
      } else if !action.Reserve? {
        return Failed(NoReservation);
      }
      var moved := MoveWithdrawal(action, funds);
      match moved {
        case Ok(_) =>
          withdrawals := withdrawals[funds.id := WithdrawalReceipt(funds, StatusAfter(action))];
          outcome := Outcome.Applied(Some(WithdrawalChanged(action, funds)));
        case Err(reason) =>
          if action.Reserve? {
            withdrawals := withdrawals[funds.id := WithdrawalReceipt(funds, Refused(reason))];
            outcome := Outcome.Applied(Some(WithdrawalRejected(funds, reason)));
          } else {
            outcome := Failed(reason);
          }
      }
    }

    // -------------------------------------------------------------- balance commands

    method Adjust(user: nat, asset: Asset, delta: int) returns (outcome: Outcome)
      modifies cache
      ensures match Adjusted(old(cache.balances), user, asset, delta)
        case Err(reason) => outcome == Failed(reason) && cache.balances == old(cache.balances)
        case Ok(accounts) => outcome == Outcome.Applied(None) && cache.balances == accounts
    {
      hide Add;
      hide Subtract;
      hide Trimmed;
      if !(user > 0 && Trimmed(asset)) {
        return Failed(BadAccount);
      }
      var k := (user, asset);
      var present := Of(cache.balances, k).available;
      var next := if delta >= 0 then Add(present, delta) else Subtract(present, -delta);
      if next.Err? {
        return Failed(next.error);
      }
      cache.SetAvailable(k, next.value);
      outcome := Outcome.Applied(None);
    }

    method Reservation(user: nat, asset: Asset, amount: int, lock: bool) returns (outcome: Outcome)
      modifies cache
      ensures match Balances.ChangeReservation(old(cache.balances), (user, asset), amount, lock)
        case Err(reason) => outcome == Failed(reason) && cache.balances == old(cache.balances)
        case Ok(accounts) => outcome == Outcome.Applied(None) && cache.balances == accounts
    {
      hide Balances.ChangeReservation;
      var r := cache.ChangeReservation((user, asset), amount, lock);
      outcome := if r.Ok? then Outcome.Applied(None) else Failed(r.error);
    }

    // -------------------------------------------------------------- every command

    method Dispatch(command: Command) returns (outcome: Outcome)
      requires Valid()
      modifies this`books, this`submissions, this`cancellations, this`deposits, this`withdrawals, cache, Sides()
      ensures Built() && fresh(Sides() - old(Sides()))
      ensures View() == Apply(old(View()), command).0 && outcome == Apply(old(View()), command).1
    {
      hide Inv;
      hide ApplySubmit;
      hide ApplyCancel;
      hide ApplyDeposit;
      hide ApplyWithdrawal;
      hide Adjusted;
      hide Balances.ChangeReservation;
      hide EngineState.Books;
      hide EngineState.Built;
      Apart();
      match command {
        case Withdrawal(action, funds) => outcome := Withdraw(action, funds);
        case CreditDeposit(credit) => outcome := Deposit(credit);
        case Submit(o) => outcome := this.Submit(o);
        case Cancel(id, user, pair) => outcome := this.Cancel(id, user, pair);
        case AdjustBalance(user, asset, delta) => outcome := Adjust(user, asset, delta);
        case Lock(user, asset, amount) => outcome := Reservation(user, asset, amount, true);
        case Unlock(user, asset, amount) => outcome := Reservation(user, asset, amount, false);
      }
    }

    /** The core thread's state after any command is the core machine's, and so is the outcome. */
    method ApplyCommand(command: Command) returns (outcome: Outcome)
      requires Valid()
      modifies this, cache, owned
      ensures Valid() && fresh(owned - old(owned))
      ensures View() == Apply(old(View()), command).0 && outcome == Apply(old(View()), command).1
    {
      hide Inv;
      hide Apply;
      hide EngineState.Built;
      hide EngineState.Books;
      Apart();
      StepKeepsInv(View(), command);
      outcome := Dispatch(command);
      Apart();
      owned := owned + Sides();
    }
  }

  lemma CancelChanges(c: Core, id: nat, user: nat, pair: Pair)
    ensures CancelOrder(c, id, user, pair).Ok? ==>
      var (c', o) := CancelOrder(c, id, user, pair).value;
      c' == c.(accounts := c'.accounts, books := c'.books, cancellations := c.cancellations[id := o])
  {
    hide Quote;
    hide Locate;
    hide WithoutOrder;
    hide ChangeReservation;
  }

  /** The order a cancellation would take off, on which side, and how much it unlocks. */
  function Cancellable(b: Book, id: nat, user: nat, pair: Pair): Result<(Order, bool, int)> {
    var located :- Locate(b, id);
    var (o, buy) := located;
    var _ :- Ensure(o.user == user, Unauthorized);
    var _ :- Ensure(o.kind.Limit? && if buy then o.side.Buy? else o.side.Sell?, BadResting);
    var _ :- Ensure(o.price.Some? && o.price.value > 0 && o.remaining > 0, BadResting);
    var _ :- Ensure(PairOf(o) == pair, BadResting);
    var unlock :- if buy then Quote(Price(o), o.remaining) else Ok(o.remaining);
    Ok((o, buy, unlock))
  }

  /** The steps of a cancellation, in the order they can fail. */
  lemma CancelSteps(c: Core, id: nat, user: nat, pair: Pair)
    ensures CancelOrder(c, id, user, pair) ==
      if pair !in c.books then Err(NoBook)
      else match Cancellable(c.books[pair], id, user, pair)
        case Err(reason) => Err(reason)
        case Ok((o, buy, unlock)) =>
          match ChangeReservation(c.accounts, ReserveKey(o), unlock, false)
          case Err(reason) => Err(reason)
          case Ok(accounts) =>
            Ok((c.(accounts := accounts, books := c.books[pair := WithoutOrder(c.books[pair], id, buy)],
                   cancellations := c.cancellations[id := o]), o))
  {
    hide Quote;
    hide Locate;
    hide WithoutOrder;
    hide ChangeReservation;
  }

  method CheckCancel(book: OrderBook, id: nat, user: nat, pair: Pair) returns (r: Result<(Order, bool, int)>)
    requires book.Valid() && Distinct(book.buys.flat) && Distinct(book.sells.flat)
    ensures r == Cancellable(book.View(), id, user, pair)
    ensures r.Ok? ==> r.value.0.id == id && r.value.0 in (if r.value.1 then book.buys.flat else book.sells.flat)
  {
    hide Distinct;
    hide Quote;
    hide Locate;
    var located := LocateIn(book, id);
    if located.Err? {
      return Err(located.error);
    }
    var (level, o, buy) := located.value;
    var _ :- Ensure(o.user == user, Unauthorized);
    var _ :- Ensure(o.kind.Limit? && if buy then o.side.Buy? else o.side.Sell?, BadResting);
    var _ :- Ensure(o.price == Some(level) && level > 0 && o.remaining > 0, BadResting);
    var _ :- Ensure(PairOf(o) == pair, BadResting);
    var unlock := o.remaining;
    if buy {
      unlock :- Quote(level, o.remaining);
    }
    var side := if buy then book.buys else book.sells;
    assert side.total > 0;
    r := Ok((o, buy, unlock));
  }

  lemma BookIsOk(c: Core, p: Pair)
    requires Inv(c) && p in c.books
    ensures BookOk(c.books[p], p) && Distinct(c.books[p].buys) && Distinct(c.books[p].sells)
  {
  }

  // ---------------------------------------------------------------- searching a book

  /** Looks through the levels of a side from the lowest price, each in time order. */
  method Search(side: OrderBookSide, id: nat) returns (r: Option<(int, Order)>)
    requires side.Valid() && Distinct(side.flat)
    ensures Find(side.flat, id) == (if r.Some? then Some(r.value.1) else None)
    ensures r.Some? ==> r.value.1 in side.flat && r.value.1.id == id && r.value.1.price == Some(r.value.0)
  {
    hide Ordered;
    hide Distinct;
    var left := side.orders.Keys;
    while left != {}
      invariant left <= side.orders.Keys
      invariant forall o :: o in side.flat && Price(o) !in left ==> o.id != id
      decreases |left|
    {
      var level := BestPrice(left, false);
      var queue := side.orders[level];
      AtPriceMembers(side.flat, level);
      var at := Position(queue, id);
      if at < |queue| {
        assert queue[at] in queue;
        OnlyOne(side.flat, queue[at]);
        return Some((level, queue[at]));
      }
      left := left - {level};
    }
    FindMeaning(side.flat, id);
    r := None;
  }

  lemma OnlyOne(flat: seq<Order>, o: Order)
    requires Distinct(flat) && o in flat
    ensures Find(flat, o.id) == Some(o)
  {
    FindMeaning(flat, o.id);
    var i :| 0 <= i < |flat| && flat[i] == o;
    var j :| 0 <= j < |flat| && flat[j] == Find(flat, o.id).value;
    assert i == j;
  }

  method LocateIn(book: OrderBook, id: nat) returns (r: Result<(int, Order, bool)>)
    requires book.Valid() && Distinct(book.buys.flat) && Distinct(book.sells.flat)
    ensures match Locate(book.View(), id)
      case Err(reason) => r == Err(reason)
      case Ok((o, buy)) =>
        && r.Ok? && r.value.1 == o && r.value.2 == buy && o.id == id && o.price == Some(r.value.0)
        && o in (if buy then book.buys.flat else book.sells.flat)
  {
    hide Distinct;
    var found := Search(book.buys, id);
    if found.Some? {
      return Ok((found.value.0, found.value.1, true));
    }
    found := Search(book.sells, id);
    if found.Some? {
      return Ok((found.value.0, found.value.1, false));
    }
    r := Err(NoOrder);
  }

  // ---------------------------------------------------------------- outputs

  lemma ExecutedFeesExist(o: Order, b: Book, accounts: Accounts)
    ensures Execute(o, b, accounts).Ok? ==> forall t :: t in Execute(o, b, accounts).value.trades ==> SettlementFees(t).Ok?
  {
    hide Plan;
    hide SettleAll;
    hide SettlementFees;
    hide ChangeReservation;
    hide StillReserved;
    hide Reservation;
    hide Refund;
    hide Submission.CommitBook;
    if Execute(o, b, accounts).Ok? {
      var w := Plan(o, Opposite(o, b)).value;
      var locked := ChangeReservation(accounts, ReserveKey(o), Reservation(o).value, true).value;
      forall t | t in w.trades ensures SettlementFees(t).Ok? {
        SettledFeesExist(locked, w.trades, t);
      }
    }
  }

  /** An accepted order is announced with its trades and fees, a refused one with the reason. Both are outcomes. */
  method Announce(o: Order, r: Result<AppliedSubmission>) returns (outcome: Outcome)
    requires r.Ok? ==> forall t :: t in r.value.trades ==> SettlementFees(t).Ok?
    ensures outcome == match r
      case Ok(applied) => Outcome.Applied(Some(Submitted(applied.orderId, Outputs(applied.trades), applied.completion)))
      case Err(reason) => Outcome.Applied(Some(Rejected(o, reason)))
  {
    match r {
      case Ok(applied) =>
        var outputs := BuildOutputs(applied.trades);
        outcome := Outcome.Applied(Some(Submitted(applied.orderId, outputs, applied.completion)));
      case Err(reason) =>
        outcome := Outcome.Applied(Some(Rejected(o, reason)));
    }
  }

  /** Records the fees of each settled trade; computing them again cannot fail. */
  method BuildOutputs(trades: seq<Trade>) returns (outputs: seq<TradeOutput>)
    requires forall t :: t in trades ==> SettlementFees(t).Ok?
    ensures outputs == Outputs(trades)
  {
    hide Fee;
    hide Quote;
    outputs := [];
    var i := 0;
    assert trades[0..] == trades;
    while i < |trades|
      invariant i <= |trades| && outputs + Outputs(trades[i..]) == Outputs(trades)
    {
      var t := trades[i];
      assert t in trades;
      assert trades[i..][0] == t && trades[i..][1..] == trades[i + 1..];
      var buyerFee := Fee(t.amount, t.buyerFeeRate).value;
      var value := Quote(t.price, t.amount).value;
      var sellerFee := Fee(value, t.sellerFeeRate).value;
      outputs := outputs + [TradeOutput(t, buyerFee, sellerFee)];
      i := i + 1;
    }
  }

  function PlanCompletion(o: Order, plan: MatchPlan, reserved: int, refund: int): Option<Completion>
    reads plan
  {
    if o.kind.Market? then
      Some(Completion(o.id, o.user, o.side, o.base, o.quote, plan.totalAmount, plan.totalQuote, reserved, refund,
                      |plan.trades|, refund == 0))
    else None
  }

  /** The steps of an execution, in the order they can fail. */
  lemma ExecuteSteps(o: Order, b: Book, accounts: Accounts)
    ensures Execute(o, b, accounts) == match Plan(o, Opposite(o, b))
      case Err(reason) => Err(reason)
      case Ok(w) =>
        match Charge(o, w, accounts)
        case Err(reason) => Err(reason)
        case Ok((accounts', reserved, refund)) =>
          Ok(Submission.Applied(Submission.CommitBook(b, w), accounts', o.id, w.trades, CompletionOf(o, w, reserved, refund)))
  {
    hide Plan;
    hide Charge;
    hide Submission.CommitBook;
  }

  lemma BookAtInvOk(c: Core, p: Pair)
    requires Inv(c)
    ensures BookOk(BookAt(c, p), p)
  {
    BookAtInv(c, p);
  }
}
