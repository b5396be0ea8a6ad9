/** What the published events say, in terms of the state before and after each command, and of the state a run ends in. */
module EventLaws {
  import opened Prelude
  import opened Amount
  import opened Types
  import opened Balances
  import opened Submission
  import opened SubmissionLaws
  import opened OrderLaws
  import opened Core
  import opened CoreLaws
  import opened Journal

  /** The record of a command applied in a state. */
  function RecordAt(c: Core, command: Command, n: nat): Record {
    Record(n, command, Apply(c, command).1)
  }

  ghost predicate Announced(events: seq<Event>, p: Payload) {
    exists i :: 0 <= i < |events| && events[i].payload == p
  }

  /** Events about deposits, withdrawals and cancels say something that the state remembers. */
  predicate IsRemembered(p: Payload) {
    p.Deposited? || p.FundsMoved? || p.FundsRefused? || p.OrderCancelled?
  }

  /** The state says so: a credited deposit, a withdrawal that got so far, a refused one, a cancelled order. */
  ghost predicate InState(c: Core, p: Payload) {
    match p
    case Deposited(credit) => credit.id in c.deposits && c.deposits[credit.id] == DepositReceipt(credit, None)
    case FundsRefused(f) => f.id in c.withdrawals && c.withdrawals[f.id].original == f && c.withdrawals[f.id].status.Refused?
    case FundsMoved(action, f) =>
      f.id in c.withdrawals && c.withdrawals[f.id].original == f
      && (match action
          case Reserve => !c.withdrawals[f.id].status.Refused?
          case Release => c.withdrawals[f.id].status.Released?
          case Complete => c.withdrawals[f.id].status.Completed?)
    case OrderCancelled(id, user, pair) =>
      id in c.cancellations && c.cancellations[id].user == user && c.cancellations[id].base == pair.base
      && c.cancellations[id].quote == pair.quote
    case _ => false
  }

  // ---------------------------------------------------------------- one command

  /** An outcome carries this payload. */
  predicate Says(outcome: Outcome, p: Payload) {
    outcome.Applied? && outcome.output.Some? && p in Payloads(outcome.output.value)
  }

  lemma EventsAre(r: Record)
    ensures forall i :: 0 <= i < |EventsOf(r)| ==> EventsOf(r)[i].sequence == r.sequence && EventsOf(r)[i].index == i
    ensures forall p :: Announced(EventsOf(r), p) <==> Says(r.outcome, p)
  {
    hide Payloads;
    if r.outcome.Applied? && r.outcome.output.Some? {
      var ps := Payloads(r.outcome.output.value);
      forall p ensures Announced(EventsOf(r), p) <==> p in ps {
        if p in ps {
          var i :| 0 <= i < |ps| && ps[i] == p;
          assert EventsOf(r)[i].payload == p;
        }
      }
    }
  }

  /** Both ways round: a step says something exactly when the state did not say so before and does now. */
  ghost predicate TellsTruly(c: Core, c': Core, outcome: Outcome, p: Payload) {
    (Says(outcome, p) <==> !InState(c, p) && InState(c', p)) && (InState(c, p) ==> InState(c', p))
  }

  lemma SaysExactly(outcome: Outcome, p: Payload)
    requires IsRemembered(p)
    ensures Says(outcome, p) <==> match outcome
      case Applied(Some(WithdrawalChanged(action, funds))) => p == FundsMoved(action, funds)
      case Applied(Some(WithdrawalRejected(funds, _))) => p == FundsRefused(funds)
      case Applied(Some(DepositCredited(credit))) => p == Deposited(credit)
      case Applied(Some(Cancelled(o))) => p == OrderCancelled(o.id, o.user, PairOf(o))
      case _ => false
  {
  }

  /** What the state says of deposits, withdrawals and cancellations each depends on its own record only. */
  lemma SameMemory(c: Core, c': Core, p: Payload)
    requires p.Deposited? ==> c'.deposits == c.deposits
    requires p.OrderCancelled? ==> c'.cancellations == c.cancellations
    requires p.FundsMoved? || p.FundsRefused? ==> c'.withdrawals == c.withdrawals
    ensures InState(c', p) <==> InState(c, p)
  {
  }

  /** A withdrawal step publishes itself or its refusal, with the receipt it leaves; or nothing, and leaves the receipts. */
  lemma WithdrawalOutcomes(c: Core, action: WithdrawalAction, funds: WithdrawalFunds)
    ensures var (c', outcome) := ApplyWithdrawal(c, action, funds);
      && c'.deposits == c.deposits && c'.cancellations == c.cancellations
      && if outcome.Applied? && outcome.output.Some? then
           && (if action.Reserve? then funds.id !in c.withdrawals
               else funds.id in c.withdrawals && c.withdrawals[funds.id] == WithdrawalReceipt(funds, Reserved))
           && (match outcome.output.value
               case WithdrawalChanged(a, f) =>
                 a == action && f == funds && c'.withdrawals == c.withdrawals[funds.id := WithdrawalReceipt(funds, StatusAfter(action))]
               case WithdrawalRejected(f, e) =>
                 action.Reserve? && f == funds && c'.withdrawals == c.withdrawals[funds.id := WithdrawalReceipt(funds, Refused(e))]
               case _ => false)
         else c'.withdrawals == c.withdrawals
  {
    hide MoveFunds;
    hide ValidateWithdrawal;
  }

  lemma WithdrawalTells(c: Core, action: WithdrawalAction, funds: WithdrawalFunds, p: Payload)
    requires IsRemembered(p)
    ensures var (c', outcome) := ApplyWithdrawal(c, action, funds); TellsTruly(c, c', outcome, p)
  {
    SaysExactly(ApplyWithdrawal(c, action, funds).1, p);
    WithdrawalOutcomes(c, action, funds);
    hide ApplyWithdrawal;
    hide Says;
    if p.Deposited? || p.OrderCancelled? {
      SameMemory(c, ApplyWithdrawal(c, action, funds).0, p);
    }
  }

  lemma CreditIsInState(c: Core, credit: DepositCredit, p: DepositCredit)
    ensures var (c', outcome) := ApplyDeposit(c, credit);
      && (InState(c', Deposited(p)) <==> InState(c, Deposited(p)) || outcome == Outcome.Applied(Some(DepositCredited(p))))
      && (outcome == Outcome.Applied(Some(DepositCredited(p))) ==> !InState(c, Deposited(p)))
  {
    hide Credited;
    hide ValidateDeposit;
  }

  lemma DepositTells(c: Core, credit: DepositCredit, p: Payload)
    requires IsRemembered(p)
    ensures var (c', outcome) := ApplyDeposit(c, credit); TellsTruly(c, c', outcome, p)
  {
    SaysExactly(ApplyDeposit(c, credit).1, p);
    hide Says;
    hide InState;
    if p.Deposited? {
      CreditIsInState(c, credit, p.credit);
      DepositOutcomes(c, credit);
      hide ApplyDeposit;
    } else {
      SameMemory(c, ApplyDeposit(c, credit).0, p);
      DepositOutcomes(c, credit);
    }
    hide Credited;
    hide ValidateDeposit;
  }

  /** A deposit publishes nothing but itself. */
  lemma DepositOutcomes(c: Core, credit: DepositCredit)
    ensures var (c', outcome) := ApplyDeposit(c, credit);
      && (outcome.Applied? && outcome.output.Some? ==> outcome.output.value == DepositCredited(credit))
      && c'.withdrawals == c.withdrawals && c'.cancellations == c.cancellations
  {
    hide Credited;
    hide ValidateDeposit;
  }

  lemma CancelTells(c: Core, id: nat, user: nat, pair: Pair, p: Payload)
    requires IsRemembered(p)
    ensures var (c', outcome) := ApplyCancel(c, id, user, pair); TellsTruly(c, c', outcome, p)
  {
    SaysExactly(ApplyCancel(c, id, user, pair).1, p);
    hide Says;
    if id !in c.cancellations && CancelOrder(c, id, user, pair).Ok? {
      CancelFinds(c, id, user, pair);
    }
    hide CancelOrder;
  }

  lemma SubmitOutcomes(c: Core, o: Order)
    ensures var (c', outcome) := ApplySubmit(c, o);
      && c'.deposits == c.deposits && c'.withdrawals == c.withdrawals && c'.cancellations == c.cancellations
      && (outcome.Applied? && outcome.output.Some? ==> outcome.output.value.Submitted? || outcome.output.value.Rejected?)
  {
    hide Execute;
    hide Outputs;
  }

  lemma SubmitTells(c: Core, o: Order, p: Payload)
    requires IsRemembered(p)
    ensures var (c', outcome) := ApplySubmit(c, o); TellsTruly(c, c', outcome, p)
  {
    SaysExactly(ApplySubmit(c, o).1, p);
    SubmitOutcomes(c, o);
    SameMemory(c, ApplySubmit(c, o).0, p);
    hide ApplySubmit;
    hide Says;
    hide InState;
  }

  lemma DirectTells(c: Core, command: Command, p: Payload)
    requires command.AdjustBalance? || command.Lock? || command.Unlock?
    ensures var (c', outcome) := Apply(c, command); TellsTruly(c, c', outcome, p)
  {
    SameMemory(c, Next(c, command), p);
    hide Payloads;
    hide InState;
    hide Adjusted;
    hide ChangeReservation;
  }

  /**
   A deposit, withdrawal or cancellation event is published with a command exactly when that command made it true: the
   state did not say so before and does after, and goes on saying so.
  */
  lemma StepTellsTruly(c: Core, command: Command, n: nat, p: Payload)
    requires IsRemembered(p)
    ensures var c' := Next(c, command);
      && (Announced(EventsOf(RecordAt(c, command, n)), p) <==> !InState(c, p) && InState(c', p))
      && (InState(c, p) ==> InState(c', p))
  {
    EventsAre(RecordAt(c, command, n));
    hide EventsOf;
    hide Announced;
    hide Says;
    hide InState;
    hide ApplyWithdrawal;
    hide ApplyDeposit;
    hide ApplyCancel;
    hide ApplySubmit;
    hide Adjusted;
    hide ChangeReservation;
    match command
    case Withdrawal(action, funds) => WithdrawalTells(c, action, funds, p);
    case CreditDeposit(credit) => DepositTells(c, credit, p);
    case Cancel(id, user, pair) => CancelTells(c, id, user, pair, p);
    case Submit(o) => SubmitTells(c, o, p);
    case _ => DirectTells(c, command, p);
  }

  lemma CancelFinds(c: Core, id: nat, user: nat, pair: Pair)
    requires CancelOrder(c, id, user, pair).Ok?
    ensures var (c', o) := CancelOrder(c, id, user, pair).value;
      o.id == id && o.user == user && PairOf(o) == pair
      && c' == c.(accounts := c'.accounts, books := c'.books, cancellations := c.cancellations[id := o])
  {
    FoundHasId(c.books[pair].buys, id);
    FoundHasId(c.books[pair].sells, id);
    hide Find;
    hide Quote;
    hide ChangeReservation;
    hide WithoutOrder;
  }

  lemma {:induction false} FoundHasId(queue: seq<Order>, id: nat)
    ensures Find(queue, id).Some? ==> Find(queue, id).value.id == id
  {
    if queue != [] {
      FoundHasId(queue[1..], id);
    }
  }

  // ---------------------------------------------------------------- submissions

  /** The published terms of a refused order are those submitted; a budget order has no amount. */
  predicate TermsOf(o: Order, p: Payload) {
    && p.OrderRejected? && p.orderId == o.id && p.user == o.user && p.side == o.side && p.kind == o.kind
    && p.pair.base == o.base && p.pair.quote == o.quote && p.price == o.price && p.quoteAmount == o.quoteAmount
    && p.feeRate == o.feeRate
    && (if o.kind.Market? && o.side.Buy? then p.amount.None? else p.amount == Some(o.amount))
  }

  /** The trades in order, then the completion of a market order. */
  ghost predicate ListsTrades(o: Order, outputs: seq<TradeOutput>, completion: Option<Completion>, events: seq<Event>) {
    && (completion.Some? <==> o.kind.Market?)
    && |events| == |outputs| + (if o.kind.Market? then 1 else 0)
    && (forall i :: 0 <= i < |outputs| ==> events[i].payload == TradeExecuted(outputs[i]))
    && (completion.Some? ==> events[|outputs|].payload == MarketCompleted(completion.value))
  }

  /**
   A submission publishes nothing when its id is known; else, when refused, its own terms; else its trades in order,
   followed by the completion for a market order only.
  */
  lemma SubmissionEvents(c: Core, o: Order, n: nat)
    requires Inv(c)
    ensures var r := RecordAt(c, Submit(o), n); var events := EventsOf(r);
      if o.id in c.submissions then events == []
      else match r.outcome
        case Applied(Some(Submitted(_, outputs, completion))) => ListsTrades(o, outputs, completion, events)
        case Applied(Some(Rejected(_, _))) => |events| == 1 && TermsOf(o, events[0].payload)
        case _ => false
  {
    NewOrderReports(c, o);
    hide Inv;
    hide Execute;
    hide Outputs;
  }

  lemma NewOrderReports(c: Core, o: Order)
    requires Inv(c)
    ensures var r := Execute(o, BookAt(c, PairOf(o)), c.accounts); r.Ok? ==> (r.value.completion.Some? <==> o.kind.Market?)
  {
    var b := BookAt(c, PairOf(o));
    BookAtInv(c, PairOf(o));
    BookInvOk(b, PairOf(o), c.submissions);
    hide Inv;
    hide BookOk;
    hide Execute;
    if Execute(o, b, c.accounts).Ok? {
      MarketOrderReports(o, b, c.accounts);
    }
  }

  /** Only a new submission publishes trades, completions or rejections. */
  lemma OnlySubmissionsTrade(c: Core, command: Command, n: nat, p: Payload)
    requires p.TradeExecuted? || p.MarketCompleted? || p.OrderRejected?
    requires Announced(EventsOf(RecordAt(c, command, n)), p)
    ensures command.Submit? && command.order.id !in c.submissions
  {
    EventsAre(RecordAt(c, command, n));
    hide EventsOf;
    hide Announced;
    hide Execute;
    hide Outputs;
    hide CancelOrder;
    hide MoveFunds;
    hide Admit;
    hide Credited;
    hide ValidateDeposit;
    hide Adjusted;
    hide ChangeReservation;
  }

  // ---------------------------------------------------------------- whole runs

  lemma AnnouncedInEither(first: seq<Event>, second: seq<Event>, p: Payload)
    ensures Announced(first + second, p) <==> Announced(first, p) || Announced(second, p)
  {
    var both := first + second;
    if Announced(first, p) {
      var i :| 0 <= i < |first| && first[i].payload == p;
      assert both[i].payload == p;
    }
    if Announced(second, p) {
      var i :| 0 <= i < |second| && second[i].payload == p;
      assert both[|first| + i].payload == p;
    }
    if Announced(both, p) {
      var i :| 0 <= i < |both| && both[i].payload == p;
      assert if i < |first| then first[i].payload == p else second[i - |first|].payload == p;
    }
  }

  lemma {:induction false} RunTellsTruly(c: Core, commands: seq<Command>, n: nat, p: Payload)
    requires IsRemembered(p)
    ensures Announced(Stream(Records(c, commands, n)), p) <==> !InState(c, p) && InState(Run(c, commands), p)
    ensures InState(c, p) ==> InState(Run(c, commands), p)
    decreases |commands|
  {
    hide InState;
    hide EventsOf;
    hide Apply;
    if commands != [] {
      var r := RecordAt(c, commands[0], n);
      var rest := Records(Next(c, commands[0]), commands[1..], n + 1);
      StepTellsTruly(c, commands[0], n, p);
      RunTellsTruly(Next(c, commands[0]), commands[1..], n + 1, p);
      TailOfJoin([r], rest);
      assert ([r] + rest)[1..] == rest;
      AnnouncedInEither(EventsOf(r), Stream(rest), p);
      hide Announced;
    }
  }

  /**
   From a genesis, the stream and the state agree on every deposit, withdrawal step, refused reservation and
   cancellation: it has been published if and only if the state says so.
  */
  lemma StreamTellsState(genesis: Core, commands: seq<Command>, p: Payload)
    requires IsGenesis(genesis) && IsRemembered(p)
    ensures Announced(Stream(Records(genesis, commands, 1)), p) <==> InState(Run(genesis, commands), p)
  {
    RunTellsTruly(genesis, commands, 1, p);
    hide Run;
    hide Stream;
    hide Announced;
  }
}
