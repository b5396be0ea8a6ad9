/** What a caller may conclude from an answer: what was acknowledged is part of the committed state, for good. */
module ReplyLaws {
  import opened Prelude
  import opened Amount
  import opened Types
  import opened Balances
  import opened Submission
  import opened Core
  import opened BackingLaws
  import opened RetryLaws
  import opened Journal
  import opened Protocol
  import opened JournalSafety

  /** The state holds what a command asked to be remembered. */
  ghost predicate Holds(c: Core, command: Command, reply: Reply) {
    match command
    case Submit(o) =>
      reply.Accepted? ==> o.id in c.submissions && o.(createdAt := c.submissions[o.id].createdAt) == c.submissions[o.id]
    case CreditDeposit(credit) =>
      reply.Accepted? ==> credit.id in c.deposits && c.deposits[credit.id] == DepositReceipt(credit, None)
    case Withdrawal(action, funds) =>
      reply.Accepted? ==>
        funds.id in c.withdrawals && c.withdrawals[funds.id].original == funds
        && (c.withdrawals[funds.id].status == StatusAfter(action) || (action.Reserve? && !c.withdrawals[funds.id].status.Refused?))
    case Cancel(id, user, pair) =>
      !reply.InvalidOutcome? && !reply.Accepted?
      && (reply.CancelledIs? ==>
            id in c.cancellations && c.cancellations[id] == reply.order && reply.order.user == user && PairOf(reply.order) == pair)
    case _ => true
  }

  lemma CancelHolds(c: Core, id: nat, user: nat, pair: Pair, at: nat)
    ensures var (c', outcome) := ApplyCancel(c, id, user, pair);
      Holds(c', Cancel(id, user, pair), ReplyOf(Executed(at, Cancel(id, user, pair), outcome)))
  {
    hide ChangeReservation;
    hide Locate;
    hide WithoutOrder;
  }

  lemma WithdrawalHolds(c: Core, action: WithdrawalAction, funds: WithdrawalFunds, at: nat)
    ensures var (c', outcome) := ApplyWithdrawal(c, action, funds);
      Holds(c', Withdrawal(action, funds), ReplyOf(Executed(at, Withdrawal(action, funds), outcome)))
  {
    hide MoveFunds;
    hide ValidateWithdrawal;
  }

  lemma SubmitHolds(c: Core, o: Order, at: nat)
    ensures var (c', outcome) := ApplySubmit(c, o); Holds(c', Submit(o), ReplyOf(Executed(at, Submit(o), outcome)))
  {
    hide Execute;
  }

  lemma DepositHolds(c: Core, credit: DepositCredit, at: nat)
    ensures var (c', outcome) := ApplyDeposit(c, credit);
      Holds(c', CreditDeposit(credit), ReplyOf(Executed(at, CreditDeposit(credit), outcome)))
  {
    hide Credited;
    hide ValidateDeposit;
  }

  lemma StepHolds(c: Core, command: Command, at: nat)
    ensures Holds(Next(c, command), command, ReplyOf(Executed(at, command, Apply(c, command).1)))
  {
    hide ApplySubmit;
    hide ApplyCancel;
    hide ApplyDeposit;
    hide ApplyWithdrawal;
    hide ReplyOf;
    match command
    case Submit(o) => SubmitHolds(c, o, at);
    case Cancel(id, user, pair) => CancelHolds(c, id, user, pair, at);
    case CreditDeposit(credit) => DepositHolds(c, credit, at);
    case Withdrawal(action, funds) => WithdrawalHolds(c, action, funds, at);
    case _ =>
  }

  lemma HoldsOn(c: Core, later: Core, command: Command, reply: Reply)
    requires Holds(c, command, reply) && Remembers(c, later)
    ensures Holds(later, command, reply)
  {
  }

  /**
   Whenever a caller was told yes, the state rebuilt from the committed journal holds what it asked for: the order is
   known, the deposit credited, the withdrawal at its step or past it, the cancellation recorded.
  */
  lemma AcknowledgedIsInTheState(genesis: Core, actions: seq<Action>, s: System, p: Pending)
    requires Runs(genesis, Fresh(genesis), actions, s) && p in s.replies && p.Executed?
    ensures Holds(Replay(genesis, s.log), p.command, ReplyOf(p))
  {
    hide Apply;
    hide Holds;
    hide ReplyOf;
    hide Remembers;
    RepliesAreCommitted(genesis, actions, s, p);
    BackedReply(genesis, actions, s, p);
    var history := Commands(s.log);
    var before, after := Run(genesis, history[..p.at - 1]), history[p.at..];
    StepHolds(before, p.command, p.at);
    RunAppend(genesis, history[..p.at - 1], [p.command]);
    RunOne(before, p.command);
    SplitAround(history, p.at - 1);
    RunAppend(genesis, history[..p.at], after);
    RunRemembers(Next(before, p.command), after);
    HoldsOn(Next(before, p.command), Run(Next(before, p.command), after), p.command, ReplyOf(p));
  }

  lemma BackedReply(genesis: Core, actions: seq<Action>, s: System, p: Pending)
    requires Runs(genesis, Fresh(genesis), actions, s) && p in s.replies && p.Executed?
    ensures BackedBy(genesis, Commands(s.log), p)
  {
    hide BackedBy;
    FreshSafe(genesis);
    RunsSafe(genesis, Fresh(genesis), actions, s);
  }

  // ---------------------------------------------------------------- yes and no, exactly

  predicate Yes(reply: Reply) {
    reply.Accepted? || reply.CancelledIs?
  }

  /** What a yes means at the moment the command is done. */
  ghost predicate Granted(c: Core, command: Command, outcome: Outcome) {
    match command
    case Submit(o) => o.id in c.submissions && o.(createdAt := c.submissions[o.id].createdAt) == c.submissions[o.id]
    case CreditDeposit(credit) => credit.id in c.deposits && c.deposits[credit.id] == DepositReceipt(credit, None)
    case Withdrawal(Reserve, f) => f.id in c.withdrawals && c.withdrawals[f.id] == WithdrawalReceipt(f, Reserved)
    case Withdrawal(Release, f) => f.id in c.withdrawals && c.withdrawals[f.id] == WithdrawalReceipt(f, Released)
    case Withdrawal(Complete, f) => f.id in c.withdrawals && c.withdrawals[f.id] == WithdrawalReceipt(f, Completed)
    case Cancel(id, user, pair) => id in c.cancellations && c.cancellations[id].user == user && PairOf(c.cancellations[id]) == pair
    case _ => outcome.Applied?
  }

  lemma WithdrawalYes(c: Core, action: WithdrawalAction, funds: WithdrawalFunds, at: nat)
    requires HoldsAdmitted(c)
    ensures var (c', outcome) := ApplyWithdrawal(c, action, funds); var command := Withdrawal(action, funds);
      Yes(ReplyOf(Executed(at, command, outcome))) <==> Granted(c', command, outcome)
  {
    hide MoveFunds;
    hide ValidateWithdrawal;
  }

  lemma CancelYes(c: Core, id: nat, user: nat, pair: Pair, at: nat)
    ensures var (c', outcome) := ApplyCancel(c, id, user, pair); var command := Cancel(id, user, pair);
      var reply := ReplyOf(Executed(at, command, outcome));
      && (Yes(reply) <==> Granted(c', command, outcome))
      && (Yes(reply) ==> reply == CancelledIs(c'.cancellations[id]))
  {
    CancelHolds(c, id, user, pair, at);
    hide CancelOrder;
  }

  lemma DepositYes(c: Core, credit: DepositCredit, at: nat)
    ensures var (c', outcome) := ApplyDeposit(c, credit); var command := CreditDeposit(credit);
      Yes(ReplyOf(Executed(at, command, outcome))) <==> Granted(c', command, outcome)
  {
    hide Credited;
    hide ValidateDeposit;
  }

  lemma SubmitYes(c: Core, o: Order, at: nat)
    ensures var (c', outcome) := ApplySubmit(c, o); var command := Submit(o);
      Yes(ReplyOf(Executed(at, command, outcome))) <==> Granted(c', command, outcome)
  {
    hide Execute;
    hide Outputs;
  }

  lemma DirectYes(c: Core, command: Command, at: nat)
    requires command.AdjustBalance? || command.Lock? || command.Unlock?
    ensures var outcome := Apply(c, command).1; Yes(ReplyOf(Executed(at, command, outcome))) <==> outcome.Applied?
  {
    hide Adjusted;
    hide ChangeReservation;
  }

  lemma OtherwiseNo(command: Command, outcome: Outcome, at: nat)
    requires !command.Cancel?
    ensures var reply := ReplyOf(Executed(at, command, outcome)); !Yes(reply) ==> reply.Refusal?
  {
  }

  /** A command is answered yes exactly when it is done as asked, and refused otherwise. */
  lemma StepYes(c: Core, command: Command, at: nat)
    requires HoldsAdmitted(c)
    ensures var (c', outcome) := Apply(c, command); var reply := ReplyOf(Executed(at, command, outcome));
      && (Yes(reply) <==> Granted(c', command, outcome))
      && (command.Cancel? && Yes(reply) ==> reply == CancelledIs(c'.cancellations[command.orderId]))
      && (!Yes(reply) ==> reply.Refusal?)
  {
    if !command.Cancel? {
      OtherwiseNo(command, Apply(c, command).1, at);
    }
    match command {
      case Submit(o) => SubmitYes(c, o, at);
      case Cancel(id, user, pair) =>
        CancelYes(c, id, user, pair, at);
        CancelHolds(c, id, user, pair, at);
      case CreditDeposit(credit) => DepositYes(c, credit, at);
      case Withdrawal(action, funds) => WithdrawalYes(c, action, funds, at);
      case _ => DirectYes(c, command, at);
    }
    hide ApplySubmit;
    hide ApplyCancel;
    hide ApplyDeposit;
    hide ApplyWithdrawal;
    hide HoldsAdmitted;
    hide Adjusted;
    hide ChangeReservation;
    hide ReplyOf;
  }

  lemma GenesisAdmitsHolds(genesis: Core)
    requires IsGenesis(genesis)
    ensures HoldsAdmitted(genesis)
  {
  }

  /**
   In every interleaving, a caller is told yes exactly when the committed journal, replayed up to that command, holds
   what was asked for; a cancel is told the cancelled order; and every other answer to a command is a refusal.
  */
  lemma AnswersAreExact(genesis: Core, actions: seq<Action>, s: System, p: Pending)
    requires IsGenesis(genesis) && Runs(genesis, Fresh(genesis), actions, s) && p in s.replies && p.Executed?
    ensures p.at <= |s.log|
    ensures var c := Replay(genesis, s.log[..p.at]); var reply := ReplyOf(p);
      && (Yes(reply) <==> Granted(c, p.command, p.outcome))
      && (p.command.Cancel? && Yes(reply) ==> reply == CancelledIs(c.cancellations[p.command.orderId]))
      && (!Yes(reply) ==> reply.Refusal?)
  {
    RepliesAreCommitted(genesis, actions, s, p);
    BackedReply(genesis, actions, s, p);
    GenesisAdmitsHolds(genesis);
    var history := Commands(s.log);
    var before := Run(genesis, history[..p.at - 1]);
    RunKeepsHoldsAdmitted(genesis, history[..p.at - 1]);
    StepYes(before, p.command, p.at);
    RunAppend(genesis, history[..p.at - 1], [p.command]);
    RunOne(before, p.command);
    SplitAround(history, p.at - 1);
    assert Commands(s.log[..p.at]) == history[..p.at];
    hide Apply;
    hide Run;
    hide Runs;
    hide Granted;
    hide ReplyOf;
    hide HoldsAdmitted;
  }

  // ---------------------------------------------------------------- queries

  /** The leading orders of a queue: all of them, or as many as asked for. */
  ghost predicate Leads(first: seq<Order>, queue: seq<Order>, depth: Option<nat>) {
    first <= queue && |first| == if depth.Some? then Min(depth.value, |queue|) else |queue|
  }

  /**
   In every interleaving, a query is answered from the committed journal as it was when the query was served: both parts
   of the balance, zero for an account that does not exist, or the leading bids and asks of the book.
  */
  lemma QueriesAreCommitted(genesis: Core, actions: seq<Action>, s: System, p: Pending)
    requires Runs(genesis, Fresh(genesis), actions, s) && p in s.replies && p.Looked?
    ensures p.at <= |s.log| && ReplyOf(p) == AnswerIs(p.answer)
    ensures var c := Replay(genesis, s.log[..p.at]);
      match p.query
      case BalanceOf(user, asset) =>
        p.answer == if (user, asset) in c.accounts
          then BalanceIs(c.accounts[(user, asset)].available, c.accounts[(user, asset)].locked) else BalanceIs(0, 0)
      case BookOf(pair, depth) =>
        p.answer.BookIs? && Leads(p.answer.bids, if pair in c.books then c.books[pair].buys else [], depth)
        && Leads(p.answer.asks, if pair in c.books then c.books[pair].sells else [], depth)
  {
    RepliesAreCommitted(genesis, actions, s, p);
    hide Replay;
    hide Runs;
  }
}
