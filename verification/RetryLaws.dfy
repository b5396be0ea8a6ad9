/** Re-delivering a command at any later point of any run moves nothing and publishes nothing new. */
module RetryLaws {
  import opened Prelude
  import opened Amount
  import opened Types
  import opened Matcher
  import opened Balances
  import opened Submission
  import opened Core

  /** A reservation may still be finalized, but no longer refused; every other receipt is final. */
  predicate StatusFollows(before: WithdrawalStatus, after: WithdrawalStatus) {
    before == after || (before.Reserved? && !after.Refused?)
  }

  ghost predicate Keeps<V>(m: map<nat, V>, m': map<nat, V>) {
    forall id :: id in m ==> id in m' && m'[id] == m[id]
  }

  ghost predicate KeepsReceipts(m: map<Uuid, WithdrawalReceipt>, m': map<Uuid, WithdrawalReceipt>) {
    forall id :: id in m ==> id in m' && m'[id].original == m[id].original && StatusFollows(m[id].status, m'[id].status)
  }

  /** Nothing that was recorded is forgotten or altered. */
  ghost predicate Remembers(c: Core, c': Core) {
    && Keeps(c.submissions, c'.submissions) && Keeps(c.cancellations, c'.cancellations)
    && Keeps(c.deposits, c'.deposits) && KeepsReceipts(c.withdrawals, c'.withdrawals)
  }

  lemma AllKept(c: Core)
    ensures Keeps(c.submissions, c.submissions) && Keeps(c.cancellations, c.cancellations)
    ensures Keeps(c.deposits, c.deposits) && KeepsReceipts(c.withdrawals, c.withdrawals)
  {
  }

  lemma Recorded<V>(m: map<nat, V>, id: nat, v: V)
    requires id !in m
    ensures Keeps(m, m[id := v])
  {
  }

  lemma StepRemembers(c: Core, command: Command)
    ensures Remembers(c, Next(c, command))
  {
    AllKept(c);
    hide Keeps;
    hide KeepsReceipts;
    hide ApplySubmit;
    hide ApplyCancel;
    hide ApplyWithdrawal;
    hide ApplyDeposit;
    hide ChangeReservation;
    hide Adjusted;
    match command
    case Submit(o) => SubmitRemembers(c, o);
    case Cancel(id, user, pair) => CancelRemembers(c, id, user, pair);
    case CreditDeposit(credit) => DepositRemembers(c, credit);
    case Withdrawal(action, funds) => WithdrawalRemembers(c, action, funds);
    case _ =>
  }

  lemma SubmitRemembers(c: Core, o: Order)
    ensures Remembers(c, ApplySubmit(c, o).0)
  {
    AllKept(c);
    hide Keeps;
    hide KeepsReceipts;
    hide Execute;
    if o.id !in c.submissions {
      Recorded(c.submissions, o.id, o);
    }
  }

  lemma CancelRemembers(c: Core, id: nat, user: nat, pair: Pair)
    ensures Remembers(c, ApplyCancel(c, id, user, pair).0)
  {
    AllKept(c);
    hide Keeps;
    hide KeepsReceipts;
    hide Locate;
    hide Quote;
    hide ChangeReservation;
    if id !in c.cancellations && CancelOrder(c, id, user, pair).Ok? {
      Recorded(c.cancellations, id, CancelOrder(c, id, user, pair).value.1);
    }
  }

  lemma DepositRemembers(c: Core, credit: DepositCredit)
    ensures Remembers(c, ApplyDeposit(c, credit).0)
  {
    AllKept(c);
    hide Keeps;
    hide KeepsReceipts;
    hide Credited;
    hide ValidateDeposit;
    if credit.id !in c.deposits {
      Recorded(c.deposits, credit.id, DepositReceipt(credit, None));
      match Credited(c.accounts, (credit.user, credit.asset), credit.amount)
      case Ok(_) =>
      case Err(reason) => Recorded(c.deposits, credit.id, DepositReceipt(credit, Some(reason)));
    }
  }

  lemma WithdrawalRemembers(c: Core, action: WithdrawalAction, funds: WithdrawalFunds)
    ensures Remembers(c, ApplyWithdrawal(c, action, funds).0)
  {
    AllKept(c);
    hide Keeps;
    hide MoveFunds;
    hide ValidateWithdrawal;
    WithdrawalKeepsReceipts(c, action, funds);
    hide KeepsReceipts;
  }

  lemma WithdrawalKeepsReceipts(c: Core, action: WithdrawalAction, funds: WithdrawalFunds)
    ensures KeepsReceipts(c.withdrawals, ApplyWithdrawal(c, action, funds).0.withdrawals)
  {
    hide MoveFunds;
    hide ValidateWithdrawal;
    hide KeepsReceipts;
    AllKept(c);
    if Admit(c, action, funds) == Ok(true) {
      forall status: WithdrawalStatus | action.Reserve? || !status.Refused?
        ensures KeepsReceipts(c.withdrawals, WithReceipt(c, funds, status).withdrawals)
      {
        ReceiptRecorded(c.withdrawals, WithdrawalReceipt(funds, status));
      }
    }
  }

  lemma ReceiptRecorded(m: map<Uuid, WithdrawalReceipt>, r: WithdrawalReceipt)
    requires r.original.id in m ==>
      m[r.original.id].original == r.original && StatusFollows(m[r.original.id].status, r.status)
    ensures KeepsReceipts(m, m[r.original.id := r])
  {
  }

  lemma {:induction false} RunRemembers(c: Core, commands: seq<Command>)
    ensures Remembers(c, Run(c, commands))
    decreases |commands|
  {
    hide Next;
    if commands != [] {
      StepRemembers(c, commands[0]);
      RunRemembers(Next(c, commands[0]), commands[1..]);
    }
  }

  /** No new financial output. */
  predicate Silent(outcome: Outcome) {
    !(outcome.Applied? && outcome.output.Some?)
  }

  /** The command does nothing to this state and publishes nothing. */
  predicate Inert(c: Core, command: Command) {
    Next(c, command) == c && Silent(Apply(c, command).1)
  }

  /** The order first recorded under the id of a submission. */
  function FirstSubmitted(c: Core, o: Order): Order {
    if o.id in c.submissions then c.submissions[o.id] else o
  }

  /** A submitted id is executed once: repeats are accepted silently, other content is a conflict. */
  lemma SubmitOnce(c: Core, o: Order, between: seq<Command>, again: Order)
    requires again.id == o.id
    ensures var later := Run(Next(c, Submit(o)), between); var first := FirstSubmitted(c, o);
      Inert(later, Submit(again))
      && Apply(later, Submit(again)).1 ==
         if again.(createdAt := first.createdAt) == first then Outcome.Applied(None) else Failed(Conflict)
  {
    SubmitIsRecorded(c, o);
    RunRemembers(Next(c, Submit(o)), between);
    hide Next;
    hide Execute;
    hide Run;
    KnownSubmissionIsInert(Run(Next(c, Submit(o)), between), again);
  }

  lemma SubmitIsRecorded(c: Core, o: Order)
    ensures o.id in Next(c, Submit(o)).submissions && Next(c, Submit(o)).submissions[o.id] == FirstSubmitted(c, o)
  {
    hide Execute;
  }

  lemma KnownSubmissionIsInert(c: Core, o: Order)
    requires o.id in c.submissions
    ensures var first := c.submissions[o.id];
      Inert(c, Submit(o))
      && Apply(c, Submit(o)).1 == if o.(createdAt := first.createdAt) == first then Outcome.Applied(None) else Failed(Conflict)
  {
    hide Execute;
  }

  /** A deposit is credited at most once; a recorded rejection stays a rejection, and other content a conflict. */
  lemma DepositOnce(c: Core, credit: DepositCredit, between: seq<Command>, again: DepositCredit)
    requires again.id == credit.id && (credit.id in c.deposits || ValidateDeposit(credit).Ok?)
    ensures var next := Next(c, CreditDeposit(credit)); var first := Apply(c, CreditDeposit(credit)).1;
      var later := Run(next, between); var outcome := Apply(later, CreditDeposit(again)).1;
      && Inert(later, CreditDeposit(again)) && credit.id in next.deposits
      && (again == credit && first.Failed? ==> outcome == first)
      && (again == credit && first.Applied? ==> outcome == Outcome.Applied(None))
      && (again != next.deposits[credit.id].original ==> outcome == Failed(Conflict))
      && (credit.id !in c.deposits ==> next.deposits[credit.id].original == credit)
  {
    DepositIsRecorded(c, credit);
    hide Next;
    hide ApplyDeposit;
    hide Run;
    hide ValidateDeposit;
    DepositVerdictStands(Next(c, CreditDeposit(credit)), between, again);
  }

  /** Once a deposit id is recorded, every later command with it gets the verdict of that record and changes nothing. */
  lemma DepositVerdictStands(c: Core, between: seq<Command>, again: DepositCredit)
    requires again.id in c.deposits
    ensures var later := Run(c, between);
      Inert(later, CreditDeposit(again)) && Apply(later, CreditDeposit(again)).1 == Verdict(c.deposits[again.id], again)
  {
    RunRemembers(c, between);
    hide Run;
    hide Apply;
    hide Verdict;
    KnownDepositIsInert(Run(c, between), again);
  }

  /** The verdict a recorded deposit gives to a repeat. */
  function Verdict(receipt: DepositReceipt, credit: DepositCredit): Outcome {
    if receipt.original != credit then Failed(Conflict)
    else if receipt.rejection.Some? then Failed(receipt.rejection.value)
    else Outcome.Applied(None)
  }

  lemma KnownDepositIsInert(c: Core, credit: DepositCredit)
    requires credit.id in c.deposits
    ensures Inert(c, CreditDeposit(credit)) && Apply(c, CreditDeposit(credit)).1 == Verdict(c.deposits[credit.id], credit)
  {
    hide Credited;
    hide ValidateDeposit;
  }

  lemma DepositIsRecorded(c: Core, credit: DepositCredit)
    requires credit.id in c.deposits || ValidateDeposit(credit).Ok?
    ensures var c' := Next(c, CreditDeposit(credit)); var outcome := Apply(c, CreditDeposit(credit)).1;
      && credit.id in c'.deposits
      && (credit.id !in c.deposits ==> c'.deposits[credit.id].original == credit)
      && (outcome.Failed? ==> Verdict(c'.deposits[credit.id], credit) == outcome)
      && (outcome.Applied? ==> Verdict(c'.deposits[credit.id], credit) == Outcome.Applied(None))
  {
    ApplyOfDeposit(c, credit);
    hide Apply;
    hide Credited;
    hide ValidateDeposit;
  }

  lemma ApplyOfDeposit(c: Core, credit: DepositCredit)
    ensures Apply(c, CreditDeposit(credit)) == ApplyDeposit(c, credit)
  {
    hide ApplyDeposit;
  }

  /** A malformed deposit is never recorded and never moves anything. */
  lemma MalformedDepositIsInert(c: Core, credit: DepositCredit)
    requires ValidateDeposit(credit).Err?
    ensures Next(c, CreditDeposit(credit)) == c && Silent(Apply(c, CreditDeposit(credit)).1)
    ensures !Apply(c, CreditDeposit(credit)).1.DuplicateCancellation?
  {
    hide ValidateDeposit;
  }

  /** The answer a recorded withdrawal id gives to a reservation. */
  function ReserveVerdict(receipt: WithdrawalReceipt, again: WithdrawalFunds): Outcome {
    match ValidateWithdrawal(again)
    case Err(reason) => Failed(reason)
    case Ok(_) =>
      if receipt.original != again then Failed(Conflict)
      else
        match receipt.status
        case Refused(reason) => Failed(reason)
        case Reserved => Outcome.Applied(None)
        case _ => Failed(Finalized)
  }

  /**
   A withdrawal id is reserved at most once, whatever happened to it since. A repeat is answered by the receipt as it
   then is; a reservation refused for lack of funds stays refused for that reason, and other content is refused.
  */
  lemma ReserveOnce(c: Core, funds: WithdrawalFunds, between: seq<Command>, again: WithdrawalFunds)
    requires again.id == funds.id && (funds.id in c.withdrawals || ValidateWithdrawal(funds).Ok?)
    ensures var next := Next(c, Withdrawal(Reserve, funds)); var later := Run(next, between);
      && funds.id in next.withdrawals && funds.id in later.withdrawals
      && Inert(later, Withdrawal(Reserve, again))
      && Apply(later, Withdrawal(Reserve, again)).1 == ReserveVerdict(later.withdrawals[funds.id], again)
      && later.withdrawals[funds.id].original == next.withdrawals[funds.id].original
      && StatusFollows(next.withdrawals[funds.id].status, later.withdrawals[funds.id].status)
      && (funds.id !in c.withdrawals ==> next.withdrawals[funds.id].original == funds)
  {
    ReserveIsRecorded(c, funds);
    RunRemembers(Next(c, Withdrawal(Reserve, funds)), between);
    hide Next;
    hide ApplyWithdrawal;
    hide Run;
    hide ValidateWithdrawal;
    hide ReserveVerdict;
    KnownReservationIsInert(Run(Next(c, Withdrawal(Reserve, funds)), between), again);
  }

  lemma ReserveIsRecorded(c: Core, funds: WithdrawalFunds)
    requires funds.id in c.withdrawals || ValidateWithdrawal(funds).Ok?
    ensures var c' := Next(c, Withdrawal(Reserve, funds));
      funds.id in c'.withdrawals && (funds.id !in c.withdrawals ==> c'.withdrawals[funds.id].original == funds)
  {
    ApplyReserve(c, funds);
    hide ApplyWithdrawal;
    hide MoveFunds;
    hide ValidateWithdrawal;
    if funds.id in c.withdrawals {
      WithdrawalKeepsReceipts(c, Reserve, funds);
    } else {
      FirstReserve(c, funds);
    }
  }

  lemma ApplyReserve(c: Core, funds: WithdrawalFunds)
    ensures Next(c, Withdrawal(Reserve, funds)) == ApplyWithdrawal(c, Reserve, funds).0
  {
    hide ApplyWithdrawal;
  }

  lemma FirstReserve(c: Core, funds: WithdrawalFunds)
    requires funds.id !in c.withdrawals && ValidateWithdrawal(funds).Ok?
    ensures var c' := ApplyWithdrawal(c, Reserve, funds).0;
      funds.id in c'.withdrawals && c'.withdrawals[funds.id].original == funds
  {
    hide MoveFunds;
    hide ValidateWithdrawal;
  }

  lemma KnownReservationIsInert(c: Core, funds: WithdrawalFunds)
    requires funds.id in c.withdrawals
    ensures Inert(c, Withdrawal(Reserve, funds))
    ensures Apply(c, Withdrawal(Reserve, funds)).1 == ReserveVerdict(c.withdrawals[funds.id], funds)
  {
    hide MoveFunds;
    hide ValidateWithdrawal;
  }

  /** A recorded withdrawal id refuses every action with other content, in every later state. */
  lemma OtherFundsAreRefused(c: Core, action: WithdrawalAction, other: WithdrawalFunds, between: seq<Command>)
    requires other.id in c.withdrawals && other != c.withdrawals[other.id].original
    ensures var later := Run(c, between); var outcome := Apply(later, Withdrawal(action, other)).1;
      && Inert(later, Withdrawal(action, other)) && outcome.Failed?
      && (ValidateWithdrawal(other).Ok? ==> outcome == Failed(Conflict))
  {
    RunRemembers(c, between);
    hide Run;
    hide Apply;
    hide ValidateWithdrawal;
    ConflictIsInert(Run(c, between), action, other);
  }

  lemma ConflictIsInert(c: Core, action: WithdrawalAction, other: WithdrawalFunds)
    requires other.id in c.withdrawals && other != c.withdrawals[other.id].original
    ensures Inert(c, Withdrawal(action, other)) && Apply(c, Withdrawal(action, other)).1.Failed?
    ensures ValidateWithdrawal(other).Ok? ==> Apply(c, Withdrawal(action, other)).1 == Failed(Conflict)
  {
    hide MoveFunds;
    hide ValidateWithdrawal;
  }

  /** A release or completion that was applied is acknowledged again without moving funds; other content is refused. */
  lemma FinalizeOnce(c: Core, action: WithdrawalAction, funds: WithdrawalFunds, between: seq<Command>, again: WithdrawalFunds)
    requires !action.Reserve? && Apply(c, Withdrawal(action, funds)).1.Applied? && again.id == funds.id
    ensures var later := Run(Next(c, Withdrawal(action, funds)), between); var outcome := Apply(later, Withdrawal(action, again)).1;
      && Inert(later, Withdrawal(action, again))
      && (if again == funds then outcome == Outcome.Applied(None) else outcome.Failed?)
  {
    var next := Next(c, Withdrawal(action, funds));
    FinalizedIsRecorded(c, action, funds);
    RunRemembers(next, between);
    hide Apply;
    hide Run;
    hide ValidateWithdrawal;
    if again == funds {
      FinalizedIsInert(Run(next, between), action, funds);
    } else {
      OtherFundsAreRefused(next, action, again, between);
    }
  }

  lemma FinalizedIsRecorded(c: Core, action: WithdrawalAction, funds: WithdrawalFunds)
    requires !action.Reserve? && Apply(c, Withdrawal(action, funds)).1.Applied?
    ensures var next := Next(c, Withdrawal(action, funds));
      ValidateWithdrawal(funds).Ok? && funds.id in next.withdrawals
      && next.withdrawals[funds.id] == WithdrawalReceipt(funds, StatusAfter(action))
  {
    hide MoveFunds;
    hide ValidateWithdrawal;
  }

  lemma FinalizedIsInert(c: Core, action: WithdrawalAction, funds: WithdrawalFunds)
    requires ValidateWithdrawal(funds).Ok? && funds.id in c.withdrawals
    requires c.withdrawals[funds.id] == WithdrawalReceipt(funds, StatusAfter(action))
    ensures Inert(c, Withdrawal(action, funds)) && Apply(c, Withdrawal(action, funds)).1 == Outcome.Applied(None)
  {
    hide MoveFunds;
    hide ValidateWithdrawal;
  }

  /** After one of release and completion was applied, the other is refused for good. */
  lemma NeverBothFinalized(c: Core, funds: WithdrawalFunds, between: seq<Command>, first: WithdrawalAction, second: WithdrawalAction)
    requires !first.Reserve? && !second.Reserve? && first != second && Apply(c, Withdrawal(first, funds)).1.Applied?
    ensures var later := Run(Next(c, Withdrawal(first, funds)), between);
      Inert(later, Withdrawal(second, funds)) && Apply(later, Withdrawal(second, funds)).1 == Failed(Finalized)
  {
    hide MoveFunds;
    hide ValidateWithdrawal;
    hide Run;
    RunRemembers(Next(c, Withdrawal(first, funds)), between);
  }

  /** A cancellation that was applied is reported again to its owner, and refused to anyone else or for another pair. */
  lemma CancelOnce(c: Core, id: nat, user: nat, pair: Pair, between: seq<Command>, asker: nat, asked: Pair)
    requires !Apply(c, Cancel(id, user, pair)).1.Failed?
    ensures var next := Next(c, Cancel(id, user, pair)); var later := Run(next, between);
      && Inert(later, Cancel(id, asker, asked)) && id in next.cancellations
      && Apply(later, Cancel(id, asker, asked)).1 ==
         (if asker == user && asked == pair then DuplicateCancellation(next.cancellations[id]) else Failed(Unauthorized))
  {
    CancelIsRecorded(c, id, user, pair);
    hide Apply;
    hide Run;
    CancellationStands(Next(c, Cancel(id, user, pair)), id, between, asker, asked);
  }

  lemma CancelIsRecorded(c: Core, id: nat, user: nat, pair: Pair)
    requires !Apply(c, Cancel(id, user, pair)).1.Failed?
    ensures var next := Next(c, Cancel(id, user, pair));
      id in next.cancellations && next.cancellations[id].user == user && PairOf(next.cancellations[id]) == pair
  {
    hide ChangeReservation;
    hide Quote;
    hide Locate;
  }

  /** Once a cancellation is recorded, every later one of that id is answered by the record and changes nothing. */
  lemma CancellationStands(c: Core, id: nat, between: seq<Command>, asker: nat, asked: Pair)
    requires id in c.cancellations
    ensures var later := Run(c, between); var o := c.cancellations[id];
      && Inert(later, Cancel(id, asker, asked))
      && Apply(later, Cancel(id, asker, asked)).1 ==
         if asker == o.user && asked == PairOf(o) then DuplicateCancellation(o) else Failed(Unauthorized)
  {
    RunRemembers(c, between);
    hide Run;
    hide CancelOrder;
  }

  /** A well-formed deposit that its account cannot take, coming for the first time. */
  predicate FirstRejection(c: Core, command: Command) {
    command.CreditDeposit? && command.credit.id !in c.deposits && ValidateDeposit(command.credit).Ok?
  }

  /**
   A refusal leaves a trace exactly when it rejects a well-formed deposit for the first time, and then only its receipt.
   Which of the withdrawal steps refused without a trace can still succeed is said in `RefusalLaws`.
  */
  lemma RefusalLeavesNoTrace(c: Core, command: Command)
    requires Apply(c, command).1.Failed?
    ensures Next(c, command) == c <==> !FirstRejection(c, command)
    ensures Next(c, command) == c.(deposits := Next(c, command).deposits)
  {
    hide Execute;
    hide ChangeReservation;
    hide Quote;
    hide Locate;
    hide Adjusted;
    hide MoveFunds;
    hide ValidateWithdrawal;
    hide ValidateDeposit;
    hide Credited;
    if command.CreditDeposit? {
      DepositRefusalIsRecorded(c, command.credit);
    }
  }

  lemma DepositRefusalIsRecorded(c: Core, credit: DepositCredit)
    requires Apply(c, CreditDeposit(credit)).1.Failed?
    ensures Next(c, CreditDeposit(credit)) == c <==> !FirstRejection(c, CreditDeposit(credit))
  {
    hide ValidateDeposit;
    hide Credited;
    if FirstRejection(c, CreditDeposit(credit)) {
      DepositIsRecorded(c, credit);
    }
  }
}
