/** One new order: match, reserve, settle, refund and commit, or fail leaving everything as it was. */
module Submission {
  import opened Prelude
  import opened Amount
  import opened Types
  import opened Matcher
  import opened MatchingLaws
  import opened Balances

  /** Both sides of a pair's book, each in price-time priority. */
  datatype Book = Book(buys: seq<Order>, sells: seq<Order>)

  const EMPTY_BOOK: Book := Book([], [])

  datatype Completion = Completion(
    orderId: nat, user: nat, side: Side, base: Asset, quote: Asset, filledAmount: int, filledQuote: int,
    reserved: int, refund: int, tradeCount: nat, filled: bool)

  datatype Applied = Applied(
    book: Book, accounts: Accounts, orderId: nat, trades: seq<Trade>, completion: Option<Completion>)

  /** Behind every order of the same or a better price: last in time at its price. */
  function Insert(queue: seq<Order>, o: Order, side: Side): seq<Order> {
    if queue == [] then [o]
    else if Ahead(side, queue[0], o) then [queue[0]] + Insert(queue[1..], o, side)
    else [o] + queue
  }

  function AddOrder(b: Book, o: Order): Book {
    match o.side
    case Buy => b.(buys := Insert(b.buys, o, Buy))
    case Sell => b.(sells := Insert(b.sells, o, Sell))
    case OtherSide(_) => b
  }

  /** The makers an order meets. */
  function Opposite(o: Order, b: Book): seq<Order> {
    if o.side.Sell? then b.buys else b.sells
  }

  function CommitBook(b: Book, w: Walked): Book {
    var o := w.taker.order;
    var rest := Commit(Opposite(o, b), w.taker.makers);
    var b' := if o.side.Sell? then b.(buys := rest) else b.(sells := rest);
    if o.kind.Limit? && o.remaining > 0 then AddOrder(b', o) else b'
  }

  /** The account an order reserves from: the quote asset for a buy, the base asset for a sell. */
  function ReserveKey(o: Order): AccountKey {
    (o.user, if o.side.Buy? then o.quote else o.base)
  }

  function Reservation(o: Order): Result<int> {
    if o.side.Buy? then
      match o.price
      case Some(price) => Quote(price, o.amount)
      case None => Ok(if o.quoteAmount.Some? then o.quoteAmount.value else 0)
    else Ok(o.amount)
  }

  /** What must stay reserved for the part that rests. */
  function StillReserved(o: Order): Result<int> {
    if o.kind.Market? then Ok(0)
    else if o.side.Buy? then Quote(Price(o), o.remaining)
    else Ok(o.remaining)
  }

  function Used(o: Order, t: Taker): int {
    if o.side.Buy? then t.totalQuote else t.totalAmount
  }

  function Refund(reserved: int, used: int, remaining: int): Result<int> {
    var unused :- Subtract(reserved, used);
    Subtract(unused, remaining)
  }

  function Release(m: Accounts, k: AccountKey, refund: int): Result<Accounts> {
    if refund > 0 then ChangeReservation(m, k, refund, false) else Ok(m)
  }

  function CompletionOf(o: Order, w: Walked, reserved: int, refund: int): Option<Completion> {
    if o.kind.Market? then
      Some(Completion(o.id, o.user, o.side, o.base, o.quote, w.taker.totalAmount, w.taker.totalQuote,
                      reserved, refund, |w.trades|, refund == 0))
    else None
  }

  /** The balance side of a planned order: lock, settle every trade, refund what is not needed. */
  function Charge(o: Order, w: Walked, accounts: Accounts): Result<(Accounts, int, int)> {
    var reserved :- Reservation(o);
    var locked :- ChangeReservation(accounts, ReserveKey(o), reserved, true);
    var settled :- SettleAll(locked, w.trades);
    var remaining :- StillReserved(w.taker.order);
    var refund :- Refund(reserved, Used(o, w.taker), remaining);
    var released :- Release(settled, ReserveKey(o), refund);
    Ok((released, reserved, refund))
  }

  function Execute(o: Order, b: Book, accounts: Accounts): Result<Applied> {
    var w :- Plan(o, Opposite(o, b));
    var charged :- Charge(o, w, accounts);
    Ok(Applied(CommitBook(b, w), charged.0, o.id, w.trades, CompletionOf(o, w, charged.1, charged.2)))
  }
}
