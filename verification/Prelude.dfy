/** Result types, the reasons an operation can fail, and sums over finite maps. */
module Prelude {

  datatype Option<+T> = None | Some(value: T) {
    function GetOr(default: T): T {
      if Some? then value else default
    }
  }

  /** Why a command or a money operation was refused. */
  datatype Fault =
    // exact money
    | Precision | Rounding | Range | Unrepresentable | Negative | BadPrice | BadRate
    // orders and matching
    | BadIdentity | BadKind | BadAsset | SameAssets | NotFresh | BadMarketBuy | BadQuantity | MissingPrice
    | WrongLevel | AlreadyInBook | DuplicateMaker
    // balances
    | NotPositive | MissingBalance | Insufficient
    // commands
    | Conflict | Unauthorized | NoBook | NoOrder | BadResting | BadCounter
    | BadDeposit | BadWithdrawal | NoReservation | Finalized | BadAccount

  datatype Result<+T> = Ok(value: T) | Err(error: Fault) {
    predicate IsFailure() {
      Err?
    }

    function PropagateFailure<U>(): Result<U>
      requires Err?
    {
      Err(error)
    }

    function Extract(): T
      requires Ok?
    {
      value
    }
  }

  /** Succeeds exactly when the condition holds, like the source's `ensure!`. */
  function Ensure(condition: bool, fault: Fault): Result<()> {
    if condition then Ok(()) else Err(fault)
  }

  function Min(a: int, b: int): int {
    if a <= b then a else b
  }

  lemma Element<T>(s: set<T>) returns (x: T)
    requires s != {}
    ensures x in s
  {
    x :| x in s;
  }

  /** The highest bid price or the lowest ask price of a set. */
  predicate IsBest(prices: set<int>, p: int, bids: bool) {
    p in prices && forall q :: q in prices ==> if bids then q <= p else p <= q
  }

  lemma {:induction false} BestExists(prices: set<int>, bids: bool) returns (p: int)
    requires prices != {}
    ensures IsBest(prices, p, bids)
    decreases |prices|
  {
    var x := Element(prices);
    var others := prices - {x};
    if others == {} {
      p := x;
      assert prices == {x};
    } else {
      var q := BestExists(others, bids);
      p := if bids == (q > x) then q else x;
      assert forall y :: y in prices ==> y == x || y in others;
    }
  }

  /** The first price a sorted map yields from one end. */
  method BestPrice(prices: set<int>, bids: bool) returns (best: int)
    requires prices != {}
    ensures IsBest(prices, best, bids)
  {
    ghost var some := Element(prices);
    best :| best in prices;
    var left := prices - {best};
    while left != {}
      invariant left <= prices && best in prices
      invariant forall q :: q in prices && q !in left ==> if bids then q <= best else best <= q
      decreases |left|
    {
      ghost var next := Element(left);
      var q: int :| q in left;
      if if bids then q > best else q < best {
        best := q;
      }
      left := left - {q};
    }
  }

  lemma Reassociated<T>(a: seq<T>, b: seq<T>, c: seq<T>)
    ensures a + (b + c) == a + b + c
  {
  }

  lemma TailOfJoin<T>(a: seq<T>, b: seq<T>)
    requires a != []
    ensures (a + b)[0] == a[0] && (a + b)[1..] == a[1..] + b
  {
  }

  lemma JoinedWithNothing<T>(s: seq<T>)
    ensures [] + s == s && s + [] == s
  {
  }

  /** A sequence around one of its elements. */
  lemma SplitAround<T>(s: seq<T>, k: nat)
    requires k < |s|
    ensures s[..k + 1] == s[..k] + [s[k]] && s == s[..k + 1] + s[k + 1..]
  {
  }

  lemma LastOfJoin<T>(a: seq<T>, b: seq<T>)
    requires b != []
    ensures (a + b)[|a + b| - 1] == b[|b| - 1] && (a + b)[..|a + b| - 1] == a + b[..|b| - 1]
  {
  }

  /** One element moves from what is left to what is done. */
  lemma MovedOver<T>(left: set<T>, done: set<T>, x: T)
    requires left !! done && x in left
    ensures left - {x} !! done + {x} && (left - {x}) + (done + {x}) == left + done && |left - {x}| < |left|
  {
  }

  /** Leaving out a later element leaves the first alone. */
  lemma LeavingOut<T>(s: seq<T>, k: nat)
    requires 0 < k < |s|
    ensures s[..k] + s[k + 1..] == [s[0]] + (s[1..][..k - 1] + s[1..][k..])
  {
  }

  /** The sum of all values of a finite map, in whatever order its keys are taken. */
  ghost function Sum<K(!new)>(m: map<K, int>): int {
    if m == map[] then 0
    else
      var k :| k in m;
      m[k] + Sum(m - {k})
  }

  lemma {:induction false} SumRemove<K(!new)>(m: map<K, int>, k: K)
    requires k in m
    ensures Sum(m) == m[k] + Sum(m - {k})
    decreases |m|
  {
    var c :| c in m && Sum(m) == m[c] + Sum(m - {c});
    if c != k {
      SumRemove(m - {c}, k);
      SumRemove(m - {k}, c);
      assert m - {c} - {k} == m - {k} - {c};
    }
  }

  function At<K>(m: map<K, int>, k: K): int {
    if k in m then m[k] else 0
  }

  lemma SumUpdate<K(!new)>(m: map<K, int>, k: K, v: int)
    ensures Sum(m[k := v]) == Sum(m) - At(m, k) + v
  {
    SumRemove(m[k := v], k);
    if k in m {
      SumRemove(m, k);
      assert m[k := v] - {k} == m - {k};
    } else {
      assert m[k := v] - {k} == m;
    }
  }

  lemma {:induction false} SumNonNegative<K(!new)>(m: map<K, int>)
    requires forall k :: k in m ==> m[k] >= 0
    ensures Sum(m) >= 0
    decreases |m|
  {
    if m != map[] {
      var k :| k in m && Sum(m) == m[k] + Sum(m - {k});
      SumNonNegative(m - {k});
    }
  }

  lemma SumAtLeast<K(!new)>(m: map<K, int>, k: K)
    requires forall j :: j in m ==> m[j] >= 0
    ensures At(m, k) <= Sum(m)
  {
    if k in m {
      SumRemove(m, k);
      SumNonNegative(m - {k});
    } else {
      SumNonNegative(m);
    }
  }
}
