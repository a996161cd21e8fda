/** Shared vocabulary: identifiers, failure results and sums over sequences. */
module Base {

  // Every table below is append-only, so a row is named by its position.
  type OrderId = nat
  type ContractId = nat
  type InventoryId = nat
  type AccountId = nat
  type UserId = nat
  type ProductId = nat

  const SYSTEM_USER: UserId := 0
  const WALKIN_USER: UserId := 2

  /** Timestamps are microseconds since the epoch, dates are days since the epoch. */
  const MICROS_PER_DAY: int := 86_400_000_000

  datatype Option<+T> = None | Some(value: T)

  datatype Result<+T> = Success(value: T) | Failure(error: Error) {
    predicate IsFailure() {
      Failure?
    }

    function PropagateFailure<U>(): Result<U>
      requires Failure?
    {
      Failure(error)
    }

    function Extract(): T
      requires Success?
    {
      value
    }
  }

  /** Why a unit of work was rolled back. */
  datatype Error =
    | ValidationError
    | EmptyCart
    | DuplicateProducts
    | ProductsUnavailable
    | ContractPaymentNotAllowed
    | ContractRequired
    | ContractNotActive
    | ContractExpired
    | ContractNotFound
    | ContractAlreadyActive
    | ContractStatusTransition
    | ProductNotInContract
    | QuantityLimitExceeded
    | PriceItemHasUsage
    | PriceItemNotFound
    | QuotaLeak
    | DuplicateInvoicePeriod
    | InvoiceNotFound
    | InvalidInvoiceTransition
    | ClientInventoryNotFound
    | InventoryNotFound
    | InventoryTypeMismatch
    | InsufficientPermissions
    | RouteLoop
    | InsufficientTara
    | InsufficientStock
    | NegativeBalance
    | DbIntegrity
    | OrderNotFound
    | OrderAccessDenied
    | InvalidOrderStatus
    | InvalidPickupOperation
    | CannotRemoveLastItem
    | CourierAssignment
    | CourierNotAssigned
    | CourierInventoryNotFound
    | DeliveryQuantityExceeded
    | WarehouseMissing
    | AccountNotFound
    | SelfTransfer
    | TransactionNotFound
    | InvalidTransactionStatus
    | CursorInvalid

  /** A row owned by a user: an inventory or an account of some kind. */
  datatype Holding<K> = Holding(owner: UserId, kind: K)

  /** The user's oldest holding of a kind. */
  function Find<K(==)>(table: seq<Holding<K>>, owner: UserId, kind: K): (found: Option<nat>)
    ensures found.Some? ==> found.value < |table| && table[found.value] == Holding(owner, kind)
    ensures found.Some? ==> forall i :: 0 <= i < found.value ==> table[i] != Holding(owner, kind)
    ensures found.None? ==> forall i :: 0 <= i < |table| ==> table[i] != Holding(owner, kind)
  {
    if table == [] then None
    else
      var earlier := Find(Front(table), owner, kind);
      if earlier.Some? then earlier
      else if Last(table) == Holding(owner, kind) then Some(|table| - 1) else None
  }

  lemma {:induction false} FindAppend<K>(table: seq<Holding<K>>, added: Holding<K>, owner: UserId, kind: K)
    ensures Find(table, owner, kind).Some? ==> Find(table + [added], owner, kind) == Find(table, owner, kind)
    ensures Find(table, owner, kind).None? ==>
              Find(table + [added], owner, kind) ==
              if added == Holding(owner, kind) then Some(|table|) else None
  {
    assert Front(table + [added]) == table;
  }

  function Max(a: int, b: int): int {
    if a < b then b else a
  }

  function Front<T>(s: seq<T>): seq<T>
    requires s != []
  {
    s[..|s| - 1]
  }

  function Last<T>(s: seq<T>): T
    requires s != []
  {
    s[|s| - 1]
  }

  lemma {:induction false} FrontAndLast<T>(s: seq<T>)
    requires s != []
    ensures Front(s) + [Last(s)] == s
  {
  }

  function Sum(xs: seq<int>): int {
    if xs == [] then 0 else Sum(Front(xs)) + Last(xs)
  }

  lemma {:induction false} SumAppend(xs: seq<int>, ys: seq<int>)
    ensures Sum(xs + ys) == Sum(xs) + Sum(ys)
  {
    if ys == [] {
      assert xs + ys == xs;
    } else {
      assert Front(xs + ys) == xs + Front(ys);
      SumAppend(xs, Front(ys));
    }
  }

  lemma {:induction false} SumUpdate(xs: seq<int>, i: nat, x: int)
    requires i < |xs|
    ensures Sum(xs[i := x]) == Sum(xs) - xs[i] + x
  {
    if i == |xs| - 1 {
      assert Front(xs[i := x]) == Front(xs);
    } else {
      assert Front(xs[i := x]) == Front(xs)[i := x];
      SumUpdate(Front(xs), i, x);
    }
  }

  lemma {:induction false} SumNonNegative(xs: seq<int>)
    requires forall i :: 0 <= i < |xs| ==> xs[i] >= 0
    ensures Sum(xs) >= 0
    ensures forall i :: 0 <= i < |xs| ==> xs[i] <= Sum(xs)
  {
    if xs != [] {
      SumNonNegative(Front(xs));
      forall i | 0 <= i < |xs|
        ensures xs[i] <= Sum(xs)
      {
        if i < |xs| - 1 {
          assert Front(xs)[i] == xs[i];
        }
      }
    }
  }
}
