/** Which error a refused command names, guard by guard. */
module Refusals {
  import opened Base
  import opened Tally
  import opened Quotas
  import opened StockLedger
  import opened MoneyLedger
  import opened Database
  import opened OrderSteps
  import opened StockSteps
  import opened QuotaInvariant
  import opened CartContainers
  import opened System
  import OrderLaws
  import CheckoutLaws
  import StockLaws

  // ---- Orders ----

  /** A cart is refused for being empty, not positive, repeated or off sale, in this order. */
  lemma {:induction false} CartRefused(catalog: Catalog, cart: Cart, repeats: bool)
    ensures var out := CheckCart(catalog, cart, repeats);
            && (cart == [] ==> out == Failure(EmptyCart))
            && (cart != [] && (exists i :: 0 <= i < |cart| && cart[i].1 <= 0) ==> out == Failure(ValidationError))
            && (cart != [] && AllPositive(cart) && !repeats && !DistinctKeys(cart) ==> out == Failure(DuplicateProducts))
            && (cart != [] && AllPositive(cart) && (repeats || DistinctKeys(cart)) && !CheckoutLaws.ValidCart(catalog, cart, repeats) ==>
                  out == Failure(ProductsUnavailable))
  {
  }

  /** Who may not order on contract, and why. */
  lemma {:induction false} PayerRefused(contracts: seq<Contract>, client: UserId, b2b: bool, today: int)
    requires OneActive(contracts)
    ensures var out := PayingContract(contracts, client, b2b, today);
            && (!b2b ==> out == Failure(ContractPaymentNotAllowed))
            && (b2b && (forall c :: 0 <= c < |contracts| && contracts[c].client == client ==> contracts[c].status != Active) ==>
                  out == Failure(ContractRequired))
            && (forall c :: && b2b && 0 <= c < |contracts| && contracts[c].client == client && contracts[c].status == Active
                            && contracts[c].endDate.Some? && contracts[c].endDate.value < today ==>
                              out == Failure(Error.ContractExpired))
  {
  }

  /** A product missing from the contract is named before a limit that is exceeded. */
  lemma {:induction false} QuotaRefused(items: PriceList, cart: Cart)
    ensures (exists i :: 0 <= i < |cart| && cart[i].0 !in items) ==> Reserve(items, cart) == Failure(ProductNotInContract)
    ensures (forall i :: 0 <= i < |cart| ==> cart[i].0 in items) && !CheckoutLaws.Admits(items, cart) ==>
              Reserve(items, cart) == Failure(QuantityLimitExceeded)
  {
  }

  /** Missing containers that may not be credited. */
  lemma {:induction false} ContainersRefused(s: Stock, req: Checkout, catalog: Catalog, now: int)
    requires AnyWanted(catalog, req.cart)
    ensures !Exists(s, req.address) ==> CheckoutTara(s, req, catalog, now) == Failure(ClientInventoryNotFound)
    ensures Exists(s, req.address) && !Enough(s, req.address, req.cart, catalog, req.cart) && !req.capitalise ==>
              CheckoutTara(s, req, catalog, now) == Failure(InsufficientTara)
  {
    EmptyIffNoneWanted(catalog, req.cart);
    ShortIffAsked(s, req.address, req.cart, catalog, req.cart);
  }

  /** Unknown order, somebody else's order, or a move the table does not have. */
  lemma {:induction false} StatusRefused(
    db: Db, o: OrderId, target: OrderStatus, actual: Cart, requester: Option<UserId>, catalog: Catalog, now: int)
    ensures var out := OrderOutcome(db, ChangeStatus(o, target, actual, requester, catalog, now));
            && (o >= |db.orders| ==> out == Failure(OrderNotFound))
            && (o < |db.orders| && !OrderLaws.MayAct(db.orders[o], requester) ==> out == Failure(OrderAccessDenied))
            && (o < |db.orders| && OrderLaws.MayAct(db.orders[o], requester) && !OrderLaws.MayMove(db.orders[o], target) ==>
                  out == Failure(if db.orders[o].saleType == WarehousePickup && target in {Assigned, InTransit, Arrived, Delivered, PickupCompleted}
                                 then InvalidPickupOperation else InvalidOrderStatus))
  {
    if o < |db.orders| {
      OrderLaws.MovesAreThese(db.orders[o], target);
    }
  }

  /** A reported quantity that is negative or too large, and one that is zero. */
  lemma {:induction false} ReportRefused(lines: seq<Line>, line: Line, actual: Cart)
    requires DeliveredLines(lines, actual).Success? && Reported(actual, line.product).Some? && line.quantity > 0
    ensures var q := Reported(actual, line.product).value;
            && (q < 0 || q > line.quantity ==> DeliveredLines(lines + [line], actual) == Failure(DeliveryQuantityExceeded))
            && (q == 0 ==> DeliveredLines(lines + [line], actual) == Failure(DbIntegrity))
  {
    assert Front(lines + [line]) == lines;
  }

  // ---- Stock ----

  /** Permission, then catalogue, then the two ends of the route, then its kinds. */
  lemma {:induction false} RouteRefused(s: Stock, req: TransferRequest, catalog: Catalog)
    requires req.items != [] && AllPositive(req.items)
    ensures var out, from, to := Route(s, req, catalog), StockLaws.From(s, req), StockLaws.To(s, req);
            && (req.transfer in {InventoryFinding, InitialBalance, LossWriteOff} && !req.mayAdjust ==> out == Failure(InsufficientPermissions))
            && ((req.transfer in {InventoryFinding, InitialBalance, LossWriteOff} ==> req.mayAdjust) ==>
                  && (!StockLaws.AllOnSale(catalog, req.items) ==> out == Failure(ProductsUnavailable))
                  && (StockLaws.AllOnSale(catalog, req.items) ==>
                        && (from.None? || to.None? ==> out == Failure(ValidationError))
                        && (from.Some? && from == to ==> out == Failure(RouteLoop))
                        && (from.Some? && to.Some? && from != to && (!Exists(s, from.value) || !Exists(s, to.value)) ==>
                              out == Failure(Error.InventoryNotFound))
                        && (from.Some? && to.Some? && from != to && Exists(s, from.value) && Exists(s, to.value) && out.Failure? ==>
                              out == Failure(InventoryTypeMismatch))))
  {
    assert req.transfer in ADJUSTMENTS <==> req.transfer in {InventoryFinding, InitialBalance, LossWriteOff};
  }

  // ---- Contracts and money ----

  /** A contract in another status, or a client who already has an ACTIVE one. */
  lemma {:induction false} ActivationRefused(db: Db, c: ContractId, reinstated: bool)
    requires c < |db.contracts|
    ensures var out, source := ContractOutcome(db, if reinstated then Reinstate(c) else Activate(c)), if reinstated then Suspended else Draft;
            && (db.contracts[c].status != source ==> out == Failure(ContractStatusTransition))
            && (db.contracts[c].status == source && out.Failure? ==> out == Failure(ContractAlreadyActive))
  {
  }

  lemma {:induction false} ResolutionRefused(db: Db, n: nat, verified: bool)
    ensures var out := MoneyOutcome(db, ResolvePending(n, verified));
            && (n >= |db.money.ledger| ==> out == Failure(TransactionNotFound))
            && (n < |db.money.ledger| && db.money.ledger[n].status != Pending ==> out == Failure(InvalidTransactionStatus))
  {
  }
}
