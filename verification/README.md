# Back-office verification

A Dafny model of the back office of a water-delivery business: orders, contracts with quotas, a
stock ledger of products and returnable containers ("tara"), and a money ledger. The state is one
database (`Database.Db`): orders with their lines and audit log, contracts with price lists,
invoices and audit log, inventories with materialised balances and an append-only stock ledger,
accounts with balances and an append-only money ledger. Each `async with self.uow` block is one
atomic step that commits or leaves no trace.

The model has four layers.

* **Specification steps** — `OrderSteps`, `ContractSteps`, `StockSteps`, `MoneySteps`: every unit of
  work as a function `Db -> Result<Db>`, error by error, over the ledgers and their triggers
  (`StockLedger`, `MoneyLedger`), the quota counters (`Quotas`) and the container rules (`Tara`).
  `System` makes them one state machine: `Step`, `Run`, and the start-up database `EMPTY`.
* **Services** — `UnitOfWork`, `OrderService`, `ContractService`, `StockService`, `BillingService`,
  `BackOffice`: the same units of work as they are written, as methods that change the tables of a
  session row by row and loop by loop. Each is proved to follow its specification step on every
  input, errors included, and to change no other table. `BackOffice.Execute` adds commit and
  rollback; `BackOffice.Serve` runs any list of commands.
* **Properties** — `QuotaInvariant`, `MoneyInvariant`, `MoneyFlows`, `StockFlows`, `StepFlows`,
  `Lifecycle`, `Invoices`, `TaraProofs` and others for single steps; `RunInvariant` and `RunTheorems` for
  all runs; `Witnesses` for runs on which the obvious claim fails.
* **Laws** — `CheckoutLaws`, `OrderLaws`, `DeliveryLaws`, `PickupLaws`, `ContractLaws`, `StockLaws`,
  `MoneyLaws`, with `CartContainers`, `Refusals` and `FormatLaws`: for each command exactly when it
  commits and everything it then changes, said over the tables with statuses, tables and sums written
  out, without the functions of the specification steps.

Beside the state machine stand the places where a fast or encoded form must agree with a simple one:
the reverse-accumulated stock trend (`Trend`), the integrity dashboard (`Integrity`), keyset
pagination (`Keyset`, `CursorPages`), cursor tokens (`Cursor` and `IsoTime`, with base64url of
section 5 of RFC 4648, UTF-8 and ISO timestamps) and LIKE escaping (`Search`).

`dafny verify dfyconfig.toml` checks the whole project.

## How the source is read

* Tables are append-only sequences; a row's id is its position. Audit rows and invoices are kept
  inside their order or contract.
* The two triggers are modelled from their SQL: the stock trigger moves both balances of a row and
  refuses a negative balance of a real inventory; the account trigger moves money for COMPLETED rows
  only, on insert or when a row becomes COMPLETED. Table constraints are failures of the step
  (`DbIntegrity`): a delivered quantity of 0, a settlement of amount 0, an invoice whose last day is
  not after its first.
* Each command carries the catalogue it read, the current time, and the ids the stale-order query
  selected, so every theorem holds for all of them.
* Audit rows are written together with the status they record; inside one unit of work the order of
  the two is not visible.
* Where a lookup expects one row (a user's account or inventory, the line of a product, the active
  contract) the model takes the first one. That the line and the active contract are unique is proved
  (`RunTheorems.DeliveriesAreUnrepeated`, `RunTheorems.ContractsAreActive`).
* Pickup orders come into being PICKUP_COMPLETED; `complete_pickup` is modelled for any NEW one.

Where code and documentation disagree the model follows the code: a migration speaks of soft quotas
and drops the database check (alembic/versions/d4e5f6a7b8c9_soft_quota_limits.py:28-32), but the
services still refuse an order above its quota, and the limit is proved to hold;
`update_contract` accepts every contract status; `add_product_to_order` charges today's price while
an existing line keeps its frozen price.

Properties that do not hold as one would first state them are given with their exact condition and a
run from start-up on which they fail (`Witnesses`): totals under price changes
(`Lifecycle.TotalAfterAdd`), the delivery check that ignores containers (`StockFlows.DeliveryFlow`),
the pickup check under repeated products (`StockFlows.PickupFlow`), containers shared between lines
(`TaraProofs.JointlyCoveredIff`), and the trend of a window with later movements
(`Trend.TrendIsForwardSum`).

## Model

| member | source | states |
|---|---|---|
| `RunTheorems.QuotasAreExact` | src/modules/contracts/repositories.py:186-259 | in every reachable state each `quantity_used` is the sum of that product's lines over the contract's non-cancelled orders, never above a set limit; an order holds quota iff it is on a contract and not cancelled |
| `RunTheorems.ClampNeverBites` | src/modules/contracts/repositories.py:218-259 | in every reachable state, returning quota succeeds and is plain subtraction in all four places: cancelling a live order, removing a line, a partial delivery, the bulk cancellation |
| `RunTheorems.QuotaNeverLeaks` | src/modules/contracts/repositories.py:186-259 | no order or contract step of any run fails with the "quota leak" error |
| `RunTheorems.ContractsAreActive` | src/modules/contracts/services.py:90-290 | over all interleavings, a NEW or ASSIGNED contract order has an ACTIVE contract of its own client, and a client has at most one ACTIVE contract |
| `RunTheorems.SettledExactlyOnce` | src/modules/orders/services.py:1442-1612 | over any run an order has exactly one settlement charge Revenue to Client iff it is DELIVERED or PICKUP_COMPLETED, for exactly its total |
| `RunTheorems.CompletedOrdersAreFrozen` | src/modules/orders/services.py:906-988 | whatever follows, a completed order keeps lines, total, status and its charge; only its log may grow (same-status updates) |
| `RunTheorems.BalanceIsDebt` | src/modules/finances/services.py:600-708 | over any run a client's balance is settled order totals less COMPLETED payments plus net manual postings; all balances sum to zero |
| `RunTheorems.StockIsLedgerFold` | src/modules/inventory/repositories.py:577-648 | over any run the materialised balance of every inventory and product equals the ledger fold, and only the vendor may be negative |
| `RunTheorems.LogsArePaths` | src/modules/orders/repositories.py:410-426 | over any run every order log chains from creation through allowed edges or self-loops to the current status, every contract log from DRAFT to its current status |
| `RunTheorems.DeliveriesAreUnrepeated` | src/modules/orders/services.py:174-183 | over any run a delivery order has at most one line per product, so the lookup of a line by product is never ambiguous |
| `RunTheorems.InvoicesAreUnique` | src/modules/contracts/services.py:511-561 | over any run no two invoices of a contract share a number, nor (unless cancelled) the same period |
| `RunTheorems.NothingIsUndone` | src/infrastructure/database/scripts/update_account_balances.sql:1-41 | between any two moments: ledgers only grow, money rows keep everything but a PENDING status that is resolved at most once, completed and cancelled orders keep everything but their log, TERMINATED and EXPIRED contracts have no exit |
| `RunTheorems.AccountsStay` | src/modules/finances/services.py:889-947 | the account a settlement or payment finds for an owner stays the same over any run |
| `RunInvariant.StepKeepsInv` | src/infrastructure/database/uow.py:26-37 | every unit of work, committed or rolled back, keeps the whole invariant: quotas, stock, money, logs, invoices |
| `RunInvariant.RunKeepsInv` | src/infrastructure/database/uow.py:26-37 | so does every run |
| `RunInvariant.StartsInOrder` | src/modules/inventory/repositories.py:72-95 | start-up, with its two system inventories, satisfies the invariant |
| `RunInvariant.OpenInventoryOk` | src/modules/inventory/repositories.py:50-71 | opening an inventory keeps the stock books in order: the new one holds nothing |
| `QuotaInvariant.ReserveWithinLimits` | src/modules/orders/services.py:1031-1058 | for a cart without repeated products the check followed by the increments stays within every limit and adds exactly the cart |
| `QuotaInvariant.ReleaseIsExact` | src/modules/contracts/repositories.py:218-259 | quota within what the orders hold is returned by exact subtraction, without a missing row |
| `QuotaInvariant.OrderReleaseIsExact` | src/modules/orders/services.py:1060-1078 | releasing a live order never clamps |
| `QuotaInvariant.BulkReleaseIsExact` | src/modules/contracts/services.py:308-334 | releasing the per-product totals of all orders in preparation never clamps |
| `QuotaInvariant.LineReleaseIsExact` | src/modules/orders/services.py:808-817 | returning the quota of one removed line never clamps |
| `QuotaInvariant.UndeliveredReleaseIsExact` | src/modules/orders/services.py:1221-1230 | returning what a partial delivery left undelivered never clamps |
| `QuotaInvariant.CreateOrderKeepsQuota` | src/modules/orders/services.py:157-369 | checkout keeps counters exact and limits respected |
| `QuotaInvariant.AddProductKeepsQuota` | src/modules/orders/services.py:618-747 | so does adding a product |
| `QuotaInvariant.RemoveProductKeepsQuota` | src/modules/orders/services.py:749-825 | so does removing one, and the release cannot fail |
| `QuotaInvariant.CancelKeepsQuota` | src/modules/orders/services.py:954-969 | cancelling a live order always succeeds and keeps counters exact |
| `QuotaInvariant.CancelStaleKeepsQuota` | src/modules/orders/services.py:1786-1857 | so does the stale-order job, for any selection, even one that repeats rows |
| `QuotaInvariant.AdjustKeepsQuota` | src/modules/orders/services.py:1182-1234 | a partial delivery returns exactly the undelivered quota |
| `QuotaInvariant.UpdateStatusKeepsQuota` | src/modules/orders/services.py:906-988 | every status change keeps counters exact and never hits the leak error |
| `QuotaInvariant.PriceItemsKeepQuota` | src/modules/contracts/services.py:386-443 | setting and removing price items keeps counters exact and limits respected |
| `QuotaInvariant.MakeActiveKeepsQuota` | src/modules/contracts/services.py:90-138 | activation and reinstatement keep one ACTIVE contract per client |
| `QuotaInvariant.CancelInflightKeepsQuota` | src/modules/contracts/services.py:292-365 | the bulk cancellation always succeeds, keeps counters exact and leaves no order of the contract in preparation |
| `QuotaInvariant.StopKeepsQuota` | src/modules/contracts/services.py:140-189 | suspending and terminating keep the invariant and cannot leak quota |
| `QuotaInvariant.ExpireKeepsQuota` | src/modules/contracts/services.py:838-869 | the expiry job always succeeds and keeps the invariant |
| `Quotas.IncrementTotals` | src/modules/contracts/repositories.py:186-216 | the row-by-row increment succeeds iff all deltas are positive and listed, and adds each product's total |
| `Quotas.DecrementTotals` | src/modules/contracts/repositories.py:218-259 | the row-by-row clamped decrement equals one clamped decrement by each product's total |
| `RunTheorems.StoppingIsOneByOne` | src/modules/contracts/services.py:292-365 | in every reachable state the bulk cancellation succeeds and equals cancelling the contract's orders in preparation one at a time, in any order |
| `BulkCancel.BulkIsOneByOne` | src/modules/contracts/services.py:308-347 | one pass with totals per product gives the same database or the same error as cancelling the orders one at a time in any order, even when the clamp bites |
| `StockLedger.PostEffect` | src/infrastructure/database/scripts/update_inventory_balances.sql:17-55 | a posted document shifts exactly its totals from source to destination and keeps the balances table equal to the replayed ledger |
| `StockLedger.PostSucceedsIff` | src/infrastructure/database/scripts/update_inventory_balances.sql:34-50 | row-by-row posting succeeds iff the source is virtual or covers the totals, repeated products included |
| `StockLedger.PostKeepsOk` | src/infrastructure/database/scripts/update_inventory_balances.sql:17-55 | a posted document keeps balances equal to the ledger and real inventories free of debts |
| `StockLedger.BalanceIsLedgerFold` | src/modules/inventory/repositories.py:613-648 | the materialised balance is the sum of incoming less outgoing ledger rows |
| `StockFlows.OneDocument` | src/modules/orders/services.py:1099-1160 | one completed document commits iff its source covers it (or is the vendor), and then shifts exactly its items |
| `StockFlows.DeliveryFlow` | src/modules/orders/services.py:1282-1310 | a delivery commits iff the courier holds lines plus paired containers; it then moves exactly the lines, with no net container change anywhere |
| `StockFlows.PickupFlow` | src/modules/orders/services.py:1358-1437 | exact commit condition of a pickup; walk-in moves exactly the lines, named also leaves the aggregated containers on the warehouse, drawn from the vendor |
| `StockFlows.NamedPickupNeverTrips` | src/modules/orders/services.py:1346-1437 | a named pickup of distinct products that passes the check is never refused by the trigger |
| `StockFlows.ShortIsExactWhenDistinct` | src/modules/orders/services.py:1346-1356 | without repeated products the per-line check is the covering condition |
| `StockFlows.LacksIsExact` | src/modules/inventory/services.py:568-592 | the aggregated check of create_transfer is the covering condition, repeats included |
| `StockFlows.TransferFlow` | src/modules/inventory/services.py:568-646 | a routed transfer commits iff the source is the vendor or covers the totals; otherwise the only error is insufficient stock |
| `StockFlows.DeliveryRefusal` | src/modules/orders/services.py:1282-1310 | past the checks a delivery's documents fail only because the trigger refuses a negative balance |
| `StockFlows.PickupRefusal` | src/modules/orders/services.py:1392-1434 | so do the documents of a pickup |
| `StepFlows.DeliveryStep` | src/modules/orders/services.py:906-988 | the whole step, in any state of the invariant: rolled back, or exactly the lines as delivered go from the courier to the client and exactly their total from revenue to its holder, nothing else moving |
| `StepFlows.PickupStep` | src/modules/orders/services.py:547-592 | complete_pickup as a step: rolled back, or the lines are handed out (a named client's containers drawn from the vendor) and the total settled |
| `StepFlows.SaleStep` | src/modules/orders/services.py:371-545 | a warehouse sale as a step: rolled back, or one completed order for exactly the cart, the buyer's missing containers credited, the lines handed out, their value settled |
| `StockFlows.PairedIsContainers` | src/modules/orders/services.py:1081-1097 | the paired containers of a kind are the quantities of the lines whose product comes in it |
| `StockFlows.DeliveryRows` | src/modules/orders/services.py:1282-1310 | a delivery writes rows of its two documents only, with their ends, types, order and time |
| `StockFlows.PickupRows` | src/modules/orders/services.py:1392-1434 | so does a pickup of its documents |
| `CheckoutLaws.CartChecked` | src/modules/orders/services.py:170-191 | a cart passes exactly when it is not empty, positive, on sale and (for checkout) without repeats |
| `CheckoutLaws.PayerFound` | src/modules/orders/services.py:990-1029 | the paying contract is exactly the ACTIVE one of a business client whose last day has not passed |
| `CheckoutLaws.QuotaTaken` | src/modules/orders/services.py:1031-1058 | quota is taken exactly when every position is listed and within what is left, and every counter grows by the cart |
| `CheckoutLaws.ContainersCovered` | src/modules/orders/services.py:278-328 | the container block passes exactly when no position asks for more than is there, or crediting is allowed; it credits exactly what the positions lack |
| `CheckoutLaws.OrderTaken` | src/modules/orders/services.py:157-369 | checkout for cash or card commits exactly when cart, catalogue prices and containers are in order; the order written is spelled out field by field, its lines at catalogue prices, its total their sum |
| `CheckoutLaws.ContractOrderTaken` | src/modules/orders/services.py:157-369 | checkout on contract commits exactly when the paying contract admits the cart; lines carry the contract's prices, its counters grow by the cart, nothing else of it changes |
| `CheckoutLaws.NoPayerNoOrder` | src/modules/orders/services.py:990-1029 | without a contract that pays, no order on contract is taken |
| `CartContainers.DeficitsAreLacks` | src/modules/orders/services.py:289-304 | what is credited per container is the sum over the cart's positions of what each lacks |
| `CartContainers.ShortIffAsked` | src/modules/orders/services.py:289-304 | there is a shortage exactly when some position asks for more containers than are on the address or in the cart |
| `CartContainers.LastBought` | src/modules/orders/services.py:284-288 | containers bought in the same cart count with the quantity of their last position |
| `CartContainers.PreviewShows` | src/modules/orders/services.py:1617-1674 | the preview lists per container what the positions lack on the address alone, and is empty exactly when none does |
| `OrderLaws.ProductAdded` | src/modules/orders/services.py:618-747 | exactly when a product can be added, and the lines, total, flag and one counter it changes; an existing line keeps its price |
| `OrderLaws.ProductRemoved` | src/modules/orders/services.py:749-825 | exactly when a product can be removed, and the line, total and one counter it changes |
| `OrderLaws.CourierAssigned` | src/modules/orders/services.py:827-904 | exactly when a courier can be assigned, and what it writes |
| `OrderLaws.MovesAreThese` | src/modules/orders/services.py:58-75 | the status changes allowed are exactly those of two written-out tables, and staying put |
| `OrderLaws.StatusChanged` | src/modules/orders/services.py:906-988 | a status change that completes nothing commits exactly along the tables for someone who may act; cancelling returns exactly the order's quantities, any other writes status and log only |
| `OrderLaws.StaleDropped` | src/modules/orders/services.py:1786-1857 | the job always commits and calls off exactly the listed NEW and the listed ASSIGNED orders |
| `DeliveryLaws.ReportsAreRead` | src/modules/orders/services.py:1182-1222 | a reported product is delivered as last reported, any other as ordered; refused exactly when a report is not between 1 and what was ordered |
| `DeliveryLaws.Corrected` | src/modules/orders/services.py:1182-1234 | the corrected order has exactly those lines, their sum as total, and the contract gets exactly the difference back |
| `DeliveryLaws.OrderDelivered` | src/modules/orders/services.py:1162-1313 | a delivery commits exactly when an ARRIVED order is acceptably reported, the van covers it with its containers and it can be settled; goods, ledger rows, money and counters of the committed step |
| `PickupLaws.HandedOutIff` | src/modules/orders/services.py:1315-1440 | a pickup is handed out exactly when the store covers it and it can be settled, with exactly its goods, rows and money |
| `PickupLaws.PickupDone` | src/modules/orders/services.py:547-592 | complete_pickup commits exactly for a NEW pickup order that can be handed out |
| `PickupLaws.SaleOpenedIff` | src/modules/orders/services.py:371-527 | exactly when a sale's order is written, with every field of it, and the containers credited to a named buyer |
| `PickupLaws.SaleMade` | src/modules/orders/services.py:371-545 | a sale commits exactly when it is sellable, covered by the store and payable, and everything it changes |
| `ContractLaws.ContractOpened` | src/modules/contracts/services.py:57-88 | exactly when a contract opens, as an empty DRAFT |
| `ContractLaws.ContractActivated` | src/modules/contracts/services.py:90-138 | activation leaves DRAFT and reinstatement SUSPENDED, exactly when the client has no ACTIVE contract |
| `ContractLaws.InflightCalledOff` | src/modules/contracts/services.py:292-365 | the contract's NEW and ASSIGNED orders are cancelled, unflagged and logged once, every other order is equal to itself, and the counters are what is still held |
| `ContractLaws.ContractStopped` | src/modules/contracts/services.py:140-290 | exactly when a contract is suspended or terminated, and what becomes of its orders: orders on the road stay |
| `ContractLaws.ContractsExpired` | src/modules/contracts/services.py:838-869 | the job always commits: exactly the ACTIVE contracts past their last day expire, their NEW and ASSIGNED orders are cancelled, nothing else changes |
| `ContractLaws.TermsAmended` | src/modules/contracts/services.py:367-382 | only the terms that were sent change, within the table constraints |
| `ContractLaws.PriceWasSet` | src/modules/contracts/services.py:386-421 | exactly when a price item may be set; its counter stays |
| `ContractLaws.PriceWasRemoved` | src/modules/contracts/services.py:423-443 | exactly an unused price item goes, the others stay |
| `ContractLaws.BilledIsSum` | src/modules/orders/repositories.py:260-295 | the billed amount is the sum of the totals of the contract's DELIVERED and PICKUP_COMPLETED orders created from the first instant of the first day to before the day after the last |
| `ContractLaws.InvoiceWritten` | src/modules/contracts/services.py:498-563 | the invoice spelled out: number, draft status, period, billed amount, due date |
| `ContractLaws.InvoiceWrittenIff` | src/modules/contracts/services.py:498-563 | it is written exactly when the period is in order and has no live invoice and the sum is not negative |
| `ContractLaws.InvoiceMoved` | src/modules/contracts/services.py:588-687 | invoices move exactly along a written-out table |
| `StockLaws.RoutesAreThese` | src/modules/inventory/services.py:50-101 | the routes allowed are exactly a written-out table of document and inventory kinds |
| `StockLaws.Transferred` | src/modules/inventory/services.py:469-646 | a transfer commits exactly when it is well formed and covered, moves exactly its items and writes one row for each |
| `StockLaws.TaraCredited` | src/modules/inventory/services.py:658-715 | an administrator's credit commits exactly for positive quantities at a client's inventory, from the vendor |
| `StockLaws.DeficitCredited` | src/modules/inventory/services.py:776-874 | a client's credit commits exactly at his own inventory and adds per container what the positions lack |
| `Refusals.CartRefused` | src/modules/orders/services.py:170-191 | which error a refused cart names, in which order |
| `Refusals.PayerRefused` | src/modules/orders/services.py:990-1029 | why no contract pays |
| `Refusals.QuotaRefused` | src/modules/orders/services.py:228-234 | a missing product is named before an exceeded limit |
| `Refusals.ContainersRefused` | src/modules/orders/services.py:270-308 | an unknown address, or missing containers that may not be credited |
| `Refusals.StatusRefused` | src/modules/orders/services.py:106-154 | unknown order, access denied, and the two errors of a move the tables do not have |
| `Refusals.ReportRefused` | src/modules/orders/services.py:1192-1212 | a report that is negative or too large, and one of zero |
| `Refusals.RouteRefused` | src/modules/inventory/services.py:482-560 | the errors of a refused route, in order |
| `Refusals.ActivationRefused` | src/modules/contracts/services.py:90-117 | wrong status, or another ACTIVE contract |
| `Refusals.ResolutionRefused` | src/modules/finances/services.py:647-670 | unknown row, or one that is not PENDING |
| `Integrity.VirtualAccounts` | src/modules/inventory/dashboard_queries.py:286-327 | both loops: vendor, loss and real totals equal the sums over the grouped rows, and a product is listed, once and with its two sums, exactly when one of them is not zero |
| `Integrity.PerProduct` | src/modules/inventory/dashboard_queries.py:315-327 | the second loop keeps exactly the products with something at the vendor or in the loss account |
| `Integrity.VendorMirrorsHoldings` | src/modules/inventory/dashboard_queries.py:301-315 | for any set of products the vendor is never positive and its debt equals loss plus warehouses, couriers and clients |
| `Integrity.CheckIntegrity` | src/modules/inventory/dashboard_queries.py:301-315 | in every reachable state `integrity_diff` is 0 |
| `MoneyLedger.InsertKeepsOk` | src/infrastructure/database/scripts/update_account_balances.sql:1-41 | an insert keeps every balance equal to the fold over COMPLETED rows and the sum at zero |
| `MoneyLedger.ResolveKeepsOk` | src/infrastructure/database/scripts/update_account_balances.sql:16-26 | so does resolving a PENDING row |
| `MoneyInvariant.DebtIdentity` | src/modules/orders/services.py:1475-1529 | the client balance split into settled totals, payments and manual postings |
| `MoneyInvariant.SettlingKeepsMoney` | src/modules/orders/services.py:1442-1533 | completing one order with its settlement keeps "one charge iff completed" and the debt identity for all orders and clients |
| `MoneyFlows.SettlementFlow` | src/modules/orders/services.py:1442-1612 | a settlement takes exactly the total from revenue; it rests with the courier or the cash desk when cash changes hands, else it stays the client's debt; no other account moves |
| `MoneyFlows.CardFlow` | src/modules/finances/services.py:647-708 | verifying the row a card settlement left PENDING moves the total on to the card account, rejecting it leaves the debt with the client, and neither can happen twice |
| `MoneyFlows.CardAwaits` | src/modules/orders/services.py:1512-1529 | every card settlement leaves such a row |
| `MoneyFlows.SettledIff` | src/modules/orders/services.py:1442-1612 | an order is settled exactly when its accounts exist and its total is positive, with exactly the rows of its payment method |
| `MoneyLaws.ManualPosting` | src/modules/finances/services.py:600-645 | exactly when a manual posting commits; one COMPLETED row, its amount moved at once |
| `MoneyLaws.PaymentTaken` | src/modules/finances/services.py:889-947 | exactly when a payment commits; cash to the cash desk and transfers to the bank at once, card money waits PENDING at the card account |
| `MoneyLaws.PendingResolved` | src/modules/finances/services.py:647-708 | exactly a PENDING row resolves: verified it is COMPLETED and its amount moves, rejected it is REJECTED and nothing moves; no other row changes |
| `MoneyInvariant.PostingKeepsMoney` | src/modules/finances/services.py:889-947 | payments and manual postings keep the money invariant |
| `MoneyInvariant.ResolvingKeepsMoney` | src/modules/finances/services.py:647-708 | verification and rejection keep the money invariant |
| `MoneyInvariant.OpeningKeepsMoney` | src/modules/finances/repositories.py:29-38 | opening an account keeps the money invariant: a new client account starts at a debt of zero |
| `Lifecycle.ExtendPath` | src/modules/orders/repositories.py:410-426 | one more audit row along an allowed edge or self-loop keeps the log a path |
| `Lifecycle.MovedPath` | src/modules/contracts/services.py:119-136 | a contract status change along an allowed edge keeps all logs paths and closed contracts closed |
| `Lifecycle.TotalAfterAdd` | src/modules/orders/services.py:715-741 | adding keeps `total_amount` equal to the lines iff the charge is at the line's frozen price |
| `Lifecycle.TotalAfterRemove` | src/modules/orders/services.py:795-819 | removing keeps the equality, and `max(0, ..)` never bites |
| `OrderTotals.AddLineTotals` | src/modules/orders/services.py:618-747 | for the whole operation: the order's total stays right iff the added quantity is charged at its line's price |
| `OrderTotals.TotalsFollowLines` | src/modules/orders/services.py:243-254 | totals equal the value of the lines through every run in which additions to an existing line occur at its frozen price |
| `Witnesses.TotalDriftsAfterPriceChange` | src/modules/orders/services.py:715-731 | a run of checkout, price rise and added bottle after which the total differs from the lines |
| `Witnesses.DeliveryNeedsContainers` | src/modules/orders/services.py:1275-1289 | a run to an ARRIVED order whose delivery passes the courier check and is refused by the trigger for want of a container |
| `Witnesses.RepeatedLinesTrip` | src/modules/orders/services.py:1351-1354 | a run after which a warehouse sale that repeats a product passes the check and is refused by the trigger |
| `Witnesses.SharedContainerFallsShort` | src/modules/orders/services.py:289-304 | a run after which checkout finds no shortage although its two products need twice the containers there are |
| `Witnesses.TrendShowsLaterStock` | src/modules/inventory/dashboard_queries.py:512-708 | a run with a movement after the window, which the figure inside the window counts |
| `OrderEvolution.DeliveryCloses` | src/modules/orders/services.py:1182-1313 | a delivery closes one order and settles it; a partial delivery re-establishes the total unconditionally |
| `OrderEvolution.PickupCloses` | src/modules/orders/services.py:547-592 | completing a pickup closes one order and settles it for its total |
| `LineTotals.DeliveredShape` | src/modules/orders/services.py:1192-1222 | partial delivery keeps the products and never raises a quantity |
| `LineTotals.UndeliveredTotals` | src/modules/orders/services.py:1192-1222 | `quota_deltas` is per product the exact difference between ordered and delivered |
| `Invoices.PeriodsTile` | src/modules/orders/repositories.py:260-295 | adjacent day ranges partition a contract's completed orders: billed totals add up |
| `Invoices.SequenceIsUnique` | src/modules/contracts/services.py:539-547 | the sequence can be read back from an invoice number, whatever the contract's own number looks like |
| `Invoices.GenerateKeepsInvoices` | src/modules/contracts/services.py:498-563 | an invoice is written iff the period is free and in order and the amount is not negative; numbers and periods stay unique, the amount is what was billed |
| `TaraProofs.CapitalisingCovers` | src/modules/orders/services.py:289-328 | crediting the shortages never fails for a real address, adds exactly them and leaves every exchange line covered on its own |
| `TaraProofs.CreditIsExactIff` | src/modules/orders/services.py:289-304 | the credit never exceeds what the lines of a container lack together, and reaches it iff the container is not shared, none was available, or none lacks |
| `TaraProofs.JointlyCoveredIff` | src/modules/orders/services.py:289-328 | after crediting, all lines of a container are covered together iff the same condition held |
| `TaraProofs.SecondCreditIsEmpty` | src/modules/inventory/services.py:776-874 | a second capitalize_deficit for the same cart credits nothing and the preview is empty |
| `TaraProofs.PreviewIsHonoured` | src/modules/orders/services.py:1617-1674 | an empty preview means checkout on the same state finds no shortage |
| `TaraProofs.PreviewIsExact` | src/modules/orders/services.py:1617-1674 | for a cart that buys none of its own containers the preview is empty iff checkout without crediting passes the container block |
| `TaraProofs.PreviewedOrderMovesNoStock` | src/modules/orders/services.py:157-369 | an order placed on an empty preview is never refused for containers and moves no stock |
| `Trend.InventoryTrend` | src/modules/inventory/dashboard_queries.py:671-708 | the backward accumulation with its final reversal gives, for each day, the current figure less all later days of the window |
| `Trend.TrendIsForwardSum` | src/modules/inventory/dashboard_queries.py:512-708 | each emitted figure equals the forward ledger sum through the end of its day iff the movements after the window cancel out |
| `Trend.PointIsForwardSum` | src/modules/inventory/dashboard_queries.py:512-708 | each figure is off the forward sum by exactly what moved after the window |
| `Trend.DaysShown` | src/modules/inventory/dashboard_queries.py:572-671 | the query has one row per day of the window with any movement, in order |
| `TrendOfRuns.TrendOfRun` | src/modules/inventory/dashboard_queries.py:512-708 | the chart of any reachable database: the right days in order, each figure the forward ledger sum of its day plus what moved after the window |
| `Trend.QuietAfterwards` | src/modules/inventory/dashboard_queries.py:512-708 | no ledger row after the window is enough |
| `Keyset.PageAt` | src/common/pagination.py:102-125 | from any position one request returns the next `size` rows and the token of the position after them |
| `Keyset.SessionIsExact` | src/common/pagination.py:102-125 | the pages of every session concatenate to the full sorted result, none missed or repeated, all but the last full |
| `Keyset.SessionEnds` | src/common/pagination.py:102-125 | following the tokens terminates |
| `Keyset.EmptyPagesLoseEverything` | src/common/pagination.py:116-121 | at size 0 the first page is empty and ends the walk |
| `CursorPages.NameTokens` | src/modules/inventory/services.py:336-358 | a name cursor comes back as its key, and the endpoint sorted by time refuses it |
| `CursorPages.TimeTokens` | src/modules/inventory/services.py:431-467 | a time cursor comes back as its key, and the endpoint sorted by name refuses it |
| `CursorPages.NamePages` | src/modules/inventory/repositories.py:166-195 | with real tokens over rows sorted by name and id, in either direction: a session exists and every session yields exactly the sorted result |
| `CursorPages.TimePages` | src/modules/inventory/repositories.py:461-545 | the same over rows sorted by creation time and id |
| `Cursor.CursorRoundTrip` | src/common/pagination.py:51-99 | every timestamp, text or integer comes back from its token with its id, separators in the text included; the token is URL-safe |
| `Cursor.PaddingIsRestored` | src/common/pagination.py:67-73 | stripped padding is restored exactly; an unpadded length is never 1 mod 4 |
| `Cursor.Base64RoundTrip` | src/common/pagination.py:66-74 | the base64url reader returns the bytes that were written |
| `Cursor.Utf8RoundTrip` | src/common/pagination.py:66-74 | strict UTF-8 decoding returns the encoded text |
| `Cursor.UuidRoundTrip` | src/common/pagination.py:66-83 | a UUID comes back from its dashed text |
| `IsoTime.MomentRoundTrip` | src/common/pagination.py:51-86 | every timestamp, naive or with an offset, comes back from its ISO text, optional parts left out or not |
| `FormatLaws.LettersAreAlphabet` | src/common/pagination.py:66-67 | the alphabet of section 5 of RFC 4648 |
| `FormatLaws.GroupsAreDigits` | src/common/pagination.py:66-67 | three bytes are written as the four base-64 digits of their 24-bit number |
| `FormatLaws.TailsAreDigits` | src/common/pagination.py:66-67 | one or two bytes left over are written as their digits and padding |
| `FormatLaws.Utf8Samples` | src/common/pagination.py:66-66 | one character of each encoded length |
| `FormatLaws.PayloadsLookSo` | src/common/pagination.py:51-66 | version, kind, id and value, separated by bars, for each kind of value |
| `FormatLaws.UuidsLookSo` | src/common/pagination.py:66-66 | the places of the dashes and the groups between them |
| `FormatLaws.TimestampsLookSo` | src/common/pagination.py:53-55 | the places of year, month, day, separators and clock in an ISO timestamp |
| `FormatLaws.ClocksLookSo` | src/common/pagination.py:53-55 | the places of hour, minute, second and microseconds, the small ones only when needed |
| `FormatLaws.PaddedLooksSo` | src/modules/contracts/services.py:539-547 | a number of at most so many digits is written with exactly so many, and reads as itself |
| `FormatLaws.DecimalsLookSo` | src/modules/contracts/services.py:539-547 | other numbers are written with their digits and no zero in front |
| `Search.EscapeIsOnePass` | src/common/search.py:10-17 | the three successive replaces equal a one-pass escape |
| `Search.PatternIsLiteral` | src/common/search.py:10-17 | under LIKE with backslash escape a text matches the pattern iff it contains the query, up to case folding |
| `UnitOfWork.UnitOfWork.constructor` | src/infrastructure/database/uow.py:26-28 | a session starts from the committed database |
| `UnitOfWork.UnitOfWork.Close` | src/infrastructure/database/uow.py:30-59 | success makes the session's tables the committed ones, failure discards them |
| `UnitOfWork.UnitOfWork.AddOrder` | src/modules/orders/models.py:218-222 | an order and its lines are stored, or refused by the table constraints |
| `UnitOfWork.UnitOfWork.IncrementQuantitiesUsed` | src/modules/contracts/repositories.py:186-216 | the loop of updates follows `Quotas.Increment`; only contracts change |
| `UnitOfWork.UnitOfWork.DecrementQuantitiesUsed` | src/modules/contracts/repositories.py:218-259 | the loop of clamped updates follows `Database.ReleaseQuota`; only contracts change |
| `UnitOfWork.UnitOfWork.AddStockRow` | src/infrastructure/database/scripts/update_inventory_balances.sql:17-55 | one ledger insert with its trigger |
| `UnitOfWork.UnitOfWork.AddDocument` | src/modules/inventory/services.py:594-636 | a document and its rows, posted one after the other |
| `UnitOfWork.UnitOfWork.AddTxn` | src/infrastructure/database/scripts/update_account_balances.sql:1-41 | one ledger insert with its trigger |
| `UnitOfWork.UnitOfWork.AddTxns` | src/common/repository.py:66-75 | several inserts, stopping at the first refused one |
| `OrderService.PriceLines` | src/modules/orders/services.py:243-254 | lines carry the contract or catalogue price, the accumulated total is their value |
| `OrderService.CheckListed` | src/modules/orders/services.py:228-234 | refuses iff some product is missing from the contract |
| `OrderService.FindShortages` | src/modules/orders/services.py:286-304 | the shortage loop, line by line |
| `OrderService.BuildReturnableItems` | src/modules/orders/services.py:1081-1097 | `returnable_map`: containers of the lines, totalled per container |
| `OrderService.CheckStock` | src/modules/orders/services.py:1270-1280 | `stock_shortages` has exactly the products some line of which exceeds the balance, each with what that line lacks |
| `OrderService.ReadDelivery` | src/modules/orders/services.py:1182-1222 | the partial-delivery loop: delivered lines, new total and quota deltas, or its first error |
| `OrderService.CheckAndReserve` | src/modules/orders/services.py:1031-1058 | all positions are checked before any is reserved |
| `OrderService.CoverContainers` | src/modules/orders/services.py:278-328 | the container block: fail, do nothing, or credit the shortages |
| `OrderService.CreateStockTransfer` | src/modules/orders/services.py:1099-1160 | a completed document with its positive rows |
| `OrderService.CreateOrder` | src/modules/orders/services.py:157-369 | follows the checkout step on every input, errors included |
| `OrderService.AddProduct` | src/modules/orders/services.py:618-747 | follows its step; stock and money untouched |
| `OrderService.RemoveProduct` | src/modules/orders/services.py:749-825 | follows its step; stock and money untouched |
| `OrderService.AssignCourier` | src/modules/orders/services.py:827-904 | follows its step; only orders change |
| `OrderService.ReleaseOrderQuantities` | src/modules/orders/services.py:1060-1078 | quota returned, then the flag cleared |
| `OrderService.CancelOne` | src/modules/orders/services.py:954-985 | the cancellation of one order follows `Database.CancelOrder` |
| `OrderService.UpdateStatus` | src/modules/orders/services.py:906-988 | follows its step for every transition |
| `OrderService.CancelBatch` | src/modules/orders/services.py:1826-1854 | the loop over one batch of stale orders |
| `OrderService.ExpireStaleOrders` | src/modules/orders/services.py:1786-1857 | both batches, all or nothing |
| `OrderService.CorrectOrder` | src/modules/orders/services.py:1182-1234 | the order, its total and the quota follow what was handed over |
| `OrderService.ShipDelivery` | src/modules/orders/services.py:1282-1310 | both documents of a delivery |
| `OrderService.HandleFulfilment` | src/modules/orders/services.py:1162-1313 | follows the fulfilment step |
| `OrderService.SettleOrder` | src/modules/orders/services.py:1442-1612 | the settlement rows of both sale types |
| `OrderService.ShipPickup` | src/modules/orders/services.py:1358-1434 | the documents of a pickup |
| `OrderService.HandlePickup` | src/modules/orders/services.py:1315-1440 | follows the pickup step |
| `OrderService.CompletePickup` | src/modules/orders/services.py:547-592 | follows its step |
| `OrderService.OpenSaleOrder` | src/modules/orders/services.py:371-527 | the sale up to its stored order |
| `OrderService.CreateWarehouseSale` | src/modules/orders/services.py:371-545 | follows its step |
| `ContractService.SelectionExact` | src/modules/orders/repositories.py:309-347 | the selected rows are cancellable, in order, with their old status and flag |
| `ContractService.SelectionComplete` | src/modules/orders/repositories.py:309-347 | every cancellable order is selected |
| `ContractService.BulkCancelByContract` | src/modules/orders/repositories.py:309-347 | returns the selection and changes nothing but the status of exactly those orders |
| `ContractService.ProductTotals` | src/modules/contracts/services.py:318-326 | `product_totals` built in a loop |
| `ContractService.ClearFlags` | src/modules/contracts/services.py:331-334 | exactly the selected quota flags are cleared |
| `ContractService.LogCancellations` | src/modules/contracts/services.py:336-347 | exactly one audit row per selected order, with its old status |
| `ContractService.FinishCancellation` | src/modules/contracts/services.py:331-347 | status, flag and log together are the cancelled rows of the specification |
| `ContractService.CancelInflightOrders` | src/modules/contracts/services.py:292-365 | follows the one-pass cancellation step |
| `ContractService.CreateContract` | src/modules/contracts/services.py:57-88 | follows its step |
| `ContractService.ActivateContract` | src/modules/contracts/services.py:90-138 | follows its step, also for reinstatement |
| `ContractService.StopContract` | src/modules/contracts/services.py:140-290 | suspension and termination follow their step |
| `ContractService.RunExpireJob` | src/modules/contracts/services.py:838-869 | the loop over expirable contracts, all or nothing |
| `ContractService.UpdateContract` | src/modules/contracts/services.py:367-382 | follows its step |
| `ContractService.SetPriceItem` | src/modules/contracts/services.py:386-421 | follows its step |
| `ContractService.RemovePriceItem` | src/modules/contracts/services.py:423-443 | follows its step |
| `ContractService.BilledTotal` | src/modules/contracts/services.py:531-537 | the sum over the orders of a period |
| `ContractService.GenerateInvoice` | src/modules/contracts/services.py:498-563 | follows its step |
| `ContractService.ChangeInvoiceStatus` | src/modules/contracts/services.py:588-687 | follows its step for issuing, paying, cancelling and one overdue row |
| `StockService.RequestedQuantities` | src/modules/inventory/services.py:577-582 | one entry per product, with the total of the list |
| `StockService.Shortages` | src/modules/inventory/services.py:583-592 | there is a shortage iff some requested total exceeds the balance, and each is what is lacking |
| `StockService.CreateTransfer` | src/modules/inventory/services.py:469-646 | follows its step |
| `StockService.CapitaliseTara` | src/modules/inventory/services.py:658-715 | follows its step |
| `StockService.CapitaliseDeficit` | src/modules/inventory/services.py:776-874 | follows its step |
| `BillingService.CreateTransaction` | src/modules/finances/services.py:600-645 | follows its step |
| `BillingService.AcceptPayment` | src/modules/finances/services.py:889-947 | follows its step |
| `BillingService.ResolveTransaction` | src/modules/finances/services.py:647-708 | follows its step for verification and rejection |
| `BackOffice.Execute` | src/infrastructure/database/uow.py:26-59 | every command commits exactly its specified outcome, or fails with the specified error and leaves the committed database as it was |
| `BackOffice.Serve` | src/infrastructure/database/uow.py:26-59 | any list of commands from start-up ends in the run of the specification, with the whole invariant |
| `OrderSteps.PayingContract` | src/modules/orders/services.py:990-1029 | only an ACTIVE contract ever pays |
| `StockSteps.Route` | src/modules/inventory/services.py:50-101 | an accepted route has two different existing inventories; one of them is virtual only for a caller with the adjustment scope, the loss account is never a source and the vendor never a destination |

## Left out

- Row locks and interleaving inside one unit of work: each unit of work is one atomic step. `SKIP LOCKED` in the bulk cancellation and the stale-order job is not modelled; the stale-order job takes any selection as a parameter.
- `cancel_order`: its first unit of work only reads; the second is `update_status` with the client as requester, which is modelled.
- `run_overdue_job`: modelled one invoice at a time through the status change.
- Catalogue, user and role services: their answers (products on sale, active couriers, the adjustment scope) are parameters of the commands.
- The configuration error when a system inventory is missing: the vendor and loss inventories exist from start-up.
- Several accounts or inventories of one kind for one user, where the source expects one: the model takes the first and does not raise.
- Transfer headers and transfer items as separate tables: a ledger row carries its document's heading.
- Column widths: amounts, quantities and texts are unbounded.
- Error details (shortage lists, messages), reasons, notes and timestamps that no modelled decision reads.
- Client onboarding and the seeder, which write orders and stock outside the logged flow.
- Account statement, dashboards other than virtual accounts and trends (container distribution, debtors, turnover), filters, date presets and offset pagination.
- Contract amendments, reconciliation reports and the payment warning of mark_invoice_paid.
- `PARTIALLY_PAID` invoices: no modelled operation sets that status.
- Cursor.CursorRoundTrip: the readers of timestamps, integers and UUIDs cover the texts `isoformat()` and `str()` write; Python's also accept other spellings (blanks, underscores, braces, `urn:`, week dates), which the decoder of the model refuses.
- Search.PatternIsLiteral: case folding is any character comparison given as a parameter; foldings that change the length of a text are not covered.
- Integrity.VirtualAccounts: the loss trend of the last 30 days, a plain grouped query, is not modelled; the report's vendor total keeps its sign here, where the response shows its absolute value.
- OrderService.FindShortages: the products of a cart are taken in cart order; the catalogue query leaves their order open.
