/**
  A database session. The services change its tables row by row; `committed` is what other
  sessions see, and a failure discards everything since the last commit.
 */
module UnitOfWork {
  import opened Base
  import opened Tally
  import opened Quotas
  import opened StockLedger
  import opened MoneyLedger
  import opened Database
  import OrderSteps

  class UnitOfWork {
    var orders: seq<Order>
    var contracts: seq<Contract>
    var stock: Stock
    var money: Money
    var committed: Db

    /** The tables as this session sees them. */
    function View(): Db
      reads this
    {
      Db(orders, contracts, stock, money)
    }

    /** The session did what the specification says, or stopped with the specified error. */
    ghost predicate Follows(spec: Result<Db>, r: Result<()>)
      reads this
    {
      match spec
      case Success(db) => r == Success(()) && View() == db
      case Failure(e) => r == Failure(e)
    }

    constructor (db: Db)
      ensures View() == committed == db
    {
      orders, contracts, stock, money, committed := db.orders, db.contracts, db.stock, db.money, db;
    }

    /** Leaving the `async with` block: commit, or roll back on an exception. */
    method Close(r: Result<()>)
      modifies this
      ensures View() == committed
      ensures committed == if r.Success? then old(View()) else old(committed)
    {
      if r.Success? {
        committed := View();
      } else {
        orders, contracts, stock, money := committed.orders, committed.contracts, committed.stock, committed.money;
      }
    }

    // ---- Orders ----

    method AddOrder(ord: Order) returns (r: Result<()>)
      modifies this`orders
      ensures Follows(OrderSteps.InsertOrder(old(View()), ord), r)
    {
      if ord.clientInventory >= |stock.inventories| || !OrderSteps.LinesAllowed(ord.lines) {
        return Failure(DbIntegrity);
      }
      orders := orders + [ord];
      return Success(());
    }

    /** update_status with its audit row. */
    method SetStatus(o: OrderId, target: OrderStatus)
      requires o < |orders|
      modifies this`orders
      ensures orders == old(orders)[o := WithStatus(old(orders)[o], target)]
    {
      orders := orders[o := WithStatus(orders[o], target)];
    }

    // ---- Quotas ----

    /** One update per pair; a pair that hits no row is an error. */
    method IncrementQuantitiesUsed(c: ContractId, deltas: Deltas) returns (r: Result<()>)
      requires c < |contracts|
      modifies this`contracts
      ensures match Increment(old(contracts)[c].items, deltas)
              case Success(items) => r == Success(()) && contracts == old(contracts)[c := old(contracts)[c].(items := items)]
              case Failure(e) => r == Failure(e)
    {
      ghost var before := contracts[c].items;
      for n := 0 to |deltas|
        invariant |contracts| == |old(contracts)|
        invariant contracts == old(contracts)[c := old(contracts)[c].(items := contracts[c].items)]
        invariant Increment(before, deltas[..n]) == Success(contracts[c].items)
      {
        var (p, d) := deltas[n];
        var items := contracts[c].items;
        assert Front(deltas[..n + 1]) == deltas[..n];
        if d <= 0 || p !in items {
          IncrementStops(before, deltas, n + 1);
          return Failure(QuotaLeak);
        }
        contracts := contracts[c := contracts[c].(items := items[p := items[p].(used := items[p].used + d)])];
      }
      assert deltas[..|deltas|] == deltas;
      return Success(());
    }

    /** One clamped update per pair; a pair that hits no row is an error. */
    method DecrementQuantitiesUsed(c: ContractId, deltas: Deltas) returns (r: Result<()>)
      modifies this`contracts
      ensures match ReleaseQuota(old(contracts), c, deltas)
              case Success(released) => r == Success(()) && contracts == released
              case Failure(e) => r == Failure(e)
    {
      if c >= |contracts| {
        return if deltas == [] then Success(()) else Failure(QuotaLeak);
      }
      ghost var before := contracts[c].items;
      for n := 0 to |deltas|
        invariant |contracts| == |old(contracts)|
        invariant contracts == old(contracts)[c := old(contracts)[c].(items := contracts[c].items)]
        invariant Decrement(before, deltas[..n]) == Success(contracts[c].items)
      {
        var (p, d) := deltas[n];
        var items := contracts[c].items;
        assert Front(deltas[..n + 1]) == deltas[..n];
        if d <= 0 || p !in items {
          DecrementStops(before, deltas, n + 1);
          return Failure(QuotaLeak);
        }
        contracts := contracts[c := contracts[c].(items := items[p := items[p].(used := Max(items[p].used - d, 0))])];
      }
      assert deltas[..|deltas|] == deltas;
      return Success(());
    }

    // ---- Stock ----

    /** A ledger insert: the trigger moves both balances and refuses a negative real one. */
    method AddStockRow(row: StockRow) returns (r: Result<()>)
      modifies this`stock
      ensures match Insert(old(stock), row)
              case Success(s) => r == Success(()) && stock == s
              case Failure(e) => r == Failure(e)
    {
      if !RowAllowed(stock.inventories, row) {
        return Failure(DbIntegrity);
      }
      stock := stock.(ledger := stock.ledger + [row]);
      stock := stock.(balances := Bump(stock.balances, (row.from, row.product), -row.quantity));
      stock := stock.(balances := Bump(stock.balances, (row.to, row.product), row.quantity));
      if !NotNegative(stock, row.from, row.product) || !NotNegative(stock, row.to, row.product) {
        return Failure(NegativeBalance);
      }
      return Success(());
    }

    /** A document and its rows. */
    method AddDocument(d: Document, items: seq<(ProductId, int)>) returns (r: Result<()>)
      modifies this`stock
      ensures match PostDocument(old(stock), d, items)
              case Success(s) => r == Success(()) && stock == s
              case Failure(e) => r == Failure(e)
    {
      if d.from == d.to || !Exists(stock, d.from) || !Exists(stock, d.to) {
        return Failure(DbIntegrity);
      }
      for n := 0 to |items|
        invariant StockLedger.Post(old(stock), d, items[..n]) == Success(stock)
      {
        assert Front(items[..n + 1]) == items[..n];
        var added := AddStockRow(RowOf(d, items[n]));
        if added.Failure? {
          PostStops(old(stock), d, items, n + 1);
          return added;
        }
      }
      assert items[..|items|] == items;
      return Success(());
    }

    // ---- Money ----

    /** A ledger insert: the trigger moves both balances of a COMPLETED row. */
    method AddTxn(t: Txn) returns (r: Result<()>)
      modifies this`money
      ensures match InsertTxn(old(money), t)
              case Success(m) => r == Success(()) && money == m
              case Failure(e) => r == Failure(e)
    {
      if !TxnAllowed(money.accounts, t) {
        return Failure(DbIntegrity);
      }
      var balances := money.balances;
      if t.status == Completed {
        balances := balances[t.from := balances[t.from] - t.amount];
        balances := balances[t.to := balances[t.to] + t.amount];
      }
      money := money.(balances := balances, ledger := money.ledger + [t]);
      return Success(());
    }

    method AddTxns(rows: seq<Txn>) returns (r: Result<()>)
      modifies this`money
      ensures match InsertAll(old(money), rows)
              case Success(m) => r == Success(()) && money == m
              case Failure(e) => r == Failure(e)
    {
      for n := 0 to |rows|
        invariant InsertAll(old(money), rows[..n]) == Success(money)
      {
        assert Front(rows[..n + 1]) == rows[..n];
        var added := AddTxn(rows[n]);
        if added.Failure? {
          InsertStops(old(money), rows, n + 1);
          return added;
        }
      }
      assert rows[..|rows|] == rows;
      return Success(());
    }
  }

  // ---- A loop that stops early fails as a whole ----

  lemma {:induction false} IncrementStops(items: PriceList, deltas: Deltas, n: nat)
    requires n <= |deltas| && Increment(items, deltas[..n]).Failure?
    ensures Increment(items, deltas) == Increment(items, deltas[..n])
  {
    if n == |deltas| {
      assert deltas[..n] == deltas;
    } else {
      assert Front(deltas)[..n] == deltas[..n];
      IncrementStops(items, Front(deltas), n);
    }
  }

  lemma {:induction false} DecrementStops(items: PriceList, deltas: Deltas, n: nat)
    requires n <= |deltas| && Decrement(items, deltas[..n]).Failure?
    ensures Decrement(items, deltas) == Decrement(items, deltas[..n])
  {
    if n == |deltas| {
      assert deltas[..n] == deltas;
    } else {
      assert Front(deltas)[..n] == deltas[..n];
      DecrementStops(items, Front(deltas), n);
    }
  }

  lemma {:induction false} PostStops(s: Stock, d: Document, items: seq<(ProductId, int)>, n: nat)
    requires n <= |items| && StockLedger.Post(s, d, items[..n]).Failure?
    ensures StockLedger.Post(s, d, items) == StockLedger.Post(s, d, items[..n])
  {
    if n == |items| {
      assert items[..n] == items;
    } else {
      assert Front(items)[..n] == items[..n];
      PostStops(s, d, Front(items), n);
    }
  }

  lemma {:induction false} InsertStops(m: Money, rows: seq<Txn>, n: nat)
    requires n <= |rows| && InsertAll(m, rows[..n]).Failure?
    ensures InsertAll(m, rows) == InsertAll(m, rows[..n])
  {
    if n == |rows| {
      assert rows[..n] == rows;
    } else {
      assert Front(rows)[..n] == rows[..n];
      InsertStops(m, Front(rows), n);
    }
  }
}
