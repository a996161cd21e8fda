/** Returnable containers ("tara"): what a cart must bring back and what is missing. */
module Tara {
  import opened Base
  import opened Tally
  import opened StockLedger
  import opened Database

  function Returnable(catalog: Catalog, p: ProductId): Option<ProductId> {
    if p in catalog then catalog[p].returnable else None
  }

  /** The containers of the cart's products: one pair per product, from its first position. */
  function Exchange(catalog: Catalog, cart: Cart): seq<(ProductId, int)> {
    if cart == [] then []
    else
      var (p, q) := Last(cart);
      Exchange(catalog, Front(cart)) +
      (if OnSale(catalog, p) && catalog[p].returnable.Some? && !HasKey(Front(cart), p)
       then [(catalog[p].returnable.value, q)] else [])
  }

  /** `{i.product_id: i.quantity for i in cart}.get(p, 0)`: the last position wins. */
  function LastQuantity(cart: Cart, p: ProductId): int {
    if cart == [] then 0 else if Last(cart).0 == p then Last(cart).1 else LastQuantity(Front(cart), p)
  }

  /** Containers the client can show: on the address, plus those bought in `cart`. */
  function Available(s: Stock, address: InventoryId, cart: Cart, tare: ProductId): int {
    Balance(s, address, tare) + LastQuantity(cart, tare)
  }

  /** The shortages, line by line: container and deficit. */
  function Deficits(s: Stock, address: InventoryId, cart: Cart, exchange: seq<(ProductId, int)>): seq<(ProductId, int)> {
    if exchange == [] then []
    else
      var (tare, required) := Last(exchange);
      var available := Available(s, address, cart, tare);
      Deficits(s, address, cart, Front(exchange)) +
      (if available < required then [(tare, required - available)] else [])
  }

  /** Crediting every shortage from the vendor. */
  function Capitalise(s: Stock, address: InventoryId, shortages: seq<(ProductId, int)>, now: int): Result<Stock> {
    StockTransfer(s, Document(s.vendor, address, InitialBalance, None, now), shortages)
  }

  /** The tara block of checkout: fail, do nothing, or credit the missing containers and say so. */
  function CoverTara(
    s: Stock, address: InventoryId, cart: Cart, exchange: seq<(ProductId, int)>, capitalise: bool, now: int)
    : Result<(Stock, bool)>
  {
    var shortages := Deficits(s, address, cart, exchange);
    if shortages == [] then Success((s, false))
    else if !capitalise then Failure(InsufficientTara)
    else
      var credited :- Capitalise(s, address, shortages, now);
      Success((credited, true))
  }

  /** check_tara_availability: the shortages a client is shown before ordering. */
  function Preview(s: Stock, address: InventoryId, catalog: Catalog, cart: Cart): Result<seq<(ProductId, int)>> {
    var exchange := Exchange(catalog, cart);
    if exchange == [] then Success([])
    else if !Exists(s, address) then Failure(ClientInventoryNotFound)
    else Success(Deficits(s, address, [], exchange))
  }

  /** The containers paired with the lines, one pair per line that has one. */
  function Paired(catalog: Catalog, lines: seq<Line>): seq<(ProductId, int)> {
    if lines == [] then []
    else
      var line := Last(lines);
      Paired(catalog, Front(lines)) +
      (if Returnable(catalog, line.product).Some? && line.quantity > 0
       then [(Returnable(catalog, line.product).value, line.quantity)] else [])
  }

  /** _build_returnable_items: the paired containers, totalled per container. */
  function ReturnableItems(catalog: Catalog, lines: seq<Line>): seq<(ProductId, int)> {
    Collect(Paired(catalog, lines))
  }
}
