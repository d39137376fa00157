/** The entities of the matching engine.

    Of a Go `*Order` only `Left` and `Status` are ever assigned after the order
    entered the engine. The other fields are the immutable record `Order`; the two
    assigned ones are a `Cell`, and the engine keeps one cell per order ID. The
    caller, the book's map and the heap all name the order by its record, so they
    share that one cell the way the Go pointers share the struct. */
module Orders {

  datatype Side = Ask | Bid {
    function Opposite(): Side { if Ask? then Bid else Ask }
  }

  datatype Status = Pending | Partial | Finished | Canceled

  datatype Order = Order(id: nat, userId: nat, market: string, side: Side, price: real, amount: real)

  datatype Cell = Cell(order: Order, left: real, status: Status)

  /** What the configuration says of a market name. */
  datatype Listing = Market(stock: string, money: string) | Unlisted

  type Market = l: Listing | l.Market? witness Market("", "")

  type Markets = map<string, Market>

  function ListingOf(markets: Markets, name: string): Listing {
    if name in markets then markets[name] else Unlisted
  }

  /** The configuration of a market; the blank one where none is configured. */
  function MarketIn(markets: Markets, name: string): Market {
    if name in markets then markets[name] else Market("", "")
  }

  datatype Trade = Trade(
    id: nat, takerOrderId: nat, makerOrderId: nat, takerUserId: nat, makerUserId: nat,
    market: string, side: Side, price: real, amount: real, takerFee: real, makerFee: real)

  datatype StopOrder = StopOrder(order: Order, triggerPrice: real, triggered: bool)

  const FEE_RATE: real := 0.001

  function Min(a: real, b: real): real { if a <= b then a else b }

  lemma ProductNonNegative(x: real, y: real)
    requires x >= 0.0 && y >= 0.0
    ensures x * y >= 0.0
  {
  }

  lemma ProductPositive(x: real, y: real)
    requires x > 0.0 && y > 0.0
    ensures x * y > 0.0
  {
  }

  /** Products grow with their second factor. */
  lemma ProductGrows(x: real, y: real, z: real)
    requires x >= 0.0 && y <= z
    ensures x * y <= x * z
  {
    ProductNonNegative(x, z - y);
    assert x * (z - y) == x * z - x * y;
  }
}
