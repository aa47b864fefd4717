/** Vocabulary shared by the exchange and its trading client: limits, sides, orders, requests,
    responses and market updates. */
module Common {

  const ME_MAX_TICKERS: nat := 8
  const ME_MAX_NUM_CLIENTS: nat := 256
  const ME_MAX_ORDER_IDS: nat := 1024 * 1042
  const ME_MAX_PRICE_LEVELS: nat := 256
  const TICKER_ID_INVALID: nat := 0xffff_ffff
  const CLIENT_ID_INVALID: nat := 0xffff_ffff
  const ORDER_ID_INVALID: nat := 0xffff_ffff_ffff_ffff
  const PRICE_INVALID: int := 0x7fff_ffff_ffff_ffff
  const QTY_INVALID: nat := 0xffff_ffff
  const PRIORITY_INVALID: nat := 0xffff_ffff_ffff_ffff

  datatype Option<+T> = None | Some(value: T)

  datatype Side = INVALID | BUY | SELL

  predicate IsTradeSide(side: Side) {
    side == BUY || side == SELL
  }

  function Opposite(side: Side): Side {
    if side == BUY then SELL else BUY
  }

  /** An order at the exchange is named by its client and by the id that client gave it. */
  datatype OrderRef = OrderRef(client: nat, coid: nat)

  /** A resting order. `key` is the name under which a book indexes it: an `OrderRef` at the
      exchange, the market order id in the client's copy. */
  datatype Order<K> = Order(key: K, oid: nat, side: Side, price: int, qty: nat, priority: nat)

  datatype RequestType = NEW | CANCEL
  datatype Request = Request(kind: RequestType, ref: OrderRef, ticker: nat, side: Side, price: int, qty: nat)

  datatype ResponseType = ACCEPTED | CANCELED | FILLED | CANCEL_REJECTED
  datatype Response = Response(kind: ResponseType, ref: OrderRef, ticker: nat, oid: nat, side: Side,
                               price: int, execQty: nat, leavesQty: nat)

  datatype UpdateType = CLEAR | ADD | MODIFY | REMOVE | TRADE | SNAPSHOT_START | SNAPSHOT_END
  datatype Update = Update(kind: UpdateType, oid: nat, ticker: nat, side: Side, price: int, qty: nat,
                           priority: nat)

  function Min(a: nat, b: nat): nat {
    if a < b then a else b
  }
}
