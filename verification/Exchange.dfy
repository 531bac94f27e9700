/** The exchange's commands and events (exchange/core). */
module Exchange {
  import opened Domain
  import opened PriceTime

  datatype RejectReason =
    | NoReason
    | InvalidPrice
    | InvalidQuantity
    | DuplicateOrderId
    | UnknownOrderId
    | InvalidInstrument
    | InsufficientLiquidity
    | InvalidReplacement
    | InsufficientFunds
    | InsufficientPosition
    | OrderTooLarge

  datatype Command =
    | NewOrder(commandSequence: nat, accountId: AccountId, clientOrderId: ClientOrderId, instrumentId: InstrumentId,
               side: Side, price: Price, quantity: Quantity, timeInForce: TimeInForce)
    | CancelOrder(commandSequence: nat, accountId: AccountId, clientOrderId: ClientOrderId, instrumentId: InstrumentId)
    | ReplaceOrder(commandSequence: nat, accountId: AccountId, originalClientOrderId: ClientOrderId,
                   newClientOrderId: ClientOrderId, instrumentId: InstrumentId, newPrice: Price, newQuantity: Quantity)

  /** One side of a trade, with what is left on its order afterwards. */
  datatype Counterparty = Counterparty(accountId: AccountId, clientOrderId: ClientOrderId,
                                       exchangeOrderId: ExchangeOrderId, remaining: Quantity)

  datatype Event =
    | OrderAccepted(eventSequence: nat, commandSequence: nat, accountId: AccountId, clientOrderId: ClientOrderId,
                    exchangeOrderId: ExchangeOrderId, instrumentId: InstrumentId, side: Side, price: Price,
                    quantity: Quantity, timeInForce: TimeInForce)
    | OrderRejected(eventSequence: nat, commandSequence: nat, accountId: AccountId, clientOrderId: ClientOrderId,
                    instrumentId: InstrumentId, reason: RejectReason)
    | OrderCancelled(eventSequence: nat, commandSequence: nat, accountId: AccountId, clientOrderId: ClientOrderId,
                     exchangeOrderId: ExchangeOrderId, instrumentId: InstrumentId)
    | OrderReplaced(eventSequence: nat, commandSequence: nat, accountId: AccountId,
                    originalClientOrderId: ClientOrderId, newClientOrderId: ClientOrderId,
                    exchangeOrderId: ExchangeOrderId, instrumentId: InstrumentId, newPrice: Price,
                    newQuantity: Quantity)
    | TradeExecuted(eventSequence: nat, commandSequence: nat, instrumentId: InstrumentId, price: Price,
                    quantity: Quantity, aggressorSide: Side, buyer: Counterparty, seller: Counterparty)
    | BookOrderAdded(eventSequence: nat, instrumentId: InstrumentId, exchangeOrderId: ExchangeOrderId,
                     side: Side, price: Price, quantity: Quantity)
    | BookOrderReduced(eventSequence: nat, instrumentId: InstrumentId, exchangeOrderId: ExchangeOrderId,
                       side: Side, price: Price, newRemaining: Quantity)
    | BookOrderRemoved(eventSequence: nat, instrumentId: InstrumentId, exchangeOrderId: ExchangeOrderId,
                       side: Side, price: Price)

  /** A client order id is unique only within its account. */
  datatype LiveKey = LiveKey(accountId: AccountId, clientOrderId: ClientOrderId)

  function KeyOf(order: BookOrder): LiveKey {
    LiveKey(order.accountId, order.clientOrderId)
  }

  /** What the engine's directory knows about a live order: which order it is, where it rests, and
      the two fields only a snapshot reads. */
  datatype OrderRef = OrderRef(exchangeOrderId: ExchangeOrderId, originalQuantity: Quantity, orderSequence: nat,
                               instrumentId: InstrumentId)

  type Directory = map<LiveKey, OrderRef>

  /** A complete order, on its way to the book (ExchangeRestingOrder). */
  datatype Incoming = Incoming(
    exchangeOrderId: ExchangeOrderId,
    clientOrderId: ClientOrderId,
    accountId: AccountId,
    price: Price,
    originalQuantity: Quantity,
    remaining: Quantity,
    orderSequence: nat,
    instrumentId: InstrumentId,
    side: Side,
    timeInForce: TimeInForce)

  function AsBookOrder(order: Incoming): BookOrder {
    BookOrder(order.exchangeOrderId, order.clientOrderId, order.accountId, order.price, order.remaining,
              order.side, order.timeInForce)
  }

  /** An order on `side` limited to `limit` trades with one resting at `price`. */
  predicate Crosses(side: Side, limit: Price, price: Price) {
    if side == Buy then limit >= price else limit <= price
  }
}
