/** The market-data messages (protocol/messages.hpp). Ids, quantities and sequence numbers are
    unbounded here; Codec says which messages fit the wire. */
module Protocol {
  import opened Domain
  import opened TraderSpec

  datatype Event =
    | AddOrder(sequenceNumber: nat, timestampNs: nat, orderId: OrderId, instrumentId: InstrumentId, price: Price,
               quantity: Quantity, side: Side)
    | CancelOrder(sequenceNumber: nat, timestampNs: nat, orderId: OrderId, instrumentId: InstrumentId)
    | ModifyOrder(sequenceNumber: nat, timestampNs: nat, orderId: OrderId, instrumentId: InstrumentId, newPrice: Price,
                  newQuantity: Quantity)
    | Trade(sequenceNumber: nat, timestampNs: nat, instrumentId: InstrumentId, price: Price, quantity: Quantity,
            aggressorSide: Side)
    | ClearBook(sequenceNumber: nat, timestampNs: nat, instrumentId: InstrumentId)
}
