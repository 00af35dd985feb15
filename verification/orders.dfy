/** Orders and trades (engine/src/order_book.hpp, engine/src/order_book.cpp). */
module Orders {

  datatype Option<+T> = None | Some(value: T)

  /** The name of an order, a party or an instrument. */
  datatype Id = Id(text: string)

  datatype Side = Buy | Sell {
    function Opposite(): Side { if this == Buy then Sell else Buy }
  }

  datatype OrderType = Market | Limit | Stop | StopLimit | Iceberg

  datatype Status = New | PartiallyFilled | Filled | Canceled | Rejected | Expired

  datatype Trade = Trade(buyOrderId: Id, sellOrderId: Id, instrument: Id,
                         price: real, quantity: real, buyerId: Id, sellerId: Id)

  /** The value of a resting order, as a queue sees it. */
  datatype Entry = Entry(id: Id, actor: Id, price: real, remaining: real)

  /** An order object. It is shared by the level that queues it and by the book's id index. */
  class Order {
    const id: Id
    const instrument: Id
    const side: Side
    const kind: OrderType
    const quantity: real
    const price: real
    const actor: Id
    var remaining: real
    var status: Status

    constructor (id: Id, instrument: Id, side: Side, kind: OrderType,
                 quantity: real, price: real, actor: Id)
      ensures this.id == id && this.instrument == instrument && this.side == side && this.kind == kind
      ensures this.quantity == quantity && this.price == price && this.actor == actor
      ensures remaining == quantity && status == New
      ensures quantity > 0.0 ==> Live()
    {
      this.id, this.instrument, this.side, this.kind := id, instrument, side, kind;
      this.quantity, this.price, this.actor := quantity, price, actor;
      remaining, status := quantity, New;
    }

    /** Open for trading: something is left, and the status says how much has gone. */
    predicate Live()
      reads this
    {
      0.0 < remaining <= quantity && status == if remaining == quantity then New else PartiallyFilled
    }

    predicate Done()
      reads this
    {
      remaining == 0.0 && status == Filled
    }

    function ExecutedQuantity(): real
      reads this
    {
      quantity - remaining
    }

    function Value(): Entry
      reads this
    {
      Entry(id, actor, price, remaining)
    }

    /** Fills `quantity` of the order; `ok` is false where the original throws, and then nothing has changed.
        A live order stays live or is done, so its status always agrees with what is left of it. */
    method Execute(fill: real) returns (ok: bool)
      modifies this
      ensures ok <==> 0.0 < fill <= old(remaining)
      ensures ok ==> ExecutedQuantity() == old(ExecutedQuantity()) + fill
      ensures ok && old(Live()) ==> if fill == old(remaining) then Done() else Live()
      ensures !ok ==> remaining == old(remaining) && status == old(status)
    {
      if fill <= 0.0 || fill > remaining {
        return false;
      }
      remaining := remaining - fill;
      if remaining <= 0.0 {
        status := Filled;
      } else {
        status := PartiallyFilled;
      }
      ok := true;
    }
  }
}
