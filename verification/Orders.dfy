/** Orders as the matching engine sees them (backend/app/core/matching_engine/orders.py).

    `Order` is the value of one order at one moment; `EngineOrder` is the mutable object the engine
    passes around.  A price, quote budget, stop price or iceberg peak of 0.0 stands for Python's
    `None`: the engine only ever tests these fields for truth or for being positive. */
module Orders {

  datatype Side = Buy | Sell {
    function Opposite(): Side {
      if Buy? then Sell else Buy
    }
  }

  datatype OrderType = Market | Limit | StopMarket | StopLimit

  datatype TimeInForce = Gtc | Ioc | Fok | Gtd

  datatype Status = Pending | Open | PartiallyFilled | Filled | Cancelled | Rejected | Expired | Triggered {
    predicate Live() {
      Open? || PartiallyFilled?
    }
    predicate Terminal() {
      Filled? || Cancelled? || Rejected? || Expired?
    }
  }

  type OrderId = nat
  type UserId = nat

  function Min(x: real, y: real): real {
    if x <= y then x else y
  }

  datatype Order = Order(
    id: OrderId,
    user: UserId,
    side: Side,
    kind: OrderType,
    price: real,
    quantity: real,
    filled: real,
    quote: real,
    stopPrice: real,
    tif: TimeInForce,
    peak: real,
    status: Status)
  {
    function Remaining(): real {
      quantity - filled
    }

    predicate IsFilled() {
      Remaining() <= 0.0
    }

    predicate IsIceberg() {
      peak > 0.0
    }

    /** The order after `fill(amount)`. */
    function Filling(amount: real): Order {
      var f := filled + Min(amount, Remaining());
      this.(filled := f,
            status := if quantity - f <= 0.0 then Filled
                      else if f > 0.0 then PartiallyFilled
                      else status)
    }

    /** The quantity an order shows on the book when `unfilled` is left of it. */
    function Visible(unfilled: real): real {
      if IsIceberg() then Min(peak, unfilled) else unfilled
    }
  }

  class EngineOrder {
    const id: OrderId
    const user: UserId
    const side: Side
    const price: real
    const quote: real
    const stopPrice: real
    const tif: TimeInForce
    const peak: real
    var kind: OrderType
    var quantity: real
    var filled: real
    var status: Status

    constructor (v: Order)
      ensures Value() == v
    {
      id, user, side, price := v.id, v.user, v.side, v.price;
      quote, stopPrice, tif, peak := v.quote, v.stopPrice, v.tif, v.peak;
      kind, quantity, filled, status := v.kind, v.quantity, v.filled, v.status;
    }

    function Value(): Order
      reads this
    {
      Order(id, user, side, kind, price, quantity, filled, quote, stopPrice, tif, peak, status)
    }

    method Fill(amount: real) returns (actual: real)
      modifies this
      ensures Value() == old(Value()).Filling(amount)
      ensures actual == filled - old(filled)
    {
      actual := Min(amount, quantity - filled);
      filled := filled + actual;
      if quantity - filled <= 0.0 {
        status := Filled;
      } else if filled > 0.0 {
        status := PartiallyFilled;
      }
    }

    method Cancel()
      modifies this`status
      ensures status == if old(status) in {Open, Pending, PartiallyFilled} then Cancelled else old(status)
    {
      if status in {Open, Pending, PartiallyFilled} {
        status := Cancelled;
      }
    }

    /** What an iceberg shows next: nothing once it is used up, so a filled iceberg is never revealed again. */
    method RevealIcebergPeak() returns (visible: real)
      ensures peak > 0.0 && quantity > filled ==> visible == Value().Visible(quantity - filled) > 0.0
      ensures peak <= 0.0 || quantity <= filled ==> visible == 0.0
    {
      if peak <= 0.0 {
        return 0.0;
      }
      var hidden := quantity - filled;
      if hidden <= 0.0 {
        return 0.0;
      }
      visible := Min(peak, hidden);
    }
  }
}
