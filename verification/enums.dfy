/** The status and movement-type enumerations stored in the tables, with the
    string spellings the schemas and the validators use. */
module Enums {
  import opened Common

  /** Order status; stored in `orders.status`. */
  datatype OrderStatus = Pending | Confirmed | Cancelled

  /** Payment status; stored in `payment.status`, defaulting to PENDING. */
  datatype PaymentStatus = Pending | Confirmed | Cancelled

  /** Reservation status; stored in `inventory_reservations.status`, defaulting to PENDING. */
  datatype ReservationStatus = Pending | Confirmed | Cancelled

  /** Direction of a ledger movement; stored in `inventory.type`. */
  datatype MovementType = In | Out

  function OrderStatusName(s: OrderStatus): string {
    match s
    case Pending => "PENDING"
    case Confirmed => "CONFIRMED"
    case Cancelled => "CANCELLED"
  }

  function PaymentStatusName(s: PaymentStatus): string {
    match s
    case Pending => "PENDING"
    case Confirmed => "CONFIRMED"
    case Cancelled => "CANCELLED"
  }

  function MovementTypeName(t: MovementType): string {
    match t
    case In => "IN"
    case Out => "OUT"
  }

  /** `z.enum(OrderStatus)`: accepts exactly the spellings of the members. */
  function ParseOrderStatus(s: string): (r: Option<OrderStatus>)
    ensures r.Some? ==> OrderStatusName(r.value) == s
    ensures forall x :: OrderStatusName(x) == s ==> r == Some(x)
  {
    if s == "PENDING" then Some(OrderStatus.Pending)
    else if s == "CONFIRMED" then Some(OrderStatus.Confirmed)
    else if s == "CANCELLED" then Some(OrderStatus.Cancelled)
    else None
  }

  /** `z.enum(PaymentStatus)`: accepts exactly the spellings of the members. */
  function ParsePaymentStatus(s: string): (r: Option<PaymentStatus>)
    ensures r.Some? ==> PaymentStatusName(r.value) == s
    ensures forall x :: PaymentStatusName(x) == s ==> r == Some(x)
  {
    if s == "PENDING" then Some(PaymentStatus.Pending)
    else if s == "CONFIRMED" then Some(PaymentStatus.Confirmed)
    else if s == "CANCELLED" then Some(PaymentStatus.Cancelled)
    else None
  }

  /** `z.enum(["IN", "OUT"])`. */
  function ParseMovementType(s: string): (r: Option<MovementType>)
    ensures r.Some? ==> MovementTypeName(r.value) == s
    ensures forall x :: MovementTypeName(x) == s ==> r == Some(x)
  {
    if s == "IN" then Some(In) else if s == "OUT" then Some(Out) else None
  }
}
