/** The request schemas of the orders service: `orderItemSchema`,
    `createOrderSchema` and `updateOrderStatusSchema`. Identifier fields are
    taken as already-typed ids; the UUID format check is not modelled. */
module OrdersDto {
  import opened Common
  import opened Enums
  import opened Decimal

  datatype ProductRef = ProductRef(id: nat)

  /** One line of an order request: product, quantity and unit price. */
  datatype OrderItemDto = OrderItemDto(product: ProductRef, quantity: int, price: real)

  /** A create-order request body before validation: the status is still text. */
  datatype CreateOrderRequest =
    CreateOrderRequest(customerId: nat, status: string, items: seq<OrderItemDto>, totalAmount: string)

  /** A create-order request body after validation. */
  datatype CreateOrderDto =
    CreateOrderDto(customerId: nat, status: OrderStatus, items: seq<OrderItemDto>, totalAmount: string)

  datatype UpdateOrderStatusDto = UpdateOrderStatusDto(status: OrderStatus)

  /** `orderItemSchema`: quantity and price strictly positive. */
  predicate ValidOrderItem(item: OrderItemDto) {
    item.quantity > 0 && item.price > 0.0
  }

  /** `createOrderSchema.safeParse`: None when any constraint fails. */
  function ValidateCreateOrder(req: CreateOrderRequest): (r: Option<CreateOrderDto>)
    ensures r.Some? <==>
      && |req.items| >= 1
      && (forall i :: 0 <= i < |req.items| ==> ValidOrderItem(req.items[i]))
      && ParseOrderStatus(req.status).Some?
      && IsDecimalAmount(req.totalAmount)
    ensures r.Some? ==>
      && r.value.customerId == req.customerId
      && r.value.items == req.items
      && r.value.totalAmount == req.totalAmount
      && OrderStatusName(r.value.status) == req.status
  {
    var status := ParseOrderStatus(req.status);
    if |req.items| >= 1 && (forall i :: 0 <= i < |req.items| ==> ValidOrderItem(req.items[i]))
       && status.Some? && IsDecimalAmount(req.totalAmount)
    then Some(CreateOrderDto(req.customerId, status.value, req.items, req.totalAmount))
    else None
  }

  /** `updateOrderStatusSchema.safeParse`: any member of the enumeration. */
  function ValidateUpdateOrderStatus(status: string): (r: Option<UpdateOrderStatusDto>)
    ensures forall st :: OrderStatusName(st) == status ==> r == Some(UpdateOrderStatusDto(st))
    ensures r.Some? ==> OrderStatusName(r.value.status) == status
  {
    match ParseOrderStatus(status)
    case Some(st) => Some(UpdateOrderStatusDto(st))
    case None => None
  }

  /** An order request may name any status on creation, not only PENDING: the
      schema passes CONFIRMED or CANCELLED through just the same. */
  lemma CreateAcceptsEveryStatus(req: CreateOrderRequest, st: OrderStatus)
    requires ValidateCreateOrder(req).Some?
    ensures ValidateCreateOrder(req.(status := OrderStatusName(st))) ==
            Some(CreateOrderDto(req.customerId, st, req.items, req.totalAmount))
  {
  }

  /** An order without items is refused whatever its other fields. */
  lemma EmptyOrderRefused(req: CreateOrderRequest)
    requires req.items == []
    ensures ValidateCreateOrder(req).None?
  {
  }

  /** An item with a quantity or price that is zero or negative is refused. */
  lemma NonPositiveItemRefused(req: CreateOrderRequest, i: nat)
    requires i < |req.items| && (req.items[i].quantity <= 0 || req.items[i].price <= 0.0)
    ensures ValidateCreateOrder(req).None?
  {
  }
}
