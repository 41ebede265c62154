/** The request schemas of the inventory service: `createInventoryMovementSchema`
    and `reserveProductSchema`. */
module InventoryDto {
  import opened Common
  import opened Enums

  /** A movement request body before validation: the type is still text. */
  datatype MovementRequest = MovementRequest(productId: nat, quantity: int, kind: string)

  datatype CreateInventoryMovementDto =
    CreateInventoryMovementDto(productId: nat, quantity: int, kind: MovementType)

  /** A reservation request body before validation: the lifetime may be absent. */
  datatype ReserveRequest =
    ReserveRequest(productId: nat, orderId: nat, quantity: int, expiresInMinutes: Option<int>)

  /** The shape `reserveProduct` receives; callers other than the HTTP layer build it directly. */
  datatype ReserveProductDto =
    ReserveProductDto(productId: nat, orderId: nat, quantity: int, expiresInMinutes: int)

  /** The lifetime the schema fills in when none is given. */
  const DefaultReservationMinutes := 30

  /** `createInventoryMovementSchema.safeParse`. */
  function ValidateMovement(req: MovementRequest): (r: Option<CreateInventoryMovementDto>)
    ensures r.Some? <==> req.quantity > 0 && (req.kind == "IN" || req.kind == "OUT")
    ensures r.Some? ==> r.value.productId == req.productId && r.value.quantity == req.quantity
                        && MovementTypeName(r.value.kind) == req.kind
  {
    match ParseMovementType(req.kind)
    case Some(t) => if req.quantity > 0 then Some(CreateInventoryMovementDto(req.productId, req.quantity, t)) else None
    case None => None
  }

  /** `reserveProductSchema.safeParse`: a positive quantity, and a positive
      lifetime that defaults to 30 minutes when absent. */
  function ValidateReserve(req: ReserveRequest): (r: Option<ReserveProductDto>)
    ensures r.Some? <==> req.quantity > 0 && (req.expiresInMinutes.Some? ==> req.expiresInMinutes.value > 0)
    ensures r.Some? ==> r.value.productId == req.productId && r.value.orderId == req.orderId
                        && r.value.quantity == req.quantity && r.value.expiresInMinutes > 0
    ensures r.Some? ==> r.value.expiresInMinutes ==
                        (if req.expiresInMinutes.None? then 30 else req.expiresInMinutes.value)
  {
    var minutes := req.expiresInMinutes.GetOr(DefaultReservationMinutes);
    if req.quantity > 0 && minutes > 0
    then Some(ReserveProductDto(req.productId, req.orderId, req.quantity, minutes))
    else None
  }
}
