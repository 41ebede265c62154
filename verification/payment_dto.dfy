/** The request schemas of the payment service: `processPaymentSchema` and
    `updatePaymentStatusSchema`. */
module PaymentDto {
  import opened Common
  import opened Enums
  import opened Decimal

  datatype ProcessPaymentDto = ProcessPaymentDto(orderId: nat, amount: string)

  datatype UpdatePaymentStatusDto = UpdatePaymentStatusDto(status: PaymentStatus)

  /** `processPaymentSchema.safeParse`: the amount must match the decimal pattern. */
  function ValidateProcessPayment(orderId: nat, amount: string): (r: Option<ProcessPaymentDto>)
    ensures r.Some? <==> MatchesAmountPattern(amount)
    ensures r.Some? ==> r.value == ProcessPaymentDto(orderId, amount)
  {
    AmountValidatorMatchesPattern(amount);
    if IsDecimalAmount(amount) then Some(ProcessPaymentDto(orderId, amount)) else None
  }

  /** `updatePaymentStatusSchema.safeParse`: only members of the enumeration. */
  function ValidateUpdatePaymentStatus(status: string): (r: Option<UpdatePaymentStatusDto>)
    ensures forall st :: PaymentStatusName(st) == status ==> r == Some(UpdatePaymentStatusDto(st))
    ensures r.Some? ==> PaymentStatusName(r.value.status) == status
  {
    match ParsePaymentStatus(status)
    case Some(st) => Some(UpdatePaymentStatusDto(st))
    case None => None
  }
}
