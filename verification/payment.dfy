/** The payment service: the repository over the `payment` table, and the
    flow that records a payment, asks the gateway and settles the payment's
    status from the gateway's answer. */
module Payment {
  import opened Common
  import opened Enums
  import opened Storage
  import opened PaymentDto
  import opened Columns

  /** The status a payment is settled to from the gateway's answer: CONFIRMED
      only when the gateway confirmed, CANCELLED for any other answer. */
  function Settled(answer: PaymentStatus): (s: PaymentStatus)
    ensures s != PaymentStatus.Pending
    ensures s == PaymentStatus.Confirmed <==> answer == PaymentStatus.Confirmed
  {
    if answer == PaymentStatus.Confirmed then PaymentStatus.Confirmed else PaymentStatus.Cancelled
  }

  /** `PaymentRepository`. */
  class PaymentRepository {
    const db: Database

    constructor (db: Database)
      ensures this.db == db
    {
      this.db := db;
    }

    /** The stored row, unchanged. An absent id raises NotFoundError, which the
        catch passes on; any other failure becomes InternalServerError. */
    method FindPaymentById(id: Id) returns (r: Result<PaymentRow>)
      requires db.Valid()
      ensures db.online && id < |db.payments| ==> r == Ok(db.payments[id])
      ensures r.Ok? ==> r.value in db.payments && r.value.id == id
      ensures db.online && id >= |db.payments| ==> r.Err? && r.error.NotFound?
      ensures !db.online ==> r.Err? && r.error.InternalServer?
    {
      if !db.online {
        return Err(InternalServer("Error finding payment by id!"));
      }
      if id >= |db.payments| {
        return Err(NotFound("Payment not found!"));
      }
      return Ok(db.payments[id]);
    }

    /** Inserts a PENDING payment for the order and returns the new row as the
        insert reads it back; the order must exist (foreign key) and the amount
        must fit `numeric(10,2)`, which stores it printed with two decimals. */
    method CreatePayment(orderId: Id, amount: string) returns (r: Result<PaymentRow>)
      requires db.Valid()
      modifies db`payments
      ensures db.Valid()
      ensures r.Ok? <==> old(db.online) && orderId < |db.orders| && NumericText(amount).Some?
      ensures r.Ok? ==>
                && r.value == PaymentRow(old(|db.payments|), orderId, NumericText(amount).value, PaymentStatus.Pending)
                && db.payments == old(db.payments) + [r.value]
      ensures r.Err? ==> db.payments == old(db.payments) && r.error.InternalServer?
    {
      var stored := NumericText(amount);
      if !db.online || orderId >= |db.orders| || stored.None? {
        return Err(InternalServer("Error creating payment!"));
      }
      var row := PaymentRow(|db.payments|, orderId, stored.value, PaymentStatus.Pending);
      db.payments := db.payments + [row];
      return Ok(row);
    }

    /** Sets the payment's status to `status` whatever it was; an absent id updates nothing. */
    method UpdatePaymentStatus(id: Id, status: PaymentStatus) returns (r: Outcome)
      requires db.Valid()
      modifies db`payments
      ensures db.Valid()
      ensures r.Done? <==> old(db.online)
      ensures r.Done? && id < old(|db.payments|) ==>
                db.payments == old(db.payments)[id := old(db.payments)[id].(status := status)]
      ensures r.Failed? || id >= |db.payments| ==> db.payments == old(db.payments)
      ensures r.Failed? ==> r.error.InternalServer?
    {
      if !db.online {
        return Failed(InternalServer("Error updating payment status!"));
      }
      if id < |db.payments| {
        db.payments := db.payments[id := db.payments[id].(status := status)];
      }
      return Done;
    }
  }

  /** `PaymentService`. The gateway is not part of this model: its answer to the
      created payment, or the error it throws, is the parameter `gateway`. */
  class PaymentService {
    const repository: PaymentRepository

    constructor (repository: PaymentRepository)
      ensures this.repository == repository
    {
      this.repository := repository;
    }

    /** Records a PENDING payment, asks the gateway, settles the payment from the
        answer and returns the row re-read by its id. Only the new row is written;
        a gateway error propagates and leaves the payment PENDING. */
    method ProcessPayment(data: ProcessPaymentDto, gateway: Result<PaymentStatus>) returns (r: Result<PaymentRow>)
      requires repository.db.Valid()
      modifies repository.db`payments
      ensures repository.db.Valid()
      ensures r.Ok? <==>
                old(repository.db.online) && data.orderId < |repository.db.orders| && NumericText(data.amount).Some?
                && gateway.Ok?
      ensures old(repository.db.online) && data.orderId < |repository.db.orders| && NumericText(data.amount).Some? ==>
                repository.db.payments == old(repository.db.payments)
                  + [PaymentRow(old(|repository.db.payments|), data.orderId, NumericText(data.amount).value,
                                if gateway.Ok? then Settled(gateway.value) else PaymentStatus.Pending)]
      ensures !(old(repository.db.online) && data.orderId < |repository.db.orders| && NumericText(data.amount).Some?) ==>
                repository.db.payments == old(repository.db.payments)
      ensures r.Ok? ==>
                && r.value == repository.db.payments[old(|repository.db.payments|)]
                && r.value.status != PaymentStatus.Pending
                && (r.value.status == PaymentStatus.Confirmed <==> gateway.value == PaymentStatus.Confirmed)
    {
      var payment := repository.CreatePayment(data.orderId, data.amount);
      if payment.Err? {
        return Err(payment.error);
      }
      if gateway.Err? {
        return Err(gateway.error);
      }
      var updated;
      if gateway.value == PaymentStatus.Confirmed {
        updated := repository.UpdatePaymentStatus(payment.value.id, PaymentStatus.Confirmed);
      } else {
        updated := repository.UpdatePaymentStatus(payment.value.id, PaymentStatus.Cancelled);
      }
      if updated.Failed? {
        assert false;  // the store answered the insert, so it answers the update
      }
      r := repository.FindPaymentById(payment.value.id);
    }

    method FindPaymentById(id: Id) returns (r: Result<PaymentRow>)
      requires repository.db.Valid()
      ensures repository.db.online && id < |repository.db.payments| ==> r == Ok(repository.db.payments[id])
      ensures repository.db.online && id >= |repository.db.payments| ==> r.Err? && r.error.NotFound?
      ensures !repository.db.online ==> r.Err? && r.error.InternalServer?
    {
      r := repository.FindPaymentById(id);
    }
  }
}
