/** The inventory worker: the three order-event handlers it registers on the
    `orders` exchange. OrderCreated reserves every line item and, when any of
    them cannot be reserved, releases the order's reservations and asks the
    orders service to cancel the order; OrderConfirmed and OrderCancelled confirm
    or release the order's reservations. */
module InventoryWorker {
  import opened Common
  import opened Enums
  import opened Text
  import opened Storage
  import opened Inventory
  import opened InventoryDto
  import opened Messaging
  import opened Columns

  // ---------------------------------------------------------------------------
  // Events
  // ---------------------------------------------------------------------------

  datatype EventProduct = EventProduct(id: Id, name: string)
  datatype EventItem = EventItem(product: EventProduct, quantity: int, price: real)

  datatype OrderCreatedEvent =
    OrderCreatedEvent(orderId: Id, customerId: Id, items: seq<EventItem>, totalAmount: string, createdAt: string)
  datatype OrderConfirmedEvent = OrderConfirmedEvent(orderId: Id, customerId: Id, confirmedAt: string)
  datatype OrderCancelledEvent =
    OrderCancelledEvent(orderId: Id, customerId: Id, reason: Option<string>, cancelledAt: string)

  /** An entry of the handler's `failedProducts` list. */
  datatype FailedProduct = FailedProduct(productId: Id, productName: string, quantity: int, error: string)

  /** Every reservation the worker makes lives this many minutes. */
  const ReservationMinutes := 30

  const CancelPrefix := "Estoque insuficiente para os seguintes produtos: "

  const CreatedQueue := "inventory-order-created"
  const ConfirmedQueue := "inventory-order-confirmed"
  const CancelledQueue := "inventory-order-cancelled"
  const OrdersExchange := "orders"

  /** A call the worker makes on another service, in the order it makes them. */
  datatype Call =
    | Reserve(request: ReserveProductDto)
    | Release(orderId: Id)
    | Confirm(orderId: Id)
    | CancelOrder(orderId: Id, reason: string)

  /** The request the OrderCreated handler sends for one line item. */
  function ReservationRequest(orderId: Id, item: EventItem): ReserveProductDto {
    ReserveProductDto(item.product.id, orderId, item.quantity, ReservationMinutes)
  }

  /** The reserve calls for the first `n` items, in item order. */
  function ReserveCalls(orderId: Id, items: seq<EventItem>, n: nat): seq<Call>
    requires n <= |items|
  {
    if n == 0 then [] else ReserveCalls(orderId, items, n - 1) + [Reserve(ReservationRequest(orderId, items[n - 1]))]
  }

  // ---------------------------------------------------------------------------
  // What the reservation loop does to the store
  // ---------------------------------------------------------------------------

  /** The parts of the store the reservation loop reads but never changes. */
  datatype Snapshot = Snapshot(online: bool, inventory: seq<Movement>, products: map<Id, Product>, orderCount: nat)

  function SnapshotOf(db: Database): Snapshot
    reads db`online, db`inventory, db`products, db`orders
  {
    Snapshot(db.online, db.inventory, db.products, |db.orders|)
  }

  /** Whether `reserveProduct` grants the request for `item` against the table `rs`. */
  predicate Grants(snap: Snapshot, rs: seq<Reservation>, orderId: Id, item: EventItem, now: int) {
    && snap.online && item.product.id in snap.products && orderId < snap.orderCount
    && FitsInteger(item.quantity)
    && Available(snap.inventory, rs, snap.products, item.product.id, now) >= item.quantity
  }

  /** The loop's state: the reservation table, `successCount`, and the items whose
      reservation was refused, in item order. */
  datatype Reserved = Reserved(table: seq<Reservation>, successCount: nat, failed: seq<EventItem>)

  /** One iteration of the loop: the item is reserved against the table the
      previous items left, or else recorded as failed. */
  function Attempt(snap: Snapshot, prev: Reserved, orderId: Id, item: EventItem, now: int): Reserved {
    if Grants(snap, prev.table, orderId, item, now) then
      Reserved(prev.table + [Reservation(|prev.table|, item.product.id, orderId, item.quantity,
                                         ReservationStatus.Pending, ExpiryFor(now, ReservationMinutes))],
               prev.successCount + 1, prev.failed)
    else Reserved(prev.table, prev.successCount, prev.failed + [item])
  }

  /** The loop of the OrderCreated handler as a function: the state after the
      first `n` items, starting from the table `rs`. */
  function ReserveAll(snap: Snapshot, rs: seq<Reservation>, orderId: Id, items: seq<EventItem>, n: nat, now: int): Reserved
    requires n <= |items|
  {
    if n == 0 then Reserved(rs, 0, [])
    else Attempt(snap, ReserveAll(snap, rs, orderId, items, n - 1, now), orderId, items[n - 1], now)
  }

  /** `failedProducts` names the given items, one entry each, in the same order. */
  predicate Describes(failed: seq<FailedProduct>, items: seq<EventItem>) {
    && |failed| == |items|
    && forall k :: 0 <= k < |failed| ==>
         && failed[k].productId == items[k].product.id
         && failed[k].productName == items[k].product.name
         && failed[k].quantity == items[k].quantity
  }

  /** `"name (qtd: q)"`. */
  function Label(fp: FailedProduct): string {
    fp.productName + " (qtd: " + IntToString(fp.quantity) + ")"
  }

  /** The reason sent with the cancellation: the fixed prefix and the labels of
      the failed products joined by ", ". */
  function CancelReason(failed: seq<FailedProduct>): (r: string)
    ensures CancelPrefix <= r
    ensures |failed| == 1 ==> r == CancelPrefix + Label(failed[0])
    ensures failed == [] ==> r == CancelPrefix
  {
    CancelPrefix + Join(seq(|failed|, k requires 0 <= k < |failed| => Label(failed[k])), ", ")
  }

  /** One more failed product appends ", " and its label: the reason lists every
      failed product, in order, separated by ", ". */
  lemma CancelReasonSnoc(failed: seq<FailedProduct>, fp: FailedProduct)
    requires failed != []
    ensures CancelReason(failed + [fp]) == CancelReason(failed) + ", " + Label(fp)
  {
    var ls := seq(|failed|, k requires 0 <= k < |failed| => Label(failed[k]));
    var all := failed + [fp];
    assert seq(|all|, k requires 0 <= k < |all| => Label(all[k])) == ls + [Label(fp)];
    JoinSnoc(ls, Label(fp), ", ");
  }

  // ---------------------------------------------------------------------------
  // Lemmas about the reservation loop
  // ---------------------------------------------------------------------------

  /** Each item is either counted or listed, and the loop only appends rows, one
      per counted item; while the store is down every item is listed. */
  lemma {:induction false} ReserveAllGrows(snap: Snapshot, rs: seq<Reservation>, orderId: Id,
                                           items: seq<EventItem>, n: nat, now: int)
    requires n <= |items|
    ensures var res := ReserveAll(snap, rs, orderId, items, n, now);
      && res.successCount + |res.failed| == n
      && |res.table| == |rs| + res.successCount
      && res.table[..|rs|] == rs
      && (!snap.online ==> res.table == rs && res.failed == items[..n])
  {
    if n > 0 {
      ReserveAllGrows(snap, rs, orderId, items, n - 1, now);
      var prev := ReserveAll(snap, rs, orderId, items, n - 1, now);
      var res := ReserveAll(snap, rs, orderId, items, n, now);
      assert res.table[..|rs|] == prev.table[..|rs|];
      assert items[..n] == items[..n - 1] + [items[n - 1]];
    }
  }

  /** The rows of `t` from position `from` on are PENDING reservations of the
      order, each with its position as id, expiring 30 minutes after `now`. */
  predicate NewRowsOf(t: seq<Reservation>, from: nat, orderId: Id, now: int) {
    forall k :: from <= k < |t| ==>
      && t[k].id == k && t[k].orderId == orderId && t[k].status == ReservationStatus.Pending
      && t[k].expiresAt == now + ReservationMinutes * MillisPerMinute
  }

  /** Every row the loop appends is a PENDING reservation of the order, with the
      next free id, expiring 30 minutes after `now`. */
  lemma {:induction false} ReserveAllNewRows(snap: Snapshot, rs: seq<Reservation>, orderId: Id,
                                             items: seq<EventItem>, n: nat, now: int)
    requires n <= |items|
    ensures NewRowsOf(ReserveAll(snap, rs, orderId, items, n, now).table, |rs|, orderId, now)
  {
    if n > 0 {
      var prev := ReserveAll(snap, rs, orderId, items, n - 1, now).table;
      var t := ReserveAll(snap, rs, orderId, items, n, now).table;
      var item := items[n - 1];
      ReserveAllNewRows(snap, rs, orderId, items, n - 1, now);
      assert NewRowsOf(prev, |rs|, orderId, now);
      if Grants(snap, prev, orderId, item, now) {
        var row := Reservation(|prev|, item.product.id, orderId, item.quantity,
                               ReservationStatus.Pending, ExpiryFor(now, ReservationMinutes));
        assert t == prev + [row];
        assert row.expiresAt == now + ReservationMinutes * MillisPerMinute;
        forall k | |rs| <= k < |t|
          ensures t[k].id == k && t[k].orderId == orderId && t[k].status == ReservationStatus.Pending
          ensures t[k].expiresAt == now + ReservationMinutes * MillisPerMinute
        {
          if k < |prev| {
            assert t[k] == prev[k];
          }
        }
      } else {
        assert t == prev;
      }
    }
  }

  /** Reserving the items one by one never oversells: if no product was
      over-reserved before the loop, none is after it. */
  lemma {:induction false} ReserveAllNeverOversells(snap: Snapshot, rs: seq<Reservation>, orderId: Id,
                                                   items: seq<EventItem>, n: nat, now: int)
    requires n <= |items|
    requires forall p :: Available(snap.inventory, rs, snap.products, p, now) >= 0
    ensures forall p :: Available(snap.inventory, ReserveAll(snap, rs, orderId, items, n, now).table, snap.products, p, now) >= 0
  {
    if n > 0 {
      ReserveAllNeverOversells(snap, rs, orderId, items, n - 1, now);
      var prev := ReserveAll(snap, rs, orderId, items, n - 1, now);
      var item := items[n - 1];
      if Grants(snap, prev.table, orderId, item, now) {
        var row := Reservation(|prev.table|, item.product.id, orderId, item.quantity,
                               ReservationStatus.Pending, ExpiryFor(now, ReservationMinutes));
        forall p ensures Available(snap.inventory, prev.table + [row], snap.products, p, now) >= 0 {
          AvailableAfterReservation(snap.inventory, prev.table, snap.products, row, p, now);
        }
      }
    }
  }

  /** Reserved quantity of rows that all belong to order `o` is gone once the
      order's PENDING rows are settled. */
  lemma {:induction false} SettledOrderReservesNothing(xs: seq<Reservation>, o: Id, s: ReservationStatus, p: Id, now: int)
    requires s != ReservationStatus.Pending
    requires forall k :: 0 <= k < |xs| ==> xs[k].orderId == o
    ensures ReservedQuantity(SetPendingStatus(xs, o, s), p, now) == 0
    decreases |xs|
  {
    if xs != [] {
      SetPendingStatusSplit(xs, o, s);
      SettledOrderReservesNothing(xs[1..], o, s, p, now);
      assert SetPendingStatus(xs, o, s)[1..] == SetPendingStatus(xs[1..], o, s);
    }
  }

  /** Settling an order leaves a table prefix with no PENDING row of it as it is. */
  lemma SettleSplits(rs: seq<Reservation>, news: seq<Reservation>, o: Id, s: ReservationStatus)
    requires forall k :: 0 <= k < |rs| && rs[k].orderId == o ==> rs[k].status != ReservationStatus.Pending
    ensures SetPendingStatus(rs + news, o, s) == rs + SetPendingStatus(news, o, s)
  {
    var lhs, rhs := SetPendingStatus(rs + news, o, s), rs + SetPendingStatus(news, o, s);
    forall k | 0 <= k < |lhs| ensures lhs[k] == rhs[k] {
      if k >= |rs| { assert (rs + news)[k] == news[k - |rs|]; }
    }
  }

  /** The compensation undoes the loop: when the order had no PENDING reservation
      before the event, releasing after the loop gives every product back exactly
      the availability it had before, and leaves no PENDING reservation of the order. */
  lemma CompensationRestoresAvailability(snap: Snapshot, rs: seq<Reservation>, orderId: Id,
                                         items: seq<EventItem>, n: nat, now: int, p: Id)
    requires n <= |items|
    requires forall k :: 0 <= k < |rs| && rs[k].orderId == orderId ==> rs[k].status != ReservationStatus.Pending
    ensures var after := SetPendingStatus(ReserveAll(snap, rs, orderId, items, n, now).table, orderId, ReservationStatus.Cancelled);
      && Available(snap.inventory, after, snap.products, p, now) == Available(snap.inventory, rs, snap.products, p, now)
      && forall k :: 0 <= k < |after| && after[k].orderId == orderId ==> after[k].status != ReservationStatus.Pending
  {
    var table := ReserveAll(snap, rs, orderId, items, n, now).table;
    ReserveAllGrows(snap, rs, orderId, items, n, now);
    ReserveAllNewRows(snap, rs, orderId, items, n, now);
    var news := table[|rs|..];
    assert table == rs + news;
    forall k | 0 <= k < |news| ensures news[k].orderId == orderId {
      assert news[k] == table[|rs| + k];
    }
    SettleSplits(rs, news, orderId, ReservationStatus.Cancelled);
    SettledOrderReservesNothing(news, orderId, ReservationStatus.Cancelled, p, now);
    ReservedQuantityConcat(rs, SetPendingStatus(news, orderId, ReservationStatus.Cancelled), p, now);
    SetPendingStatusSettlesOrder(table, orderId, ReservationStatus.Cancelled);
  }

  lemma DescribesSnoc(failed: seq<FailedProduct>, items: seq<EventItem>, fp: FailedProduct, item: EventItem)
    requires Describes(failed, items)
    requires fp.productId == item.product.id && fp.productName == item.product.name && fp.quantity == item.quantity
    ensures Describes(failed + [fp], items + [item])
  {
  }

  // ---------------------------------------------------------------------------
  // The worker
  // ---------------------------------------------------------------------------

  /** `InventoryWorker`. `calls` logs the calls made on the inventory and orders
      services; the orders service's `cancelOrder` is not part of this model, so
      its outcome is a parameter of the handler that calls it. */
  class InventoryWorker {
    const inventoryService: InventoryService
    var calls: seq<Call>

    constructor (inventoryService: InventoryService)
      ensures this.inventoryService == inventoryService && calls == []
    {
      this.inventoryService := inventoryService;
      calls := [];
    }

    function Db(): Database {
      inventoryService.repository.db
    }

    /** Declares the `orders` exchange and consumes the three queues, each bound to
        it by its routing key, with the default acknowledgement and prefetch. */
    method Start() returns (consumer: RabbitMQConsumer)
      ensures fresh(consumer) && consumer.channel != null && fresh(consumer.channel)
      ensures consumer.channel.exchanges == {OrdersExchange}
      ensures consumer.channel.queues == {CreatedQueue, ConfirmedQueue, CancelledQueue}
      ensures consumer.channel.bindings == [(CreatedQueue, Binding(OrdersExchange, "order.created")),
                                            (ConfirmedQueue, Binding(OrdersExchange, "order.confirmed")),
                                            (CancelledQueue, Binding(OrdersExchange, "order.cancelled"))]
      ensures consumer.channel.consumers == map[CreatedQueue := false, ConfirmedQueue := false, CancelledQueue := false]
      ensures consumer.channel.prefetchCount == 1 && consumer.channel.signals == []
    {
      consumer := new RabbitMQConsumer();
      consumer.Connect();
      consumer.AssertExchange(OrdersExchange);
      consumer.Consume(CreatedQueue, ConsumeOptions(Some(OrdersExchange), Some("order.created"), None, None));
      consumer.Consume(ConfirmedQueue, ConsumeOptions(Some(OrdersExchange), Some("order.confirmed"), None, None));
      consumer.Consume(CancelledQueue, ConsumeOptions(Some(OrdersExchange), Some("order.cancelled"), None, None));
    }

    /** The OrderCreated handler. Reserves each item in turn, counting successes and
        collecting failures; when any item failed, releases the order's reservations
        (a failure there is logged and swallowed) and then cancels the order, whose
        outcome `cancelOutcome` is the handler's own. */
    method HandleOrderCreated(ev: OrderCreatedEvent, now: int, cancelOutcome: Outcome)
      returns (r: Outcome, successCount: nat, errorCount: nat, failedProducts: seq<FailedProduct>)
      requires Db().Valid()
      modifies Db()`reservations, this`calls
      ensures Db().Valid()
      ensures var res := ReserveAll(SnapshotOf(Db()), old(Db().reservations), ev.orderId, ev.items, |ev.items|, now);
        && successCount == res.successCount
        && errorCount == |failedProducts|
        && Describes(failedProducts, res.failed)
        && (errorCount == 0 ==>
              && r == Done
              && Db().reservations == res.table
              && calls == old(calls) + ReserveCalls(ev.orderId, ev.items, |ev.items|))
        && (errorCount > 0 ==>
              && r == cancelOutcome
              && Db().reservations ==
                   (if Db().online then SetPendingStatus(res.table, ev.orderId, ReservationStatus.Cancelled) else res.table)
              && calls == old(calls) + ReserveCalls(ev.orderId, ev.items, |ev.items|)
                          + [Release(ev.orderId), CancelOrder(ev.orderId, CancelReason(failedProducts))])
    {
      successCount, errorCount, failedProducts := ReserveItems(ev.orderId, ev.items, now);
      if errorCount > 0 {
        var reason := CancelReason(failedProducts);
        calls := calls + [Release(ev.orderId)];
        var released := inventoryService.ReleaseReservationsByOrderId(ev.orderId);
        calls := calls + [CancelOrder(ev.orderId, reason)];
        return cancelOutcome, successCount, errorCount, failedProducts;
      }
      r := Done;
    }

    /** The reservation loop of the OrderCreated handler: one `reserveProduct` call per
        item, in item order, with the order's id and a 30-minute lifetime; a refused
        item is recorded and the loop goes on. */
    method ReserveItems(orderId: Id, items: seq<EventItem>, now: int)
      returns (successCount: nat, errorCount: nat, failedProducts: seq<FailedProduct>)
      requires Db().Valid()
      modifies Db()`reservations, this`calls
      ensures Db().Valid()
      ensures var res := ReserveAll(SnapshotOf(Db()), old(Db().reservations), orderId, items, |items|, now);
        && Db().reservations == res.table
        && successCount == res.successCount
        && errorCount == |failedProducts|
        && Describes(failedProducts, res.failed)
        && calls == old(calls) + ReserveCalls(orderId, items, |items|)
    {
      var db := Db();
      ghost var snap, R0, C0 := SnapshotOf(db), db.reservations, calls;
      ghost var res := Reserved(R0, 0, []);
      successCount, errorCount, failedProducts := 0, 0, [];
      var i := 0;
      while i < |items|
        invariant 0 <= i <= |items|
        invariant db.Valid() && SnapshotOf(db) == snap
        invariant res == ReserveAll(snap, R0, orderId, items, i, now)
        invariant db.reservations == res.table && successCount == res.successCount
        invariant Describes(failedProducts, res.failed) && errorCount == |failedProducts|
        invariant calls == C0 + ReserveCalls(orderId, items, i)
      {
        var item := items[i];
        var ok, error := ReserveItem(orderId, item, now);
        if ok {
          successCount := successCount + 1;
        } else {
          errorCount := errorCount + 1;
          var failed := FailedProduct(item.product.id, item.product.name, item.quantity, error);
          DescribesSnoc(failedProducts, res.failed, failed, item);
          failedProducts := failedProducts + [failed];
        }
        assert ReserveAll(snap, R0, orderId, items, i + 1, now) == Attempt(snap, res, orderId, item, now);
        res := Attempt(snap, res, orderId, item, now);
        assert calls == C0 + ReserveCalls(orderId, items, i + 1) by {
          assert ReserveCalls(orderId, items, i + 1) == ReserveCalls(orderId, items, i) + [Reserve(ReservationRequest(orderId, item))];
        }
        i := i + 1;
      }
    }

    /** One iteration of the reservation loop: the reserve call for `item`, and
        whether it succeeded or else the message of the error it raised. */
    method ReserveItem(orderId: Id, item: EventItem, now: int) returns (ok: bool, error: string)
      requires Db().Valid()
      modifies Db()`reservations, this`calls
      ensures Db().Valid()
      ensures ok == Grants(SnapshotOf(Db()), old(Db().reservations), orderId, item, now)
      ensures Db().reservations ==
                if ok then old(Db().reservations)
                           + [Reservation(old(|Db().reservations|), item.product.id, orderId, item.quantity,
                                          ReservationStatus.Pending, ExpiryFor(now, ReservationMinutes))]
                else old(Db().reservations)
      ensures calls == old(calls) + [Reserve(ReservationRequest(orderId, item))]
    {
      calls := calls + [Reserve(ReservationRequest(orderId, item))];
      var reserved := inventoryService.ReserveProduct(ReservationRequest(orderId, item), now);
      ok := reserved.Ok?;
      error := if reserved.Err? then reserved.error.message else "";
    }

    /** The OrderConfirmed handler: confirms the order's reservations; a failure is rethrown. */
    method HandleOrderConfirmed(ev: OrderConfirmedEvent) returns (r: Outcome)
      requires Db().Valid()
      modifies Db()`reservations, Db()`inventory, this`calls
      ensures Db().Valid()
      ensures calls == old(calls) + [Confirm(ev.orderId)]
      ensures r.Done? <==> old(Db().online)
      ensures r.Done? ==>
        && Db().reservations == SetPendingStatus(old(Db().reservations), ev.orderId, ReservationStatus.Confirmed)
        && Db().inventory == old(Db().inventory) + OutMovements(PendingRows(OfOrder(old(Db().reservations), ev.orderId)))
      ensures r.Failed? ==> Db().reservations == old(Db().reservations) && Db().inventory == old(Db().inventory)
    {
      calls := calls + [Confirm(ev.orderId)];
      r := inventoryService.ConfirmReservationsByOrderId(ev.orderId);
    }

    /** The OrderCancelled handler: releases the order's reservations; a failure is rethrown. */
    method HandleOrderCancelled(ev: OrderCancelledEvent) returns (r: Outcome)
      requires Db().Valid()
      modifies Db()`reservations, this`calls
      ensures Db().Valid()
      ensures calls == old(calls) + [Release(ev.orderId)]
      ensures r.Done? <==> old(Db().online)
      ensures r.Done? ==>
        Db().reservations == SetPendingStatus(old(Db().reservations), ev.orderId, ReservationStatus.Cancelled)
      ensures r.Failed? ==> Db().reservations == old(Db().reservations)
    {
      calls := calls + [Release(ev.orderId)];
      r := inventoryService.ReleaseReservationsByOrderId(ev.orderId);
    }
  }
}
