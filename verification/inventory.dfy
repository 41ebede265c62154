/** The inventory reservation engine: the ledger arithmetic, the repository
    over the `inventory` and `inventory_reservations` tables, and the service
    that reserves, confirms and releases stock for orders. */
module Inventory {
  import opened Common
  import opened Enums
  import opened Text
  import opened Storage
  import opened InventoryDto
  import opened Columns

  const MillisPerMinute := 60_000

  // ---------------------------------------------------------------------------
  // Ledger arithmetic
  // ---------------------------------------------------------------------------

  /** The rows the `inventory` query selects for one product (its `where` clause on productId). */
  function MovementsOf(ms: seq<Movement>, p: Id): (r: seq<Movement>)
    ensures forall m :: m in r ==> m in ms && m.productId == p
  {
    if ms == [] then []
    else (if ms[0].productId == p then [ms[0]] else []) + MovementsOf(ms[1..], p)
  }

  /** What `getInventoryByProductId` returns: the product's movements, and none
      at all when the product is missing or inactive (the join on `products.isActive`). */
  function VisibleMovements(ms: seq<Movement>, products: map<Id, Product>, p: Id): seq<Movement> {
    if p in products && products[p].isActive then MovementsOf(ms, p) else []
  }

  /** `.filter((inv) => inv.type === kind)`. */
  function OfKind(ms: seq<Movement>, kind: MovementType): (r: seq<Movement>)
    ensures forall m :: m in r ==> m in ms && m.kind == kind
  {
    if ms == [] then []
    else (if ms[0].kind == kind then [ms[0]] else []) + OfKind(ms[1..], kind)
  }

  /** `.reduce((acc, inv) => acc + inv.quantity, 0)`. */
  function TotalQuantity(ms: seq<Movement>): int {
    if ms == [] then 0 else ms[0].quantity + TotalQuantity(ms[1..])
  }

  /** The summed quantity of one product's movements of one kind. */
  function KindTotal(ms: seq<Movement>, p: Id, kind: MovementType): int {
    TotalQuantity(OfKind(MovementsOf(ms, p), kind))
  }

  /** A reservation still holds stock: PENDING and not yet expired at `now`. */
  predicate Live(r: Reservation, now: int) {
    r.status == ReservationStatus.Pending && r.expiresAt > now
  }

  /** `getReservedQuantity`: the summed quantity of the product's live reservations. */
  function ReservedQuantity(rs: seq<Reservation>, p: Id, now: int): int {
    if rs == [] then 0
    else (if rs[0].productId == p && Live(rs[0], now) then rs[0].quantity else 0)
         + ReservedQuantity(rs[1..], p, now)
  }

  /** `getAvailableQuantity`: IN total minus OUT total of the visible movements,
      minus the reserved quantity. */
  function Available(ms: seq<Movement>, rs: seq<Reservation>, products: map<Id, Product>, p: Id, now: int): int {
    var inv := VisibleMovements(ms, products, p);
    TotalQuantity(OfKind(inv, In)) - TotalQuantity(OfKind(inv, Out)) - ReservedQuantity(rs, p, now)
  }

  /** `data.expiresInMinutes || 30`: zero falls back to the default, any other value is kept. */
  function EffectiveMinutes(minutes: int): int {
    if minutes == 0 then DefaultReservationMinutes else minutes
  }

  /** The expiry instant `reserveProduct` stores, `now` and the result in milliseconds. */
  function ExpiryFor(now: int, minutes: int): int {
    now + EffectiveMinutes(minutes) * MillisPerMinute
  }

  // ---------------------------------------------------------------------------
  // Reservation rows by order
  // ---------------------------------------------------------------------------

  /** `getReservationsByOrderId`: the order's rows in id order (the query itself fixes no order). */
  function OfOrder(rs: seq<Reservation>, o: Id): seq<Reservation> {
    if rs == [] then []
    else (if rs[0].orderId == o then [rs[0]] else []) + OfOrder(rs[1..], o)
  }

  /** `.filter((res) => res.status === "PENDING")`. */
  function PendingRows(rs: seq<Reservation>): seq<Reservation> {
    if rs == [] then []
    else (if rs[0].status == ReservationStatus.Pending then [rs[0]] else []) + PendingRows(rs[1..])
  }

  /** One row after `update ... set status where orderId = o and status = 'PENDING'`. */
  function SetIfPending(r: Reservation, o: Id, s: ReservationStatus): Reservation {
    if r.orderId == o && r.status == ReservationStatus.Pending then r.(status := s) else r
  }

  /** The table after `updateReservationsStatusByOrderId(o, s)`. */
  function SetPendingStatus(rs: seq<Reservation>, o: Id, s: ReservationStatus): seq<Reservation> {
    seq(|rs|, i requires 0 <= i < |rs| => SetIfPending(rs[i], o, s))
  }

  /** The OUT movements `confirmReservationsByOrderId` appends, one per reservation. */
  function OutMovements(rs: seq<Reservation>): seq<Movement> {
    seq(|rs|, i requires 0 <= i < |rs| => Movement(rs[i].productId, rs[i].quantity, Out))
  }

  /** Quantity of the order's PENDING reservations of one product. */
  function OrderPendingQuantity(rs: seq<Reservation>, o: Id, p: Id): int {
    if rs == [] then 0
    else (if rs[0].orderId == o && rs[0].productId == p && rs[0].status == ReservationStatus.Pending
          then rs[0].quantity else 0)
         + OrderPendingQuantity(rs[1..], o, p)
  }

  /** Quantity of the order's PENDING reservations of one product that have expired at `now`. */
  function OrderExpiredQuantity(rs: seq<Reservation>, o: Id, p: Id, now: int): int {
    if rs == [] then 0
    else (if rs[0].orderId == o && rs[0].productId == p && rs[0].status == ReservationStatus.Pending
             && rs[0].expiresAt <= now
          then rs[0].quantity else 0)
         + OrderExpiredQuantity(rs[1..], o, p, now)
  }

  /** Row ids are positions offset by `base` (a suffix of a table whose ids are positions). */
  ghost predicate IdsFrom(rs: seq<Reservation>, base: nat) {
    forall k :: 0 <= k < |rs| ==> rs[k].id == base + k
  }

  // ---------------------------------------------------------------------------
  // Lemmas about the ledger
  // ---------------------------------------------------------------------------

  lemma {:induction false} MovementsOfConcat(a: seq<Movement>, b: seq<Movement>, p: Id)
    ensures MovementsOf(a + b, p) == MovementsOf(a, p) + MovementsOf(b, p)
    decreases |a|
  {
    if a == [] {
      assert a + b == b;
    } else {
      assert (a + b)[0] == a[0];
      assert (a + b)[1..] == a[1..] + b;
      MovementsOfConcat(a[1..], b, p);
    }
  }

  lemma {:induction false} OfKindConcat(a: seq<Movement>, b: seq<Movement>, kind: MovementType)
    ensures OfKind(a + b, kind) == OfKind(a, kind) + OfKind(b, kind)
    decreases |a|
  {
    if a == [] {
      assert a + b == b;
    } else {
      assert (a + b)[0] == a[0];
      assert (a + b)[1..] == a[1..] + b;
      OfKindConcat(a[1..], b, kind);
    }
  }

  lemma {:induction false} TotalQuantityConcat(a: seq<Movement>, b: seq<Movement>)
    ensures TotalQuantity(a + b) == TotalQuantity(a) + TotalQuantity(b)
    decreases |a|
  {
    if a == [] {
      assert a + b == b;
    } else {
      assert (a + b)[0] == a[0];
      assert (a + b)[1..] == a[1..] + b;
      TotalQuantityConcat(a[1..], b);
    }
  }

  lemma KindTotalConcat(a: seq<Movement>, b: seq<Movement>, p: Id, kind: MovementType)
    ensures KindTotal(a + b, p, kind) == KindTotal(a, p, kind) + KindTotal(b, p, kind)
  {
    MovementsOfConcat(a, b, p);
    OfKindConcat(MovementsOf(a, p), MovementsOf(b, p), kind);
    TotalQuantityConcat(OfKind(MovementsOf(a, p), kind), OfKind(MovementsOf(b, p), kind));
  }

  lemma KindTotalSingle(m: Movement, p: Id, kind: MovementType)
    ensures KindTotal([m], p, kind) == if m.productId == p && m.kind == kind then m.quantity else 0
  {
    assert [m][1..] == [];
    assert MovementsOf([m], p) == (if m.productId == p then [m] else []) + MovementsOf([], p);
    assert OfKind([m], kind) == (if m.kind == kind then [m] else []) + OfKind([], kind);
    assert TotalQuantity([m]) == m.quantity + TotalQuantity([]);
  }

  lemma OutMovementsConcat(a: seq<Reservation>, b: seq<Reservation>)
    ensures OutMovements(a + b) == OutMovements(a) + OutMovements(b)
  {
  }

  /** The reserved sum splits over a split of the table. */
  lemma {:induction false} ReservedQuantityConcat(a: seq<Reservation>, b: seq<Reservation>, p: Id, now: int)
    ensures ReservedQuantity(a + b, p, now) == ReservedQuantity(a, p, now) + ReservedQuantity(b, p, now)
    decreases |a|
  {
    if a == [] {
      assert a + b == b;
    } else {
      assert (a + b)[0] == a[0];
      assert (a + b)[1..] == a[1..] + b;
      ReservedQuantityConcat(a[1..], b, p, now);
    }
  }

  /** A reservation that is expired (`expiresAt <= now`) or not PENDING adds
      nothing to the reserved sum, wherever it stands in the table. */
  lemma DeadReservationReservesNothing(a: seq<Reservation>, r: Reservation, b: seq<Reservation>, p: Id, now: int)
    requires r.expiresAt <= now || r.status != ReservationStatus.Pending
    ensures ReservedQuantity(a + [r] + b, p, now) == ReservedQuantity(a + b, p, now)
  {
    ReservedQuantityConcat(a + [r], b, p, now);
    ReservedQuantityConcat(a, [r], p, now);
    ReservedQuantityConcat(a, b, p, now);
  }

  /** Each movement appended to the ledger moves the product's availability by its
      quantity: up for IN, down for OUT (for an active product; other products are unaffected). */
  lemma AvailableAfterMovement(ms: seq<Movement>, rs: seq<Reservation>, products: map<Id, Product>,
                               m: Movement, p: Id, now: int)
    ensures Available(ms + [m], rs, products, p, now) ==
            Available(ms, rs, products, p, now)
            + (if m.productId == p && p in products && products[p].isActive
               then (if m.kind == In then m.quantity else -m.quantity) else 0)
  {
    KindTotalConcat(ms, [m], p, In);
    KindTotalConcat(ms, [m], p, Out);
    KindTotalSingle(m, p, In);
    KindTotalSingle(m, p, Out);
  }

  /** A new reservation lowers availability of its product by exactly its quantity
      when it is live, and changes nothing otherwise; so a reservation admitted
      because availability covered it leaves availability non-negative. */
  lemma AvailableAfterReservation(ms: seq<Movement>, rs: seq<Reservation>, products: map<Id, Product>,
                                  r: Reservation, p: Id, now: int)
    ensures Available(ms, rs + [r], products, p, now) ==
            Available(ms, rs, products, p, now) - (if r.productId == p && Live(r, now) then r.quantity else 0)
    ensures r.productId == p && Live(r, now) && Available(ms, rs, products, p, now) >= r.quantity
            ==> Available(ms, rs + [r], products, p, now) >= 0
  {
    ReservedQuantityConcat(rs, [r], p, now);
  }

  /** For a missing or inactive product no movement is visible, so availability is
      minus the reserved quantity. */
  lemma InactiveProductAvailability(ms: seq<Movement>, rs: seq<Reservation>, products: map<Id, Product>, p: Id, now: int)
    requires p !in products || !products[p].isActive
    ensures Available(ms, rs, products, p, now) == -ReservedQuantity(rs, p, now)
  {
  }

  // ---------------------------------------------------------------------------
  // Lemmas about confirming and releasing an order's reservations
  // ---------------------------------------------------------------------------

  lemma SetPendingStatusSplit(rs: seq<Reservation>, o: Id, s: ReservationStatus)
    requires rs != []
    ensures SetPendingStatus(rs, o, s) == [SetIfPending(rs[0], o, s)] + SetPendingStatus(rs[1..], o, s)
  {
  }

  /** After a status update by order, no PENDING row of that order is left, rows of
      other orders and rows already out of PENDING are untouched, and updating again
      changes nothing. */
  lemma SetPendingStatusSettlesOrder(rs: seq<Reservation>, o: Id, s: ReservationStatus)
    requires s != ReservationStatus.Pending
    ensures forall i :: 0 <= i < |rs| && rs[i].orderId == o ==>
              SetPendingStatus(rs, o, s)[i].status != ReservationStatus.Pending
    ensures forall i :: 0 <= i < |rs| && (rs[i].orderId != o || rs[i].status != ReservationStatus.Pending) ==>
              SetPendingStatus(rs, o, s)[i] == rs[i]
    ensures SetPendingStatus(SetPendingStatus(rs, o, s), o, s) == SetPendingStatus(rs, o, s)
  {
  }

  lemma {:induction false} PendingRowsConcat(a: seq<Reservation>, b: seq<Reservation>)
    ensures PendingRows(a + b) == PendingRows(a) + PendingRows(b)
    decreases |a|
  {
    if a == [] {
      assert a + b == b;
    } else {
      assert (a + b)[0] == a[0];
      assert (a + b)[1..] == a[1..] + b;
      PendingRowsConcat(a[1..], b);
    }
  }

  /** The PENDING rows of an order, taken from the front of the table. */
  lemma PendingOfOrderSplit(rs: seq<Reservation>, o: Id)
    requires rs != []
    ensures PendingRows(OfOrder(rs, o)) ==
            (if rs[0].orderId == o && rs[0].status == ReservationStatus.Pending then [rs[0]] else [])
            + PendingRows(OfOrder(rs[1..], o))
  {
    var h := if rs[0].orderId == o then [rs[0]] else [];
    assert OfOrder(rs, o) == h + OfOrder(rs[1..], o);
    PendingRowsConcat(h, OfOrder(rs[1..], o));
    if h != [] {
      assert h[1..] == [];
    }
  }

  /** Once the order's reservations have left PENDING, a later confirm finds none
      to confirm and so appends no movement. */
  lemma {:induction false} NothingPendingAfterSettle(rs: seq<Reservation>, o: Id, s: ReservationStatus)
    requires s != ReservationStatus.Pending
    ensures PendingRows(OfOrder(SetPendingStatus(rs, o, s), o)) == []
    ensures OutMovements(PendingRows(OfOrder(SetPendingStatus(rs, o, s), o))) == []
    decreases |rs|
  {
    if rs != [] {
      var t := SetPendingStatus(rs, o, s);
      assert t[1..] == SetPendingStatus(rs[1..], o, s);
      NothingPendingAfterSettle(rs[1..], o, s);
      PendingOfOrderSplit(t, o);
    }
  }

  lemma IdsFromTail(rs: seq<Reservation>, base: nat)
    requires rs != [] && IdsFrom(rs, base)
    ensures rs[0].id == base && IdsFrom(rs[1..], base + 1)
  {
    forall k | 0 <= k < |rs| - 1 ensures rs[1..][k].id == base + 1 + k {
      assert rs[1..][k] == rs[k + 1];
    }
  }

  /** The rows confirm walks through are rows of the table, each standing at the
      position its id names, PENDING and belonging to the order. */
  lemma {:induction false} PendingRowsAreRows(rs: seq<Reservation>, o: Id, base: nat)
    requires IdsFrom(rs, base)
    ensures forall x :: x in PendingRows(OfOrder(rs, o)) ==>
              base <= x.id < base + |rs| && rs[x.id - base] == x
              && x.orderId == o && x.status == ReservationStatus.Pending
    decreases |rs|
  {
    if rs != [] {
      var t := rs[1..];
      IdsFromTail(rs, base);
      PendingRowsAreRows(t, o, base + 1);
      PendingOfOrderSplit(rs, o);
      forall x | x in PendingRows(OfOrder(rs, o))
        ensures base <= x.id < base + |rs| && rs[x.id - base] == x
                && x.orderId == o && x.status == ReservationStatus.Pending
      {
        if x in PendingRows(OfOrder(t, o)) {
          assert rs[x.id - base] == t[x.id - base - 1];
        }
      }
    }
  }

  /** Confirm visits the order's rows in increasing id order, so never one twice. */
  lemma {:induction false} PendingIdsIncrease(rs: seq<Reservation>, o: Id, base: nat)
    requires IdsFrom(rs, base)
    ensures forall a :: 0 <= a < |PendingRows(OfOrder(rs, o))| ==> base <= PendingRows(OfOrder(rs, o))[a].id
    ensures forall a, b :: 0 <= a < b < |PendingRows(OfOrder(rs, o))| ==>
              PendingRows(OfOrder(rs, o))[a].id < PendingRows(OfOrder(rs, o))[b].id
    decreases |rs|
  {
    if rs != [] {
      var t := rs[1..];
      IdsFromTail(rs, base);
      PendingIdsIncrease(t, o, base + 1);
      PendingOfOrderSplit(rs, o);
      var P, Pt := PendingRows(OfOrder(rs, o)), PendingRows(OfOrder(t, o));
      if rs[0].orderId == o && rs[0].status == ReservationStatus.Pending {
        assert P == [rs[0]] + Pt;
        forall a | 0 <= a < |P| ensures base <= P[a].id {
          if a > 0 {
            assert P[a] == Pt[a - 1];
          }
        }
        forall a, b | 0 <= a < b < |P| ensures P[a].id < P[b].id {
          assert P[b] == Pt[b - 1];
          if a > 0 {
            assert P[a] == Pt[a - 1];
          }
        }
      }
    }
  }

  /** Every PENDING row of the order is among the rows confirm visits. */
  lemma {:induction false} PendingRowsComplete(rs: seq<Reservation>, o: Id)
    ensures forall k :: 0 <= k < |rs| && rs[k].orderId == o && rs[k].status == ReservationStatus.Pending ==>
              rs[k] in PendingRows(OfOrder(rs, o))
    decreases |rs|
  {
    if rs != [] {
      var t := rs[1..];
      PendingRowsComplete(t, o);
      PendingOfOrderSplit(rs, o);
      forall k | 0 <= k < |rs| && rs[k].orderId == o && rs[k].status == ReservationStatus.Pending
        ensures rs[k] in PendingRows(OfOrder(rs, o))
      {
        if k > 0 {
          assert rs[k] == t[k - 1];
        }
      }
    }
  }

  /** The OUT movements confirm appends for an order carry, per product, exactly the
      quantity of the order's PENDING reservations of that product, and nothing IN. */
  lemma {:induction false} OutMovementsTotals(rs: seq<Reservation>, o: Id, p: Id)
    ensures KindTotal(OutMovements(PendingRows(OfOrder(rs, o))), p, Out) == OrderPendingQuantity(rs, o, p)
    ensures KindTotal(OutMovements(PendingRows(OfOrder(rs, o))), p, In) == 0
    decreases |rs|
  {
    if rs == [] {
      assert OutMovements(PendingRows(OfOrder(rs, o))) == [];
    } else {
      OutMovementsTotals(rs[1..], o, p);
      PendingOfOrderSplit(rs, o);
      var head := if rs[0].orderId == o && rs[0].status == ReservationStatus.Pending then [rs[0]] else [];
      var tail := PendingRows(OfOrder(rs[1..], o));
      OutMovementsConcat(head, tail);
      KindTotalConcat(OutMovements(head), OutMovements(tail), p, Out);
      KindTotalConcat(OutMovements(head), OutMovements(tail), p, In);
      if head == [] {
        assert OutMovements(head) == [];
      } else {
        assert OutMovements(head) == [Movement(rs[0].productId, rs[0].quantity, Out)];
        KindTotalSingle(Movement(rs[0].productId, rs[0].quantity, Out), p, Out);
        KindTotalSingle(Movement(rs[0].productId, rs[0].quantity, Out), p, In);
      }
    }
  }

  /** Moving the order's PENDING rows out of PENDING lowers the reserved sum by the
      quantity of those that were still live. */
  lemma {:induction false} ReservedAfterSettle(rs: seq<Reservation>, o: Id, s: ReservationStatus, p: Id, now: int)
    requires s != ReservationStatus.Pending
    ensures ReservedQuantity(SetPendingStatus(rs, o, s), p, now) ==
            ReservedQuantity(rs, p, now) - (OrderPendingQuantity(rs, o, p) - OrderExpiredQuantity(rs, o, p, now))
    decreases |rs|
  {
    if rs != [] {
      SetPendingStatusSplit(rs, o, s);
      ReservedAfterSettle(rs[1..], o, s, p, now);
      var t := SetPendingStatus(rs, o, s);
      assert t[1..] == SetPendingStatus(rs[1..], o, s);
    }
  }

  /** Confirming an order takes its still-live reservations out of the reserved sum and
      puts the same quantities into OUT movements, so availability of an active
      product is unchanged by them; confirm does not look at expiry, so an expired
      PENDING reservation is charged to the ledger a second time and lowers
      availability by its quantity. */
  lemma AvailableAfterConfirm(ms: seq<Movement>, rs: seq<Reservation>, products: map<Id, Product>,
                              o: Id, p: Id, now: int)
    requires p in products && products[p].isActive
    ensures Available(ms + OutMovements(PendingRows(OfOrder(rs, o))), SetPendingStatus(rs, o, ReservationStatus.Confirmed), products, p, now)
            == Available(ms, rs, products, p, now) - OrderExpiredQuantity(rs, o, p, now)
  {
    var outs := OutMovements(PendingRows(OfOrder(rs, o)));
    OutMovementsTotals(rs, o, p);
    ReservedAfterSettle(rs, o, ReservationStatus.Confirmed, p, now);
    KindTotalConcat(ms, outs, p, In);
    KindTotalConcat(ms, outs, p, Out);
  }

  /** With none of the order's PENDING reservations expired, confirming leaves every
      active product's availability as it was. */
  lemma AvailableUnchangedByLiveConfirm(ms: seq<Movement>, rs: seq<Reservation>, products: map<Id, Product>,
                                        o: Id, p: Id, now: int)
    requires p in products && products[p].isActive
    requires forall i :: 0 <= i < |rs| && rs[i].orderId == o && rs[i].status == ReservationStatus.Pending
               ==> rs[i].expiresAt > now
    ensures Available(ms + OutMovements(PendingRows(OfOrder(rs, o))), SetPendingStatus(rs, o, ReservationStatus.Confirmed), products, p, now)
            == Available(ms, rs, products, p, now)
  {
    AvailableAfterConfirm(ms, rs, products, o, p, now);
    NoExpiredQuantity(rs, o, p, now);
  }

  lemma {:induction false} NoExpiredQuantity(rs: seq<Reservation>, o: Id, p: Id, now: int)
    requires forall i :: 0 <= i < |rs| && rs[i].orderId == o && rs[i].status == ReservationStatus.Pending
               ==> rs[i].expiresAt > now
    ensures OrderExpiredQuantity(rs, o, p, now) == 0
    decreases |rs|
  {
    if rs != [] {
      assert forall i :: 0 <= i < |rs| - 1 ==> rs[1..][i] == rs[i + 1];
      NoExpiredQuantity(rs[1..], o, p, now);
    }
  }

  /** Ids of the first `i` rows confirm visits. */
  ghost function Visited(pending: seq<Reservation>, i: nat): set<Id>
    requires i <= |pending|
  {
    set k | 0 <= k < i :: pending[k].id
  }

  /** The table after confirm has visited the first `i` rows of `pending`, each
      visit being one `updateReservationStatus(id, CONFIRMED)`. */
  ghost function ConfirmedUpTo(R0: seq<Reservation>, pending: seq<Reservation>, i: nat): (r: seq<Reservation>)
    requires i <= |pending|
    ensures |r| == |R0|
  {
    if i == 0 then R0
    else
      var r := ConfirmedUpTo(R0, pending, i - 1);
      var id := pending[i - 1].id;
      if id < |r| then r[id := r[id].(status := ReservationStatus.Confirmed)] else r
  }

  /** The movements confirm has appended after visiting the first `i` rows of `pending`. */
  ghost function RecordedUpTo(pending: seq<Reservation>, i: nat): seq<Movement>
    requires i <= |pending|
  {
    if i == 0 then [] else RecordedUpTo(pending, i - 1) + [Movement(pending[i - 1].productId, pending[i - 1].quantity, Out)]
  }

  lemma {:induction false} RecordedUpToAll(pending: seq<Reservation>, i: nat)
    requires i <= |pending|
    ensures RecordedUpTo(pending, i) == OutMovements(pending[..i])
    decreases i
  {
    if i > 0 {
      RecordedUpToAll(pending, i - 1);
      assert pending[..i] == pending[..i - 1] + [pending[i - 1]];
      OutMovementsConcat(pending[..i - 1], [pending[i - 1]]);
    }
  }

  /** Row by row, the visited rows are CONFIRMED and all others are as they were. */
  lemma {:induction false} ConfirmedUpToRows(R0: seq<Reservation>, pending: seq<Reservation>, i: nat)
    requires i <= |pending|
    ensures forall j :: 0 <= j < |R0| ==>
              ConfirmedUpTo(R0, pending, i)[j] ==
                if j in Visited(pending, i) then R0[j].(status := ReservationStatus.Confirmed) else R0[j]
    decreases i
  {
    if i > 0 {
      ConfirmedUpToRows(R0, pending, i - 1);
      assert Visited(pending, i) == Visited(pending, i - 1) + {pending[i - 1].id};
    }
  }

  /** The i-th row confirm visits stands at its id in the table, belongs to the
      order, is PENDING, and is still untouched by the visits before it. */
  lemma PendingRowAt(R0: seq<Reservation>, o: Id, pending: seq<Reservation>, i: nat)
    requires IdsFrom(R0, 0) && pending == PendingRows(OfOrder(R0, o)) && i < |pending|
    ensures pending[i].id < |R0| && R0[pending[i].id] == pending[i]
    ensures ConfirmedUpTo(R0, pending, i)[pending[i].id] == pending[i]
    ensures pending[i].orderId == o && pending[i].status == ReservationStatus.Pending
  {
    PendingRowsAreRows(R0, o, 0);
    PendingIdsIncrease(R0, o, 0);
    ConfirmedUpToRows(R0, pending, i);
    assert pending[i] in pending;
    assert pending[i].id !in Visited(pending, i);
  }

  /** Confirming keeps the table's ids in place and only records movements of
      products the reservations name, so the store's foreign keys still hold. */
  lemma ConfirmKeepsLinks(R0: seq<Reservation>, M0: seq<Movement>, products: map<Id, Product>, o: Id)
    requires IdsFrom(R0, 0) && forall k :: 0 <= k < |R0| ==> R0[k].productId in products
    requires forall k :: 0 <= k < |M0| ==> M0[k].productId in products
    ensures var rs := SetPendingStatus(R0, o, ReservationStatus.Confirmed);
            forall k :: 0 <= k < |rs| ==> rs[k].id == k && rs[k].productId in products
    ensures var ms := M0 + OutMovements(PendingRows(OfOrder(R0, o)));
            forall k :: 0 <= k < |ms| ==> ms[k].productId in products
  {
    var pending := PendingRows(OfOrder(R0, o));
    PendingRowsAreRows(R0, o, 0);
    forall k | 0 <= k < |pending| ensures pending[k].productId in products {
      assert pending[k] in pending;
    }
  }

  /** Marking the ids of all the order's PENDING rows confirms exactly what the
      by-order update confirms. */
  lemma ConfirmedAll(R0: seq<Reservation>, o: Id, pending: seq<Reservation>)
    requires IdsFrom(R0, 0) && pending == PendingRows(OfOrder(R0, o))
    ensures ConfirmedUpTo(R0, pending, |pending|) == SetPendingStatus(R0, o, ReservationStatus.Confirmed)
  {
    var cur, done := ConfirmedUpTo(R0, pending, |pending|), Visited(pending, |pending|);
    ConfirmedUpToRows(R0, pending, |pending|);
    PendingRowsAreRows(R0, o, 0);
    PendingRowsComplete(R0, o);
    forall j | 0 <= j < |R0|
      ensures cur[j] == SetPendingStatus(R0, o, ReservationStatus.Confirmed)[j]
    {
      if R0[j].orderId == o && R0[j].status == ReservationStatus.Pending {
        assert R0[j] in pending;
        var k :| 0 <= k < |pending| && pending[k] == R0[j];
        assert j in done;
      }
    }
  }

  // ---------------------------------------------------------------------------
  // Repository
  // ---------------------------------------------------------------------------

  /** `InventoryRepository`: one method per statement it runs against the store. */
  class InventoryRepository {
    const db: Database

    constructor (db: Database)
      ensures this.db == db
    {
      this.db := db;
    }

    /** Selects the product. An unknown id yields an empty row set whose first
        element is read anyway; the catch turns that, like every store failure,
        into InternalServerError, so NotFoundError never escapes. */
    method FindProductById(productId: Id) returns (r: Result<Product>)
      ensures r.Ok? <==> db.online && productId in db.products
      ensures r.Ok? ==> r.value == db.products[productId]
      ensures r.Err? ==> r.error.InternalServer?
    {
      if !db.online || productId !in db.products {
        return Err(InternalServer("Error finding product by id!"));
      }
      return Ok(db.products[productId]);
    }

    /** Appends one ledger row; the product must exist (foreign key) and the
        quantity must fit the `integer` column. */
    method CreateInventoryMovement(productId: Id, quantity: int, kind: MovementType) returns (r: Outcome)
      modifies db`inventory
      ensures r.Done? <==> old(db.online) && productId in db.products && FitsInteger(quantity)
      ensures r.Done? ==> db.inventory == old(db.inventory) + [Movement(productId, quantity, kind)]
      ensures r.Failed? ==> db.inventory == old(db.inventory) && r.error.InternalServer?
    {
      if !db.online || productId !in db.products || !FitsInteger(quantity) {
        return Failed(InternalServer("Error creating inventory movement!"));
      }
      db.inventory := db.inventory + [Movement(productId, quantity, kind)];
      return Done;
    }

    /** The product's movements, or none while the product is inactive. */
    method GetInventoryByProductId(productId: Id) returns (r: Result<seq<Movement>>)
      ensures r.Ok? <==> db.online
      ensures r.Ok? ==> r.value == VisibleMovements(db.inventory, db.products, productId)
      ensures r.Ok? ==> forall m :: m in r.value ==> m in db.inventory && m.productId == productId
      ensures r.Ok? && (productId !in db.products || !db.products[productId].isActive) ==> r.value == []
      ensures r.Err? ==> r.error.InternalServer?
    {
      if !db.online {
        return Err(InternalServer("Error getting inventory by product id!"));
      }
      return Ok(VisibleMovements(db.inventory, db.products, productId));
    }

    /** The summed quantity of the product's PENDING, unexpired reservations. */
    method GetReservedQuantity(productId: Id, now: int) returns (r: Result<int>)
      ensures r.Ok? <==> db.online
      ensures r.Ok? ==> r.value == ReservedQuantity(db.reservations, productId, now)
      ensures r.Err? ==> r.error.InternalServer?
    {
      if !db.online {
        return Err(InternalServer("Error getting reserved quantity!"));
      }
      return Ok(ReservedQuantity(db.reservations, productId, now));
    }

    /** Inserts a PENDING reservation and returns its fresh id; the product and
        the order must exist (foreign keys) and the quantity must fit the
        `integer` column. */
    method CreateReservation(productId: Id, orderId: Id, quantity: int, expiresAt: int) returns (r: Result<Id>)
      requires db.Valid()
      modifies db`reservations
      ensures db.Valid()
      ensures r.Ok? <==> old(db.online) && productId in db.products && orderId < |db.orders| && FitsInteger(quantity)
      ensures r.Ok? ==>
                && r.value == old(|db.reservations|)
                && db.reservations == old(db.reservations)
                   + [Reservation(r.value, productId, orderId, quantity, ReservationStatus.Pending, expiresAt)]
      ensures r.Err? ==> db.reservations == old(db.reservations) && r.error.InternalServer?
    {
      if !db.online || productId !in db.products || orderId >= |db.orders| || !FitsInteger(quantity) {
        return Err(InternalServer("Error creating reservation!"));
      }
      var id := |db.reservations|;
      db.reservations := db.reservations
        + [Reservation(id, productId, orderId, quantity, ReservationStatus.Pending, expiresAt)];
      return Ok(id);
    }

    /** The row with that id; an absent id throws NotFoundError, which the catch
        passes on unchanged, while store failures become InternalServerError. */
    method GetReservationById(id: Id) returns (r: Result<Reservation>)
      requires db.Valid()
      ensures db.online && id < |db.reservations| ==> r == Ok(db.reservations[id])
      ensures r.Ok? ==> r.value in db.reservations && r.value.id == id
      ensures db.online && id >= |db.reservations| ==> r.Err? && r.error.NotFound?
      ensures !db.online ==> r.Err? && r.error.InternalServer?
    {
      if !db.online {
        return Err(InternalServer("Error getting reservation!"));
      }
      if id >= |db.reservations| {
        return Err(NotFound("Reservation not found"));
      }
      return Ok(db.reservations[id]);
    }

    /** All rows of the order, in id order. */
    method GetReservationsByOrderId(orderId: Id) returns (r: Result<seq<Reservation>>)
      ensures r.Ok? <==> db.online
      ensures r.Ok? ==> r.value == OfOrder(db.reservations, orderId)
      ensures r.Err? ==> r.error.InternalServer?
    {
      if !db.online {
        return Err(InternalServer("Error getting reservations by order id!"));
      }
      return Ok(OfOrder(db.reservations, orderId));
    }

    /** Overwrites the status of the row with that id, whatever it was; an absent
        id updates nothing. */
    method UpdateReservationStatus(id: Id, status: ReservationStatus) returns (r: Outcome)
      modifies db`reservations
      ensures r.Done? <==> old(db.online)
      ensures r.Done? && id < old(|db.reservations|) ==>
                db.reservations == old(db.reservations)[id := old(db.reservations)[id].(status := status)]
      ensures r.Failed? || id >= |db.reservations| ==> db.reservations == old(db.reservations)
      ensures r.Failed? ==> r.error.InternalServer?
    {
      if !db.online {
        return Failed(InternalServer("Error updating reservation status!"));
      }
      if id < |db.reservations| {
        db.reservations := db.reservations[id := db.reservations[id].(status := status)];
      }
      return Done;
    }

    /** Sets the status of the order's PENDING rows only; rows already CONFIRMED
        or CANCELLED, and other orders' rows, stay as they are. */
    method UpdateReservationsStatusByOrderId(orderId: Id, status: ReservationStatus) returns (r: Outcome)
      requires db.Valid()
      modifies db`reservations
      ensures db.Valid()
      ensures r.Done? <==> old(db.online)
      ensures r.Done? ==> db.reservations == SetPendingStatus(old(db.reservations), orderId, status)
      ensures r.Failed? ==> db.reservations == old(db.reservations) && r.error.InternalServer?
    {
      if !db.online {
        return Failed(InternalServer("Error updating reservations status by order id!"));
      }
      db.reservations := SetPendingStatus(db.reservations, orderId, status);
      return Done;
    }
  }

  // ---------------------------------------------------------------------------
  // Service
  // ---------------------------------------------------------------------------

  /** The availability snapshot `getProductDisponibility` returns. */
  datatype Disponibility = Disponibility(product: Product, quantity: int, kind: MovementType)

  /** `InventoryService`: the reservation engine proper. */
  class InventoryService {
    const repository: InventoryRepository

    constructor (repository: InventoryRepository)
      ensures this.repository == repository
    {
      this.repository := repository;
    }

    /** Checks the product exists, then appends one movement of the given kind and quantity. */
    method CreateInventoryMovement(data: CreateInventoryMovementDto) returns (r: Outcome)
      requires repository.db.Valid()
      modifies repository.db`inventory
      ensures repository.db.Valid()
      ensures r.Done? <==> old(repository.db.online) && data.productId in repository.db.products && FitsInteger(data.quantity)
      ensures r.Done? ==>
                repository.db.inventory == old(repository.db.inventory) + [Movement(data.productId, data.quantity, data.kind)]
      ensures r.Failed? ==> repository.db.inventory == old(repository.db.inventory)
    {
      var product := repository.FindProductById(data.productId);
      if product.Err? {
        return Failed(product.error);
      }
      r := repository.CreateInventoryMovement(data.productId, data.quantity, data.kind);
    }

    /** IN total minus OUT total of the product's visible movements, minus what
        live reservations hold. */
    method GetAvailableQuantity(productId: Id, now: int) returns (r: Result<int>)
      ensures r.Ok? <==> repository.db.online
      ensures r.Ok? ==> r.value == Available(repository.db.inventory, repository.db.reservations,
                                             repository.db.products, productId, now)
      ensures r.Err? ==> r.error.InternalServer?
    {
      var inventory := repository.GetInventoryByProductId(productId);
      if inventory.Err? {
        return Err(inventory.error);
      }
      var totalIn := TotalQuantity(OfKind(inventory.value, In));
      var totalOut := TotalQuantity(OfKind(inventory.value, Out));
      var reserved := repository.GetReservedQuantity(productId, now);
      if reserved.Err? {
        // The store answered the read above and stays reachable for the whole call.
        assert false;
      }
      return Ok(totalIn - totalOut - reserved.value);
    }

    /** The product together with its available quantity, labelled IN. */
    method GetProductDisponibility(productId: Id, now: int) returns (r: Result<Disponibility>)
      ensures r.Ok? <==> repository.db.online && productId in repository.db.products
      ensures r.Ok? ==> r.value == Disponibility(repository.db.products[productId],
                                   Available(repository.db.inventory, repository.db.reservations,
                                             repository.db.products, productId, now), In)
    {
      var product := repository.FindProductById(productId);
      if product.Err? {
        return Err(product.error);
      }
      var available := GetAvailableQuantity(productId, now);
      if available.Err? {
        // The product lookup above succeeded, so the store is reachable.
        assert false;
      }
      return Ok(Disponibility(product.value, available.value, In));
    }

    /** Checks the product, compares availability with the request, and inserts one
        PENDING reservation expiring `expiresInMinutes || 30` minutes after `now`. */
    method ReserveProduct(data: ReserveProductDto, now: int) returns (r: Result<Id>)
      requires repository.db.Valid()
      modifies repository.db`reservations
      ensures repository.db.Valid()
      ensures r.Ok? <==>
        && old(repository.db.online) && data.productId in repository.db.products
        && old(Available(repository.db.inventory, repository.db.reservations, repository.db.products,
                         data.productId, now)) >= data.quantity
        && data.orderId < |repository.db.orders| && FitsInteger(data.quantity)
      ensures r.Ok? ==>
        && r.value == old(|repository.db.reservations|)
        && repository.db.reservations == old(repository.db.reservations)
           + [Reservation(r.value, data.productId, data.orderId, data.quantity,
                          ReservationStatus.Pending, ExpiryFor(now, data.expiresInMinutes))]
      ensures r.Err? ==> repository.db.reservations == old(repository.db.reservations)
      ensures r.Err? && old(repository.db.online) && data.productId in repository.db.products
              && old(Available(repository.db.inventory, repository.db.reservations, repository.db.products,
                               data.productId, now)) < data.quantity
              ==> r.error.BadRequest?
      ensures r.Err? && !r.error.BadRequest? ==> r.error.InternalServer?
    {
      var product := repository.FindProductById(data.productId);
      if product.Err? {
        return Err(product.error);
      }
      var available := GetAvailableQuantity(data.productId, now);
      if available.Err? {
        // The product lookup above succeeded, so the store is reachable.
        assert false;
      }
      if available.value < data.quantity {
        return Err(BadRequest("Insufficient inventory. Available: " + IntToString(available.value)
                              + ", Requested: " + IntToString(data.quantity)));
      }
      var expiresAt := ExpiryFor(now, data.expiresInMinutes);
      r := repository.CreateReservation(data.productId, data.orderId, data.quantity, expiresAt);
    }

    /** For every PENDING reservation of the order, in id order: mark it CONFIRMED
        and append an OUT movement of its product and quantity. Expiry is not checked. */
    method ConfirmReservationsByOrderId(orderId: Id) returns (r: Outcome)
      requires repository.db.Valid()
      modifies repository.db`reservations, repository.db`inventory
      ensures repository.db.Valid()
      ensures r.Done? <==> old(repository.db.online)
      ensures r.Done? ==>
        && repository.db.reservations == SetPendingStatus(old(repository.db.reservations), orderId, ReservationStatus.Confirmed)
        && repository.db.inventory == old(repository.db.inventory)
           + OutMovements(PendingRows(OfOrder(old(repository.db.reservations), orderId)))
      ensures r.Failed? ==> repository.db.reservations == old(repository.db.reservations)
                            && repository.db.inventory == old(repository.db.inventory)
    {
      var db := repository.db;
      var rows := repository.GetReservationsByOrderId(orderId);
      if rows.Err? {
        return Failed(rows.error);
      }
      var pending := PendingRows(rows.value);
      ghost var R0, M0 := db.reservations, db.inventory;
      var i := 0;
      while i < |pending|
        invariant 0 <= i <= |pending|
        invariant db.online
        invariant db.reservations == ConfirmedUpTo(R0, pending, i)
        invariant db.inventory == M0 + RecordedUpTo(pending, i)
        invariant forall k :: 0 <= k < |R0| ==> FitsInteger(R0[k].quantity)
      {
        var row := pending[i];
        PendingRowAt(R0, orderId, pending, i);
        ConfirmReservation(row);
        i := i + 1;
      }
      RecordedUpToAll(pending, i);
      assert pending[..i] == pending;
      ConfirmedAll(R0, orderId, pending);
      ConfirmKeepsLinks(R0, M0, db.products, orderId);
      return Done;
    }

    /** The loop body of `confirmReservationsByOrderId` for one reservation: its
        status becomes CONFIRMED, then an OUT movement of its quantity is recorded. */
    method ConfirmReservation(row: Reservation)
      requires repository.db.online && row.productId in repository.db.products
      requires row.id < |repository.db.reservations| && repository.db.reservations[row.id] == row
      requires FitsInteger(row.quantity)
      modifies repository.db`reservations, repository.db`inventory
      ensures repository.db.reservations ==
                old(repository.db.reservations)[row.id := row.(status := ReservationStatus.Confirmed)]
      ensures repository.db.inventory == old(repository.db.inventory) + [Movement(row.productId, row.quantity, Out)]
    {
      var updated := repository.UpdateReservationStatus(row.id, ReservationStatus.Confirmed);
      if updated.Failed? {
        // The store is reachable for the whole call.
        assert false;
      }
      var moved := repository.CreateInventoryMovement(row.productId, row.quantity, Out);
      if moved.Failed? {
        assert false;
      }
    }

    /** Cancels the order's PENDING reservations in one statement. */
    method ReleaseReservationsByOrderId(orderId: Id) returns (r: Outcome)
      requires repository.db.Valid()
      modifies repository.db`reservations
      ensures repository.db.Valid()
      ensures r.Done? <==> old(repository.db.online)
      ensures r.Done? ==>
                repository.db.reservations == SetPendingStatus(old(repository.db.reservations), orderId, ReservationStatus.Cancelled)
      ensures r.Failed? ==> repository.db.reservations == old(repository.db.reservations)
    {
      r := repository.UpdateReservationsStatusByOrderId(orderId, ReservationStatus.Cancelled);
    }
  }
}
