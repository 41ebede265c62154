/** The orders service: the repository over the `orders` and `order_items`
    tables, the folding of the joined rows `findOrderById` reads into one order
    with its items, and the service that passes requests through. */
module Orders {
  import opened Common
  import opened Enums
  import opened Storage
  import opened OrdersDto
  import opened Columns

  // ---------------------------------------------------------------------------
  // The order as returned to callers
  // ---------------------------------------------------------------------------

  datatype CustomerView = CustomerView(id: Id, name: string, email: string)
  datatype ProductView = ProductView(id: Id, name: string)
  datatype OrderItemView = OrderItemView(product: ProductView, quantity: int, price: real)

  /** The `Order` model, without its two timestamps. */
  datatype OrderView =
    OrderView(id: Id, customer: CustomerView, status: OrderStatus, items: seq<OrderItemView>, totalAmount: string)

  // ---------------------------------------------------------------------------
  // The joined rows of `findOrderById`
  // ---------------------------------------------------------------------------

  /** One row of `orders ⟕ order_items ⟕ customers ⟕ products`: the columns
      that come from a left-joined table are absent when nothing matched. */
  datatype JoinedRow = JoinedRow(
    id: Id, customerId: Id, customerName: Option<string>, customerEmail: Option<string>,
    status: OrderStatus, productId: Option<Id>, productName: Option<string>,
    price: Option<real>, quantity: Option<int>, totalAmount: string)

  /** The `order_items` rows of one order, in id order. */
  function ItemsOfOrder(items: seq<OrderItemRow>, o: Id): (r: seq<OrderItemRow>)
    ensures forall x :: x in r ==> x in items && x.orderId == o
    ensures (forall i :: 0 <= i < |items| ==> items[i].orderId != o) ==> r == []
  {
    if items == [] then []
    else (if items[0].orderId == o then [items[0]] else []) + ItemsOfOrder(items[1..], o)
  }

  /** The joined row of an order and one of its items, or of an order with no item. */
  function JoinRow(ord: OrderRow, customers: map<Id, Customer>, products: map<Id, Product>,
                   item: Option<OrderItemRow>): JoinedRow
  {
    var customer := if ord.customerId in customers then Some(customers[ord.customerId]) else None;
    var product := if item.Some? && item.value.productId in products then Some(products[item.value.productId]) else None;
    JoinedRow(ord.id, ord.customerId,
              if customer.Some? then Some(customer.value.name) else None,
              if customer.Some? then Some(customer.value.email) else None,
              ord.status,
              if item.Some? then Some(item.value.productId) else None,
              if product.Some? then Some(product.value.name) else None,
              if item.Some? then Some(item.value.price) else None,
              if item.Some? then Some(item.value.quantity) else None,
              ord.totalAmount)
  }

  /** The rows the query returns for order `o`: none for an unknown order, one
      row with no item columns for an order without items, else one per item. */
  function JoinRows(orders: seq<OrderRow>, orderItems: seq<OrderItemRow>, customers: map<Id, Customer>,
                    products: map<Id, Product>, o: Id): (r: seq<JoinedRow>)
    ensures |r| == 0 <==> o >= |orders|
    ensures forall i :: 0 <= i < |r| ==>
              r[i].id == orders[o].id && r[i].customerId == orders[o].customerId
              && r[i].status == orders[o].status && r[i].totalAmount == orders[o].totalAmount
  {
    if o >= |orders| then []
    else
      var its := ItemsOfOrder(orderItems, o);
      if its == [] then [JoinRow(orders[o], customers, products, None)]
      else seq(|its|, i requires 0 <= i < |its| => JoinRow(orders[o], customers, products, Some(its[i])))
  }

  // ---------------------------------------------------------------------------
  // Folding the rows into items
  // ---------------------------------------------------------------------------

  /** `row.productId && row.productName`: both present, and the name not empty. */
  predicate Kept(row: JoinedRow) {
    row.productId.Some? && row.productName.Some? && row.productName.value != ""
  }

  /** The item a kept row contributes; a missing quantity or price reads as 0. */
  function ItemOf(row: JoinedRow): OrderItemView
    requires Kept(row)
  {
    OrderItemView(ProductView(row.productId.value, row.productName.value),
                  row.quantity.GetOr(0), row.price.GetOr(0.0))
  }

  /** Whether the row contributes an item for product `k`. */
  predicate KeptFor(row: JoinedRow, k: Id) {
    Kept(row) && row.productId.value == k
  }

  /** The keys of the items map after the first `n` rows, in insertion order: a
      product enters when first seen and never moves afterwards. */
  function KeysInOrder(rows: seq<JoinedRow>, n: nat): seq<Id>
    requires n <= |rows|
  {
    if n == 0 then []
    else
      var ks := KeysInOrder(rows, n - 1);
      var row := rows[n - 1];
      if Kept(row) && row.productId.value !in ks then ks + [row.productId.value] else ks
  }

  /** The value stored under product `k` after the first `n` rows: the item of
      the last kept row for `k`, found by searching backwards. */
  function LastItem(rows: seq<JoinedRow>, n: nat, k: Id): Option<OrderItemView>
    requires n <= |rows|
  {
    if n == 0 then None
    else if KeptFor(rows[n - 1], k) then Some(ItemOf(rows[n - 1]))
    else LastItem(rows, n - 1, k)
  }

  /** `Array.from(itemsMap.values())` once every row is folded. */
  function ItemsOf(rows: seq<JoinedRow>): seq<OrderItemView> {
    var ks := KeysInOrder(rows, |rows|);
    KeysInOrderSpec(rows, |rows|);
    seq(|ks|, j requires 0 <= j < |ks| => LastItem(rows, |rows|, ks[j]).value)
  }

  /** The returned order: order-level fields from the first row, a missing
      customer name or e-mail read as the empty string. */
  function Assemble(rows: seq<JoinedRow>): OrderView
    requires rows != []
  {
    var first := rows[0];
    OrderView(first.id,
              CustomerView(first.customerId, first.customerName.GetOr(""), first.customerEmail.GetOr("")),
              first.status, ItemsOf(rows), first.totalAmount)
  }

  // ---------------------------------------------------------------------------
  // Lemmas about the folding
  // ---------------------------------------------------------------------------

  /** A product is a key exactly when some kept row names it, and no key occurs twice. */
  lemma {:induction false} KeysInOrderSpec(rows: seq<JoinedRow>, n: nat)
    requires n <= |rows|
    ensures forall k :: k in KeysInOrder(rows, n) <==> LastItem(rows, n, k).Some?
    ensures forall a, b :: 0 <= a < b < |KeysInOrder(rows, n)| ==> KeysInOrder(rows, n)[a] != KeysInOrder(rows, n)[b]
    decreases n
  {
    if n > 0 {
      KeysInOrderSpec(rows, n - 1);
    }
  }

  /** The value kept for a product comes from its last kept row: that row is
      kept for the product and no later row is. */
  lemma {:induction false} LastItemIsLastRow(rows: seq<JoinedRow>, n: nat, k: Id)
    requires n <= |rows|
    ensures LastItem(rows, n, k).None? <==> forall j :: 0 <= j < n ==> !KeptFor(rows[j], k)
    ensures LastItem(rows, n, k).Some? ==>
              exists j :: 0 <= j < n && KeptFor(rows[j], k) && LastItem(rows, n, k).value == ItemOf(rows[j])
                          && forall j' :: j < j' < n ==> !KeptFor(rows[j'], k)
    decreases n
  {
    if n > 0 {
      LastItemIsLastRow(rows, n - 1, k);
      if KeptFor(rows[n - 1], k) {
        assert 0 <= n - 1 < n && KeptFor(rows[n - 1], k) && LastItem(rows, n, k).value == ItemOf(rows[n - 1]);
      }
    }
  }

  /** Later rows only append keys: the order of the items is the order in which
      their products first appear. */
  lemma {:induction false} KeysOnlyGrow(rows: seq<JoinedRow>, m: nat, n: nat)
    requires m <= n <= |rows|
    ensures KeysInOrder(rows, m) <= KeysInOrder(rows, n)
    decreases n
  {
    if m < n {
      KeysOnlyGrow(rows, m, n - 1);
    }
  }

  /** No product appears twice among the items of a found order, and each item's
      product is the product it is filed under. */
  lemma ItemsHaveDistinctProducts(rows: seq<JoinedRow>)
    ensures forall a, b :: 0 <= a < b < |ItemsOf(rows)| ==> ItemsOf(rows)[a].product.id != ItemsOf(rows)[b].product.id
    ensures |ItemsOf(rows)| <= |rows|
  {
    var ks, items := KeysInOrder(rows, |rows|), ItemsOf(rows);
    KeysInOrderSpec(rows, |rows|);
    KeysAtMostRows(rows, |rows|);
    forall j | 0 <= j < |ks| ensures items[j].product.id == ks[j] {
      LastItemIsLastRow(rows, |rows|, ks[j]);
    }
  }

  lemma {:induction false} KeysAtMostRows(rows: seq<JoinedRow>, n: nat)
    requires n <= |rows|
    ensures |KeysInOrder(rows, n)| <= n
    decreases n
  {
    if n > 0 {
      KeysAtMostRows(rows, n - 1);
    }
  }

  /** The items of the kept rows, one per row, in row order. */
  function KeptItems(rows: seq<JoinedRow>, n: nat): seq<OrderItemView>
    requires n <= |rows|
  {
    if n == 0 then []
    else KeptItems(rows, n - 1) + (if Kept(rows[n - 1]) then [ItemOf(rows[n - 1])] else [])
  }

  /** When no two kept rows name the same product, folding loses nothing: the
      items are exactly those of the kept rows, in row order. */
  lemma {:induction false} DistinctRowsFoldToKeptItems(rows: seq<JoinedRow>, n: nat)
    requires n <= |rows|
    requires forall a, b :: 0 <= a < b < n && Kept(rows[a]) && Kept(rows[b]) ==>
               rows[a].productId != rows[b].productId
    ensures |KeysInOrder(rows, n)| == |KeptItems(rows, n)|
    ensures forall j :: 0 <= j < |KeysInOrder(rows, n)| ==>
              LastItem(rows, n, KeysInOrder(rows, n)[j]) == Some(KeptItems(rows, n)[j])
    decreases n
  {
    if n > 0 {
      DistinctRowsFoldToKeptItems(rows, n - 1);
      KeysInOrderSpec(rows, n - 1);
      var ks := KeysInOrder(rows, n - 1);
      var row := rows[n - 1];
      if Kept(row) {
        LastItemIsLastRow(rows, n - 1, row.productId.value);
        assert row.productId.value !in ks;
        forall j | 0 <= j < |ks| ensures LastItem(rows, n, ks[j]) == LastItem(rows, n - 1, ks[j]) {
          LastItemIsLastRow(rows, n - 1, ks[j]);
        }
      }
    }
  }

  lemma ItemsOfDistinctRows(rows: seq<JoinedRow>)
    requires forall a, b :: 0 <= a < b < |rows| && Kept(rows[a]) && Kept(rows[b]) ==>
               rows[a].productId != rows[b].productId
    ensures ItemsOf(rows) == KeptItems(rows, |rows|)
  {
    DistinctRowsFoldToKeptItems(rows, |rows|);
  }

  /** Two kept rows for the same product give one item, carrying the quantity
      and price of the later row: the quantities are not added up. */
  lemma RepeatedProductKeepsLastRow(r1: JoinedRow, r2: JoinedRow)
    requires Kept(r1) && Kept(r2) && r1.productId == r2.productId
    ensures ItemsOf([r1, r2]) == [ItemOf(r2)]
  {
    var rows := [r1, r2];
    assert KeysInOrder(rows, 1) == [r1.productId.value];
    assert KeysInOrder(rows, 2) == [r1.productId.value];
  }

  // ---------------------------------------------------------------------------
  // Creating an order
  // ---------------------------------------------------------------------------

  /** The `order_items` rows `createOrder` inserts for order `o`; the `numeric(10,2)`
      column keeps each price rounded to hundredths. */
  function LineRows(o: Id, items: seq<OrderItemDto>): seq<OrderItemRow> {
    seq(|items|, i requires 0 <= i < |items| =>
      OrderItemRow(o, items[i].product.id, items[i].quantity, StoredPrice(items[i].price)))
  }

  /** The item a request line reads back as, given the catalogue: its price is
      the stored, rounded one. */
  function LineView(item: OrderItemDto, products: map<Id, Product>): OrderItemView
    requires item.product.id in products
  {
    OrderItemView(ProductView(item.product.id, products[item.product.id].name), item.quantity, StoredPrice(item.price))
  }

  lemma {:induction false} ItemsOfOrderConcat(a: seq<OrderItemRow>, b: seq<OrderItemRow>, o: Id)
    ensures ItemsOfOrder(a + b, o) == ItemsOfOrder(a, o) + ItemsOfOrder(b, o)
    decreases |a|
  {
    if a == [] {
      assert a + b == b;
    } else {
      assert (a + b)[0] == a[0];
      assert (a + b)[1..] == a[1..] + b;
      ItemsOfOrderConcat(a[1..], b, o);
    }
  }

  lemma {:induction false} ItemsOfOrderAll(rows: seq<OrderItemRow>, o: Id)
    requires forall i :: 0 <= i < |rows| ==> rows[i].orderId == o
    ensures ItemsOfOrder(rows, o) == rows
    decreases |rows|
  {
    if rows != [] {
      ItemsOfOrderAll(rows[1..], o);
    }
  }

  /** The item rows of a freshly inserted order are exactly its own lines. */
  lemma NewOrderItems(old_items: seq<OrderItemRow>, o: Id, items: seq<OrderItemDto>)
    requires forall i :: 0 <= i < |old_items| ==> old_items[i].orderId < o
    ensures ItemsOfOrder(old_items + LineRows(o, items), o) == LineRows(o, items)
  {
    ItemsOfOrderConcat(old_items, LineRows(o, items), o);
    ItemsOfOrderAll(LineRows(o, items), o);
  }

  lemma {:induction false} KeptItemsOfLines(rows: seq<JoinedRow>, items: seq<OrderItemDto>, products: map<Id, Product>, n: nat)
    requires n <= |rows| == |items|
    requires forall i :: 0 <= i < |items| ==> items[i].product.id in products && products[items[i].product.id].name != ""
    requires forall i :: 0 <= i < |rows| ==>
               rows[i].productId == Some(items[i].product.id)
               && rows[i].productName == Some(products[items[i].product.id].name)
               && rows[i].quantity == Some(items[i].quantity) && rows[i].price == Some(StoredPrice(items[i].price))
    ensures KeptItems(rows, n) == seq(n, i requires 0 <= i < n => LineView(items[i], products))
    decreases n
  {
    if n > 0 {
      KeptItemsOfLines(rows, items, products, n - 1);
    }
  }

  /** An order created with lines for distinct products, all of them named in the
      catalogue, reads back with one item per line, in line order, carrying the
      line's quantity, its price rounded to hundredths, and the product's name. */
  lemma CreatedOrderReadsBack(orders: seq<OrderRow>, orderItems: seq<OrderItemRow>, customers: map<Id, Customer>,
                              products: map<Id, Product>, o: Id, items: seq<OrderItemDto>)
    requires o < |orders| && items != []
    requires ItemsOfOrder(orderItems, o) == LineRows(o, items)
    requires forall i :: 0 <= i < |items| ==> items[i].product.id in products && products[items[i].product.id].name != ""
    requires forall a, b :: 0 <= a < b < |items| ==> items[a].product.id != items[b].product.id
    ensures ItemsOf(JoinRows(orders, orderItems, customers, products, o)) ==
            seq(|items|, i requires 0 <= i < |items| => LineView(items[i], products))
  {
    var rows := JoinRows(orders, orderItems, customers, products, o);
    assert |rows| == |items|;
    assert forall i :: 0 <= i < |rows| ==> rows[i] == JoinRow(orders[o], customers, products, Some(LineRows(o, items)[i]));
    ItemsOfDistinctRows(rows);
    KeptItemsOfLines(rows, items, products, |rows|);
  }

  // ---------------------------------------------------------------------------
  // Repository
  // ---------------------------------------------------------------------------

  /** `OrdersRepository`. */
  class OrdersRepository {
    const db: Database

    constructor (db: Database)
      ensures this.db == db
    {
      this.db := db;
    }

    /** Reads the joined rows and folds them into one order. An unknown id yields
        no rows; the NotFoundError raised for it is caught and rewrapped, like
        every store failure, as InternalServerError. */
    method FindOrderById(id: Id) returns (r: Result<OrderView>)
      requires db.Valid()
      ensures r.Ok? <==> db.online && id < |db.orders|
      ensures r.Err? ==> r.error.InternalServer?
      ensures r.Ok? ==>
                && r.value == Assemble(JoinRows(db.orders, db.orderItems, db.customers, db.products, id))
                && r.value.id == id && r.value.customer.id == db.orders[id].customerId
                && r.value.status == db.orders[id].status && r.value.totalAmount == db.orders[id].totalAmount
    {
      if !db.online {
        return Err(InternalServer("Error finding order by id!"));
      }
      var rows := JoinRows(db.orders, db.orderItems, db.customers, db.products, id);
      if |rows| == 0 {
        return Err(InternalServer("Error finding order by id! Order not found!"));
      }
      var first := rows[0];
      var items := FoldItems(rows);
      return Ok(OrderView(first.id,
                          CustomerView(first.customerId, first.customerName.GetOr(""), first.customerEmail.GetOr("")),
                          first.status, items, first.totalAmount));
    }

    /** The loop filling `itemsMap`: a kept row sets the entry for its product,
        which keeps its place if the product was seen before. */
    method FoldItems(rows: seq<JoinedRow>) returns (items: seq<OrderItemView>)
      ensures items == ItemsOf(rows)
    {
      var itemsMap: map<Id, OrderItemView> := map[];
      var keys: seq<Id> := [];
      var i := 0;
      while i < |rows|
        invariant 0 <= i <= |rows|
        invariant keys == KeysInOrder(rows, i)
        invariant forall k :: k in itemsMap <==> LastItem(rows, i, k).Some?
        invariant forall k :: k in itemsMap ==> itemsMap[k] == LastItem(rows, i, k).value
      {
        var row := rows[i];
        KeysInOrderSpec(rows, i);
        if row.productId.Some? && row.productName.Some? && row.productName.value != "" {
          if row.productId.value !in itemsMap {
            keys := keys + [row.productId.value];
          }
          itemsMap := itemsMap[row.productId.value := OrderItemView(
            ProductView(row.productId.value, row.productName.value),
            row.quantity.GetOr(0), row.price.GetOr(0.0))];
        }
        i := i + 1;
      }
      KeysInOrderSpec(rows, |rows|);
      items := seq(|keys|, j requires 0 <= j < |keys| => itemsMap[keys[j]]);
    }

    /** Inserts the order and its lines in one transaction, then re-reads it. The
        customer and every line's product must exist (foreign keys), there must be
        at least one line (the ORM refuses an empty list of values), the total and
        every price must fit `numeric(10,2)` and every quantity `integer`;
        otherwise the transaction rolls back and the failure surfaces as
        InternalServerError. The total is stored, and read back, as the column
        prints it. */
    method CreateOrder(customerId: Id, status: OrderStatus, items: seq<OrderItemDto>, totalAmount: string)
      returns (r: Result<OrderView>)
      requires db.Valid()
      modifies db`orders, db`orderItems
      ensures db.Valid()
      ensures r.Ok? <==>
                && old(db.online) && customerId in db.customers && NumericText(totalAmount).Some? && items != []
                && forall i :: 0 <= i < |items| ==>
                     items[i].product.id in db.products && FitsInteger(items[i].quantity) && FitsNumeric(items[i].price)
      ensures r.Ok? ==>
                var o := old(|db.orders|);
                && db.orders == old(db.orders) + [OrderRow(o, customerId, status, NumericText(totalAmount).value)]
                && db.orderItems == old(db.orderItems) + LineRows(o, items)
                && r.value == Assemble(JoinRows(db.orders, db.orderItems, db.customers, db.products, o))
                && r.value.id == o && r.value.status == status && r.value.totalAmount == NumericText(totalAmount).value
                && r.value.customer == CustomerView(customerId, db.customers[customerId].name, db.customers[customerId].email)
      ensures r.Err? ==> db.orders == old(db.orders) && db.orderItems == old(db.orderItems) && r.error.InternalServer?
    {
      var total := NumericText(totalAmount);
      if !db.online || customerId !in db.customers || total.None? || items == [] {
        return Err(InternalServer("Error creating order!"));
      }
      if exists i :: 0 <= i < |items| &&
           (items[i].product.id !in db.products || !FitsInteger(items[i].quantity) || !FitsNumeric(items[i].price)) {
        return Err(InternalServer("Error creating order!"));
      }
      var o := InsertOrder(customerId, status, items, total.value);
      r := FindOrderById(o);
      if r.Err? {
        assert false;  // the store answered the inserts, so it answers the read
      }
    }

    /** The two inserts of the `createOrder` transaction, once every constraint is known to hold. */
    method InsertOrder(customerId: Id, status: OrderStatus, items: seq<OrderItemDto>, total: string) returns (o: Id)
      requires db.Valid() && customerId in db.customers
      requires forall i :: 0 <= i < |items| ==> items[i].product.id in db.products
      modifies db`orders, db`orderItems
      ensures db.Valid()
      ensures o == old(|db.orders|)
      ensures db.orders == old(db.orders) + [OrderRow(o, customerId, status, total)]
      ensures db.orderItems == old(db.orderItems) + LineRows(o, items)
    {
      o := |db.orders|;
      var lines := LineRows(o, items);
      db.orders := db.orders + [OrderRow(o, customerId, status, total)];
      db.orderItems := db.orderItems + lines;
    }

    /** Sets the order's status to `status` whatever it was; an absent id updates nothing. */
    method UpdateOrderStatus(id: Id, status: OrderStatus) returns (r: Outcome)
      requires db.Valid()
      modifies db`orders
      ensures db.Valid()
      ensures r.Done? <==> old(db.online)
      ensures r.Done? && id < old(|db.orders|) ==>
                db.orders == old(db.orders)[id := old(db.orders)[id].(status := status)]
      ensures r.Failed? || id >= |db.orders| ==> db.orders == old(db.orders)
      ensures r.Failed? ==> r.error.InternalServer?
    {
      if !db.online {
        return Failed(InternalServer("Error updating order status!"));
      }
      if id < |db.orders| {
        db.orders := db.orders[id := db.orders[id].(status := status)];
      }
      return Done;
    }
  }

  // ---------------------------------------------------------------------------
  // Service
  // ---------------------------------------------------------------------------

  /** `OrdersService`: every method forwards to the repository. */
  class OrdersService {
    const repository: OrdersRepository

    constructor (repository: OrdersRepository)
      ensures this.repository == repository
    {
      this.repository := repository;
    }

    /** Creates the order with the validated request's status, whatever it is. */
    method CreateOrder(data: CreateOrderDto) returns (r: Result<OrderView>)
      requires repository.db.Valid()
      modifies repository.db`orders, repository.db`orderItems
      ensures repository.db.Valid()
      ensures r.Ok? <==>
                && old(repository.db.online) && data.customerId in repository.db.customers
                && NumericText(data.totalAmount).Some? && data.items != []
                && forall i :: 0 <= i < |data.items| ==>
                     && data.items[i].product.id in repository.db.products
                     && FitsInteger(data.items[i].quantity) && FitsNumeric(data.items[i].price)
      ensures r.Ok? ==>
                var o := old(|repository.db.orders|);
                && repository.db.orders == old(repository.db.orders)
                   + [OrderRow(o, data.customerId, data.status, NumericText(data.totalAmount).value)]
                && repository.db.orderItems == old(repository.db.orderItems) + LineRows(o, data.items)
                && r.value.id == o && r.value.status == data.status
                && r.value.totalAmount == NumericText(data.totalAmount).value
      ensures r.Err? ==> repository.db.orders == old(repository.db.orders)
                         && repository.db.orderItems == old(repository.db.orderItems)
    {
      r := repository.CreateOrder(data.customerId, data.status, data.items, data.totalAmount);
    }

    /** Forwards any status, with no transition rule. */
    method UpdateOrderStatus(id: Id, data: UpdateOrderStatusDto) returns (r: Outcome)
      requires repository.db.Valid()
      modifies repository.db`orders
      ensures repository.db.Valid()
      ensures r.Done? <==> old(repository.db.online)
      ensures r.Done? && id < old(|repository.db.orders|) ==>
                repository.db.orders == old(repository.db.orders)[id := old(repository.db.orders)[id].(status := data.status)]
      ensures r.Failed? || id >= |repository.db.orders| ==> repository.db.orders == old(repository.db.orders)
    {
      r := repository.UpdateOrderStatus(id, data.status);
    }

    method FindOrderById(id: Id) returns (r: Result<OrderView>)
      requires repository.db.Valid()
      ensures r.Ok? <==> repository.db.online && id < |repository.db.orders|
      ensures r.Err? ==> r.error.InternalServer?
      ensures r.Ok? ==> r.value == Assemble(JoinRows(repository.db.orders, repository.db.orderItems,
                                                     repository.db.customers, repository.db.products, id))
    {
      r := repository.FindOrderById(id);
    }
  }
}
