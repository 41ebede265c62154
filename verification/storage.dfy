/** The relational store shared by the three services: one row type per table
    of the schema, and one object holding all the tables. Generated ids are
    modelled as row positions, so a fresh id is the current table length. */
module Storage {
  import opened Common
  import opened Enums
  import opened Columns

  type Id = nat

  /** `products`: the catalogue; never changed by the modelled code. */
  datatype Product = Product(id: Id, name: string, price: string, isActive: bool)

  /** `customers`. */
  datatype Customer = Customer(id: Id, name: string, email: string)

  /** `inventory`: one append-only ledger entry. */
  datatype Movement = Movement(productId: Id, quantity: int, kind: MovementType)

  /** `inventory_reservations`: `expiresAt` is an instant in milliseconds. */
  datatype Reservation = Reservation(
    id: Id, productId: Id, orderId: Id, quantity: int,
    status: ReservationStatus, expiresAt: int)

  /** `orders`. */
  datatype OrderRow = OrderRow(id: Id, customerId: Id, status: OrderStatus, totalAmount: string)

  /** `order_items`. */
  datatype OrderItemRow = OrderItemRow(orderId: Id, productId: Id, quantity: int, price: real)

  /** `payment`. */
  datatype PaymentRow = PaymentRow(id: Id, orderId: Id, amount: string, status: PaymentStatus)

  /** The database handle every repository is built on. `online` says whether
      the store answers: when it does not, every statement throws. */
  class Database {
    var online: bool
    var products: map<Id, Product>
    var customers: map<Id, Customer>
    var inventory: seq<Movement>
    var reservations: seq<Reservation>
    var orders: seq<OrderRow>
    var orderItems: seq<OrderItemRow>
    var payments: seq<PaymentRow>

    /** Catalogue keys match the products' ids. */
    ghost predicate ProductsValid()
      reads this`products
    {
      forall p :: p in products ==> products[p].id == p
    }

    /** Every ledger entry names a product. */
    ghost predicate InventoryValid()
      reads this`inventory, this`products
    {
      forall i :: 0 <= i < |inventory| ==> inventory[i].productId in products
    }

    /** Reservation ids are row positions, both foreign keys hold, and every
        quantity fits its `integer` column. */
    ghost predicate ReservationsValid()
      reads this`reservations, this`products, this`orders
    {
      && (forall i :: 0 <= i < |reservations| ==> reservations[i].id == i)
      && (forall i :: 0 <= i < |reservations| ==> reservations[i].productId in products)
      && (forall i :: 0 <= i < |reservations| ==> reservations[i].orderId < |orders|)
      && (forall i :: 0 <= i < |reservations| ==> FitsInteger(reservations[i].quantity))
    }

    /** Order ids are row positions and every order names a customer. */
    ghost predicate OrdersValid()
      reads this`orders, this`customers
    {
      && (forall i :: 0 <= i < |orders| ==> orders[i].id == i)
      && (forall i :: 0 <= i < |orders| ==> orders[i].customerId in customers)
    }

    /** Every order line names an order and a product. */
    ghost predicate OrderItemsValid()
      reads this`orderItems, this`orders, this`products
    {
      && (forall i :: 0 <= i < |orderItems| ==> orderItems[i].orderId < |orders|)
      && (forall i :: 0 <= i < |orderItems| ==> orderItems[i].productId in products)
    }

    /** Payment ids are row positions and every payment names an order. */
    ghost predicate PaymentsValid()
      reads this`payments, this`orders
    {
      && (forall i :: 0 <= i < |payments| ==> payments[i].id == i)
      && (forall i :: 0 <= i < |payments| ==> payments[i].orderId < |orders|)
    }

    /** Keys match the rows' ids, the foreign keys of the schema hold, and every
        reservation quantity fits its `integer` column. */
    ghost predicate Valid()
      reads this
    {
      && ProductsValid() && InventoryValid() && ReservationsValid()
      && OrdersValid() && OrderItemsValid() && PaymentsValid()
    }

    /** A store with the given catalogue and customers and empty transactional tables. */
    constructor (online: bool, products: map<Id, Product>, customers: map<Id, Customer>)
      requires forall p :: p in products ==> products[p].id == p
      ensures Valid()
      ensures this.online == online && this.products == products && this.customers == customers
      ensures inventory == [] && reservations == [] && orders == [] && orderItems == [] && payments == []
    {
      this.online := online;
      this.products := products;
      this.customers := customers;
      inventory := [];
      reservations := [];
      orders := [];
      orderItems := [];
      payments := [];
    }
  }
}
