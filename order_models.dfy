/** Orders and their line items. */
module OrderModels {
  import opened Tables
  import opened Users
  import opened Products

  /** The only three values the `status` column admits. */
  datatype Status = Pending | Paid | Shipped

  /** An order row; its id is its position in the order table. */
  datatype Order = Order(customer: UserId, status: Status)

  type OrderId = nat
  type ItemId = nat

  /** A line item: which order, which product, how many (a `PositiveIntegerField`, so never negative). */
  datatype OrderItem = OrderItem(id: ItemId, order: OrderId, product: ProductId, quantity: nat)

  /** The `quantity` column's default. */
  const DefaultQuantity: nat := 1

  /** A freshly created order: it belongs to its customer and starts out as `pending`, a cart. */
  function NewOrder(customer: UserId): (o: Order)
    ensures o.customer == customer && o.status == Pending
  {
    Order(customer, Pending)
  }

  /** A line created without an explicit quantity holds one unit. */
  function NewItem(id: ItemId, order: OrderId, product: ProductId): (it: OrderItem)
    ensures it.id == id && it.order == order && it.product == product && it.quantity == 1
  {
    OrderItem(id, order, product, DefaultQuantity)
  }

  /** The pending order of a customer: the cart. */
  predicate IsCart(o: Order, customer: UserId)
  {
    o.customer == customer && o.status == Pending
  }

  /** `order.items.all()`. */
  function OrderLines(items: seq<OrderItem>, o: OrderId): seq<OrderItem>
  {
    Filter(items, (it: OrderItem) => it.order == o)
  }

  /** Deleting an order cascades to exactly its items; every other item survives. */
  function DeleteOrderCascade(items: seq<OrderItem>, o: OrderId): (r: seq<OrderItem>)
    ensures forall it :: it in r <==> it in items && it.order != o
    ensures |r| + |OrderLines(items, o)| == |items|
  {
    FilterPartition(items, (it: OrderItem) => it.order == o, (it: OrderItem) => it.order != o);
    Filter(items, (it: OrderItem) => it.order != o)
  }

  /** Deleting a product cascades to exactly the items that reference it. */
  function DeleteProductCascade(items: seq<OrderItem>, p: ProductId): (r: seq<OrderItem>)
    ensures forall it :: it in r <==> it in items && it.product != p
  {
    Filter(items, (it: OrderItem) => it.product != p)
  }

  /** How many units of product p some lines hold in all. */
  function Ordered(lines: seq<OrderItem>, p: ProductId): nat
  {
    if lines == [] then 0
    else
      var last := lines[|lines| - 1];
      Ordered(lines[..|lines| - 1], p) + (if last.product == p then last.quantity else 0)
  }

  /** Lines that never mention p hold none of it. */
  lemma {:induction false} OrderedAbsent(lines: seq<OrderItem>, p: ProductId)
    requires forall i :: 0 <= i < |lines| ==> lines[i].product != p
    ensures Ordered(lines, p) == 0
  {
    if lines != [] {
      OrderedAbsent(lines[..|lines| - 1], p);
    }
  }

  /** When every product occurs on at most one line, the units of p are that line's quantity. */
  lemma {:induction false} OrderedSingleLine(lines: seq<OrderItem>, k: nat)
    requires k < |lines|
    requires forall i, j :: 0 <= i < j < |lines| ==> lines[i].product != lines[j].product
    ensures Ordered(lines, lines[k].product) == lines[k].quantity
  {
    var n := |lines| - 1;
    var front := lines[..n];
    if k == n {
      OrderedAbsent(front, lines[k].product);
    } else {
      OrderedSingleLine(front, k);
    }
  }
}
