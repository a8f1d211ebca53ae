/**
 * The cart and order views as a state machine over the product table, the order
 * table and the line-item table. A customer's single `pending` order is the cart.
 * The acting user is an explicit parameter, and so are the product id, item id and
 * requested quantity that the views read from the URL and the POST body.
 */
module OrderViews {
  import opened Wrappers
  import opened Tables
  import opened Users
  import opened Products
  import opened OrderModels

  /** How a view ends: success, or the redirect/HTTP error each guard produces. */
  datatype Outcome =
    | Ok
    | NotAuthenticated   // redirect to the login page
    | SellerForbidden    // sellers may not hold a cart or order
    | NotFound           // get_object_or_404
    | InvalidQuantity
    | OutOfStock
    | EmptyCart

  /** What a read-only view renders, or the redirect it answers with instead. */
  datatype Page<T> = Redirect(reason: Outcome) | Render(content: T)

  datatype CartContent = CartContent(order: Option<OrderId>, lines: seq<OrderItem>, total: int)

  function LinePrice(line: OrderItem, rows: map<ProductId, Product>): int
  {
    if line.product in rows then rows[line.product].price * line.quantity else 0
  }

  /** Σ price × quantity over some lines, in cents. */
  function Total(lines: seq<OrderItem>, rows: map<ProductId, Product>): (t: int)
    ensures lines == [] ==> t == 0
    ensures |lines| == 1 ==> t == LinePrice(lines[0], rows)
  {
    if lines == [] then 0 else LinePrice(lines[0], rows) + Total(lines[1..], rows)
  }

  /** The total of a concatenation is the sum of the totals. */
  lemma {:induction false} TotalConcat(a: seq<OrderItem>, b: seq<OrderItem>, rows: map<ProductId, Product>)
    ensures Total(a + b, rows) == Total(a, rows) + Total(b, rows)
  {
    if a != [] {
      assert (a + b)[1..] == a[1..] + b;
      TotalConcat(a[1..], b, rows);
    } else {
      assert a + b == b;
    }
  }

  /** The total depends on prices only: changing stock levels leaves it alone. */
  lemma {:induction false} TotalIgnoresStock(lines: seq<OrderItem>, rows: map<ProductId, Product>, rows': map<ProductId, Product>)
    requires rows.Keys == rows'.Keys
    requires forall p :: p in rows ==> rows'[p].price == rows[p].price
    ensures Total(lines, rows') == Total(lines, rows)
  {
    if lines != [] {
      TotalIgnoresStock(lines[1..], rows, rows');
    }
  }

  /** Changing the quantity of one line of an order moves that order's total by the price of the difference. */
  lemma LineUpdateTotal(items: seq<OrderItem>, i: nat, line: OrderItem, rows: map<ProductId, Product>)
    requires i < |items|
    requires line.order == items[i].order && line.product == items[i].product
    ensures Total(OrderLines(items[i := line], line.order), rows)
         == Total(OrderLines(items, line.order), rows) + LinePrice(line, rows) - LinePrice(items[i], rows)
  {
    var keep := (it: OrderItem) => it.order == line.order;
    var before, after := items[..i], items[i + 1..];
    assert items == before + [items[i]] + after;
    assert items[i := line] == before + [line] + after;
    FilterConcat(before + [items[i]], after, keep);
    FilterConcat(before, [items[i]], keep);
    FilterConcat(before + [line], after, keep);
    FilterConcat(before, [line], keep);
    var fb, fa := Filter(before, keep), Filter(after, keep);
    assert Filter([items[i]], keep) == [items[i]];
    assert Filter([line], keep) == [line];
    TotalConcat(fb + [items[i]], fa, rows);
    TotalConcat(fb, [items[i]], rows);
    TotalConcat(fb + [line], fa, rows);
    TotalConcat(fb, [line], rows);
  }

  /** Merging extra units into a line adds the price of those units. */
  lemma MergedLinePrice(line: OrderItem, extra: nat, rows: map<ProductId, Product>)
    ensures LinePrice(line.(quantity := line.quantity + extra), rows)
         == LinePrice(line, rows) + LinePrice(line.(quantity := extra), rows)
  {
    if line.product in rows {
      var price := rows[line.product].price;
      assert price * (line.quantity + extra) == price * line.quantity + price * extra;
    }
  }

  /** Appending a line to an order adds its price to that order's total. */
  lemma LineAppendTotal(items: seq<OrderItem>, line: OrderItem, rows: map<ProductId, Product>)
    ensures Total(OrderLines(items + [line], line.order), rows)
         == Total(OrderLines(items, line.order), rows) + LinePrice(line, rows)
  {
    var keep := (it: OrderItem) => it.order == line.order;
    FilterConcat(items, [line], keep);
    assert Filter([line], keep) == [line];
    TotalConcat(Filter(items, keep), [line], rows);
  }

  /** Deleting one line of an order removes its price from that order's total. */
  lemma LineRemoveTotal(items: seq<OrderItem>, i: nat, rows: map<ProductId, Product>)
    requires i < |items|
    ensures Total(OrderLines(RemoveAt(items, i), items[i].order), rows)
         == Total(OrderLines(items, items[i].order), rows) - LinePrice(items[i], rows)
  {
    var keep := (it: OrderItem) => it.order == items[i].order;
    var before, after := items[..i], items[i + 1..];
    assert items == before + [items[i]] + after;
    assert RemoveAt(items, i) == before + after;
    FilterConcat(before + [items[i]], after, keep);
    FilterConcat(before, [items[i]], keep);
    FilterConcat(before, after, keep);
    var fb, fa := Filter(before, keep), Filter(after, keep);
    assert Filter([items[i]], keep) == [items[i]];
    TotalConcat(fb + [items[i]], fa, rows);
    TotalConcat(fb, [items[i]], rows);
    TotalConcat(fb, fa, rows);
  }

  /** `Order.objects.get(customer=user, status='pending')`. */
  function FindCart(orders: seq<Order>, customer: UserId): (r: Option<OrderId>)
    ensures r.Some? ==> r.value < |orders| && IsCart(orders[r.value], customer)
    ensures r.Some? ==> forall o :: 0 <= o < r.value ==> !IsCart(orders[o], customer)
    ensures r.None? ==> forall o :: 0 <= o < |orders| ==> !IsCart(orders[o], customer)
  {
    Find(orders, (o: Order) => IsCart(o, customer))
  }

  /** The row `Product.objects.get(id=pid)` would return. */
  function Lookup(rows: map<ProductId, Product>, pid: ProductId): Option<Product>
  {
    if pid in rows then Some(rows[pid]) else None
  }

  /** Every line's product can cover the line's quantity right now. */
  predicate Fits(lines: seq<OrderItem>, rows: map<ProductId, Product>)
  {
    forall i :: 0 <= i < |lines| ==> lines[i].product in rows && lines[i].quantity <= rows[lines[i].product].stock
  }

  /** The guards `add_to_cart` runs, in order, before it touches any order or item. */
  function AddGuard(user: User, product: Option<Product>, quantity: int): (r: Outcome)
    ensures r == Ok <==>
              IsAuthenticated(user) && !user.isSeller && product.Some? && product.value.isActive
              && 1 <= quantity <= product.value.stock
    ensures r == NotAuthenticated <==> !IsAuthenticated(user)
    ensures r == SellerForbidden <==> IsAuthenticated(user) && user.isSeller
    ensures r == NotFound <==>
              IsAuthenticated(user) && !user.isSeller && (product.None? || !product.value.isActive)
    ensures r == InvalidQuantity <==>
              IsAuthenticated(user) && !user.isSeller && product.Some? && product.value.isActive
              && quantity <= 0
    ensures r == OutOfStock <==>
              IsAuthenticated(user) && !user.isSeller && product.Some? && product.value.isActive
              && 1 <= quantity && quantity > product.value.stock
    ensures r in {Ok, NotAuthenticated, SellerForbidden, NotFound, InvalidQuantity, OutOfStock}
  {
    if !IsAuthenticated(user) then NotAuthenticated
    else if user.isSeller then SellerForbidden
    else if product.None? || !product.value.isActive then NotFound
    else if quantity <= 0 then InvalidQuantity
    else if quantity > product.value.stock then OutOfStock
    else Ok
  }

  /** How `checkout` ends for a user against the given tables. */
  function CheckoutOutcome(user: User, orders: seq<Order>, items: seq<OrderItem>, rows: map<ProductId, Product>): (r: Outcome)
    ensures r == Ok <==>
              IsAuthenticated(user) && !user.isSeller && FindCart(orders, user.id).Some?
              && OrderLines(items, FindCart(orders, user.id).value) != []
              && Fits(OrderLines(items, FindCart(orders, user.id).value), rows)
    ensures r == NotAuthenticated <==> !IsAuthenticated(user)
    ensures r == SellerForbidden <==> IsAuthenticated(user) && user.isSeller
    ensures r == EmptyCart <==>
              IsAuthenticated(user) && !user.isSeller
              && (FindCart(orders, user.id).None? || OrderLines(items, FindCart(orders, user.id).value) == [])
    ensures r == OutOfStock <==>
              IsAuthenticated(user) && !user.isSeller && FindCart(orders, user.id).Some?
              && OrderLines(items, FindCart(orders, user.id).value) != []
              && !Fits(OrderLines(items, FindCart(orders, user.id).value), rows)
    ensures r in {Ok, NotAuthenticated, SellerForbidden, EmptyCart, OutOfStock}
  {
    if !IsAuthenticated(user) then NotAuthenticated
    else if user.isSeller then SellerForbidden
    else match FindCart(orders, user.id)
      case None => EmptyCart
      case Some(o) =>
        var lines := OrderLines(items, o);
        if lines == [] then EmptyCart
        else if !Fits(lines, rows) then OutOfStock
        else Ok
  }

  /** Two items are the same line: same order, same product. */
  predicate SameLine(a: OrderItem, b: OrderItem)
  {
    a.order == b.order && a.product == b.product
  }

  /**
   * `order_history`: the customer's orders that have left the cart state,
   * newest first (order ids grow with `created_at`).
   */
  function History(orders: seq<Order>, customer: UserId): (r: seq<OrderId>)
    ensures forall k :: 0 <= k < |r| ==>
              r[k] < |orders| && orders[r[k]].customer == customer && orders[r[k]].status != Pending
    ensures forall o :: 0 <= o < |orders| && orders[o].customer == customer && orders[o].status != Pending ==> o in r
    ensures forall a, b :: 0 <= a < b < |r| ==> r[a] > r[b]
  {
    if orders == [] then []
    else
      var n := |orders| - 1;
      var older := History(orders[..n], customer);
      if orders[n].customer == customer && orders[n].status != Pending then [n] + older else older
  }

  /** The item `itemId`, if it is a line of the customer's pending order (the lookup of `update_cart_item` and `remove_from_cart`). */
  function OwnedItem(orders: seq<Order>, items: seq<OrderItem>, customer: UserId, itemId: ItemId): (r: Option<nat>)
    ensures r.Some? ==> r.value < |items| && items[r.value].id == itemId
                        && items[r.value].order < |orders| && IsCart(orders[items[r.value].order], customer)
    ensures r.None? ==> forall i :: 0 <= i < |items| && items[i].id == itemId ==>
                          !(items[i].order < |orders| && IsCart(orders[items[i].order], customer))
  {
    Find(items, (it: OrderItem) => it.id == itemId && it.order < |orders| && IsCart(orders[it.order], customer))
  }

  /** The item of order o for product pid, if that line exists (the lookup half of `get_or_create`). */
  function FindLine(items: seq<OrderItem>, o: OrderId, pid: ProductId): (r: Option<nat>)
    ensures r.Some? ==> r.value < |items| && items[r.value].order == o && items[r.value].product == pid
    ensures r.Some? ==> forall i :: 0 <= i < r.value ==> !(items[i].order == o && items[i].product == pid)
    ensures r.None? ==> forall i :: 0 <= i < |items| ==> !(items[i].order == o && items[i].product == pid)
  {
    Find(items, (it: OrderItem) => it.order == o && it.product == pid)
  }

  /** An item refers to an existing order and product, holds at least one unit and has an allocated id. */
  predicate ItemOk(it: OrderItem, orders: seq<Order>, rows: map<ProductId, Product>, nextItemId: ItemId)
  {
    it.order < |orders| && it.product in rows && it.quantity >= 1 && it.id < nextItemId
  }

  /** No customer has two pending orders. */
  predicate OneCartEach(orders: seq<Order>)
  {
    forall a, b :: 0 <= a < b < |orders| && orders[a].status == Pending && orders[b].status == Pending ==>
      orders[a].customer != orders[b].customer
  }

  /**
   * The invariant of the order tables: every item is sound, item ids are distinct, an
   * order holds at most one line per product, and each customer has at most one cart.
   */
  predicate TablesOk(orders: seq<Order>, items: seq<OrderItem>, rows: map<ProductId, Product>, nextItemId: ItemId)
  {
    (forall i :: 0 <= i < |items| ==> ItemOk(items[i], orders, rows, nextItemId))
    && (forall i, j :: 0 <= i < j < |items| ==> items[i].id != items[j].id && !SameLine(items[i], items[j]))
    && OneCartEach(orders)
  }

  /** A customer's pending order is the one `FindCart` returns. */
  lemma CartIsUnique(orders: seq<Order>, customer: UserId, o: OrderId)
    requires OneCartEach(orders)
    requires o < |orders| && IsCart(orders[o], customer)
    ensures FindCart(orders, customer) == Some(o)
  {
    var found := FindCart(orders, customer);
    assert found.Some? ==> IsCart(orders[found.value], customer);
  }

  /** Opening a cart for a customer who has none keeps the invariant. */
  lemma NewCartKeepsTables(orders: seq<Order>, items: seq<OrderItem>, rows: map<ProductId, Product>, next: ItemId, customer: UserId)
    requires TablesOk(orders, items, rows, next)
    requires FindCart(orders, customer).None?
    ensures TablesOk(orders + [NewOrder(customer)], items, rows, next)
    ensures FindCart(orders + [NewOrder(customer)], customer) == Some(|orders|)
    ensures forall i :: 0 <= i < |items| ==> items[i].order != |orders|
  {
    var orders' := orders + [NewOrder(customer)];
    forall i | 0 <= i < |items| ensures ItemOk(items[i], orders', rows, next) {
      assert ItemOk(items[i], orders, rows, next);
    }
    assert OneCartEach(orders');
    CartIsUnique(orders', customer, |orders|);
  }

  /** Appending a new line for a product the order does not hold yet keeps the invariant. */
  lemma AppendLineKeepsTables(orders: seq<Order>, items: seq<OrderItem>, rows: map<ProductId, Product>, next: ItemId, line: OrderItem)
    requires TablesOk(orders, items, rows, next)
    requires line.id == next && ItemOk(line, orders, rows, next + 1)
    requires FindLine(items, line.order, line.product).None?
    ensures TablesOk(orders, items + [line], rows, next + 1)
    ensures FindLine(items + [line], line.order, line.product) == Some(|items|)
  {
    var items' := items + [line];
    forall i | 0 <= i < |items'| ensures ItemOk(items'[i], orders, rows, next + 1) {
      if i < |items| {
        assert ItemOk(items[i], orders, rows, next);
      }
    }
    forall i, j | 0 <= i < j < |items'| ensures items'[i].id != items'[j].id && !SameLine(items'[i], items'[j]) {
      if j == |items| {
        assert ItemOk(items[i], orders, rows, next);
      }
    }
    forall k | 0 <= k < |items| ensures !(items'[k].order == line.order && items'[k].product == line.product) {
      assert items'[k] == items[k];
    }
    assert items'[|items|] == line;
  }

  /** Giving an existing line a new positive quantity keeps the invariant and the line's position. */
  lemma SetQuantityKeepsTables(orders: seq<Order>, items: seq<OrderItem>, rows: map<ProductId, Product>, next: ItemId, i: nat, q: nat)
    requires TablesOk(orders, items, rows, next)
    requires i < |items| && q >= 1
    ensures TablesOk(orders, items[i := items[i].(quantity := q)], rows, next)
    ensures FindLine(items[i := items[i].(quantity := q)], items[i].order, items[i].product) == Some(i)
  {
    var items' := items[i := items[i].(quantity := q)];
    forall k | 0 <= k < |items'| ensures ItemOk(items'[k], orders, rows, next) {
      assert ItemOk(items[k], orders, rows, next);
    }
    forall a, b | 0 <= a < b < |items'| ensures items'[a].id != items'[b].id && !SameLine(items'[a], items'[b]) {
      assert items[a].id != items[b].id && !SameLine(items[a], items[b]);
    }
    forall k | 0 <= k < i ensures !(items'[k].order == items[i].order && items'[k].product == items[i].product) {
      assert items'[k] == items[k] && !SameLine(items[k], items[i]);
    }
    assert items'[i].order == items[i].order && items'[i].product == items[i].product;
  }

  /** Deleting a line keeps the invariant. */
  lemma RemoveKeepsTables(orders: seq<Order>, items: seq<OrderItem>, rows: map<ProductId, Product>, next: ItemId, i: nat)
    requires TablesOk(orders, items, rows, next)
    requires i < |items|
    ensures TablesOk(orders, RemoveAt(items, i), rows, next)
  {
    var items' := RemoveAt(items, i);
    forall k | 0 <= k < |items'| ensures ItemOk(items'[k], orders, rows, next) {
      var src := if k < i then k else k + 1;
      assert items'[k] == items[src] && ItemOk(items[src], orders, rows, next);
    }
    forall a, b | 0 <= a < b < |items'| ensures items'[a].id != items'[b].id && !SameLine(items'[a], items'[b]) {
      var sa, sb := if a < i then a else a + 1, if b < i then b else b + 1;
      assert items'[a] == items[sa] && items'[b] == items[sb];
      assert items[sa].id != items[sb].id && !SameLine(items[sa], items[sb]);
    }
  }

  /** Marking an order paid, and changing stock levels, keep the invariant. */
  lemma PayKeepsTables(orders: seq<Order>, items: seq<OrderItem>, rows: map<ProductId, Product>, rows': map<ProductId, Product>, next: ItemId, o: OrderId)
    requires TablesOk(orders, items, rows, next)
    requires o < |orders| && rows'.Keys == rows.Keys
    ensures TablesOk(orders[o := orders[o].(status := Paid)], items, rows', next)
  {
    var orders' := orders[o := orders[o].(status := Paid)];
    forall k | 0 <= k < |items| ensures ItemOk(items[k], orders', rows', next) {
      assert ItemOk(items[k], orders, rows, next);
    }
    forall a, b | 0 <= a < b < |orders'| && orders'[a].status == Pending && orders'[b].status == Pending
      ensures orders'[a].customer != orders'[b].customer
    {
      assert orders'[a] == orders[a] && orders'[b] == orders[b];
    }
  }

  /** The lines of one order name distinct products. */
  lemma LinesDistinct(orders: seq<Order>, items: seq<OrderItem>, rows: map<ProductId, Product>, next: ItemId, o: OrderId)
    requires TablesOk(orders, items, rows, next)
    ensures forall i, j :: 0 <= i < j < |OrderLines(items, o)| ==>
              OrderLines(items, o)[i].product != OrderLines(items, o)[j].product
  {
    var keep := (it: OrderItem) => it.order == o;
    var rel := (a: OrderItem, b: OrderItem) => !SameLine(a, b);
    FilterPairwise(items, keep, rel);
    var lines := OrderLines(items, o);
    forall i, j | 0 <= i < j < |lines| ensures lines[i].product != lines[j].product {
      assert lines[i] in lines && lines[j] in lines;
      assert rel(lines[i], lines[j]);
    }
  }

  /** The stock of each product has fallen by the units `lines` hold of it, and nothing else has changed. */
  predicate StockTaken(start: map<ProductId, Product>, rows: map<ProductId, Product>, lines: seq<OrderItem>)
  {
    rows.Keys == start.Keys
    && forall p :: p in rows ==>
         rows[p] == start[p].(stock := rows[p].stock) && rows[p].stock + Ordered(lines, p) == start[p].stock
  }

  /** Taking the next line's units off its product extends `StockTaken` by that line. */
  lemma DeductStep(start: map<ProductId, Product>, rows: map<ProductId, Product>, lines: seq<OrderItem>, j: nat)
    requires j < |lines| && Fits(lines, start)
    requires forall a, b :: 0 <= a < b < |lines| ==> lines[a].product != lines[b].product
    requires StockTaken(start, rows, lines[..j])
    ensures lines[j].product in rows && lines[j].quantity <= rows[lines[j].product].stock
    ensures var row := rows[lines[j].product];
            StockTaken(start, rows[lines[j].product := row.(stock := row.stock - lines[j].quantity)], lines[..j + 1])
  {
    var line := lines[j];
    OrderedAbsent(lines[..j], line.product);
    assert lines[..j + 1][..j] == lines[..j];
  }

  /** The cart and order tables of the marketplace, over its product table. */
  class Shop {
    const catalog: Catalog
    var orders: seq<Order>
    var items: seq<OrderItem>
    var nextItemId: ItemId

    ghost predicate Valid()
      reads this, catalog
    {
      catalog.Valid() && TablesOk(orders, items, catalog.rows, nextItemId)
    }

    constructor (catalog: Catalog)
      requires catalog.Valid()
      ensures Valid() && this.catalog == catalog
      ensures orders == [] && items == []
    {
      this.catalog := catalog;
      orders := [];
      items := [];
      nextItemId := 1;
    }

    /** `cart_view`: the cart's lines and total, with an empty cart totalling 0 when there is no pending order. */
    function CartView(user: User): (page: Page<CartContent>)
      reads this, catalog
      ensures !IsAuthenticated(user) ==> page == Redirect(NotAuthenticated)
      ensures IsAuthenticated(user) && user.isSeller ==> page == Redirect(SellerForbidden)
      ensures IsAuthenticated(user) && !user.isSeller ==>
                page.Render? && page.content.order == FindCart(orders, user.id)
                && (page.content.order.None? ==> page.content.lines == [] && page.content.total == 0)
                && (page.content.order.Some? ==> page.content.lines == OrderLines(items, page.content.order.value))
                && page.content.total == Total(page.content.lines, catalog.rows)
    {
      if !IsAuthenticated(user) then Redirect(NotAuthenticated)
      else if user.isSeller then Redirect(SellerForbidden)
      else match FindCart(orders, user.id)
        case None => Render(CartContent(None, [], 0))
        case Some(o) =>
          var lines := OrderLines(items, o);
          Render(CartContent(Some(o), lines, Total(lines, catalog.rows)))
    }

    /** The cart total `cart_view` shows (0 for a redirect). */
    function CartTotal(user: User): int
      reads this, catalog
    {
      match CartView(user)
      case Redirect(_) => 0
      case Render(c) => c.total
    }

    /** `order_history`: sellers and anonymous users are redirected. */
    function OrderHistory(user: User): (page: Page<seq<OrderId>>)
      reads this
      ensures !IsAuthenticated(user) ==> page == Redirect(NotAuthenticated)
      ensures IsAuthenticated(user) && user.isSeller ==> page == Redirect(SellerForbidden)
      ensures IsAuthenticated(user) && !user.isSeller ==> page == Render(History(orders, user.id))
    {
      if !IsAuthenticated(user) then Redirect(NotAuthenticated)
      else if user.isSeller then Redirect(SellerForbidden)
      else Render(History(orders, user.id))
    }

    /**
     * `Order.objects.get_or_create(customer=..., status='pending')`: the customer's cart,
     * created empty when they have none.
     */
    method OpenCart(customer: UserId) returns (o: OrderId)
      requires Valid()
      modifies this
      ensures Valid()
      ensures items == old(items) && nextItemId == old(nextItemId)
      ensures orders == (if FindCart(old(orders), customer).Some? then old(orders) else old(orders) + [NewOrder(customer)])
      ensures FindCart(orders, customer) == Some(o)
      ensures FindCart(old(orders), customer).Some? ==> o == FindCart(old(orders), customer).value
      ensures FindCart(old(orders), customer).None? ==> OrderLines(items, o) == []
      ensures FindCart(old(orders), customer).None? ==> forall i :: 0 <= i < |items| ==> items[i].order != o
    {
      match FindCart(orders, customer) {
        case Some(k) =>
          o := k;
        case None =>
          NewCartKeepsTables(orders, items, catalog.rows, nextItemId, customer);
          o := |orders|;
          orders := orders + [NewOrder(customer)];
          FilterNone(items, (it: OrderItem) => it.order == o);
      }
    }

    /** Adds `quantity` units to line i, unless the sum would exceed `stock`. */
    method MergeLine(i: nat, quantity: nat, stock: nat) returns (ok: bool)
      requires Valid() && i < |items|
      modifies this
      ensures Valid() && orders == old(orders) && nextItemId == old(nextItemId)
      ensures ok <==> old(items)[i].quantity + quantity <= stock
      ensures ok ==> items == old(items)[i := old(items)[i].(quantity := old(items)[i].quantity + quantity)]
      ensures !ok ==> items == old(items)
      ensures ok ==> Total(OrderLines(items, old(items)[i].order), catalog.rows)
                     == Total(OrderLines(old(items), old(items)[i].order), catalog.rows) + LinePrice(old(items)[i].(quantity := quantity), catalog.rows)
    {
      var merged := items[i].quantity + quantity;
      if merged > stock {
        return false;
      }
      var line := items[i].(quantity := merged);
      LineUpdateTotal(items, i, line, catalog.rows);
      MergedLinePrice(items[i], quantity, catalog.rows);
      SetQuantityKeepsTables(orders, items, catalog.rows, nextItemId, i, merged);
      items := items[i := line];
      ok := true;
    }

    /** Creates the line of order o for product pid, holding `quantity` units. */
    method AppendLine(o: OrderId, pid: ProductId, quantity: nat)
      requires Valid()
      requires o < |orders| && pid in catalog.rows && quantity >= 1
      requires FindLine(items, o, pid).None?
      modifies this
      ensures Valid() && orders == old(orders) && nextItemId == old(nextItemId) + 1
      ensures items == old(items) + [OrderItem(old(nextItemId), o, pid, quantity)]
      ensures Total(OrderLines(items, o), catalog.rows)
              == Total(OrderLines(old(items), o), catalog.rows) + catalog.rows[pid].price * quantity
    {
      var line := NewItem(nextItemId, o, pid).(quantity := quantity);
      LineAppendTotal(items, line, catalog.rows);
      AppendLineKeepsTables(orders, items, catalog.rows, nextItemId, line);
      items := items + [line];
      nextItemId := nextItemId + 1;
    }

    /**
     * `add_to_cart`: after the guards, find or create the pending order, then merge the
     * quantity into the existing line for the product (refusing a merged quantity above
     * stock) or create the line.
     */
    method AddToCart(user: User, pid: ProductId, quantity: int) returns (outcome: Outcome)
      requires Valid()
      modifies this
      ensures Valid()
      ensures AddGuard(user, Lookup(catalog.rows, pid), quantity) != Ok ==>
                outcome == AddGuard(user, Lookup(catalog.rows, pid), quantity)
      ensures outcome != Ok ==> orders == old(orders) && items == old(items) && nextItemId == old(nextItemId)
      ensures outcome == Ok ==>
                AddGuard(user, Lookup(catalog.rows, pid), quantity) == Ok
                && orders == (if FindCart(old(orders), user.id).Some? then old(orders) else old(orders) + [NewOrder(user.id)])
                && FindCart(orders, user.id).Some?
                && var o := FindCart(orders, user.id).value;
                   match FindLine(old(items), o, pid)
                   case Some(i) =>
                     items == old(items)[i := old(items)[i].(quantity := old(items)[i].quantity + quantity)]
                     && items[i].quantity <= catalog.rows[pid].stock
                   case None =>
                     items == old(items) + [OrderItem(old(nextItemId), o, pid, quantity)]
      ensures outcome == Ok ==>
                CartTotal(user) == old(CartTotal(user)) + catalog.rows[pid].price * quantity
      ensures AddGuard(user, Lookup(catalog.rows, pid), quantity) == Ok ==>
                (outcome == Ok || outcome == OutOfStock)
                && (outcome == OutOfStock <==>
                      FindCart(old(orders), user.id).Some?
                      && var o := FindCart(old(orders), user.id).value;
                         FindLine(old(items), o, pid).Some?
                         && old(items)[FindLine(old(items), o, pid).value].quantity + quantity > catalog.rows[pid].stock)
    {
      var product := Lookup(catalog.rows, pid);
      outcome := AddGuard(user, product, quantity);
      if outcome != Ok {
        return;
      }
      var o := OpenCart(user.id);
      match FindLine(items, o, pid) {
        case Some(i) =>
          var ok := MergeLine(i, quantity, product.value.stock);
          if !ok {
            outcome := OutOfStock;
          }
        case None =>
          AppendLine(o, pid, quantity);
      }
    }

    /**
     * `update_cart_item`: on a line of the caller's own cart, a quantity of 0 or less
     * deletes the line, a quantity above the product's stock changes nothing, and any
     * other quantity replaces the line's quantity.
     */
    method UpdateCartItem(user: User, itemId: ItemId, quantity: int) returns (outcome: Outcome)
      requires Valid()
      modifies this
      ensures Valid()
      ensures orders == old(orders) && nextItemId == old(nextItemId)
      ensures !IsAuthenticated(user) ==> outcome == NotAuthenticated
      ensures IsAuthenticated(user) && user.isSeller ==> outcome == SellerForbidden
      ensures IsAuthenticated(user) && !user.isSeller && OwnedItem(orders, old(items), user.id, itemId).None? ==>
                outcome == NotFound
      ensures outcome != Ok ==> items == old(items)
      ensures IsAuthenticated(user) && !user.isSeller && OwnedItem(orders, old(items), user.id, itemId).Some? ==>
                var i := OwnedItem(orders, old(items), user.id, itemId).value;
                var it := old(items)[i];
                if quantity <= 0 then
                  outcome == Ok && items == RemoveAt(old(items), i)
                  && CartTotal(user) == old(CartTotal(user)) - LinePrice(it, catalog.rows)
                else if quantity > catalog.rows[it.product].stock then
                  outcome == OutOfStock
                else
                  outcome == Ok && items == old(items)[i := it.(quantity := quantity)]
                  && CartTotal(user) == old(CartTotal(user)) + LinePrice(it.(quantity := quantity), catalog.rows) - LinePrice(it, catalog.rows)
    {
      if !IsAuthenticated(user) {
        return NotAuthenticated;
      }
      if user.isSeller {
        return SellerForbidden;
      }
      var found := OwnedItem(orders, items, user.id, itemId);
      if found.None? {
        return NotFound;
      }
      var i := found.value;
      var it := items[i];
      CartIsUnique(orders, user.id, it.order);
      assert ItemOk(it, orders, catalog.rows, nextItemId);
      if quantity <= 0 {
        LineRemoveTotal(items, i, catalog.rows);
        RemoveKeepsTables(orders, items, catalog.rows, nextItemId, i);
        items := RemoveAt(items, i);
        outcome := Ok;
      } else if quantity > catalog.rows[it.product].stock {
        outcome := OutOfStock;
      } else {
        var line := it.(quantity := quantity);
        LineUpdateTotal(items, i, line, catalog.rows);
        SetQuantityKeepsTables(orders, items, catalog.rows, nextItemId, i, quantity);
        items := items[i := line];
        outcome := Ok;
      }
    }

    /** `remove_from_cart`: deletes exactly that line of the caller's cart and nothing else. */
    method RemoveFromCart(user: User, itemId: ItemId) returns (outcome: Outcome)
      requires Valid()
      modifies this
      ensures Valid()
      ensures orders == old(orders) && nextItemId == old(nextItemId)
      ensures !IsAuthenticated(user) ==> outcome == NotAuthenticated
      ensures IsAuthenticated(user) && user.isSeller ==> outcome == SellerForbidden
      ensures IsAuthenticated(user) && !user.isSeller ==>
                (outcome == Ok <==> OwnedItem(orders, old(items), user.id, itemId).Some?)
                && (outcome != Ok ==> outcome == NotFound)
      ensures outcome != Ok ==> items == old(items)
      ensures outcome == Ok ==>
                var i := OwnedItem(orders, old(items), user.id, itemId).value;
                items == RemoveAt(old(items), i)
                && CartTotal(user) == old(CartTotal(user)) - LinePrice(old(items)[i], catalog.rows)
    {
      if !IsAuthenticated(user) {
        return NotAuthenticated;
      }
      if user.isSeller {
        return SellerForbidden;
      }
      var found := OwnedItem(orders, items, user.id, itemId);
      if found.None? {
        return NotFound;
      }
      var i := found.value;
      CartIsUnique(orders, user.id, items[i].order);
      LineRemoveTotal(items, i, catalog.rows);
      RemoveKeepsTables(orders, items, catalog.rows, nextItemId, i);
      items := RemoveAt(items, i);
      outcome := Ok;
    }

    /** The stock re-check of `checkout`: does every line still fit its product's current stock? */
    method StockCovers(lines: seq<OrderItem>) returns (ok: bool)
      requires forall i :: 0 <= i < |lines| ==> lines[i].product in catalog.rows
      ensures ok == Fits(lines, catalog.rows)
    {
      var j := 0;
      while j < |lines|
        invariant 0 <= j <= |lines|
        invariant forall i :: 0 <= i < j ==> lines[i].quantity <= catalog.rows[lines[i].product].stock
      {
        if lines[j].quantity > catalog.rows[lines[j].product].stock {
          return false;
        }
        j := j + 1;
      }
      return true;
    }

    /** The stock update of `checkout`: each line's quantity comes off its product's stock, exactly once. */
    method DeductStock(lines: seq<OrderItem>)
      requires catalog.Valid() && Fits(lines, catalog.rows)
      requires forall i, j :: 0 <= i < j < |lines| ==> lines[i].product != lines[j].product
      modifies catalog
      ensures catalog.Valid() && catalog.nextId == old(catalog.nextId)
      ensures catalog.rows.Keys == old(catalog.rows).Keys
      ensures forall p :: p in catalog.rows ==>
                catalog.rows[p] == old(catalog.rows)[p].(stock := catalog.rows[p].stock)
                && catalog.rows[p].stock + Ordered(lines, p) == old(catalog.rows)[p].stock
    {
      var j := 0;
      while j < |lines|
        invariant 0 <= j <= |lines|
        invariant catalog.Valid() && catalog.nextId == old(catalog.nextId)
        invariant StockTaken(old(catalog.rows), catalog.rows, lines[..j])
      {
        var line := lines[j];
        DeductStep(old(catalog.rows), catalog.rows, lines, j);
        var row := catalog.rows[line.product];
        catalog.rows := catalog.rows[line.product := row.(stock := row.stock - line.quantity)];
        j := j + 1;
      }
      assert lines[..|lines|] == lines;
    }

    /**
     * `checkout`: re-check every line of the cart against current stock; if one fails,
     * change nothing. Otherwise take each line's quantity off its product's stock, mark
     * the order paid and report the total, computed after the stock update as the view
     * does; since the total depends on prices only, it is the cart's total.
     */
    method Checkout(user: User) returns (outcome: Outcome, total: int)
      requires Valid()
      modifies this, catalog
      ensures Valid()
      ensures outcome == CheckoutOutcome(user, old(orders), old(items), old(catalog.rows))
      ensures items == old(items) && nextItemId == old(nextItemId) && catalog.nextId == old(catalog.nextId)
      ensures outcome != Ok ==> orders == old(orders) && catalog.rows == old(catalog.rows) && total == 0
      ensures outcome == Ok ==>
                var o := FindCart(old(orders), user.id).value;
                var lines := OrderLines(old(items), o);
                orders == old(orders)[o := old(orders)[o].(status := Paid)]
                && catalog.rows.Keys == old(catalog.rows).Keys
                && (forall p :: p in catalog.rows ==>
                      catalog.rows[p] == old(catalog.rows)[p].(stock := catalog.rows[p].stock)
                      && catalog.rows[p].stock + Ordered(lines, p) == old(catalog.rows)[p].stock)
                && total == old(CartTotal(user))
    {
      if !IsAuthenticated(user) {
        return NotAuthenticated, 0;
      }
      if user.isSeller {
        return SellerForbidden, 0;
      }
      var cart := FindCart(orders, user.id);
      if cart.None? {
        return EmptyCart, 0;
      }
      var o := cart.value;
      var lines := OrderLines(items, o);
      if lines == [] {
        return EmptyCart, 0;
      }
      forall i | 0 <= i < |lines| ensures lines[i].product in catalog.rows {
        assert lines[i] in items;
        var k :| 0 <= k < |items| && items[k] == lines[i];
        assert ItemOk(items[k], orders, catalog.rows, nextItemId);
      }
      var fits := StockCovers(lines);
      if !fits {
        return OutOfStock, 0;
      }
      LinesDistinct(orders, items, catalog.rows, nextItemId, o);
      ghost var before := catalog.rows;
      DeductStock(lines);
      total := Total(lines, catalog.rows);
      TotalIgnoresStock(lines, before, catalog.rows);
      PayKeepsTables(orders, items, before, catalog.rows, nextItemId, o);
      orders := orders[o := orders[o].(status := Paid)];
      outcome := Ok;
    }
  }
}
