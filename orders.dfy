/** The order side of the workflow: the line items `checkout` freezes from a cart,
    the totals, what deleting a product does to past items (on_delete=SET_NULL),
    and which orders a distributor sees (`distributor_orders`). */
module Orders {
  import opened Common
  import opened Models

  /** The Order table: primary keys below the next one, every `order_id` set and unique. */
  ghost predicate OrdersValid(orders: map<OrderPk, Order>, nextPk: nat)
  {
    && (forall pk :: pk in orders ==> pk < nextPk && orders[pk].code != "")
    && (forall a, b :: a in orders && b in orders && a != b ==> orders[a].code != orders[b].code)
  }

  /** The OrderItem table: every item belongs to an order; a product link, when
      present, names a product that still exists. */
  ghost predicate ItemsValid(items: seq<OrderItem>, orders: map<OrderPk, Order>, products: map<ProductId, Product>)
  {
    forall i :: i in items ==> i.order in orders && (i.product.Some? ==> i.product.value in products)
  }

  lemma ItemsValidAppend(items: seq<OrderItem>, more: seq<OrderItem>, orders: map<OrderPk, Order>, products: map<ProductId, Product>)
    requires ItemsValid(items, orders, products) && ItemsValid(more, orders, products)
    ensures ItemsValid(items + more, orders, products)
  {
  }

  /** No item of a valid item table belongs to a primary key that is not in use. */
  lemma ItemsOfUnusedKey(items: seq<OrderItem>, orders: map<OrderPk, Order>, products: map<ProductId, Product>, pk: OrderPk)
    requires ItemsValid(items, orders, products) && pk !in orders
    ensures forall i :: i in items ==> i.order != pk
  {
  }

  /** The delivery fields of the checkout forms, each submitted as a string; an empty
      coordinate means no location was sent. */
  datatype DeliveryForm = DeliveryForm(name: string, phone: string, email: string, address: string, latitude: string, longitude: string)

  /** The snapshot stored on the order: the four fields verbatim, and a location only
      when both coordinates were submitted non-empty. */
  function DeliveryOf(form: DeliveryForm): (d: Delivery)
    ensures d.name == form.name && d.phone == form.phone && d.email == form.email && d.address == form.address
    ensures d.location.Some? <==> form.latitude != "" && form.longitude != ""
    ensures d.location.Some? ==> d.location.value == Location(form.latitude, form.longitude)
  {
    var location := if form.latitude != "" && form.longitude != "" then Some(Location(form.latitude, form.longitude)) else None;
    Delivery(form.name, form.phone, form.email, form.address, location)
  }

  /** `sum([item.get_total_price() for item in cart_items])`: the cart total at live prices. */
  function CartTotal(lines: seq<CartEntry>, products: map<ProductId, Product>): (r: real)
    requires forall e :: e in lines ==> e.product in products
    ensures (forall e :: e in lines ==> 0 <= products[e.product].discount <= 100 && 0.0 <= products[e.product].price) ==> 0.0 <= r
    ensures lines == [] ==> r == 0.0
  {
    if |lines| == 0 then 0.0
    else
      var last := lines[|lines| - 1];
      assert last in lines;
      CartTotal(lines[..|lines| - 1], products) + LineTotal(products[last.product], last.quantity)
  }

  /** The item `checkout` creates for one cart row: brand and model as its name,
      the discounted price of this instant, the row's quantity. */
  function FrozenItem(e: CartEntry, p: Product, pk: OrderPk): OrderItem
  {
    OrderItem(pk, Some(e.product), p.brand + " " + p.modelName, DiscountedPrice(p), e.quantity)
  }

  /** The items `checkout` creates, one per cart row and in the cart's order. */
  function FrozenItems(lines: seq<CartEntry>, products: map<ProductId, Product>, pk: OrderPk): (r: seq<OrderItem>)
    requires forall e :: e in lines ==> e.product in products
    ensures |r| == |lines|
    ensures forall k :: 0 <= k < |r| ==>
      && r[k].order == pk
      && r[k].product == Some(lines[k].product)
      && r[k].productName == products[lines[k].product].brand + " " + products[lines[k].product].modelName
      && r[k].productPrice == DiscountedPrice(products[lines[k].product])
      && r[k].quantity == lines[k].quantity
  {
    if |lines| == 0 then []
    else
      var last := lines[|lines| - 1];
      assert last in lines;
      FrozenItems(lines[..|lines| - 1], products, pk) + [FrozenItem(last, products[last.product], pk)]
  }

  lemma FrozenItemsSnoc(lines: seq<CartEntry>, n: nat, products: map<ProductId, Product>, pk: OrderPk)
    requires n < |lines| && forall e :: e in lines ==> e.product in products
    ensures forall e :: e in lines[..n] ==> e.product in products
    ensures FrozenItems(lines[..n + 1], products, pk)
         == FrozenItems(lines[..n], products, pk) + [FrozenItem(lines[n], products[lines[n].product], pk)]
  {
    assert lines[..n + 1][..n] == lines[..n];
    assert lines[n] in lines;
  }

  /** The sum of the totals of the items of order `pk`. */
  function OrderTotalOf(items: seq<OrderItem>, pk: OrderPk): real
  {
    if |items| == 0 then 0.0
    else
      var last := items[|items| - 1];
      OrderTotalOf(items[..|items| - 1], pk) + (if last.order == pk then ItemTotal(last) else 0.0)
  }

  lemma {:induction false} OrderTotalOfAppend(a: seq<OrderItem>, b: seq<OrderItem>, pk: OrderPk)
    ensures OrderTotalOf(a + b, pk) == OrderTotalOf(a, pk) + OrderTotalOf(b, pk)
    decreases |b|
  {
    if |b| > 0 {
      OrderTotalOfAppend(a, b[..|b| - 1], pk);
      assert (a + b)[..|a + b| - 1] == a + b[..|b| - 1];
    } else {
      assert a + b == a;
    }
  }

  lemma {:induction false} OrderTotalOfAbsent(items: seq<OrderItem>, pk: OrderPk)
    requires forall i :: i in items ==> i.order != pk
    ensures OrderTotalOf(items, pk) == 0.0
  {
    if |items| > 0 {
      assert items[|items| - 1] in items;
      OrderTotalOfAbsent(items[..|items| - 1], pk);
    }
  }

  /** An order whose only item is `item` has that item's total as its total. */
  lemma SingleItemTotal(items: seq<OrderItem>, item: OrderItem)
    requires forall i :: i in items ==> i.order != item.order
    ensures OrderTotalOf(items + [item], item.order) == ItemTotal(item)
  {
    OrderTotalOfAbsent(items, item.order);
    OrderTotalOfSnoc(items, item, item.order);
  }

  /** Appending one item adds its total to its own order and nothing to any other. */
  lemma OrderTotalOfSnoc(items: seq<OrderItem>, item: OrderItem, pk: OrderPk)
    ensures OrderTotalOf(items + [item], pk) == OrderTotalOf(items, pk) + (if item.order == pk then ItemTotal(item) else 0.0)
  {
    assert (items + [item])[..|items|] == items;
  }

  lemma FrozenItemsUnfold(lines: seq<CartEntry>, products: map<ProductId, Product>, pk: OrderPk)
    requires |lines| > 0 && forall e :: e in lines ==> e.product in products
    ensures lines[|lines| - 1] in lines && forall e :: e in lines[..|lines| - 1] ==> e.product in products
    ensures FrozenItems(lines, products, pk)
         == FrozenItems(lines[..|lines| - 1], products, pk) + [FrozenItem(lines[|lines| - 1], products[lines[|lines| - 1].product], pk)]
  {
    assert lines[|lines| - 1] in lines;
  }

  /** The frozen items of a cart add up to the cart's total at the moment of checkout. */
  lemma {:induction false} FrozenTotal(lines: seq<CartEntry>, products: map<ProductId, Product>, pk: OrderPk)
    requires forall e :: e in lines ==> e.product in products
    ensures OrderTotalOf(FrozenItems(lines, products, pk), pk) == CartTotal(lines, products)
  {
    if |lines| > 0 {
      var init := lines[..|lines| - 1];
      var last := lines[|lines| - 1];
      FrozenItemsUnfold(lines, products, pk);
      FrozenTotal(init, products, pk);
      var item := FrozenItem(last, products[last.product], pk);
      OrderTotalOfSnoc(FrozenItems(init, products, pk), item, pk);
      FrozenItemTotal(last, products[last.product], pk);
      CartTotalUnfold(lines, products);
    }
  }

  /** A frozen item is worth what its cart row was worth at checkout. */
  lemma FrozenItemTotal(e: CartEntry, p: Product, pk: OrderPk)
    ensures ItemTotal(FrozenItem(e, p, pk)) == LineTotal(p, e.quantity)
  {
  }

  lemma CartTotalUnfold(lines: seq<CartEntry>, products: map<ProductId, Product>)
    requires |lines| > 0 && forall e :: e in lines ==> e.product in products
    ensures lines[|lines| - 1] in lines
    ensures CartTotal(lines, products)
         == CartTotal(lines[..|lines| - 1], products) + LineTotal(products[lines[|lines| - 1].product], lines[|lines| - 1].quantity)
  {
    assert lines[|lines| - 1] in lines;
  }

  /** After checkout appends the frozen items of a fresh order to the item table,
      that order's items add up to the cart total it was created with. */
  lemma CheckoutTotalsAgree(items: seq<OrderItem>, lines: seq<CartEntry>, products: map<ProductId, Product>, pk: OrderPk)
    requires forall e :: e in lines ==> e.product in products
    requires forall i :: i in items ==> i.order != pk
    ensures OrderTotalOf(items + FrozenItems(lines, products, pk), pk) == CartTotal(lines, products)
  {
    OrderTotalOfAppend(items, FrozenItems(lines, products, pk), pk);
    OrderTotalOfAbsent(items, pk);
    FrozenTotal(lines, products, pk);
  }

  /** The order items after product `pid` is deleted: their product link is set to
      null, their frozen name, price and quantity stay. */
  function Unlinked(items: seq<OrderItem>, pid: ProductId): (r: seq<OrderItem>)
    ensures |r| == |items|
    ensures forall k :: 0 <= k < |r| ==> r[k].(product := items[k].product) == items[k]
    ensures forall k :: 0 <= k < |r| && items[k].product == Some(pid) ==> r[k].product == None
    ensures forall k :: 0 <= k < |r| && items[k].product != Some(pid) ==> r[k] == items[k]
  {
    if |items| == 0 then []
    else
      var last := items[|items| - 1];
      Unlinked(items[..|items| - 1], pid) + [if last.product == Some(pid) then last.(product := None) else last]
  }

  /** After the product's deletion sets the links to null, the item table is still valid. */
  lemma UnlinkedKeepsValid(items: seq<OrderItem>, orders: map<OrderPk, Order>, products: map<ProductId, Product>, pid: ProductId)
    requires ItemsValid(items, orders, products)
    ensures ItemsValid(Unlinked(items, pid), orders, products - {pid})
  {
    var r := Unlinked(items, pid);
    forall i | i in r
      ensures i.order in orders && (i.product.Some? ==> i.product.value in products - {pid})
    {
      var k :| 0 <= k < |r| && r[k] == i;
      assert items[k] in items;
    }
  }

  /** An item's total does not depend on its product link. */
  lemma ItemTotalIgnoresLink(i: OrderItem, link: Option<ProductId>)
    ensures ItemTotal(i.(product := link)) == ItemTotal(i)
  {
  }

  /** Deleting a product leaves every order's item total as it was. */
  lemma {:induction false} UnlinkKeepsTotals(items: seq<OrderItem>, pid: ProductId, pk: OrderPk)
    ensures OrderTotalOf(Unlinked(items, pid), pk) == OrderTotalOf(items, pk)
  {
    if |items| > 0 {
      var r := Unlinked(items, pid);
      var n := |items| - 1;
      UnlinkKeepsTotals(items[..n], pid, pk);
      assert r[..n] == Unlinked(items[..n], pid);
      ItemTotalIgnoresLink(items[n], r[n].product);
      assert r[n] == items[n].(product := r[n].product);
    }
  }

  /** The item counts for distributor `d`: its product still exists and is `d`'s. */
  predicate SoldBy(i: OrderItem, products: map<ProductId, Product>, d: UserId)
  {
    i.product.Some? && i.product.value in products && products[i.product.value].distributor == d
  }

  /** `Order.objects.filter(items__product__distributor=d).distinct()`: the orders
      with at least one item of `d`'s products, whoever sold the other items. */
  function VisibleOrders(items: seq<OrderItem>, products: map<ProductId, Product>, d: UserId): (r: set<OrderPk>)
    ensures forall pk :: pk in r <==> exists k :: 0 <= k < |items| && items[k].order == pk && SoldBy(items[k], products, d)
  {
    if |items| == 0 then {}
    else
      var init := items[..|items| - 1];
      var last := items[|items| - 1];
      var r := VisibleOrders(init, products, d) + (if SoldBy(last, products, d) then {last.order} else {});
      assert forall k :: 0 <= k < |init| ==> init[k] == items[k];
      r
  }

  /** After product `pid` is deleted, an order stays visible to `d` only through
      an item of another of `d`'s products. */
  lemma DeletedProductNoLongerCounts(items: seq<OrderItem>, products: map<ProductId, Product>, pid: ProductId, d: UserId, pk: OrderPk)
    requires pk in VisibleOrders(Unlinked(items, pid), products - {pid}, d)
    ensures exists k :: 0 <= k < |items| && items[k].order == pk && SoldBy(items[k], products, d) && items[k].product != Some(pid)
  {
    var r := Unlinked(items, pid);
    var k :| 0 <= k < |r| && r[k].order == pk && SoldBy(r[k], products - {pid}, d);
    assert r[k] == items[k];
  }
}
