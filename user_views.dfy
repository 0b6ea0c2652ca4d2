/** The customer views of user/views.py as atomic steps on the database:
    signup, the cart, checkout, payment, reviews and the buy-now path.
    The views that check the request method change anything only on POST, and only
    that branch is modelled; `buy_now` and `remove_from_cart` do not check it and act
    on every request. Welcome e-mails and SMS are best-effort and change no state. */
module UserViews {
  import opened Common
  import opened Models
  import Accounts
  import Carts
  import Orders
  import Reviews
  import opened Store

  /** The payment method that is implemented. */
  const CashOnDelivery: string := "cod"

  /** `signup`: the four checks, then `create_user` with the submitted `user_type`
      ("user" when the field is absent). */
  method Signup(db: Database, form: Accounts.SignupForm, requestedType: Option<string>) returns (r: Result<UserId>)
    requires db.Valid()
    modifies db
    ensures db.Valid()
    ensures Accounts.SignupCheck(old(db.users), form).Some? ==>
      r == Err(Accounts.SignupCheck(old(db.users), form).value) && db.users == old(db.users)
    ensures r.Ok? <==> Accounts.SignupCheck(old(db.users), form) == None && form.username != ""
                       && !Accounts.UsernameRegistered(old(db.users), form.username)
    ensures r == Err(EmptyUsername) <==> Accounts.SignupCheck(old(db.users), form) == None && form.username == ""
    ensures r == Err(IntegrityError) <==> (Accounts.SignupCheck(old(db.users), form) == None && form.username != ""
                                          && Accounts.UsernameRegistered(old(db.users), form.username))
    ensures r.Err? ==> db.users == old(db.users)
    ensures r.Ok? ==> r.value !in old(db.users) && db.users == old(db.users)[r.value :=
      User(form.username, form.email, form.phone, if requestedType.Some? then requestedType.value else CustomerType)]
    ensures db.products == old(db.products) && db.carts == old(db.carts) && db.orders == old(db.orders)
    ensures db.items == old(db.items) && db.reviews == old(db.reviews)
  {
    var check := Accounts.SignupCheck(db.users, form);
    if check.Some? {
      return Err(check.value);
    }
    var userType := if requestedType.Some? then requestedType.value else CustomerType;
    r := db.CreateUser(form, userType);
  }

  /** `add_to_cart`: the product must exist and have at least `quantity` in stock;
      then the user's row for it grows by `quantity`, or a new row is created. */
  method AddToCart(db: Database, user: UserId, product: ProductId, quantity: int) returns (r: Outcome)
    requires db.Valid()
    modifies db
    ensures db.Valid()
    ensures var spec := Carts.AddToCart(old(db.products), old(db.carts), user, product, quantity, old(db.nextCartId));
      && (spec.Ok? ==> r == Done && db.carts == spec.value)
      && (spec.Err? ==> r == Failed(spec.failure) && db.carts == old(db.carts))
    ensures db.users == old(db.users) && db.products == old(db.products) && db.orders == old(db.orders)
    ensures db.items == old(db.items) && db.reviews == old(db.reviews)
  {
    if product !in db.products {
      return Failed(NotFound);
    }
    if db.products[product].stock < quantity {
      return Failed(InsufficientStock);
    }
    var found := Carts.FindLine(db.carts, user, product);
    match found {
      case None =>
        if quantity < 0 {
          return Failed(IntegrityError);
        }
        Carts.AddedKeepsValid(db.carts, db.products, db.nextCartId, user, product, quantity);
        db.carts := [CartEntry(db.nextCartId, user, product, quantity)] + db.carts;
        db.nextCartId := db.nextCartId + 1;
      case Some(k) =>
        var q := db.carts[k].quantity + quantity;
        if q < 0 {
          return Failed(IntegrityError);
        }
        Carts.AddedKeepsValid(db.carts, db.products, db.nextCartId, user, product, quantity);
        db.carts := db.carts[k := db.carts[k].(quantity := q)];
    }
    r := Done;
  }

  /** `update_cart`: the row must be the user's; a positive quantity replaces its
      quantity, anything else deletes it. */
  method UpdateCart(db: Database, user: UserId, id: CartId, quantity: int) returns (r: Outcome)
    requires db.Valid()
    modifies db
    ensures db.Valid()
    ensures var spec := Carts.Updated(old(db.carts), user, id, quantity);
      && (spec.None? ==> r == Failed(NotFound) && db.carts == old(db.carts))
      && (spec.Some? ==> r == Done && db.carts == spec.value)
    ensures db.users == old(db.users) && db.products == old(db.products) && db.orders == old(db.orders)
    ensures db.items == old(db.items) && db.reviews == old(db.reviews)
  {
    var found := Carts.FindOwnLine(db.carts, user, id);
    if found.None? {
      return Failed(NotFound);
    }
    var k := found.value;
    Carts.UpdatedKeepsValid(db.carts, db.products, db.nextCartId, user, id, quantity);
    if quantity > 0 {
      db.carts := db.carts[k := db.carts[k].(quantity := quantity)];
    } else {
      Carts.RemoveAtIsFilter(db.carts, k);
      db.carts := db.carts[..k] + db.carts[k + 1..];
    }
    r := Done;
  }

  /** `remove_from_cart`: deletes the row when it is the user's. */
  method RemoveFromCart(db: Database, user: UserId, id: CartId) returns (r: Outcome)
    requires db.Valid()
    modifies db
    ensures db.Valid()
    ensures var spec := Carts.Removed(old(db.carts), user, id);
      && (spec.None? ==> r == Failed(NotFound) && db.carts == old(db.carts))
      && (spec.Some? ==> r == Done && db.carts == spec.value)
    ensures db.users == old(db.users) && db.products == old(db.products) && db.orders == old(db.orders)
    ensures db.items == old(db.items) && db.reviews == old(db.reviews)
  {
    var found := Carts.FindOwnLine(db.carts, user, id);
    if found.None? {
      return Failed(NotFound);
    }
    var k := found.value;
    Carts.RemoveAtIsFilter(db.carts, k);
    Carts.FilterKeepsValid(db.carts, db.products, db.nextCartId, Carts.NotWithId(id));
    db.carts := db.carts[..k] + db.carts[k + 1..];
    r := Done;
  }

  /** `checkout` (POST): refuses an empty cart; otherwise creates one pending order
      whose total is the cart total, one frozen item per cart row, and empties the
      user's cart. Stock is neither checked nor changed. */
  method Checkout(db: Database, user: UserId, form: Orders.DeliveryForm, now: string) returns (r: Result<OrderPk>)
    requires db.Valid()
    modifies db
    ensures db.Valid()
    ensures r == Err(EmptyCart) <==> Carts.Filter(old(db.carts), Carts.OwnedBy(user)) == []
    ensures r.Err? ==> r.failure in {EmptyCart, IntegrityError}
    ensures r == Err(IntegrityError) <==> Carts.Filter(old(db.carts), Carts.OwnedBy(user)) != [] && CodeInUse(old(db.orders), OrderCode(now))
    ensures r.Err? ==> db.orders == old(db.orders) && db.items == old(db.items) && db.carts == old(db.carts)
    ensures r.Ok? ==>
      var lines := Carts.Filter(old(db.carts), Carts.OwnedBy(user));
      && r.value == old(db.nextOrderPk) && r.value !in old(db.orders)
      && db.orders == old(db.orders)[r.value := Order(user, OrderCode(now), Orders.DeliveryOf(form),
                                                      Orders.CartTotal(lines, old(db.products)), StatusPending, PaymentPending)]
      && db.items == old(db.items) + Orders.FrozenItems(lines, old(db.products), r.value)
      && Orders.OrderTotalOf(db.items, r.value) == db.orders[r.value].total
      && db.carts == Carts.Filter(old(db.carts), Carts.NotOwnedBy(user))
      && Carts.Filter(db.carts, Carts.OwnedBy(user)) == []
      && forall u :: u != user ==> Carts.Filter(db.carts, Carts.OwnedBy(u)) == Carts.Filter(old(db.carts), Carts.OwnedBy(u))
    ensures db.users == old(db.users) && db.products == old(db.products) && db.reviews == old(db.reviews)
  {
    var lines := Carts.Filter(db.carts, Carts.OwnedBy(user));
    if |lines| == 0 {
      return Err(EmptyCart);
    }
    var total := Orders.CartTotal(lines, db.products);
    Orders.ItemsOfUnusedKey(db.items, db.orders, db.products, db.nextOrderPk);
    var pk, ok := db.CreateOrder(NewOrder(user, Orders.DeliveryOf(form), total), now);
    if !ok {
      return Err(IntegrityError);
    }
    assert forall e :: e in lines ==> e.product in db.products;
    CreateItems(db, lines, pk);
    Orders.CheckoutTotalsAgree(old(db.items), lines, db.products, pk);
    ClearCart(db, user);
    r := Ok(pk);
  }

  /** `cart_items.delete()`: all of the user's rows go, every other row stays. */
  method ClearCart(db: Database, user: UserId)
    requires db.Valid()
    modifies db
    ensures db.Valid()
    ensures db.carts == Carts.Filter(old(db.carts), Carts.NotOwnedBy(user))
    ensures Carts.Filter(db.carts, Carts.OwnedBy(user)) == []
    ensures forall u :: u != user ==> Carts.Filter(db.carts, Carts.OwnedBy(u)) == Carts.Filter(old(db.carts), Carts.OwnedBy(u))
    ensures db.users == old(db.users) && db.products == old(db.products) && db.orders == old(db.orders)
    ensures db.items == old(db.items) && db.reviews == old(db.reviews)
    ensures db.nextUserId == old(db.nextUserId) && db.nextProductId == old(db.nextProductId)
    ensures db.nextCartId == old(db.nextCartId) && db.nextOrderPk == old(db.nextOrderPk)
  {
    Carts.FilterKeepsValid(db.carts, db.products, db.nextCartId, Carts.NotOwnedBy(user));
    var rest := Carts.Filter(db.carts, Carts.NotOwnedBy(user));
    forall u | u != user
      ensures Carts.Filter(rest, Carts.OwnedBy(u)) == Carts.Filter(db.carts, Carts.OwnedBy(u))
    {
      Carts.FilterFilter(db.carts, Carts.NotOwnedBy(user), Carts.OwnedBy(u));
    }
    Carts.FilterEmpty(rest, Carts.OwnedBy(user));
    db.carts := rest;
  }

  /** The `checkout` loop: one `OrderItem.objects.create` per cart row, freezing the
      product's name and discounted price as they are now. */
  method CreateItems(db: Database, lines: seq<CartEntry>, pk: OrderPk)
    requires db.Valid() && pk in db.orders
    requires forall e :: e in lines ==> e.product in db.products
    modifies db
    ensures db.Valid()
    ensures db.users == old(db.users) && db.products == old(db.products) && db.carts == old(db.carts)
    ensures db.items == old(db.items) + Orders.FrozenItems(lines, old(db.products), pk)
    ensures db.orders == old(db.orders) && db.reviews == old(db.reviews)
    ensures db.nextUserId == old(db.nextUserId) && db.nextProductId == old(db.nextProductId)
    ensures db.nextCartId == old(db.nextCartId) && db.nextOrderPk == old(db.nextOrderPk)
  {
    assert lines[..0] == [];
    var i := 0;
    while i < |lines|
      invariant 0 <= i <= |lines|
      invariant db.users == old(db.users) && db.products == old(db.products) && db.carts == old(db.carts)
      invariant db.Valid()
      invariant db.items == old(db.items) + Orders.FrozenItems(lines[..i], db.products, pk)
      invariant db.orders == old(db.orders) && db.reviews == old(db.reviews)
      invariant db.nextUserId == old(db.nextUserId) && db.nextProductId == old(db.nextProductId)
      invariant db.nextCartId == old(db.nextCartId) && db.nextOrderPk == old(db.nextOrderPk)
    {
      var e := lines[i];
      var p := db.products[e.product];
      var item := OrderItem(pk, Some(e.product), p.brand + " " + p.modelName, DiscountedPrice(p), e.quantity);
      Orders.FrozenItemsSnoc(lines, i, db.products, pk);
      db.CreateItem(item);
      i := i + 1;
    }
    assert lines[..i] == lines;
  }

  datatype PaymentOutcome =
    | ConfirmedCashOnDelivery(pk: OrderPk)   // "cod": the order is confirmed, payment stays pending
    | NotYetSupported(pk: OrderPk)           // any other method: a notice, no change
    | OrderNotFound

  /** The order with identifier `code` that belongs to `user`. */
  predicate OrderOf(orders: map<OrderPk, Order>, pk: OrderPk, code: string, user: UserId)
  {
    pk in orders && orders[pk].code == code && orders[pk].user == user
  }

  /** `process_payment`: only the user's own order is found; "cod" confirms it and
      keeps the payment pending, any other method changes nothing. */
  method ProcessPayment(db: Database, user: UserId, code: string, paymentMethod: string, now: string) returns (r: PaymentOutcome)
    requires db.Valid()
    modifies db
    ensures db.Valid()
    ensures r == OrderNotFound <==> forall pk :: pk in old(db.orders) ==> !OrderOf(old(db.orders), pk, code, user)
    ensures r == OrderNotFound ==> db.orders == old(db.orders)
    ensures r.ConfirmedCashOnDelivery? ==>
      && paymentMethod == CashOnDelivery && OrderOf(old(db.orders), r.pk, code, user)
      && db.orders == old(db.orders)[r.pk := old(db.orders)[r.pk].(status := StatusConfirmed, paymentStatus := PaymentPending)]
    ensures r.NotYetSupported? ==>
      paymentMethod != CashOnDelivery && OrderOf(old(db.orders), r.pk, code, user) && db.orders == old(db.orders)
    ensures r != OrderNotFound && paymentMethod == CashOnDelivery ==> r.ConfirmedCashOnDelivery?
    ensures db.users == old(db.users) && db.products == old(db.products) && db.carts == old(db.carts)
    ensures db.items == old(db.items) && db.reviews == old(db.reviews)
  {
    if !exists pk :: pk in db.orders && OrderOf(db.orders, pk, code, user) {
      return OrderNotFound;
    }
    var pk :| pk in db.orders && OrderOf(db.orders, pk, code, user);
    if paymentMethod == CashOnDelivery {
      var o := db.orders[pk];
      o := o.(paymentStatus := PaymentPending);
      o := o.(status := StatusConfirmed);
      db.SaveOrder(pk, o, now);
      return ConfirmedCashOnDelivery(pk);
    }
    r := NotYetSupported(pk);
  }

  /** `add_review`: upserts the user's review of an existing product. */
  method AddReview(db: Database, user: UserId, product: ProductId, rating: int, comment: string) returns (r: Outcome)
    requires db.Valid()
    modifies db
    ensures db.Valid()
    ensures product !in old(db.products) ==> r == Failed(NotFound) && db.reviews == old(db.reviews)
    ensures product in old(db.products) ==>
      var spec := Reviews.Upserted(old(db.reviews), product, user, rating, comment);
      && (spec.None? ==> r == Failed(IntegrityError) && db.reviews == old(db.reviews))
      && (spec.Some? ==> r == Done && db.reviews == spec.value)
    ensures db.users == old(db.users) && db.products == old(db.products) && db.carts == old(db.carts)
    ensures db.orders == old(db.orders) && db.items == old(db.items)
  {
    if product !in db.products {
      return Failed(NotFound);
    }
    var existing := Reviews.FindReview(db.reviews, product, user);
    if rating < 0 {
      return Failed(IntegrityError);
    }
    match existing {
      case Some(k) =>
        db.reviews := db.reviews[k := db.reviews[k].(rating := rating, comment := comment)];
      case None =>
        db.reviews := [Review(product, user, rating, comment)] + db.reviews;
    }
    r := Done;
  }

  /** `buy_now`: refuses only a product with no stock at all, whatever the quantity;
      otherwise stores the product and quantity in the session. */
  method BuyNow(db: Database, product: ProductId, quantity: int, session: Session) returns (r: Outcome)
    requires session.Valid()
    modifies session
    ensures session.Valid()
    ensures r == Failed(NotFound) <==> product !in db.products
    ensures r == Failed(OutOfStock) <==> product in db.products && db.products[product].stock == 0
    ensures r == Done <==> product in db.products && db.products[product].stock >= 1
    ensures r == Done ==> session.data == old(session.data)[BuyNowProductKey := product][BuyNowQuantityKey := quantity]
    ensures r != Done ==> session.data == old(session.data)
  {
    if product !in db.products {
      return Failed(NotFound);
    }
    if db.products[product].stock < 1 {
      return Failed(OutOfStock);
    }
    session.data := session.data[BuyNowProductKey := product];
    session.data := session.data[BuyNowQuantityKey := quantity];
    r := Done;
  }

  /** A buy-now selection is pending: the product key is set and not 0. */
  predicate Selected(data: map<string, int>)
  {
    BuyNowProductKey in data && data[BuyNowProductKey] != 0
  }

  /** The product id `checkout_buy_now` reads from the session. */
  function SelectedProduct(data: map<string, int>): int
    requires BuyNowProductKey in data
  {
    data[BuyNowProductKey]
  }

  /** The quantity `checkout_buy_now` reads from the session, 1 when the key is missing. */
  function SelectedQuantity(data: map<string, int>): int
  {
    if BuyNowQuantityKey in data then data[BuyNowQuantityKey] else 1
  }

  /** The order `checkout_buy_now` creates for `quantity` of `p`: pending, and
      priced at the discounted price of this instant. */
  function BuyNowOrder(user: UserId, p: Product, quantity: int, form: Orders.DeliveryForm, now: string): Order
  {
    Order(user, OrderCode(now), Orders.DeliveryOf(form), DiscountedPrice(p) * (quantity as real), StatusPending, PaymentPending)
  }

  /** Its single item: the product's name and discounted price, frozen. */
  function BuyNowItem(pk: OrderPk, product: ProductId, p: Product, quantity: nat): OrderItem
  {
    OrderItem(pk, Some(product), p.brand + " " + p.modelName, DiscountedPrice(p), quantity)
  }

  /** The writes of `checkout_buy_now` for `quantity` of `product`: the order at the
      live discounted price, then its single item. The item's quantity column refuses a
      negative quantity after the order is already written. */
  method PlaceBuyNowOrder(db: Database, user: UserId, product: ProductId, quantity: int, form: Orders.DeliveryForm, now: string)
    returns (r: Result<OrderPk>)
    requires db.Valid() && product in db.products
    modifies db
    ensures db.Valid()
    ensures r.Err? ==> r.failure == IntegrityError && db.items == old(db.items)
    ensures r.Err? <==> quantity < 0 || CodeInUse(old(db.orders), OrderCode(now))
    ensures r.Err? && 0 <= quantity ==> db.orders == old(db.orders)
    ensures CodeInUse(old(db.orders), OrderCode(now)) ==> db.orders == old(db.orders)
    ensures r.Err? && db.orders != old(db.orders) ==>
      quantity < 0 && db.orders == old(db.orders)[old(db.nextOrderPk) := BuyNowOrder(user, old(db.products)[product], quantity, form, now)]
    ensures quantity < 0 && !CodeInUse(old(db.orders), OrderCode(now)) ==>
      db.orders == old(db.orders)[old(db.nextOrderPk) := BuyNowOrder(user, old(db.products)[product], quantity, form, now)]
    ensures r.Ok? ==>
      && 0 <= quantity
      && r.value == old(db.nextOrderPk) && r.value !in old(db.orders)
      && db.orders == old(db.orders)[r.value := BuyNowOrder(user, old(db.products)[product], quantity, form, now)]
      && db.items == old(db.items) + [BuyNowItem(r.value, product, old(db.products)[product], quantity)]
      && Orders.OrderTotalOf(db.items, r.value) == db.orders[r.value].total
    ensures db.users == old(db.users) && db.products == old(db.products) && db.carts == old(db.carts) && db.reviews == old(db.reviews)
  {
    var p := db.products[product];
    var total := DiscountedPrice(p) * (quantity as real);
    Orders.ItemsOfUnusedKey(db.items, db.orders, db.products, db.nextOrderPk);
    var o := NewOrder(user, Orders.DeliveryOf(form), total);
    assert Saved(o, now) == BuyNowOrder(user, p, quantity, form, now);
    var pk, ok := db.CreateOrder(o, now);
    assert ok <==> !CodeInUse(old(db.orders), OrderCode(now));
    if !ok {
      return Err(IntegrityError);
    }
    if quantity < 0 {
      return Err(IntegrityError);
    }
    var item := BuyNowItem(pk, product, p, quantity);
    Orders.SingleItemTotal(db.items, item);
    db.CreateItem(item);
    r := Ok(pk);
  }

  /** `checkout_buy_now` (POST): without a pending selection, nothing happens; otherwise
      one pending order for the stored quantity at the live discounted price, its single
      item, and the selection is cleared. The order is written before its item: when the
      item's quantity constraint refuses a negative quantity, the order stays without
      items and the selection stays too. */
  method CheckoutBuyNow(db: Database, user: UserId, session: Session, form: Orders.DeliveryForm, now: string) returns (r: Result<OrderPk>)
    requires db.Valid() && session.Valid()
    modifies db, session
    ensures db.Valid() && session.Valid()
    ensures r == Err(NoSelectionPending) <==> !Selected(old(session.data))
    ensures r.Err? ==> r.failure in {NoSelectionPending, NotFound, IntegrityError}
    ensures r.Err? ==> session.data == old(session.data) && db.items == old(db.items)
    ensures r == Err(NotFound) <==>
      Selected(old(session.data)) && (SelectedProduct(old(session.data)) < 0 || SelectedProduct(old(session.data)) !in old(db.products))
    ensures r == Err(IntegrityError) <==>
      && Selected(old(session.data)) && 0 <= SelectedProduct(old(session.data))
      && SelectedProduct(old(session.data)) as ProductId in old(db.products)
      && (SelectedQuantity(old(session.data)) < 0 || CodeInUse(old(db.orders), OrderCode(now)))
    ensures (&& Selected(old(session.data)) && 0 <= SelectedProduct(old(session.data))
             && SelectedProduct(old(session.data)) as ProductId in old(db.products)
             && SelectedQuantity(old(session.data)) < 0 && !CodeInUse(old(db.orders), OrderCode(now))) ==>
      && r == Err(IntegrityError)
      && db.orders == old(db.orders)[old(db.nextOrderPk) :=
           BuyNowOrder(user, old(db.products)[SelectedProduct(old(session.data)) as ProductId], SelectedQuantity(old(session.data)), form, now)]
    ensures r.Err? && db.orders != old(db.orders) ==>
      && r.failure == IntegrityError
      && Selected(old(session.data)) && 0 <= SelectedProduct(old(session.data)) && SelectedQuantity(old(session.data)) < 0
      && SelectedProduct(old(session.data)) as ProductId in old(db.products)
      && db.orders == old(db.orders)[old(db.nextOrderPk) :=
           BuyNowOrder(user, old(db.products)[SelectedProduct(old(session.data)) as ProductId], SelectedQuantity(old(session.data)), form, now)]
    ensures r.Ok? ==>
      && Selected(old(session.data)) && 0 <= SelectedProduct(old(session.data)) && 0 <= SelectedQuantity(old(session.data))
      && SelectedProduct(old(session.data)) as ProductId in old(db.products)
      && r.value == old(db.nextOrderPk) && r.value !in old(db.orders)
      && db.orders == old(db.orders)[r.value :=
           BuyNowOrder(user, old(db.products)[SelectedProduct(old(session.data)) as ProductId], SelectedQuantity(old(session.data)), form, now)]
      && db.items == old(db.items) + [BuyNowItem(r.value, SelectedProduct(old(session.data)) as ProductId,
                                                 old(db.products)[SelectedProduct(old(session.data)) as ProductId], SelectedQuantity(old(session.data)) as nat)]
      && Orders.OrderTotalOf(db.items, r.value) == db.orders[r.value].total
      && session.data == old(session.data) - {BuyNowProductKey, BuyNowQuantityKey}
    ensures db.users == old(db.users) && db.products == old(db.products) && db.carts == old(db.carts) && db.reviews == old(db.reviews)
  {
    if BuyNowProductKey !in session.data || session.data[BuyNowProductKey] == 0 {
      return Err(NoSelectionPending);
    }
    var pid := SelectedProduct(session.data);
    var quantity := SelectedQuantity(session.data);
    if pid < 0 || pid !in db.products {
      return Err(NotFound);
    }
    r := PlaceBuyNowOrder(db, user, pid, quantity, form, now);
    if r.Err? {
      return;
    }
    session.data := session.data - {BuyNowProductKey};
    session.data := session.data - {BuyNowQuantityKey};
  }
}
