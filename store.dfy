/** The database the views share, as one object whose fields are the tables,
    and the per-browser session dictionary `buy_now` and `checkout_buy_now` use.
    Each view is one atomic step on these objects. */
module Store {
  import opened Common
  import opened Models
  import Accounts
  import Carts
  import Orders
  import Reviews

  /** The Product table: ids from 1 below the next id to hand out, slugs unique (`unique=True`). */
  ghost predicate CatalogueValid(products: map<ProductId, Product>, nextId: nat)
  {
    && 1 <= nextId
    && (forall id :: id in products ==> 1 <= id < nextId)
    && (forall a, b :: a in products && b in products && a != b ==> products[a].slug != products[b].slug)
  }

  /** The slugs in use, the set the `add_product` loop probes. */
  function SlugsInUse(products: map<ProductId, Product>): (s: set<string>)
    ensures forall id :: id in products ==> products[id].slug in s
    ensures forall x :: x in s ==> exists id :: id in products && products[id].slug == x
  {
    set id | id in products :: products[id].slug
  }

  /** Some order already carries the identifier `code` (the `order_id` column is unique). */
  predicate CodeInUse(orders: map<OrderPk, Order>, code: string)
  {
    exists k :: k in orders && orders[k].code == code
  }

  class Database {
    var users: map<UserId, User>
    var nextUserId: nat
    var products: map<ProductId, Product>
    var nextProductId: nat
    var carts: seq<CartEntry>
    var nextCartId: nat
    var orders: map<OrderPk, Order>
    var nextOrderPk: nat
    var items: seq<OrderItem>
    var reviews: seq<Review>

    /** The constraints every table keeps between requests. */
    ghost predicate Valid()
      reads this
    {
      && Accounts.AccountsValid(users, nextUserId)
      && CatalogueValid(products, nextProductId)
      && Carts.LinesValid(carts, products, nextCartId)
      && Orders.OrdersValid(orders, nextOrderPk)
      && Orders.ItemsValid(items, orders, products)
      && Reviews.ReviewsValid(reviews, products)
    }

    /** An empty database; every auto-increment key starts at 1. */
    constructor ()
      ensures Valid()
      ensures users == map[] && products == map[] && carts == [] && orders == map[] && items == [] && reviews == []
    {
      users, products, carts, orders, items, reviews := map[], map[], [], map[], [], [];
      nextUserId, nextProductId, nextCartId, nextOrderPk := 1, 1, 1, 1;
    }

    /** `User.objects.create_user`: an empty username is refused before anything is
        written; otherwise the account is inserted, and the unique username column
        refuses a taken username. */
    method CreateUser(form: Accounts.SignupForm, userType: string) returns (r: Result<UserId>)
      requires Valid()
      requires Accounts.SignupCheck(users, form) == None
      modifies this
      ensures Valid()
      ensures r.Err? <==> form.username == "" || Accounts.UsernameRegistered(old(users), form.username)
      ensures r.Err? ==> r.failure == (if form.username == "" then EmptyUsername else IntegrityError)
      ensures r.Err? ==> users == old(users) && nextUserId == old(nextUserId)
      ensures r.Ok? ==> r.value == old(nextUserId) && r.value !in old(users)
      ensures r.Ok? ==> users == old(users)[r.value := Accounts.NewAccount(form, userType)] && nextUserId == old(nextUserId) + 1
      ensures products == old(products) && carts == old(carts) && orders == old(orders) && items == old(items) && reviews == old(reviews)
      ensures nextProductId == old(nextProductId) && nextCartId == old(nextCartId) && nextOrderPk == old(nextOrderPk)
    {
      if form.username == "" {
        return Err(EmptyUsername);
      }
      if exists id :: id in users && users[id].username == form.username {
        return Err(IntegrityError);
      }
      Accounts.SignupKeepsAccountsUnique(users, nextUserId, form, userType);
      var id := nextUserId;
      users := users[id := Accounts.NewAccount(form, userType)];
      nextUserId := nextUserId + 1;
      r := Ok(id);
    }

    /** `Product.objects.create`: inserts the row under the next id. The slug column is
        unique; `add_product` only ever writes a slug not in use. */
    method CreateProduct(p: Product) returns (id: ProductId)
      requires Valid()
      requires p.slug !in SlugsInUse(products)
      modifies this
      ensures Valid()
      ensures id == old(nextProductId) && id !in old(products)
      ensures products == old(products)[id := p] && nextProductId == old(nextProductId) + 1
      ensures users == old(users) && carts == old(carts) && orders == old(orders) && items == old(items) && reviews == old(reviews)
      ensures nextUserId == old(nextUserId) && nextCartId == old(nextCartId) && nextOrderPk == old(nextOrderPk)
    {
      id := nextProductId;
      products := products[id := p];
      nextProductId := nextProductId + 1;
    }

    /** `product.save()` on an existing row that keeps its slug. */
    method SaveProduct(id: ProductId, p: Product)
      requires Valid()
      requires id in products && p.slug == products[id].slug
      modifies this
      ensures Valid()
      ensures products == old(products)[id := p]
      ensures users == old(users) && carts == old(carts) && orders == old(orders) && items == old(items) && reviews == old(reviews)
      ensures nextUserId == old(nextUserId) && nextProductId == old(nextProductId) && nextCartId == old(nextCartId) && nextOrderPk == old(nextOrderPk)
    {
      products := products[id := p];
    }

    /** `product.delete()`: the row goes, and with it (CASCADE) its cart rows and reviews;
        its order items stay with the product link set to null (SET_NULL). */
    method DeleteProduct(id: ProductId)
      requires Valid() && id in products
      modifies this
      ensures Valid()
      ensures products == old(products) - {id}
      ensures carts == Carts.Filter(old(carts), Carts.NotOfProduct(id))
      ensures reviews == Reviews.WithoutProduct(old(reviews), id)
      ensures items == Orders.Unlinked(old(items), id)
      ensures users == old(users) && orders == old(orders)
      ensures nextUserId == old(nextUserId) && nextProductId == old(nextProductId) && nextCartId == old(nextCartId) && nextOrderPk == old(nextOrderPk)
    {
      Carts.DropProductKeepsValid(carts, products, nextCartId, id);
      Orders.UnlinkedKeepsValid(items, orders, products, id);
      Reviews.WithoutProductKeepsValid(reviews, products, id);
      assert CatalogueValid(products - {id}, nextProductId);
      carts, reviews, items, products :=
        Carts.Filter(carts, Carts.NotOfProduct(id)), Reviews.WithoutProduct(reviews, id), Orders.Unlinked(items, id), products - {id};
    }

    /** `Order.objects.create`: `Order.save` gives the row an `order_id` (only while it
        is empty) and inserts it under the next primary key; the unique `order_id`
        column refuses an identifier already in use, and then nothing is written. */
    method CreateOrder(o: Order, now: string) returns (pk: OrderPk, ok: bool)
      requires Valid()
      modifies this
      ensures Valid()
      ensures pk == old(nextOrderPk) && pk !in old(orders)
      ensures ok <==> !CodeInUse(old(orders), Saved(o, now).code)
      ensures ok ==> orders == old(orders)[pk := Saved(o, now)] && nextOrderPk == old(nextOrderPk) + 1
      ensures !ok ==> orders == old(orders) && nextOrderPk == old(nextOrderPk)
      ensures users == old(users) && products == old(products) && carts == old(carts) && items == old(items) && reviews == old(reviews)
      ensures nextUserId == old(nextUserId) && nextProductId == old(nextProductId) && nextCartId == old(nextCartId)
    {
      var row := o;
      if row.code == "" {
        row := row.(code := OrderCode(now));
      }
      pk := nextOrderPk;
      if exists k :: k in orders && orders[k].code == row.code {
        ok := false;
        return;
      }
      orders := orders[pk := row];
      nextOrderPk := nextOrderPk + 1;
      ok := true;
    }

    /** `OrderItem.objects.create`: appends the row; it must belong to an existing order
        and link, if at all, to an existing product. */
    method CreateItem(item: OrderItem)
      requires Valid()
      requires item.order in orders && (item.product.Some? ==> item.product.value in products)
      modifies this
      ensures Valid()
      ensures items == old(items) + [item]
      ensures users == old(users) && products == old(products) && carts == old(carts) && orders == old(orders) && reviews == old(reviews)
      ensures nextUserId == old(nextUserId) && nextProductId == old(nextProductId) && nextCartId == old(nextCartId) && nextOrderPk == old(nextOrderPk)
    {
      Orders.ItemsValidAppend(items, [item], orders, products);
      items := items + [item];
    }

    /** `order.save()` on an existing row whose `order_id` the view left alone:
        the identifier is already set, so the row is written as given. */
    method SaveOrder(pk: OrderPk, o: Order, now: string)
      requires Valid()
      requires pk in orders && o.code == orders[pk].code
      modifies this
      ensures Valid()
      ensures orders == old(orders)[pk := o] && Saved(o, now) == o
      ensures users == old(users) && products == old(products) && carts == old(carts) && items == old(items) && reviews == old(reviews)
      ensures nextUserId == old(nextUserId) && nextProductId == old(nextProductId) && nextCartId == old(nextCartId) && nextOrderPk == old(nextOrderPk)
    {
      var row := o;
      if row.code == "" {
        row := row.(code := OrderCode(now));
      }
      orders := orders[pk := row];
    }
  }

  /** Session keys `buy_now` writes and `checkout_buy_now` reads and deletes. */
  const BuyNowProductKey: string := "buy_now_product_id"
  const BuyNowQuantityKey: string := "buy_now_quantity"

  /** `request.session`, restricted to integer values. */
  class Session {
    var data: map<string, int>

    /** Only the two buy-now views touch the two keys, and always together. */
    ghost predicate Valid()
      reads this
    {
      (BuyNowProductKey in data) == (BuyNowQuantityKey in data)
    }

    constructor ()
      ensures Valid() && data == map[]
    {
      data := map[];
    }
  }
}
