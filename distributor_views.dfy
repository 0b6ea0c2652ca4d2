/** The distributor views of distibutor/views.py as atomic steps on the database:
    signup, login, the catalogue (add, edit, delete), the order list and order
    status updates. `add_product`, `edit_product` and `update_order_status` write only
    on POST, and only that branch is modelled; `delete_product` does not check the
    request method and deletes on every request. */
module DistributorViews {
  import opened Common
  import opened Models
  import Accounts
  import Slugs
  import Carts
  import Orders
  import Reviews
  import opened Store

  /** `distributor_signup`: the same four checks as the customer signup, then an
      account whose type is always "distributor". */
  method DistributorSignup(db: Database, form: Accounts.SignupForm) returns (r: Result<UserId>)
    requires db.Valid()
    modifies db
    ensures db.Valid()
    ensures Accounts.SignupCheck(old(db.users), form).Some? ==>
      r == Err(Accounts.SignupCheck(old(db.users), form).value) && db.users == old(db.users)
    ensures r.Ok? <==> Accounts.SignupCheck(old(db.users), form) == None && form.username != ""
                       && !Accounts.UsernameRegistered(old(db.users), form.username)
    ensures r == Err(EmptyUsername) <==> Accounts.SignupCheck(old(db.users), form) == None && form.username == ""
    ensures r == Err(IntegrityError) <==> (Accounts.SignupCheck(old(db.users), form) == None && form.username != ""
                                          && Accounts.UsernameRegistered(old(db.users), form.username))
    ensures r.Err? ==> db.users == old(db.users)
    ensures r.Ok? ==> r.value !in old(db.users) && db.users == old(db.users)[r.value :=
      User(form.username, form.email, form.phone, DistributorType)]
    ensures db.products == old(db.products) && db.carts == old(db.carts) && db.orders == old(db.orders)
    ensures db.items == old(db.items) && db.reviews == old(db.reviews)
  {
    var check := Accounts.SignupCheck(db.users, form);
    if check.Some? {
      return Err(check.value);
    }
    r := db.CreateUser(form, DistributorType);
  }

  /** The account `distributor_login` settles on for `key`: the one with that e-mail,
      or, when no account has it, the one with that phone. */
  predicate LoginAccount(users: map<UserId, User>, key: string, id: UserId)
  {
    id in users && (users[id].email == key || (!Accounts.EmailRegistered(users, key) && users[id].phone == key))
  }

  /** `distributor_login`: looks the account up by e-mail, then by phone, checks the
      password with `authenticate`, and admits only distributors. */
  method DistributorLogin(db: Database, key: string, password: string, authenticate: (User, string) -> bool) returns (r: Result<UserId>)
    requires db.Valid()
    ensures r == Err(InvalidCredentials) <==> !Accounts.EmailRegistered(db.users, key) && !Accounts.PhoneRegistered(db.users, key)
    ensures r.Err? ==> r.failure in {InvalidCredentials, InvalidPassword, NotDistributor}
    ensures r.Ok? ==>
      LoginAccount(db.users, key, r.value) && authenticate(db.users[r.value], password) && db.users[r.value].userType == DistributorType
    ensures r == Err(NotDistributor) ==>
      exists id :: LoginAccount(db.users, key, id) && authenticate(db.users[id], password) && db.users[id].userType != DistributorType
    ensures r == Err(InvalidPassword) ==>
      exists id :: LoginAccount(db.users, key, id) && !authenticate(db.users[id], password)
    ensures forall id :: LoginAccount(db.users, key, id) && authenticate(db.users[id], password) && db.users[id].userType == DistributorType ==>
      r == Ok(id)
  {
    var found := Accounts.FindAccount(db.users, key);
    if found.None? {
      return Err(InvalidCredentials);
    }
    var account := db.users[found.value];
    if authenticate(account, password) && account.userType == DistributorType {
      r := Ok(found.value);
    } else if authenticate(account, password) {
      r := Err(NotDistributor);
    } else {
      r := Err(InvalidPassword);
    }
  }

  /** The fields of the product forms; an absent or empty optional field is `None`. */
  datatype ProductForm = ProductForm(
    brand: string,
    modelName: string,
    price: real,
    originalPrice: Option<real>,
    discount: Option<int>,
    features: string,
    stock: Option<int>)

  /** `add_product` (POST): distributors only; the slug is the first free candidate
      derived from `baseSlug`; a missing discount or stock becomes 0, a missing
      original price stays empty; the stock column refuses a negative value. */
  method AddProduct(db: Database, user: UserId, form: ProductForm, baseSlug: string) returns (r: Result<ProductId>)
    requires db.Valid() && user in db.users
    modifies db
    ensures db.Valid()
    ensures r == Err(AccessDenied) <==> old(db.users)[user].userType != DistributorType
    ensures r == Err(IntegrityError) <==>
      old(db.users)[user].userType == DistributorType && form.stock.Some? && form.stock.value < 0
    ensures r.Err? ==> r.failure in {AccessDenied, IntegrityError} && db.products == old(db.products)
    ensures r.Ok? ==>
      && r.value == old(db.nextProductId) && r.value !in old(db.products)
      && r.value in db.products
      && db.products == old(db.products)[r.value := db.products[r.value]]
      && var p := db.products[r.value];
      && p.distributor == user && p.brand == form.brand && p.modelName == form.modelName
      && p.price == form.price && p.originalPrice == form.originalPrice && p.features == form.features
      && p.discount == (if form.discount.Some? then form.discount.value else 0)
      && p.stock == (if form.stock.Some? then form.stock.value else 0)
      && p.slug !in SlugsInUse(old(db.products))
      && (baseSlug !in SlugsInUse(old(db.products)) ==> p.slug == baseSlug)
      && exists k: nat :: p.slug == Slugs.Candidate(baseSlug, k) &&
           forall j: nat :: j < k ==> Slugs.Candidate(baseSlug, j) in SlugsInUse(old(db.products))
    ensures db.users == old(db.users) && db.carts == old(db.carts) && db.orders == old(db.orders)
    ensures db.items == old(db.items) && db.reviews == old(db.reviews)
  {
    if db.users[user].userType != DistributorType {
      return Err(AccessDenied);
    }
    var slug := Slugs.UniqueSlug(SlugsInUse(db.products), baseSlug);
    var discount := if form.discount.Some? then form.discount.value else 0;
    var stock := if form.stock.Some? then form.stock.value else 0;
    if stock < 0 {
      return Err(IntegrityError);
    }
    var id := db.CreateProduct(Product(user, form.brand, form.modelName, slug, form.price, form.originalPrice, discount, form.features, stock));
    r := Ok(id);
  }

  /** `get_object_or_404(Product, id=..., distributor=request.user)` finds the row. */
  predicate Owns(products: map<ProductId, Product>, user: UserId, product: ProductId)
  {
    product in products && products[product].distributor == user
  }

  /** `edit_product` (POST): distributors only, and only their own product; every
      form field overwrites the product's, while its slug and owner stay; the stock
      column refuses a negative value. */
  method EditProduct(db: Database, user: UserId, product: ProductId, form: ProductForm) returns (r: Outcome)
    requires db.Valid() && user in db.users
    modifies db
    ensures db.Valid()
    ensures r == Failed(AccessDenied) <==> old(db.users)[user].userType != DistributorType
    ensures r == Failed(NotFound) <==>
      old(db.users)[user].userType == DistributorType && !Owns(old(db.products), user, product)
    ensures r == Failed(IntegrityError) <==>
      old(db.users)[user].userType == DistributorType && Owns(old(db.products), user, product) && form.stock.Some? && form.stock.value < 0
    ensures r.Failed? ==> r.failure in {AccessDenied, NotFound, IntegrityError} && db.products == old(db.products)
    ensures r == Done ==>
      && product in old(db.products) && product in db.products
      && db.products == old(db.products)[product := db.products[product]]
      && var p := db.products[product];
      && p.distributor == user && p.slug == old(db.products)[product].slug
      && p.brand == form.brand && p.modelName == form.modelName
      && p.price == form.price && p.originalPrice == form.originalPrice && p.features == form.features
      && p.discount == (if form.discount.Some? then form.discount.value else 0)
      && p.stock == (if form.stock.Some? then form.stock.value else 0)
    ensures db.users == old(db.users) && db.carts == old(db.carts) && db.orders == old(db.orders)
    ensures db.items == old(db.items) && db.reviews == old(db.reviews)
  {
    if db.users[user].userType != DistributorType {
      return Failed(AccessDenied);
    }
    if !Owns(db.products, user, product) {
      return Failed(NotFound);
    }
    var p := db.products[product];
    p := p.(brand := form.brand);
    p := p.(modelName := form.modelName);
    p := p.(price := form.price);
    p := p.(originalPrice := form.originalPrice);
    p := p.(discount := if form.discount.Some? then form.discount.value else 0);
    p := p.(features := form.features);
    var stock := if form.stock.Some? then form.stock.value else 0;
    if stock < 0 {
      return Failed(IntegrityError);
    }
    p := p.(stock := stock);
    db.SaveProduct(product, p);
    r := Done;
  }

  /** `delete_product`: distributors only, and only their own product. The product's
      cart rows and reviews go with it; order items stay, with their link set to null. */
  method DeleteProduct(db: Database, user: UserId, product: ProductId) returns (r: Outcome)
    requires db.Valid() && user in db.users
    modifies db
    ensures db.Valid()
    ensures r == Failed(AccessDenied) <==> old(db.users)[user].userType != DistributorType
    ensures r == Failed(NotFound) <==>
      old(db.users)[user].userType == DistributorType && !Owns(old(db.products), user, product)
    ensures r.Failed? ==>
      && r.failure in {AccessDenied, NotFound}
      && db.products == old(db.products) && db.carts == old(db.carts)
      && db.items == old(db.items) && db.reviews == old(db.reviews)
    ensures r == Done ==>
      && db.products == old(db.products) - {product}
      && db.carts == Carts.Filter(old(db.carts), Carts.NotOfProduct(product))
      && db.reviews == Reviews.WithoutProduct(old(db.reviews), product)
      && db.items == Orders.Unlinked(old(db.items), product)
      && forall pk :: Orders.OrderTotalOf(db.items, pk) == Orders.OrderTotalOf(old(db.items), pk)
    ensures db.users == old(db.users) && db.orders == old(db.orders)
  {
    if db.users[user].userType != DistributorType {
      return Failed(AccessDenied);
    }
    if !Owns(db.products, user, product) {
      return Failed(NotFound);
    }
    forall pk
      ensures Orders.OrderTotalOf(Orders.Unlinked(db.items, product), pk) == Orders.OrderTotalOf(db.items, pk)
    {
      Orders.UnlinkKeepsTotals(db.items, product, pk);
    }
    db.DeleteProduct(product);
    r := Done;
  }

  /** `distributor_orders`: distributors only; the distinct orders with at least one
      item whose product still exists and is theirs. */
  method DistributorOrders(db: Database, user: UserId) returns (r: Result<set<OrderPk>>)
    requires db.Valid() && user in db.users
    ensures r.Err? <==> db.users[user].userType != DistributorType
    ensures r.Err? ==> r.failure == AccessDenied
    ensures r.Ok? ==> forall pk :: pk in r.value <==>
      exists k :: 0 <= k < |db.items| && db.items[k].order == pk && Orders.SoldBy(db.items[k], db.products, user)
    ensures r.Ok? ==> r.value <= db.orders.Keys
  {
    if db.users[user].userType != DistributorType {
      return Err(AccessDenied);
    }
    var visible := Orders.VisibleOrders(db.items, db.products, user);
    forall pk | pk in visible
      ensures pk in db.orders
    {
      var k :| 0 <= k < |db.items| && db.items[k].order == pk && Orders.SoldBy(db.items[k], db.products, user);
      assert db.items[k] in db.items;
    }
    r := Ok(visible);
  }

  /** `update_order_status` (POST): any distributor may set any order's status to any
      value; nothing else about the order changes. */
  method UpdateOrderStatus(db: Database, user: UserId, pk: OrderPk, status: string, now: string) returns (r: Outcome)
    requires db.Valid() && user in db.users
    modifies db
    ensures db.Valid()
    ensures r == Failed(AccessDenied) <==> old(db.users)[user].userType != DistributorType
    ensures r == Failed(NotFound) <==> old(db.users)[user].userType == DistributorType && pk !in old(db.orders)
    ensures r.Failed? ==> r.failure in {AccessDenied, NotFound} && db.orders == old(db.orders)
    ensures r == Done ==> pk in old(db.orders) && db.orders == old(db.orders)[pk := old(db.orders)[pk].(status := status)]
    ensures db.users == old(db.users) && db.products == old(db.products) && db.carts == old(db.carts)
    ensures db.items == old(db.items) && db.reviews == old(db.reviews)
  {
    if db.users[user].userType != DistributorType {
      return Failed(AccessDenied);
    }
    if pk !in db.orders {
      return Failed(NotFound);
    }
    var order := db.orders[pk];
    order := order.(status := status);
    db.SaveOrder(pk, order, now);
    r := Done;
  }
}
