# buyX storefront: the cart-to-order workflow and its pricing rules

buyX is a Django storefront for mobile phones with two kinds of account: customers
(`user_type` "user") and distributors (`user_type` "distributor"). Distributors list
products. Customers fill a cart, check it out or "buy now" a single product, pay
cash on delivery and review products. Distributors then see the orders that contain
their products and move those orders through their statuses.

This project models that behaviour as a sequential state machine over one database
and one session:

- `Store.Database` is a class whose fields are the tables:
  - accounts, products and orders are maps keyed by primary key;
  - cart rows, order items and reviews are sequences of rows (carts and reviews newest first);
  - a next-id counter per auto-increment table.

  `Database.Valid()` is the invariant every view keeps:
  - username, e-mail and phone are unique;
  - product slugs are unique;
  - there is one cart row per (user, product) and one review per (product, user);
  - every cart row and review refers to an existing product;
  - every order item refers to an existing order and to an existing product or to none;
  - order identifiers are unique.
- `Store.Session` holds the session dictionary that the two buy-now views write and clear.
- The views of `user/views.py` (module `UserViews`) and `distibutor/views.py`
  (module `DistributorViews`) are methods on these objects. Each has one outcome per
  branch of the view: a redirect with an error message becomes an `Err`/`Failed`
  value that leaves the tables unchanged.
- Each change to a table is stated through a pure function on the table's value:
  - `Carts.Added`, `Carts.Updated` and `Carts.Removed` for the cart;
  - `Orders.FrozenItems` and `Orders.CartTotal` for checkout;
  - `Reviews.Upserted` and `Reviews.WithoutProduct` for reviews;
  - `Orders.Unlinked` for deleted products.

  The lemmas beside those functions prove what the storefront promises: uniqueness,
  accumulation, last-write-wins, totals that agree, and scoping to the acting user.
- Pricing (`Models`) is pure. `Product.get_discounted_price`, `Cart.get_total_price`
  and `OrderItem.get_total_price` are functions on exact `real` prices, the way
  Python's `Decimal` computes them.
- `Order.save` gives an order its `order_id` only while the id is empty. The id is
  "XM" followed by the clock reading, which is the parameter `now`. The `order_id`
  column is unique, so a clash refuses the insert.
- The database's integrity constraints are modelled as an `IntegrityError` outcome
  with nothing written:
  - `PositiveIntegerField` refuses a negative cart quantity, item quantity, rating or stock;
  - the unique columns refuse a duplicate username or `order_id`.

  The one exception is `checkout_buy_now`. It writes the order before its item, so a
  refused item leaves the order in place.
- `authenticate` is a parameter `(User, password) -> bool`. `slugify` is the
  `baseSlug` parameter of `add_product`.

## Model

| member | source | states |
|---|---|---|
| Models.DiscountedPrice | user/models.py:87-90 | The price is reduced by `discount` percent only when the discount is positive, so zero and negative discounts leave the price unchanged. For 0 <= discount <= 100 and a non-negative price, the result lies in [0, price]. It is strictly below the price for a positive discount on a positive price, and at most 0 for a discount of 100 or more. |
| Models.LineTotal | user/models.py:107-108 | A cart line costs the product's live discounted price times the quantity. It is 0 for quantity 0, lies between 0 and price × quantity for sane discounts, and equals price × quantity when there is no discount. |
| Models.ItemTotal | user/models.py:173-174 | An order item costs its stored `product_price` times its quantity; the live product is never read. It is non-negative for a non-negative price, and for a positive quantity it is zero exactly when the stored price is zero. |
| Models.NewOrder | user/models.py:129-142 | A newly created order has status "pending", payment status "pending", an empty `order_id`, and the user, delivery and total it was given. |
| Models.OrderCode | user/models.py:158 | The generated identifier is "XM" followed by the clock reading. |
| Models.Saved | user/models.py:156-159 | A saved order always has a non-empty `order_id`. An order that already has one is written unchanged, and saving changes no field except `order_id`. |
| Models.SavedCodeIsKept | user/models.py:156-159 | Saving again never changes an assigned `order_id`: `Saved(Saved(o, t1), t2) == Saved(o, t1)`. |
| Accounts.SignupCheck | user/views.py:30-44 | The four signup checks run in order: passwords must match; the phone must be exactly 10 ASCII digits; the e-mail must be unregistered; then the phone must be unregistered. The result is None exactly when all four pass, and each failure is reported only when the earlier checks passed. |
| Accounts.SignupKeepsAccountsUnique | user/views.py:38-53 | An account that passed the checks and whose username is free keeps usernames, e-mails and phones unique once inserted under the next id. |
| Store.Database.CreateUser | user/views.py:47-53 | `create_user` refuses an empty username (it raises `ValueError`) and writes nothing. Otherwise it inserts the account under the next id. A taken username is an `IntegrityError` and writes nothing. No other table changes. |
| UserViews.Signup | user/views.py:19-59 | A failed check writes nothing and reports the first failing check. An account is created exactly when all checks pass and the username is non-empty and free; an empty username is refused as `EmptyUsername` and a taken one as `IntegrityError`, both with nothing written. Its type is the submitted `user_type`, or "user" when the field is absent. |
| DistributorViews.DistributorSignup | distibutor/views.py:13-52 | The same four rejections as customer signup, and the same refusals of an empty username (`EmptyUsername`) and a taken one (`IntegrityError`). A created account always has type "distributor". |
| Accounts.FindAccount | distibutor/views.py:63-70 | The lookup tries the e-mail first and the phone second. It finds nothing exactly when the key is neither a registered e-mail nor a registered phone. |
| DistributorViews.DistributorLogin | distibutor/views.py:57-82 | The account is found by e-mail, then by phone; none gives "invalid credentials". Login succeeds only for a distributor whose password `authenticate` accepts, and always does for such an account. A correct password on a customer account is refused as "distributors only", and a wrong password is "invalid password". |
| Carts.Filter | user/views.py:182 | `Cart.objects.filter(...)`: a row is kept exactly when it matches, and never more rows than the table holds. |
| Carts.FilterAppend | user/views.py:182 | Filtering keeps table order: filtering two consecutive parts of a table gives the filtered first part followed by the filtered second part. |
| Carts.FilterKeepsValid | user/models.py:100-101 | Deleting cart rows keeps one row per (user, product), unique ids and valid product links. |
| Carts.Added | user/views.py:163-171 | `get_or_create` with increment. A first add creates a row with quantity q. A later add raises that row's quantity by q and leaves every other row as it was. A negative result is refused. |
| Carts.AddedKeepsValid | user/models.py:100-101 | Adding to the cart keeps at most one row per (user, product). |
| Carts.AddToCart | user/views.py:155-171 | An unknown product is "not found". A quantity above the stock is "insufficient stock" and changes nothing. Otherwise the result is `Added`. |
| Carts.AddedTwice | user/views.py:163-171 | Adding q1 and then q2 leaves one row with quantity q1 + q2, the same table as a single add of q1 + q2. |
| Carts.CartMayExceedStock | user/views.py:159-171 | The stock check looks at one request only: two adds that each fit the stock leave a quantity of twice the stock. |
| Carts.FindOwnLine | user/views.py:195 | The cart row with the given id is found only when it belongs to the requesting user. |
| Carts.Removed | user/views.py:195-196 | `remove_from_cart` fails when no row with that id belongs to the user. Otherwise it deletes exactly that row, and every other user's cart is unchanged. |
| Carts.RemoveAtIsFilter | user/views.py:196 | Deleting the row at its position is the same as filtering out its id. |
| Carts.Updated | user/views.py:205-212 | With q <= 0, `update_cart` is `remove_from_cart`. With q > 0 it replaces that row by the same row with quantity q (id, owner and product kept) and leaves the other rows unchanged, including every other user's. It fails when the row is not the user's. |
| Carts.UpdatedKeepsValid | user/models.py:100-101 | Updating the cart keeps it valid. |
| UserViews.AddToCart | user/views.py:152-174 | The cart table becomes exactly `Carts.AddToCart` of the old table, and a refused request changes nothing. The other tables are unchanged. |
| UserViews.UpdateCart | user/views.py:201-214 | The cart table becomes exactly `Carts.Updated` of the old table; "not found" changes nothing. |
| UserViews.RemoveFromCart | user/views.py:192-198 | The cart table becomes exactly `Carts.Removed` of the old table; "not found" changes nothing. |
| Orders.DeliveryOf | user/views.py:232-243 | The delivery snapshot copies the name, phone, e-mail and address. It has a location exactly when both coordinates are non-empty. |
| Orders.CartTotal | user/views.py:228 | The cart total is the sum of line totals. It is 0 for an empty cart and non-negative for sane prices. |
| Orders.FrozenItems | user/views.py:257-264 | Checkout creates one item per cart row, in order. Each item belongs to the new order, links the product, and stores "brand model", the discounted price of that moment and the row's quantity. |
| Orders.FrozenTotal | user/views.py:257-264 | The items created from a cart add up to the cart total. |
| Orders.CheckoutTotalsAgree | user/views.py:228-264 | After checkout, the exact total of the new order's items equals the exact cart total the order was created with, whatever items other orders have. Exact prices; see Left out for the 2-decimal rounding on save. |
| Orders.OrderTotalOfAppend | user/models.py:173-174 | An order's item total is additive over the item table. |
| Store.Database.CreateOrder | user/models.py:156-159 | `Order.objects.create`: the row is saved with its generated identifier under the next primary key. It is refused, with nothing written, exactly when the identifier is already in use. |
| Store.Database.CreateItem | user/models.py:162-168 | `OrderItem.objects.create` appends the row to the item table. |
| UserViews.CreateItems | user/views.py:257-264 | The loop appends exactly `FrozenItems` of the cart rows to the item table. |
| UserViews.ClearCart | user/views.py:267 | `cart_items.delete()` leaves the user's cart empty and every other user's cart as it was. |
| UserViews.Checkout | user/views.py:219-270 | An empty cart gives "cart empty" and no order. Otherwise exactly one order is created: pending, with the delivery snapshot and the cart total. The order's items are the frozen cart rows and add up to its total. The user's cart is then empty; other carts and all products, including stock, are unchanged. The checkout fails with `IntegrityError` exactly when the cart is non-empty and the generated `order_id` is already in use; nothing is written then. So a non-empty cart without a clash always yields an order. |
| UserViews.ProcessPayment | user/views.py:292-323 | Only an order with the given identifier that belongs to the requesting user is found. "cod" sets status "confirmed" and keeps the payment "pending". Any other method changes nothing. |
| Reviews.Upserted | user/views.py:362-376 | After a submission, the user's review of the product has exactly the submitted rating and comment. Every other (product, user) review is unchanged. A row is added only when none existed, and pairs stay unique. A negative rating is refused. |
| Reviews.LatestSubmissionWins | user/views.py:362-376 | Two submissions by the same user on the same product leave the table as if only the second had been made. |
| UserViews.AddReview | user/views.py:353-380 | An unknown product is "not found". Otherwise the review table becomes exactly `Reviews.Upserted` of the old one. |
| UserViews.BuyNow | user/views.py:383-402 | Only a stock of 0 is refused, even when the quantity exceeds the stock. On success the session holds the product id and the quantity; a refusal leaves the session as it was. |
| UserViews.PlaceBuyNowOrder | user/views.py:432-449 | The writes fail with `IntegrityError` exactly when the quantity is negative or the generated `order_id` is already in use. A clash writes nothing. Otherwise one pending order totalling discounted price × quantity is written. For a non-negative quantity, a single item with that price and quantity follows, and its total equals the order's. The order is written before its item, so a negative quantity leaves that order without items. |
| UserViews.CheckoutBuyNow | user/views.py:405-456 | Without a selection (key missing or 0), nothing happens. An unknown product is "not found". `IntegrityError` happens exactly when a selection of an existing product is pending and either the stored quantity is negative or the generated `order_id` is in use. With a negative quantity and no clash, the order is still written, without items. Otherwise there is one order and one item for the stored quantity (1 when that key is missing), and both session keys are removed. On failure the session is kept. |
| Slugs.DecimalRoundTrip | distibutor/views.py:151 | The counter's decimal rendering reads back as the counter. |
| Slugs.CandidatesDiffer | distibutor/views.py:148-152 | The base slug and `base-k` for k >= 1 are pairwise distinct. |
| Slugs.TriedSize | distibutor/views.py:150-152 | The first n candidates form a set of size n, which bounds the loop by the finite set of slugs in use. |
| Slugs.UniqueSlug | distibutor/views.py:146-152 | The slug is never in use. It is the base slug when that is free, and otherwise the first candidate `base-k` not in use, every earlier candidate being taken. |
| Store.Database.CreateProduct | distibutor/views.py:155-170 | `Product.objects.create` inserts under the next id a product with an unused slug. |
| DistributorViews.AddProduct | distibutor/views.py:117-173 | Customers get "access denied". A created product belongs to the distributor, has a unique slug, and copies the form. A missing discount or stock becomes 0 and a missing original price stays empty. A negative stock is refused. |
| Store.Database.SaveProduct | distibutor/views.py:220 | `product.save()` overwrites the product's row and nothing else. |
| DistributorViews.EditProduct | distibutor/views.py:179-222 | Customers get "access denied". A product that is not the distributor's is "not found", with no change. Otherwise every form field overwrites the product's, and the slug and owner are kept. |
| Reviews.WithoutProduct | user/models.py:179 | Deleting a product deletes exactly its reviews (CASCADE), and the pairs stay unique. |
| Orders.Unlinked | user/models.py:165 | Deleting a product sets the product link to null on exactly its order items (SET_NULL). Nothing else in the item changes. |
| Orders.UnlinkKeepsTotals | user/models.py:165-174 | Unlinking a deleted product changes no order's total, because items keep their frozen price. |
| Store.Database.DeleteProduct | distibutor/views.py:240 | `product.delete()` removes the product, its cart rows and its reviews, and nulls its order items' links. Accounts and orders stay. |
| DistributorViews.DeleteProduct | distibutor/views.py:232-242 | Customers get "access denied". A product that is not the distributor's is "not found", with no change. Otherwise the cascade of `Database.DeleteProduct` runs, and every order total is preserved. |
| Orders.VisibleOrders | distibutor/views.py:253-255 | An order is visible exactly when at least one of its items links to a product of the distributor. |
| Orders.DeletedProductNoLongerCounts | distibutor/views.py:253-255 | After a product is deleted, an order stays visible only through an item of another of the distributor's products. |
| DistributorViews.DistributorOrders | distibutor/views.py:245-260 | Customers get "access denied". A distributor gets exactly the distinct orders of `VisibleOrders`, all of them existing orders. |
| Store.Database.SaveOrder | user/models.py:156-159 | Saving an order that already has an identifier writes it as given. |
| DistributorViews.UpdateOrderStatus | distibutor/views.py:263-278 | Customers get "access denied" and nothing changes. Any existing order, whatever its owner or previous status, gets the supplied status, and no other field changes. A missing order is "not found". |

## Left out

- Prices are exact `real` values. The rounding of `DecimalField` to 2 decimal places and its `max_digits` bound on save are not modelled. Neither is the `max_length` of the `CharField`s (for example `delivery_phone` 10, `product_name` 100, `status` 20); whether the database enforces it depends on the backend.
- Carts.Added, Carts.Updated, Carts.AddedTwice, Carts.CartMayExceedStock, Reviews.Upserted, Store.Database.CreateItem, UserViews.PlaceBuyNowOrder, DistributorViews.AddProduct, DistributorViews.EditProduct: integers are unbounded. The columns `quantity`, `stock` and `rating` (`PositiveIntegerField`) and `discount` (`IntegerField`) are 32-bit on PostgreSQL and at most 64-bit on SQLite. A value out of range makes the save raise and write nothing, but the model stores it. Example: with stock 2147483647, two `add_to_cart` requests of 2147483647 each fail on the second save on PostgreSQL, while `Carts.Added` and `Carts.CartMayExceedStock` give a quantity of 4294967294. Only the lower bound of 0 is modelled, as `IntegrityError`.
- Orders.CheckoutTotalsAgree, UserViews.Checkout, UserViews.PlaceBuyNowOrder, UserViews.CheckoutBuyNow: the agreement of item totals with `total_amount` holds for exact prices only. `product_price` and `total_amount` are rounded to 2 decimal places separately on save. When a discounted price is not a whole number of paise, the stored values can disagree by a few paise. Example: price 999.99, discount 15, quantity 10 gives an item price of 849.99 (item total 8499.90) but a stored total of 8499.92.
- `send_welcome_email`, `send_order_confirmation_email` and `send_order_sms` are best-effort notifications that change no table, so they are not modelled.
- `authenticate`, `login` and `logout` are framework calls. Password checking is the `authenticate` parameter, and the logged-in session is not modelled.
- `slugify` is a framework function; its result is the `baseSlug` parameter.
- The clock is the `now` parameter. The `created_at`/`updated_at` timestamps are not modelled, nor is the ordering of the order lists by them. The set of visible orders is modelled, not its order.
- Image uploads, the specifications JSON and `is_available` are not modelled.
- The views that check `request.method` write nothing on other methods (they render or redirect); only their POST branches are modelled. `buy_now`, `remove_from_cart` and `delete_product` do not check the method, and the model applies them to every request.
- `int(...)` on a non-numeric form value raises before any write, so it is not modelled.
- Absent text fields are not modelled: every text field arrives as a string. An absent `delivery_name`, `delivery_phone`, `delivery_email` or `delivery_address` is `None`, which the NOT NULL columns refuse, so no order would be created; the model receives a string there. The same holds for an absent review `comment` and an absent order `status`.
- An absent `quantity` defaults to 1 in `add_to_cart`, `update_cart` and `buy_now`; the model's caller passes 1 in that case. Only the optional product-form fields (`original_price`, `discount`, `stock`) are `Option` values, with `None` for an absent field.
- EditProduct: an empty-string `discount` or `stock` field, which `edit_product` saves without the `or 0` fallback that `add_product` has, is not modelled. The form's `None` stands for an absent field only.
- The `price` form field is taken as given; a missing price, which the database refuses, is not modelled.
- Signup: `str.isdigit` also accepts non-ASCII digits, but the model accepts only '0'-'9'. The e-mail normalisation in `create_user` is not modelled.
- Store.Database.CreateUser, UserViews.Signup, DistributorViews.DistributorSignup: the NFKC normalisation `create_user` applies to the username is not modelled. Usernames are compared as given, so two usernames that differ but normalise to the same string clash in the source and not in the model. The empty-username `ValueError` is modelled, as `EmptyUsername`.
- `user_login`, `logout_view`, `shopping`, `product_detail` (with its average rating), `cart_view`, `payment_options`, `payment_callback`, `order_confirmation`, `orders` and `distributor_dashboard` are not modelled. All but the first two only read and render; `user_login` and `logout_view` change only the logged-in session, through the framework's `login`/`logout`, and so does `distributor_logout`, which is not modelled either.
- The admin configuration and the URL tables are not modelled.
- Concurrency is not modelled: each request is one atomic step.
- Store.Session.Valid assumes the two buy-now keys are set and removed together, as the two buy-now views do. A session holding only one of them is not modelled.
- Store.Database.CreateProduct takes as a precondition that the slug is unused. `add_product` guarantees this through its loop, so the unique-slug refusal of the column never arises in the model.
- Order items of a deleted order and rows of a deleted account (CASCADE) are not modelled, because no modelled view deletes orders or accounts.
