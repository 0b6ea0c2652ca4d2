/** The records of user/models.py and the computations the models define:
    the discounted price, the two line totals and the order identifier rule of `Order.save`. */
module Models {
  import opened Common

  type UserId = nat
  type ProductId = nat
  type CartId = nat
  type OrderPk = nat

  /** The two values of the `user_type` discriminator. */
  const CustomerType: string := "user"
  const DistributorType: string := "distributor"

  /** `Order.status` values. The column is free text: `update_order_status` may store any string. */
  const StatusPending: string := "pending"
  const StatusConfirmed: string := "confirmed"
  const StatusProcessing: string := "processing"
  const StatusShipped: string := "shipped"
  const StatusDelivered: string := "delivered"
  const StatusCancelled: string := "cancelled"

  /** `Order.payment_status` values. */
  const PaymentPending: string := "pending"
  const PaymentCompleted: string := "completed"
  const PaymentFailed: string := "failed"
  const PaymentRefunded: string := "refunded"

  /** Prefix of every generated `order_id`. */
  const OrderCodePrefix: string := "XM"

  datatype User = User(username: string, email: string, phone: string, userType: string)

  /** A catalogue entry; `stock` is a PositiveIntegerField, hence a `nat`.
      Images, specifications and timestamps are not part of the model. */
  datatype Product = Product(
    distributor: UserId,
    brand: string,
    modelName: string,
    slug: string,
    price: real,
    originalPrice: Option<real>,
    discount: int,
    features: string,
    stock: nat)

  /** A `Cart` row: one (user, product) pair with its quantity. */
  datatype CartEntry = CartEntry(id: CartId, user: UserId, product: ProductId, quantity: nat)

  datatype Location = Location(latitude: string, longitude: string)

  /** The delivery snapshot captured verbatim at checkout. */
  datatype Delivery = Delivery(name: string, phone: string, email: string, address: string, location: Option<Location>)

  datatype Order = Order(
    user: UserId,
    code: string,           // `order_id`, the human-readable identifier
    delivery: Delivery,
    total: real,            // `total_amount`, frozen at creation
    status: string,
    paymentStatus: string)

  /** An `OrderItem` row: a frozen copy of the product's name and unit price.
      `product` becomes `None` when the product is deleted (on_delete=SET_NULL). */
  datatype OrderItem = OrderItem(order: OrderPk, product: Option<ProductId>, productName: string, productPrice: real, quantity: nat)

  /** A `Review` row; `rating` is a PositiveIntegerField. */
  datatype Review = Review(product: ProductId, user: UserId, rating: nat, comment: string)

  /** `Product.get_discounted_price`: the price less `discount` percent, applied only
      when the discount is positive, so a zero or negative discount leaves the price alone. */
  function DiscountedPrice(p: Product): (r: real)
    ensures p.discount <= 0 ==> r == p.price
    ensures p.discount > 0 ==> r == p.price * (1.0 - (p.discount as real) / 100.0)
    ensures 0 <= p.discount <= 100 && 0.0 <= p.price ==> 0.0 <= r <= p.price
    ensures 0 < p.discount && 0.0 < p.price ==> r < p.price
    ensures p.discount >= 100 && 0.0 <= p.price ==> r <= 0.0
  {
    if p.discount > 0 then p.price - (p.price * (p.discount as real) / 100.0) else p.price
  }

  /** `Cart.get_total_price`: the product's CURRENT discounted price times the quantity. */
  function LineTotal(p: Product, quantity: nat): (r: real)
    ensures quantity == 0 ==> r == 0.0
    ensures 0 <= p.discount <= 100 && 0.0 <= p.price ==> 0.0 <= r <= p.price * (quantity as real)
    ensures p.discount <= 0 ==> r == p.price * (quantity as real)
  {
    DiscountedPrice(p) * (quantity as real)
  }

  /** `OrderItem.get_total_price`: the frozen unit price times the quantity; the live product is never read. */
  function ItemTotal(i: OrderItem): (r: real)
    ensures i.quantity == 0 ==> r == 0.0
    ensures i.productPrice >= 0.0 ==> r >= 0.0
    ensures i.quantity > 0 ==> (r == 0.0 <==> i.productPrice == 0.0)
  {
    i.productPrice * (i.quantity as real)
  }

  /** `Order.objects.create(...)` before saving: `order_id` is blank and both
      statuses take their field defaults. */
  function NewOrder(user: UserId, delivery: Delivery, total: real): (o: Order)
    ensures o.status == StatusPending && o.paymentStatus == PaymentPending
    ensures o.code == "" && o.user == user && o.delivery == delivery && o.total == total
  {
    Order(user, "", delivery, total, StatusPending, PaymentPending)
  }

  /** The identifier `Order.save` generates from the clock reading `now`
      (the formatted timestamp; the row id is still unset on first save). */
  function OrderCode(now: string): (code: string)
    ensures |code| == |now| + 2 && code[..2] == OrderCodePrefix && code[2..] == now
  {
    OrderCodePrefix + now
  }

  /** The row `Order.save` writes: an identifier is generated only while `order_id` is empty. */
  function Saved(o: Order, now: string): (r: Order)
    ensures r.code != ""
    ensures o.code != "" ==> r == o
    ensures r.(code := o.code) == o
  {
    if o.code == "" then o.(code := OrderCode(now)) else o
  }

  /** Once saved, an order keeps its identifier through every later save. */
  lemma SavedCodeIsKept(o: Order, first: string, later: string)
    ensures Saved(Saved(o, first), later) == Saved(o, first)
    ensures Saved(Saved(o, first), later).code == (if o.code == "" then OrderCode(first) else o.code)
  {
  }
}
