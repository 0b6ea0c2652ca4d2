/** The Cart table and the cart views of user/views.py: `add_to_cart`,
    `update_cart`, `remove_from_cart`, and the per-user queries `checkout` runs.
    The table is a sequence of rows, newest first (Cart.Meta.ordering is -added_at). */
module Carts {
  import opened Common
  import opened Models

  /** The QuerySet filters the views apply to the Cart table. */
  datatype CartFilter =
    | OwnedBy(user: UserId)          // Cart.objects.filter(user=...)
    | NotOwnedBy(user: UserId)       // what is left after that queryset's delete()
    | NotOfProduct(product: ProductId) // what is left after a product's cascade delete
    | NotWithId(id: CartId)          // what is left after one row's delete()

  predicate Matches(f: CartFilter, e: CartEntry)
  {
    match f
    case OwnedBy(u) => e.user == u
    case NotOwnedBy(u) => e.user != u
    case NotOfProduct(p) => e.product != p
    case NotWithId(id) => e.id != id
  }

  /** The rows a filter selects, in table order. */
  function Filter(lines: seq<CartEntry>, f: CartFilter): (r: seq<CartEntry>)
    ensures forall e :: e in r <==> e in lines && Matches(f, e)
    ensures |r| <= |lines|
  {
    if |lines| == 0 then []
    else (if Matches(f, lines[0]) then [lines[0]] else []) + Filter(lines[1..], f)
  }

  /** A filter selects nothing exactly when no row matches it. */
  lemma {:induction false} FilterEmpty(lines: seq<CartEntry>, f: CartFilter)
    ensures Filter(lines, f) == [] <==> forall e :: e in lines ==> !Matches(f, e)
  {
    if |lines| > 0 {
      FilterEmpty(lines[1..], f);
      assert lines[0] in lines;
      assert forall e :: e in lines[1..] ==> e in lines;
      assert forall e :: e in lines ==> e == lines[0] || e in lines[1..];
    }
  }

  /** Filtering keeps table order: the rows of a prefix come before those of the rest. */
  lemma {:induction false} FilterAppend(a: seq<CartEntry>, b: seq<CartEntry>, f: CartFilter)
    ensures Filter(a + b, f) == Filter(a, f) + Filter(b, f)
  {
    if |a| > 0 {
      FilterAppend(a[1..], b, f);
      assert (a + b)[0] == a[0] && (a + b)[1..] == a[1..] + b;
      var head := if Matches(f, a[0]) then [a[0]] else [];
      calc {
        Filter(a + b, f);
        head + Filter(a[1..] + b, f);
        head + (Filter(a[1..], f) + Filter(b, f));
        (head + Filter(a[1..], f)) + Filter(b, f);
        Filter(a, f) + Filter(b, f);
      }
    } else {
      assert a + b == b;
    }
  }

  /** `unique_together = ['user', 'product']`, together with distinct primary keys. */
  ghost predicate UniqueKeys(lines: seq<CartEntry>)
  {
    forall i, j :: 0 <= i < j < |lines| ==>
      lines[i].id != lines[j].id && (lines[i].user != lines[j].user || lines[i].product != lines[j].product)
  }

  /** The Cart table's invariant: unique keys, ids below the next id to hand out,
      and every row's product present (rows are deleted with their product). */
  ghost predicate LinesValid(lines: seq<CartEntry>, products: map<ProductId, Product>, nextId: nat)
  {
    && UniqueKeys(lines)
    && (forall e :: e in lines ==> e.id < nextId && e.product in products)
  }

  lemma {:induction false} FilterKeepsUnique(lines: seq<CartEntry>, f: CartFilter)
    requires UniqueKeys(lines)
    ensures UniqueKeys(Filter(lines, f))
  {
    if |lines| > 0 {
      FilterKeepsUnique(lines[1..], f);
      var tail := Filter(lines[1..], f);
      if Matches(f, lines[0]) {
        var r := [lines[0]] + tail;
        forall i, j | 0 <= i < j < |r|
          ensures r[i].id != r[j].id && (r[i].user != r[j].user || r[i].product != r[j].product)
        {
          if i == 0 {
            assert r[j] in lines[1..];
            var k :| 0 <= k < |lines[1..]| && lines[1..][k] == r[j];
            assert lines[k + 1] == r[j];
          } else {
            assert r[i] == tail[i - 1] && r[j] == tail[j - 1];
          }
        }
      }
    }
  }

  lemma FilterKeepsValid(lines: seq<CartEntry>, products: map<ProductId, Product>, nextId: nat, f: CartFilter)
    requires LinesValid(lines, products, nextId)
    ensures LinesValid(Filter(lines, f), products, nextId)
  {
    FilterKeepsUnique(lines, f);
  }

  /** Deleting a product's rows keeps the table valid against the catalogue without it. */
  lemma DropProductKeepsValid(lines: seq<CartEntry>, products: map<ProductId, Product>, nextId: nat, pid: ProductId)
    requires LinesValid(lines, products, nextId)
    ensures LinesValid(Filter(lines, NotOfProduct(pid)), products - {pid}, nextId)
  {
    FilterKeepsUnique(lines, NotOfProduct(pid));
  }

  /** Filtering by a weaker filter first changes nothing. */
  lemma {:induction false} FilterFilter(lines: seq<CartEntry>, f: CartFilter, g: CartFilter)
    requires forall e :: e in lines && Matches(g, e) ==> Matches(f, e)
    ensures Filter(Filter(lines, f), g) == Filter(lines, g)
  {
    if |lines| > 0 {
      FilterFilter(lines[1..], f, g);
      var h := lines[0];
      var ff := Filter(lines, f);
      if Matches(f, h) {
        assert ff == [h] + Filter(lines[1..], f);
        assert ff[1..] == Filter(lines[1..], f);
        assert Filter(ff, g) == (if Matches(g, h) then [h] else []) + Filter(ff[1..], g);
      } else {
        assert ff == Filter(lines[1..], f);
      }
    }
  }

  /** Overwriting a row the filter rejects with another rejected row leaves the selection alone. */
  lemma {:induction false} FilterUpdateSkipped(lines: seq<CartEntry>, i: nat, e: CartEntry, f: CartFilter)
    requires i < |lines| && !Matches(f, lines[i]) && !Matches(f, e)
    ensures Filter(lines[i := e], f) == Filter(lines, f)
  {
    if i == 0 {
      assert lines[i := e][1..] == lines[1..];
    } else {
      FilterUpdateSkipped(lines[1..], i - 1, e, f);
      assert lines[i := e][1..] == lines[1..][i - 1 := e];
    }
  }

  /** Position of the row of `user` for `product`: the lookup of `get_or_create`. */
  function FindLine(lines: seq<CartEntry>, user: UserId, product: ProductId): (r: Option<nat>)
    ensures r.Some? ==> r.value < |lines| && lines[r.value].user == user && lines[r.value].product == product
    ensures r.Some? ==> forall k :: 0 <= k < r.value ==> !(lines[k].user == user && lines[k].product == product)
    ensures r.None? <==> forall k :: 0 <= k < |lines| ==> !(lines[k].user == user && lines[k].product == product)
  {
    if |lines| == 0 then None
    else if lines[0].user == user && lines[0].product == product then Some(0)
    else match FindLine(lines[1..], user, product)
      case None => None
      case Some(k) => Some(k + 1)
  }

  /** The row of `user` for `product`, if the cart holds one. */
  function Lookup(lines: seq<CartEntry>, user: UserId, product: ProductId): (r: Option<CartEntry>)
    ensures r.Some? ==> r.value in lines && r.value.user == user && r.value.product == product
    ensures r.None? ==> forall e :: e in lines ==> !(e.user == user && e.product == product)
  {
    match FindLine(lines, user, product)
    case None => None
    case Some(k) => Some(lines[k])
  }

  /** How many of `product` the cart of `user` holds (0 without a row). */
  function QuantityOf(lines: seq<CartEntry>, user: UserId, product: ProductId): nat
  {
    match Lookup(lines, user, product)
    case None => 0
    case Some(e) => e.quantity
  }

  /** Rewriting a row without touching its user or product moves no lookup. */
  lemma {:induction false} FindLineAfterUpdate(lines: seq<CartEntry>, i: nat, e: CartEntry, user: UserId, product: ProductId)
    requires i < |lines| && e.user == lines[i].user && e.product == lines[i].product
    ensures FindLine(lines[i := e], user, product) == FindLine(lines, user, product)
  {
    if i > 0 {
      FindLineAfterUpdate(lines[1..], i - 1, e, user, product);
      assert lines[i := e][1..] == lines[1..][i - 1 := e];
    }
  }

  /** `get_or_create` followed by `quantity += q`: the existing row grows by `q`, or a
      new row with quantity `q` goes in front. `None` when the PositiveIntegerField
      constraint refuses the write because the quantity would be negative. */
  function Added(lines: seq<CartEntry>, user: UserId, product: ProductId, quantity: int, freshId: CartId): (r: Option<seq<CartEntry>>)
    ensures r.None? <==> QuantityOf(lines, user, product) + quantity < 0
    ensures r.Some? ==> Lookup(r.value, user, product).Some?
    ensures r.Some? ==> QuantityOf(r.value, user, product) == QuantityOf(lines, user, product) + quantity
    ensures r.Some? && Lookup(lines, user, product).None? ==> Lookup(r.value, user, product) == Some(CartEntry(freshId, user, product, quantity))
    ensures r.Some? && Lookup(lines, user, product).Some? ==> Lookup(r.value, user, product).value.id == Lookup(lines, user, product).value.id
    ensures r.Some? ==> forall u, p :: (u != user || p != product) ==> Lookup(r.value, u, p) == Lookup(lines, u, p)
    ensures r.Some? ==> forall u :: u != user ==> Filter(r.value, OwnedBy(u)) == Filter(lines, OwnedBy(u))
  {
    match FindLine(lines, user, product)
    case None =>
      if quantity < 0 then None
      else
        var e := CartEntry(freshId, user, product, quantity);
        assert ([e] + lines)[1..] == lines;
        assert forall u, p :: (u != user || p != product) ==> Lookup([e] + lines, u, p) == Lookup(lines, u, p);
        assert forall u :: u != user ==> Filter([e] + lines, OwnedBy(u)) == Filter(lines, OwnedBy(u));
        Some([e] + lines)
    case Some(k) =>
      var q := lines[k].quantity + quantity;
      if q < 0 then None
      else
        var e := lines[k].(quantity := q);
        assert forall u, p :: FindLine(lines[k := e], u, p) == FindLine(lines, u, p) by {
          forall u, p ensures FindLine(lines[k := e], u, p) == FindLine(lines, u, p) {
            FindLineAfterUpdate(lines, k, e, u, p);
          }
        }
        assert forall u :: u != user ==> Filter(lines[k := e], OwnedBy(u)) == Filter(lines, OwnedBy(u)) by {
          forall u | u != user ensures Filter(lines[k := e], OwnedBy(u)) == Filter(lines, OwnedBy(u)) {
            FilterUpdateSkipped(lines, k, e, OwnedBy(u));
          }
        }
        Some(lines[k := e])
  }

  lemma AddedKeepsValid(lines: seq<CartEntry>, products: map<ProductId, Product>, nextId: nat, user: UserId, product: ProductId, quantity: int)
    requires LinesValid(lines, products, nextId) && product in products
    requires Added(lines, user, product, quantity, nextId).Some?
    ensures LinesValid(Added(lines, user, product, quantity, nextId).value, products, nextId + 1)
  {
    var r := Added(lines, user, product, quantity, nextId).value;
    match FindLine(lines, user, product)
    case None =>
      forall i, j | 0 <= i < j < |r|
        ensures r[i].id != r[j].id && (r[i].user != r[j].user || r[i].product != r[j].product)
      {
        if i == 0 {
          assert r[j] == lines[j - 1] && r[j] in lines;
        } else {
          assert r[i] == lines[i - 1] && r[j] == lines[j - 1];
        }
      }
    case Some(k) =>
  }

  /** The whole of `add_to_cart` on the Cart table: the product must exist, the
      requested quantity must not exceed its stock, then `Added`. */
  function AddToCart(products: map<ProductId, Product>, lines: seq<CartEntry>, user: UserId, product: ProductId, quantity: int, freshId: CartId): (r: Result<seq<CartEntry>>)
    ensures r == Err(NotFound) <==> product !in products
    ensures r == Err(InsufficientStock) <==> product in products && products[product].stock < quantity
    ensures r == Err(IntegrityError) <==> product in products && quantity <= products[product].stock && QuantityOf(lines, user, product) + quantity < 0
    ensures r.Ok? ==> quantity <= products[product].stock && Some(r.value) == Added(lines, user, product, quantity, freshId)
  {
    if product !in products then Err(NotFound)
    else if products[product].stock < quantity then Err(InsufficientStock)
    else match Added(lines, user, product, quantity, freshId)
      case None => Err(IntegrityError)
      case Some(r) => Ok(r)
  }

  /** Two adds of the same product add up in one row, exactly as one add of the sum
      would, provided the first one went through. */
  lemma AddedTwice(lines: seq<CartEntry>, user: UserId, product: ProductId, q1: int, q2: int, id1: CartId, id2: CartId)
    requires Added(lines, user, product, q1, id1).Some?
    ensures Added(Added(lines, user, product, q1, id1).value, user, product, q2, id2) == Added(lines, user, product, q1 + q2, id1)
  {
    var once := Added(lines, user, product, q1, id1).value;
    match FindLine(lines, user, product)
    case None =>
      assert once == [CartEntry(id1, user, product, q1)] + lines;
      assert FindLine(once, user, product) == Some(0);
      if q1 + q2 >= 0 {
        assert once[0 := once[0].(quantity := q1 + q2)] == [CartEntry(id1, user, product, q1 + q2)] + lines;
      }
    case Some(k) =>
      var e := lines[k].(quantity := lines[k].quantity + q1);
      assert once == lines[k := e];
      FindLineAfterUpdate(lines, k, e, user, product);
      if lines[k].quantity + q1 + q2 >= 0 {
        assert once[k := e.(quantity := e.quantity + q2)] == lines[k := lines[k].(quantity := lines[k].quantity + (q1 + q2))];
      }
  }

  /** The stock check looks at one request only: a cart may end up holding more
      than the stock after two adds that each fit. */
  lemma CartMayExceedStock(products: map<ProductId, Product>, lines: seq<CartEntry>, user: UserId, product: ProductId, id1: CartId, id2: CartId)
    requires product in products && products[product].stock >= 1
    requires Lookup(lines, user, product).None?
    ensures var s := products[product].stock;
      AddToCart(products, lines, user, product, s, id1).Ok?
      && AddToCart(products, AddToCart(products, lines, user, product, s, id1).value, user, product, s, id2).Ok?
      && QuantityOf(AddToCart(products, AddToCart(products, lines, user, product, s, id1).value, user, product, s, id2).value, user, product) == 2 * s
  {
  }

  /** Position of the row with primary key `id` that belongs to `user`:
      `get_object_or_404(Cart, id=cart_id, user=request.user)`. */
  function FindOwnLine(lines: seq<CartEntry>, user: UserId, id: CartId): (r: Option<nat>)
    ensures r.Some? ==> r.value < |lines| && lines[r.value].id == id && lines[r.value].user == user
    ensures r.None? <==> forall e :: e in lines ==> !(e.id == id && e.user == user)
  {
    if |lines| == 0 then None
    else if lines[0].id == id && lines[0].user == user then Some(0)
    else match FindOwnLine(lines[1..], user, id)
      case None => None
      case Some(k) => Some(k + 1)
  }

  /** `remove_from_cart`: the row `id` is deleted when it belongs to `user`;
      `None` (not found) otherwise, and then nothing is deleted. */
  function Removed(lines: seq<CartEntry>, user: UserId, id: CartId): (r: Option<seq<CartEntry>>)
    ensures r.None? <==> forall e :: e in lines ==> !(e.id == id && e.user == user)
    ensures r.Some? ==> forall e :: e in r.value <==> e in lines && e.id != id
    ensures r.Some? && UniqueKeys(lines) ==> forall u :: u != user ==> Filter(r.value, OwnedBy(u)) == Filter(lines, OwnedBy(u))
  {
    match FindOwnLine(lines, user, id)
    case None => None
    case Some(k) =>
      var r := Filter(lines, NotWithId(id));
      assert UniqueKeys(lines) ==> forall u :: u != user ==> Filter(r, OwnedBy(u)) == Filter(lines, OwnedBy(u)) by {
        if UniqueKeys(lines) {
          forall u | u != user ensures Filter(r, OwnedBy(u)) == Filter(lines, OwnedBy(u)) {
            forall e | e in lines && Matches(OwnedBy(u), e) ensures Matches(NotWithId(id), e) {
              var j :| 0 <= j < |lines| && lines[j] == e;
              assert j != k;
            }
            FilterFilter(lines, NotWithId(id), OwnedBy(u));
          }
        }
      }
      Some(r)
  }

  /** Deleting the row at position `k` in place removes exactly the row with its id. */
  lemma {:induction false} RemoveAtIsFilter(lines: seq<CartEntry>, k: nat)
    requires UniqueKeys(lines) && k < |lines|
    ensures lines[..k] + lines[k + 1..] == Filter(lines, NotWithId(lines[k].id))
  {
    if k == 0 {
      assert lines[..0] + lines[1..] == lines[1..];
      assert forall e :: e in lines[1..] ==> Matches(NotWithId(lines[0].id), e);
      FilterAllMatch(lines[1..], NotWithId(lines[0].id));
    } else {
      var tail := lines[1..];
      assert UniqueKeys(tail) by {
        forall i, j | 0 <= i < j < |tail|
          ensures tail[i].id != tail[j].id && (tail[i].user != tail[j].user || tail[i].product != tail[j].product)
        {
          assert tail[i] == lines[i + 1] && tail[j] == lines[j + 1];
        }
      }
      RemoveAtIsFilter(tail, k - 1);
      assert tail[k - 1] == lines[k];
      assert lines[..k] + lines[k + 1..] == [lines[0]] + (tail[..k - 1] + tail[k..]);
    }
  }

  lemma {:induction false} FilterAllMatch(lines: seq<CartEntry>, f: CartFilter)
    requires forall e :: e in lines ==> Matches(f, e)
    ensures Filter(lines, f) == lines
  {
    if |lines| > 0 {
      FilterAllMatch(lines[1..], f);
    }
  }

  /** `update_cart`: a positive quantity overwrites the row's quantity, zero or less
      deletes the row, exactly like `remove_from_cart`. Only a row of `user` is found. */
  function Updated(lines: seq<CartEntry>, user: UserId, id: CartId, quantity: int): (r: Option<seq<CartEntry>>)
    ensures r.None? <==> forall e :: e in lines ==> !(e.id == id && e.user == user)
    ensures quantity <= 0 ==> r == Removed(lines, user, id)
    ensures r.Some? && quantity > 0 ==> |r.value| == |lines| && Filter(r.value, NotWithId(id)) == Filter(lines, NotWithId(id))
    ensures r.Some? && quantity > 0 ==> exists e :: e in r.value && e.id == id && e.user == user && e.quantity == quantity
    ensures r.Some? && quantity > 0 && UniqueKeys(lines) ==> forall e :: e in r.value && e.id == id ==> e.user == user && e.quantity == quantity
    ensures r.Some? && quantity > 0 ==> forall u :: u != user ==> Filter(r.value, OwnedBy(u)) == Filter(lines, OwnedBy(u))
    ensures r.Some? && quantity > 0 ==>
      exists k :: 0 <= k < |lines| && lines[k].id == id && lines[k].user == user && r.value == lines[k := lines[k].(quantity := quantity)]
  {
    if quantity <= 0 then Removed(lines, user, id)
    else match FindOwnLine(lines, user, id)
      case None => None
      case Some(k) =>
        var e := lines[k].(quantity := quantity);
        var r := lines[k := e];
        FilterUpdateSkipped(lines, k, e, NotWithId(id));
        assert r[k] in r;
        assert forall u :: u != user ==> Filter(r, OwnedBy(u)) == Filter(lines, OwnedBy(u)) by {
          forall u | u != user ensures Filter(r, OwnedBy(u)) == Filter(lines, OwnedBy(u)) {
            FilterUpdateSkipped(lines, k, e, OwnedBy(u));
          }
        }
        Some(r)
  }

  lemma UpdatedKeepsValid(lines: seq<CartEntry>, products: map<ProductId, Product>, nextId: nat, user: UserId, id: CartId, quantity: int)
    requires LinesValid(lines, products, nextId)
    requires Updated(lines, user, id, quantity).Some?
    ensures LinesValid(Updated(lines, user, id, quantity).value, products, nextId)
  {
    if quantity <= 0 {
      FilterKeepsValid(lines, products, nextId, NotWithId(id));
    }
  }
}
