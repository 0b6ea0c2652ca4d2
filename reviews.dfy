/** The Review table and `add_review` (user/views.py): one review per
    (product, user), overwritten in place by a later submission.
    The table is a sequence of rows, newest first (Review.Meta.ordering is -created_at). */
module Reviews {
  import opened Common
  import opened Models

  /** `unique_together = ['product', 'user']`. */
  ghost predicate UniqueReviews(reviews: seq<Review>)
  {
    forall i, j :: 0 <= i < j < |reviews| ==> reviews[i].product != reviews[j].product || reviews[i].user != reviews[j].user
  }

  /** The Review table's invariant: unique pairs, and every review's product present
      (reviews are deleted with their product). */
  ghost predicate ReviewsValid(reviews: seq<Review>, products: map<ProductId, Product>)
  {
    UniqueReviews(reviews) && forall r :: r in reviews ==> r.product in products
  }

  /** A review whose pair no other review has can go in front of a table with unique pairs. */
  lemma ConsUnique(x: Review, rest: seq<Review>)
    requires UniqueReviews(rest)
    requires forall k :: 0 <= k < |rest| ==> rest[k].product != x.product || rest[k].user != x.user
    ensures UniqueReviews([x] + rest)
  {
    var r := [x] + rest;
    forall i, j | 0 <= i < j < |r| ensures r[i].product != r[j].product || r[i].user != r[j].user {
      assert r[j] == rest[j - 1];
      if i > 0 {
        assert r[i] == rest[i - 1];
      }
    }
  }

  /** The rows after the first of a table with unique pairs have unique pairs, none of them the first's. */
  lemma TailUnique(reviews: seq<Review>)
    requires |reviews| > 0 && UniqueReviews(reviews)
    ensures UniqueReviews(reviews[1..])
    ensures forall y :: y in reviews[1..] ==> y.product != reviews[0].product || y.user != reviews[0].user
  {
    var tail := reviews[1..];
    forall i, j | 0 <= i < j < |tail| ensures tail[i].product != tail[j].product || tail[i].user != tail[j].user {
      assert tail[i] == reviews[i + 1] && tail[j] == reviews[j + 1];
    }
    forall y | y in tail ensures y.product != reviews[0].product || y.user != reviews[0].user {
      var m :| 0 <= m < |tail| && tail[m] == y;
      assert reviews[m + 1] == y;
    }
  }

  /** `Review.objects.filter(product=..., user=...).first()`, as a position. */
  function FindReview(reviews: seq<Review>, product: ProductId, user: UserId): (r: Option<nat>)
    ensures r.Some? ==> r.value < |reviews| && reviews[r.value].product == product && reviews[r.value].user == user
    ensures r.Some? ==> forall k :: 0 <= k < r.value ==> !(reviews[k].product == product && reviews[k].user == user)
    ensures r.None? <==> forall k :: 0 <= k < |reviews| ==> !(reviews[k].product == product && reviews[k].user == user)
  {
    if |reviews| == 0 then None
    else if reviews[0].product == product && reviews[0].user == user then Some(0)
    else match FindReview(reviews[1..], product, user)
      case None => None
      case Some(k) => Some(k + 1)
  }

  /** The review `user` has on `product`, if any. */
  function ReviewOf(reviews: seq<Review>, product: ProductId, user: UserId): Option<Review>
  {
    match FindReview(reviews, product, user)
    case None => None
    case Some(k) => Some(reviews[k])
  }

  lemma {:induction false} FindReviewAfterUpdate(reviews: seq<Review>, i: nat, e: Review, product: ProductId, user: UserId)
    requires i < |reviews| && e.product == reviews[i].product && e.user == reviews[i].user
    ensures FindReview(reviews[i := e], product, user) == FindReview(reviews, product, user)
  {
    if i > 0 {
      FindReviewAfterUpdate(reviews[1..], i - 1, e, product, user);
      assert reviews[i := e][1..] == reviews[1..][i - 1 := e];
    }
  }

  /** `add_review`: the existing review of `user` on `product` takes the new rating
      and comment, or a new review goes in front. `None` when the PositiveIntegerField
      constraint refuses a negative rating; nothing is written then. */
  function Upserted(reviews: seq<Review>, product: ProductId, user: UserId, rating: int, comment: string): (r: Option<seq<Review>>)
    ensures r.None? <==> rating < 0
    ensures r.Some? ==> ReviewOf(r.value, product, user) == Some(Review(product, user, rating, comment))
    ensures r.Some? ==> forall p, u :: (p != product || u != user) ==> ReviewOf(r.value, p, u) == ReviewOf(reviews, p, u)
    ensures r.Some? ==> |r.value| == |reviews| + (if ReviewOf(reviews, product, user).None? then 1 else 0)
    ensures r.Some? && UniqueReviews(reviews) ==> UniqueReviews(r.value)
    ensures r.Some? && UniqueReviews(reviews) ==>
      forall k :: 0 <= k < |r.value| && r.value[k].product == product && r.value[k].user == user ==> r.value[k] == Review(product, user, rating, comment)
  {
    if rating < 0 then None
    else
      var latest := Review(product, user, rating, comment);
      match FindReview(reviews, product, user)
      case None =>
        var r := [latest] + reviews;
        assert r[1..] == reviews;
        assert UniqueReviews(reviews) ==> UniqueReviews(r) by {
          if UniqueReviews(reviews) {
            ConsUnique(latest, reviews);
          }
        }
        Some(r)
      case Some(k) =>
        var r := reviews[k := latest];
        assert forall p, u :: FindReview(r, p, u) == FindReview(reviews, p, u) by {
          forall p, u ensures FindReview(r, p, u) == FindReview(reviews, p, u) {
            FindReviewAfterUpdate(reviews, k, latest, p, u);
          }
        }
        Some(r)
  }

  /** Of two submissions by the same user on the same product, the second decides
      everything: the table is as if only the second had been made. */
  lemma LatestSubmissionWins(reviews: seq<Review>, product: ProductId, user: UserId, r1: int, c1: string, r2: int, c2: string)
    requires Upserted(reviews, product, user, r1, c1).Some?
    ensures Upserted(Upserted(reviews, product, user, r1, c1).value, product, user, r2, c2) == Upserted(reviews, product, user, r2, c2)
  {
    var once := Upserted(reviews, product, user, r1, c1).value;
    match FindReview(reviews, product, user)
    case None =>
      assert FindReview(once, product, user) == Some(0);
      if r2 >= 0 {
        assert once[0 := Review(product, user, r2, c2)] == [Review(product, user, r2, c2)] + reviews;
      }
    case Some(k) =>
      FindReviewAfterUpdate(reviews, k, Review(product, user, r1, c1), product, user);
      if r2 >= 0 {
        assert once[k := Review(product, user, r2, c2)] == reviews[k := Review(product, user, r2, c2)];
      }
  }

  /** The reviews left after product `pid` is deleted (on_delete=CASCADE). */
  function WithoutProduct(reviews: seq<Review>, pid: ProductId): (r: seq<Review>)
    ensures forall x :: x in r <==> x in reviews && x.product != pid
    ensures UniqueReviews(reviews) ==> UniqueReviews(r)
  {
    if |reviews| == 0 then []
    else
      var tail := WithoutProduct(reviews[1..], pid);
      var r := (if reviews[0].product != pid then [reviews[0]] else []) + tail;
      assert UniqueReviews(reviews) ==> UniqueReviews(r) by {
        if UniqueReviews(reviews) {
          TailUnique(reviews);
          if reviews[0].product != pid {
            forall k | 0 <= k < |tail| ensures tail[k].product != reviews[0].product || tail[k].user != reviews[0].user {
              assert tail[k] in tail;
            }
            ConsUnique(reviews[0], tail);
          }
        }
      }
      r
  }

  /** Deleting a product's reviews keeps the table valid against the catalogue without it. */
  lemma WithoutProductKeepsValid(reviews: seq<Review>, products: map<ProductId, Product>, pid: ProductId)
    requires ReviewsValid(reviews, products)
    ensures ReviewsValid(WithoutProduct(reviews, pid), products - {pid})
  {
  }
}
