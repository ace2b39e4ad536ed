/**
 * Queries over the order history and the review table that gate the review
 * form, and the filters that remove a user's rows when the user is deleted.
 */
module Reviews {
  import opened Models

  /** `u` owns an order with a line for book `b`. */
  predicate Bought(orders: seq<Order>, u: UserId, b: BookId) {
    exists o | o in orders :: o.user == u && exists l | l in o.lines :: l.book == b
  }

  /** `u` has already reviewed book `b`. */
  predicate Reviewed(reviews: seq<Review>, u: UserId, b: BookId) {
    exists r | r in reviews :: r.user == u && r.book == b
  }

  /** At most one review per (user, book). */
  predicate UniqueReviews(reviews: seq<Review>) {
    forall i, j :: 0 <= i < j < |reviews| ==>
      !(reviews[i].user == reviews[j].user && reviews[i].book == reviews[j].book)
  }

  /** Every order belongs to an existing user and has an id below the next
      one to be issued. */
  predicate OrdersWellFormed(orders: seq<Order>, users: set<UserId>, nextId: nat) {
    forall o | o in orders :: o.user in users && o.id < nextId
  }

  /** Every review is by an existing user, about a book of the catalogue,
      with one of the five ratings; and one review per (user, book). */
  predicate ReviewsWellFormed(reviews: seq<Review>, users: set<UserId>, books: set<BookId>) {
    && (forall r | r in reviews :: r.user in users && r.book in books && ValidRating(r.rating))
    && UniqueReviews(reviews)
  }

  /** The reviews written by users other than `u`. */
  function ReviewsNotBy(reviews: seq<Review>, u: UserId): (r: seq<Review>)
    ensures forall x | x in r :: x in reviews && x.user != u
    ensures forall x | x in reviews && x.user != u :: x in r
  {
    if reviews == [] then []
    else
      assert reviews == [reviews[0]] + reviews[1..];
      if reviews[0].user != u then [reviews[0]] + ReviewsNotBy(reviews[1..], u)
      else ReviewsNotBy(reviews[1..], u)
  }

  /** The orders placed by users other than `u`. */
  function OrdersNotBy(orders: seq<Order>, u: UserId): (r: seq<Order>)
    ensures forall o | o in r :: o in orders && o.user != u
    ensures forall o | o in orders && o.user != u :: o in r
  {
    if orders == [] then []
    else
      assert orders == [orders[0]] + orders[1..];
      if orders[0].user != u then [orders[0]] + OrdersNotBy(orders[1..], u)
      else OrdersNotBy(orders[1..], u)
  }

  /** Adding a review for a pair not yet reviewed keeps one review per pair. */
  lemma UniqueReviewsAppend(reviews: seq<Review>, x: Review)
    requires UniqueReviews(reviews) && !Reviewed(reviews, x.user, x.book)
    ensures UniqueReviews(reviews + [x])
  {
    var s := reviews + [x];
    forall i, j | 0 <= i < j < |s| ensures !(s[i].user == s[j].user && s[i].book == s[j].book) {
      assert s[i] == reviews[i] && s[i] in reviews;
      if j < |reviews| {
        assert s[j] == reviews[j];
      }
    }
  }

  /** Removing one user's reviews keeps one review per pair. */
  lemma {:induction false} UniqueReviewsNotBy(reviews: seq<Review>, u: UserId)
    requires UniqueReviews(reviews)
    ensures UniqueReviews(ReviewsNotBy(reviews, u))
  {
    if reviews != [] {
      var rest := reviews[1..];
      assert UniqueReviews(rest) by {
        assert forall k :: 0 <= k < |rest| ==> rest[k] == reviews[k + 1];
      }
      UniqueReviewsNotBy(rest, u);
      if reviews[0].user != u {
        var t := ReviewsNotBy(rest, u);
        assert ReviewsNotBy(reviews, u) == [reviews[0]] + t;
        forall j | 0 <= j < |t| ensures !(reviews[0].user == t[j].user && reviews[0].book == t[j].book) {
          assert t[j] in rest;
          var k :| 0 <= k < |rest| && rest[k] == t[j];
          assert reviews[k + 1] == t[j];
        }
      }
    }
  }

  /** Deleting user `u` with their orders keeps the order table well formed. */
  lemma OrdersWellFormedNotBy(orders: seq<Order>, users: set<UserId>, nextId: nat, u: UserId)
    requires OrdersWellFormed(orders, users, nextId)
    ensures OrdersWellFormed(OrdersNotBy(orders, u), users - {u}, nextId)
  {
  }

  /** Deleting user `u` with their reviews keeps the review table well formed. */
  lemma ReviewsWellFormedNotBy(reviews: seq<Review>, users: set<UserId>, books: set<BookId>, u: UserId)
    requires ReviewsWellFormed(reviews, users, books)
    ensures ReviewsWellFormed(ReviewsNotBy(reviews, u), users - {u}, books)
  {
    UniqueReviewsNotBy(reviews, u);
  }

  /** Adding a valid review for a pair not yet reviewed keeps the review
      table well formed. */
  lemma ReviewsWellFormedAppend(reviews: seq<Review>, users: set<UserId>, books: set<BookId>, x: Review)
    requires ReviewsWellFormed(reviews, users, books) && !Reviewed(reviews, x.user, x.book)
    requires x.user in users && x.book in books && ValidRating(x.rating)
    ensures ReviewsWellFormed(reviews + [x], users, books)
  {
    UniqueReviewsAppend(reviews, x);
  }
}
