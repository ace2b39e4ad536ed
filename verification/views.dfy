/**
 * The store's request handlers that change state: adding to the cart,
 * raising, lowering and removing a cart line, previewing and placing an
 * order, the book page with its review form, deleting a user, and the hook
 * that gives every new user a cart and a profile.
 *
 * The database is one `Store` object whose fields are its tables. A handler's
 * outcome (a redirect, a page, a notice) is its return value.
 */
module Views {
  import opened Wrappers
  import opened Models
  import opened Carts
  import opened Checkout
  import opened Reviews

  datatype AddOutcome = LoginRequired | BookNotFound | SoldOut | Added(created: bool)

  datatype ItemOutcome = ItemNotFound | NotOwner | Updated | Deleted | NoMoreStock

  /** The posted checkout form: shipping address and payment-method label. */
  datatype CheckoutForm = CheckoutForm(address: string, payment: string)

  /** Amounts are in cents (`subtotal`) and hundredths of a cent (`taxes`, `total`). */
  datatype CheckoutOutcome =
    | CartNotFound
    | EmptyCart
    | Preview(subtotal: int, taxes: int, total: int)
    | InsufficientStock(book: BookId)
    | Placed(order: OrderId)

  /** The posted review form. */
  datatype ReviewForm = ReviewForm(rating: int, comment: string)

  datatype DetailOutcome = BookMissing | Page(canReview: bool, reviewed: bool) | ReviewCreated

  datatype DeleteOutcome = UserNotFound | Kept | Removed

  /** A review form validates when the rating is one of its five choices and
      the required comment is not empty. */
  predicate ValidReviewForm(f: ReviewForm) {
    ValidRating(f.rating) && f.comment != ""
  }

  class Store {
    var users: map<UserId, User>
    var profiles: set<UserId>
    /** The users that own a cart; a cart is one-to-one with its user. */
    var carts: set<UserId>
    var books: map<BookId, Book>
    /** The cart lines of every cart, in the order they were created. */
    var items: seq<CartItem>
    var nextItemId: nat
    var orders: seq<Order>
    var nextOrderId: nat
    var reviews: seq<Review>

    /** The schema's constraints and the uniqueness the handlers keep. */
    ghost predicate Valid()
      reads this
    {
      && StocksNonNegative(books)
      && profiles <= users.Keys
      && carts <= users.Keys
      && Carts.WellFormed(items, carts, books, nextItemId)
      && OrdersWellFormed(orders, users.Keys, nextOrderId)
      && ReviewsWellFormed(reviews, users.Keys, books.Keys)
    }

    /** An empty store over a catalogue. */
    constructor (catalog: map<BookId, Book>)
      requires StocksNonNegative(catalog)
      ensures Valid()
      ensures books == catalog && users == map[] && profiles == {} && carts == {}
      ensures items == [] && orders == [] && reviews == []
    {
      users, profiles, carts := map[], {}, {};
      books := catalog;
      items, nextItemId := [], 1;
      orders, nextOrderId := [], 1;
      reviews := [];
    }

    /** The total of `u`'s cart, in cents. */
    function CartTotal(u: UserId): (t: int)
      reads this
      requires Valid()
      ensures CartOf(items, u) == [] ==> t == 0
    {
      Total(books, CartOf(items, u))
    }

    /** Whether the book page offers the review form: the visitor is signed
        in, owns an order with a line for the book, and has not reviewed it. */
    predicate CanReview(user: Option<UserId>, b: BookId)
      reads this
    {
      user.Some? && Bought(orders, user.value, b) && !Reviewed(reviews, user.value, b)
    }

    /** Saving a user account; when the save creates the account, the
        creation hook gives it a cart and a profile. */
    method SaveUser(u: UserId, superuser: bool) returns (created: bool)
      requires Valid()
      modifies this`users, this`carts, this`profiles
      ensures Valid()
      ensures created == (u !in old(users))
      ensures users == old(users)[u := User(superuser)]
      ensures created ==> u !in old(carts) && carts == old(carts) + {u}
      ensures created ==> u !in old(profiles) && profiles == old(profiles) + {u}
      ensures !created ==> carts == old(carts) && profiles == old(profiles)
    {
      created := u !in users;
      users := users[u := User(superuser)];
      if created {
        carts := carts + {u};
        profiles := profiles + {u};
      }
    }

    /** Saving cart line `i` with quantity `q`: the line's book in its cart
        now counts `q` copies, and nothing else in any cart changes. */
    method SaveLine(i: nat, q: int)
      requires Valid() && i < |items| && q >= 1
      modifies this`items
      ensures Valid()
      ensures items == old(items[i := items[i].(quantity := q)])
      ensures Quantity(items, old(items[i].cart), old(items[i].book)) == q
      ensures forall c, b :: !(c == old(items[i].cart) && b == old(items[i].book)) ==>
                Quantity(items, c, b) == old(Quantity(items, c, b))
      ensures CartTotal(old(items[i].cart)) ==
              old(CartTotal(items[i].cart)) - old(Subtotal(books, items[i])) + Subtotal(books, items[i])
    {
      ghost var before := items;
      var x := items[i].(quantity := q);
      forall c, b ensures Quantity(before[i := x], c, b) ==
                          if c == x.cart && b == x.book then q else Quantity(before, c, b) {
        QuantityUpdate(before, i, q, c, b);
      }
      QuantityUpdate(before, i, q, x.cart, x.book);
      CartTotalUpdate(books, before, i, x, x.cart);
      WellFormedUpdate(before, carts, books, nextItemId, i, q);
      items := items[i := x];
    }

    /** Deleting cart line `i`: its cart no longer holds its book, and
        nothing else in any cart changes. */
    method DeleteLine(i: nat)
      requires Valid() && i < |items|
      modifies this`items
      ensures Valid()
      ensures items == old(items[..i] + items[i + 1..])
      ensures Quantity(items, old(items[i].cart), old(items[i].book)) == 0
      ensures forall c, b :: !(c == old(items[i].cart) && b == old(items[i].book)) ==>
                Quantity(items, c, b) == old(Quantity(items, c, b))
      ensures CartTotal(old(items[i].cart)) == old(CartTotal(items[i].cart)) - old(Subtotal(books, items[i]))
    {
      ghost var before := items;
      ghost var x := items[i];
      forall c, b ensures Quantity(before[..i] + before[i + 1..], c, b) ==
                          if c == x.cart && b == x.book then 0 else Quantity(before, c, b) {
        QuantityRemove(before, i, c, b);
      }
      CartTotalRemove(books, before, i, x.cart);
      WellFormedRemove(before, carts, books, nextItemId, i);
      items := items[..i] + items[i + 1..];
    }

    /** Creating the line of `u`'s cart for book `b`, under the next id, at
        the default quantity. */
    method CreateLine(u: UserId, b: BookId)
      requires Valid() && u in carts && b in books && FindLine(items, u, b).None?
      modifies this`items, this`nextItemId
      ensures Valid()
      ensures items == old(items) + [CartItem(old(nextItemId), u, b, DefaultQuantity)]
      ensures nextItemId == old(nextItemId) + 1
      ensures Quantity(items, u, b) == DefaultQuantity
      ensures forall c, b' :: !(c == u && b' == b) ==> Quantity(items, c, b') == old(Quantity(items, c, b'))
      ensures CartTotal(u) == old(CartTotal(u)) + books[b].price
    {
      ghost var before := items;
      var x := CartItem(nextItemId, u, b, DefaultQuantity);
      forall c, b' ensures Quantity(before + [x], c, b') ==
                           if c == u && b' == b then DefaultQuantity else Quantity(before, c, b') {
        QuantityAppend(before, x, c, b');
      }
      CartTotalAppend(books, before, x, u);
      assert Subtotal(books, x) == books[b].price;
      WellFormedAppend(before, carts, books, nextItemId, x);
      items := items + [x];
      nextItemId := nextItemId + 1;
    }

    /** Adding one copy of book `b` to the visitor's cart. */
    method AddToCart(user: Option<UserId>, b: BookId) returns (r: AddOutcome)
      requires Valid()
      requires user.Some? ==> user.value in users
      modifies this`carts, this`items, this`nextItemId
      ensures Valid()
      ensures user.None? ==> r == LoginRequired && unchanged(this)
      ensures user.Some? && b !in books ==> r == BookNotFound && unchanged(this)
      ensures user.Some? && b in books && books[b].stock <= 0 ==> r == SoldOut && unchanged(this)
      ensures user.Some? && b in books && books[b].stock > 0 ==>
        var u := user.value;
        var found := old(FindLine(items, u, b));
        && r == Added(found.None?)
        && carts == old(carts) + {u}
        && (found.None? ==>
              items == old(items) + [CartItem(old(nextItemId), u, b, DefaultQuantity)]
              && nextItemId == old(nextItemId) + 1)
        && (found.Some? ==>
              items == old(items)[found.value := old(items[found.value]).(quantity := old(items[found.value].quantity) + 1)]
              && nextItemId == old(nextItemId))
        && Quantity(items, u, b) == old(Quantity(items, u, b)) + 1
        && (forall c, b' :: !(c == u && b' == b) ==> Quantity(items, c, b') == old(Quantity(items, c, b')))
        && CartTotal(u) == old(CartTotal(u)) + books[b].price
    {
      if user.None? {
        return LoginRequired;
      }
      var u := user.value;
      if b !in books {
        return BookNotFound;
      }
      if books[b].stock <= 0 {
        return SoldOut;
      }
      if u !in carts {
        WellFormedWiden(items, carts, carts + {u}, books, books, nextItemId);
        carts := carts + {u};
      }
      var found := FindLine(items, u, b);
      match found {
        case Some(i) =>
          QuantityOfMember(items, items[i]);
          SubtotalStep(books, items[i]);
          SaveLine(i, items[i].quantity + 1);
          r := Added(false);
        case None =>
          CreateLine(u, b);
          r := Added(true);
      }
    }

    /** Raising the quantity of a cart line by one, while it stays within stock. */
    method Increment(requester: UserId, itemId: ItemId) returns (r: ItemOutcome)
      requires Valid() && requester in users
      modifies this`items
      ensures Valid()
      ensures old(FindItem(items, itemId)).None? ==> r == ItemNotFound && items == old(items)
      ensures old(FindItem(items, itemId)).Some? ==>
        var i := old(FindItem(items, itemId)).value;
        var it := old(items[i]);
        var stock := books[it.book].stock;
        if it.cart != requester then r == NotOwner && items == old(items)
        else
          && (it.quantity < stock ==>
                r == Updated && items == old(items)[i := it.(quantity := it.quantity + 1)]
                && CartTotal(requester) == old(CartTotal(requester)) + books[it.book].price)
          && (it.quantity >= stock ==> r == NoMoreStock && items == old(items))
          && Quantity(items, it.cart, it.book) == (if it.quantity < stock then it.quantity + 1 else it.quantity)
          && (it.quantity <= stock ==> Quantity(items, it.cart, it.book) <= stock)
          && (forall c, b :: !(c == it.cart && b == it.book) ==> Quantity(items, c, b) == old(Quantity(items, c, b)))
    {
      var found := FindItem(items, itemId);
      if found.None? {
        return ItemNotFound;
      }
      var i := found.value;
      var it := items[i];
      if it.cart != requester {
        return NotOwner;
      }
      if it.quantity < books[it.book].stock {
        SubtotalStep(books, it);
        SaveLine(i, it.quantity + 1);
        r := Updated;
      } else {
        QuantityOfMember(items, it);
        r := NoMoreStock;
      }
    }

    /** Lowering the quantity of a cart line by one; a line at quantity 1 is deleted. */
    method Decrement(requester: UserId, itemId: ItemId) returns (r: ItemOutcome)
      requires Valid() && requester in users
      modifies this`items
      ensures Valid()
      ensures old(FindItem(items, itemId)).None? ==> r == ItemNotFound && items == old(items)
      ensures old(FindItem(items, itemId)).Some? ==>
        var i := old(FindItem(items, itemId)).value;
        var it := old(items[i]);
        if it.cart != requester then r == NotOwner && items == old(items)
        else
          && (it.quantity > 1 ==> r == Updated && items == old(items)[i := it.(quantity := it.quantity - 1)])
          && (it.quantity <= 1 ==> r == Deleted && items == old(items[..i] + items[i + 1..]))
          && Quantity(items, it.cart, it.book) == it.quantity - 1
          && (forall c, b :: !(c == it.cart && b == it.book) ==> Quantity(items, c, b) == old(Quantity(items, c, b)))
          && CartTotal(requester) == old(CartTotal(requester)) - books[it.book].price
    {
      var found := FindItem(items, itemId);
      if found.None? {
        return ItemNotFound;
      }
      var i := found.value;
      var it := items[i];
      if it.cart != requester {
        return NotOwner;
      }
      assert it in items;
      if it.quantity > 1 {
        var lower := it.(quantity := it.quantity - 1);
        SubtotalStep(books, lower);
        assert lower.(quantity := lower.quantity + 1) == it;
        SaveLine(i, lower.quantity);
        r := Updated;
      } else {
        assert it.quantity == DefaultQuantity;
        DeleteLine(i);
        r := Deleted;
      }
    }

    /** Deleting a cart line outright. */
    method Remove(requester: UserId, itemId: ItemId) returns (r: ItemOutcome)
      requires Valid() && requester in users
      modifies this`items
      ensures Valid()
      ensures old(FindItem(items, itemId)).None? ==> r == ItemNotFound && items == old(items)
      ensures old(FindItem(items, itemId)).Some? ==>
        var i := old(FindItem(items, itemId)).value;
        var it := old(items[i]);
        if it.cart != requester then r == NotOwner && items == old(items)
        else
          && r == Deleted
          && items == old(items[..i] + items[i + 1..])
          && Quantity(items, it.cart, it.book) == 0
          && (forall c, b :: !(c == it.cart && b == it.book) ==> Quantity(items, c, b) == old(Quantity(items, c, b)))
          && CartTotal(requester) == old(CartTotal(requester)) - Subtotal(books, it)
    {
      var found := FindItem(items, itemId);
      if found.None? {
        return ItemNotFound;
      }
      var i := found.value;
      if items[i].cart != requester {
        return NotOwner;
      }
      DeleteLine(i);
      r := Deleted;
    }

    /** The second pass of order placement: for each line of `cart`, in
        order, the order line copied from it and its quantity taken from its
        book's stock. */
    method TakeStock(cart: seq<CartItem>) returns (lines: seq<OrderLine>)
      requires Priced(books, cart)
      modifies this`books
      ensures books == Deduct(old(books), cart)
      ensures lines == Snapshot(old(books), cart)
    {
      ghost var before := books;
      lines := [];
      var i := 0;
      while i < |cart|
        invariant 0 <= i <= |cart|
        invariant Priced(before, cart[..i])
        invariant books == Deduct(before, cart[..i])
        invariant lines == Snapshot(before, cart[..i])
      {
        var it := cart[i];
        assert it in cart;
        assert cart[..i + 1][..i] == cart[..i] && cart[..i + 1][i] == it;
        var book := books[it.book];
        lines := lines + [OrderLine(it.book, it.quantity, book.price)];
        books := books[it.book := book.(stock := book.stock - it.quantity)];
        i := i + 1;
      }
      assert cart[..|cart|] == cart;
    }

    /** Deleting every line of `u`'s cart. */
    method ClearCart(u: UserId)
      requires Valid()
      modifies this`items
      ensures Valid()
      ensures items == DropCart(old(items), u)
      ensures CartOf(items, u) == []
      ensures forall c, b :: Quantity(items, c, b) == if c == u then 0 else old(Quantity(items, c, b))
    {
      ghost var before := items;
      forall c, b ensures Quantity(DropCart(before, u), c, b) == if c == u then 0 else Quantity(before, c, b) {
        QuantityDropCart(before, u, c, b);
      }
      WellFormedDropCart(before, carts, books, nextItemId, u);
      WellFormedWiden(DropCart(before, u), carts - {u}, carts, books, books, nextItemId);
      items := DropCart(items, u);
      if CartOf(items, u) != [] {
        assert CartOf(items, u)[0] in CartOf(items, u);
      }
    }

    /** Placing the order of `u` once every line of the cart is in stock:
        the order row with the amounts of the cart, its lines copied from the
        cart, each line's quantity taken from stock, and the cart emptied. */
    method PlaceOrder(u: UserId, form: CheckoutForm) returns (id: OrderId)
      requires Valid() && u in users && InStock(books, CartOf(items, u))
      modifies this`books, this`items, this`orders, this`nextOrderId
      ensures Valid()
      ensures
        var cart := old(CartOf(items, u));
        var subtotal := old(CartTotal(u));
        var order := Order(old(nextOrderId), u, form.address, form.payment,
                           subtotal, Taxes(subtotal), AmountDue(subtotal), Paid, Snapshot(old(books), cart));
        && id == order.id
        && orders == old(orders) + [order]
        && nextOrderId == old(nextOrderId) + 1
        && LinesTotal(order.lines) == order.subtotal
        && books == Deduct(old(books), cart)
        && (forall b | b in books :: books[b].stock == old(books[b].stock) - old(Quantity(items, u, b)))
        && items == DropCart(old(items), u)
        && CartOf(items, u) == []
        && (forall c, b :: Quantity(items, c, b) == if c == u then 0 else old(Quantity(items, c, b)))
    {
      var cart := CartOf(items, u);
      var subtotal := CartTotal(u);
      ghost var before := books;
      CartOfDistinctBooks(items, u);
      StockStaysNonNegative(books, cart);
      forall b | b in books ensures Deduct(before, cart)[b].stock == before[b].stock - Quantity(items, u, b) {
        DeductCart(before, items, u, b);
      }
      SnapshotTotal(before, cart);
      WellFormedWiden(items, carts, carts, before, Deduct(before, cart), nextItemId);
      var lines := TakeStock(cart);
      var order := Order(nextOrderId, u, form.address, form.payment,
                         subtotal, Taxes(subtotal), AmountDue(subtotal), Paid, lines);
      orders := orders + [order];
      nextOrderId := nextOrderId + 1;
      ClearCart(u);
      id := order.id;
    }

    /** The checkout page of `u`: with no posted form, a preview of the
        amounts; with one, the order is placed if every line is in stock. */
    method ProcessOrder(u: UserId, form: Option<CheckoutForm>) returns (r: CheckoutOutcome)
      requires Valid() && u in users
      modifies this`books, this`items, this`orders, this`nextOrderId
      ensures Valid()
      ensures u !in carts ==> r == CartNotFound && unchanged(this)
      ensures u in carts && old(CartOf(items, u)) == [] ==> r == EmptyCart && unchanged(this)
      ensures u in carts && old(CartOf(items, u)) != [] && form.None? ==>
        var subtotal := old(CartTotal(u));
        r == Preview(subtotal, Taxes(subtotal), AmountDue(subtotal)) && unchanged(this)
      ensures u in carts && old(CartOf(items, u)) != [] && form.Some? && !old(InStock(books, CartOf(items, u))) ==>
        && r.InsufficientStock?
        && unchanged(this)
        && exists x | x in old(CartOf(items, u)) :: x.book == r.book && x.quantity > old(books[x.book].stock)
      ensures u in carts && old(CartOf(items, u)) != [] && form.Some? && old(InStock(books, CartOf(items, u))) ==>
        var cart := old(CartOf(items, u));
        var subtotal := old(CartTotal(u));
        var order := Order(old(nextOrderId), u, form.value.address, form.value.payment,
                           subtotal, Taxes(subtotal), AmountDue(subtotal), Paid, Snapshot(old(books), cart));
        && r == Placed(order.id)
        && orders == old(orders) + [order]
        && nextOrderId == old(nextOrderId) + 1
        && LinesTotal(order.lines) == order.subtotal
        && books == Deduct(old(books), cart)
        && (forall b | b in books :: books[b].stock == old(books[b].stock) - old(Quantity(items, u, b)))
        && items == DropCart(old(items), u)
        && CartOf(items, u) == []
        && (forall c, b :: Quantity(items, c, b) == if c == u then 0 else old(Quantity(items, c, b)))
    {
      if u !in carts {
        return CartNotFound;
      }
      var cart := CartOf(items, u);
      if cart == [] {
        return EmptyCart;
      }
      var subtotal := CartTotal(u);
      if form.None? {
        return Preview(subtotal, Taxes(subtotal), AmountDue(subtotal));
      }
      var k := FirstShortage(books, cart);
      if k < |cart| {
        assert cart[k] in cart;
        return InsufficientStock(cart[k].book);
      }
      var id := PlaceOrder(u, form.value);
      r := Placed(id);
    }

    /** The book page with its review form. A posted, valid review is saved
        only when the form is offered. */
    method BookDetail(user: Option<UserId>, b: BookId, post: Option<ReviewForm>) returns (r: DetailOutcome)
      requires Valid()
      requires user.Some? ==> user.value in users
      modifies this`reviews
      ensures Valid()
      ensures b !in books ==> r == BookMissing && reviews == old(reviews)
      ensures b in books && post.Some? && old(CanReview(user, b)) && ValidReviewForm(post.value) ==>
        && r == ReviewCreated
        && reviews == old(reviews) + [Review(user.value, b, post.value.rating, post.value.comment)]
        && !CanReview(user, b)
      ensures b in books && !(post.Some? && old(CanReview(user, b)) && ValidReviewForm(post.value)) ==>
        && r == Page(old(CanReview(user, b)), user.Some? && Reviewed(reviews, user.value, b))
        && reviews == old(reviews)
    {
      if b !in books {
        return BookMissing;
      }
      var canReview := CanReview(user, b);
      var reviewed := user.Some? && Reviewed(reviews, user.value, b);
      if post.Some? && canReview && ValidReviewForm(post.value) {
        var review := Review(user.value, b, post.value.rating, post.value.comment);
        ReviewsWellFormedAppend(reviews, users.Keys, books.Keys, review);
        reviews := reviews + [review];
        assert review in reviews;
        return ReviewCreated;
      }
      r := Page(canReview, reviewed);
    }

    /** Deleting a user on a staff request. A superuser is never deleted;
        otherwise the user goes with the rows that belong to them. */
    method DeleteUser(target: UserId) returns (r: DeleteOutcome)
      requires Valid()
      modifies this`users, this`profiles, this`carts, this`items, this`orders, this`reviews
      ensures Valid()
      ensures target !in old(users) ==> r == UserNotFound && unchanged(this)
      ensures target in old(users) && old(users[target].isSuperuser) ==> r == Kept && unchanged(this)
      ensures target in old(users) && !old(users[target].isSuperuser) ==>
        && r == Removed
        && users == old(users) - {target}
        && profiles == old(profiles) - {target}
        && carts == old(carts) - {target}
        && items == DropCart(old(items), target)
        && orders == OrdersNotBy(old(orders), target)
        && reviews == ReviewsNotBy(old(reviews), target)
    {
      if target !in users {
        return UserNotFound;
      }
      if users[target].isSuperuser {
        return Kept;
      }
      WellFormedDropCart(items, carts, books, nextItemId, target);
      OrdersWellFormedNotBy(orders, users.Keys, nextOrderId, target);
      ReviewsWellFormedNotBy(reviews, users.Keys, books.Keys, target);
      users := users - {target};
      profiles := profiles - {target};
      carts := carts - {target};
      items := DropCart(items, target);
      orders := OrdersNotBy(orders, target);
      reviews := ReviewsNotBy(reviews, target);
      r := Removed;
    }
  }
}
