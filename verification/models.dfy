/** The optional value returned by the table lookups. */
module Wrappers {
  datatype Option<+T> = None | Some(value: T)
}

/**
 * The entities of the bookstore's schema (the `tienda` models) and the money
 * values derived from them.
 *
 * Money is kept exact: prices and cart subtotals are integer cents (the
 * schema's two-place decimals), and the 16 % tax and the amount due are kept
 * in hundredths of a cent, so no value is ever rounded.
 */
module Models {

  type UserId = nat
  type BookId = nat
  type ItemId = nat
  type OrderId = nat

  /** A book of the catalogue: its price in cents and its stock. The schema
      validates the stock as non-negative; the store keeps that as an invariant. */
  datatype Book = Book(price: int, stock: int)

  /** A cart line. A cart is one-to-one with its user, so `cart` names the
      owning cart by the user it belongs to. The schema validates
      `quantity >= 1`; the store keeps that as an invariant. */
  datatype CartItem = CartItem(id: ItemId, cart: UserId, book: BookId, quantity: int)

  /** Quantity a new cart line starts with. */
  const DefaultQuantity: int := 1

  /** The three order states (pending payment, paid, shipped). The schema's
      default, pending, is only used by order creation outside the checkout. */
  datatype Status = Pending | Paid | Shipped

  /** One line of a placed order; `unitPrice` is the book's price, in cents,
      copied when the order was placed. */
  datatype OrderLine = OrderLine(book: BookId, quantity: int, unitPrice: int)

  /** A placed order with its lines. `subtotal` is in cents; `taxes` and
      `total` are in hundredths of a cent. */
  datatype Order = Order(
    id: OrderId,
    user: UserId,
    address: string,
    payment: string,
    subtotal: int,
    taxes: int,
    total: int,
    status: Status,
    lines: seq<OrderLine>)

  datatype Review = Review(user: UserId, book: BookId, rating: int, comment: string)

  /** A user account; only the superuser flag matters to the modelled views. */
  datatype User = User(isSuperuser: bool)

  /** The five choices of a review's rating. */
  predicate ValidRating(rating: int) {
    1 <= rating <= 5
  }

  /** The tax rate, 0.16, as a percentage. */
  const TaxRatePercent: int := 16

  /** Tax on a subtotal in cents, in hundredths of a cent (exactly 16 % of it). */
  function Taxes(subtotal: int): (t: int)
    ensures t == subtotal * 100 * TaxRatePercent / 100
    ensures subtotal >= 0 ==> 0 <= t <= subtotal * 100
  {
    subtotal * TaxRatePercent
  }

  /** Amount due for a subtotal in cents, in hundredths of a cent: the
      subtotal plus its tax, that is 1.16 times the subtotal. */
  function AmountDue(subtotal: int): (d: int)
    ensures d == subtotal * 116
  {
    subtotal * 100 + Taxes(subtotal)
  }

  /** No book's stock is negative. */
  predicate StocksNonNegative(books: map<BookId, Book>) {
    forall b | b in books :: books[b].stock >= 0
  }

  /** Every line's book is in the catalogue. */
  predicate Priced(books: map<BookId, Book>, s: seq<CartItem>) {
    forall x | x in s :: x.book in books
  }

  /** The subtotal of a cart line: its book's price times its quantity. */
  function Subtotal(books: map<BookId, Book>, item: CartItem): (s: int)
    requires item.book in books
    ensures item.quantity == DefaultQuantity ==> s == books[item.book].price
    ensures books[item.book].price >= 0 && item.quantity >= 0 ==> s >= 0
  {
    books[item.book].price * item.quantity
  }

  /** The total of a cart: the sum of its lines' subtotals, 0 when empty. */
  function Total(books: map<BookId, Book>, s: seq<CartItem>): (t: int)
    requires Priced(books, s)
    ensures s == [] ==> t == 0
  {
    if s == [] then 0 else Subtotal(books, s[0]) + Total(books, s[1..])
  }

  /** The total of a concatenation is the sum of the totals. */
  lemma {:induction false} TotalAppend(books: map<BookId, Book>, a: seq<CartItem>, b: seq<CartItem>)
    requires Priced(books, a) && Priced(books, b)
    ensures Total(books, a + b) == Total(books, a) + Total(books, b)
  {
    if a == [] {
      assert a + b == b;
    } else {
      assert (a + b)[0] == a[0];
      assert (a + b)[1..] == a[1..] + b;
      TotalAppend(books, a[1..], b);
    }
  }

  /** A cart of books with non-negative prices, at non-negative quantities,
      has a non-negative total. */
  lemma {:induction false} TotalNonNegative(books: map<BookId, Book>, s: seq<CartItem>)
    requires Priced(books, s)
    requires forall x | x in s :: books[x.book].price >= 0 && x.quantity >= 0
    ensures Total(books, s) >= 0
  {
    if s != [] {
      assert s[0] in s;
      assert forall x | x in s[1..] :: x in s;
      TotalNonNegative(books, s[1..]);
    }
  }

  /** Raising a line's quantity by one raises its subtotal by its book's price. */
  lemma SubtotalStep(books: map<BookId, Book>, item: CartItem)
    requires item.book in books
    ensures Subtotal(books, item.(quantity := item.quantity + 1)) == Subtotal(books, item) + books[item.book].price
  {
    var p, q := books[item.book].price, item.quantity;
    assert p * (q + 1) == p * q + p;
  }
}
