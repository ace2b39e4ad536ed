/**
 * The pieces of order placement that work on one cart: the stock check that
 * runs over every line before anything is written, the catalogue after each
 * line's quantity has been taken from its book's stock, and the order lines
 * copied from the cart with the prices of the moment.
 */
module Checkout {
  import opened Models
  import opened Carts

  /** No book appears on two lines of the cart. */
  predicate DistinctBooks(c: seq<CartItem>) {
    forall i, j :: 0 <= i < j < |c| ==> c[i].book != c[j].book
  }

  /** Every line's quantity is within its book's stock. */
  predicate InStock(books: map<BookId, Book>, c: seq<CartItem>) {
    forall x | x in c :: x.book in books && x.quantity <= books[x.book].stock
  }

  /** The validation pass of order placement: the index of the first line
      whose quantity exceeds its book's stock, or |c| when every line fits. */
  method FirstShortage(books: map<BookId, Book>, c: seq<CartItem>) returns (k: nat)
    requires Priced(books, c)
    ensures k <= |c|
    ensures forall j :: 0 <= j < k ==> c[j].quantity <= books[c[j].book].stock
    ensures k < |c| ==> c[k].quantity > books[c[k].book].stock
    ensures k == |c| <==> InStock(books, c)
  {
    k := 0;
    while k < |c|
      invariant k <= |c|
      invariant forall j :: 0 <= j < k ==> c[j].quantity <= books[c[j].book].stock
    {
      if c[k].quantity > books[c[k].book].stock {
        assert c[k] in c;
        return;
      }
      k := k + 1;
    }
  }

  /** The catalogue after each line's quantity has been taken, in cart order,
      from its book's stock. */
  function Deduct(books: map<BookId, Book>, c: seq<CartItem>): (r: map<BookId, Book>)
    requires Priced(books, c)
    ensures r.Keys == books.Keys
    ensures forall b | b in r :: r[b].price == books[b].price
  {
    if c == [] then books
    else
      var last := c[|c| - 1];
      var before := Deduct(books, c[..|c| - 1]);
      before[last.book := before[last.book].(stock := before[last.book].stock - last.quantity)]
  }

  /** The order lines copied from the cart: one per line, in cart order, with
      the line's book and quantity and the book's current price. */
  function Snapshot(books: map<BookId, Book>, c: seq<CartItem>): (r: seq<OrderLine>)
    requires Priced(books, c)
    ensures |r| == |c|
  {
    if c == [] then []
    else
      var last := c[|c| - 1];
      Snapshot(books, c[..|c| - 1]) + [OrderLine(last.book, last.quantity, books[last.book].price)]
  }

  /** The sum of the order lines' quantities times their unit prices. */
  function LinesTotal(lines: seq<OrderLine>): int {
    if lines == [] then 0 else lines[0].unitPrice * lines[0].quantity + LinesTotal(lines[1..])
  }

  /** With no book on two lines, a book's stock drops by the quantity of the
      line that holds it, and a book on no line keeps its stock. */
  lemma {:induction false} DeductStock(books: map<BookId, Book>, c: seq<CartItem>, b: BookId)
    requires Priced(books, c) && DistinctBooks(c) && b in books
    ensures (forall x | x in c :: x.book != b) ==> Deduct(books, c)[b].stock == books[b].stock
    ensures forall k | 0 <= k < |c| && c[k].book == b :: Deduct(books, c)[b].stock == books[b].stock - c[k].quantity
  {
    if c != [] {
      var init := c[..|c| - 1];
      var last := c[|c| - 1];
      assert forall x | x in init :: x in c;
      assert forall k | 0 <= k < |init| :: init[k] == c[k];
      DeductStock(books, init, b);
      if last.book == b {
        assert forall x | x in init :: x.book != b;
      }
    }
  }

  /** When every line fits its book's stock and no book is on two lines,
      no stock goes negative. */
  lemma StockStaysNonNegative(books: map<BookId, Book>, c: seq<CartItem>)
    requires Priced(books, c) && DistinctBooks(c) && InStock(books, c)
    requires StocksNonNegative(books)
    ensures StocksNonNegative(Deduct(books, c))
  {
    forall b | b in Deduct(books, c) ensures Deduct(books, c)[b].stock >= 0 {
      DeductStock(books, c, b);
      if k :| 0 <= k < |c| && c[k].book == b {
        assert c[k] in c;
      }
    }
  }

  /** Line `k` of the snapshot copies line `k` of the cart. */
  lemma {:induction false} SnapshotAt(books: map<BookId, Book>, c: seq<CartItem>, k: nat)
    requires Priced(books, c) && k < |c|
    ensures Snapshot(books, c)[k] == OrderLine(c[k].book, c[k].quantity, books[c[k].book].price)
  {
    var init := c[..|c| - 1];
    assert forall x | x in init :: x in c;
    if k < |c| - 1 {
      SnapshotAt(books, init, k);
    }
  }

  /** The order lines add up to the cart total they were copied from. */
  lemma {:induction false} SnapshotTotal(books: map<BookId, Book>, c: seq<CartItem>)
    requires Priced(books, c)
    ensures LinesTotal(Snapshot(books, c)) == Total(books, c)
  {
    if c != [] {
      var init := c[..|c| - 1];
      var last := c[|c| - 1];
      assert forall x | x in init :: x in c;
      SnapshotTotal(books, init);
      var line := OrderLine(last.book, last.quantity, books[last.book].price);
      assert Snapshot(books, c) == Snapshot(books, init) + [line];
      LinesTotalAppend(Snapshot(books, init), [line]);
      assert LinesTotal([line]) == Subtotal(books, last) == Total(books, [last]);
      assert c == init + [last];
      TotalAppend(books, init, [last]);
    }
  }

  lemma {:induction false} LinesTotalAppend(a: seq<OrderLine>, b: seq<OrderLine>)
    ensures LinesTotal(a + b) == LinesTotal(a) + LinesTotal(b)
  {
    if a == [] {
      assert a + b == b;
    } else {
      assert (a + b)[1..] == a[1..] + b;
      LinesTotalAppend(a[1..], b);
    }
  }

  /** In a table without duplicate (cart, book) rows, no book is on two lines
      of one cart. */
  lemma {:induction false} CartOfDistinctBooks(items: seq<CartItem>, u: UserId)
    requires UniqueItems(items)
    ensures DistinctBooks(CartOf(items, u))
  {
    if items != [] {
      var rest := items[1..];
      assert UniqueItems(rest) by {
        assert forall k :: 0 <= k < |rest| ==> rest[k] == items[k + 1];
      }
      CartOfDistinctBooks(rest, u);
      if items[0].cart == u {
        var t := CartOf(rest, u);
        assert CartOf(items, u) == [items[0]] + t;
        forall j | 0 <= j < |t| ensures items[0].book != t[j].book {
          assert t[j] in rest;
          var k :| 0 <= k < |rest| && rest[k] == t[j];
          assert items[k + 1] == t[j];
        }
      }
    }
  }

  /** Taking `u`'s cart from the stock lowers each book's stock by the
      quantity of that book in `u`'s cart, 0 for a book it does not hold. */
  lemma DeductCart(books: map<BookId, Book>, items: seq<CartItem>, u: UserId, b: BookId)
    requires UniqueItems(items) && Priced(books, items) && b in books
    ensures Priced(books, CartOf(items, u))
    ensures Deduct(books, CartOf(items, u))[b].stock == books[b].stock - Quantity(items, u, b)
  {
    var c := CartOf(items, u);
    CartOfDistinctBooks(items, u);
    DeductStock(books, c, b);
    if k :| 0 <= k < |c| && c[k].book == b {
      assert c[k] in c;
      QuantityOfMember(items, c[k]);
    } else {
      forall x | x in items ensures !(x.cart == u && x.book == b) {
        if x.cart == u {
          CartOfComplete(items, u, x);
        }
      }
      QuantityOfAbsent(items, u, b);
    }
  }
}
