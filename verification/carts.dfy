/**
 * Queries over the table of cart lines, in the order the rows were created:
 * the lines of one cart, the lines of every other cart, lookups by row id and
 * by (cart, book), and the view of a cart as a map from book to quantity.
 */
module Carts {
  import opened Wrappers
  import opened Models

  /** No two rows share an id, and no cart holds two rows for one book: a
      cart line is fetched or created by its (cart, book) pair. */
  predicate UniqueItems(items: seq<CartItem>) {
    forall i, j :: 0 <= i < j < |items| ==> Compatible(items[i], items[j])
  }

  /** Rows `x` and `y` may both be in a table without duplicates: different
      ids, and different books when they share a cart. */
  predicate Compatible(x: CartItem, y: CartItem) {
    x.id != y.id && (x.cart == y.cart ==> x.book != y.book)
  }

  /** The constraints on the table of cart lines: every line belongs to an
      existing cart, holds a book of the catalogue at a quantity of at least
      1, and has an id below the next one to be issued; and no duplicates. */
  predicate WellFormed(items: seq<CartItem>, carts: set<UserId>, books: map<BookId, Book>, nextId: nat) {
    && (forall x | x in items :: x.cart in carts && x.book in books && x.quantity >= 1 && x.id < nextId)
    && UniqueItems(items)
  }

  /** The lines of `u`'s cart, in table order. */
  function CartOf(items: seq<CartItem>, u: UserId): (c: seq<CartItem>)
    ensures forall x | x in c :: x in items && x.cart == u
  {
    if items == [] then []
    else
      assert items == [items[0]] + items[1..];
      if items[0].cart == u then [items[0]] + CartOf(items[1..], u) else CartOf(items[1..], u)
  }

  /** The table once `u`'s cart has been emptied: the lines of every other cart. */
  function DropCart(items: seq<CartItem>, u: UserId): (r: seq<CartItem>)
    ensures forall x | x in r :: x in items && x.cart != u
  {
    if items == [] then []
    else
      assert items == [items[0]] + items[1..];
      if items[0].cart != u then [items[0]] + DropCart(items[1..], u) else DropCart(items[1..], u)
  }

  /** Every line of `u`'s cart is in `CartOf(items, u)`. */
  lemma {:induction false} CartOfComplete(items: seq<CartItem>, u: UserId, x: CartItem)
    requires x in items && x.cart == u
    ensures x in CartOf(items, u)
  {
    if items[0] != x {
      assert x in items[1..];
      CartOfComplete(items[1..], u, x);
    }
  }

  /** Every line of another cart survives `DropCart(items, u)`. */
  lemma {:induction false} DropCartComplete(items: seq<CartItem>, u: UserId, x: CartItem)
    requires x in items && x.cart != u
    ensures x in DropCart(items, u)
  {
    if items[0] != x {
      assert x in items[1..];
      DropCartComplete(items[1..], u, x);
    }
  }

  /** The index of the row with id `id`, if there is one. */
  function FindItem(items: seq<CartItem>, id: ItemId): (r: Option<nat>)
    ensures r.Some? ==> r.value < |items| && items[r.value].id == id
    ensures r.None? ==> forall x | x in items :: x.id != id
  {
    if items == [] then None
    else if items[0].id == id then Some(0)
    else match FindItem(items[1..], id)
      case Some(k) => Some(k + 1)
      case None => None
  }

  /** The index of the row of `u`'s cart that holds book `b`, if there is one. */
  function FindLine(items: seq<CartItem>, u: UserId, b: BookId): (r: Option<nat>)
    ensures r.Some? ==> r.value < |items| && items[r.value].cart == u && items[r.value].book == b
    ensures r.None? ==> forall x | x in items :: !(x.cart == u && x.book == b)
  {
    if items == [] then None
    else if items[0].cart == u && items[0].book == b then Some(0)
    else match FindLine(items[1..], u, b)
      case Some(k) => Some(k + 1)
      case None => None
  }

  /** How many copies of book `b` are in `u`'s cart: the cart seen as a map
      from book to quantity, with 0 for a book it does not hold. */
  function Quantity(items: seq<CartItem>, u: UserId, b: BookId): int {
    match FindLine(items, u, b)
    case Some(i) => items[i].quantity
    case None => 0
  }

  /** In a table without duplicate (cart, book) rows, the quantity of a row's
      book in its cart is that row's quantity. */
  lemma QuantityOfMember(items: seq<CartItem>, x: CartItem)
    requires UniqueItems(items) && x in items
    ensures Quantity(items, x.cart, x.book) == x.quantity
  {
    var i :| 0 <= i < |items| && items[i] == x;
    var j := FindLine(items, x.cart, x.book).value;
    assert !(i < j) && !(j < i);
  }

  /** A cart without a row for book `b` holds none of it. */
  lemma QuantityOfAbsent(items: seq<CartItem>, u: UserId, b: BookId)
    requires forall x | x in items :: !(x.cart == u && x.book == b)
    ensures Quantity(items, u, b) == 0
  {
  }

  /** The row with a given id is unique. */
  lemma FindItemUnique(items: seq<CartItem>, i: nat)
    requires UniqueItems(items) && i < |items|
    ensures FindItem(items, items[i].id) == Some(i)
  {
    var j := FindItem(items, items[i].id).value;
    assert !(i < j) && !(j < i);
  }

  /** Changing the quantity of row `i` changes the quantity of that row's
      book in that row's cart, and no other entry of any cart. */
  lemma QuantityUpdate(items: seq<CartItem>, i: nat, q: int, u: UserId, b: BookId)
    requires UniqueItems(items) && i < |items|
    ensures UniqueItems(items[i := items[i].(quantity := q)])
    ensures Quantity(items[i := items[i].(quantity := q)], u, b) ==
            if u == items[i].cart && b == items[i].book then q else Quantity(items, u, b)
  {
    var x := items[i].(quantity := q);
    var s := items[i := x];
    assert UniqueItems(s);
    if u == x.cart && b == x.book {
      QuantityOfMember(s, s[i]);
    } else {
      match FindLine(items, u, b)
      case Some(j) =>
        assert s[j] == items[j];
        QuantityOfMember(s, s[j]);
      case None =>
        forall y | y in s ensures !(y.cart == u && y.book == b) {
          var k :| 0 <= k < |s| && s[k] == y;
          if k != i {
            assert y == items[k];
          }
        }
        QuantityOfAbsent(s, u, b);
    }
  }

  /** Deleting row `i` keeps the table free of duplicates. */
  lemma UniqueRemove(items: seq<CartItem>, i: nat)
    requires UniqueItems(items) && i < |items|
    ensures UniqueItems(items[..i] + items[i + 1..])
  {
    var s := items[..i] + items[i + 1..];
    assert forall k :: 0 <= k < |s| ==> s[k] == items[if k < i then k else k + 1];
  }

  /** Deleting row `i` empties that row's entry of its cart and changes no
      other entry of any cart. */
  lemma QuantityRemove(items: seq<CartItem>, i: nat, u: UserId, b: BookId)
    requires UniqueItems(items) && i < |items|
    ensures UniqueItems(items[..i] + items[i + 1..])
    ensures Quantity(items[..i] + items[i + 1..], u, b) ==
            if u == items[i].cart && b == items[i].book then 0 else Quantity(items, u, b)
  {
    var s := items[..i] + items[i + 1..];
    UniqueRemove(items, i);
    assert forall k :: 0 <= k < |s| ==> s[k] == items[if k < i then k else k + 1];
    if u == items[i].cart && b == items[i].book {
      forall y | y in s ensures !(y.cart == u && y.book == b) {
        var k :| 0 <= k < |s| && s[k] == y;
        var k' := if k < i then k else k + 1;
        assert y == items[k'] && k' != i;
      }
      QuantityOfAbsent(s, u, b);
    } else {
      match FindLine(items, u, b)
      case Some(j) =>
        assert j != i;
        var j' := if j < i then j else j - 1;
        assert s[j'] == items[j];
        QuantityOfMember(s, s[j']);
      case None =>
        assert forall y | y in s :: y in items;
        QuantityOfAbsent(s, u, b);
    }
  }

  /** Appending a row for a book its cart does not yet hold, under a fresh
      id, creates exactly that entry and changes no other. */
  lemma QuantityAppend(items: seq<CartItem>, x: CartItem, u: UserId, b: BookId)
    requires UniqueItems(items)
    requires forall y | y in items :: y.id != x.id && !(y.cart == x.cart && y.book == x.book)
    ensures UniqueItems(items + [x])
    ensures Quantity(items + [x], u, b) == if u == x.cart && b == x.book then x.quantity else Quantity(items, u, b)
  {
    var s := items + [x];
    assert forall k :: 0 <= k < |items| ==> s[k] == items[k] && items[k] in items;
    assert UniqueItems(s);
    if u == x.cart && b == x.book {
      QuantityOfMember(s, s[|items|]);
    } else {
      match FindLine(items, u, b)
      case Some(j) =>
        assert s[j] == items[j];
        QuantityOfMember(s, s[j]);
      case None =>
        assert forall y | y in s :: y in items || y == x;
        QuantityOfAbsent(s, u, b);
    }
  }

  /** The rows after the first of a table without duplicates are without
      duplicates, and each may sit beside the first. */
  lemma UniqueTail(items: seq<CartItem>)
    requires UniqueItems(items) && items != []
    ensures UniqueItems(items[1..])
    ensures forall y | y in items[1..] :: Compatible(items[0], y)
  {
    var rest := items[1..];
    assert forall k :: 0 <= k < |rest| ==> rest[k] == items[k + 1];
  }

  /** A row that may sit beside every row of a table without duplicates can
      be put in front of it. */
  lemma UniqueCons(x: CartItem, t: seq<CartItem>)
    requires UniqueItems(t) && forall y | y in t :: Compatible(x, y)
    ensures UniqueItems([x] + t)
  {
    var s := [x] + t;
    forall i, j | 0 <= i < j < |s| ensures Compatible(s[i], s[j]) {
      assert s[j] == t[j - 1];
      if i == 0 {
        assert t[j - 1] in t;
      } else {
        assert s[i] == t[i - 1];
      }
    }
  }

  /** Dropping the lines of `u`'s cart keeps the table free of duplicates. */
  lemma {:induction false} UniqueDropCart(items: seq<CartItem>, u: UserId)
    requires UniqueItems(items)
    ensures UniqueItems(DropCart(items, u))
  {
    if items != [] {
      UniqueTail(items);
      UniqueDropCart(items[1..], u);
      if items[0].cart != u {
        UniqueCons(items[0], DropCart(items[1..], u));
      }
    }
  }

  /** Emptying `u`'s cart leaves it with no book and every other cart as it was. */
  lemma QuantityDropCart(items: seq<CartItem>, u: UserId, c: UserId, b: BookId)
    requires UniqueItems(items)
    ensures Quantity(DropCart(items, u), c, b) == if c == u then 0 else Quantity(items, c, b)
  {
    var s := DropCart(items, u);
    UniqueDropCart(items, u);
    if c == u {
      QuantityOfAbsent(s, c, b);
    } else {
      match FindLine(items, c, b)
      case Some(j) =>
        DropCartComplete(items, u, items[j]);
        QuantityOfMember(s, items[j]);
      case None =>
        QuantityOfAbsent(s, c, b);
    }
  }

  /** The lines of the carts in a concatenation of two tables. */
  lemma {:induction false} CartOfAppend(a: seq<CartItem>, b: seq<CartItem>, u: UserId)
    ensures CartOf(a + b, u) == CartOf(a, u) + CartOf(b, u)
  {
    if a == [] {
      assert a + b == b;
    } else {
      assert (a + b)[0] == a[0];
      assert (a + b)[1..] == a[1..] + b;
      CartOfAppend(a[1..], b, u);
    }
  }

  /** The lines of `u`'s cart split around row `i`. */
  lemma CartOfSplit(items: seq<CartItem>, i: nat, u: UserId)
    requires i < |items|
    ensures CartOf(items, u) == CartOf(items[..i], u) + CartOf([items[i]], u) + CartOf(items[i + 1..], u)
  {
    assert items == items[..i] + ([items[i]] + items[i + 1..]);
    CartOfAppend(items[..i], [items[i]] + items[i + 1..], u);
    CartOfAppend([items[i]], items[i + 1..], u);
  }

  /** Replacing row `i` by `x` changes the total of cart `u` by the subtotal
      of `x` if it is in `u`'s cart, less that of the old row if it was. */
  lemma CartTotalUpdate(books: map<BookId, Book>, items: seq<CartItem>, i: nat, x: CartItem, u: UserId)
    requires Priced(books, items) && i < |items| && x.book in books
    ensures Priced(books, CartOf(items[i := x], u)) && Priced(books, CartOf(items, u))
    ensures Total(books, CartOf(items[i := x], u)) ==
            Total(books, CartOf(items, u))
            + (if x.cart == u then Subtotal(books, x) else 0)
            - (if items[i].cart == u then Subtotal(books, items[i]) else 0)
  {
    var s := items[i := x];
    CartOfSplit(items, i, u);
    CartOfSplit(s, i, u);
    assert s[..i] == items[..i] && s[i + 1..] == items[i + 1..];
    var pre, post := CartOf(items[..i], u), CartOf(items[i + 1..], u);
    TotalAppend(books, pre + CartOf([items[i]], u), post);
    TotalAppend(books, pre, CartOf([items[i]], u));
    TotalAppend(books, pre + CartOf([x], u), post);
    TotalAppend(books, pre, CartOf([x], u));
  }

  /** Deleting row `i` lowers the total of its cart by that row's subtotal
      and leaves every other cart's total as it was. */
  lemma CartTotalRemove(books: map<BookId, Book>, items: seq<CartItem>, i: nat, u: UserId)
    requires Priced(books, items) && i < |items|
    ensures Priced(books, CartOf(items[..i] + items[i + 1..], u)) && Priced(books, CartOf(items, u))
    ensures Total(books, CartOf(items[..i] + items[i + 1..], u)) ==
            Total(books, CartOf(items, u)) - (if items[i].cart == u then Subtotal(books, items[i]) else 0)
  {
    CartOfSplit(items, i, u);
    CartOfAppend(items[..i], items[i + 1..], u);
    var pre, post := CartOf(items[..i], u), CartOf(items[i + 1..], u);
    TotalAppend(books, pre + CartOf([items[i]], u), post);
    TotalAppend(books, pre, CartOf([items[i]], u));
    TotalAppend(books, pre, post);
  }

  /** Appending row `x` raises the total of its cart by its subtotal and
      leaves every other cart's total as it was. */
  lemma CartTotalAppend(books: map<BookId, Book>, items: seq<CartItem>, x: CartItem, u: UserId)
    requires Priced(books, items) && x.book in books
    ensures Priced(books, CartOf(items + [x], u)) && Priced(books, CartOf(items, u))
    ensures Total(books, CartOf(items + [x], u)) ==
            Total(books, CartOf(items, u)) + (if x.cart == u then Subtotal(books, x) else 0)
  {
    CartOfAppend(items, [x], u);
    TotalAppend(books, CartOf(items, u), CartOf([x], u));
  }

  /** Changing the quantity of row `i` to another quantity of at least 1
      keeps the table well formed. */
  lemma WellFormedUpdate(items: seq<CartItem>, carts: set<UserId>, books: map<BookId, Book>, nextId: nat, i: nat, q: int)
    requires WellFormed(items, carts, books, nextId) && i < |items| && q >= 1
    ensures WellFormed(items[i := items[i].(quantity := q)], carts, books, nextId)
  {
    QuantityUpdate(items, i, q, 0, 0);
  }

  /** Deleting row `i` keeps the table well formed. */
  lemma WellFormedRemove(items: seq<CartItem>, carts: set<UserId>, books: map<BookId, Book>, nextId: nat, i: nat)
    requires WellFormed(items, carts, books, nextId) && i < |items|
    ensures WellFormed(items[..i] + items[i + 1..], carts, books, nextId)
  {
    UniqueRemove(items, i);
    assert forall y | y in items[..i] + items[i + 1..] :: y in items;
  }

  /** Appending a fresh line, under the next id, for a book its cart does not
      yet hold keeps the table well formed once the next id moves on. */
  lemma WellFormedAppend(items: seq<CartItem>, carts: set<UserId>, books: map<BookId, Book>, nextId: nat, x: CartItem)
    requires WellFormed(items, carts, books, nextId)
    requires x.id == nextId && x.cart in carts && x.book in books && x.quantity >= 1
    requires forall y | y in items :: !(y.cart == x.cart && y.book == x.book)
    ensures WellFormed(items + [x], carts, books, nextId + 1)
  {
    QuantityAppend(items, x, 0, 0);
  }

  /** Emptying `u`'s cart keeps the table well formed, even once `u`'s cart
      is gone. */
  lemma WellFormedDropCart(items: seq<CartItem>, carts: set<UserId>, books: map<BookId, Book>, nextId: nat, u: UserId)
    requires WellFormed(items, carts, books, nextId)
    ensures WellFormed(DropCart(items, u), carts - {u}, books, nextId)
  {
    UniqueDropCart(items, u);
  }

  /** More carts, or a catalogue with the same books at other prices and
      stocks, keep a well-formed table well formed. */
  lemma WellFormedWiden(items: seq<CartItem>, carts: set<UserId>, carts': set<UserId>,
                        books: map<BookId, Book>, books': map<BookId, Book>, nextId: nat)
    requires WellFormed(items, carts, books, nextId)
    requires carts <= carts' && books.Keys <= books'.Keys
    ensures WellFormed(items, carts', books', nextId)
  {
  }
}
