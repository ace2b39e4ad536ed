# Tinta y Hojas: the shopping cart and checkout, in Dafny

This project models the shopping cart and checkout of the *Tinta y Hojas* Django
bookstore (the `tienda` application). It covers:

- the handlers that add a book to a cart, raise, lower and remove a cart line,
  and preview or place an order;
- the book page that offers and saves a review;
- the staff action that deletes a user;
- the hook that gives every new user a cart and a profile.

It also models the money values these use: a line's subtotal, a cart's total, and
the 16 % tax.

The database is one `Views.Store` object whose fields are the tables:

- users, profiles, carts and books;
- the cart lines, in creation order;
- the orders, with their lines;
- the reviews.

Each handler is a method that changes only the tables it names in `modifies`. Its
outcome (a redirect, a page, an error) is its return value. `Store.Valid()` holds
the schema's constraints and the uniqueness the handlers keep:

- every stock is at least 0;
- every cart line has a quantity of at least 1;
- a cart holds at most one line per book;
- every rating is between 1 and 5;
- there is at most one review per (user, book).

Every handler keeps `Valid()`.

A cart is one-to-one with its user, so a cart is named by its user's id.
`Carts.Quantity(items, u, b)` views a cart as a map from book to quantity, with 0
for a book the cart does not hold. The handlers' contracts are stated over this
view and over the cart total:

- the entry that changes;
- that no other entry of any cart changes;
- by how much the total moves.

Money is exact: prices and subtotals are integer cents. Tax and amount due are in
hundredths of a cent: tax is the subtotal × 16, and the amount due is the
subtotal × 116.

The ORM writes a handler performs are methods of their own:

- `SaveLine` is a line's `save()`;
- `DeleteLine` is a line's `delete()`;
- `CreateLine` is the create half of `get_or_create`;
- `TakeStock` is the order-line and stock loop;
- `ClearCart` deletes the cart's lines.

Their contracts are what the handlers are proved from.

Adding to the cart checks only that the book is in stock at all. A line already
in the cart goes up by one even when its quantity already equals the stock; only
the increment handler is bounded by stock. The model keeps this behaviour:
`AddToCart` promises no stock bound. Checkout still refuses such a cart, and
`ProcessOrder` proves that.

Modules: `Models` (entities, money), `Carts` (the cart-line table),
`Checkout` (stock check, stock deduction, order-line snapshot), `Reviews`
(order history, reviews, per-user filters) and `Views` (the `Store` and its
handlers).

## Model

| member | source | states |
|---|---|---|
| Models.Subtotal | tienda/models.py:83-85 | a line's subtotal is its book's price times its quantity; a line at the default quantity costs exactly the price, and a non-negative price and quantity give a non-negative subtotal |
| Models.Total | tienda/models.py:74-76 | a cart's total is the sum of its lines' subtotals, and an empty cart totals 0 |
| Models.TotalNonNegative | tienda/models.py:74-76 | with non-negative prices and quantities a cart's total is non-negative, by induction over the lines |
| Models.Taxes | tienda/views.py:242-243 | the tax is exactly 16 % of the subtotal, in hundredths of a cent; for a non-negative subtotal it lies between 0 and the subtotal |
| Models.AmountDue | tienda/views.py:241-244 | the amount due is exactly 1.16 times the subtotal: the subtotal plus 16 % tax, with no rounding |
| Models.TotalAppend | tienda/models.py:74-76 | the total of two lists of lines put together is the sum of their totals |
| Models.SubtotalStep | tienda/models.py:83-85 | one more copy on a line raises its subtotal (price × quantity) by exactly the book's price |
| Carts.CartOf | tienda/models.py:76 | every line listed as `u`'s cart is a row of the table and belongs to `u` |
| Carts.CartOfComplete | tienda/models.py:76 | every row of `u`'s cart is listed in `u`'s cart |
| Carts.DropCart | tienda/views.py:272 | every row left after emptying `u`'s cart is an original row of another cart |
| Carts.DropCartComplete | tienda/views.py:272 | every row of another cart survives emptying `u`'s cart |
| Carts.FindItem | tienda/views.py:206 | the lookup by id returns an index holding that id, or `None` exactly when no row has the id |
| Carts.FindLine | tienda/views.py:183 | the (cart, book) lookup returns a row of that cart for that book, or `None` exactly when there is none |
| Carts.Quantity | tienda/views.py:183 | defines the cart as a map from book to quantity: the quantity of the cart's one line for the book, 0 without one (stated by `QuantityOfMember` and `QuantityOfAbsent`) |
| Carts.QuantityOfAbsent | tienda/views.py:183 | a cart with no line for a book holds 0 of it |
| Carts.QuantityOfMember | tienda/views.py:183 | with one line per (cart, book), a line's quantity is its cart's quantity of its book |
| Carts.FindItemUnique | tienda/views.py:217 | with unique ids, the lookup by a row's id finds that row |
| Carts.QuantityUpdate | tienda/views.py:186-187 | saving a line with a new quantity changes that line's entry to it and no other entry of any cart, and keeps rows unique |
| Carts.QuantityRemove | tienda/views.py:212 | deleting a line empties that line's entry and no other entry of any cart, and keeps rows unique |
| Carts.QuantityAppend | tienda/views.py:183 | creating a line, under a fresh id and for a book its cart lacks, sets exactly that entry, and keeps rows unique |
| Carts.UniqueRemove | tienda/views.py:212 | deleting a line keeps ids and (cart, book) pairs unique |
| Carts.UniqueTail | tienda/views.py:183 | the rows after the first of a duplicate-free table are duplicate-free, and each is compatible with the first |
| Carts.UniqueCons | tienda/views.py:183 | a row compatible with every row of a duplicate-free table can join it |
| Carts.UniqueDropCart | tienda/views.py:272 | emptying a cart keeps the table duplicate-free |
| Carts.QuantityDropCart | tienda/views.py:272 | emptying `u`'s cart sets every entry of `u`'s cart to 0 and leaves every other cart as it was |
| Carts.CartOfAppend | tienda/models.py:76 | the lines of a cart in two tables put together are the lines in each, in order |
| Carts.CartOfSplit | tienda/models.py:76 | a cart's lines split around any row of the table |
| Carts.CartTotalUpdate | tienda/models.py:74-76 | changing one line changes its cart's total by the new subtotal less the old one, and no other cart's total |
| Carts.CartTotalRemove | tienda/models.py:74-76 | deleting a line lowers its cart's total by exactly that line's subtotal, and no other cart's total |
| Carts.CartTotalAppend | tienda/models.py:74-76 | adding a line raises its cart's total by exactly that line's subtotal, and no other cart's total |
| Carts.WellFormedUpdate | tienda/models.py:81 | saving a line with a quantity of at least 1 keeps the cart-line table's constraints |
| Carts.WellFormedRemove | tienda/models.py:78-81 | deleting a line keeps the cart-line table's constraints |
| Carts.WellFormedAppend | tienda/models.py:78-81 | creating a line under the next id, for a book its cart lacks, keeps the constraints once the id counter moves on |
| Carts.WellFormedDropCart | tienda/models.py:79 | emptying `u`'s cart keeps the constraints, even once `u`'s cart itself is gone |
| Checkout.FirstShortage | tienda/views.py:247-250 | the index of the first line whose quantity exceeds its book's stock; it equals the cart's length exactly when every line is in stock |
| Checkout.InStock | tienda/views.py:247-248 | defines the stock check: every line's book is in the catalogue and the line's quantity is at most its stock (`FirstShortage` decides it) |
| Checkout.Deduct | tienda/views.py:269-270 | deducting stock keeps the same books at the same prices |
| Checkout.Snapshot | tienda/views.py:263-268 | the order has exactly one line per cart line |
| Checkout.DeductStock | tienda/views.py:262-270 | with no book on two lines, a book's stock drops by exactly the quantity of its line, and a book on no line keeps its stock |
| Checkout.StockStaysNonNegative | tienda/views.py:247-270 | when every line is in stock and no book is on two lines, no stock goes below 0 after the deduction |
| Checkout.SnapshotAt | tienda/views.py:263-268 | order line `k` has cart line `k`'s book and quantity and the book's price when the order was placed |
| Checkout.SnapshotTotal | tienda/views.py:241 | the order lines' quantities times unit prices add up to the cart total charged as the subtotal |
| Checkout.CartOfDistinctBooks | tienda/views.py:183 | with one line per (cart, book), no book is on two lines of a cart |
| Checkout.DeductCart | tienda/views.py:262-270 | placing `u`'s order lowers each book's stock by `u`'s quantity of it, 0 for books not in the cart |
| Reviews.Bought | tienda/views.py:54 | defines "bought": the user owns an order with a line for the book, whatever the order's status |
| Reviews.Reviewed | tienda/views.py:55 | defines "already reviewed": a review by the user for the book exists |
| Reviews.OrdersNotBy | tienda/models.py:96 | the orders left after deleting `u` are exactly the orders of other users |
| Reviews.ReviewsNotBy | tienda/models.py:123 | the reviews left after deleting `u` are exactly the reviews by other users |
| Reviews.UniqueReviewsAppend | tienda/views.py:53-65 | saving a review for a (user, book) not yet reviewed keeps one review per pair |
| Reviews.UniqueReviewsNotBy | tienda/models.py:123 | deleting a user's reviews keeps one review per pair |
| Reviews.ReviewsWellFormedAppend | tienda/models.py:124-130 | saving a review with a rating between 1 and 5, by an existing user, about a catalogue book, for an unreviewed pair, keeps the review table's constraints |
| Reviews.ReviewsWellFormedNotBy | tienda/models.py:123 | deleting a user with their reviews keeps the review table's constraints |
| Views.ValidReviewForm | tienda/views.py:60-61 | defines a valid review form: a rating among the five choices and a non-empty comment, the two required fields of the form |
| Views.Store.CanReview | tienda/views.py:53-57 | defines the review eligibility: a signed-in visitor who bought the book and has not reviewed it; an anonymous visitor never qualifies |
| Views.Store.CartTotal | tienda/models.py:74-76 | the total of `u`'s cart, the sum over its lines; an empty cart totals 0 |
| Views.Store.constructor | tienda/models.py:46 | an empty store over a catalogue without negative stock satisfies every constraint |
| Views.Store.SaveUser | tienda/models.py:139-143 | saving a new user creates exactly one cart and one profile for them; re-saving an existing user creates neither |
| Views.Store.SaveLine | tienda/views.py:186-187 | a line's save changes that line's entry to the new quantity and no other entry, and moves its cart's total by the subtotal's difference |
| Views.Store.DeleteLine | tienda/views.py:212 | a line's delete empties that line's entry and no other, and lowers its cart's total by the line's subtotal |
| Views.Store.CreateLine | tienda/views.py:183 | creating the line of `u`'s cart for `b` appends it with the next id and quantity 1, sets that entry to 1 and no other, and raises the total by the book's price |
| Views.Store.AddToCart | tienda/views.py:172-192 | refuses an anonymous visitor, a missing book and a book with stock ≤ 0 with no state changed; otherwise makes sure the cart exists, raises the book's quantity by exactly 1 (a new line at 1, or an existing line plus 1), changes no other entry and raises the total by the price |
| Views.Store.Increment | tienda/views.py:215-224 | a missing line or another user's line changes nothing; otherwise the quantity goes up by 1 only while below stock, otherwise stays; quantity ≤ stock is kept; no other entry changes |
| Views.Store.Decrement | tienda/views.py:204-213 | a missing line or another user's line changes nothing; otherwise a quantity above 1 goes down by exactly 1 and a quantity of 1 deletes the line, so no line reaches 0; the total drops by the price; no other entry changes |
| Views.Store.Remove | tienda/views.py:226-231 | a missing line or another user's line changes nothing; otherwise the line is deleted, its entry becomes 0, the total drops by its subtotal and no other entry changes |
| Views.Store.TakeStock | tienda/views.py:262-270 | the loop leaves the catalogue with every line's quantity deducted and returns the order lines copied from the cart at the prices of the moment |
| Views.Store.ClearCart | tienda/views.py:272 | every line of `u`'s cart is deleted and every other cart is left as it was |
| Views.Store.PlaceOrder | tienda/views.py:252-273 | appends one order with status paid, the cart total as subtotal, 16 % tax and 1.16 × subtotal as total, and lines that mirror the cart and add up to the subtotal; each stock drops by the cart's quantity of that book and stays ≥ 0; the cart is emptied but still exists |
| Views.Store.ProcessOrder | tienda/views.py:233-279 | no cart, an empty cart and a preview change nothing (the preview shows subtotal, tax and total); a posted order with any line over its stock changes nothing and names such a book; otherwise the order is placed as `PlaceOrder` states |
| Views.Store.BookDetail | tienda/views.py:46-69 | a review is saved only when the visitor has bought the book, has not reviewed it and posted a valid form; afterwards the form is no longer offered; in every other case the review table is unchanged |
| Views.Store.DeleteUser | tienda/views.py:411-419 | a missing user or a superuser is never deleted and nothing changes; any other user goes with their profile, cart, cart lines, orders and reviews, and all other rows stay |

## Left out

- URL routing, templates, `messages`, redirects and sessions are left out. A handler's outcome is a return value.
- The `login_required` decorator is modelled as a precondition: the requester is an existing user. `agregar_al_carrito` and `detalle_libro` do their own sign-in check, which is modelled as an optional user.
- The staff-only check (`es_admin`, tienda/views.py:295-296) is left out: `User` has no staff flag, and `DeleteUser` takes no requester and assumes a staff caller.
- The confirmation page of `eliminar_usuario` is left out. Only the posted deletion with its superuser guard is modelled.
- The admin create, edit and delete views for books, authors, collections, suppliers, orders and reviews are left out; they are thin form wrappers over the ORM. So are the catalogue and review-list filters and the cart page, which are read-only queries.
- The profile page (`mi_perfil`, tienda/views.py:152-165) is left out. It writes: it creates a missing profile through `get_or_create` and saves the posted profile form, but no modelled state holds profile fields.
- The receipt page (`pedido_exitoso`, tienda/views.py:281-288) is left out. It only reads, and it shows an order to its owner alone.
- Deleting a book, author or collection, and the rows that cascade from it, are left out. No modelled handler deletes them.
- The second post-save hook, which re-saves the profile, changes no modelled state and is left out.
- Review form validation is modelled as a rating from 1 to 5 and a non-empty comment; whitespace stripping is left out, and a missing field makes the form invalid as modelled.
- A checkout address and payment label are taken as given. When either POST field is missing, the source passes `None` into a non-null column, and creating the order raises after the stock check and before any write. That request fails and changes no state; the model has no outcome for it.
- Rounding when a two-place decimal is stored, and the `max_digits` bounds, are left out. Amounts are kept exact.
- Concurrency and transactions are left out. Each handler is one sequential step, so two simultaneous checkouts that together oversell are outside the model.
- The order status default (pending) is only used by order creation outside the checkout, which is left out; checkout always stores paid.
- Dates (`creado_en`, `fecha_pedido`, `fecha`), titles, images and other display fields are left out.
- `TakeStock` reads each book's current stock. The source subtracts from the book object it loaded during the stock check. The two agree because a cart holds each book on at most one line, which `Valid()` keeps.
- Views.Store.ProcessOrder: the order row and its lines are appended in one step, while the source creates the row before its lines; the final state is the same.
