# Store checkout core in Dafny

This project models the four services behind the store's checkout. Each
service is a Dafny class, and the class's fields are the database tables the
service owns:

- **UsersService** (`users.dfy`) owns the user directory. Emails are unique.
- **ProductsService** (`products.dfy`) owns the catalogue and its stock.
- **CartService** (`cart.dfy`) owns one cart per user and the cart's lines.
  - `addToCart` merges a line for a product already in the cart; otherwise it appends a new line.
  - `updateCartItem` and `removeFromCart` edit single lines.
  - `clearCart` empties the cart.
  - Every mutation ends by recomputing the cart total as the sum of the line subtotals.
- **OrdersService** (`orders.dfy`) turns a cart into an order. Checkout works in four steps:
  - a pre-flight stock check of every line;
  - the order row;
  - one order item per cart line, each taking that product's stock down;
  - clearing the cart.

  Cancelling a pending order puts the stock back and deletes the order together with its items.

Shared vocabulary lives in `common.dfy`: ids, money, `Option`/`Result`, the error kinds, partial-update merging, the newest-first id order and `Filter`, the one definition behind every foreign-key selection.

How the model represents things:

- **Tables.** Tables keyed by id are `map`s. The two line tables (`cart_items` and `order_items`) are `seq`s in insertion order. That is the order in which the services walk `cart.items` and `order.items`.
- **Ids.** Ids come from a counter per table; this stands in for the random `nanoid` suffixes. Because ids are handed out in creation order, `createdAt DESC` listings become descending-id listings.
- **Money.** Money is integer cents. The order and line columns are decimals of scale 2; `products.price` is a plain `decimal` with no declared scale, and the model treats it as whole cents too (see Left out).
- **Errors.** Every exception the services throw is a `Failure` carrying an `Error`. The state stays as the source leaves it at the point of the throw. A save that writes `null` into a NOT NULL column fails with `NotNullViolation`.
- **Update bodies.** `@IsOptional()` lets a field be missing or an explicit `null`, and `Object.assign` and `repository.merge` tell the two apart. Each field of an update body is therefore `Unsent`, `Null` or `Sent(v)`: a `null` clears a nullable column and makes the save fail on a NOT NULL one.
- **Invariants.** Each class has a `Valid()` invariant that every mutating method preserves:
  - every row's key agrees with its id and is below the counter;
  - emails are unique;
  - each user has at most one cart, and no cart has two lines for the same product;
  - every line belongs to an existing cart, and every order item to an existing order;
  - a cart's `total` is the sum of its lines' subtotals;
  - an order's `total` is the sum of its items' subtotals.

The main cross-operation results:

- **Checkout.** `Orders.OrdersService.Create` states the exact effect of a checkout:
  - the new order carries the cart total;
  - the items are a snapshot of the cart lines, and their subtotals sum to the order total;
  - each product's stock drops by the quantity ordered;
  - the cart ends up empty;
  - no stock that was non-negative goes negative.
- **Cancel undoes checkout.** `Orders.CancelUndoesCheckout` proves that restoring the items of an order gives back exactly the catalogue the checkout started from. `Orders.OrdersService.CheckoutThenCancel` proves the same about the two service calls run one after the other.
- **Line merging.** `Carts.AddLineMergesOrAppends` shows that adding to a cart keeps one line per product. `Carts.MergeCanExceedStock` and `Carts.MergeRepricesLine` exhibit two consequences of how `addToCart` merges a line.

## Model

| member | source | states |
|---|---|---|
| Common.Filter | src/cart/cart.service.ts:25-28 | the rows of a table that a condition accepts, in table order, never more rows than the table; one definition serves `cart.items`, `order.items`, the cart delete and the order-item cascade |
| Common.FilterMembers | src/cart/cart.service.ts:25-28 | a row is kept exactly when it is in the table and accepted |
| Common.FilterInOrder | src/orders/orders.service.ts:52-53 | the kept rows are a subsequence of the table: they sit at strictly increasing positions, and every accepted position is among them |
| Common.NewestFirst | src/products/products.service.ts:23-27 | holds exactly the ids in use, each below the counter, in strictly descending (newest first) order |
| Common.Select | src/products/products.service.ts:23-27 | the listing has one row per id, and row i is the table entry for id i |
| Users.Patched | src/users/users.service.ts:58-59 | the assigned user never changes the id; each body field is unsent, `null` or a value, and a `null` clears phone or address |
| Users.PatchedNothing | src/users/users.service.ts:58 | an update that sends no field leaves the user as it was |
| Users.PatchedTwice | src/users/users.service.ts:58 | sending the same update twice has the effect of sending it once |
| Users.PatchedNullClears | src/users/users.service.ts:58 | a `null` phone or address clears that column and leaves every other field |
| Users.UpdateConflictsIff | src/users/users.service.ts:49-56 | UpdateConflicts, the refusal guard of update: with unique emails, an update conflicts exactly when it sends a non-empty email that another user has |
| Users.OwnEmailNeverConflicts | src/users/users.service.ts:49 | an update that sends no email, or the user's own email, never reaches the conflict lookup's refusal |
| Users.InsertKeepsEmailsUnique | src/users/users.service.ts:15-26 | inserting a user whose email no one has keeps emails unique |
| Users.PatchKeepsEmailsUnique | src/users/users.service.ts:46-60 | an update that passes the conflict guard keeps emails unique |
| Users.SelectListsUsers | src/users/users.service.ts:28-32 | the newest-first selection contains exactly the users of the table |
| Users.SelectUsersNewestFirst | src/users/users.service.ts:28-32 | the newest-first selection lists users in strictly decreasing creation order |
| Users.UsersService.constructor | src/users/users.service.ts:10-13 | starts with an empty, valid directory |
| Users.UsersService.Create | src/users/users.service.ts:15-26 | a taken email fails with a conflict and changes nothing; otherwise exactly one user with a fresh id and the given fields is added, and emails stay unique |
| Users.UsersService.FindAll | src/users/users.service.ts:28-32 | every user exactly once, newest first |
| Users.UsersService.FindOne | src/users/users.service.ts:34-40 | the stored user, or NotFound when the id is unknown |
| Users.UsersService.FindByEmail | src/users/users.service.ts:42-44 | the stored user with that email, and none exactly when no user has it (EmailTaken, the lookup create and update refuse on) |
| Users.UsersService.Update | src/users/users.service.ts:46-60 | an unknown id gives NotFound; a new email that someone else has gives a conflict; a `null` email or name (which skips the conflict test) fails at the save; all three change nothing. Otherwise only this user is replaced by the assigned user, and emails stay unique |
| Users.UsersService.Remove | src/users/users.service.ts:62-65 | an unknown id gives NotFound and changes nothing; otherwise exactly that user is deleted (the foreign-key refusal of a referenced row is not modelled) |
| Products.Merged | src/products/products.service.ts:62-66 | the merged product never changes the id; each body field is unsent, `null` or a value, and a `null` clears description or imageUrl |
| Products.MergedNothing | src/products/products.service.ts:64 | merging an update that sends no field leaves the product as it was |
| Products.MergedTwice | src/products/products.service.ts:64 | merging the same update twice has the effect of merging it once |
| Products.MergedNullClears | src/products/products.service.ts:64 | a `null` description or imageUrl clears that column and leaves every other field |
| Products.StockPatch | src/orders/orders.service.ts:66-68 | a stock-only update changes the stock and nothing else of any product |
| Products.Where | src/products/products.service.ts:47-60 | keeps exactly the rows that satisfy the criterion (Matches: stock above 0, or price within the inclusive bounds), and keeps ids distinct |
| Products.TextLeTotal | src/products/products.service.ts:58 | any two names are ordered one way or the other |
| Products.InOrderTotal | src/products/products.service.ts:47-60 | any two products are ordered one way or the other by name and by price |
| Products.Insert | src/products/products.service.ts:47-60 | inserting into a sorted list gives a sorted list with the element added |
| Products.Sort | src/products/products.service.ts:47-60 | the result is sorted by the key and is a permutation of the input |
| Products.SameMembers | src/products/products.service.ts:47-60 | a permutation has the same members |
| Products.InsertKeepsDistinct | src/products/products.service.ts:47-60 | inserting a product with a new id keeps ids distinct |
| Products.SortKeepsDistinct | src/products/products.service.ts:47-60 | sorting keeps ids distinct |
| Products.DistinctCons | src/products/products.service.ts:23-27 | prepending a product with a new id keeps ids distinct |
| Products.DistinctTail | src/products/products.service.ts:23-27 | the tail of a list with distinct ids has distinct ids and lacks the head's id |
| Products.SelectListsTable | src/products/products.service.ts:23-27 | the newest-first selection lists every product of the table exactly once |
| Products.SelectNewestFirst | src/products/products.service.ts:23-27 | the newest-first selection is in strictly decreasing creation order |
| Products.ProductsService.constructor | src/products/products.service.ts:10-13 | starts with an empty, valid catalogue |
| Products.ProductsService.Create | src/products/products.service.ts:15-21 | adds exactly one product with a fresh id and the given fields |
| Products.ProductsService.FindAll | src/products/products.service.ts:23-27 | every product exactly once, newest first |
| Products.ProductsService.FindOne | src/products/products.service.ts:29-35 | the stored product, or NotFound when the id is unknown |
| Products.ProductsService.FindByPriceRange | src/products/products.service.ts:47-53 | exactly the products priced between the bounds (inclusive), ascending by price, each once; empty when the lower bound is above the upper |
| Products.ProductsService.FindInStock | src/products/products.service.ts:55-60 | exactly the products with positive stock, ascending by name, each once |
| Products.ProductsService.Update | src/products/products.service.ts:62-66 | an unknown id gives NotFound and a `null` name, price or stock fails at the save, both changing nothing; otherwise only that product is replaced by the merged product |
| Products.ProductsService.Remove | src/products/products.service.ts:68-71 | an unknown id gives NotFound and changes nothing; otherwise exactly that product is deleted (the foreign-key refusal of a referenced row is not modelled) |
| Carts.LinesMembers | src/cart/cart.service.ts:25-28 | Lines, the `items` relation of a cart: a row is among a cart's lines exactly when it is in the table with that cart id (the lines keep table order by Common.FilterInOrder) |
| Carts.SumSnoc | src/cart/cart.service.ts:129 | Sum, the reduce over the lines: each further line adds its subtotal once |
| Carts.AppendLines | src/cart/cart.service.ts:60-68 | appending a row adds it to its own cart's lines and total and to no other cart's |
| Carts.LinesOfAbsentCart | src/cart/cart.service.ts:30-33 | a cart that no row references has no lines |
| Carts.FindItem | src/cart/cart.service.ts:76-83 | finds the row with the given id, or reports that no row has it |
| Carts.FindLine | src/cart/cart.service.ts:52-54 | finds the row of this cart for this product, or reports that there is none |
| Carts.ClearLinesMembers | src/cart/cart.service.ts:117 | ClearLines, the table after `delete({ cartId })`: the rows left are exactly those of other carts |
| Carts.UpdateRowLines | src/cart/cart.service.ts:88-92 | rewriting one row (as SetQuantity does for updateCartItem) changes only its own cart's lines, and that cart's total by the change in subtotal |
| Carts.RemoveRowLines | src/cart/cart.service.ts:108-110 | RemoveRow, the table after removeFromCart: only its own cart's lines change, and that cart's total drops by the row's subtotal |
| Carts.ClearLinesLines | src/cart/cart.service.ts:117 | the cleared cart has no lines; every other cart keeps its lines |
| Carts.ClearLinesIdempotent | src/cart/cart.service.ts:115-120 | clearing a cart twice is the same as clearing it once |
| Carts.PairwiseSnoc | src/cart/entities/cart-item.entity.ts:17-24 | appending a row keeps ids and (cart, product) pairs apart exactly when the new row differs from every old row in both |
| Carts.RemoveRowKeepsPairwise | src/cart/cart.service.ts:108 | removing a row keeps ids and (cart, product) pairs distinct |
| Carts.ClearLinesKeepsPairwise | src/cart/cart.service.ts:117 | deleting a cart's rows keeps ids and (cart, product) pairs distinct |
| Carts.LinesHaveDistinctProducts | src/cart/cart.service.ts:52-69 | since addToCart merges, no cart lists a product twice |
| Carts.NewCartKeepsTables | src/cart/cart.service.ts:30-33 | creating a user's first cart with total 0 keeps the invariants, and the new cart has no lines |
| Carts.SetTotalKeepsTables | src/cart/cart.service.ts:122-132 | writing the sum of a cart's subtotals back as its total restores the total invariant |
| Carts.AddLineKeepsTables | src/cart/cart.service.ts:52-69 | merging or appending a line keeps the row invariants; only the touched cart's total goes stale, and the counter advances only on append |
| Carts.SetQuantityKeepsTables | src/cart/cart.service.ts:88-91 | changing one line's quantity keeps the row invariants; only that line's cart total goes stale |
| Carts.RemoveRowKeepsRows | src/cart/cart.service.ts:108 | removing a row keeps the row invariants, and no row keeps the removed id |
| Carts.RemoveRowKeepsTables | src/cart/cart.service.ts:108 | removing a row keeps the table invariants; only that line's cart total goes stale |
| Carts.ClearLinesKeepsRows | src/cart/cart.service.ts:117 | deleting a cart's rows keeps the row invariants |
| Carts.ClearLinesKeepsTables | src/cart/cart.service.ts:115-120 | deleting the lines and zeroing the total keeps every invariant, and the cart has no lines |
| Carts.AddLineMergesOrAppends | src/cart/cart.service.ts:52-69 | AddLine, the table after addToCart's save: with a line already present, that line's quantity grows by the amount, its stored unit price is kept, its subtotal is repriced at the current price, and every other row is untouched; with no line present, exactly one new line is appended with the current price; either way the cart keeps one line per product |
| Carts.MergeCanExceedStock | src/cart/cart.service.ts:46-59 | only the added amount is checked against stock, so a merged line can hold more than the stock |
| Carts.MergeRepricesLine | src/cart/cart.service.ts:57-58 | after a price change, a merged line's subtotal differs from its quantity times its stored unit price |
| Carts.AddThenRemoveRestores | src/cart/cart.service.ts:56-69 | appending a new line and then removing it gives back the table |
| Carts.CartService.constructor | src/cart/cart.service.ts:13-20 | starts with no carts and no lines, wired to the given user and product services |
| Carts.CartService.GetCartByUserId | src/cart/cart.service.ts:22-36 | an unknown user gives NotFound and changes nothing; an existing cart is returned with its lines and a total equal to their subtotals' sum; otherwise exactly one empty cart with total 0 is created |
| Carts.CartService.UpdateCartTotal | src/cart/cart.service.ts:122-132 | the cart's total becomes the sum of its lines' subtotals and nothing else changes; a missing cart leaves everything alone |
| Carts.CartService.SaveLine | src/cart/cart.service.ts:52-69 | the line table becomes the merged-or-appended table, carts are untouched, and the counter advances only for an append |
| Carts.CartService.AddToCart | src/cart/cart.service.ts:38-73 | an unknown product, short stock or an unknown user fail in that order and change nothing; otherwise the lines are merged or appended, only the user's cart changes, and its total becomes the sum of its lines |
| Carts.CartService.UpdateCartItem | src/cart/cart.service.ts:75-95 | an unknown line gives NotFound and short stock fails, both without changes; otherwise only that line's quantity changes, and its cart's total is recomputed |
| Carts.CartService.SaveQuantity | src/cart/cart.service.ts:88-94 | the line table becomes the table with that line at the new quantity and re-costed at its stored unit price, only that cart's total is recomputed, and the cart is read back through its user |
| Carts.CartService.RemoveFromCart | src/cart/cart.service.ts:97-113 | an unknown line gives NotFound and changes nothing; otherwise exactly that row is gone and its cart's total is recomputed |
| Carts.CartService.ClearCart | src/cart/cart.service.ts:115-120 | an unknown user gives NotFound; otherwise the user's cart exists, it is created if absent, it has no lines, its total is 0, and other carts' lines are untouched |
| Orders.ItemsOfMembers | src/orders/orders.service.ts:83-87 | ItemsOf, the `items` relation of an order: a row is among an order's items exactly when it is in the table with that order id (in table order by Common.FilterInOrder) |
| Orders.ItemsOfSnoc | src/orders/orders.service.ts:64 | saving one item adds it to its own order's items only |
| Orders.ItemsOfAppend | src/orders/orders.service.ts:52-69 | the items of a table with rows appended are the old items followed by the appended ones |
| Orders.ItemsOfAbsent | src/orders/orders.service.ts:42-50 | an order that no row references has no items |
| Orders.ItemsOfAll | src/orders/orders.service.ts:52-69 | a block of rows all for one order are exactly that order's items |
| Orders.DropItemsMembers | src/orders/entities/order-item.entity.ts:28 | DropItems, the table after the cascade: the rows left are exactly those of other orders |
| Orders.DropItemsItemsOf | src/orders/orders.service.ts:129 | the removed order has no items left; every other order keeps its items |
| Orders.AbsentQuantity | src/orders/orders.service.ts:52-69 | a product no line mentions is ordered zero times |
| Orders.DistinctQuantity | src/orders/orders.service.ts:52-69 | QuantityOf: with one line per product, the quantity ordered of a line's product is that line's quantity |
| Orders.Preflight | src/orders/orders.service.ts:35-40 | the pre-flight fails only with NotFound for a product or with a shortage naming a product |
| Orders.PreflightPasses | src/orders/orders.service.ts:35-40 | the pre-flight passes exactly when every line's product exists with at least the line's quantity in stock |
| Orders.PreflightNamesShortProduct | src/orders/orders.service.ts:37-38 | a shortage error names a product of the cart whose stock is below its line's quantity |
| Orders.Snapshot | src/orders/orders.service.ts:52-69 | one order item per cart line |
| Orders.SnapshotCopies | src/orders/orders.service.ts:52-69 | item k is Copy of line k: the line's product, quantity, unit price and subtotal, the product's name at checkout, the order's id and the k-th fresh id |
| Orders.SnapshotSum | src/orders/orders.service.ts:44-61 | SumItems of the items equals Sum of the cart lines, so an order total equals the sum of its items |
| Orders.SnapshotQuantity | src/orders/orders.service.ts:59 | QuantityOfItems of the items equals QuantityOf the lines for every product |
| Orders.WithdrawnAt | src/orders/orders.service.ts:52-69 | Withdrawn, the catalogue after create's stock loop: every product remains, its stock is down by the total quantity of its lines, and nothing else about it has changed |
| Orders.RestoredAt | src/orders/orders.service.ts:122-127 | Restored, the catalogue after remove's restore loop: every product remains and its stock is up by the total quantity of its items |
| Orders.ListedPrefix | src/orders/orders.service.ts:52-53 | a prefix of lines whose products exist also has existing products |
| Orders.PlaceStep | src/orders/orders.service.ts:52-69 | one loop step saves the copy of the line under the current name and takes its quantity off the product's current stock |
| Orders.CancelUndoesCheckout | src/orders/orders.service.ts:52-127 | cancelling the items written by a checkout gives back exactly the catalogue from before the checkout |
| Orders.CheckoutKeepsStockNonNegative | src/orders/orders.service.ts:35-68 | after a passed pre-flight, each ordered product's stock is its old stock minus the line quantity and is non-negative; stock that was not ordered is untouched; no non-negative stock goes negative |
| Orders.CheckoutExample | src/orders/orders.service.ts:35-69 | one line of 2 units at 100.00 with 5 in stock: the pre-flight passes, one item of 2 at 100.00 with subtotal 200.00 is written, the subtotals sum to 200.00, and the stock drops to 3 |
| Orders.SnapshotRestorable | src/orders/orders.service.ts:122-127 | right after checkout every item's product still exists, so the restore loop reaches every item |
| Orders.RestorablePrefix | src/orders/orders.service.ts:122-127 | the cancel loop gets through every item before the first whose product is gone |
| Orders.Amended | src/orders/orders.service.ts:106-113 | the assigned order keeps the id, the user and the total; each body field is unsent, `null` or a value, and a `null` clears the shipping address or the notes |
| Orders.AmendedNothing | src/orders/orders.service.ts:109 | an update that sends no field leaves the order as it was |
| Orders.AmendedTwice | src/orders/orders.service.ts:109 | sending the same update twice has the effect of sending it once |
| Orders.AmendedNullClears | src/orders/orders.service.ts:109 | a `null` shipping address or notes clears that column and leaves every other field |
| Orders.NoTransitionCheck | src/orders/orders.service.ts:109 | any status can be set from any status, with no transition rule |
| Orders.NewOrderKeepsTotals | src/orders/orders.service.ts:42-69 | adding an order together with items summing to its total keeps every order's total equal to the sum of its items |
| Orders.NewOrderKeepsOrders | src/orders/orders.service.ts:42-69 | adding an order with a fresh id and fresh item rows keeps the order invariants |
| Orders.ItemsOfNewOrder | src/orders/orders.service.ts:50-64 | appending the items of an order that had none makes them exactly its items, and every other order keeps its items |
| Orders.SnapshotRows | src/orders/orders.service.ts:55-64 | every item of a snapshot belongs to the order and takes one of the next fresh ids |
| Orders.PlacedOrderKeepsOrders | src/orders/orders.service.ts:42-69 | writing the order with the snapshot of the lines keeps the order invariants, and the snapshot is exactly the new order's items |
| Orders.FreshOrderHasNoItems | src/orders/orders.service.ts:42-50 | the id handed to a new order has no items yet |
| Orders.AmendKeepsOrders | src/orders/orders.service.ts:106-113 | replacing an order while keeping its id and total keeps the order invariants |
| Orders.DropOrderKeepsOrders | src/orders/orders.service.ts:129 | deleting an order together with its items keeps the order invariants |
| Orders.Views | src/orders/orders.service.ts:76-81 | each listed entry is the order with its items |
| Orders.ListNewestFirst | src/orders/orders.service.ts:76-104 | each selected order once with its items, every selected order present, in strictly descending creation order |
| Orders.OrdersService.constructor | src/orders/orders.service.ts:14-22 | starts with no orders and no items, wired to the given services |
| Orders.OrdersService.CheckStock | src/orders/orders.service.ts:35-40 | the loop's outcome is the pre-flight verdict on the current catalogue |
| Orders.OrdersService.PlaceItems | src/orders/orders.service.ts:52-69 | the catalogue after the loop is the stock withdrawal of the lines, and the items are the old items followed by the snapshot of the lines |
| Orders.OrdersService.PlaceLine | src/orders/orders.service.ts:53-68 | appends the copy of the line under the product's current name with the next item id, and sets that product's stock to its current stock less the line quantity, changing nothing else |
| Orders.OrdersService.Create | src/orders/orders.service.ts:24-74 | failures: an unknown user gives NotFound and a failed pre-flight gives its error, both changing nothing; an empty cart fails with no order, item or stock change, and the only cart change is the empty cart created for a user who had none. On success the order is pending, carries the cart total and the given address and notes, its items copy the cart lines and sum to the total, stock drops by the ordered quantities without going negative, the user's cart is left with no lines and total 0, and every other cart and line is as it was |
| Orders.OrdersService.PlaceOrder | src/orders/orders.service.ts:42-73 | with a passed pre-flight, the order and its items are written and the stock is withdrawn; the user's cart is cleared to total 0 and every other cart and line is as it was |
| Orders.OrdersService.WriteOrder | src/orders/orders.service.ts:42-69 | saves a pending order at the given total under a fresh id, appends the snapshot of the lines as its items, and withdraws the lines' quantities from stock |
| Orders.OrdersService.FindOne | src/orders/orders.service.ts:83-94 | the order with its items, or NotFound |
| Orders.OrdersService.FindAll | src/orders/orders.service.ts:76-81 | every order exactly once with its items, newest first |
| Orders.OrdersService.FindByUserId | src/orders/orders.service.ts:96-104 | an unknown user gives NotFound; otherwise exactly that user's orders with their items, newest first |
| Orders.OrdersService.Update | src/orders/orders.service.ts:106-113 | an unknown id gives NotFound and a `null` status fails at the save, both changing nothing; otherwise only that order is amended, and it is returned with its items |
| Orders.OrdersService.RestoreLine | src/orders/orders.service.ts:123-126 | a missing product gives NotFound and changes nothing; otherwise that product's stock grows by the item's quantity and nothing else changes |
| Orders.OrdersService.RestoreStock | src/orders/orders.service.ts:122-127 | stock is put back for every item up to the first whose product is gone, with NotFound at that item and success when there is none |
| Orders.OrdersService.Remove | src/orders/orders.service.ts:115-130 | failures: an unknown id gives NotFound and a non-pending order fails, both without changes; a vanished product fails after a partial restock, with orders untouched. Otherwise the stock is restored, the order is deleted and its items are gone |
| Orders.OrdersService.CheckoutThenCancel | src/orders/orders.service.ts:24-130 | cancelling an order right after a successful checkout succeeds, gives back the catalogue exactly and removes the order |

## Left out

- The HTTP controllers, the modules and the bootstrap are not part of this model; only the four services are.
- Validation DTOs are not modelled as code. What they guarantee becomes a precondition:
  - quantities are at least 1;
  - an email sent to an update is not empty.
- Quantities and stock are whole numbers in the model. The DTOs check only `@IsNumber()` (with `@Min(1)` on a quantity), not `@IsInt()`, and SQLite keeps a fractional value in an `int` column, so the source accepts a quantity of 1.5 or a fractional stock; the model does not.
- The DTO for updating a cart item is not in the repository. Its quantity is assumed to be validated like the add-to-cart quantity.
- Timestamps are not modelled. `createdAt DESC` is modelled as descending id, because ids are handed out in creation order.
- `searchProducts` is not modelled: its meaning is SQLite's `LIKE`, with its case folding and with `%` and `_` in the query acting as wildcards.
- A cart's lines and an order's items are read in table insertion order. The source's queries give no `ORDER BY`, so any other order the database returns is not modelled. For order items this also decides how many items the restore loop of a cancel gets through before it meets a product that is gone.
- Concurrency is not modelled: requests run one at a time. A storage failure partway through a service is not modelled either; every write succeeds.
- The money columns are stored as numbers, and rounding to 2 decimals is not modelled: a product priced with more precision is treated as exact integer cents.
- `updateCartItem` for a line whose product row has been deleted: the source dereferences a missing product and crashes (a TypeError). The model returns NotFound for the product and changes nothing.
- `clearCart` saves the cart entity it loaded, whose items relation still holds the deleted lines and is marked to cascade. Whether the ORM writes those lines back is ORM behaviour and is not modelled: the model deletes the lines.
- The database's foreign keys are kept as invariants of the tables instead of being enforced:
  - lines belong to existing carts, and items to existing orders.
- Products.ProductsService.Remove: deletes the product even when a cart line or an order item still references it. In the source those relations have no `onDelete` rule, so the database's foreign key refuses that delete and the service fails with a constraint error. The product service does not see the cart and order tables, so the model does not enforce this. The pre-flight's and the restore loop's NotFound for a product are reachable only through this gap.
- Users.UsersService.Remove: deletes the user even when a cart or an order still references it. In the source the database's foreign key refuses that delete, as for products; the model does not enforce it.
- Users.UsersService.Update: requires the supplied email not to be empty. The update DTO is not in the repository; it is assumed to validate email as the create DTO does (`@IsEmail`, as a `PartialType` of it would), which refuses an empty string before the service runs. The code's truthiness test (`updateUserDto.email &&`) is still written out.
- These members have no single counterpart in the source; each is one block of a source method, split out so it can be specified on its own:
  - `Carts.CartService.SaveLine` and `SaveQuantity`;
  - `Orders.OrdersService.CheckStock`, `PlaceLine`, `PlaceItems`, `WriteOrder`, `PlaceOrder`, `RestoreLine` and `RestoreStock`.
- `Orders.OrdersService.CheckoutThenCancel` is a composition of two service calls, written to state the round trip.
- Carts and orders are returned as `Carts.CartView` and `Orders.OrderView`: the row with its lines or items, which hold the user and product ids. The source also loads the `user` and `items.product` relations; those joined user and product rows are not part of the returned values.
- `users.findAll` returns the full rows. The entity has no hidden columns, so the model returns the stored users.
