/** Checkout and the order lifecycle: a cart becomes a pending order whose
    items copy the cart's lines, stock is taken out line by line, and a
    pending order can be cancelled, which puts the stock back. */
module Orders {
  import opened Common
  import opened Users
  import opened Products
  import opened Carts

  datatype OrderStatus = Pending | Confirmed | Shipped | Delivered | Cancelled

  /** A row of the orders table. */
  datatype Order = Order(
    id: OrderId, userId: UserId, total: Money, status: OrderStatus,
    shippingAddress: Option<string>, notes: Option<string>)

  /** A row of the order_items table: a cart line frozen at checkout, with
      the product's name as it was then. */
  datatype OrderItem = OrderItem(
    id: OrderItemId, orderId: OrderId, productId: ProductId, productName: string,
    quantity: int, unitPrice: Money, subtotal: Money)

  /** An order with its `items` relation loaded. */
  datatype OrderView = OrderView(order: Order, items: seq<OrderItem>)

  /** The fields of an update body, each unsent, `null` or sent with a value. */
  datatype OrderPatch = OrderPatch(status: Field<OrderStatus>, shippingAddress: Field<string>, notes: Field<string>)

  // ---------------------------------------------------------------------------
  // The order_items table, rows in insertion order

  /** Accepts the items of order `o`. */
  function OfOrder(o: OrderId): OrderItem -> bool
  {
    (x: OrderItem) => x.orderId == o
  }

  /** Accepts the items of every order but `o`. */
  function NotOfOrder(o: OrderId): OrderItem -> bool
  {
    (x: OrderItem) => x.orderId != o
  }

  /** The items of one order (the `items` relation), in table order. */
  function ItemsOf(rows: seq<OrderItem>, orderId: OrderId): seq<OrderItem>
  {
    Filter(rows, OfOrder(orderId))
  }

  /** The items of an order are exactly the rows that point to it. */
  lemma ItemsOfMembers(rows: seq<OrderItem>, o: OrderId)
    ensures forall x :: x in ItemsOf(rows, o) <==> x in rows && x.orderId == o
  {
    FilterMembers(rows, OfOrder(o));
  }

  /** Appending a row adds it to the items of its own order only. */
  lemma ItemsOfSnoc(rows: seq<OrderItem>, x: OrderItem, o: OrderId)
    ensures ItemsOf(rows + [x], o) == ItemsOf(rows, o) + if x.orderId == o then [x] else []
  {
    assert (rows + [x])[..|rows|] == rows;
  }

  /** Appending rows appends their items to each order's items. */
  lemma {:induction false} ItemsOfAppend(rows: seq<OrderItem>, extra: seq<OrderItem>, o: OrderId)
    ensures ItemsOf(rows + extra, o) == ItemsOf(rows, o) + ItemsOf(extra, o)
    decreases |extra|
  {
    if extra == [] {
      assert rows + extra == rows;
      assert ItemsOf(rows, o) + [] == ItemsOf(rows, o);
    } else {
      var init, last := extra[..|extra| - 1], extra[|extra| - 1];
      ItemsOfAppend(rows, init, o);
      assert rows + extra == (rows + init) + [last];
      assert extra == init + [last];
      ItemsOfSnoc(rows + init, last, o);
      ItemsOfSnoc(init, last, o);
      var tail := if last.orderId == o then [last] else [];
      assert ItemsOf(rows + extra, o) == (ItemsOf(rows, o) + ItemsOf(init, o)) + tail;
      assert ItemsOf(extra, o) == ItemsOf(init, o) + tail;
    }
  }

  /** An order no row points to has no items. */
  lemma {:induction false} ItemsOfAbsent(rows: seq<OrderItem>, o: OrderId)
    requires forall i :: 0 <= i < |rows| ==> rows[i].orderId != o
    ensures ItemsOf(rows, o) == []
    decreases |rows|
  {
    if rows != [] {
      ItemsOfAbsent(rows[..|rows| - 1], o);
    }
  }

  /** When every row points to the order, its items are all the rows. */
  lemma {:induction false} ItemsOfAll(rows: seq<OrderItem>, o: OrderId)
    requires forall i :: 0 <= i < |rows| ==> rows[i].orderId == o
    ensures ItemsOf(rows, o) == rows
    decreases |rows|
  {
    if rows != [] {
      ItemsOfAll(rows[..|rows| - 1], o);
      assert rows == rows[..|rows| - 1] + [rows[|rows| - 1]];
    }
  }

  /** The table after the order is removed: its items go with it (the
      ON DELETE CASCADE foreign key). */
  function DropItems(rows: seq<OrderItem>, orderId: OrderId): seq<OrderItem>
  {
    Filter(rows, NotOfOrder(orderId))
  }

  /** Exactly the rows of the other orders survive. */
  lemma DropItemsMembers(rows: seq<OrderItem>, o: OrderId)
    ensures forall x :: x in DropItems(rows, o) <==> x in rows && x.orderId != o
  {
    FilterMembers(rows, NotOfOrder(o));
  }

  /** Dropping an order's items leaves every other order's items as they were. */
  lemma {:induction false} DropItemsItemsOf(rows: seq<OrderItem>, o: OrderId, d: OrderId)
    ensures ItemsOf(DropItems(rows, o), d) == if d == o then [] else ItemsOf(rows, d)
    decreases |rows|
  {
    if rows != [] {
      var init, last := rows[..|rows| - 1], rows[|rows| - 1];
      DropItemsItemsOf(init, o, d);
      var kept := DropItems(init, o);
      if last.orderId != o {
        assert (kept + [last])[..|kept + [last]| - 1] == kept;
      } else {
        assert DropItems(rows, o) == kept;
      }
    }
  }

  /** The sum of the items' subtotals. */
  function SumItems(items: seq<OrderItem>): Money
  {
    if items == [] then 0 else SumItems(items[..|items| - 1]) + items[|items| - 1].subtotal
  }

  // ---------------------------------------------------------------------------
  // Quantities per product

  /** The quantity the cart lines ask of product `p`. */
  function QuantityOf(lines: seq<CartItem>, p: ProductId): int
  {
    if lines == [] then 0
    else
      var last := lines[|lines| - 1];
      QuantityOf(lines[..|lines| - 1], p) + if last.productId == p then last.quantity else 0
  }

  /** The quantity the order items hold of product `p`. */
  function QuantityOfItems(items: seq<OrderItem>, p: ProductId): int
  {
    if items == [] then 0
    else
      var last := items[|items| - 1];
      QuantityOfItems(items[..|items| - 1], p) + if last.productId == p then last.quantity else 0
  }

  /** No line asks for a product that none of them names. */
  lemma {:induction false} AbsentQuantity(lines: seq<CartItem>, p: ProductId)
    requires forall k :: 0 <= k < |lines| ==> lines[k].productId != p
    ensures QuantityOf(lines, p) == 0
    decreases |lines|
  {
    if lines != [] {
      AbsentQuantity(lines[..|lines| - 1], p);
    }
  }

  /** With one line per product, a product is asked for exactly its line's quantity. */
  lemma {:induction false} DistinctQuantity(lines: seq<CartItem>, k: nat)
    requires DistinctProducts(lines) && k < |lines|
    ensures QuantityOf(lines, lines[k].productId) == lines[k].quantity
    decreases |lines|
  {
    var n := |lines|;
    var init, p := lines[..n - 1], lines[k].productId;
    assert DistinctProducts(init) by {
      forall i, j | 0 <= i < j < |init|
        ensures init[i].productId != init[j].productId
      {
        assert init[i] == lines[i] && init[j] == lines[j];
      }
    }
    if k == n - 1 {
      forall j | 0 <= j < |init|
        ensures init[j].productId != p
      {
        assert init[j] == lines[j];
      }
      AbsentQuantity(init, p);
    } else {
      assert init[k] == lines[k];
      DistinctQuantity(init, k);
    }
  }

  // ---------------------------------------------------------------------------
  // The checkout pre-flight

  /** Every line names a product of the catalog. */
  predicate Listed(lines: seq<CartItem>, catalog: map<ProductId, Product>)
  {
    forall k :: 0 <= k < |lines| ==> lines[k].productId in catalog
  }

  /** Every line's product exists and has at least the line's quantity in stock. */
  predicate Covered(lines: seq<CartItem>, catalog: map<ProductId, Product>)
  {
    forall k :: 0 <= k < |lines| ==>
      lines[k].productId in catalog && catalog[lines[k].productId].stock >= lines[k].quantity
  }

  /** The error of the first line, in cart order, that fails the pre-flight:
      its product is gone (NotFound), or its stock is below the line's
      quantity (the error names the product). */
  function Preflight(lines: seq<CartItem>, catalog: map<ProductId, Product>): (r: Option<Error>)
    ensures r.Some? ==> r.value == NotFound(ProductEntity) || r.value.InsufficientStockOf?
  {
    if lines == [] then None
    else if lines[0].productId !in catalog then Some(NotFound(ProductEntity))
    else if catalog[lines[0].productId].stock < lines[0].quantity
    then Some(InsufficientStockOf(catalog[lines[0].productId].name))
    else Preflight(lines[1..], catalog)
  }

  /** The pre-flight passes exactly when every line is covered. */
  lemma {:induction false} PreflightPasses(lines: seq<CartItem>, catalog: map<ProductId, Product>)
    ensures Preflight(lines, catalog).None? <==> Covered(lines, catalog)
    decreases |lines|
  {
    if lines != [] {
      PreflightPasses(lines[1..], catalog);
      if Covered(lines[1..], catalog) {
        forall k | 1 <= k < |lines|
          ensures lines[k].productId in catalog && catalog[lines[k].productId].stock >= lines[k].quantity
        {
          assert lines[k] == lines[1..][k - 1];
        }
      }
      if Covered(lines, catalog) {
        forall k | 0 <= k < |lines| - 1
          ensures lines[1..][k].productId in catalog
          ensures catalog[lines[1..][k].productId].stock >= lines[1..][k].quantity
        {
          assert lines[1..][k] == lines[k + 1];
        }
      }
    }
  }

  /** A failed pre-flight names a product of the cart whose stock is short. */
  lemma {:induction false} PreflightNamesShortProduct(lines: seq<CartItem>, catalog: map<ProductId, Product>, name: string)
    requires Preflight(lines, catalog) == Some(InsufficientStockOf(name))
    ensures exists k :: (0 <= k < |lines| && lines[k].productId in catalog
      && catalog[lines[k].productId].name == name && catalog[lines[k].productId].stock < lines[k].quantity)
    decreases |lines|
  {
    if lines[0].productId in catalog && catalog[lines[0].productId].stock < lines[0].quantity {
      assert catalog[lines[0].productId].name == name;
    } else {
      PreflightNamesShortProduct(lines[1..], catalog, name);
      var k :| 0 <= k < |lines[1..]| && lines[1..][k].productId in catalog
        && catalog[lines[1..][k].productId].name == name && catalog[lines[1..][k].productId].stock < lines[1..][k].quantity;
      assert lines[1..][k] == lines[k + 1];
    }
  }

  // ---------------------------------------------------------------------------
  // The order items written by checkout

  /** The order item checkout writes for a cart line. */
  function Copy(line: CartItem, orderId: OrderId, productName: string, id: OrderItemId): OrderItem
  {
    OrderItem(id, orderId, line.productId, productName, line.quantity, line.unitPrice, line.subtotal)
  }

  /** The items checkout writes for the cart's lines, in cart order, with
      fresh ids from `firstId` on and names taken from the catalog. */
  function Snapshot(lines: seq<CartItem>, orderId: OrderId, catalog: map<ProductId, Product>, firstId: OrderItemId): (r: seq<OrderItem>)
    requires Listed(lines, catalog)
    ensures |r| == |lines|
  {
    if lines == [] then []
    else
      var n := |lines| - 1;
      Snapshot(lines[..n], orderId, catalog, firstId)
      + [Copy(lines[n], orderId, catalog[lines[n].productId].name, firstId + n)]
  }

  /** Item `k` copies line `k`: product, quantity, unit price and subtotal,
      with the product's name and the order's id. */
  lemma {:induction false} SnapshotCopies(lines: seq<CartItem>, orderId: OrderId, catalog: map<ProductId, Product>, firstId: OrderItemId)
    requires Listed(lines, catalog)
    ensures forall k :: 0 <= k < |lines| ==>
      Snapshot(lines, orderId, catalog, firstId)[k] ==
        OrderItem(firstId + k, orderId, lines[k].productId, catalog[lines[k].productId].name,
                  lines[k].quantity, lines[k].unitPrice, lines[k].subtotal)
    decreases |lines|
  {
    if lines != [] {
      var n := |lines| - 1;
      assert Listed(lines[..n], catalog) by {
        forall k | 0 <= k < n
          ensures lines[..n][k].productId in catalog
        {
          assert lines[..n][k] == lines[k];
        }
      }
      SnapshotCopies(lines[..n], orderId, catalog, firstId);
    }
  }

  /** The items of a snapshot add up to the cart lines' subtotals. */
  lemma {:induction false} SnapshotSum(lines: seq<CartItem>, orderId: OrderId, catalog: map<ProductId, Product>, firstId: OrderItemId)
    requires Listed(lines, catalog)
    ensures SumItems(Snapshot(lines, orderId, catalog, firstId)) == Sum(lines)
    decreases |lines|
  {
    if lines != [] {
      var n := |lines| - 1;
      var s := Snapshot(lines, orderId, catalog, firstId);
      assert Listed(lines[..n], catalog) by {
        forall k | 0 <= k < n
          ensures lines[..n][k].productId in catalog
        {
          assert lines[..n][k] == lines[k];
        }
      }
      SnapshotSum(lines[..n], orderId, catalog, firstId);
      assert s[..n] == Snapshot(lines[..n], orderId, catalog, firstId);
    }
  }

  /** The items of a snapshot hold of each product what the lines asked. */
  lemma {:induction false} SnapshotQuantity(lines: seq<CartItem>, orderId: OrderId, catalog: map<ProductId, Product>, firstId: OrderItemId, p: ProductId)
    requires Listed(lines, catalog)
    ensures QuantityOfItems(Snapshot(lines, orderId, catalog, firstId), p) == QuantityOf(lines, p)
    decreases |lines|
  {
    if lines != [] {
      var n := |lines| - 1;
      var s := Snapshot(lines, orderId, catalog, firstId);
      assert Listed(lines[..n], catalog) by {
        forall k | 0 <= k < n
          ensures lines[..n][k].productId in catalog
        {
          assert lines[..n][k] == lines[k];
        }
      }
      SnapshotQuantity(lines[..n], orderId, catalog, firstId, p);
      assert s[..n] == Snapshot(lines[..n], orderId, catalog, firstId);
    }
  }

  // ---------------------------------------------------------------------------
  // The stock ledger

  /** The catalog after checkout's loop: for each line in turn, the product's
      current stock less the line's quantity is written back. */
  function Withdrawn(catalog: map<ProductId, Product>, lines: seq<CartItem>): map<ProductId, Product>
  {
    if lines == [] then catalog
    else
      var w := Withdrawn(catalog, lines[..|lines| - 1]);
      var line := lines[|lines| - 1];
      if line.productId in w then w[line.productId := w[line.productId].(stock := w[line.productId].stock - line.quantity)]
      else w
  }

  /** Checkout keeps the catalog's products and every field but the stock,
      which drops by exactly what the lines ask of the product. */
  lemma {:induction false} WithdrawnAt(catalog: map<ProductId, Product>, lines: seq<CartItem>, p: ProductId)
    ensures p in Withdrawn(catalog, lines) <==> p in catalog
    ensures p in catalog ==>
      Withdrawn(catalog, lines)[p] == catalog[p].(stock := catalog[p].stock - QuantityOf(lines, p))
    decreases |lines|
  {
    if lines != [] {
      WithdrawnAt(catalog, lines[..|lines| - 1], p);
    }
  }

  /** The catalog after cancellation's loop: for each item in turn, the
      product's current stock plus the item's quantity is written back. */
  function Restored(catalog: map<ProductId, Product>, items: seq<OrderItem>): map<ProductId, Product>
  {
    if items == [] then catalog
    else
      var w := Restored(catalog, items[..|items| - 1]);
      var item := items[|items| - 1];
      if item.productId in w then w[item.productId := w[item.productId].(stock := w[item.productId].stock + item.quantity)]
      else w
  }

  /** Cancellation keeps the catalog's products and every field but the
      stock, which grows by exactly what the items hold of the product. */
  lemma {:induction false} RestoredAt(catalog: map<ProductId, Product>, items: seq<OrderItem>, p: ProductId)
    ensures p in Restored(catalog, items) <==> p in catalog
    ensures p in catalog ==>
      Restored(catalog, items)[p] == catalog[p].(stock := catalog[p].stock + QuantityOfItems(items, p))
    decreases |items|
  {
    if items != [] {
      RestoredAt(catalog, items[..|items| - 1], p);
    }
  }

  /** A prefix of listed lines is listed. */
  lemma ListedPrefix(lines: seq<CartItem>, catalog: map<ProductId, Product>, n: nat)
    requires Listed(lines, catalog) && n <= |lines|
    ensures Listed(lines[..n], catalog)
  {
    forall k | 0 <= k < n
      ensures lines[..n][k].productId in catalog
    {
      assert lines[..n][k] == lines[k];
    }
  }

  /** One step of checkout's second loop: line `i` is withdrawn from the
      stock its product has now and copied under the name it has now, which
      is still its name in the catalog the loop started from. */
  lemma PlaceStep(catalog: map<ProductId, Product>, lines: seq<CartItem>, i: nat, orderId: OrderId, firstId: OrderItemId)
    requires Listed(lines, catalog) && i < |lines|
    ensures Listed(lines[..i], catalog) && Listed(lines[..i + 1], catalog)
    ensures var w, line := Withdrawn(catalog, lines[..i]), lines[i];
      && line.productId in w
      && Withdrawn(catalog, lines[..i + 1]) == w[line.productId := w[line.productId].(stock := w[line.productId].stock - line.quantity)]
      && Snapshot(lines[..i + 1], orderId, catalog, firstId) ==
           Snapshot(lines[..i], orderId, catalog, firstId) + [Copy(line, orderId, w[line.productId].name, firstId + i)]
  {
    var line := lines[i];
    assert lines[..i + 1][..i] == lines[..i];
    ListedPrefix(lines, catalog, i);
    ListedPrefix(lines, catalog, i + 1);
    WithdrawnAt(catalog, lines[..i], line.productId);
  }

  /** Right after checkout every product an item names is still there, so
      the restore loop of a cancel gets through all the items. */
  lemma SnapshotRestorable(catalog: map<ProductId, Product>, lines: seq<CartItem>, orderId: OrderId, firstId: OrderItemId)
    requires Listed(lines, catalog)
    ensures RestorablePrefix(Snapshot(lines, orderId, catalog, firstId), Withdrawn(catalog, lines)) == |lines|
  {
    var snap, w := Snapshot(lines, orderId, catalog, firstId), Withdrawn(catalog, lines);
    SnapshotCopies(lines, orderId, catalog, firstId);
    forall k | 0 <= k < |snap|
      ensures snap[k].productId in w
    {
      WithdrawnAt(catalog, lines, snap[k].productId);
    }
  }

  /** Cancelling an order right after checkout puts every product's stock
      back to what it was before checkout. */
  lemma CancelUndoesCheckout(catalog: map<ProductId, Product>, lines: seq<CartItem>, orderId: OrderId, firstId: OrderItemId)
    requires Listed(lines, catalog)
    ensures Restored(Withdrawn(catalog, lines), Snapshot(lines, orderId, catalog, firstId)) == catalog
  {
    var w := Withdrawn(catalog, lines);
    var s := Snapshot(lines, orderId, catalog, firstId);
    var r := Restored(w, s);
    forall p
      ensures p in r <==> p in catalog
      ensures p in catalog ==> r[p] == catalog[p]
    {
      WithdrawnAt(catalog, lines, p);
      RestoredAt(w, s, p);
      SnapshotQuantity(lines, orderId, catalog, firstId, p);
    }
  }

  /** With one line per product and a passed pre-flight, checkout leaves no
      stock negative: each line's product keeps its stock less the line's
      quantity, which is not negative, and every other product is untouched. */
  lemma CheckoutKeepsStockNonNegative(catalog: map<ProductId, Product>, lines: seq<CartItem>)
    requires Covered(lines, catalog) && DistinctProducts(lines)
    ensures forall k :: 0 <= k < |lines| ==>
      var p := lines[k].productId;
      p in Withdrawn(catalog, lines) && Withdrawn(catalog, lines)[p].stock == catalog[p].stock - lines[k].quantity >= 0
    ensures forall p :: p in catalog && (forall k :: 0 <= k < |lines| ==> lines[k].productId != p) ==>
      p in Withdrawn(catalog, lines) && Withdrawn(catalog, lines)[p] == catalog[p]
    ensures forall p :: p in catalog && catalog[p].stock >= 0 ==>
      p in Withdrawn(catalog, lines) && Withdrawn(catalog, lines)[p].stock >= 0
  {
    var w := Withdrawn(catalog, lines);
    forall k | 0 <= k < |lines|
      ensures lines[k].productId in w && w[lines[k].productId].stock == catalog[lines[k].productId].stock - lines[k].quantity
    {
      WithdrawnAt(catalog, lines, lines[k].productId);
      DistinctQuantity(lines, k);
    }
    forall p | p in catalog && (forall k :: 0 <= k < |lines| ==> lines[k].productId != p)
      ensures p in w && w[p] == catalog[p]
    {
      WithdrawnAt(catalog, lines, p);
      AbsentQuantity(lines, p);
    }
    forall p | p in catalog && catalog[p].stock >= 0
      ensures p in w && w[p].stock >= 0
    {
      WithdrawnAt(catalog, lines, p);
      if k :| 0 <= k < |lines| && lines[k].productId == p {
        DistinctQuantity(lines, k);
      } else {
        AbsentQuantity(lines, p);
      }
    }
  }

  /** One line of two units of a product priced 100.00 with 5 in stock: the
      pre-flight passes, the order holds one item of 2 at 100.00 with subtotal
      200.00 (the order's total), and the stock drops to 3. */
  lemma CheckoutExample()
    ensures var catalog := map[1 := Product(1, "P1", None, 10000, 5, None)];
      var lines := [CartItem(0, 0, 1, 2, 10000, 20000)];
      && Preflight(lines, catalog).None?
      && Snapshot(lines, 0, catalog, 0) == [OrderItem(0, 0, 1, "P1", 2, 10000, 20000)]
      && SumItems(Snapshot(lines, 0, catalog, 0)) == Sum(lines) == 20000
      && Withdrawn(catalog, lines)[1].stock == 3
  {
  }

  /** How many items, from the front, name a product of the catalog: the
      cancellation loop restores these before it meets a product that is gone. */
  function RestorablePrefix(items: seq<OrderItem>, catalog: map<ProductId, Product>): (k: nat)
    ensures k <= |items|
    ensures forall j :: 0 <= j < k ==> items[j].productId in catalog
    ensures k < |items| ==> items[k].productId !in catalog
  {
    if items == [] || items[0].productId !in catalog then 0
    else
      var k := 1 + RestorablePrefix(items[1..], catalog);
      assert forall j :: 1 <= j < k ==> items[j] == items[1..][j - 1];
      k
  }

  // ---------------------------------------------------------------------------
  // Updates

  /** Object.assign of the update body onto an order: a sent field
      overwrites, any status over any other; a `null` clears the shipping
      address or the notes; the id, the user and the total are kept. */
  function Amended(o: Order, patch: OrderPatch): (r: Order)
    ensures r.id == o.id && r.userId == o.userId && r.total == o.total
  {
    o.(status := Merge(patch.status, o.status),
       shippingAddress := MergeNullable(patch.shippingAddress, o.shippingAddress),
       notes := MergeNullable(patch.notes, o.notes))
  }

  /** An update that sends no field leaves the order as it was. */
  lemma AmendedNothing(o: Order)
    ensures Amended(o, OrderPatch(Unsent, Unsent, Unsent)) == o
  {
  }

  /** Sending the same update twice has the effect of sending it once. */
  lemma AmendedTwice(o: Order, patch: OrderPatch)
    ensures Amended(Amended(o, patch), patch) == Amended(o, patch)
  {
  }

  /** A `null` shipping address or notes clears that column and touches nothing else. */
  lemma AmendedNullClears(o: Order)
    ensures Amended(o, OrderPatch(Unsent, Null, Unsent)) == o.(shippingAddress := None)
    ensures Amended(o, OrderPatch(Unsent, Unsent, Null)) == o.(notes := None)
  {
  }

  /** There is no transition check: any status, a delivered or cancelled one
      included, can be set back to pending. */
  lemma NoTransitionCheck(o: Order, s: OrderStatus)
    ensures Amended(o, OrderPatch(Sent(s), Unsent, Unsent)) == o.(status := s)
  {
  }

  // ---------------------------------------------------------------------------
  // Table invariants

  /** Every item belongs to an existing order and has an id below its supplier. */
  ghost predicate ItemRowsOK(rows: seq<OrderItem>, orderIds: set<OrderId>, nextItemId: nat)
  {
    forall i :: 0 <= i < |rows| ==> rows[i].orderId in orderIds && rows[i].id < nextItemId
  }

  /** Every order's total is the sum of its items' subtotals. */
  ghost predicate OrderTotalsOK(orders: map<OrderId, Order>, rows: seq<OrderItem>)
  {
    forall o :: o in orders ==> orders[o].total == SumItems(ItemsOf(rows, o))
  }

  /** Order ids are consistent and below the fresh-id supplier, the items
      point to orders, and every order's total is the sum of its items. */
  ghost predicate OrdersOK(orders: map<OrderId, Order>, rows: seq<OrderItem>, nextOrderId: nat, nextItemId: nat)
  {
    && (forall o :: o in orders ==> orders[o].id == o && o < nextOrderId)
    && ItemRowsOK(rows, orders.Keys, nextItemId)
    && OrderTotalsOK(orders, rows)
  }

  /** Appending the items of an order that had none: that order's items are
      exactly the appended block, and every other order keeps its items. */
  lemma ItemsOfNewOrder(rows: seq<OrderItem>, snap: seq<OrderItem>, o: OrderId, d: OrderId)
    requires forall i :: 0 <= i < |rows| ==> rows[i].orderId != o
    requires forall k :: 0 <= k < |snap| ==> snap[k].orderId == o
    ensures ItemsOf(rows + snap, d) == if d == o then snap else ItemsOf(rows, d)
  {
    ItemsOfAppend(rows, snap, d);
    if d == o {
      ItemsOfAbsent(rows, o);
      ItemsOfAll(snap, o);
      assert [] + snap == snap;
    } else {
      ItemsOfAbsent(snap, d);
      assert ItemsOf(rows, d) + [] == ItemsOf(rows, d);
    }
  }

  /** The totals part of placing a new order with its own items. */
  lemma NewOrderKeepsTotals(orders: map<OrderId, Order>, rows: seq<OrderItem>, o: Order, snap: seq<OrderItem>)
    requires OrderTotalsOK(orders, rows) && o.id !in orders
    requires forall i :: 0 <= i < |rows| ==> rows[i].orderId in orders
    requires forall k :: 0 <= k < |snap| ==> snap[k].orderId == o.id
    requires o.total == SumItems(snap)
    ensures OrderTotalsOK(orders[o.id := o], rows + snap)
  {
    var m := orders[o.id := o];
    forall i | 0 <= i < |rows|
      ensures rows[i].orderId != o.id
    {
      assert rows[i].orderId in orders;
    }
    forall d | d in m
      ensures m[d].total == SumItems(ItemsOf(rows + snap, d))
    {
      ItemsOfNewOrder(rows, snap, o.id, d);
      if d != o.id {
        assert m[d] == orders[d];
      }
    }
  }

  /** Placing a new order with its own items keeps the invariant. */
  lemma NewOrderKeepsOrders(orders: map<OrderId, Order>, rows: seq<OrderItem>, no: nat, ni: nat,
                            o: Order, snap: seq<OrderItem>, ni': nat)
    requires OrdersOK(orders, rows, no, ni) && o.id == no && ni <= ni'
    requires forall k :: 0 <= k < |snap| ==> snap[k].orderId == no && snap[k].id < ni'
    requires o.total == SumItems(snap)
    ensures OrdersOK(orders[no := o], rows + snap, no + 1, ni')
  {
    var m, t := orders[no := o], rows + snap;
    assert no !in orders;
    assert ItemRowsOK(rows, orders.Keys, ni);
    NewOrderKeepsTotals(orders, rows, o, snap);
    forall d | d in m
      ensures m[d].id == d && d < no + 1
    {
      if d != no {
        assert m[d] == orders[d];
      }
    }
    assert ItemRowsOK(t, m.Keys, ni') by {
      forall i | 0 <= i < |t|
        ensures t[i].orderId in m && t[i].id < ni'
      {
        if i < |rows| {
          assert t[i] == rows[i];
        } else {
          assert t[i] == snap[i - |rows|];
        }
      }
    }
  }

  /** The rows of a snapshot all belong to its order and take the next ids. */
  lemma SnapshotRows(lines: seq<CartItem>, orderId: OrderId, catalog: map<ProductId, Product>, firstId: OrderItemId)
    requires Listed(lines, catalog)
    ensures var snap := Snapshot(lines, orderId, catalog, firstId);
      forall k :: 0 <= k < |snap| ==> snap[k].orderId == orderId && firstId <= snap[k].id < firstId + |lines|
  {
    SnapshotCopies(lines, orderId, catalog, firstId);
  }

  /** Checkout's writes as a whole: the new order with the snapshot of the
      lines appended keeps the invariant, and those rows are exactly the new
      order's items. */
  lemma PlacedOrderKeepsOrders(orders: map<OrderId, Order>, rows: seq<OrderItem>, no: nat, ni: nat,
                               o: Order, lines: seq<CartItem>, catalog: map<ProductId, Product>)
    requires OrdersOK(orders, rows, no, ni) && o.id == no
    requires Listed(lines, catalog) && o.total == Sum(lines)
    ensures var snap := Snapshot(lines, no, catalog, ni);
      && OrdersOK(orders[no := o], rows + snap, no + 1, ni + |lines|)
      && ItemsOf(rows + snap, no) == snap
  {
    var snap := Snapshot(lines, no, catalog, ni);
    SnapshotRows(lines, no, catalog, ni);
    SnapshotSum(lines, no, catalog, ni);
    NewOrderKeepsOrders(orders, rows, no, ni, o, snap, ni + |lines|);
    forall i | 0 <= i < |rows|
      ensures rows[i].orderId != no
    {
      assert rows[i].orderId in orders;
    }
    ItemsOfNewOrder(rows, snap, no, no);
  }

  /** The next order id has no items yet. */
  lemma FreshOrderHasNoItems(orders: map<OrderId, Order>, rows: seq<OrderItem>, no: nat, ni: nat)
    requires OrdersOK(orders, rows, no, ni)
    ensures ItemsOf(rows, no) == []
  {
    forall i | 0 <= i < |rows|
      ensures rows[i].orderId != no
    {
      assert rows[i].orderId in orders;
    }
    ItemsOfAbsent(rows, no);
  }

  /** Rewriting an order that keeps its id and total keeps the invariant. */
  lemma AmendKeepsOrders(orders: map<OrderId, Order>, rows: seq<OrderItem>, no: nat, ni: nat, id: OrderId, o: Order)
    requires OrdersOK(orders, rows, no, ni) && id in orders
    requires o.id == id && o.total == orders[id].total
    ensures OrdersOK(orders[id := o], rows, no, ni)
  {
  }

  /** Removing an order with its items keeps the invariant. */
  lemma DropOrderKeepsOrders(orders: map<OrderId, Order>, rows: seq<OrderItem>, no: nat, ni: nat, id: OrderId)
    requires OrdersOK(orders, rows, no, ni)
    ensures OrdersOK(orders - {id}, DropItems(rows, id), no, ni)
  {
    var t := DropItems(rows, id);
    forall d | d in orders - {id}
      ensures orders[d].total == SumItems(ItemsOf(t, d))
    {
      DropItemsItemsOf(rows, id, d);
    }
    DropItemsMembers(rows, id);
    forall i | 0 <= i < |t|
      ensures t[i].orderId in orders - {id} && t[i].id < ni
    {
      assert t[i] in rows;
      var j :| 0 <= j < |rows| && rows[j] == t[i];
    }
  }

  /** The views of the orders with these ids, in the same order. */
  function Views(orders: map<OrderId, Order>, rows: seq<OrderItem>, ids: seq<OrderId>): (r: seq<OrderView>)
    requires forall k :: 0 <= k < |ids| ==> ids[k] in orders
    ensures |r| == |ids|
    ensures forall k :: 0 <= k < |ids| ==> r[k] == OrderView(orders[ids[k]], ItemsOf(rows, ids[k]))
  {
    if ids == [] then []
    else [OrderView(orders[ids[0]], ItemsOf(rows, ids[0]))] + Views(orders, rows, ids[1..])
  }

  /** The ids of the user's orders (the `where: { userId }` filter). */
  function OrdersOf(orders: map<OrderId, Order>, userId: UserId): set<OrderId>
  {
    set o | o in orders && orders[o].userId == userId
  }

  /** The orders with ids in `keys` below `n`, each with its items, newest first. */
  function ListNewestFirst(orders: map<OrderId, Order>, rows: seq<OrderItem>, keys: set<OrderId>, n: nat): (r: seq<OrderView>)
    requires forall k :: k in keys ==> k in orders && orders[k].id == k
    ensures forall k :: 0 <= k < |r| ==>
      r[k].order.id in keys && r[k] == OrderView(orders[r[k].order.id], ItemsOf(rows, r[k].order.id))
    ensures forall o :: o in keys && o < n ==> exists k :: 0 <= k < |r| && r[k].order.id == o
    ensures forall i, j :: 0 <= i < j < |r| ==> r[i].order.id > r[j].order.id
  {
    var ids := NewestFirst(keys, n);
    assert forall k :: 0 <= k < |ids| ==> ids[k] in ids;
    var r := Views(orders, rows, ids);
    assert forall k :: 0 <= k < |r| ==> r[k].order.id == ids[k];
    assert forall o :: o in keys && o < n ==> o in ids;
    r
  }

  // ---------------------------------------------------------------------------
  // The service

  /** OrdersService: the `orders` and `order_items` repositories, with the
      cart, the user directory and the inventory ledger it drives. */
  class OrdersService {
    const cartService: CartService
    const usersService: UsersService
    const productsService: ProductsService
    var orders: map<OrderId, Order>
    var items: seq<OrderItem>    // the order_items table
    var nextOrderId: nat         // fresh-id suppliers
    var nextItemId: nat

    ghost predicate Valid()
      reads this, cartService, usersService, productsService
    {
      && cartService.usersService == usersService && cartService.productsService == productsService
      && cartService.Valid() && usersService.Valid() && productsService.Valid()
      && OrdersOK(orders, items, nextOrderId, nextItemId)
    }

    constructor (cart: CartService, users: UsersService, products: ProductsService)
      requires cart.usersService == users && cart.productsService == products
      requires cart.Valid() && users.Valid() && products.Valid()
      ensures Valid()
      ensures cartService == cart && usersService == users && productsService == products
      ensures orders == map[] && items == []
    {
      cartService := cart;
      usersService := users;
      productsService := products;
      orders := map[];
      items := [];
      nextOrderId := 0;
      nextItemId := 0;
    }

    /** The lines of the user's cart; none when the user has no cart yet. */
    ghost function CartLines(userId: UserId): seq<CartItem>
      reads cartService
    {
      if cartService.HasCart(userId) then Lines(cartService.items, cartService.CartOf(userId)) else []
    }

    /** The stored total of the user's cart; 0 when the user has no cart yet. */
    ghost function CartTotal(userId: UserId): Money
      reads cartService
    {
      if cartService.HasCart(userId) then cartService.carts[cartService.CartOf(userId)].total else 0
    }

    /** The pre-flight loop of `create`: the first line whose product is gone
        or short of stock fails checkout; nothing is written. */
    method CheckStock(lines: seq<CartItem>) returns (e: Option<Error>)
      ensures e == Preflight(lines, productsService.products)
    {
      var i := 0;
      while i < |lines|
        invariant 0 <= i <= |lines|
        invariant Preflight(lines[i..], productsService.products) == Preflight(lines, productsService.products)
      {
        var product := productsService.FindOne(lines[i].productId);
        if product.Failure? {
          return Some(product.error);
        }
        if product.value.stock < lines[i].quantity {
          return Some(InsufficientStockOf(product.value.name));
        }
        assert lines[i..][1..] == lines[i + 1..];
        i := i + 1;
      }
      return None;
    }

    /** One pass of the second loop of `create`: the line is saved as an item
        of the order under its product's current name, and that product's
        stock drops by the line's quantity. */
    method PlaceLine(orderId: OrderId, line: CartItem)
      requires productsService.Valid() && line.productId in productsService.products
      modifies this, productsService
      ensures productsService.Valid() && productsService.nextId == old(productsService.nextId)
      ensures var p := old(productsService.products[line.productId]);
        && productsService.products == old(productsService.products)[line.productId := p.(stock := p.stock - line.quantity)]
        && items == old(items) + [Copy(line, orderId, p.name, old(nextItemId))]
      ensures nextItemId == old(nextItemId) + 1
      ensures orders == old(orders) && nextOrderId == old(nextOrderId)
    {
      ghost var w := productsService.products;
      var product := productsService.FindOne(line.productId);
      assert product == Success(w[line.productId]);
      var item := Copy(line, orderId, product.value.name, nextItemId);
      items := items + [item];
      nextItemId := nextItemId + 1;
      var patch := StockPatch(product.value.stock - line.quantity);
      assert Merged(w[line.productId], patch) == w[line.productId].(stock := w[line.productId].stock - line.quantity);
      var updated := productsService.Update(line.productId, patch);
    }

    /** The second loop of `create`: each line becomes an item of the order,
        named after its product, and the product's stock is decremented. */
    method PlaceItems(orderId: OrderId, lines: seq<CartItem>)
      requires productsService.Valid() && Listed(lines, productsService.products)
      modifies this, productsService
      ensures productsService.Valid() && productsService.nextId == old(productsService.nextId)
      ensures productsService.products == Withdrawn(old(productsService.products), lines)
      ensures items == old(items) + Snapshot(lines, orderId, old(productsService.products), old(nextItemId))
      ensures nextItemId == old(nextItemId) + |lines|
      ensures orders == old(orders) && nextOrderId == old(nextOrderId)
    {
      ghost var catalog := productsService.products;
      ghost var rows := items;
      var i := 0;
      while i < |lines|
        invariant 0 <= i <= |lines|
        invariant productsService.Valid() && productsService.nextId == old(productsService.nextId)
        invariant productsService.products == Withdrawn(catalog, lines[..i])
        invariant Listed(lines[..i], catalog)
        invariant items == rows + Snapshot(lines[..i], orderId, catalog, old(nextItemId))
        invariant nextItemId == old(nextItemId) + i
        invariant orders == old(orders) && nextOrderId == old(nextOrderId)
      {
        var line := lines[i];
        PlaceStep(catalog, lines, i, orderId, old(nextItemId));
        PlaceLine(orderId, line);
        i := i + 1;
      }
      assert lines[..i] == lines;
    }

    /** `create` (checkout). Errors in this order: the user is unknown,
        nothing changes; the cart has no lines (the cart itself may have just
        been created empty), no order is written and no stock changes; a line
        fails the pre-flight, nothing changes. Otherwise a pending order frozen
        at the cart's total is written with one item per line, each product's
        stock drops by its line's quantity, and the cart is emptied. */
    method Create(userId: UserId, shippingAddress: Option<string>, notes: Option<string>) returns (r: Result<OrderView>)
      requires Valid()
      modifies this, cartService, productsService
      ensures Valid()
      ensures userId !in usersService.users ==>
        r == Failure(NotFound(UserEntity)) && unchanged(this, cartService, productsService)
      ensures (userId in usersService.users && old(CartLines(userId)) == []) ==>
        && r == Failure(EmptyCart) && unchanged(this, productsService)
        && cartService.items == old(cartService.items) && cartService.HasCart(userId)
        && (old(cartService.HasCart(userId)) ==> unchanged(cartService))
        && (!old(cartService.HasCart(userId)) ==>
              var c := cartService.CartOf(userId);
              c !in old(cartService.carts) && cartService.carts == old(cartService.carts)[c := Cart(c, userId, 0)])
      ensures (userId in usersService.users && old(CartLines(userId)) != []
               && old(Preflight(CartLines(userId), productsService.products)).Some?) ==>
        && r == Failure(old(Preflight(CartLines(userId), productsService.products)).value)
        && unchanged(this, cartService, productsService)
      ensures (userId in usersService.users && old(CartLines(userId)) != []
               && old(Preflight(CartLines(userId), productsService.products)).None?) ==>
        && r.Success?
        && r.value.order.id !in old(orders)
        && r.value.order == Order(r.value.order.id, userId, old(CartTotal(userId)), Pending, shippingAddress, notes)
        && r.value.order.total == Sum(old(CartLines(userId)))
        && orders == old(orders)[r.value.order.id := r.value.order]
        && Listed(old(CartLines(userId)), old(productsService.products))
        && r.value.items == Snapshot(old(CartLines(userId)), r.value.order.id, old(productsService.products), old(nextItemId))
        && items == old(items) + r.value.items && r.value.items == ItemsOf(items, r.value.order.id)
        && productsService.products == Withdrawn(old(productsService.products), old(CartLines(userId)))
        && CartLines(userId) == [] && CartTotal(userId) == 0
        && cartService.HasCart(userId) && old(cartService.HasCart(userId))
        && (var c := cartService.CartOf(userId);
            && c in old(cartService.carts)
            && cartService.items == ClearLines(old(cartService.items), c)
            && cartService.carts == old(cartService.carts)[c := Cart(c, userId, 0)])
        && cartService.nextCartId == old(cartService.nextCartId)
        && cartService.nextItemId == old(cartService.nextItemId)
        && (forall p :: p in old(productsService.products) && old(productsService.products[p].stock) >= 0 ==>
              p in productsService.products && productsService.products[p].stock >= 0)
    {
      ghost var oldLines, oldTotal := CartLines(userId), CartTotal(userId);
      var user := usersService.FindOne(userId);
      if user.Failure? {
        return Failure(user.error);
      }
      var cart := cartService.GetCartByUserId(userId);
      assert cart.Success?;
      ghost var c := cart.value.id;
      assert cartService.CartOf(userId) == c by {
        assert CartsOK(cartService.carts, cartService.nextCartId);
      }
      var lines := cart.value.items;
      if |lines| == 0 {
        return Failure(EmptyCart);
      }
      assert lines == oldLines && cart.value.total == oldTotal && oldTotal == Sum(oldLines);
      var failed := CheckStock(lines);
      if failed.Some? {
        return Failure(failed.value);
      }
      PreflightPasses(lines, productsService.products);
      assert productsService.products == old(productsService.products);
      assert orders == old(orders) && items == old(items) && nextItemId == old(nextItemId);
      r := PlaceOrder(userId, lines, cart.value.total, shippingAddress, notes);
    }

    /** The writing half of `create`, once the checks have passed: the order
        is saved as pending at the cart's total, the items are written and the
        stock taken out (see PlaceItems), the cart is cleared, and the order is
        read back with its items. */
    method PlaceOrder(userId: UserId, lines: seq<CartItem>, total: Money,
                      shippingAddress: Option<string>, notes: Option<string>) returns (r: Result<OrderView>)
      requires Valid() && userId in usersService.users
      requires lines == CartLines(userId) && total == CartTotal(userId) && total == Sum(lines)
      requires Covered(lines, productsService.products)
      modifies this, cartService, productsService
      ensures Valid()
      ensures && r.Success?
        && r.value.order.id !in old(orders)
        && r.value.order == Order(r.value.order.id, userId, total, Pending, shippingAddress, notes)
        && orders == old(orders)[r.value.order.id := r.value.order]
        && Listed(lines, old(productsService.products))
        && r.value.items == Snapshot(lines, r.value.order.id, old(productsService.products), old(nextItemId))
        && items == old(items) + r.value.items && r.value.items == ItemsOf(items, r.value.order.id)
        && productsService.products == Withdrawn(old(productsService.products), lines)
        && CartLines(userId) == [] && CartTotal(userId) == 0
      ensures cartService.HasCart(userId)
      ensures var c := cartService.CartOf(userId);
        && (c in old(cartService.carts) <==> old(cartService.HasCart(userId)))
        && cartService.items == ClearLines(old(cartService.items), c)
        && cartService.carts == old(cartService.carts)[c := Cart(c, userId, 0)]
      ensures cartService.nextItemId == old(cartService.nextItemId)
      ensures old(cartService.HasCart(userId)) ==> cartService.nextCartId == old(cartService.nextCartId)
      ensures forall p :: p in old(productsService.products) && old(productsService.products[p].stock) >= 0 ==>
        p in productsService.products && productsService.products[p].stock >= 0
    {
      if cartService.HasCart(userId) {
        LinesHaveDistinctProducts(cartService.items, cartService.CartOf(userId));
      }
      CheckoutKeepsStockNonNegative(productsService.products, lines);
      var order := WriteOrder(userId, lines, total, shippingAddress, notes);
      var cleared := cartService.ClearCart(userId);
      assert cleared.Success?;
      r := FindOne(order.id);
    }

    /** The order row and its items: the order is saved as pending at the
        given total under a fresh id, then PlaceItems writes its items and
        takes the stock out. */
    method WriteOrder(userId: UserId, lines: seq<CartItem>, total: Money,
                      shippingAddress: Option<string>, notes: Option<string>) returns (order: Order)
      requires OrdersOK(orders, items, nextOrderId, nextItemId) && productsService.Valid()
      requires Listed(lines, productsService.products) && total == Sum(lines)
      modifies this, productsService
      ensures OrdersOK(orders, items, nextOrderId, nextItemId)
      ensures productsService.Valid() && productsService.nextId == old(productsService.nextId)
      ensures order.id !in old(orders) && order == Order(order.id, userId, total, Pending, shippingAddress, notes)
      ensures orders == old(orders)[order.id := order]
      ensures items == old(items) + Snapshot(lines, order.id, old(productsService.products), old(nextItemId))
      ensures ItemsOf(items, order.id) == Snapshot(lines, order.id, old(productsService.products), old(nextItemId))
      ensures productsService.products == Withdrawn(old(productsService.products), lines)
    {
      order := Order(nextOrderId, userId, total, Pending, shippingAddress, notes);
      PlacedOrderKeepsOrders(orders, items, nextOrderId, nextItemId, order, lines, productsService.products);
      orders := orders[order.id := order];
      nextOrderId := nextOrderId + 1;
      PlaceItems(order.id, lines);
    }

    /** `findOne`: the order with its items, or NotFound. */
    method FindOne(id: OrderId) returns (r: Result<OrderView>)
      ensures id in orders ==> r == Success(OrderView(orders[id], ItemsOf(items, id)))
      ensures id !in orders ==> r == Failure(NotFound(OrderEntity))
    {
      if id in orders {
        r := Success(OrderView(orders[id], ItemsOf(items, id)));
      } else {
        r := Failure(NotFound(OrderEntity));
      }
    }

    /** `findAll`: every order with its items, newest first. */
    function FindAll(): (r: seq<OrderView>)
      reads this
      requires OrdersOK(orders, items, nextOrderId, nextItemId)
      ensures forall k :: 0 <= k < |r| ==>
        r[k].order.id in orders && r[k] == OrderView(orders[r[k].order.id], ItemsOf(items, r[k].order.id))
      ensures forall o :: o in orders ==> exists k :: 0 <= k < |r| && r[k].order.id == o
      ensures forall i, j :: 0 <= i < j < |r| ==> r[i].order.id > r[j].order.id
    {
      ListNewestFirst(orders, items, orders.Keys, nextOrderId)
    }

    /** `findByUserId`: NotFound for an unknown user; otherwise exactly the
        user's orders with their items, newest first. */
    function FindByUserId(userId: UserId): (r: Result<seq<OrderView>>)
      reads this, usersService
      requires OrdersOK(orders, items, nextOrderId, nextItemId)
      ensures userId !in usersService.users ==> r == Failure(NotFound(UserEntity))
      ensures userId in usersService.users ==> r.Success?
      ensures r.Success? ==> forall k :: 0 <= k < |r.value| ==>
        var id := r.value[k].order.id;
        id in orders && orders[id].userId == userId && r.value[k] == OrderView(orders[id], ItemsOf(items, id))
      ensures r.Success? ==> forall o :: o in orders && orders[o].userId == userId ==>
        exists k :: 0 <= k < |r.value| && r.value[k].order.id == o
      ensures r.Success? ==> forall i, j :: 0 <= i < j < |r.value| ==> r.value[i].order.id > r.value[j].order.id
    {
      if userId !in usersService.users then Failure(NotFound(UserEntity))
      else
        var mine := OrdersOf(orders, userId);
        assert forall o :: o in orders && orders[o].userId == userId ==> o in mine && o < nextOrderId;
        Success(ListNewestFirst(orders, items, mine, nextOrderId))
    }

    /** `update`: NotFound for an unknown id; a failed save with no change
        when the body nulls the status (a NOT NULL column); otherwise the body
        is assigned and the order's user, total and items stay. */
    method Update(id: OrderId, patch: OrderPatch) returns (r: Result<OrderView>)
      requires Valid()
      modifies this
      ensures Valid()
      ensures id !in old(orders) ==> r == Failure(NotFound(OrderEntity)) && unchanged(this)
      ensures id in old(orders) && patch.status.Null? ==> r == Failure(NotNullViolation) && unchanged(this)
      ensures id in old(orders) && !patch.status.Null? ==>
        && orders == old(orders)[id := Amended(old(orders[id]), patch)]
        && items == old(items) && nextOrderId == old(nextOrderId) && nextItemId == old(nextItemId)
        && r == Success(OrderView(orders[id], ItemsOf(items, id)))
    {
      var found := FindOne(id);
      if found.Failure? {
        return found;
      }
      if patch.status.Null? {
        return Failure(NotNullViolation);
      }
      var amended := Amended(found.value.order, patch);
      AmendKeepsOrders(orders, items, nextOrderId, nextItemId, id, amended);
      orders := orders[id := amended];
      r := FindOne(id);
    }

    /** One pass of the restore loop of `remove`: NotFound when the item's
        product is gone, otherwise the item's quantity goes back onto that
        product's stock. */
    method RestoreLine(item: OrderItem) returns (r: Result<()>)
      requires productsService.Valid()
      modifies productsService
      ensures productsService.Valid() && productsService.nextId == old(productsService.nextId)
      ensures item.productId !in old(productsService.products) ==>
        r == Failure(NotFound(ProductEntity)) && unchanged(productsService)
      ensures item.productId in old(productsService.products) ==>
        var p := old(productsService.products[item.productId]);
        r == Success(()) &&
        productsService.products == old(productsService.products)[item.productId := p.(stock := p.stock + item.quantity)]
    {
      ghost var w := productsService.products;
      var product := productsService.FindOne(item.productId);
      if product.Failure? {
        return Failure(product.error);
      }
      assert product == Success(w[item.productId]);
      var patch := StockPatch(product.value.stock + item.quantity);
      assert Merged(w[item.productId], patch) == w[item.productId].(stock := w[item.productId].stock + item.quantity);
      var updated := productsService.Update(item.productId, patch);
      r := Success(());
    }

    /** The restore loop of `remove`: each item's quantity goes back onto its
        product's stock; a product that is gone stops the loop with NotFound,
        the items before it restored. */
    method RestoreStock(its: seq<OrderItem>) returns (r: Result<()>)
      requires productsService.Valid()
      modifies productsService
      ensures productsService.Valid() && productsService.nextId == old(productsService.nextId)
      ensures var k := RestorablePrefix(its, old(productsService.products));
        && productsService.products == Restored(old(productsService.products), its[..k])
        && (k == |its| ==> r == Success(()))
        && (k < |its| ==> r == Failure(NotFound(ProductEntity)))
    {
      ghost var catalog := productsService.products;
      var i := 0;
      while i < |its|
        invariant 0 <= i <= |its|
        invariant productsService.Valid() && productsService.nextId == old(productsService.nextId)
        invariant productsService.products == Restored(catalog, its[..i])
        invariant forall j :: 0 <= j < i ==> its[j].productId in catalog
      {
        var item := its[i];
        RestoredAt(catalog, its[..i], item.productId);
        var restored := RestoreLine(item);
        if restored.Failure? {
          return restored;
        }
        assert its[..i + 1][..i] == its[..i];
        i := i + 1;
      }
      assert its[..i] == its;
      r := Success(());
    }

    /** `remove` (cancellation): NotFound for an unknown id; a failure that
        changes nothing for an order that is not pending; otherwise every
        item's quantity goes back onto its product's stock and the order is
        deleted with its items. */
    method Remove(id: OrderId) returns (r: Result<()>)
      requires Valid()
      modifies this, productsService
      ensures Valid()
      ensures nextOrderId == old(nextOrderId) && nextItemId == old(nextItemId)
      ensures id !in old(orders) ==> r == Failure(NotFound(OrderEntity)) && unchanged(this, productsService)
      ensures (id in old(orders) && old(orders[id].status) != Pending) ==>
        r == Failure(NotPending) && unchanged(this, productsService)
      ensures (id in old(orders) && old(orders[id].status) == Pending) ==>
        var its := old(ItemsOf(items, id));
        var k := RestorablePrefix(its, old(productsService.products));
        && productsService.products == Restored(old(productsService.products), its[..k])
        && (k < |its| ==> r == Failure(NotFound(ProductEntity)) && orders == old(orders) && items == old(items))
        && (k == |its| ==> r == Success(()) && orders == old(orders) - {id} && items == DropItems(old(items), id))
    {
      var found := FindOne(id);
      if found.Failure? {
        return Failure(found.error);
      }
      if found.value.order.status != Pending {
        return Failure(NotPending);
      }
      var restored := RestoreStock(found.value.items);
      if restored.Failure? {
        return restored;
      }
      DropOrderKeepsOrders(orders, items, nextOrderId, nextItemId, id);
      orders := orders - {id};
      items := DropItems(items, id);
      r := Success(());
    }

    /** Checkout followed at once by cancellation of the new order: when
        checkout succeeds, so does the cancellation, and every product's
        stock is back to what it was before checkout. */
    method CheckoutThenCancel(userId: UserId, shippingAddress: Option<string>, notes: Option<string>)
      returns (placed: Result<OrderView>, cancelled: Result<()>)
      requires Valid()
      modifies this, cartService, productsService
      ensures Valid()
      ensures placed.Success? ==>
        && cancelled == Success(())
        && productsService.products == old(productsService.products)
        && placed.value.order.id !in orders
    {
      ghost var catalog := productsService.products;
      ghost var lines := CartLines(userId);
      ghost var firstId := nextItemId;
      placed := Create(userId, shippingAddress, notes);
      if placed.Failure? {
        return placed, Success(());
      }
      var id := placed.value.order.id;
      SnapshotRestorable(catalog, lines, id, firstId);
      assert placed.value.items[..|placed.value.items|] == placed.value.items;
      cancelled := Remove(id);
      CancelUndoesCheckout(catalog, lines, id, firstId);
    }
  }
}
