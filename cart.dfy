/** The cart aggregator: one cart per user, created on first access, whose
    total is kept equal to the sum of its line subtotals. */
module Carts {
  import opened Common
  import opened Users
  import opened Products

  /** A row of the cart_items table. `subtotal` is what the line costs; it is
      `quantity * unitPrice` when the line is created or its quantity is set,
      but a merge recomputes it from the product's current price. */
  datatype CartItem = CartItem(
    id: CartItemId, cartId: CartId, productId: ProductId,
    quantity: int, unitPrice: Money, subtotal: Money)

  /** A row of the carts table. */
  datatype Cart = Cart(id: CartId, userId: UserId, total: Money)

  /** A cart with its `items` relation loaded, as the service returns it. */
  datatype CartView = CartView(id: CartId, userId: UserId, items: seq<CartItem>, total: Money)

  // ---------------------------------------------------------------------------
  // The cart_items table, rows in insertion order

  /** Accepts the rows of cart `c`. */
  function InCart(c: CartId): CartItem -> bool
  {
    (x: CartItem) => x.cartId == c
  }

  /** Accepts the rows of every cart but `c`. */
  function NotInCart(c: CartId): CartItem -> bool
  {
    (x: CartItem) => x.cartId != c
  }

  /** The lines of one cart (the `items` relation), in table order. */
  function Lines(rows: seq<CartItem>, cartId: CartId): seq<CartItem>
  {
    Filter(rows, InCart(cartId))
  }

  /** A row is among a cart's lines exactly when it is in the table with that cart id. */
  lemma LinesMembers(rows: seq<CartItem>, c: CartId)
    ensures forall x :: x in Lines(rows, c) <==> x in rows && x.cartId == c
  {
    FilterMembers(rows, InCart(c));
  }

  /** `items.reduce((total, item) => total + item.subtotal, 0)`. */
  function Sum(lines: seq<CartItem>): Money
  {
    if lines == [] then 0 else Sum(lines[..|lines| - 1]) + lines[|lines| - 1].subtotal
  }

  lemma SumSnoc(a: seq<CartItem>, x: CartItem)
    ensures Sum(a + [x]) == Sum(a) + x.subtotal
  {
    assert (a + [x])[..|a|] == a;
  }

  /** Appending a row adds it to the lines of its own cart only. */
  lemma AppendLines(rows: seq<CartItem>, x: CartItem, d: CartId)
    ensures Lines(rows + [x], d) == Lines(rows, d) + if x.cartId == d then [x] else []
    ensures Sum(Lines(rows + [x], d)) == Sum(Lines(rows, d)) + if x.cartId == d then x.subtotal else 0
  {
    assert (rows + [x])[..|rows|] == rows;
    if x.cartId == d {
      SumSnoc(Lines(rows, d), x);
    } else {
      assert Lines(rows, d) + [] == Lines(rows, d);
    }
  }

  /** A cart no row points to has no lines. */
  lemma {:induction false} LinesOfAbsentCart(rows: seq<CartItem>, c: CartId)
    requires forall i :: 0 <= i < |rows| ==> rows[i].cartId != c
    ensures Lines(rows, c) == []
    decreases |rows|
  {
    if rows != [] {
      LinesOfAbsentCart(rows[..|rows| - 1], c);
    }
  }

  /** The index of the row with this id (`findOne({ where: { id } })`). */
  function FindItem(rows: seq<CartItem>, id: CartItemId): (r: Option<nat>)
    ensures r.Some? ==> r.value < |rows| && rows[r.value].id == id
    ensures r.None? ==> forall i :: 0 <= i < |rows| ==> rows[i].id != id
  {
    if rows == [] then None
    else if rows[|rows| - 1].id == id then Some(|rows| - 1)
    else FindItem(rows[..|rows| - 1], id)
  }

  /** The index of the line of cart `c` for product `p`
      (`findOne({ where: { cartId, productId } })`). */
  function FindLine(rows: seq<CartItem>, c: CartId, p: ProductId): (r: Option<nat>)
    ensures r.Some? ==> r.value < |rows| && rows[r.value].cartId == c && rows[r.value].productId == p
    ensures r.None? ==> forall i :: 0 <= i < |rows| ==> !(rows[i].cartId == c && rows[i].productId == p)
  {
    if rows == [] then None
    else if rows[|rows| - 1].cartId == c && rows[|rows| - 1].productId == p then Some(|rows| - 1)
    else FindLine(rows[..|rows| - 1], c, p)
  }

  /** The table after `addToCart` saved its line: an existing line for the
      product grows by `quantity` and is re-priced at the product's current
      price, its `unitPrice` left as it was; otherwise a new line is appended,
      priced at the current price. */
  function AddLine(rows: seq<CartItem>, c: CartId, product: Product, quantity: int, freshId: CartItemId): seq<CartItem>
  {
    match FindLine(rows, c, product.id)
    case Some(i) =>
      var q := rows[i].quantity + quantity;
      rows[i := rows[i].(quantity := q, subtotal := q * product.price)]
    case None =>
      rows + [CartItem(freshId, c, product.id, quantity, product.price, quantity * product.price)]
  }

  /** The table after `updateCartItem` saved row `i`: the new quantity, the
      subtotal recomputed from the stored `unitPrice`. */
  function SetQuantity(rows: seq<CartItem>, i: nat, quantity: int): seq<CartItem>
    requires i < |rows|
  {
    rows[i := rows[i].(quantity := quantity, subtotal := quantity * rows[i].unitPrice)]
  }

  /** The table after `removeFromCart` removed row `i`. */
  function RemoveRow(rows: seq<CartItem>, i: nat): seq<CartItem>
    requires i < |rows|
  {
    rows[..i] + rows[i + 1..]
  }

  /** The table after `delete({ cartId })`: every line of cart `c` is gone. */
  function ClearLines(rows: seq<CartItem>, c: CartId): seq<CartItem>
  {
    Filter(rows, NotInCart(c))
  }

  /** After the delete, the rows are exactly those of other carts. */
  lemma ClearLinesMembers(rows: seq<CartItem>, c: CartId)
    ensures forall x :: x in ClearLines(rows, c) <==> x in rows && x.cartId != c
  {
    FilterMembers(rows, NotInCart(c));
  }

  // ---------------------------------------------------------------------------
  // How each table edit moves the lines of a cart

  /** Replacing a row by one of the same cart leaves the other carts' lines
      alone and moves the cart's sum by the change of that row's subtotal. */
  lemma {:induction false} UpdateRowLines(rows: seq<CartItem>, i: nat, x: CartItem, d: CartId)
    requires i < |rows| && x.cartId == rows[i].cartId
    ensures d != x.cartId ==> Lines(rows[i := x], d) == Lines(rows, d)
    ensures Sum(Lines(rows[i := x], d)) ==
      Sum(Lines(rows, d)) + if d == x.cartId then x.subtotal - rows[i].subtotal else 0
    decreases |rows|
  {
    var n := |rows|;
    var init, last := rows[..n - 1], rows[n - 1];
    assert rows == init + [last];
    AppendLines(init, last, d);
    if i == n - 1 {
      assert rows[i := x] == init + [x];
      AppendLines(init, x, d);
    } else {
      assert rows[i := x] == init[i := x] + [last];
      UpdateRowLines(init, i, x, d);
      AppendLines(init[i := x], last, d);
    }
  }

  /** Removing a row leaves the other carts' lines alone and takes its
      subtotal off its cart's sum. */
  lemma {:induction false} RemoveRowLines(rows: seq<CartItem>, i: nat, d: CartId)
    requires i < |rows|
    ensures d != rows[i].cartId ==> Lines(RemoveRow(rows, i), d) == Lines(rows, d)
    ensures Sum(Lines(RemoveRow(rows, i), d)) ==
      Sum(Lines(rows, d)) - if d == rows[i].cartId then rows[i].subtotal else 0
    decreases |rows|
  {
    var n := |rows|;
    var init, last := rows[..n - 1], rows[n - 1];
    assert rows == init + [last];
    AppendLines(init, last, d);
    if i == n - 1 {
      assert RemoveRow(rows, i) == init;
    } else {
      assert RemoveRow(rows, i) == RemoveRow(init, i) + [last];
      RemoveRowLines(init, i, d);
      AppendLines(RemoveRow(init, i), last, d);
    }
  }

  /** Clearing a cart empties its lines and leaves every other cart's lines alone. */
  lemma {:induction false} ClearLinesLines(rows: seq<CartItem>, c: CartId, d: CartId)
    ensures Lines(ClearLines(rows, c), d) == if d == c then [] else Lines(rows, d)
    decreases |rows|
  {
    if rows != [] {
      var init, last := rows[..|rows| - 1], rows[|rows| - 1];
      assert rows == init + [last];
      ClearLinesLines(init, c, d);
      AppendLines(init, last, d);
      if last.cartId != c {
        AppendLines(ClearLines(init, c), last, d);
      } else {
        assert ClearLines(rows, c) == ClearLines(init, c);
      }
    }
  }

  /** Clearing a cart twice is clearing it once. */
  lemma {:induction false} ClearLinesIdempotent(rows: seq<CartItem>, c: CartId)
    ensures ClearLines(ClearLines(rows, c), c) == ClearLines(rows, c)
    decreases |rows|
  {
    if rows != [] {
      var init, last := rows[..|rows| - 1], rows[|rows| - 1];
      ClearLinesIdempotent(init, c);
      var once := ClearLines(init, c);
      if last.cartId != c {
        assert (once + [last])[..|once + [last]| - 1] == once;
      } else {
        assert ClearLines(rows, c) == once;
      }
    }
  }

  // ---------------------------------------------------------------------------
  // Table invariants

  /** Two rows that may share a table: different ids, and different products
      when they belong to the same cart. */
  predicate Apart(x: CartItem, y: CartItem)
  {
    x.id != y.id && (x.cartId == y.cartId ==> x.productId != y.productId)
  }

  /** Row ids are unique and a cart has at most one line per product. */
  predicate Pairwise(rows: seq<CartItem>)
  {
    forall i, j :: 0 <= i < j < |rows| ==> Apart(rows[i], rows[j])
  }

  lemma PairwiseSnoc(a: seq<CartItem>, x: CartItem)
    ensures Pairwise(a + [x]) <==> Pairwise(a) && forall y :: y in a ==> Apart(y, x)
  {
    var s := a + [x];
    if Pairwise(a) && forall y :: y in a ==> Apart(y, x) {
      forall i, j | 0 <= i < j < |s|
        ensures Apart(s[i], s[j])
      {
        assert s[i] == a[i];
        if j == |a| {
          assert s[i] in a;
        } else {
          assert s[j] == a[j];
        }
      }
    }
    if Pairwise(s) {
      forall i, j | 0 <= i < j < |a|
        ensures Apart(a[i], a[j])
      {
        assert a[i] == s[i] && a[j] == s[j];
      }
      forall y | y in a
        ensures Apart(y, x)
      {
        var i :| 0 <= i < |a| && a[i] == y;
        assert s[i] == y && s[|a|] == x;
      }
    }
  }

  lemma RemoveRowKeepsPairwise(rows: seq<CartItem>, i: nat)
    requires i < |rows| && Pairwise(rows)
    ensures Pairwise(RemoveRow(rows, i))
  {
    var s := RemoveRow(rows, i);
    forall a, b | 0 <= a < b < |s|
      ensures Apart(s[a], s[b])
    {
      var a' := if a < i then a else a + 1;
      var b' := if b < i then b else b + 1;
      assert s[a] == rows[a'] && s[b] == rows[b'];
    }
  }

  lemma {:induction false} ClearLinesKeepsPairwise(rows: seq<CartItem>, c: CartId)
    requires Pairwise(rows)
    ensures Pairwise(ClearLines(rows, c))
    decreases |rows|
  {
    if rows != [] {
      var init, last := rows[..|rows| - 1], rows[|rows| - 1];
      assert rows == init + [last];
      PairwiseSnoc(init, last);
      ClearLinesKeepsPairwise(init, c);
      if last.cartId != c {
        ClearLinesMembers(init, c);
        PairwiseSnoc(ClearLines(init, c), last);
      } else {
        assert ClearLines(rows, c) == ClearLines(init, c) + [];
      }
    }
  }

  /** The lines of one cart name each product at most once. */
  predicate DistinctProducts(lines: seq<CartItem>)
  {
    forall i, j :: 0 <= i < j < |lines| ==> lines[i].productId != lines[j].productId
  }

  lemma {:induction false} LinesHaveDistinctProducts(rows: seq<CartItem>, c: CartId)
    requires Pairwise(rows)
    ensures DistinctProducts(Lines(rows, c))
    decreases |rows|
  {
    if rows != [] {
      var init, last := rows[..|rows| - 1], rows[|rows| - 1];
      assert rows == init + [last];
      PairwiseSnoc(init, last);
      LinesHaveDistinctProducts(init, c);
      if last.cartId == c {
        LinesMembers(init, c);
        var pre := Lines(init, c);
        var s := pre + [last];
        forall i, j | 0 <= i < j < |s|
          ensures s[i].productId != s[j].productId
        {
          assert s[i] == pre[i];
          if j == |s| - 1 {
            assert pre[i] in pre;
          } else {
            assert s[j] == pre[j];
          }
        }
      } else {
        assert Lines(rows, c) == Lines(init, c) + [];
      }
    }
  }

  /** Cart ids are consistent and below the fresh-id supplier, and each user has at most one cart. */
  ghost predicate CartsOK(carts: map<CartId, Cart>, nextCartId: nat)
  {
    && (forall c :: c in carts ==> carts[c].id == c && c < nextCartId)
    && (forall a, b :: a in carts && b in carts && carts[a].userId == carts[b].userId ==> a == b)
  }

  /** Every line has an id below the fresh-id supplier, belongs to an existing
      cart and holds a positive quantity. */
  ghost predicate RowsOK(rows: seq<CartItem>, cartIds: set<CartId>, nextItemId: nat)
  {
    forall i :: 0 <= i < |rows| ==> rows[i].id < nextItemId && rows[i].cartId in cartIds && rows[i].quantity >= 1
  }

  /** The structure of the two tables. */
  ghost predicate TablesOK(carts: map<CartId, Cart>, rows: seq<CartItem>, nextCartId: nat, nextItemId: nat)
  {
    CartsOK(carts, nextCartId) && Pairwise(rows) && RowsOK(rows, carts.Keys, nextItemId)
  }

  /** Every cart's total is the sum of its lines' subtotals (except perhaps one cart's). */
  ghost predicate TotalsOK(carts: map<CartId, Cart>, rows: seq<CartItem>, except: Option<CartId>)
  {
    forall c :: c in carts && except != Some(c) ==> carts[c].total == Sum(Lines(rows, c))
  }

  /** A new empty cart for a user who has none keeps the tables consistent. */
  lemma NewCartKeepsTables(carts: map<CartId, Cart>, rows: seq<CartItem>, nc: nat, ni: nat, u: UserId)
    requires TablesOK(carts, rows, nc, ni) && TotalsOK(carts, rows, None)
    requires forall c :: c in carts ==> carts[c].userId != u
    ensures Lines(rows, nc) == []
    ensures TablesOK(carts[nc := Cart(nc, u, 0)], rows, nc + 1, ni)
    ensures TotalsOK(carts[nc := Cart(nc, u, 0)], rows, None)
  {
    var m := carts[nc := Cart(nc, u, 0)];
    forall i | 0 <= i < |rows|
      ensures rows[i].cartId != nc
    {
      assert rows[i].cartId in carts;
    }
    LinesOfAbsentCart(rows, nc);
    assert CartsOK(m, nc + 1) by {
      forall a, b | a in m && b in m && m[a].userId == m[b].userId
        ensures a == b
      {
        if a != nc && b != nc {
          assert carts[a].userId == carts[b].userId;
        }
      }
    }
    assert RowsOK(rows, m.Keys, ni);
    forall c | c in m
      ensures m[c].total == Sum(Lines(rows, c))
    {
      if c != nc {
        assert m[c] == carts[c];
      }
    }
  }

  /** Storing a cart's sum as its total restores the totals invariant. */
  lemma SetTotalKeepsTables(carts: map<CartId, Cart>, rows: seq<CartItem>, nc: nat, ni: nat, c: CartId)
    requires TablesOK(carts, rows, nc, ni) && TotalsOK(carts, rows, Some(c)) && c in carts
    ensures TablesOK(carts[c := carts[c].(total := Sum(Lines(rows, c)))], rows, nc, ni)
    ensures TotalsOK(carts[c := carts[c].(total := Sum(Lines(rows, c)))], rows, None)
  {
    var m := carts[c := carts[c].(total := Sum(Lines(rows, c)))];
    assert m.Keys == carts.Keys;
    assert CartsOK(m, nc) by {
      forall a, b | a in m && b in m && m[a].userId == m[b].userId
        ensures a == b
      {
        assert carts[a].userId == carts[b].userId;
      }
    }
  }

  /** `addToCart`'s save keeps the structure and every other cart's total. */
  lemma AddLineKeepsTables(carts: map<CartId, Cart>, rows: seq<CartItem>, nc: nat, ni: nat,
                           c: CartId, product: Product, quantity: int)
    requires TablesOK(carts, rows, nc, ni) && TotalsOK(carts, rows, None)
    requires c in carts && quantity >= 1
    ensures var ni' := if FindLine(rows, c, product.id).Some? then ni else ni + 1;
      TablesOK(carts, AddLine(rows, c, product, quantity, ni), nc, ni')
    ensures TotalsOK(carts, AddLine(rows, c, product, quantity, ni), Some(c))
  {
    AddLineMergesOrAppends(rows, c, product, quantity, ni);
    var after := AddLine(rows, c, product, quantity, ni);
    match FindLine(rows, c, product.id)
    case Some(i) =>
      forall d | d != c
        ensures Lines(after, d) == Lines(rows, d)
      {
        UpdateRowLines(rows, i, after[i], d);
      }
      assert RowsOK(after, carts.Keys, ni) by {
        forall j | 0 <= j < |after|
          ensures after[j].id < ni && after[j].cartId in carts && after[j].quantity >= 1
        {
          if j != i {
            assert after[j] == rows[j];
          }
        }
      }
    case None =>
      var x := CartItem(ni, c, product.id, quantity, product.price, quantity * product.price);
      forall d | d != c
        ensures Lines(after, d) == Lines(rows, d)
      {
        AppendLines(rows, x, d);
      }
      assert RowsOK(after, carts.Keys, ni + 1) by {
        forall j | 0 <= j < |after|
          ensures after[j].id < ni + 1 && after[j].cartId in carts && after[j].quantity >= 1
        {
          if j < |rows| {
            assert after[j] == rows[j];
          }
        }
      }
  }

  /** `updateCartItem`'s save keeps the structure and every other cart's total. */
  lemma SetQuantityKeepsTables(carts: map<CartId, Cart>, rows: seq<CartItem>, nc: nat, ni: nat, i: nat, quantity: int)
    requires TablesOK(carts, rows, nc, ni) && TotalsOK(carts, rows, None)
    requires i < |rows| && quantity >= 1
    ensures TablesOK(carts, SetQuantity(rows, i, quantity), nc, ni)
    ensures TotalsOK(carts, SetQuantity(rows, i, quantity), Some(rows[i].cartId))
  {
    var after := SetQuantity(rows, i, quantity);
    forall j | 0 <= j < |after|
      ensures after[j].id == rows[j].id && after[j].cartId == rows[j].cartId
      ensures after[j].productId == rows[j].productId
      ensures after[j].quantity >= 1
    {
    }
    forall d | d != rows[i].cartId
      ensures Lines(after, d) == Lines(rows, d)
    {
      UpdateRowLines(rows, i, after[i], d);
    }
    assert Pairwise(after) by {
      forall a, b | 0 <= a < b < |after|
        ensures Apart(after[a], after[b])
      {
        assert Apart(rows[a], rows[b]);
      }
    }
    assert RowsOK(after, carts.Keys, ni) by {
      forall j | 0 <= j < |after|
        ensures after[j].id < ni && after[j].cartId in carts && after[j].quantity >= 1
      {
      }
    }
  }

  /** Removing a row keeps every remaining row's facts and leaves no row
      with the removed id. */
  lemma RemoveRowKeepsRows(rows: seq<CartItem>, i: nat, cartIds: set<CartId>, ni: nat)
    requires Pairwise(rows) && RowsOK(rows, cartIds, ni) && i < |rows|
    ensures Pairwise(RemoveRow(rows, i)) && RowsOK(RemoveRow(rows, i), cartIds, ni)
    ensures forall j :: 0 <= j < |RemoveRow(rows, i)| ==> RemoveRow(rows, i)[j].id != rows[i].id
  {
    var after := RemoveRow(rows, i);
    RemoveRowKeepsPairwise(rows, i);
    forall j | 0 <= j < |after|
      ensures after[j].id != rows[i].id
      ensures after[j].id < ni && after[j].cartId in cartIds && after[j].quantity >= 1
    {
      if j < i {
        assert after[j] == rows[j];
        assert Apart(rows[j], rows[i]);
      } else {
        assert after[j] == rows[j + 1];
        assert Apart(rows[i], rows[j + 1]);
      }
    }
  }

  /** `removeFromCart`'s delete keeps the structure and every other cart's
      total, and leaves no row with the removed id. */
  lemma RemoveRowKeepsTables(carts: map<CartId, Cart>, rows: seq<CartItem>, nc: nat, ni: nat, i: nat)
    requires TablesOK(carts, rows, nc, ni) && TotalsOK(carts, rows, None)
    requires i < |rows|
    ensures TablesOK(carts, RemoveRow(rows, i), nc, ni)
    ensures TotalsOK(carts, RemoveRow(rows, i), Some(rows[i].cartId))
    ensures forall j :: 0 <= j < |RemoveRow(rows, i)| ==> RemoveRow(rows, i)[j].id != rows[i].id
  {
    var after := RemoveRow(rows, i);
    RemoveRowKeepsRows(rows, i, carts.Keys, ni);
    forall d | d in carts && d != rows[i].cartId
      ensures carts[d].total == Sum(Lines(after, d))
    {
      RemoveRowLines(rows, i, d);
    }
  }

  /** Clearing a cart keeps every remaining row's facts. */
  lemma ClearLinesKeepsRows(rows: seq<CartItem>, c: CartId, cartIds: set<CartId>, ni: nat)
    requires Pairwise(rows) && RowsOK(rows, cartIds, ni)
    ensures Pairwise(ClearLines(rows, c)) && RowsOK(ClearLines(rows, c), cartIds, ni)
  {
    var after := ClearLines(rows, c);
    ClearLinesKeepsPairwise(rows, c);
    ClearLinesMembers(rows, c);
    forall i | 0 <= i < |after|
      ensures after[i].id < ni && after[i].cartId in cartIds && after[i].quantity >= 1
    {
      assert after[i] in rows;
      var k :| 0 <= k < |rows| && rows[k] == after[i];
    }
  }

  /** `clearCart` keeps the tables consistent: the cleared cart has no lines and total 0. */
  lemma ClearLinesKeepsTables(carts: map<CartId, Cart>, rows: seq<CartItem>, nc: nat, ni: nat, c: CartId)
    requires TablesOK(carts, rows, nc, ni) && TotalsOK(carts, rows, None) && c in carts
    ensures Lines(ClearLines(rows, c), c) == []
    ensures TablesOK(carts[c := carts[c].(total := 0)], ClearLines(rows, c), nc, ni)
    ensures TotalsOK(carts[c := carts[c].(total := 0)], ClearLines(rows, c), None)
  {
    var after := ClearLines(rows, c);
    var m := carts[c := carts[c].(total := 0)];
    assert m.Keys == carts.Keys;
    ClearLinesKeepsRows(rows, c, carts.Keys, ni);
    assert CartsOK(m, nc) by {
      forall a, b | a in m && b in m && m[a].userId == m[b].userId
        ensures a == b
      {
        assert carts[a].userId == carts[b].userId;
      }
    }
    forall d | d in m
      ensures m[d].total == Sum(Lines(after, d))
    {
      ClearLinesLines(rows, c, d);
      if d != c {
        assert m[d] == carts[d];
      }
    }
    ClearLinesLines(rows, c, c);
  }

  // ---------------------------------------------------------------------------
  // Properties of addToCart's line logic

  /** Adding keeps one line per product: the cart's lines for the product are
      exactly one, whose quantity is the old quantity plus the added one. */
  lemma AddLineMergesOrAppends(rows: seq<CartItem>, c: CartId, product: Product, quantity: int, freshId: CartItemId)
    requires Pairwise(rows) && forall i :: 0 <= i < |rows| ==> rows[i].id < freshId
    ensures Pairwise(AddLine(rows, c, product, quantity, freshId))
    ensures match FindLine(rows, c, product.id)
      case Some(i) =>
        var after := AddLine(rows, c, product, quantity, freshId);
        |after| == |rows|
        && after[i] == rows[i].(quantity := rows[i].quantity + quantity,
                                subtotal := (rows[i].quantity + quantity) * product.price)
        && forall j :: 0 <= j < |rows| && j != i ==> after[j] == rows[j]
      case None =>
        AddLine(rows, c, product, quantity, freshId) ==
          rows + [CartItem(freshId, c, product.id, quantity, product.price, quantity * product.price)]
  {
    match FindLine(rows, c, product.id)
    case Some(i) =>
    case None =>
      var x := CartItem(freshId, c, product.id, quantity, product.price, quantity * product.price);
      forall y | y in rows
        ensures Apart(y, x)
      {
        var k :| 0 <= k < |rows| && rows[k] == y;
      }
      PairwiseSnoc(rows, x);
  }

  /** Merging into an existing line can leave it holding more than the stock:
      only the added quantity is checked against it. */
  lemma MergeCanExceedStock()
    ensures exists rows: seq<CartItem>, product: Product, quantity: int ::
      && product.stock >= quantity >= 1
      && FindLine(rows, 0, product.id).Some?
      && AddLine(rows, 0, product, quantity, 1)[0].quantity > product.stock
  {
    var product := Product(7, "guitar", None, 100000, 3, None);
    var rows := [CartItem(0, 0, 7, 3, 100000, 300000)];
    assert FindLine(rows, 0, product.id) == Some(0);
    assert AddLine(rows, 0, product, 1, 1)[0].quantity == 4;
  }

  /** A merged line is priced at the product's current price while it keeps
      the old `unitPrice`, so its subtotal and `quantity * unitPrice` differ
      after a price change. */
  lemma MergeRepricesLine()
    ensures exists rows: seq<CartItem>, product: Product ::
      var line := AddLine(rows, 0, product, 1, 1)[0];
      FindLine(rows, 0, product.id).Some? && line.subtotal != line.quantity * line.unitPrice
  {
    var product := Product(7, "guitar", None, 120000, 5, None);
    var rows := [CartItem(0, 0, 7, 1, 100000, 100000)];
    assert FindLine(rows, 0, product.id) == Some(0);
    var line := AddLine(rows, 0, product, 1, 1)[0];
    assert line == CartItem(0, 0, 7, 2, 100000, 240000);
  }

  /** Adding a product the cart did not hold and then removing that new line
      gives back the table, and so the cart's lines and total. */
  lemma AddThenRemoveRestores(rows: seq<CartItem>, c: CartId, product: Product, quantity: int, freshId: CartItemId)
    requires FindLine(rows, c, product.id).None?
    ensures |AddLine(rows, c, product, quantity, freshId)| == |rows| + 1
    ensures RemoveRow(AddLine(rows, c, product, quantity, freshId), |rows|) == rows
  {
    var after := AddLine(rows, c, product, quantity, freshId);
    assert after[..|rows|] == rows;
  }


  /** Storing a key twice keeps only the second value. */
  lemma OverwriteTwice(m: map<CartId, Cart>, m': map<CartId, Cart>, k: CartId, v: Cart)
    requires k in m' && (m' == m || m' == m[k := m'[k]])
    ensures m'[k := v] == m[k := v]
  {
  }

  // ---------------------------------------------------------------------------
  // The service

  /** CartService: the `carts` and `cart_items` repositories, with the user
      directory and the inventory ledger it reads. */
  class CartService {
    const usersService: UsersService
    const productsService: ProductsService
    var carts: map<CartId, Cart>
    var items: seq<CartItem>    // the cart_items table
    var nextCartId: nat         // fresh-id suppliers
    var nextItemId: nat

    ghost predicate Valid()
      reads this
    {
      TablesOK(carts, items, nextCartId, nextItemId) && TotalsOK(carts, items, None)
    }

    constructor (users: UsersService, products: ProductsService)
      ensures Valid()
      ensures usersService == users && productsService == products
      ensures carts == map[] && items == []
    {
      usersService := users;
      productsService := products;
      carts := map[];
      items := [];
      nextCartId := 0;
      nextItemId := 0;
    }

    /** The user already has a cart. */
    predicate HasCart(userId: UserId)
      reads this
    {
      exists c :: c in carts && carts[c].userId == userId
    }

    /** The id of the user's cart. */
    ghost function CartOf(userId: UserId): (c: CartId)
      reads this
      requires HasCart(userId)
      ensures c in carts && carts[c].userId == userId
    {
      var c :| c in carts && carts[c].userId == userId; c
    }

    /** `v` is what the tables now hold for cart `v.id`, lines included. */
    ghost predicate Shows(v: CartView)
      reads this
    {
      v.id in carts && carts[v.id] == Cart(v.id, v.userId, v.total) && v.items == Lines(items, v.id)
    }

    /** `getCartByUserId`: NotFound for an unknown user; otherwise the user's
        cart, created empty with total 0 when the user has none. */
    method GetCartByUserId(userId: UserId) returns (r: Result<CartView>)
      requires Valid()
      modifies this
      ensures Valid()
      ensures items == old(items) && nextItemId == old(nextItemId)
      ensures userId !in usersService.users ==> r == Failure(NotFound(UserEntity)) && unchanged(this)
      ensures userId in usersService.users ==>
        && r.Success? && r.value.userId == userId && Shows(r.value)
        && r.value.total == Sum(r.value.items)
        && (old(HasCart(userId)) ==> unchanged(this) && r.value.id in old(carts))
        && (!old(HasCart(userId)) ==>
              && r.value.id !in old(carts) && r.value.items == [] && r.value.total == 0
              && carts == old(carts)[r.value.id := Cart(r.value.id, userId, 0)])
    {
      var user := usersService.FindOne(userId);
      if user.Failure? {
        return Failure(user.error);
      }
      if exists c :: c in carts && carts[c].userId == userId {
        var c :| c in carts && carts[c].userId == userId;
        r := Success(CartView(c, userId, Lines(items, c), carts[c].total));
      } else {
        var cart := Cart(nextCartId, userId, 0);
        NewCartKeepsTables(carts, items, nextCartId, nextItemId, userId);
        carts := carts[cart.id := cart];
        nextCartId := nextCartId + 1;
        r := Success(CartView(cart.id, userId, [], 0));
      }
    }

    /** The private `updateCartTotal`: stores the sum of the cart's subtotals
        as its total; an unknown cart is left alone. */
    method UpdateCartTotal(cartId: CartId)
      requires TablesOK(carts, items, nextCartId, nextItemId) && TotalsOK(carts, items, Some(cartId))
      modifies this
      ensures Valid()
      ensures items == old(items) && nextCartId == old(nextCartId) && nextItemId == old(nextItemId)
      ensures cartId in old(carts) ==>
        carts == old(carts)[cartId := old(carts[cartId]).(total := Sum(Lines(items, cartId)))]
      ensures cartId !in old(carts) ==> carts == old(carts)
    {
      if cartId in carts {
        SetTotalKeepsTables(carts, items, nextCartId, nextItemId, cartId);
        carts := carts[cartId := carts[cartId].(total := Sum(Lines(items, cartId)))];
      }
    }

    /** The save step of `addToCart`: the cart's line for the product grows
        by `quantity` and is re-priced, or a new line is appended. */
    method SaveLine(c: CartId, product: Product, quantity: int)
      requires Valid() && c in carts && quantity >= 1
      modifies this
      ensures TablesOK(carts, items, nextCartId, nextItemId) && TotalsOK(carts, items, Some(c))
      ensures carts == old(carts) && nextCartId == old(nextCartId)
      ensures items == AddLine(old(items), c, product, quantity, old(nextItemId))
      ensures nextItemId == if FindLine(old(items), c, product.id).Some? then old(nextItemId) else old(nextItemId) + 1
    {
      ghost var added := AddLine(items, c, product, quantity, nextItemId);
      AddLineKeepsTables(carts, items, nextCartId, nextItemId, c, product, quantity);
      var existing := FindLine(items, c, product.id);
      if existing.Some? {
        var i := existing.value;
        var q := items[i].quantity + quantity;
        items := items[i := items[i].(quantity := q, subtotal := q * product.price)];
      } else {
        var line := CartItem(nextItemId, c, product.id, quantity, product.price, quantity * product.price);
        items := items + [line];
        nextItemId := nextItemId + 1;
      }
      assert items == added;
    }

    /** `addToCart`. Errors in this order, each leaving everything unchanged:
        the product is unknown; its stock is below the requested quantity (the
        quantity already in the cart is not counted); the user is unknown.
        Otherwise the line is merged or appended (see AddLine) and the cart's
        total becomes the sum of its lines. */
    method AddToCart(userId: UserId, productId: ProductId, quantity: int) returns (r: Result<CartView>)
      requires Valid()
      requires quantity >= 1     // @Min(1) on the DTO
      requires productsService.Valid()
      modifies this
      ensures Valid()
      ensures productId !in productsService.products ==>
        r == Failure(NotFound(ProductEntity)) && unchanged(this)
      ensures (productId in productsService.products && productsService.products[productId].stock < quantity) ==>
        r == Failure(InsufficientStock) && unchanged(this)
      ensures (productId in productsService.products && productsService.products[productId].stock >= quantity
               && userId !in usersService.users) ==>
        r == Failure(NotFound(UserEntity)) && unchanged(this)
      ensures (productId in productsService.products && productsService.products[productId].stock >= quantity
               && userId in usersService.users) ==>
        && r.Success? && r.value.userId == userId && Shows(r.value)
        && r.value.total == Sum(r.value.items)
        && (r.value.id in old(carts) <==> old(HasCart(userId)))
        && items == AddLine(old(items), r.value.id, productsService.products[productId], quantity, old(nextItemId))
        && carts == old(carts)[r.value.id := Cart(r.value.id, userId, r.value.total)]
    {
      var found := productsService.FindOne(productId);
      if found.Failure? {
        return Failure(found.error);
      }
      var product := found.value;
      if product.stock < quantity {
        return Failure(InsufficientStock);
      }
      var cart := GetCartByUserId(userId);
      if cart.Failure? {
        return cart;
      }
      var c := cart.value.id;
      ghost var before := carts;
      assert before[c] == Cart(c, userId, cart.value.total);
      SaveLine(c, product, quantity);
      UpdateCartTotal(c);
      ghost var t := Sum(Lines(items, c));
      assert carts == before[c := Cart(c, userId, t)];
      OverwriteTwice(old(carts), before, c, Cart(c, userId, t));
      r := GetCartByUserId(userId);
      assert r.value.id == c by {
        assert carts[r.value.id].userId == carts[c].userId;
        assert CartsOK(carts, nextCartId);
      }
    }

    /** `updateCartItem`: NotFound for an unknown line; a failure when the
        product's stock is below the new quantity; otherwise the line takes the
        new quantity, its subtotal is recomputed from its stored `unitPrice`,
        the other lines stay and the cart's total is recomputed. The result is
        the owner's cart, looked up again afterwards. */
    method UpdateCartItem(itemId: CartItemId, quantity: int) returns (r: Result<CartView>)
      requires Valid()
      requires quantity >= 1     // the quantity validated by the DTO
      modifies this
      ensures Valid()
      ensures old(FindItem(items, itemId)).None? ==>
        r == Failure(NotFound(CartItemEntity)) && unchanged(this)
      ensures old(FindItem(items, itemId)).Some? ==>
        var i := old(FindItem(items, itemId)).value;
        var line := old(items[i]);
        && (line.productId !in productsService.products ==>
              r == Failure(NotFound(ProductEntity)) && unchanged(this))
        && ((line.productId in productsService.products
             && productsService.products[line.productId].stock < quantity) ==>
              r == Failure(InsufficientStock) && unchanged(this))
        && ((line.productId in productsService.products
             && productsService.products[line.productId].stock >= quantity) ==>
              && items == SetQuantity(old(items), i, quantity)
              && carts == old(carts)[line.cartId := old(carts[line.cartId]).(total := Sum(Lines(items, line.cartId)))]
              && (old(carts[line.cartId].userId) in usersService.users ==>
                    r.Success? && r.value.id == line.cartId && Shows(r.value))
              && (old(carts[line.cartId].userId) !in usersService.users ==>
                    r == Failure(NotFound(UserEntity))))
    {
      var index := FindItem(items, itemId);
      if index.None? {
        return Failure(NotFound(CartItemEntity));
      }
      var i := index.value;
      var line := items[i];
      // the `product` relation of the line; a line whose product row is gone
      // has none to read the stock from
      var product := productsService.FindOne(line.productId);
      if product.Failure? {
        return Failure(product.error);
      }
      if product.value.stock < quantity {
        return Failure(InsufficientStock);
      }
      r := SaveQuantity(i, quantity);
    }

    /** The save step of `updateCartItem`: line `i` takes the new quantity and
        a subtotal at its stored unit price, its cart's total is recomputed,
        and the cart is read back through its user. */
    method SaveQuantity(i: nat, quantity: int) returns (r: Result<CartView>)
      requires Valid() && i < |items| && quantity >= 1
      modifies this
      ensures Valid()
      ensures var line := old(items[i]);
        && items == SetQuantity(old(items), i, quantity)
        && carts == old(carts)[line.cartId := old(carts[line.cartId]).(total := Sum(Lines(items, line.cartId)))]
        && (old(carts[line.cartId].userId) in usersService.users ==>
              r.Success? && r.value.id == line.cartId && Shows(r.value))
        && (old(carts[line.cartId].userId) !in usersService.users ==>
              r == Failure(NotFound(UserEntity)))
    {
      var line := items[i];
      SetQuantityKeepsTables(carts, items, nextCartId, nextItemId, i, quantity);
      items := items[i := line.(quantity := quantity, subtotal := quantity * line.unitPrice)];
      UpdateCartTotal(line.cartId);
      var userId := carts[line.cartId].userId;
      r := GetCartByUserId(userId);
      assert r.Success? ==> r.value.id == line.cartId by {
        assert CartsOK(carts, nextCartId);
      }
    }

    /** `removeFromCart`: NotFound for an unknown line; otherwise deletes
        exactly that line, recomputes its cart's total and returns the cart. */
    method RemoveFromCart(itemId: CartItemId) returns (r: Result<CartView>)
      requires Valid()
      modifies this
      ensures Valid()
      ensures old(FindItem(items, itemId)).None? ==>
        r == Failure(NotFound(CartItemEntity)) && unchanged(this)
      ensures old(FindItem(items, itemId)).Some? ==>
        var i := old(FindItem(items, itemId)).value;
        var line := old(items[i]);
        && items == RemoveRow(old(items), i)
        && (forall j :: 0 <= j < |items| ==> items[j].id != itemId)
        && carts == old(carts)[line.cartId := old(carts[line.cartId]).(total := Sum(Lines(items, line.cartId)))]
        && (old(carts[line.cartId].userId) in usersService.users ==>
              r.Success? && r.value.id == line.cartId && Shows(r.value))
        && (old(carts[line.cartId].userId) !in usersService.users ==>
              r == Failure(NotFound(UserEntity)))
    {
      var index := FindItem(items, itemId);
      if index.None? {
        return Failure(NotFound(CartItemEntity));
      }
      var i := index.value;
      var line := items[i];
      var userId := carts[line.cartId].userId;
      RemoveRowKeepsTables(carts, items, nextCartId, nextItemId, i);
      items := RemoveRow(items, i);
      UpdateCartTotal(line.cartId);
      assert carts[line.cartId].userId == userId;
      r := GetCartByUserId(userId);
      assert r.Success? ==> r.value.id == line.cartId by {
        assert CartsOK(carts, nextCartId);
      }
    }

    /** `clearCart`: NotFound for an unknown user; otherwise the user's cart
        (created if absent) is left with no lines and total 0, and every other
        cart's lines stay. */
    method ClearCart(userId: UserId) returns (r: Result<()>)
      requires Valid()
      modifies this
      ensures Valid()
      ensures nextItemId == old(nextItemId)
      ensures old(HasCart(userId)) ==> nextCartId == old(nextCartId)
      ensures userId !in usersService.users ==> r == Failure(NotFound(UserEntity)) && unchanged(this)
      ensures userId in usersService.users ==>
        && r.Success? && HasCart(userId)
        && var c := CartOf(userId);
        && (c in old(carts) <==> old(HasCart(userId)))
        && items == ClearLines(old(items), c)
        && carts == old(carts)[c := Cart(c, userId, 0)]
        && Lines(items, c) == []
    {
      var cart := GetCartByUserId(userId);
      if cart.Failure? {
        return Failure(cart.error);
      }
      var c := cart.value.id;
      ghost var before := carts;
      assert before[c].(total := 0) == Cart(c, userId, 0);
      ClearLinesKeepsTables(carts, items, nextCartId, nextItemId, c);
      items := ClearLines(items, c);
      carts := carts[c := carts[c].(total := 0)];
      OverwriteTwice(old(carts), before, c, Cart(c, userId, 0));
      assert carts == old(carts)[c := Cart(c, userId, 0)];
      assert CartOf(userId) == c by { assert CartsOK(carts, nextCartId); }
      r := Success(());
    }
  }
}
