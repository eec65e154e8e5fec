/** Vocabulary shared by the four services of the store: identifiers, money,
    optional values and the error kinds the services raise. */
module Common {

  /** Every entity id is a type prefix plus a random suffix minted once on
      insert. The prefix keeps the id spaces of different tables apart, so an
      id is modelled as a serial number handed out by a per-table counter. */
  type Id = nat
  type UserId = Id
  type ProductId = Id
  type CartId = Id
  type CartItemId = Id
  type OrderId = Id
  type OrderItemId = Id

  /** Amounts are integer cents: the order and line money columns are decimals
      of scale 2, and product prices are taken to have at most two decimals. */
  type Money = int

  datatype Option<+T> = None | Some(value: T)

  /** The table whose lookup failed. */
  datatype Entity = UserEntity | ProductEntity | CartItemEntity | OrderEntity

  /** The exceptions the services throw, by kind. */
  datatype Error =
    | NotFound(entity: Entity)              // NotFoundException
    | InsufficientStock                     // 'Insufficient stock' from the cart
    | InsufficientStockOf(productName: string) // checkout pre-flight, naming the product
    | EmptyCart                             // checkout of a cart without lines
    | NotPending                            // cancelling an order that is not pending
    | EmailInUse                            // ConflictException on a duplicate email
    | NotNullViolation                      // the save's QueryFailedError: null written to a NOT NULL column

  datatype Result<+T> = Success(value: T) | Failure(error: Error)

  /** One field of an update body. `@IsOptional()` lets both a missing field
      and an explicit `null` through validation, and the assignment onto the
      entity tells them apart: a missing field is skipped, a `null` is written. */
  datatype Field<+T> = Unsent | Null | Sent(value: T)

  /** The field assigned onto a NOT NULL column: a sent value overwrites, an
      unsent field leaves the column alone. A `null` also leaves it: the save
      that would store it fails, so no stored row ever holds it. */
  function Merge<T>(f: Field<T>, current: T): T
  {
    match f
    case Sent(v) => v
    case _ => current
  }

  /** The field assigned onto a nullable column: a sent value overwrites, a
      `null` clears the column, an unsent field leaves it alone. */
  function MergeNullable<T>(f: Field<T>, current: Option<T>): Option<T>
  {
    match f
    case Unsent => current
    case Null => None
    case Sent(v) => Some(v)
  }

  /** The rows that `keep` accepts, in table order: a `where` on a foreign
      key, or the rows left by a `delete` on one. */
  function Filter<T>(rows: seq<T>, keep: T -> bool): (r: seq<T>)
    ensures |r| <= |rows|
  {
    if rows == [] then []
    else
      var last := rows[|rows| - 1];
      Filter(rows[..|rows| - 1], keep) + if keep(last) then [last] else []
  }

  /** A row is kept exactly when it is in the table and accepted. */
  lemma {:induction false} FilterMembers<T>(rows: seq<T>, keep: T -> bool)
    ensures forall x :: x in Filter(rows, keep) <==> x in rows && keep(x)
    decreases |rows|
  {
    if rows != [] {
      var init := rows[..|rows| - 1];
      FilterMembers(init, keep);
      assert rows == init + [rows[|rows| - 1]];
    }
  }

  /** The kept rows are a subsequence of the table: `idx` picks them out at
      strictly increasing positions, and every accepted position is picked. */
  lemma {:induction false} FilterInOrder<T>(rows: seq<T>, keep: T -> bool) returns (idx: seq<nat>)
    ensures |idx| == |Filter(rows, keep)|
    ensures forall k :: 0 <= k < |idx| ==> idx[k] < |rows| && Filter(rows, keep)[k] == rows[idx[k]]
    ensures forall i, j :: 0 <= i < j < |idx| ==> idx[i] < idx[j]
    ensures forall i :: 0 <= i < |rows| && keep(rows[i]) ==> i in idx
    decreases |rows|
  {
    if rows == [] {
      idx := [];
    } else {
      var n := |rows| - 1;
      var init := rows[..n];
      var pre := FilterInOrder(init, keep);
      var f := Filter(rows, keep);
      if keep(rows[n]) {
        idx := pre + [n];
        assert f == Filter(init, keep) + [rows[n]];
      } else {
        idx := pre;
        assert f == Filter(init, keep);
      }
      forall k | 0 <= k < |pre|
        ensures f[k] == rows[pre[k]]
      {
        assert f[k] == Filter(init, keep)[k];
      }
      forall i | 0 <= i < |rows| && keep(rows[i])
        ensures i in idx
      {
        if i < n {
          assert init[i] == rows[i];
          assert i in pre;
        }
      }
    }
  }

  /** The ids of a table below `n`, newest first. Ids are minted in ascending
      order, so descending id order is descending creation order; a listing
      that the database orders by `createdAt DESC` is this order. */
  function NewestFirst(keys: set<Id>, n: nat): (r: seq<Id>)
    ensures forall k :: k in r <==> k in keys && k < n
    ensures forall i, j :: 0 <= i < j < |r| ==> r[i] > r[j]
    ensures forall i :: 0 <= i < |r| ==> r[i] < n
  {
    if n == 0 then []
    else (if n - 1 in keys then [n - 1] else []) + NewestFirst(keys, n - 1)
  }

  /** The rows of a table with the given ids, in the order of the ids. */
  function Select<V>(m: map<Id, V>, ks: seq<Id>): (r: seq<V>)
    requires forall k :: k in ks ==> k in m
    ensures |r| == |ks| && forall i :: 0 <= i < |ks| ==> r[i] == m[ks[i]]
  {
    if ks == [] then [] else [m[ks[0]]] + Select(m, ks[1..])
  }
}
