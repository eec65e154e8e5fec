/** The inventory ledger: the product table, the only place stock is written,
    and the catalogue queries over it. */
module Products {
  import opened Common

  datatype Product = Product(
    id: ProductId,
    name: string,
    description: Option<string>,
    price: Money,
    stock: int,            // an int column: nothing in the table keeps it non-negative
    imageUrl: Option<string>)

  /** The fields a new product is created from (the id is minted on insert). */
  datatype NewProduct = NewProduct(name: string, description: Option<string>, price: Money, stock: int, imageUrl: Option<string>)

  /** The fields of an update body, each unsent, `null` or sent with a value. */
  datatype ProductPatch = ProductPatch(
    name: Field<string>, description: Field<string>, price: Field<Money>,
    stock: Field<int>, imageUrl: Field<string>)

  /** The update writes `null` into a NOT NULL column (name, price or stock),
      which the save refuses. */
  predicate NullsRequired(patch: ProductPatch)
  {
    patch.name.Null? || patch.price.Null? || patch.stock.Null?
  }

  /** `repository.merge(product, dto)`: a sent field overwrites, a `null`
      clears description or imageUrl, an unsent field and the id stay. */
  function Merged(p: Product, patch: ProductPatch): (r: Product)
    ensures r.id == p.id
  {
    Product(p.id, Merge(patch.name, p.name), MergeNullable(patch.description, p.description),
            Merge(patch.price, p.price), Merge(patch.stock, p.stock),
            MergeNullable(patch.imageUrl, p.imageUrl))
  }

  /** A merge of an update that sends no field leaves the product as it was. */
  lemma MergedNothing(p: Product)
    ensures Merged(p, ProductPatch(Unsent, Unsent, Unsent, Unsent, Unsent)) == p
  {
  }

  /** Merging the same update twice has the effect of merging it once. */
  lemma MergedTwice(p: Product, patch: ProductPatch)
    ensures Merged(Merged(p, patch), patch) == Merged(p, patch)
  {
  }

  /** A `null` description or imageUrl clears that column and touches nothing else. */
  lemma MergedNullClears(p: Product)
    ensures Merged(p, ProductPatch(Unsent, Null, Unsent, Unsent, Unsent)) == p.(description := None)
    ensures Merged(p, ProductPatch(Unsent, Unsent, Unsent, Unsent, Null)) == p.(imageUrl := None)
  {
  }

  /** The `{ stock }` update that checkout and cancellation send: merging it
      changes the stock and nothing else. */
  function StockPatch(stock: int): (r: ProductPatch)
    ensures !NullsRequired(r)
    ensures forall p :: Merged(p, r) == p.(stock := stock)
  {
    ProductPatch(Unsent, Unsent, Unsent, Sent(stock), Unsent)
  }

  // ---------------------------------------------------------------------------
  // Catalogue queries: a filter (WHERE) followed by a sort (ORDER BY ... ASC)

  /** A WHERE clause of the catalogue queries. */
  datatype Criterion = InStock | PriceBetween(min: Money, max: Money)

  predicate Matches(c: Criterion, p: Product)
  {
    match c
    case InStock => p.stock > 0
    case PriceBetween(min, max) => min <= p.price <= max
  }

  /** No product is listed twice. */
  predicate DistinctIds(s: seq<Product>)
  {
    forall i, j :: 0 <= i < j < |s| ==> s[i].id != s[j].id
  }

  lemma DistinctCons(x: Product, t: seq<Product>)
    requires DistinctIds(t) && forall p :: p in t ==> p.id != x.id
    ensures DistinctIds([x] + t)
  {
    var s := [x] + t;
    forall i, j | 0 <= i < j < |s|
      ensures s[i].id != s[j].id
    {
      assert s[j] == t[j - 1];
      if i > 0 {
        assert s[i] == t[i - 1];
      }
    }
  }

  lemma DistinctTail(s: seq<Product>)
    requires |s| > 0 && DistinctIds(s)
    ensures DistinctIds(s[1..]) && forall p :: p in s[1..] ==> p.id != s[0].id
  {
    forall p | p in s[1..]
      ensures p.id != s[0].id
    {
      var j :| 0 <= j < |s[1..]| && s[1..][j] == p;
      assert s[j + 1] == p;
    }
  }

  /** The products of `s` that satisfy `c`, in the order of `s`. */
  function Where(s: seq<Product>, c: Criterion): (r: seq<Product>)
    ensures forall p :: p in r <==> p in s && Matches(c, p)
    ensures DistinctIds(s) ==> DistinctIds(r)
  {
    if s == [] then []
    else
      var rest := Where(s[1..], c);
      assert forall p :: p in s <==> p == s[0] || p in s[1..];
      if DistinctIds(s) then
        DistinctTail(s);
        if Matches(c, s[0]) then DistinctCons(s[0], rest); [s[0]] + rest else rest
      else
        if Matches(c, s[0]) then [s[0]] + rest else rest
  }

  /** An ORDER BY column. */
  datatype SortKey = ByName | ByPrice

  /** Text order of a string column: code point by code point, a prefix first.
      For UTF-8 text this is the byte order of SQLite's default collation. */
  predicate TextLe(a: string, b: string)
  {
    if |a| == 0 then true
    else if |b| == 0 then false
    else a[0] < b[0] || (a[0] == b[0] && TextLe(a[1..], b[1..]))
  }

  lemma {:induction false} TextLeTotal(a: string, b: string)
    ensures TextLe(a, b) || TextLe(b, a)
  {
    if |a| > 0 && |b| > 0 && a[0] == b[0] {
      TextLeTotal(a[1..], b[1..]);
    }
  }

  predicate InOrder(key: SortKey, p: Product, q: Product)
  {
    match key
    case ByName => TextLe(p.name, q.name)
    case ByPrice => p.price <= q.price
  }

  lemma InOrderTotal(key: SortKey, p: Product, q: Product)
    ensures InOrder(key, p, q) || InOrder(key, q, p)
  {
    if key == ByName {
      TextLeTotal(p.name, q.name);
    }
  }

  /** Ascending by `key`: every product is in order with the next one. */
  predicate Sorted(key: SortKey, s: seq<Product>)
  {
    forall i :: 0 < i < |s| ==> InOrder(key, s[i - 1], s[i])
  }

  /** Inserts `x` into the sorted `s` before the first product it is in order with. */
  function Insert(key: SortKey, x: Product, s: seq<Product>): (r: seq<Product>)
    requires Sorted(key, s)
    ensures |r| == |s| + 1
    ensures Sorted(key, r)
    ensures multiset(r) == multiset(s) + multiset{x}
    ensures r[0] == x || (|s| > 0 && r[0] == s[0])
  {
    if s == [] then [x]
    else if InOrder(key, x, s[0]) then [x] + s
    else
      InOrderTotal(key, x, s[0]);
      assert s == [s[0]] + s[1..];
      [s[0]] + Insert(key, x, s[1..])
  }

  /** Insertion sort: ascending by `key`, a permutation of `s`. */
  function Sort(key: SortKey, s: seq<Product>): (r: seq<Product>)
    ensures Sorted(key, r)
    ensures multiset(r) == multiset(s)
  {
    if s == [] then []
    else
      assert s == [s[0]] + s[1..];
      Insert(key, s[0], Sort(key, s[1..]))
  }

  /** A permutation lists the same products. */
  lemma SameMembers(s: seq<Product>, t: seq<Product>)
    requires multiset(s) == multiset(t)
    ensures forall p :: p in s <==> p in t
  {
    assert forall p :: p in s <==> p in multiset(s);
    assert forall p :: p in t <==> p in multiset(t);
  }

  lemma {:induction false} InsertKeepsDistinct(key: SortKey, x: Product, s: seq<Product>)
    requires Sorted(key, s) && DistinctIds(s)
    requires forall p :: p in s ==> p.id != x.id
    ensures DistinctIds(Insert(key, x, s))
  {
    if s != [] && !InOrder(key, x, s[0]) {
      DistinctTail(s);
      assert forall p :: p in s[1..] ==> p in s;
      InsertKeepsDistinct(key, x, s[1..]);
      var rest := Insert(key, x, s[1..]);
      SameMembers(rest, s[1..] + [x]);
      DistinctCons(s[0], rest);
    } else if s != [] {
      DistinctCons(x, s);
    }
  }

  lemma {:induction false} SortKeepsDistinct(key: SortKey, s: seq<Product>)
    requires DistinctIds(s)
    ensures DistinctIds(Sort(key, s))
  {
    if s != [] {
      DistinctTail(s);
      SortKeepsDistinct(key, s[1..]);
      SameMembers(Sort(key, s[1..]), s[1..]);
      InsertKeepsDistinct(key, s[0], Sort(key, s[1..]));
    }
  }

  /** Selecting the ids of a table with consistent ids lists exactly its products. */
  lemma SelectListsTable(m: map<ProductId, Product>, n: nat)
    requires forall k :: k in m ==> m[k].id == k && k < n
    ensures forall p :: p in Select(m, NewestFirst(m.Keys, n)) <==> p.id in m && m[p.id] == p
  {
    var ks := NewestFirst(m.Keys, n);
    var r := Select(m, ks);
    forall p: Product | p.id in m && m[p.id] == p
      ensures p in r
    {
      assert p.id in ks;
      var i :| 0 <= i < |ks| && ks[i] == p.id;
      assert r[i] == p;
    }
  }

  /** Selecting the ids newest first lists the products newest first. */
  lemma SelectNewestFirst(m: map<ProductId, Product>, n: nat)
    requires forall k :: k in m ==> m[k].id == k && k < n
    ensures var r := Select(m, NewestFirst(m.Keys, n));
      forall i, j :: 0 <= i < j < |r| ==> r[i].id > r[j].id
  {
    var ks := NewestFirst(m.Keys, n);
    var r := Select(m, ks);
    forall i, j | 0 <= i < j < |r|
      ensures r[i].id > r[j].id
    {
      assert r[i].id == ks[i] && r[j].id == ks[j];
    }
  }

  /** ProductsService: the `products` repository and the operations on it. */
  class ProductsService {
    var products: map<ProductId, Product>
    var nextId: nat   // the fresh-id supplier: every id in use is below it

    ghost predicate Valid()
      reads this
    {
      forall k :: k in products ==> products[k].id == k && k < nextId
    }

    constructor ()
      ensures Valid() && products == map[]
    {
      products := map[];
      nextId := 0;
    }

    /** `create`: stores exactly one new product with the given fields. */
    method Create(dto: NewProduct) returns (p: Product)
      requires Valid()
      modifies this
      ensures Valid()
      ensures p.id !in old(products) && products == old(products)[p.id := p]
      ensures p == Product(p.id, dto.name, dto.description, dto.price, dto.stock, dto.imageUrl)
    {
      p := Product(nextId, dto.name, dto.description, dto.price, dto.stock, dto.imageUrl);
      products := products[p.id := p];
      nextId := nextId + 1;
    }

    /** `findOne`: the product with this id, or NotFound. */
    method FindOne(id: ProductId) returns (r: Result<Product>)
      ensures id in products ==> r == Success(products[id])
      ensures id !in products ==> r == Failure(NotFound(ProductEntity))
    {
      if id in products {
        r := Success(products[id]);
      } else {
        r := Failure(NotFound(ProductEntity));
      }
    }

    /** `update`: NotFound for an unknown id; a failed save with no change
        when the body nulls the name, price or stock; otherwise merges the
        body into that product. The only writer of `stock`; it does not check
        that the new stock is non-negative. */
    method Update(id: ProductId, patch: ProductPatch) returns (r: Result<Product>)
      requires Valid()
      modifies this
      ensures Valid() && nextId == old(nextId)
      ensures id !in old(products) ==> r == Failure(NotFound(ProductEntity)) && unchanged(this)
      ensures id in old(products) && NullsRequired(patch) ==> r == Failure(NotNullViolation) && unchanged(this)
      ensures id in old(products) && !NullsRequired(patch) ==>
        r == Success(Merged(old(products[id]), patch)) && products == old(products)[id := r.value]
    {
      var found := FindOne(id);
      if found.Failure? {
        return found;
      }
      if patch.name.Null? || patch.price.Null? || patch.stock.Null? {
        return Failure(NotNullViolation);
      }
      var updated := Merged(found.value, patch);
      products := products[id := updated];
      r := Success(updated);
    }

    /** `remove`: NotFound for an unknown id, otherwise deletes exactly that product. */
    method Remove(id: ProductId) returns (r: Result<()>)
      requires Valid()
      modifies this
      ensures Valid() && nextId == old(nextId)
      ensures id !in old(products) ==> r == Failure(NotFound(ProductEntity)) && unchanged(this)
      ensures id in old(products) ==> r.Success? && products == old(products) - {id}
    {
      var found := FindOne(id);
      if found.Failure? {
        return Failure(found.error);
      }
      products := products - {id};
      r := Success(());
    }

    /** `findAll`: every product of the table, once each, newest first. */
    function FindAll(): (r: seq<Product>)
      reads this
      requires Valid()
      ensures DistinctIds(r)
      ensures forall p :: p in r <==> p.id in products && products[p.id] == p
      ensures forall i, j :: 0 <= i < j < |r| ==> r[i].id > r[j].id
    {
      SelectListsTable(products, nextId);
      SelectNewestFirst(products, nextId);
      Select(products, NewestFirst(products.Keys, nextId))
    }

    /** `findInStock`: exactly the products with positive stock, ascending by name. */
    function FindInStock(): (r: seq<Product>)
      reads this
      requires Valid()
      ensures Sorted(ByName, r) && DistinctIds(r)
      ensures forall p :: p in r <==> p.id in products && products[p.id] == p && p.stock > 0
    {
      var rows := Where(FindAll(), InStock);
      SameMembers(rows, Sort(ByName, rows));
      SortKeepsDistinct(ByName, rows);
      Sort(ByName, rows)
    }

    /** `findByPriceRange`: exactly the products priced within [min, max],
        ascending by price; none at all when min > max. */
    function FindByPriceRange(min: Money, max: Money): (r: seq<Product>)
      reads this
      requires Valid()
      ensures Sorted(ByPrice, r) && DistinctIds(r)
      ensures forall p :: p in r <==> p.id in products && products[p.id] == p && min <= p.price <= max
      ensures min > max ==> r == []
    {
      var rows := Where(FindAll(), PriceBetween(min, max));
      var r := Sort(ByPrice, rows);
      SameMembers(rows, r);
      SortKeepsDistinct(ByPrice, rows);
      assert min > max ==> forall p :: p !in r;
      r
    }
  }
}
