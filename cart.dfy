/**
 * The shopping cart shared by the server's cart controller and the client's
 * shop context: a nested finite map from product id to (size to quantity).
 * A missing entry reads as quantity 0, as the source's `x || 0` does.
 *
 * The operations are stated against two views of a cart: `Has`/`Quantity`
 * (the flat entries) and `Tidy` (no product is left with an empty size
 * map). `TidyExtensional` shows that the two views together pin a cart down,
 * so each operation's contract describes its result completely.
 */
module CartMap {
  import opened Wrappers

  type ProductId = string
  type Size = string
  type Cart = map<ProductId, map<Size, int>>

  /** True when the cart holds an entry for (item, size), whatever its count. */
  predicate Has(c: Cart, item: ProductId, size: Size) {
    item in c && size in c[item]
  }

  /** The count stored for (item, size), 0 when there is none. */
  function Quantity(c: Cart, item: ProductId, size: Size): int {
    if Has(c, item, size) then c[item][size] else 0
  }

  /** No product maps to an empty size map. */
  ghost predicate Tidy(c: Cart) {
    forall item :: item in c ==> c[item] != map[]
  }

  /** `c` and `d` hold the same entries with the same counts, except perhaps at (item, size). */
  ghost predicate AgreeExcept(c: Cart, d: Cart, item: ProductId, size: Size) {
    forall i, s :: (i != item || s != size) ==>
      (Has(c, i, s) <==> Has(d, i, s)) && Quantity(c, i, s) == Quantity(d, i, s)
  }

  /** Two tidy carts with the same entries are equal. */
  lemma TidyExtensional(c: Cart, d: Cart)
    requires Tidy(c) && Tidy(d)
    requires forall i, s :: (Has(c, i, s) <==> Has(d, i, s)) && Quantity(c, i, s) == Quantity(d, i, s)
    ensures c == d
  {
    forall i | i in c
      ensures i in d && c[i] == d[i]
    {
      var s :| s in c[i];
      assert Has(c, i, s);
      forall s' | s' in c[i] || s' in d[i]
        ensures s' in c[i] && s' in d[i] && c[i][s'] == d[i][s']
      {
        assert Has(c, i, s') <==> Has(d, i, s');
        assert Quantity(c, i, s') == Quantity(d, i, s');
      }
    }
    forall i | i in d
      ensures i in c
    {
      var s :| s in d[i];
      assert Has(d, i, s);
    }
  }

  /** The size map of `item`, empty when the cart does not hold the product. */
  function Sizes(c: Cart, item: ProductId): map<Size, int> {
    if item in c then c[item] else map[]
  }

  /** Adding one unit of (item, size): its count goes up by one, nothing else changes. */
  function Increment(c: Cart, item: ProductId, size: Size): (r: Cart)
    ensures Has(r, item, size) && Quantity(r, item, size) == Quantity(c, item, size) + 1
    ensures AgreeExcept(c, r, item, size)
    ensures Tidy(c) ==> Tidy(r)
  {
    c[item := Sizes(c, item)[size := Quantity(c, item, size) + 1]]
  }

  /** Storing `q` as the count of (item, size), creating the entry if needed. */
  function SetQuantity(c: Cart, item: ProductId, size: Size, q: int): (r: Cart)
    ensures Has(r, item, size) && Quantity(r, item, size) == q
    ensures AgreeExcept(c, r, item, size)
    ensures Tidy(c) ==> Tidy(r)
  {
    c[item := Sizes(c, item)[size := q]]
  }

  /**
   * Deleting the entry (item, size), then the product itself when no size
   * is left for it.
   */
  function RemoveSize(c: Cart, item: ProductId, size: Size): (r: Cart)
    ensures !Has(r, item, size) && Quantity(r, item, size) == 0
    ensures AgreeExcept(c, r, item, size)
    ensures Tidy(c) ==> Tidy(r)
    ensures item in r ==> item in c && r[item] != map[]
  {
    if item in c then
      var rest := c[item] - {size};
      assert forall s :: s != size && s in c[item] ==> s in rest;
      if rest == map[] then c - {item} else c[item := rest]
    else c
  }

  /** Removing an entry that `Increment` created gives back the cart it started from. */
  lemma RemoveUndoesIncrement(c: Cart, item: ProductId, size: Size)
    requires Tidy(c) && !Has(c, item, size)
    ensures RemoveSize(Increment(c, item, size), item, size) == c
  {
    var r := RemoveSize(Increment(c, item, size), item, size);
    forall i, s
      ensures (Has(c, i, s) <==> Has(r, i, s)) && Quantity(c, i, s) == Quantity(r, i, s)
    {
    }
    TidyExtensional(c, r);
  }

  // ---------------------------------------------------------------------
  // Sums over finite maps
  // ---------------------------------------------------------------------

  /** Some key of a non-empty set. */
  ghost function Pick<K>(keys: set<K>): K
    requires keys != {}
  {
    var k :| k in keys; k
  }

  /** The sum of the values of a finite map, in no particular order. */
  ghost function SumValues<K>(m: map<K, int>): int
    decreases |m|
  {
    if m == map[] then 0
    else
      var k := Pick(m.Keys);
      m[k] + SumValues(m - {k})
  }

  /** The sum does not depend on which key is taken out first. */
  lemma {:induction false} SumValuesRemove<K>(m: map<K, int>, k: K)
    requires k in m
    ensures SumValues(m) == m[k] + SumValues(m - {k})
    decreases |m|
  {
    var j := Pick(m.Keys);
    if j != k {
      var mj, mk := m - {j}, m - {k};
      assert mj - {k} == mk - {j};
      calc {
        SumValues(m);
        m[j] + SumValues(mj);
        { SumValuesRemove(mj, k); }
        m[j] + mj[k] + SumValues(mj - {k});
        { SumValuesRemove(mk, j); }
        m[k] + SumValues(mk);
      }
    }
  }

  /** Overwriting one value changes the sum by the difference. */
  lemma SumValuesUpdate<K>(m: map<K, int>, k: K, v: int)
    ensures SumValues(m[k := v]) == SumValues(m) - (if k in m then m[k] else 0) + v
  {
    var m' := m[k := v];
    SumValuesRemove(m', k);
    assert m' - {k} == m - {k};
    if k in m {
      SumValuesRemove(m, k);
    } else {
      assert m - {k} == m;
    }
  }

  /** A sum of values none of which is negative is not negative. */
  lemma {:induction false} SumValuesNonNegative<K>(m: map<K, int>)
    requires forall k :: k in m ==> m[k] >= 0
    ensures SumValues(m) >= 0
    decreases |m|
  {
    if m != map[] {
      var k := Pick(m.Keys);
      SumValuesNonNegative(m - {k});
    }
  }

  /** Every stored count is at least zero, as the cart edits keep it when given non-negative quantities. */
  ghost predicate NoNegativeCounts(c: Cart) {
    forall item, size :: item in c && size in c[item] ==> c[item][size] >= 0
  }

  /** The units of each product in the cart. */
  ghost function Lines(c: Cart): map<ProductId, int> {
    map item | item in c :: SumValues(c[item])
  }

  lemma LinesNonNegative(c: Cart)
    requires NoNegativeCounts(c)
    ensures forall item :: item in Lines(c) ==> Lines(c)[item] >= 0
  {
    forall item | item in c {
      SumValuesNonNegative(c[item]);
    }
  }

  /** The number of units in the cart: the sum of every stored count. */
  ghost function TotalCount(c: Cart): (n: int)
    ensures c == map[] ==> n == 0
    ensures NoNegativeCounts(c) ==> n >= 0
  {
    if NoNegativeCounts(c) then
      LinesNonNegative(c);
      SumValuesNonNegative(Lines(c));
      SumValues(Lines(c))
    else
      SumValues(Lines(c))
  }

  lemma TotalCountRemoveItem(c: Cart, item: ProductId)
    requires item in c
    ensures TotalCount(c) == SumValues(c[item]) + TotalCount(c - {item})
  {
    SumValuesRemove(Lines(c), item);
    assert Lines(c) - {item} == Lines(c - {item});
  }

  lemma TotalCountSetItem(c: Cart, item: ProductId, sizes: map<Size, int>)
    ensures TotalCount(c[item := sizes]) == TotalCount(c) - SumValues(Sizes(c, item)) + SumValues(sizes)
  {
    assert Lines(c[item := sizes]) == Lines(c)[item := SumValues(sizes)];
    SumValuesUpdate(Lines(c), item, SumValues(sizes));
    if item !in c {
      assert Sizes(c, item) == map[];
    }
  }

  /** Changing the count of one entry changes the total by exactly the difference. */
  lemma TotalCountSetQuantity(c: Cart, item: ProductId, size: Size, q: int)
    ensures TotalCount(SetQuantity(c, item, size, q)) == TotalCount(c) - Quantity(c, item, size) + q
  {
    SumValuesUpdate(Sizes(c, item), size, q);
    TotalCountSetItem(c, item, Sizes(c, item)[size := q]);
  }

  /** Adding one unit raises the total count by exactly one. */
  lemma TotalCountIncrement(c: Cart, item: ProductId, size: Size)
    ensures TotalCount(Increment(c, item, size)) == TotalCount(c) + 1
  {
    TotalCountSetQuantity(c, item, size, Quantity(c, item, size) + 1);
  }

  /** Removing an entry lowers the total count by that entry's count. */
  lemma TotalCountRemoveSize(c: Cart, item: ProductId, size: Size)
    ensures TotalCount(RemoveSize(c, item, size)) == TotalCount(c) - Quantity(c, item, size)
  {
    if item in c {
      var rest := c[item] - {size};
      if size in c[item] {
        SumValuesRemove(c[item], size);
      } else {
        assert rest == c[item];
      }
      if rest == map[] {
        TotalCountRemoveItem(c, item);
      } else {
        TotalCountSetItem(c, item, rest);
      }
    }
  }

  // ---------------------------------------------------------------------
  // Prices (in cents, so that totals are exact)
  // ---------------------------------------------------------------------

  datatype Product = Product(id: ProductId, price: int)

  /** `products.find(p => p._id === id)`: the first product with that id. */
  function FindProduct(products: seq<Product>, id: ProductId): (r: Option<Product>)
    ensures r.None? <==> forall k :: 0 <= k < |products| ==> products[k].id != id
    ensures r.Some? ==> r.value.id == id
    ensures r.Some? ==>
              exists k :: 0 <= k < |products| && products[k] == r.value && (forall j :: 0 <= j < k ==> products[j].id != id)
  {
    if products == [] then None
    else if products[0].id == id then Some(products[0])
    else
      var r := FindProduct(products[1..], id);
      assert forall k :: 1 <= k < |products| ==> products[k] == products[1..][k - 1];
      r
  }

  /** The unit price of a product, 0 when the catalogue does not list it. */
  function PriceOf(products: seq<Product>, id: ProductId): (price: int)
    ensures (forall k :: 0 <= k < |products| ==> products[k].id != id) ==> price == 0
    ensures forall k :: 0 <= k < |products| && products[k].id == id && (forall j :: 0 <= j < k ==> products[j].id != id) ==>
                          price == products[k].price
  {
    match FindProduct(products, id)
    case Some(p) => p.price
    case None => 0
  }

  /** What each product line of the cart costs. */
  ghost function LineAmounts(c: Cart, products: seq<Product>): map<ProductId, int> {
    map item | item in c :: PriceOf(products, item) * SumValues(c[item])
  }

  /** The subtotal: price times count over every entry, unknown products costing nothing. */
  ghost function Amount(c: Cart, products: seq<Product>): (amount: int)
    ensures c == map[] ==> amount == 0
    ensures NoNegativeCounts(c) && (forall k :: 0 <= k < |products| ==> products[k].price >= 0) ==> amount >= 0
  {
    if NoNegativeCounts(c) && (forall k :: 0 <= k < |products| ==> products[k].price >= 0) then
      LineAmountsNonNegative(c, products);
      SumValuesNonNegative(LineAmounts(c, products));
      SumValues(LineAmounts(c, products))
    else
      SumValues(LineAmounts(c, products))
  }

  lemma LineAmountsNonNegative(c: Cart, products: seq<Product>)
    requires NoNegativeCounts(c) && forall k :: 0 <= k < |products| ==> products[k].price >= 0
    ensures forall item :: item in LineAmounts(c, products) ==> LineAmounts(c, products)[item] >= 0
  {
    forall item | item in c
      ensures LineAmounts(c, products)[item] >= 0
    {
      var price, units := PriceOf(products, item), SumValues(c[item]);
      SumValuesNonNegative(c[item]);
      assert price >= 0;
      MulNonNegative(price, units);
    }
  }

  lemma AmountRemoveItem(c: Cart, products: seq<Product>, item: ProductId)
    requires item in c
    ensures Amount(c, products) == PriceOf(products, item) * SumValues(c[item]) + Amount(c - {item}, products)
  {
    SumValuesRemove(LineAmounts(c, products), item);
    assert LineAmounts(c, products) - {item} == LineAmounts(c - {item}, products);
  }

  lemma LineAmountsSetItem(c: Cart, products: seq<Product>, item: ProductId, sizes: map<Size, int>)
    ensures LineAmounts(c[item := sizes], products) == LineAmounts(c, products)[item := PriceOf(products, item) * SumValues(sizes)]
  {
  }

  /** Adding one unit raises the subtotal by that product's price (0 when it is unknown). */
  lemma AmountIncrement(c: Cart, products: seq<Product>, item: ProductId, size: Size)
    ensures Amount(Increment(c, item, size), products) == Amount(c, products) + PriceOf(products, item)
  {
    var price := PriceOf(products, item);
    var before := SumValues(Sizes(c, item));
    var sizes := Sizes(c, item)[size := Quantity(c, item, size) + 1];
    SumValuesUpdate(Sizes(c, item), size, Quantity(c, item, size) + 1);
    assert SumValues(sizes) == before + 1;
    var lines := LineAmounts(c, products);
    var oldLine := if item in lines then lines[item] else 0;
    if item !in c {
      assert Sizes(c, item) == map[];
      assert before == 0;
    }
    assert oldLine == price * before;
    LineAmountsSetItem(c, products, item, sizes);
    SumValuesUpdate(lines, item, price * SumValues(sizes));
    MulSucc(price, before);
  }

  lemma MulNonNegative(p: int, n: int)
    requires p >= 0 && n >= 0
    ensures p * n >= 0
  {
  }

  lemma MulSucc(p: int, n: int)
    ensures p * (n + 1) == p * n + p
  {
  }
}
