/** The fixed product catalog and the read-only queries over it: lookup by id, the product
    grid's category/search filter and its sort, and the product detail page's lookup. */
module Catalog {
  import opened Wrappers
  import opened Builtins

  datatype Product = Product(id: int, name: string, price: int, category: string, img: string)

  /** The storefront's catalog, in the order the grid is built from. */
  const PRODUCTS: seq<Product> := [
    Product(1, "T-Shirt", 499, "fashion", "assets/images/fashion1.jpg"),
    Product(2, "Jeans", 1299, "fashion", "assets/images/fashion2.jpg"),
    Product(3, "Jacket", 2499, "fashion", "assets/images/fashion3.jpg"),
    Product(4, "Smartphone", 15999, "electronics", "assets/images/electronics1.jpg"),
    Product(5, "Laptop", 45999, "electronics", "assets/images/electronics2.jpg"),
    Product(6, "Bluetooth Speaker", 1799, "electronics", "assets/images/product8.jpg"),
    Product(7, "Cookware Set", 1999, "home", "assets/images/home1.jpg"),
    Product(8, "Vacuum Cleaner", 4499, "home", "assets/images/home2.jpg"),
    Product(9, "Table Lamp", 799, "home", "assets/images/home3.jpg")
  ]

  /** Ids, prices and names are pairwise distinct across the catalog. */
  lemma CatalogDistinct()
    ensures forall i, j :: 0 <= i < j < |PRODUCTS| ==> PRODUCTS[i].id != PRODUCTS[j].id
    ensures forall i, j :: 0 <= i < j < |PRODUCTS| ==> PRODUCTS[i].price != PRODUCTS[j].price
    ensures forall i, j :: 0 <= i < j < |PRODUCTS| ==> PRODUCTS[i].name != PRODUCTS[j].name
  {
  }

  // ---------------------------------------------------------------- lookup

  /** `catalog.find(x => x.id === id)`: the first product of `cat` with this id. The script
      looks up `PRODUCTS`; the cart functions take the catalog as a parameter. */
  function FindProduct(cat: seq<Product>, id: int): (r: Option<Product>)
    ensures r.Some? ==> r.value in cat && r.value.id == id
    ensures r.None? <==> forall p :: p in cat ==> p.id != id
  {
    match FindIndex(cat, (x: Product) => x.id == id)
    case None => None
    case Some(i) => Some(cat[i])
  }

  /** Looking up the id of a catalog product finds that product. */
  lemma FindProductOf(p: Product)
    requires p in PRODUCTS
    ensures FindProduct(PRODUCTS, p.id) == Some(p)
  {
    var q := FindProduct(PRODUCTS, p.id).value;
    DistinctKeysById(p, q);
  }

  /** Some product of `cat` has this id, so `find` succeeds on it. */
  predicate InCatalog(cat: seq<Product>, id: int) {
    FindProduct(cat, id).Some?
  }

  /** `cat.find(p => p.id === id).price`: the unit price the totals read for this id. */
  function Price(cat: seq<Product>, id: int): int
    requires InCatalog(cat, id)
  {
    FindProduct(cat, id).value.price
  }

  /** The price the totals read for a listed id is the price of a product of `cat` with that id. */
  lemma PriceIsListed(cat: seq<Product>, id: int)
    requires InCatalog(cat, id)
    ensures exists p :: p in cat && p.id == id && p.price == Price(cat, id)
  {
    var p := FindProduct(cat, id).value;
    assert p in cat && p.id == id;
  }

  /** A catalog product's id is in the catalog, and `Price` gives that product's price. */
  lemma PriceOf(p: Product)
    requires p in PRODUCTS
    ensures InCatalog(PRODUCTS, p.id) && Price(PRODUCTS, p.id) == p.price
  {
    FindProductOf(p);
  }

  // ---------------------------------------------------------------- the product grid

  /** A product is shown by the grid when it is in the chosen category (any, for 'all') and,
      when there is a search term, the term occurs in its lower-cased name or category.
      `searchQuery` is the already lower-cased `search` query parameter, "" when absent. */
  predicate Matches(p: Product, filter: string, searchQuery: string): (b: bool)
    ensures b ==> filter == "all" || p.category == filter
    ensures b && searchQuery != "" ==> Includes(Lower(p.name), searchQuery) || Includes(Lower(p.category), searchQuery)
    ensures filter == "all" && searchQuery == "" ==> b
  {
    (filter == "all" || p.category == filter) &&
    (searchQuery == "" || Includes(Lower(p.name), searchQuery) || Includes(Lower(p.category), searchQuery))
  }

  /** The grid's `PRODUCTS.filter(...)` on the catalog `cat`, before sorting. */
  function Filtered(cat: seq<Product>, filter: string, searchQuery: string): (r: seq<Product>)
    ensures forall p :: p in r <==> p in cat && Matches(p, filter, searchQuery)
  {
    Filter(cat, (p: Product) => Matches(p, filter, searchQuery))
  }

  /** Every product the grid keeps is in the chosen category unless the filter is 'all', and
      contains a non-empty search term in its lower-cased name or category. */
  lemma FilteredMeets(cat: seq<Product>, filter: string, searchQuery: string, p: Product)
    requires p in Filtered(cat, filter, searchQuery)
    ensures p in cat
    ensures filter == "all" || p.category == filter
    ensures searchQuery != "" ==> Includes(Lower(p.name), searchQuery) || Includes(Lower(p.category), searchQuery)
  {
  }

  ghost predicate Connex<T(!new)>(le: (T, T) -> bool) {
    forall x, y :: le(x, y) || le(y, x)
  }

  ghost predicate Transitive<T(!new)>(le: (T, T) -> bool) {
    forall x, y, z :: le(x, y) && le(y, z) ==> le(x, z)
  }

  /** Every element may stand before every later one. */
  ghost predicate Ordered<T>(s: seq<T>, le: (T, T) -> bool) {
    forall i, j :: 0 <= i < j < |s| ==> le(s[i], s[j])
  }

  /** Every element may stand before the next one. */
  ghost predicate AdjacentOrdered<T>(s: seq<T>, le: (T, T) -> bool) {
    forall k :: 0 < k < |s| ==> le(s[k - 1], s[k])
  }

  lemma {:induction false} AdjacentToOrdered<T(!new)>(s: seq<T>, le: (T, T) -> bool)
    requires Transitive(le) && AdjacentOrdered(s, le)
    ensures Ordered(s, le)
  {
    if |s| > 1 {
      var t := s[..|s| - 1];
      assert AdjacentOrdered(t, le);
      AdjacentToOrdered(t, le);
      forall i | 0 <= i < |s| - 1 ensures le(s[i], s[|s| - 1]) {
        if i < |s| - 2 {
          assert le(t[i], t[|t| - 1]);
        }
      }
    }
  }

  /** "x may come before y" for the grid's sort modes, as the sign of the comparator passed to
      `items.sort`: `a.price - b.price`, `b.price - a.price`, `a.name.localeCompare(b.name)`.
      `collate(a, b)` stands for `a.localeCompare(b) <= 0`. */
  function SortOrder(sort: string, collate: (string, string) -> bool): (le: (Product, Product) -> bool)
    ensures sort == "low-high" ==> forall x, y :: le(x, y) <==> x.price - y.price <= 0
    ensures sort == "high-low" ==> forall x, y :: le(x, y) <==> y.price - x.price <= 0
    ensures sort != "low-high" && sort != "high-low" ==> forall x, y :: le(x, y) <==> collate(x.name, y.name)
  {
    if sort == "low-high" then (x: Product, y: Product) => x.price <= y.price
    else if sort == "high-low" then (x: Product, y: Product) => y.price <= x.price
    else (x: Product, y: Product) => collate(x.name, y.name)
  }

  /** Each sort mode orders products totally: prices are integers, names follow `collate`. */
  lemma SortOrderTotal(sort: string, collate: (string, string) -> bool)
    requires sort == "low-high" || sort == "high-low" || (sort == "name" && Connex(collate) && Transitive(collate))
    ensures Connex(SortOrder(sort, collate)) && Transitive(SortOrder(sort, collate))
  {
    var le := SortOrder(sort, collate);
    if sort == "low-high" {
      assert forall x: Product, y: Product :: le(x, y) == (x.price <= y.price);
    } else if sort == "high-low" {
      assert forall x: Product, y: Product :: le(x, y) == (y.price <= x.price);
    } else {
      assert forall x: Product, y: Product :: le(x, y) == collate(x.name, y.name);
      forall x: Product, y: Product, z: Product | le(x, y) && le(y, z) ensures le(x, z) {
        assert collate(x.name, y.name) && collate(y.name, z.name);
      }
    }
  }

  /** `Array.prototype.sort` on an array, in place: afterwards it is ordered and a permutation of what it was. */
  method InsertionSort<T(!new)>(a: array<T>, le: (T, T) -> bool)
    requires Connex(le)
    modifies a
    ensures AdjacentOrdered(a[..], le)
    ensures multiset(a[..]) == multiset(old(a[..]))
  {
    var i := 0;
    while i < a.Length
      invariant 0 <= i <= a.Length
      invariant forall k :: 0 < k < i ==> le(a[k - 1], a[k])
      invariant multiset(a[..]) == multiset(old(a[..]))
    {
      Insert(a, i, le);
      i := i + 1;
    }
  }

  /** One pass of the insertion sort: moves `a[i]` down into the ordered prefix `a[..i]`. */
  method Insert<T(!new)>(a: array<T>, i: nat, le: (T, T) -> bool)
    requires Connex(le)
    requires i < a.Length
    requires forall k :: 0 < k < i ==> le(a[k - 1], a[k])
    modifies a
    ensures forall k :: 0 < k <= i ==> le(a[k - 1], a[k])
    ensures multiset(a[..]) == multiset(old(a[..]))
  {
    var j := i;
    while j > 0 && !le(a[j - 1], a[j])
      invariant 0 <= j <= i
      invariant forall k :: 0 < k <= i && k != j ==> le(a[k - 1], a[k])
      invariant 0 < j < i ==> le(a[j - 1], a[j + 1])
      invariant multiset(a[..]) == multiset(old(a[..]))
    {
      Swap(a, j - 1, j);
      j := j - 1;
    }
  }

  method Swap<T>(a: array<T>, i: nat, j: nat)
    requires i < j < a.Length
    modifies a
    ensures a[i] == old(a[j]) && a[j] == old(a[i])
    ensures forall k :: 0 <= k < a.Length && k != i && k != j ==> a[k] == old(a[k])
    ensures multiset(a[..]) == multiset(old(a[..]))
  {
    a[i], a[j] := a[j], a[i];
  }

  /** The grid's sort step: `items.sort(...)` for the three known modes, nothing otherwise. */
  method SortItems(found: seq<Product>, sort: string, collate: (string, string) -> bool)
    returns (items: seq<Product>)
    requires sort == "name" ==> Connex(collate) && Transitive(collate)
    ensures multiset(items) == multiset(found)
    ensures sort == "low-high" || sort == "high-low" || sort == "name" ==> Ordered(items, SortOrder(sort, collate))
    ensures sort != "low-high" && sort != "high-low" && sort != "name" ==> items == found
  {
    var a := new Product[|found|](k requires 0 <= k < |found| => found[k]);
    assert a[..] == found;
    if sort == "low-high" || sort == "high-low" || sort == "name" {
      var le := SortOrder(sort, collate);
      SortOrderTotal(sort, collate);
      InsertionSort(a, le);
      AdjacentToOrdered(a[..], le);
    }
    items := a[..];
  }

  /** The list the product grid shows (`renderProductGrid` up to the empty-result message):
      the products of the catalog `cat` (`PRODUCTS` in the script) that match the category
      filter and the search term, sorted by ascending price ('low-high'), descending price
      ('high-low') or name ('name'), and in catalog order for any other sort value. As in
      `renderProductGrid`, the filter defaults to 'all' and the sort to 'name'. */
  method CatalogQuery(cat: seq<Product>, searchQuery: string, collate: (string, string) -> bool,
                      filter: string := "all", sort: string := "name")
    returns (items: seq<Product>)
    requires sort == "name" ==> Connex(collate) && Transitive(collate)
    ensures forall p :: p in items <==> p in Filtered(cat, filter, searchQuery)
    ensures multiset(items) == multiset(Filtered(cat, filter, searchQuery))
    ensures sort == "low-high" ==> forall i, j :: 0 <= i < j < |items| ==> items[i].price <= items[j].price
    ensures sort == "high-low" ==> forall i, j :: 0 <= i < j < |items| ==> items[i].price >= items[j].price
    ensures sort == "name" ==> forall i, j :: 0 <= i < j < |items| ==> collate(items[i].name, items[j].name)
    ensures sort != "low-high" && sort != "high-low" && sort != "name" ==> items == Filtered(cat, filter, searchQuery)
  {
    var found := Filtered(cat, filter, searchQuery);
    items := SortItems(found, sort, collate);
    forall p | p in items ensures p in found {
      assert p in multiset(items);
    }
    forall p | p in found ensures p in items {
      assert p in multiset(found);
    }
    if sort == "low-high" || sort == "high-low" || sort == "name" {
      var le := SortOrder(sort, collate);
      assert forall i, j :: 0 <= i < j < |items| ==> le(items[i], items[j]);
    }
  }

  /** Two sequences that are permutations of each other and both ordered by an order that is
      antisymmetric on their elements are equal: every correct sort of the grid yields the same list. */
  lemma {:induction false} SortedPermutationsEqual<T(!new)>(a: seq<T>, b: seq<T>, le: (T, T) -> bool)
    requires multiset(a) == multiset(b)
    requires Ordered(a, le) && Ordered(b, le)
    requires forall x, y :: x in a && y in a && le(x, y) && le(y, x) ==> x == y
    ensures a == b
  {
    if a != [] {
      SameHead(a, b, le);
      TailMultiset(a, b);
      OrderedTail(a, le);
      OrderedTail(b, le);
      forall x, y | x in a[1..] && y in a[1..] && le(x, y) && le(y, x) ensures x == y {
        assert x in a && y in a;
      }
      SortedPermutationsEqual(a[1..], b[1..], le);
      assert a == [a[0]] + a[1..] && b == [b[0]] + b[1..];
    }
  }

  lemma TailMultiset<T>(a: seq<T>, b: seq<T>)
    requires a != [] && b != [] && a[0] == b[0] && multiset(a) == multiset(b)
    ensures multiset(a[1..]) == multiset(b[1..])
  {
    assert a == [a[0]] + a[1..] && b == [b[0]] + b[1..];
    var ma, mb := multiset(a[1..]), multiset(b[1..]);
    assert multiset(a) == multiset{a[0]} + ma;
    assert multiset(b) == multiset{a[0]} + mb;
    forall x ensures ma[x] == mb[x] {
      assert multiset(a)[x] == multiset{a[0]}[x] + ma[x];
      assert multiset(b)[x] == multiset{a[0]}[x] + mb[x];
    }
  }

  lemma OrderedTail<T>(a: seq<T>, le: (T, T) -> bool)
    requires a != [] && Ordered(a, le)
    ensures Ordered(a[1..], le)
  {
    forall i, j | 0 <= i < j < |a| - 1 ensures le(a[1..][i], a[1..][j]) {
      assert a[1..][i] == a[i + 1] && a[1..][j] == a[j + 1];
    }
  }

  /** Under the same hypotheses, the smallest elements coincide. */
  lemma SameHead<T(!new)>(a: seq<T>, b: seq<T>, le: (T, T) -> bool)
    requires a != [] && multiset(a) == multiset(b)
    requires Ordered(a, le) && Ordered(b, le)
    requires forall x, y :: x in a && y in a && le(x, y) && le(y, x) ==> x == y
    ensures b != [] && a[0] == b[0]
  {
    assert a[0] in multiset(b);
    assert b != [] && b[0] in multiset(a);
    var i :| 0 <= i < |b| && b[i] == a[0];
    var j :| 0 <= j < |a| && a[j] == b[0];
    if i > 0 && j > 0 {
      assert le(b[0], b[i]) && le(a[0], a[j]);
    }
  }

  /** The grid's sort leaves nothing to chance: prices and names are distinct in the catalog,
      so any two ordered permutations of a list of catalog products (such as a filter result)
      coincide, whichever sorting algorithm the browser uses. For the name sort this needs only
      that `collate` ranks no two different catalog names as equal; strings outside the catalog
      (canonically equivalent spellings, say) may still compare equal. */
  lemma GridOrderDetermined(sort: string, collate: (string, string) -> bool, a: seq<Product>, b: seq<Product>)
    requires sort == "low-high" || sort == "high-low" ||
             (sort == "name" &&
              forall x, y :: (x in PRODUCTS && y in PRODUCTS && collate(x.name, y.name) && collate(y.name, x.name)) ==>
                x.name == y.name)
    requires forall p :: p in a ==> p in PRODUCTS
    requires multiset(b) == multiset(a)
    requires Ordered(a, SortOrder(sort, collate)) && Ordered(b, SortOrder(sort, collate))
    ensures a == b
  {
    var le := SortOrder(sort, collate);
    forall x, y | x in a && y in a && le(x, y) && le(y, x) ensures x == y {
      if sort == "name" {
        assert collate(x.name, y.name) && collate(y.name, x.name);
      }
      DistinctKeys(x, y);
    }
    SortedPermutationsEqual(a, b, le);
  }

  /** Two catalog products with the same id are the same product. */
  lemma DistinctKeysById(x: Product, y: Product)
    requires x in PRODUCTS && y in PRODUCTS && x.id == y.id
    ensures x == y
  {
    CatalogDistinct();
    var i :| 0 <= i < |PRODUCTS| && PRODUCTS[i] == x;
    var j :| 0 <= j < |PRODUCTS| && PRODUCTS[j] == y;
  }

  /** Two catalog products with the same price, or the same name, are the same product. */
  lemma DistinctKeys(x: Product, y: Product)
    requires x in PRODUCTS && y in PRODUCTS
    ensures x.price == y.price ==> x == y
    ensures x.name == y.name ==> x == y
  {
    CatalogDistinct();
    var i :| 0 <= i < |PRODUCTS| && PRODUCTS[i] == x;
    var j :| 0 <= j < |PRODUCTS| && PRODUCTS[j] == y;
    if i < j {
      assert PRODUCTS[i].price != PRODUCTS[j].price && PRODUCTS[i].name != PRODUCTS[j].name;
    } else if j < i {
      assert PRODUCTS[j].price != PRODUCTS[i].price && PRODUCTS[j].name != PRODUCTS[i].name;
    }
  }

  // ---------------------------------------------------------------- the product detail page

  /** `renderProductDetail`'s lookup: `parseInt` of the `id` query parameter (a missing
      parameter is `null`, which `parseInt` reads as the text "null"), then the catalog. */
  function DetailProduct(idParam: Option<string>): (r: Option<Product>)
    ensures r.Some? ==> r.value in PRODUCTS && ParseInt(idParam.GetOr("null")) == Some(r.value.id)
    ensures r.None? <==> (ParseInt(idParam.GetOr("null")).None? ||
                          forall p :: p in PRODUCTS ==> Some(p.id) != ParseInt(idParam.GetOr("null")))
  {
    match ParseInt(idParam.GetOr("null"))
    case None => None
    case Some(id) => FindProduct(PRODUCTS, id)
  }

  /** The grid's "View" link `product.html?id=${p.id}` opens the detail page of that product. */
  lemma DetailLinkFindsProduct(p: Product)
    requires p in PRODUCTS
    ensures DetailProduct(Some(Decimal(p.id))) == Some(p)
  {
    ParseIntDecimal(p.id);
    FindProductOf(p);
  }

  /** The quantity the detail page adds: `parseInt(qtyInput.value) || 1`, so NaN and 0 give 1. */
  function DetailQty(raw: string): (q: int)
    ensures q != 0
    ensures ParseInt(raw).Some? && ParseInt(raw).value != 0 ==> q == ParseInt(raw).value
    ensures ParseInt(raw).None? || ParseInt(raw).value == 0 ==> q == 1
  {
    match ParseInt(raw)
    case Some(n) => if n != 0 then n else 1
    case None => 1
  }
}
