/** The cart engine's values: the persisted list of `{ id, qty }` lines, the lookups and the
    filter the cart operations are built from, the visible item count and the three places
    that compute the cart total (cart page, checkout summary, invoice). */
module Cart {
  import opened Wrappers
  import opened Builtins
  import opened Catalog

  /** One cart line `{ id, qty }`: a product id and a quantity. */
  datatype Line = Line(id: int, qty: int)

  /** `cart.find(i => i.id === id)`, as the index of the line it finds. */
  function FindLine(cart: seq<Line>, id: int): (r: Option<nat>)
    ensures r.Some? ==> r.value < |cart| && cart[r.value].id == id
    ensures r.Some? ==> forall k :: 0 <= k < r.value ==> cart[k].id != id
    ensures r.None? <==> forall k :: 0 <= k < |cart| ==> cart[k].id != id
  {
    FindIndex(cart, (l: Line) => l.id == id)
  }

  /** No two lines are for the same product. */
  ghost predicate UniqueIds(cart: seq<Line>) {
    forall i, j :: 0 <= i < j < |cart| ==> cart[i].id != cart[j].id
  }

  /** Every line is for a product of `cat`, as the unguarded lookups of the views assume.
      The cart functions below take the catalog as the parameter `cat`; the store passes
      `PRODUCTS`, the only catalog the script has. */
  ghost predicate AllInCatalog(cat: seq<Product>, cart: seq<Line>) {
    forall k :: 0 <= k < |cart| ==> InCatalog(cat, cart[k].id)
  }

  /** With distinct ids, the line `find` returns is the only line for that id. */
  lemma FindLineUnique(cart: seq<Line>, id: int, k: nat)
    requires UniqueIds(cart) && k < |cart| && cart[k].id == id
    ensures FindLine(cart, id) == Some(k)
  {
  }

  // ---------------------------------------------------------------- updates of single lines

  /** Raising the quantity of the line for `id` keeps ids distinct and every line in the catalog. */
  lemma UpdateKeepsInvariant(cat: seq<Product>, cart: seq<Line>, i: nat, q: int)
    requires i < |cart|
    ensures UniqueIds(cart) ==> UniqueIds(cart[i := Line(cart[i].id, q)])
    ensures AllInCatalog(cat, cart) ==> AllInCatalog(cat, cart[i := Line(cart[i].id, q)])
  {
  }

  /** Appending a line for an id the cart does not hold keeps ids distinct; appending a
      catalog product keeps every line in the catalog. */
  lemma AppendKeepsInvariant(cat: seq<Product>, cart: seq<Line>, l: Line)
    ensures UniqueIds(cart) && FindLine(cart, l.id).None? ==> UniqueIds(cart + [l])
    ensures AllInCatalog(cat, cart) && InCatalog(cat, l.id) ==> AllInCatalog(cat, cart + [l])
  {
    if UniqueIds(cart) && FindLine(cart, l.id).None? {
      var c := cart + [l];
      forall i, j | 0 <= i < j < |c| ensures c[i].id != c[j].id {
        if j == |cart| {
          assert c[i] == cart[i];
        }
      }
    }
  }

  /** What `addToCart` does to the cart once the product is known: `found.qty += qty` on the
      line `find` returns, or `cart.push({ id, qty })` when there is none. */
  function AddLine(cart: seq<Line>, id: int, qty: int): (r: seq<Line>)
    ensures |r| == if FindLine(cart, id).Some? then |cart| else |cart| + 1
    ensures FindLine(cart, id).None? ==> r == cart + [Line(id, qty)]
  {
    match FindLine(cart, id)
    case Some(i) => cart[i := Line(cart[i].id, cart[i].qty + qty)]
    case None => cart + [Line(id, qty)]
  }

  /** When the cart has a line for `id`, only that line changes, gaining `qty`; either way the
      cart then has a line for `id`. */
  lemma AddLineShape(cart: seq<Line>, id: int, qty: int)
    ensures FindLine(cart, id).Some? ==> forall j :: 0 <= j < |cart| ==>
              AddLine(cart, id, qty)[j] == if j == FindLine(cart, id).value then Line(id, cart[j].qty + qty) else cart[j]
    ensures FindLine(AddLine(cart, id, qty), id).Some?
  {
    var r := AddLine(cart, id, qty);
    if FindLine(cart, id).None? {
      assert r[|cart|].id == id;
    }
  }

  /** Adding keeps ids distinct, and adding a catalog product keeps every line in the catalog. */
  lemma AddLineKeepsInvariant(cat: seq<Product>, cart: seq<Line>, id: int, qty: int)
    ensures UniqueIds(cart) ==> UniqueIds(AddLine(cart, id, qty))
    ensures AllInCatalog(cat, cart) && InCatalog(cat, id) ==> AllInCatalog(cat, AddLine(cart, id, qty))
  {
    match FindLine(cart, id)
    case Some(i) => UpdateKeepsInvariant(cat, cart, i, cart[i].qty + qty);
    case None => AppendKeepsInvariant(cat, cart, Line(id, qty));
  }

  /** Adding `qty` of a product raises the item count by exactly `qty`. */
  lemma AddLineCount(cart: seq<Line>, id: int, qty: int)
    ensures QtySum(AddLine(cart, id, qty)) == QtySum(cart) + qty
  {
    match FindLine(cart, id)
    case Some(i) => QtySumUpdate(cart, i, Line(id, cart[i].qty + qty));
    case None => QtySumAppend(cart, Line(id, qty));
  }

  /** Adding `qty` of a catalog product raises the total by its price times `qty`. */
  lemma AddLineTotal(cat: seq<Product>, cart: seq<Line>, id: int, qty: int)
    requires AllInCatalog(cat, cart) && InCatalog(cat, id)
    ensures AllInCatalog(cat, AddLine(cart, id, qty))
    ensures Total(cat, AddLine(cart, id, qty)) == Total(cat, cart) + Price(cat, id) * qty
  {
    var r := AddLine(cart, id, qty);
    match FindLine(cart, id)
    case Some(i) =>
      var l := cart[i];
      assert r == cart[i := Line(id, l.qty + qty)];
      TotalUpdate(cat, cart, i, Line(id, l.qty + qty));
      LineTotalAdd(cat, l, qty);
    case None =>
      assert r == cart + [Line(id, qty)];
      TotalAppend(cat, cart, Line(id, qty));
  }

  /** `Math.max(1, parseInt(qty) || 1)`: the quantity `changeQty` stores for a parsed input.
      NaN and 0 are falsy and give 1; a negative number is raised to 1. */
  function ClampQty(parsed: Option<int>): (q: int)
    ensures q >= 1
    ensures parsed.Some? && parsed.value >= 1 ==> q == parsed.value
    ensures parsed.None? || parsed.value < 1 ==> q == 1
  {
    var v := if parsed.Some? && parsed.value != 0 then parsed.value else 1;
    if v > 1 then v else 1
  }

  /** A quantity edited to the text of a number `n` is stored as `n` when positive, else 1. */
  lemma ClampDecimal(n: int)
    ensures ClampQty(ParseInt(Decimal(n))) == if n >= 1 then n else 1
  {
    ParseIntDecimal(n);
  }

  /** What `changeQty` does to the cart, given what `parseInt` made of the edited text:
      nothing when no line has `id`, else that line's quantity becomes the clamped value. */
  function SetQty(cart: seq<Line>, id: int, parsed: Option<int>): (r: seq<Line>)
    ensures |r| == |cart|
    ensures FindLine(cart, id).None? ==> r == cart
  {
    match FindLine(cart, id)
    case Some(i) => cart[i := Line(cart[i].id, ClampQty(parsed))]
    case None => cart
  }

  /** Editing keeps every line's id and the order; only the line for `id` changes, to a quantity
      of at least 1, and every other line is unchanged. */
  lemma SetQtyShape(cart: seq<Line>, id: int, parsed: Option<int>)
    ensures forall j :: 0 <= j < |cart| ==> SetQty(cart, id, parsed)[j].id == cart[j].id
    ensures FindLine(cart, id).Some? ==> forall j :: 0 <= j < |cart| ==>
              SetQty(cart, id, parsed)[j] == if j == FindLine(cart, id).value then Line(id, ClampQty(parsed)) else cart[j]
    ensures FindLine(cart, id).Some? ==> SetQty(cart, id, parsed)[FindLine(cart, id).value].qty >= 1
  {
  }

  /** Editing a quantity keeps ids distinct and every line in the catalog. */
  lemma SetQtyKeepsInvariant(cat: seq<Product>, cart: seq<Line>, id: int, parsed: Option<int>)
    ensures UniqueIds(cart) ==> UniqueIds(SetQty(cart, id, parsed))
    ensures AllInCatalog(cat, cart) ==> AllInCatalog(cat, SetQty(cart, id, parsed))
  {
    match FindLine(cart, id)
    case Some(i) => UpdateKeepsInvariant(cat, cart, i, ClampQty(parsed));
    case None =>
  }

  /** Editing the line for `id` to the text of `n` changes the item count by the clamped `n`
      minus the old quantity. */
  lemma SetQtyCount(cart: seq<Line>, k: nat, n: int)
    requires UniqueIds(cart) && k < |cart|
    ensures QtySum(SetQty(cart, cart[k].id, ParseInt(Decimal(n)))) ==
            QtySum(cart) - cart[k].qty + (if n >= 1 then n else 1)
  {
    var id := cart[k].id;
    FindLineUnique(cart, id, k);
    ClampDecimal(n);
    QtySumUpdate(cart, k, Line(id, ClampQty(ParseInt(Decimal(n)))));
  }

  // ---------------------------------------------------------------- removal

  /** The filter predicate of `removeFromCart`: `i => i.id !== id`. */
  function OtherThan(id: int): Line -> bool {
    (l: Line) => l.id != id
  }

  /** The lines for `id`. */
  function LinesFor(cart: seq<Line>, id: int): seq<Line> {
    Filter(cart, (l: Line) => l.id == id)
  }

  /** `cart.filter(i => i.id !== id)`. */
  function Removed(cart: seq<Line>, id: int): (r: seq<Line>)
    ensures forall l :: l in r <==> l in cart && l.id != id
  {
    Filter(cart, OtherThan(id))
  }

  /** Removing an id the cart does not hold changes nothing. */
  lemma RemoveAbsent(cart: seq<Line>, id: int)
    requires FindLine(cart, id).None?
    ensures Removed(cart, id) == cart
  {
    FilterAllPass(cart, OtherThan(id));
  }

  /** Removing twice is removing once. */
  lemma RemoveIdempotent(cart: seq<Line>, id: int)
    ensures Removed(Removed(cart, id), id) == Removed(cart, id)
  {
    FilterIdempotent(cart, OtherThan(id));
  }

  /** Removal works piecewise, so the remaining lines keep their relative order. */
  lemma RemoveAppend(a: seq<Line>, b: seq<Line>, id: int)
    ensures Removed(a + b, id) == Removed(a, id) + Removed(b, id)
  {
    FilterAppend(a, b, OtherThan(id));
  }

  /** Removing a line present once, at index `k`, drops exactly that line. */
  lemma RemoveUnique(cart: seq<Line>, k: nat)
    requires UniqueIds(cart) && k < |cart|
    ensures Removed(cart, cart[k].id) == cart[..k] + cart[k + 1..]
  {
    AbsentAround(cart, k);
    assert cart == cart[..k] + [cart[k]] + cart[k + 1..];
    RemoveBetween(cart[..k], cart[k], cart[k + 1..]);
  }

  /** Removing the id of a line that occurs nowhere else drops just that line. */
  lemma RemoveBetween(before: seq<Line>, l: Line, after: seq<Line>)
    requires FindLine(before, l.id).None? && FindLine(after, l.id).None?
    ensures Removed(before + [l] + after, l.id) == before + after
  {
    var id := l.id;
    calc {
      Removed(before + [l] + after, id);
    == { RemoveAppend(before + [l], after, id); }
      Removed(before + [l], id) + Removed(after, id);
    == { RemoveAppend(before, [l], id); }
      Removed(before, id) + Removed([l], id) + Removed(after, id);
    == { RemoveAbsent(before, id); RemoveAbsent(after, id); RemoveMatching(l); }
      before + [] + after;
    }
    assert before + [] + after == before + after;
  }

  /** Removing a single line by its own id leaves nothing. */
  lemma RemoveMatching(l: Line)
    ensures Removed([l], l.id) == []
  {
    assert [l][1..] == [];
  }

  /** With distinct ids, no line before or after the one at `k` has its id. */
  lemma AbsentAround(cart: seq<Line>, k: nat)
    requires UniqueIds(cart) && k < |cart|
    ensures FindLine(cart[..k], cart[k].id).None? && FindLine(cart[k + 1..], cart[k].id).None?
  {
    var id := cart[k].id;
    var before, after := cart[..k], cart[k + 1..];
    forall j | 0 <= j < |before| ensures before[j].id != id {
      assert before[j] == cart[j];
    }
    forall j | 0 <= j < |after| ensures after[j].id != id {
      assert after[j] == cart[k + 1 + j];
    }
  }

  /** Removal keeps ids distinct and every line in the catalog. */
  lemma RemoveKeepsInvariant(cat: seq<Product>, cart: seq<Line>, id: int)
    ensures UniqueIds(cart) ==> UniqueIds(Removed(cart, id))
    ensures AllInCatalog(cat, cart) ==> AllInCatalog(cat, Removed(cart, id))
  {
    var r := Removed(cart, id);
    if AllInCatalog(cat, cart) {
      forall k | 0 <= k < |r| ensures InCatalog(cat, r[k].id) {
        assert r[k] in cart;
      }
    }
    if UniqueIds(cart) {
      RemoveKeepsUniqueIds(cart, id);
    }
  }

  /** The lines `filter` keeps from a cart with distinct ids have distinct ids. */
  lemma {:induction false} RemoveKeepsUniqueIds(cart: seq<Line>, id: int)
    requires UniqueIds(cart)
    ensures UniqueIds(Removed(cart, id))
  {
    if cart != [] {
      var t := Removed(cart[1..], id);
      assert UniqueIds(cart[1..]);
      RemoveKeepsUniqueIds(cart[1..], id);
      forall l | l in t ensures l.id != cart[0].id {
        assert l in cart[1..];
      }
      assert Removed(cart, id) == (if cart[0].id != id then [cart[0]] else []) + t;
    }
  }

  // ---------------------------------------------------------------- the item count

  /** The number of items in the cart: the sum of the line quantities. */
  function QtySum(cart: seq<Line>): int {
    if cart == [] then 0 else cart[0].qty + QtySum(cart[1..])
  }

  /** `cart.reduce((s, i) => s + i.qty, acc)`: the quantities added up from the left, which
      comes to the start value plus their sum. */
  function FoldQty(acc: int, cart: seq<Line>): (r: int)
    ensures r == acc + QtySum(cart)
    decreases cart
  {
    if cart == [] then acc else FoldQty(acc + cart[0].qty, cart[1..])
  }

  /** The badge `updateCartCount` writes: the sum of the quantities, 0 for the empty cart. */
  function CartCount(cart: seq<Line>): (n: int)
    ensures n == QtySum(cart)
    ensures cart == [] ==> n == 0
  {
    FoldQty(0, cart)
  }

  lemma {:induction false} QtySumAppend(cart: seq<Line>, l: Line)
    ensures QtySum(cart + [l]) == QtySum(cart) + l.qty
  {
    if cart != [] {
      assert (cart + [l])[1..] == cart[1..] + [l];
      QtySumAppend(cart[1..], l);
    }
  }

  lemma {:induction false} QtySumUpdate(cart: seq<Line>, i: nat, l: Line)
    requires i < |cart|
    ensures QtySum(cart[i := l]) == QtySum(cart) - cart[i].qty + l.qty
  {
    if i > 0 {
      assert cart[i := l][1..] == cart[1..][i - 1 := l];
      QtySumUpdate(cart[1..], i - 1, l);
    }
  }

  /** The items of a cart are those of the lines without `id` plus those of the lines for `id`. */
  lemma {:induction false} QtySumRemoved(cart: seq<Line>, id: int)
    ensures QtySum(cart) == QtySum(Removed(cart, id)) + QtySum(LinesFor(cart, id))
  {
    if cart != [] {
      assert Removed(cart, id) == (if cart[0].id != id then [cart[0]] else []) + Removed(cart[1..], id);
      assert LinesFor(cart, id) == (if cart[0].id == id then [cart[0]] else []) + LinesFor(cart[1..], id);
      QtySumRemoved(cart[1..], id);
      QtySumConcat(if cart[0].id != id then [cart[0]] else [], Removed(cart[1..], id));
      QtySumConcat(if cart[0].id == id then [cart[0]] else [], LinesFor(cart[1..], id));
    }
  }

  lemma {:induction false} QtySumConcat(a: seq<Line>, b: seq<Line>)
    ensures QtySum(a + b) == QtySum(a) + QtySum(b)
  {
    if a != [] {
      assert (a + b)[0] == a[0] && (a + b)[1..] == a[1..] + b;
      QtySumConcat(a[1..], b);
    } else {
      assert a + b == b;
    }
  }

  // ---------------------------------------------------------------- the cart total

  /** What one line costs: `PRODUCTS.find(p => p.id === i.id).price * i.qty`. */
  function LineTotal(cat: seq<Product>, l: Line): (r: int)
    requires InCatalog(cat, l.id)
    ensures l.qty == 1 ==> r == Price(cat, l.id)
    ensures l.qty == 0 ==> r == 0
  {
    Price(cat, l.id) * l.qty
  }

  /** The cart total: the sum of price times quantity over the lines. */
  function Total(cat: seq<Product>, cart: seq<Line>): (r: int)
    requires AllInCatalog(cat, cart)
    ensures cart == [] ==> r == 0
  {
    if cart == [] then 0 else LineTotal(cat, cart[0]) + Total(cat, cart[1..])
  }

  /** `cart.reduce((s, i) => s + PRODUCTS.find(p => p.id === i.id).price * i.qty, acc)`, which
      comes to the start value plus the total. */
  function FoldTotal(cat: seq<Product>, acc: int, cart: seq<Line>): (r: int)
    requires AllInCatalog(cat, cart)
    ensures r == acc + Total(cat, cart)
    decreases cart
  {
    if cart == [] then acc else FoldTotal(cat, acc + LineTotal(cat, cart[0]), cart[1..])
  }

  /** The total the cart page shows: '0' for the empty cart, else the `reduce` over the lines. */
  function CartPageTotal(cat: seq<Product>, cart: seq<Line>): (t: int)
    requires AllInCatalog(cat, cart)
    ensures t == Total(cat, cart)
  {
    if |cart| == 0 then 0
    else
      FoldTotal(cat, 0, cart)
  }

  /** The total the checkout summary shows; an empty cart shows a message and no total. */
  function SummaryTotal(cat: seq<Product>, cart: seq<Line>): (t: Option<int>)
    requires AllInCatalog(cat, cart)
    ensures t.None? <==> cart == []
    ensures t.Some? ==> t.value == Total(cat, cart)
  {
    if |cart| == 0 then None
    else
      Some(FoldTotal(cat, 0, cart))
  }

  /** The invoice's `grandTotal`, accumulated line by line in the `forEach` loop. A line whose
      product is missing makes `p.price` throw, which surfaces here as `None`. */
  method InvoiceTotal(cat: seq<Product>, cart: seq<Line>) returns (grandTotal: Option<int>)
    ensures grandTotal.Some? <==> AllInCatalog(cat, cart)
    ensures grandTotal.Some? ==> grandTotal.value == Total(cat, cart)
  {
    var sum := 0;
    var idx := 0;
    while idx < |cart|
      invariant 0 <= idx <= |cart|
      invariant AllInCatalog(cat, cart[..idx])
      invariant sum == Total(cat, cart[..idx])
    {
      var p := FindProduct(cat, cart[idx].id);
      if p.None? {
        assert !InCatalog(cat, cart[idx].id);
        return None;
      }
      var itemTotal := p.value.price * cart[idx].qty;
      assert itemTotal == LineTotal(cat, cart[idx]);
      assert cart[..idx + 1] == cart[..idx] + [cart[idx]];
      TotalAppend(cat, cart[..idx], cart[idx]);
      sum := sum + itemTotal;
      idx := idx + 1;
    }
    assert cart[..idx] == cart;
    return Some(sum);
  }

  lemma {:induction false} TotalAppend(cat: seq<Product>, cart: seq<Line>, l: Line)
    requires AllInCatalog(cat, cart) && InCatalog(cat, l.id)
    ensures AllInCatalog(cat, cart + [l])
    ensures Total(cat, cart + [l]) == Total(cat, cart) + Price(cat, l.id) * l.qty
  {
    AppendKeepsInvariant(cat, cart, l);
    if cart != [] {
      assert (cart + [l])[1..] == cart[1..] + [l];
      TotalAppend(cat, cart[1..], l);
    }
  }

  /** Replacing one line changes the total by the difference of the two lines' costs. */
  lemma {:induction false} TotalUpdate(cat: seq<Product>, cart: seq<Line>, i: nat, l: Line)
    requires AllInCatalog(cat, cart) && i < |cart| && InCatalog(cat, l.id)
    ensures AllInCatalog(cat, cart[i := l])
    ensures Total(cat, cart[i := l]) == Total(cat, cart) - LineTotal(cat, cart[i]) + LineTotal(cat, l)
  {
    var c := cart[i := l];
    forall k | 0 <= k < |c| ensures InCatalog(cat, c[k].id) {
      if k != i {
        assert c[k] == cart[k];
      }
    }
    if i > 0 {
      assert c[0] == cart[0];
      assert c[1..] == cart[1..][i - 1 := l];
      TotalUpdate(cat, cart[1..], i - 1, l);
    } else {
      assert c[1..] == cart[1..];
    }
  }

  /** Adding `d` to a line's quantity adds the price times `d` to its cost. */
  lemma LineTotalAdd(cat: seq<Product>, l: Line, d: int)
    requires InCatalog(cat, l.id)
    ensures LineTotal(cat, Line(l.id, l.qty + d)) == LineTotal(cat, l) + Price(cat, l.id) * d
  {
    var price := Price(cat, l.id);
    assert price * (l.qty + d) == price * l.qty + price * d;
  }

  /** The total of a two-line cart is the sum of the two lines' costs. */
  lemma TotalPair(cat: seq<Product>, a: Line, b: Line)
    requires InCatalog(cat, a.id) && InCatalog(cat, b.id)
    ensures AllInCatalog(cat, [a, b])
    ensures Total(cat, [a, b]) == LineTotal(cat, a) + LineTotal(cat, b)
  {
    var c := [a, b];
    assert c[1..] == [b] && c[1..][1..] == [];
    assert AllInCatalog(cat, [b]);
    assert Total(cat, [b]) == LineTotal(cat, b) + Total(cat, []);
  }

  /** Two T-shirts and a smartphone cost 499 * 2 + 15999 = 16997. */
  lemma TotalExample()
    ensures AllInCatalog(PRODUCTS, [Line(1, 2), Line(4, 1)])
    ensures Total(PRODUCTS, [Line(1, 2), Line(4, 1)]) == 16997
  {
    var tshirt, phone := PRODUCTS[0], PRODUCTS[3];
    assert tshirt.id == 1 && tshirt.price == 499;
    assert phone.id == 4 && phone.price == 15999;
    PriceOf(tshirt);
    PriceOf(phone);
    TotalPair(PRODUCTS, Line(1, 2), Line(4, 1));
  }
}
