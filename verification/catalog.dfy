/**
 The product catalog and the Products page's listing: the category selector's
 options, the category filter, and the stable sort by price. Prices are whole
 currency units, so the comparators `a.price - b.price` and `b.price - a.price`
 are exactly "ascending by price" and "ascending by minus price".
 */
module Catalog {
  import opened Sequences

  datatype Product = Product(
    id: int,
    name: string,
    price: int,
    description: string,
    image: string,
    category: string,
    color: string)

  /**
   The id of every product, in order. `CartStore.Ids` is the same column over
   cart lines; the element types differ, so each has its own. All the column
   functions peel from the end, matching `Distinct`, which they feed.
   */
  function IdColumn(ps: seq<Product>): (ids: seq<int>)
    ensures |ids| == |ps|
    ensures forall i :: 0 <= i < |ps| ==> ids[i] == ps[i].id
  {
    if |ps| == 0 then [] else IdColumn(ps[..|ps| - 1]) + [ps[|ps| - 1].id]
  }

  /** The catalog shape the storefront relies on: unique ids, non-negative prices. */
  predicate WellFormedCatalog(catalog: seq<Product>) {
    && (forall i, j :: 0 <= i < j < |catalog| ==> catalog[i].id != catalog[j].id)
    && (forall i :: 0 <= i < |catalog| ==> catalog[i].price >= 0)
  }

  /** The category selector value that disables filtering. */
  const AllCategories: string := "All"

  /** The sort selector values that trigger a sort; any other value keeps catalog order. */
  const PriceLow: string := "price-low"
  const PriceHigh: string := "price-high"

  /** The category of every product, in catalog order. */
  function CategoryColumn(catalog: seq<Product>): (cs: seq<string>)
    ensures |cs| == |catalog|
    ensures forall i :: 0 <= i < |catalog| ==> cs[i] == catalog[i].category
  {
    if |catalog| == 0 then [] else CategoryColumn(catalog[..|catalog| - 1]) + [catalog[|catalog| - 1].category]
  }

  /**
   The category selector's options: "All" followed by the catalog's distinct
   categories in order of first appearance.
   */
  function Categories(catalog: seq<Product>): (r: seq<string>)
    ensures |r| >= 1 && r[0] == AllCategories
    ensures NoDuplicates(r[1..])
  {
    var r := [AllCategories] + Distinct(CategoryColumn(catalog));
    assert r[1..] == Distinct(CategoryColumn(catalog));
    r
  }

  /** The options after "All" are exactly the categories some product carries. */
  lemma CategoriesAreTheCatalogCategories(catalog: seq<Product>)
    ensures forall i :: 1 <= i < |Categories(catalog)| ==>
              exists k :: 0 <= k < |catalog| && catalog[k].category == Categories(catalog)[i]
    ensures forall k :: 0 <= k < |catalog| ==> catalog[k].category in Categories(catalog)[1..]
  {
    var column := CategoryColumn(catalog);
    var d := Distinct(column);
    assert Categories(catalog)[1..] == d;
    forall i | 1 <= i < |Categories(catalog)|
      ensures exists k :: 0 <= k < |catalog| && catalog[k].category == Categories(catalog)[i]
    {
      var k := FirstIndex(column, d[i - 1]);
      assert catalog[k].category == Categories(catalog)[i];
    }
    forall k | 0 <= k < |catalog|
      ensures catalog[k].category in Categories(catalog)[1..]
    {
      assert column[k] in d;
    }
  }

  /** Each option after "All" first appears in the catalog before the options that follow it. */
  lemma CategoriesInFirstOccurrenceOrder(catalog: seq<Product>)
    ensures forall i, j :: 1 <= i < j < |Categories(catalog)| ==>
              FirstIndex(CategoryColumn(catalog), Categories(catalog)[i])
              < FirstIndex(CategoryColumn(catalog), Categories(catalog)[j])
  {
    var cs := CategoryColumn(catalog);
    var d := Distinct(cs);
    DistinctFirstOccurrenceOrder(cs);
    assert Categories(catalog) == [AllCategories] + d;
    forall i, j | 1 <= i < j < |Categories(catalog)|
      ensures FirstIndex(cs, Categories(catalog)[i]) < FirstIndex(cs, Categories(catalog)[j])
    {
      assert Categories(catalog)[i] == d[i - 1] && Categories(catalog)[j] == d[j - 1];
    }
  }

  /** The products of `catalog` whose category is exactly `category`, in catalog order. */
  function OfCategory(catalog: seq<Product>, category: string): (r: seq<Product>)
    ensures |r| <= |catalog|
    ensures forall i :: 0 <= i < |r| ==> r[i].category == category && r[i] in catalog
    ensures forall i :: 0 <= i < |catalog| && catalog[i].category == category ==> catalog[i] in r
  {
    if |catalog| == 0 then []
    else
      var rest := OfCategory(catalog[1..], category);
      if catalog[0].category == category then [catalog[0]] + rest else rest
  }

  /** The filter keeps every copy of a matching product and no copy of any other. */
  lemma {:induction false} OfCategoryCounts(catalog: seq<Product>, category: string, p: Product)
    ensures multiset(OfCategory(catalog, category))[p]
            == if p.category == category then multiset(catalog)[p] else 0
    decreases |catalog|
  {
    if |catalog| > 0 {
      assert catalog == [catalog[0]] + catalog[1..];
      OfCategoryCounts(catalog[1..], category, p);
    }
  }

  /** The category filter: "All" keeps the whole catalog, anything else keeps exact matches. */
  function FilterByCategory(catalog: seq<Product>, selected: string): (r: seq<Product>)
    ensures forall i :: 0 <= i < |r| ==> r[i] in catalog && (selected == AllCategories || r[i].category == selected)
    ensures forall i :: 0 <= i < |catalog| && (selected == AllCategories || catalog[i].category == selected)
              ==> catalog[i] in r
  {
    if selected != AllCategories then OfCategory(catalog, selected) else catalog
  }

  lemma {:induction false} OfCategoryKeepsOrder(catalog: seq<Product>, category: string)
    ensures IsSubsequence(OfCategory(catalog, category), catalog)
    decreases |catalog|
  {
    if |catalog| > 0 {
      OfCategoryKeepsOrder(catalog[1..], category);
      var rest := OfCategory(catalog[1..], category);
      if catalog[0].category == category {
        assert ([catalog[0]] + rest)[1..] == rest;
      }
    }
  }

  /** The sort direction selected: ascending or descending by price. */
  datatype Direction = Ascending | Descending

  /** The key the comparator orders by: `price` for price-low, `-price` for price-high. */
  function Key(p: Product, dir: Direction): int {
    match dir
    case Ascending => p.price
    case Descending => -p.price
  }

  predicate SortedBy(s: seq<Product>, dir: Direction) {
    forall i, j :: 0 <= i < j < |s| ==> Key(s[i], dir) <= Key(s[j], dir)
  }

  /**
   Insert `x` before the first element whose key is not smaller, so that `x`
   stays ahead of every element with an equal key.
   */
  function Insert(x: Product, s: seq<Product>, dir: Direction): (r: seq<Product>)
    requires SortedBy(s, dir)
    ensures forall i :: 0 <= i < |r| ==> r[i] == x || r[i] in s
    ensures SortedBy(r, dir)
  {
    if |s| == 0 then [x]
    else if Key(s[0], dir) < Key(x, dir) then
      var tail := s[1..];
      var t := Insert(x, tail, dir);
      var r := [s[0]] + t;
      assert s == [s[0]] + tail;
      forall i, j | 0 <= i < j < |r|
        ensures Key(r[i], dir) <= Key(r[j], dir)
      {
        assert r[j] == t[j - 1];
        if i > 0 {
          assert r[i] == t[i - 1];
        } else if t[j - 1] != x {
          var k :| 0 <= k < |tail| && tail[k] == t[j - 1];
          assert s[k + 1] == r[j];
        }
      }
      r
    else
      [x] + s
  }

  lemma {:induction false} InsertPermutes(x: Product, s: seq<Product>, dir: Direction)
    requires SortedBy(s, dir)
    ensures multiset(Insert(x, s, dir)) == multiset(s) + multiset{x}
    decreases |s|
  {
    if |s| > 0 && Key(s[0], dir) < Key(x, dir) {
      InsertPermutes(x, s[1..], dir);
      assert s == [s[0]] + s[1..];
    }
  }

  /** A stable insertion sort; the model of `Array.prototype.sort` with a price comparator. */
  function Sort(s: seq<Product>, dir: Direction): (r: seq<Product>)
    ensures multiset(r) == multiset(s)
    ensures SortedBy(r, dir)
  {
    if |s| == 0 then []
    else
      var sorted := Sort(s[1..], dir);
      InsertPermutes(s[0], sorted, dir);
      assert s == [s[0]] + s[1..];
      Insert(s[0], sorted, dir)
  }

  /** The products of `s` with price `price`, in the order `s` lists them. */
  function WithPrice(s: seq<Product>, price: int): (r: seq<Product>)
    ensures forall i :: 0 <= i < |r| ==> r[i].price == price && r[i] in s
  {
    if |s| == 0 then []
    else if s[0].price == price then [s[0]] + WithPrice(s[1..], price)
    else WithPrice(s[1..], price)
  }

  lemma {:induction false} WithPriceInsert(x: Product, s: seq<Product>, dir: Direction, price: int)
    requires SortedBy(s, dir)
    ensures WithPrice(Insert(x, s, dir), price) ==
            if x.price == price then [x] + WithPrice(s, price) else WithPrice(s, price)
    decreases |s|
  {
    if |s| > 0 && Key(s[0], dir) < Key(x, dir) {
      var t := Insert(x, s[1..], dir);
      assert ([s[0]] + t)[1..] == t;
      WithPriceInsert(x, s[1..], dir, price);
      if x.price == price {
        // `s[0]` has a strictly smaller key than `x`, so a different price.
        assert s[0].price != price;
      }
    } else if |s| > 0 {
      assert ([x] + s)[1..] == s;
    }
  }

  /**
   Stability: for every price, the products with that price appear in the
   sorted result in the same relative order as in the input.
   */
  lemma {:induction false} SortIsStable(s: seq<Product>, dir: Direction, price: int)
    ensures WithPrice(Sort(s, dir), price) == WithPrice(s, price)
    decreases |s|
  {
    if |s| > 0 {
      SortIsStable(s[1..], dir, price);
      WithPriceInsert(s[0], Sort(s[1..], dir), dir, price);
    }
  }

  /**
   A stable sort has only one possible result: two sequences sorted in the
   same direction that agree on the order within every price are equal.
   */
  lemma {:induction false} StableSortIsUnique(a: seq<Product>, b: seq<Product>, dir: Direction)
    requires SortedBy(a, dir) && SortedBy(b, dir)
    requires forall price :: WithPrice(a, price) == WithPrice(b, price)
    ensures a == b
    decreases |a| + |b|
  {
    HeadPriceIsPresent(a);
    HeadPriceIsPresent(b);
    if |a| > 0 && |b| > 0 {
      HeadsHaveEqualPrice(a, b, dir);
      HeadsHaveEqualPrice(b, a, dir);
      var p := a[0].price;
      assert WithPrice(a, p) == [a[0]] + WithPrice(a[1..], p);
      assert WithPrice(b, p) == [b[0]] + WithPrice(b[1..], p);
      forall price
        ensures WithPrice(a[1..], price) == WithPrice(b[1..], price)
      {
        if price == p {
          assert [a[0]] + WithPrice(a[1..], p) == [b[0]] + WithPrice(b[1..], p);
          assert WithPrice(a[1..], p) == ([a[0]] + WithPrice(a[1..], p))[1..];
        } else {
          assert WithPrice(a, price) == WithPrice(a[1..], price);
          assert WithPrice(b, price) == WithPrice(b[1..], price);
        }
      }
      StableSortIsUnique(a[1..], b[1..], dir);
      assert a == [a[0]] + a[1..] && b == [b[0]] + b[1..];
    }
  }

  lemma HeadPriceIsPresent(s: seq<Product>)
    ensures |s| > 0 ==> WithPrice(s, s[0].price) != []
  {
  }

  /** The first key of a sorted sequence cannot exceed the first key of another with the same price groups. */
  lemma HeadsHaveEqualPrice(a: seq<Product>, b: seq<Product>, dir: Direction)
    requires |a| > 0 && |b| > 0
    requires SortedBy(b, dir)
    requires forall price :: WithPrice(a, price) == WithPrice(b, price)
    ensures Key(b[0], dir) <= Key(a[0], dir)
  {
    var p := a[0].price;
    assert WithPrice(a, p) == [a[0]] + WithPrice(a[1..], p);
    var w := WithPrice(b, p);
    assert w[0].price == p && w[0] in b;
  }

  /**
   The Products page listing: filter by category, then sort by price when a
   price order is selected, otherwise keep catalog order.
   */
  function Listing(catalog: seq<Product>, selected: string, sortBy: string): (r: seq<Product>)
    ensures multiset(r) == multiset(FilterByCategory(catalog, selected))
    ensures forall p :: p in r <==> p in catalog && (selected == AllCategories || p.category == selected)
    ensures sortBy == PriceLow ==> forall i, j :: 0 <= i < j < |r| ==> r[i].price <= r[j].price
    ensures sortBy == PriceHigh ==> forall i, j :: 0 <= i < j < |r| ==> r[i].price >= r[j].price
    ensures sortBy != PriceLow && sortBy != PriceHigh ==> r == FilterByCategory(catalog, selected)
  {
    var filtered := FilterByCategory(catalog, selected);
    var r :=
      if sortBy == PriceLow then Sort(filtered, Ascending)
      else if sortBy == PriceHigh then Sort(filtered, Descending)
      else filtered;
    assert forall p :: p in r <==> p in filtered by {
      assert forall p :: p in r <==> p in multiset(r);
    }
    if sortBy == PriceLow then
      assert SortedBy(r, Ascending);
      r
    else if sortBy == PriceHigh then
      assert SortedBy(r, Descending);
      r
    else
      r
  }

  /** Ties keep catalog order: equal-price products are listed as the filter left them. */
  lemma ListingKeepsTiesInCatalogOrder(catalog: seq<Product>, selected: string, sortBy: string, price: int)
    ensures WithPrice(Listing(catalog, selected, sortBy), price)
            == WithPrice(FilterByCategory(catalog, selected), price)
  {
    var filtered := FilterByCategory(catalog, selected);
    if sortBy == PriceLow {
      SortIsStable(filtered, Ascending, price);
    } else if sortBy == PriceHigh {
      SortIsStable(filtered, Descending, price);
    }
  }

  /**
   The price-ordered listing is the only ordering of the filtered products
   that is sorted by price in the selected direction and keeps catalog order
   among equal prices.
   */
  lemma ListingIsTheStableSort(catalog: seq<Product>, selected: string, sortBy: string, r: seq<Product>)
    requires sortBy == PriceLow || sortBy == PriceHigh
    requires sortBy == PriceLow ==> forall i, j :: 0 <= i < j < |r| ==> r[i].price <= r[j].price
    requires sortBy == PriceHigh ==> forall i, j :: 0 <= i < j < |r| ==> r[i].price >= r[j].price
    requires forall price :: WithPrice(r, price) == WithPrice(FilterByCategory(catalog, selected), price)
    ensures r == Listing(catalog, selected, sortBy)
  {
    var dir := if sortBy == PriceLow then Ascending else Descending;
    var l := Listing(catalog, selected, sortBy);
    assert SortedBy(r, dir);
    assert SortedBy(l, dir);
    forall price
      ensures WithPrice(r, price) == WithPrice(l, price)
    {
      ListingKeepsTiesInCatalogOrder(catalog, selected, sortBy, price);
    }
    StableSortIsUnique(r, l, dir);
  }

  /** Without a price order, the listing is the filtered catalog in catalog order. */
  lemma FeaturedKeepsCatalogOrder(catalog: seq<Product>, selected: string, sortBy: string)
    requires sortBy != PriceLow && sortBy != PriceHigh
    ensures IsSubsequence(Listing(catalog, selected, sortBy), catalog)
  {
    OfCategoryKeepsOrder(catalog, selected);
    if selected == AllCategories {
      SubsequenceReflexive(catalog);
    }
  }
}
