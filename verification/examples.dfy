/**
 The storefront's own nine-product catalog, used as a witness: the general
 lemmas are about any catalog, these pin them to concrete values.
 */
module StorefrontExamples {
  import opened Sequences
  import opened Catalog
  import opened CartStore
  import opened Shell

  const ToiletCleaner := Product(1, "Toilet Cleaner", 129, "Powerful stain removal and 99.9% germ kill.", "", "Cleaning", "#0066cc")
  const FloorCleaner := Product(2, "Floor Cleaner", 199, "Sparkling shine with a long-lasting citrus fragrance.", "", "Cleaning", "#28a745")
  const BathroomCleaner := Product(3, "Bathroom Cleaner", 149, "Removes tough soap scum and limescale easily.", "", "Cleaning", "#00b4d8")
  const RoomFreshener := Product(4, "Room Freshener", 249, "Instant freshness that lasts for hours.", "", "Fragrance", "#9c27b0")
  const GlassCleaner := Product(5, "Glass Cleaner", 99, "Streak-free shine for windows and mirrors.", "", "Cleaning", "#03a9f4")
  const DetergentLiquid := Product(6, "Detergent Liquid", 399, "Tough on stains, gentle on fabrics.", "", "Laundry", "#3f51b5")
  const HandWash := Product(7, "Hand Wash", 119, "Moisturizing formula with anti-bacterial protection.", "", "Personal Care", "#e91e63")
  const DishWash := Product(8, "Dish Wash", 159, "Cuts through grease and removes odors effectively.", "", "Cleaning", "#ff9800")
  const CarWashShampoo := Product(9, "Car Wash Shampoo", 299, "High-foam formula for a showroom-like finish.", "", "Automotive", "#607d8b")

  const StoreCatalog: seq<Product> :=
    [ToiletCleaner, FloorCleaner, BathroomCleaner, RoomFreshener, GlassCleaner,
     DetergentLiquid, HandWash, DishWash, CarWashShampoo]

  /** The store's catalog meets the shape the model assumes of catalogs. */
  lemma StoreCatalogIsWellFormed()
    ensures WellFormedCatalog(StoreCatalog)
  {
  }

  // `Distinct` on the shape of the store's category column, one prefix at a time.

  lemma DistinctOfThree<X>(a: X)
    ensures Distinct([a, a, a]) == [a]
  {
    DistinctSnoc([], a);
    assert [] + [a] == [a];
    DistinctSnoc([a], a);
    assert [a] + [a] == [a, a];
    DistinctSnoc([a, a], a);
    assert [a, a] + [a] == [a, a, a];
  }
  lemma DistinctOfFive<X>(a: X, b: X)
    requires a != b
    ensures Distinct([a, a, a, b, a]) == [a, b]
  {
    DistinctOfThree(a);
    DistinctSnoc([a, a, a], b);
    assert [a, a, a] + [b] == [a, a, a, b];
    DistinctSnoc([a, a, a, b], a);
    assert [a, a, a, b] + [a] == [a, a, a, b, a];
  }
  lemma DistinctOfSix<X>(a: X, b: X, c: X)
    requires a != b && a != c && b != c
    ensures Distinct([a, a, a, b, a, c]) == [a, b, c]
  {
    DistinctOfFive(a, b);
    DistinctSnoc([a, a, a, b, a], c);
    assert [a, a, a, b, a] + [c] == [a, a, a, b, a, c];
  }
  lemma DistinctOfSeven<X>(a: X, b: X, c: X, d: X)
    requires a != b && a != c && a != d && b != c && b != d && c != d
    ensures Distinct([a, a, a, b, a, c, d]) == [a, b, c, d]
  {
    DistinctOfSix(a, b, c);
    DistinctSnoc([a, a, a, b, a, c], d);
    assert [a, a, a, b, a, c] + [d] == [a, a, a, b, a, c, d];
  }
  lemma DistinctOfEight<X>(a: X, b: X, c: X, d: X)
    requires a != b && a != c && a != d && b != c && b != d && c != d
    ensures Distinct([a, a, a, b, a, c, d, a]) == [a, b, c, d]
  {
    DistinctOfSeven(a, b, c, d);
    DistinctSnoc([a, a, a, b, a, c, d], a);
    assert [a, a, a, b, a, c, d] + [a] == [a, a, a, b, a, c, d, a];
  }
  lemma DistinctOfNine<X>(a: X, b: X, c: X, d: X, e: X)
    requires a != b && a != c && a != d && a != e && b != c && b != d && b != e && c != d && c != e && d != e
    ensures Distinct([a, a, a, b, a, c, d, a, e]) == [a, b, c, d, e]
  {
    DistinctOfEight(a, b, c, d);
    DistinctSnoc([a, a, a, b, a, c, d, a], e);
    assert [a, a, a, b, a, c, d, a] + [e] == [a, a, a, b, a, c, d, a, e];
  }

  /** The category of each of the nine products, in catalog order. */
  lemma StoreCategoryColumn()
    ensures CategoryColumn(StoreCatalog)
            == ["Cleaning", "Cleaning", "Cleaning", "Fragrance", "Cleaning",
                "Laundry", "Personal Care", "Cleaning", "Automotive"]
  {
  }

  /** The store's distinct categories are five, first "Cleaning", last "Automotive". */
  lemma DistinctStoreCategories()
    ensures Distinct(CategoryColumn(StoreCatalog))
            == ["Cleaning", "Fragrance", "Laundry", "Personal Care", "Automotive"]
  {
    StoreCategoryColumn();
    DistinctOfNine("Cleaning", "Fragrance", "Laundry", "Personal Care", "Automotive");
  }

  lemma OfCategoryUnfolds(c: seq<Product>, category: string)
    requires |c| > 0
    ensures OfCategory(c, category)
            == if c[0].category == category then [c[0]] + OfCategory(c[1..], category)
               else OfCategory(c[1..], category)
  {
  }

  /** In a nine-product catalog whose sixth product alone is laundry, the laundry filter keeps just that one. */
  lemma OnlySixthIsLaundry(c: seq<Product>)
    requires |c| == 9
    requires forall i :: 0 <= i < 9 && i != 5 ==> c[i].category != "Laundry"
    requires c[5].category == "Laundry"
    ensures OfCategory(c, "Laundry") == [c[5]]
  {
    var laundry := "Laundry";
    OfCategoryUnfolds(c[8..], laundry);
    assert c[8..][1..] == [];
    OfCategoryUnfolds(c[7..], laundry);
    assert c[7..][1..] == c[8..];
    OfCategoryUnfolds(c[6..], laundry);
    assert c[6..][1..] == c[7..];
    OfCategoryUnfolds(c[5..], laundry);
    assert c[5..][1..] == c[6..];
    OfCategoryUnfolds(c[4..], laundry);
    assert c[4..][1..] == c[5..];
    OfCategoryUnfolds(c[3..], laundry);
    assert c[3..][1..] == c[4..];
    OfCategoryUnfolds(c[2..], laundry);
    assert c[2..][1..] == c[3..];
    OfCategoryUnfolds(c[1..], laundry);
    assert c[1..][1..] == c[2..];
    OfCategoryUnfolds(c, laundry);
  }

  /** Filtering to "Laundry" leaves the one detergent, and sorting it high-to-low leaves it as it is. */
  lemma LaundryHighToLow()
    ensures Listing(StoreCatalog, "Laundry", PriceHigh) == [DetergentLiquid]
    ensures Listing(StoreCatalog, "Laundry", "featured") == [DetergentLiquid]
  {
    var c := StoreCatalog;
    assert forall i :: 0 <= i < 9 && i != 5 ==> c[i].category != "Laundry";
    OnlySixthIsLaundry(c);
    assert Sort([DetergentLiquid], Descending) == [DetergentLiquid];
  }

  /** Adding the toilet cleaner twice and the bathroom cleaner once gives two lines. */
  lemma WorkedCartLines()
    ensures AddToCart(AddToCart(AddToCart([], ToiletCleaner), ToiletCleaner), BathroomCleaner)
            == [CartItem(ToiletCleaner, 2), CartItem(BathroomCleaner, 1)]
  {
    var c1 := AddToCart([], ToiletCleaner);
    assert c1 == [CartItem(ToiletCleaner, 1)];
    assert Ids(c1) == [1];
    var c2 := AddToCart(c1, ToiletCleaner);
    assert c2[0] == CartItem(ToiletCleaner, 2);
    assert c2 == [CartItem(ToiletCleaner, 2)];
    assert Ids(c2) == [1];
  }

  /** That cart costs 129 * 2 + 149 = 407 and holds 3 units. */
  lemma WorkedCartTotals()
    ensures Total([CartItem(ToiletCleaner, 2), CartItem(BathroomCleaner, 1)]) == 407
    ensures Count([CartItem(ToiletCleaner, 2), CartItem(BathroomCleaner, 1)]) == 3
  {
    var c3 := [CartItem(ToiletCleaner, 2), CartItem(BathroomCleaner, 1)];
    var tail := [CartItem(BathroomCleaner, 1)];
    assert c3[1..] == tail;
    assert tail[1..] == [];
    assert Total(tail) == 149 && Count(tail) == 1;
    assert Total(c3) == 129 * 2 + Total(tail);
    assert Count(c3) == 2 + Count(tail);
  }

  /** Pressing "-" five times' worth on the first line stops at quantity 1 and keeps the line. */
  lemma WorkedCartFloor()
    ensures UpdateQuantity([CartItem(ToiletCleaner, 2), CartItem(BathroomCleaner, 1)], 1, -5)
            == [CartItem(ToiletCleaner, 1), CartItem(BathroomCleaner, 1)]
  {
    var c3 := [CartItem(ToiletCleaner, 2), CartItem(BathroomCleaner, 1)];
    var u := UpdateQuantity(c3, 1, -5);
    assert u[0] == CartItem(ToiletCleaner, 1);
    assert u[1] == CartItem(BathroomCleaner, 1);
  }

  /** Placing an order from any state leaves an empty cart, the home page and a closed menu. */
  lemma OrderFromCheckout(cart: Cart)
    ensures Step(AppState(Checkout, cart, true, false), SubmitOrder)
            == AppState(Home, [], false, false)
  {
  }
}
