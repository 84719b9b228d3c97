/**
 Properties of the cart store: the invariant every operation keeps, what each
 operation does to the line it targets and to the rest of the cart, and how
 the derived total and count move.
 */
module CartProperties {
  import opened Sequences
  import opened Catalog
  import opened CartStore

  /** The cart with line `i`'s quantity replaced by `q`. */
  function SetQuantity(cart: Cart, i: nat, q: int): (r: Cart)
    requires i < |cart|
  {
    cart[i := cart[i].(quantity := q)]
  }

  /** Replacing one line's quantity moves total, count and that product's units by the difference. */
  lemma {:induction false} SetQuantityEffects(cart: Cart, i: nat, q: int, x: int)
    requires i < |cart|
    ensures Total(SetQuantity(cart, i, q)) == Total(cart) + cart[i].product.price * (q - cart[i].quantity)
    ensures Count(SetQuantity(cart, i, q)) == Count(cart) + (q - cart[i].quantity)
    ensures QuantityOf(SetQuantity(cart, i, q), x)
            == QuantityOf(cart, x) + (if cart[i].product.id == x then q - cart[i].quantity else 0)
    decreases i
  {
    var r := SetQuantity(cart, i, q);
    if i == 0 {
      assert r[1..] == cart[1..];
    } else {
      assert r[1..] == SetQuantity(cart[1..], i - 1, q);
      SetQuantityEffects(cart[1..], i - 1, q, x);
    }
  }

  // ----- addToCart -----

  /** Re-adding a product present at line `i` adds one unit to line `i` and changes nothing else. */
  lemma AddExistingBumpsItsLine(cart: Cart, product: Product, i: nat)
    requires UniqueIds(cart)
    requires i < |cart| && cart[i].product.id == product.id
    ensures AddToCart(cart, product) == SetQuantity(cart, i, cart[i].quantity + 1)
  {
    assert Ids(cart)[i] == product.id;
  }

  /** `addToCart` keeps ids unique and quantities positive. */
  lemma AddPreservesValid(cart: Cart, product: Product)
    requires Valid(cart)
    ensures Valid(AddToCart(cart, product))
  {
    var r := AddToCart(cart, product);
    if product.id !in Ids(cart) {
      forall i, j | 0 <= i < j < |r|
        ensures r[i].product.id != r[j].product.id
      {
        if j == |cart| {
          assert Ids(cart)[i] == r[i].product.id;
        }
      }
    }
  }

  /**
   On a cart with unique ids, `addToCart` adds exactly one unit of `product`:
   one more in the count, one more of that id, none more of any other.
   */
  lemma AddAddsOneUnit(cart: Cart, product: Product, x: int)
    requires UniqueIds(cart)
    ensures Count(AddToCart(cart, product)) == Count(cart) + 1
    ensures QuantityOf(AddToCart(cart, product), x) == QuantityOf(cart, x) + (if x == product.id then 1 else 0)
  {
    if product.id in Ids(cart) {
      var i := FirstIndex(Ids(cart), product.id);
      AddExistingBumpsItsLine(cart, product, i);
      SetQuantityEffects(cart, i, cart[i].quantity + 1, x);
    } else {
      var line := [CartItem(product, 1)];
      assert AddToCart(cart, product) == cart + line;
      CountAppend(cart, line);
      QuantityOfAppend(cart, line, x);
    }
  }

  /** Re-adding the product of line `i` raises the total by the price stored on that line. */
  lemma AddExistingRaisesTotal(cart: Cart, product: Product, i: nat)
    requires UniqueIds(cart)
    requires i < |cart| && cart[i].product.id == product.id
    ensures Total(AddToCart(cart, product)) == Total(cart) + cart[i].product.price
  {
    AddExistingBumpsItsLine(cart, product, i);
    SetQuantityEffects(cart, i, cart[i].quantity + 1, product.id);
  }

  /** Adding a product not yet in the cart raises the total by that product's price. */
  lemma AddNewRaisesTotal(cart: Cart, product: Product)
    requires product.id !in Ids(cart)
    ensures Total(AddToCart(cart, product)) == Total(cart) + product.price
  {
    TotalAppend(cart, [CartItem(product, 1)]);
  }

  /** `addToCart` leaves the id column alone when the id is present and appends it otherwise. */
  lemma AddExtendsIds(cart: Cart, product: Product)
    ensures Ids(AddToCart(cart, product))
            == if product.id in Ids(cart) then Ids(cart) else Ids(cart) + [product.id]
  {
  }

  lemma {:induction false} QuantityOfAppend(a: Cart, b: Cart, x: int)
    ensures QuantityOf(a + b, x) == QuantityOf(a, x) + QuantityOf(b, x)
    decreases |a|
  {
    if |a| > 0 {
      assert (a + b)[1..] == a[1..] + b;
      QuantityOfAppend(a[1..], b, x);
    } else {
      assert a + b == b;
    }
  }

  /** The cart reached from `cart` by adding the products of `ps` one after another. */
  function AddAll(cart: Cart, ps: seq<Product>): Cart {
    if |ps| == 0 then cart else AddToCart(AddAll(cart, ps[..|ps| - 1]), ps[|ps| - 1])
  }

  /** Any sequence of adds from an empty cart yields a valid cart. */
  lemma {:induction false} AddAllIsValid(ps: seq<Product>)
    ensures Valid(AddAll([], ps))
    decreases |ps|
  {
    if |ps| > 0 {
      var n := |ps| - 1;
      AddAllIsValid(ps[..n]);
      AddPreservesValid(AddAll([], ps[..n]), ps[n]);
    }
  }

  /** Every line of a cart built by adds holds one of the added products. */
  lemma {:induction false} AddAllLinesComeFromAdds(ps: seq<Product>)
    ensures forall i :: 0 <= i < |AddAll([], ps)| ==> AddAll([], ps)[i].product in ps
    decreases |ps|
  {
    if |ps| > 0 {
      var n := |ps| - 1;
      var before := AddAll([], ps[..n]);
      AddAllLinesComeFromAdds(ps[..n]);
      var after := AddToCart(before, ps[n]);
      forall i | 0 <= i < |after|
        ensures after[i].product in ps
      {
        if i < |before| {
          assert after[i].product == before[i].product;
          assert before[i].product in ps[..n];
        } else {
          assert after[i].product == ps[n];
        }
      }
    }
  }

  /** A cart built by adding products of a well-formed catalog never has a negative total. */
  lemma AddAllTotalNonNegative(catalog: seq<Product>, ps: seq<Product>)
    requires WellFormedCatalog(catalog)
    requires forall i :: 0 <= i < |ps| ==> ps[i] in catalog
    ensures Total(AddAll([], ps)) >= 0
  {
    var cart := AddAll([], ps);
    AddAllIsValid(ps);
    AddAllLinesComeFromAdds(ps);
    forall i | 0 <= i < |cart|
      ensures cart[i].product.price >= 0
    {
      assert cart[i].product in catalog;
    }
    TotalNonNegative(cart);
  }

  /** One add extends the id column exactly as one more insertion extends `Distinct`. */
  lemma AddTracksDistinct(before: Cart, p: Product, earlier: seq<int>)
    requires Ids(before) == Distinct(earlier)
    ensures Ids(AddToCart(before, p)) == Distinct(earlier + [p.id])
  {
    AddExtendsIds(before, p);
    DistinctSnoc(earlier, p.id);
  }

  /** After any sequence of adds from an empty cart, the lines are the distinct ids in order of first addition. */
  lemma {:induction false} AddAllOrdersByFirstAdd(ps: seq<Product>)
    ensures Ids(AddAll([], ps)) == Distinct(IdColumn(ps))
    decreases |ps|
  {
    if |ps| > 0 {
      var n := |ps| - 1;
      AddAllOrdersByFirstAdd(ps[..n]);
      AddTracksDistinct(AddAll([], ps[..n]), ps[n], IdColumn(ps[..n]));
      assert IdColumn(ps) == IdColumn(ps[..n]) + [ps[n].id];
    }
  }

  /** After any sequence of adds from an empty cart, each id's quantity is the number of times it was added. */
  lemma {:induction false} AddAllCountsAdds(ps: seq<Product>, x: int)
    ensures QuantityOf(AddAll([], ps), x) == Occurrences(IdColumn(ps), x)
    decreases |ps|
  {
    if |ps| > 0 {
      var n := |ps| - 1;
      AddAllCountsAdds(ps[..n], x);
      AddAllIsValid(ps[..n]);
      AddOneMoreOccurrence(ps, x);
    }
  }

  /** The inductive step of `AddAllCountsAdds`: the last add counts once more for its own id. */
  lemma AddOneMoreOccurrence(ps: seq<Product>, x: int)
    requires |ps| > 0
    requires Valid(AddAll([], ps[..|ps| - 1]))
    requires QuantityOf(AddAll([], ps[..|ps| - 1]), x) == Occurrences(IdColumn(ps[..|ps| - 1]), x)
    ensures QuantityOf(AddAll([], ps), x) == Occurrences(IdColumn(ps), x)
  {
    var n := |ps| - 1;
    var before := AddAll([], ps[..n]);
    AddAddsOneUnit(before, ps[n], x);
    var column := IdColumn(ps);
    assert column[..n] == IdColumn(ps[..n]);
  }

  /** Pressing "+" on a line is the same as adding its product again. */
  lemma AddAgainIsPlusOne(cart: Cart, product: Product)
    requires PositiveQuantities(cart)
    requires product.id in Ids(cart)
    ensures AddToCart(cart, product) == UpdateQuantity(cart, product.id, 1)
  {
    var added := AddToCart(cart, product);
    var updated := UpdateQuantity(cart, product.id, 1);
    assert |added| == |updated| == |cart|;
    forall i | 0 <= i < |cart|
      ensures added[i] == updated[i]
    {
      assert Max(1, cart[i].quantity + 1) == cart[i].quantity + 1;
    }
  }

  // ----- updateQuantity -----

  /** `updateQuantity` on the line at `i` replaces that quantity by `max(1, q + delta)` and touches nothing else. */
  lemma UpdateTargetsItsLine(cart: Cart, id: int, delta: int, i: nat)
    requires UniqueIds(cart)
    requires i < |cart| && cart[i].product.id == id
    ensures UpdateQuantity(cart, id, delta) == SetQuantity(cart, i, Max(1, cart[i].quantity + delta))
  {
  }

  /** `updateQuantity` of an id not in the cart changes nothing. */
  lemma UpdateAbsentIsNoOp(cart: Cart, id: int, delta: int)
    requires id !in Ids(cart)
    ensures UpdateQuantity(cart, id, delta) == cart
  {
    forall i | 0 <= i < |cart|
      ensures cart[i].product.id != id
    {
      assert Ids(cart)[i] == cart[i].product.id;
    }
  }

  /**
   `updateQuantity` keeps the invariant for every `delta`: no line is removed,
   the ids stay as they were, and the targeted quantity never falls below 1.
   */
  lemma UpdatePreservesValid(cart: Cart, id: int, delta: int)
    requires Valid(cart)
    ensures Valid(UpdateQuantity(cart, id, delta))
    ensures Ids(UpdateQuantity(cart, id, delta)) == Ids(cart)
  {
    var r := UpdateQuantity(cart, id, delta);
    assert forall i :: 0 <= i < |r| ==> r[i].product == cart[i].product && r[i].quantity >= 1;
    assert Ids(r) == Ids(cart);
  }

  /** How `updateQuantity` moves the count and the targeted product's units. */
  lemma UpdateMovesCount(cart: Cart, id: int, delta: int, i: nat, x: int)
    requires UniqueIds(cart)
    requires i < |cart| && cart[i].product.id == id
    ensures Count(UpdateQuantity(cart, id, delta))
            == Count(cart) + (Max(1, cart[i].quantity + delta) - cart[i].quantity)
    ensures QuantityOf(UpdateQuantity(cart, id, delta), x)
            == if x == id then QuantityOf(cart, x) + (Max(1, cart[i].quantity + delta) - cart[i].quantity)
               else QuantityOf(cart, x)
  {
    UpdateTargetsItsLine(cart, id, delta, i);
    SetQuantityEffects(cart, i, Max(1, cart[i].quantity + delta), x);
  }

  // ----- removeFromCart -----

  lemma RemoveUnfolds(cart: Cart, id: int)
    requires |cart| > 0
    ensures RemoveFromCart(cart, id) == if cart[0].product.id == id then RemoveFromCart(cart[1..], id)
                                        else [cart[0]] + RemoveFromCart(cart[1..], id)
  {
  }

  /** The tail of a cart with unique ids has unique ids and lacks the head's id. */
  lemma UniqueTail(cart: Cart)
    requires UniqueIds(cart) && |cart| > 0
    ensures UniqueIds(cart[1..])
    ensures cart[0].product.id !in Ids(cart[1..])
  {
    var tail := cart[1..];
    forall k | 0 <= k < |tail|
      ensures Ids(tail)[k] != cart[0].product.id
    {
      assert tail[k] == cart[k + 1];
    }
  }

  /** On a cart with unique ids, removing the id of line `i` is deleting line `i`. */
  lemma {:induction false} RemoveDeletesItsLine(cart: Cart, id: int, i: nat)
    requires UniqueIds(cart)
    requires i < |cart| && cart[i].product.id == id
    ensures RemoveFromCart(cart, id) == cart[..i] + cart[i + 1..]
    decreases i
  {
    var tail := cart[1..];
    UniqueTail(cart);
    RemoveUnfolds(cart, id);
    if i == 0 {
      assert cart[..0] + cart[1..] == tail;
    } else {
      assert cart[0].product.id != cart[i].product.id;
      RemoveDeletesItsLine(tail, id, i - 1);
      ConsSplice(cart, i);
    }
  }

  lemma ConsSplice<T>(s: seq<T>, i: nat)
    requires 0 < i < |s|
    ensures [s[0]] + (s[1..][..i - 1] + s[1..][i..]) == s[..i] + s[i + 1..]
  {
    assert s[..i] == [s[0]] + s[1..][..i - 1];
    assert s[i + 1..] == s[1..][i..];
  }

  /** `removeFromCart` keeps the remaining lines in their original relative order. */
  lemma {:induction false} RemoveKeepsOrder(cart: Cart, id: int)
    ensures IsSubsequence(RemoveFromCart(cart, id), cart)
    decreases |cart|
  {
    if |cart| > 0 {
      var rest := RemoveFromCart(cart[1..], id);
      RemoveKeepsOrder(cart[1..], id);
      if cart[0].product.id != id {
        assert ([cart[0]] + rest)[1..] == rest;
      } else if |rest| > 0 {
        assert rest[0].product.id != id;
      }
    }
  }

  /** A second `removeFromCart` of the same id is a no-op. */
  lemma RemoveIsIdempotent(cart: Cart, id: int)
    ensures RemoveFromCart(RemoveFromCart(cart, id), id) == RemoveFromCart(cart, id)
  {
    var r := RemoveFromCart(cart, id);
    assert forall k :: 0 <= k < |r| ==> Ids(r)[k] != id;
  }

  /** `removeFromCart` keeps the invariant. */
  lemma {:induction false} RemovePreservesValid(cart: Cart, id: int)
    requires Valid(cart)
    ensures Valid(RemoveFromCart(cart, id))
    decreases |cart|
  {
    if |cart| > 0 {
      RemovePreservesValid(cart[1..], id);
      var rest := RemoveFromCart(cart[1..], id);
      if cart[0].product.id != id {
        var r := [cart[0]] + rest;
        forall i, j | 0 <= i < j < |r|
          ensures r[i].product.id != r[j].product.id
        {
          if i == 0 {
            var k :| 0 <= k < |cart[1..]| && cart[1..][k] == r[j];
            assert cart[k + 1] == r[j];
          }
        }
      }
    }
  }

  /** Removing an id empties that product's units and leaves every other product's units alone. */
  lemma {:induction false} RemoveZeroesItsUnits(cart: Cart, id: int, x: int)
    ensures QuantityOf(RemoveFromCart(cart, id), x) == if x == id then 0 else QuantityOf(cart, x)
    decreases |cart|
  {
    if |cart| > 0 {
      RemoveZeroesItsUnits(cart[1..], id, x);
      var rest := RemoveFromCart(cart[1..], id);
      if cart[0].product.id != id {
        assert ([cart[0]] + rest)[1..] == rest;
      }
    }
  }

  /** Deleting line `i` takes its `price * quantity` off the total and its quantity off the count. */
  lemma DeleteLineTotals(cart: Cart, i: nat)
    requires i < |cart|
    ensures Total(cart[..i] + cart[i + 1..]) == Total(cart) - cart[i].product.price * cart[i].quantity
    ensures Count(cart[..i] + cart[i + 1..]) == Count(cart) - cart[i].quantity
  {
    var front, back := cart[..i], cart[i + 1..];
    var rest := [cart[i]] + back;
    assert cart == front + rest;
    assert rest[1..] == back;
    DeleteFromTotal(front, rest);
    DeleteFromCount(front, rest);
  }

  lemma DeleteFromTotal(front: Cart, rest: Cart)
    requires |rest| > 0
    ensures Total(front + rest[1..]) == Total(front + rest) - rest[0].product.price * rest[0].quantity
  {
    TotalAppend(front, rest);
    TotalAppend(front, rest[1..]);
  }

  lemma DeleteFromCount(front: Cart, rest: Cart)
    requires |rest| > 0
    ensures Count(front + rest[1..]) == Count(front + rest) - rest[0].quantity
  {
    CountAppend(front, rest);
    CountAppend(front, rest[1..]);
  }

  /** Removing the product of line `i` takes that line's `price * quantity` off the total and its quantity off the count. */
  lemma RemoveLowersTotals(cart: Cart, id: int, i: nat)
    requires UniqueIds(cart)
    requires i < |cart| && cart[i].product.id == id
    ensures Total(RemoveFromCart(cart, id)) == Total(cart) - cart[i].product.price * cart[i].quantity
    ensures Count(RemoveFromCart(cart, id)) == Count(cart) - cart[i].quantity
  {
    RemoveDeletesItsLine(cart, id, i);
    DeleteLineTotals(cart, i);
  }
}
