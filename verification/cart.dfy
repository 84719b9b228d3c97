/**
 The cart store: an ordered sequence of line items, each a product record
 together with a quantity, and the operations the storefront applies to it.
 Every operation returns a new cart, as the React state updaters do.
 */
module CartStore {
  import opened Catalog

  /** A product record with the quantity in the cart (`{...product, quantity}`). */
  datatype CartItem = CartItem(product: Product, quantity: int)

  type Cart = seq<CartItem>

  /** The product ids of the lines, in cart order (`Catalog.IdColumn` over cart lines). */
  function Ids(cart: Cart): (ids: seq<int>)
    ensures |ids| == |cart|
    ensures forall i :: 0 <= i < |cart| ==> ids[i] == cart[i].product.id
  {
    if |cart| == 0 then [] else Ids(cart[..|cart| - 1]) + [cart[|cart| - 1].product.id]
  }

  /** At most one line per product id. */
  predicate UniqueIds(cart: Cart) {
    forall i, j :: 0 <= i < j < |cart| ==> cart[i].product.id != cart[j].product.id
  }

  /** Every line holds at least one unit. */
  predicate PositiveQuantities(cart: Cart) {
    forall i :: 0 <= i < |cart| ==> cart[i].quantity >= 1
  }

  /** The cart invariant the store maintains. */
  predicate Valid(cart: Cart) {
    UniqueIds(cart) && PositiveQuantities(cart)
  }

  /** Total units of product `id` in the cart, over all its lines. */
  function QuantityOf(cart: Cart, id: int): int {
    if |cart| == 0 then 0
    else (if cart[0].product.id == id then cart[0].quantity else 0) + QuantityOf(cart[1..], id)
  }

  /** Every line with id `id` gains one unit; the other lines and the order stay. */
  function Increment(cart: Cart, id: int): (r: Cart)
    ensures |r| == |cart|
    ensures forall i :: 0 <= i < |cart| ==>
              r[i].product == cart[i].product
              && r[i].quantity == cart[i].quantity + (if cart[i].product.id == id then 1 else 0)
  {
    if |cart| == 0 then []
    else
      var item := cart[0];
      var first := if item.product.id == id then item.(quantity := item.quantity + 1) else item;
      [first] + Increment(cart[1..], id)
  }

  /**
   `addToCart`: re-adding a product already in the cart adds one unit to its
   line, keeping the line's stored product fields; a new product is appended
   as a line of quantity 1.
   */
  function AddToCart(cart: Cart, product: Product): (r: Cart)
    ensures product.id in Ids(cart) ==>
              |r| == |cart|
              && forall i :: 0 <= i < |cart| ==>
                   r[i].product == cart[i].product
                   && r[i].quantity == cart[i].quantity + (if cart[i].product.id == product.id then 1 else 0)
    ensures product.id !in Ids(cart) ==>
              |r| == |cart| + 1 && r[..|cart|] == cart && r[|cart|] == CartItem(product, 1)
  {
    if product.id in Ids(cart) then Increment(cart, product.id)
    else cart + [CartItem(product, 1)]
  }

  /** `removeFromCart`: drop every line with product id `id`, keep the rest in order. */
  function RemoveFromCart(cart: Cart, id: int): (r: Cart)
    ensures |r| <= |cart|
    ensures forall i :: 0 <= i < |r| ==> r[i].product.id != id && r[i] in cart
    ensures forall i :: 0 <= i < |cart| && cart[i].product.id != id ==> cart[i] in r
    ensures id !in Ids(cart) ==> r == cart
  {
    if |cart| == 0 then []
    else
      var rest := RemoveFromCart(cart[1..], id);
      assert cart == [cart[0]] + cart[1..];
      assert Ids(cart) == [cart[0].product.id] + Ids(cart[1..]);
      if cart[0].product.id == id then rest else [cart[0]] + rest
  }

  /** `Math.max` on the integers. */
  function Max(a: int, b: int): int {
    if a >= b then a else b
  }

  /**
   `updateQuantity`: the lines with id `id` get quantity `max(1, quantity + delta)`;
   no line is removed and every other line is left as it was.
   */
  function UpdateQuantity(cart: Cart, id: int, delta: int): (r: Cart)
    ensures |r| == |cart|
    ensures forall i :: 0 <= i < |cart| ==>
              r[i].product == cart[i].product
              && r[i].quantity == (if cart[i].product.id == id then Max(1, cart[i].quantity + delta)
                                   else cart[i].quantity)
  {
    if |cart| == 0 then []
    else
      var item := cart[0];
      var first := if item.product.id == id then item.(quantity := Max(1, item.quantity + delta)) else item;
      [first] + UpdateQuantity(cart[1..], id, delta)
  }

  /** The sum of `price * quantity` over the lines. */
  function Total(cart: Cart): int {
    if |cart| == 0 then 0 else cart[0].product.price * cart[0].quantity + Total(cart[1..])
  }

  /** The sum of the quantities over the lines. */
  function Count(cart: Cart): int {
    if |cart| == 0 then 0 else cart[0].quantity + Count(cart[1..])
  }

  /** `clearCart`: the empty cart, which holds nothing and costs nothing. */
  function ClearCart(): (r: Cart)
    ensures Valid(r)
    ensures Total(r) == 0 && Count(r) == 0
    ensures forall id :: QuantityOf(r, id) == 0
  {
    []
  }

  // ----- Totals -----

  lemma {:induction false} TotalAppend(a: Cart, b: Cart)
    ensures Total(a + b) == Total(a) + Total(b)
    decreases |a|
  {
    if |a| > 0 {
      assert (a + b)[1..] == a[1..] + b;
      TotalAppend(a[1..], b);
    } else {
      assert a + b == b;
    }
  }

  lemma {:induction false} CountAppend(a: Cart, b: Cart)
    ensures Count(a + b) == Count(a) + Count(b)
    decreases |a|
  {
    if |a| > 0 {
      assert (a + b)[1..] == a[1..] + b;
      CountAppend(a[1..], b);
    } else {
      assert a + b == b;
    }
  }

  /**
   `cartTotal`: the `reduce` that starts at 0 and adds `price * quantity` line
   by line, from the first line to the last, computes the sum over the lines.
   */
  method ReduceTotal(cart: Cart) returns (sum: int)
    ensures sum == Total(cart)
  {
    sum := 0;
    var i := 0;
    while i < |cart|
      invariant 0 <= i <= |cart|
      invariant sum == Total(cart[..i])
    {
      assert cart[..i + 1] == cart[..i] + [cart[i]];
      TotalAppend(cart[..i], [cart[i]]);
      sum := sum + cart[i].product.price * cart[i].quantity;
      i := i + 1;
    }
    assert cart[..i] == cart;
  }

  /** `cartCount`: the `reduce` that adds the quantities computes the sum of quantities. */
  method ReduceCount(cart: Cart) returns (sum: int)
    ensures sum == Count(cart)
  {
    sum := 0;
    var i := 0;
    while i < |cart|
      invariant 0 <= i <= |cart|
      invariant sum == Count(cart[..i])
    {
      assert cart[..i + 1] == cart[..i] + [cart[i]];
      CountAppend(cart[..i], [cart[i]]);
      sum := sum + cart[i].quantity;
      i := i + 1;
    }
    assert cart[..i] == cart;
  }

  /** With at least one unit per line, the item count is at least the number of lines. */
  lemma {:induction false} CountAtLeastLines(cart: Cart)
    requires PositiveQuantities(cart)
    ensures Count(cart) >= |cart|
    decreases |cart|
  {
    if |cart| > 0 {
      CountAtLeastLines(cart[1..]);
    }
  }

  /** With non-negative prices and positive quantities the total is non-negative. */
  lemma {:induction false} TotalNonNegative(cart: Cart)
    requires PositiveQuantities(cart)
    requires forall i :: 0 <= i < |cart| ==> cart[i].product.price >= 0
    ensures Total(cart) >= 0
    decreases |cart|
  {
    if |cart| > 0 {
      TotalNonNegative(cart[1..]);
    }
  }
}
