/**
 The root component's state: the current page, the cart, the mobile-menu
 flag and the contact-form acknowledgment flag, and the handlers that change
 them. Every user interaction is an `Event`; `Step` applies one.
 */
module Shell {
  import opened Catalog
  import opened CartStore
  import opened CartProperties

  datatype Page = Home | Products | About | Contact | CartView | Checkout

  datatype AppState = AppState(page: Page, cart: Cart, menuOpen: bool, contactSubmitted: bool)

  /** The state the storefront starts in: home page, empty cart, menu closed, no acknowledgment. */
  function Init(): (s: AppState)
    ensures s.page == Home && !s.menuOpen && !s.contactSubmitted
    ensures Valid(s.cart) && Count(s.cart) == 0 && Total(s.cart) == 0
  {
    AppState(Home, ClearCart(), false, false)
  }

  /** `navigate`: show `page` and close the mobile menu, whatever it was; the cart is untouched. */
  function Navigate(s: AppState, page: Page): (r: AppState)
    ensures r.page == page && !r.menuOpen
    ensures r.cart == s.cart && r.contactSubmitted == s.contactSubmitted
  {
    s.(page := page, menuOpen := false)
  }

  /** The menu button flips the mobile-menu flag. */
  function ToggleMenu(s: AppState): (r: AppState)
    ensures r.menuOpen != s.menuOpen
    ensures r.page == s.page && r.cart == s.cart && r.contactSubmitted == s.contactSubmitted
  {
    s.(menuOpen := !s.menuOpen)
  }

  /**
   The checkout form's submit handler: `onOrderPlaced` (which is `clearCart`)
   and then `navigate('home')`.
   */
  function PlaceOrder(s: AppState): (r: AppState)
    ensures r.page == Home && !r.menuOpen
    ensures Valid(r.cart) && Total(r.cart) == 0 && Count(r.cart) == 0
    ensures forall id :: QuantityOf(r.cart, id) == 0
    ensures r.contactSubmitted == s.contactSubmitted
  {
    Navigate(s.(cart := ClearCart()), Home)
  }

  /** The user interactions the root component handles. */
  datatype Event =
    | Go(target: Page)
    | MenuButton
    | Add(product: Product)
    | Remove(id: int)
    | Update(id: int, delta: int)
    | SubmitOrder
    | SubmitContact
    | ContactTimeout

  /** Apply one event. The cart handlers only ever replace the cart. */
  function Step(s: AppState, e: Event): (r: AppState)
    ensures e.Go? ==> r.page == e.target && !r.menuOpen
    ensures e.SubmitOrder? ==> r.page == Home && !r.menuOpen && |r.cart| == 0
    ensures (e.Add? || e.Remove? || e.Update?) ==>
              r.page == s.page && r.menuOpen == s.menuOpen && r.contactSubmitted == s.contactSubmitted
  {
    match e
    case Go(target) => Navigate(s, target)
    case MenuButton => ToggleMenu(s)
    case Add(product) =>
      s.(cart := AddToCart(s.cart, product))
    case Remove(id) =>
      s.(cart := RemoveFromCart(s.cart, id))
    case Update(id, delta) =>
      s.(cart := UpdateQuantity(s.cart, id, delta))
    case SubmitOrder => PlaceOrder(s)
    case SubmitContact => s.(contactSubmitted := true)
    case ContactTimeout => s.(contactSubmitted := false)
  }

  /** Apply the events of `es` in order. */
  function Run(s: AppState, es: seq<Event>): AppState
    decreases |es|
  {
    if |es| == 0 then s else Run(Step(s, es[0]), es[1..])
  }

  /** Every event keeps the cart invariant. */
  lemma StepPreservesValid(s: AppState, e: Event)
    requires Valid(s.cart)
    ensures Valid(Step(s, e).cart)
  {
    match e
    case Add(product) => AddPreservesValid(s.cart, product);
    case Remove(id) => RemovePreservesValid(s.cart, id);
    case Update(id, delta) => UpdatePreservesValid(s.cart, id, delta);
    case _ =>
  }

  /** Every state the storefront can reach from its start keeps the cart invariant. */
  lemma {:induction false} ReachableCartsAreValid(s: AppState, es: seq<Event>)
    requires Valid(s.cart)
    ensures Valid(Run(s, es).cart)
    decreases |es|
  {
    if |es| > 0 {
      StepPreservesValid(s, es[0]);
      ReachableCartsAreValid(Step(s, es[0]), es[1..]);
    }
  }

  /** Navigating twice to the same page is navigating once; the last navigation wins. */
  lemma NavigateLastWins(s: AppState, p: Page, q: Page)
    ensures Navigate(Navigate(s, p), q) == Navigate(s, q)
    ensures Navigate(Navigate(s, p), p) == Navigate(s, p)
  {
  }

  /** A menu toggle before a navigation makes no difference: navigating closes the menu either way. */
  lemma NavigateClosesToggledMenu(s: AppState, p: Page)
    ensures Navigate(ToggleMenu(s), p) == Navigate(s, p)
  {
  }

  /** The contact acknowledgment is a two-state flag: the timeout reverts it, and reverting twice is reverting once. */
  lemma ContactTimeoutIsIdempotent(s: AppState)
    ensures Step(Step(s, ContactTimeout), ContactTimeout) == Step(s, ContactTimeout)
    ensures !Step(Step(s, SubmitContact), ContactTimeout).contactSubmitted
  {
  }
}
