# Cleanix storefront — a Dafny model of the shop state

The storefront is a single-page React shop (`App.tsx`). Its root component holds four pieces of state:

- the current page;
- the shopping cart;
- the mobile-menu flag;
- the contact-form acknowledgment flag.

The products page derives a filtered and sorted listing from a static catalog. This project models that state and logic as pure Dafny functions over immutable datatypes, and proves what the handlers promise.

- **Sequences** (`sequences.dfy`): generic helpers.
  - `Distinct` works like `Array.from(new Set(xs))`: it keeps the first occurrence of each value, in order.
  - `FirstIndex`, `Occurrences` and `IsSubsequence` are used to state order properties.
- **Catalog** (`catalog.dfy`): the `Product` record, and the products page's `useMemo` computations.
  - The category list is `"All"` followed by the distinct categories.
  - The exact-category filter is skipped for `"All"`.
  - The price sort is a stable insertion sort, ascending or descending, as ECMAScript 2019 requires of `Array.prototype.sort` (section 22.1.3.27 of ECMA-262, 10th edition).
  - `Listing` composes the filter and the sort, keyed on the same strings the page compares against. The category list is computed separately.
- **CartStore** (`cart.dfy`): the cart as a `seq<CartItem>` and its handlers.
  - `addToCart`, `removeFromCart`, `updateQuantity` and `clearCart`.
  - The two `reduce` sums, `cartTotal` and `cartCount`, written as loops.
  - The cart invariant `Valid`: unique ids and positive quantities.
- **CartProperties** (`cart_lemmas.dfy`): lemmas relating the handlers to each other, to the invariant and to the sums.
- **Shell** (`shell.dfy`): the root component's state.
  - `navigate`, the menu button and the checkout submit effect (`clearCart`, then `navigate('home')`).
  - The contact flag.
  - An `Event` type with a `Step`/`Run` interpreter, used to prove that every reachable cart satisfies the invariant.
- **StorefrontExamples** (`examples.dfy`): the store's nine products as a witness catalog, with worked examples.

Prices and quantities are integers. Every line of the source that matters here performs integer arithmetic on small values, so no floating-point behaviour is modelled.

## Model

| member | source | states |
|---|---|---|
| CartStore.AddToCart | App.tsx:706-713 | if the id is already in the cart: same length and same product records; each line with that id gains exactly one unit; every other line is unchanged. Otherwise: the old cart is kept as a prefix and one line `(product, 1)` is appended at the end |
| CartProperties.AddPreservesValid | App.tsx:706-713 | adding any product keeps ids unique and every quantity at least 1 |
| CartProperties.AddExistingBumpsItsLine | App.tsx:708-710 | on a cart with unique ids, re-adding the product at line i is exactly "set line i's quantity to q+1"; nothing else changes |
| CartProperties.AddAddsOneUnit | App.tsx:706-713 | on a cart with unique ids, one add raises the item count by 1 and raises the added id's unit count by 1; every other id's units are unchanged |
| CartProperties.AddExistingRaisesTotal | App.tsx:708-710 | re-adding raises the total by the price stored in the existing line, not by the argument's price |
| CartProperties.AddNewRaisesTotal | App.tsx:712 | adding a new id raises the total by that product's price |
| CartProperties.AddExtendsIds | App.tsx:706-713 | the line ids after an add are the old ids, plus the new id at the end if it was absent |
| CartProperties.AddAllIsValid | App.tsx:706-713 | any sequence of adds starting from the empty cart gives a valid cart |
| CartProperties.AddAllOrdersByFirstAdd | App.tsx:706-713 | after any sequence of adds, the cart's ids are the distinct added ids in first-added order: one line per distinct id |
| CartProperties.AddAllLinesComeFromAdds | App.tsx:706-713 | every line of a cart built by adds holds one of the added products |
| CartProperties.AddAllTotalNonNegative | App.tsx:706-713 | adding products of a catalog with unique ids and non-negative prices never gives a negative total |
| CartProperties.AddAllCountsAdds | App.tsx:706-713 | after any sequence of adds, each id's quantity equals the number of times it was added |
| CartProperties.AddAgainIsPlusOne | App.tsx:708-710 | with positive quantities and the id present, re-adding equals `updateQuantity(id, +1)` |
| CartStore.RemoveFromCart | App.tsx:716-718 | no kept line has the id; every kept line came from the cart; every line with another id is kept; an absent id is a no-op |
| CartProperties.RemoveDeletesItsLine | App.tsx:716-718 | on a cart with unique ids, removing the id of line i gives exactly `cart[..i] + cart[i+1..]` |
| CartProperties.RemoveKeepsOrder | App.tsx:717 | the result is a subsequence of the cart, so relative order is kept |
| CartProperties.RemoveIsIdempotent | App.tsx:716-718 | removing the same id twice is removing it once |
| CartProperties.RemovePreservesValid | App.tsx:716-718 | removal keeps the cart invariant |
| CartProperties.RemoveZeroesItsUnits | App.tsx:716-718 | afterwards the removed id has 0 units and every other id's units are unchanged |
| CartProperties.RemoveLowersTotals | App.tsx:716-718 | removing line i lowers the total by price*quantity of that line and the count by its quantity |
| CartStore.UpdateQuantity | App.tsx:720-727 | same length and products; lines with the id get `max(1, q + delta)`; all other lines keep their quantity |
| CartProperties.UpdateTargetsItsLine | App.tsx:720-727 | on a cart with unique ids, the update is "set line i's quantity to max(1, q+delta)" and nothing else changes |
| CartProperties.UpdateAbsentIsNoOp | App.tsx:720-727 | an id not in the cart leaves the cart identical |
| CartProperties.UpdatePreservesValid | App.tsx:720-727 | for any integer delta, quantities stay at least 1, no line is removed, and ids and their order are unchanged |
| CartProperties.UpdateMovesCount | App.tsx:720-727 | the count moves by `max(1, q+delta) - q` and only the target id's units change |
| CartStore.ClearCart | App.tsx:730-732 | the cleared cart is valid, totals 0, counts 0 and holds no units of any id |
| CartStore.ReduceTotal | App.tsx:734 | the left-to-right `reduce` from 0 of `price * quantity` equals the recursive sum `Total` |
| CartStore.ReduceCount | App.tsx:735 | the left-to-right `reduce` from 0 of `quantity` equals the recursive sum `Count` |
| CartStore.TotalAppend | App.tsx:734 | the total of a concatenation is the sum of the totals |
| CartStore.CountAppend | App.tsx:735 | the count of a concatenation is the sum of the counts |
| CartStore.CountAtLeastLines | App.tsx:735 | with every quantity at least 1, the item count is at least the number of lines |
| CartStore.TotalNonNegative | App.tsx:734 | with non-negative prices and positive quantities, the total is non-negative |
| Catalog.Categories | App.tsx:282 | the list starts with "All" and the categories after it are pairwise distinct |
| Catalog.CategoriesAreTheCatalogCategories | App.tsx:282 | every listed category (after "All") is some product's category, and every product's category is listed |
| Catalog.CategoriesInFirstOccurrenceOrder | App.tsx:282 | the listed categories appear in the order of their first occurrence in the catalog |
| Sequences.DistinctFirstOccurrenceOrder | App.tsx:282 | the `Set` de-duplication keeps values in first-occurrence order |
| Catalog.OfCategory | App.tsx:289 | the filter keeps exactly the catalog products whose category equals the selection |
| Catalog.OfCategoryCounts | App.tsx:289 | each product occurs as often in the filter as in the catalog when its category matches, and never otherwise |
| Catalog.OfCategoryKeepsOrder | App.tsx:289 | the filter result is a subsequence of the catalog |
| Catalog.FilterByCategory | App.tsx:285-290 | "All" keeps every product; any other selection keeps exactly the products of that category |
| Catalog.Insert | App.tsx:293-297 | inserting into a sorted list keeps it sorted by the chosen key; every element comes from the list or is the new one |
| Catalog.InsertPermutes | App.tsx:293-297 | insertion adds exactly one copy of the element (as a multiset) |
| Catalog.Sort | App.tsx:293-297 | the sort is a permutation of its input and sorted by the key |
| Catalog.SortIsStable | App.tsx:293-297 | for each price, the products with that price appear in the same order before and after sorting |
| Catalog.StableSortIsUnique | App.tsx:293-297 | two lists sorted by the same key that agree on the order within every price are equal |
| Catalog.Listing | App.tsx:284-300 | the result is a permutation of the filtered catalog and holds exactly the matching products. "price-low" is non-decreasing in price and "price-high" non-increasing; any other sort string gives the filtered catalog unchanged |
| Catalog.ListingKeepsTiesInCatalogOrder | App.tsx:293-297 | products with equal price keep their catalog order in the listing, for every sort string |
| Catalog.ListingIsTheStableSort | App.tsx:293-297 | for "price-low"/"price-high", any price-sorted arrangement of the filtered catalog that keeps ties in catalog order is the listing |
| Catalog.FeaturedKeepsCatalogOrder | App.tsx:284-299 | for "featured" (any sort string other than the two price sorts), the listing is a subsequence of the catalog |
| Shell.Init | App.tsx:699-703 | the start state is the home page with an empty, valid cart, a closed menu and no acknowledgment |
| Shell.Navigate | App.tsx:738-742 | the target page is shown and the menu is closed whatever it was; the cart and the contact flag are kept |
| Shell.NavigateLastWins | App.tsx:738-742 | two navigations equal the last one; navigating to the same page again changes nothing |
| Shell.NavigateClosesToggledMenu | App.tsx:738-742 | toggling the menu just before a navigation makes no difference |
| Shell.ToggleMenu | App.tsx:126 | the menu button flips the menu flag and changes nothing else |
| Shell.PlaceOrder | App.tsx:576-577 | after the checkout submit the cart is empty (total 0, count 0), the page is home and the menu is closed |
| Shell.Step | App.tsx:699-791 | the root component's event wiring: each event goes to its handler (cart handlers 706-735, `navigate` 738-742, the menu button 126, the contact submit and timeout 388-389, the order submit 576-577). A navigation event shows its target with the menu closed; an order submit leaves an empty cart on the home page; cart events leave page and flags alone |
| Shell.StepPreservesValid | App.tsx:706-732 | every event keeps the cart invariant |
| Shell.ReachableCartsAreValid | App.tsx:699-742 | from a valid cart, any sequence of events leaves a valid cart |
| Shell.ContactTimeoutIsIdempotent | App.tsx:388-389 | the acknowledgment is a two-state flag that the timeout always turns off |
| StorefrontExamples.StoreCatalogIsWellFormed | App.tsx:43-53 | the nine products have distinct ids and non-negative prices |
| StorefrontExamples.DistinctStoreCategories | App.tsx:282 | the distinct categories of the store's catalog column are Cleaning, Fragrance, Laundry, Personal Care, Automotive, in that order |
| StorefrontExamples.LaundryHighToLow | App.tsx:284-300 | filtering the store to "Laundry" gives the one detergent, under "price-high" and under "featured" |
| StorefrontExamples.WorkedCartLines | App.tsx:706-713 | adding toilet cleaner, toilet cleaner, bathroom cleaner gives two lines with quantities 2 and 1 |
| StorefrontExamples.WorkedCartTotals | App.tsx:734-735 | that cart totals 407 and counts 3 |
| StorefrontExamples.WorkedCartFloor | App.tsx:720-727 | `updateQuantity(1, -5)` on it stops at quantity 1 and keeps the line |
| StorefrontExamples.OrderFromCheckout | App.tsx:576-577 | submitting an order from the checkout page with the menu open gives home, an empty cart and a closed menu |

## Left out

- JSX rendering, SVG bottle art, motion animations and CSS classes: presentational only.
- `window.scrollTo(0, 0)` inside `navigate`: a browser side effect with no state in the model.
- The `localStorage.setItem` and `window.location.href` redirect in the cart page, `window.open` to WhatsApp, and the logo's `onError` fallback: browser I/O.
- The checkout order id (`Math.random`) and the `alert`: nondeterministic, floating point, and the id is discarded. `PlaceOrder` models only the state change.
- The five-second `setTimeout` that reverts the contact acknowledgment: the timer is not modelled. The revert is the `ContactTimeout` event, which may arrive at any point.
- Checkout and contact form field state and the browser's `required` validation: DOM-level, with no logic of the component's own.
- The home page's "featured" strip (`PRODUCTS.slice(0, 4)`): presentation of the catalog, not part of the state logic.
- Page values are the closed enumeration `Page`. The category selection and the sort key are plain strings, as the page compares them, so any sort string other than "price-low"/"price-high" keeps catalog order.
- JavaScript numbers are modelled as unbounded integers. The store's prices and quantities are small integers, so neither rounding nor overflow can arise.
- Catalog.Categories: the contract asks for distinctness only after the leading "All". If a catalog product's own category were the string "All", it would be listed twice, exactly as the source's `['All', ...new Set(...)]` does.

Two details of the handlers that the model keeps as the code has them:

- `addToCart` and `updateQuantity` act on every line with the id (`map`), and `removeFromCart` drops every such line (`filter`). Under the unique-id invariant this is the same as acting on the one matching line, which the lemmas above state separately.
- Re-adding a product keeps the stored line's product fields (the spread is of the existing item), so a changed price is not picked up.
