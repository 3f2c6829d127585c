# FashionHub shopping cart, modelled in Dafny

This project models the shopping cart of the FashionHub storefront, a React and Redux
application.

The core is the cart slice (`src/redux/cartSlice.ts`). It keeps one ordered list of line
items, each a copy of a product's id, title, price and image plus a quantity. Four reducers
change the list:

- `addToCart` bumps the row for the product, or appends a new row with quantity 1.
- `deleteFromCart` filters the row out.
- `increseQuantity` bumps an existing row.
- `decreseQuantity` takes one unit off a row, or filters the row out when it holds a single unit.

Module `CartSlice` has a specification function for each reducer (`Added`, `Without`,
`Increased`, `Decreased`), built on the recursive `IndexOf`, `Bump` and `Without`. Class `CartSlice.CartState` holds the list and updates
it in place, index by index, as the reducers do on their draft. Each of its methods is
proved to produce exactly what its specification function gives. The lemmas beside them state
what each reducer does and that every reachable list keeps two invariants: all quantities
are at least one, and no two rows share an id.

Around the slice, four components derive values from cart state, and each has a module:

- `CartView` (`Cart.tsx`): the signed-in user's rows, looked up with an empty default. Also
  the unit count and price total, both left folds as `reduce` computes them, the heading
  wording, and when the decrease button is disabled.
- `NavbarView` (`Navbar.tsx`): the unit count, the cart badge with its "99+" cap, and signing
  out.
- `ProductListView` (`ProductList.tsx`): the category filter and the sign-in gate on "Add To
  Cart".
- `ProductDetailsView` (`ProductDetails.tsx`): the product lookup by id, the quantity
  selector clamped at one, the subtotal, and the button that dispatches `addToCart` once per
  selected unit.

`Decimal` renders an integer as the text JSX shows. `Catalog` holds the product record,
and `Wrappers` holds `Option`.

Prices are whole cents (`int`), so every total is an exact sum. A dispatch is a direct call
of the reducer method. The catalog is an input sequence. The signed-in user is an
`Option<string>` email.

## Wiring between the components and the slice

The components and the slice do not agree with each other, and the model keeps the two
sides apart rather than invent a bridge:

- The slice keeps a single `items` list and reads an action's payload directly as a product
  (`addToCart`) or an id (the other three) (`src/redux/cartSlice.ts:11-17`, `24`, `35`, `40`, `49`).
- The components read the cart state as a map from user email to rows (`Cart.tsx:27`,
  `Navbar.tsx:31`). They dispatch `{userId, product}` and `{userId, productId}` payloads
  (`ProductDetails.tsx:62`, `ProductList.tsx:21`, `Cart.tsx:143-146`).
- `Cart.tsx` imports `increaseQuantity` and `decreaseQuantity`, but the slice exports
  `increseQuantity` and `decreseQuantity` (`cartSlice.ts:61`).

So the reducer is modelled as written, on one list keyed by item id. The components' lookup
is modelled separately as `CartView.Store`, a `map<string, seq<Item>>` read with an empty
default.

Where a component's action is composed with a reducer, the model hands the reducer the
product or id it reads. This applies to `ProductListView.HandleAdd`,
`ProductDetailsView.HandleAddToCart` and `CartView.EnabledDecreaseKeepsRow`. These
compositions therefore state what the components evidently intend, not what the code as
written does. As written, the wrapped payloads would reach the reducer with no `id` field,
and the cart page's two quantity buttons would call functions the slice does not export.

There is no per-user reducer and no operation that clears a cart, so neither is modelled.

## Model

| member | source | states |
|---|---|---|
| `CartSlice.CartState.constructor` | src/redux/cartSlice.ts:15-17 | The initial state is the empty list, which satisfies the invariant. |
| `CartSlice.IndexOf` | src/redux/cartSlice.ts:25 | `find` yields the first row whose id matches, or nothing when no row does. |
| `CartSlice.CartState.Find` | src/redux/cartSlice.ts:25 | The scan over the list returns exactly the first matching position, or none. |
| `CartSlice.BumpAt` | src/redux/cartSlice.ts:27-28 | `present.quantity += delta` changes only the quantity of the row `find` returned; with no such row the list is unchanged. |
| `CartSlice.AddToCartEffect` | src/redux/cartSlice.ts:23-32 | On an absent id, `addToCart` appends the product's row with quantity 1 at the end and leaves earlier rows unchanged. On a present id, it adds 1 to that row and keeps the length, the order and all other rows. |
| `CartSlice.AddToCartQuantity` | src/redux/cartSlice.ts:23-32 | After `addToCart` the product is present with its previous quantity (or 0) plus 1, and no other product's quantity changes. |
| `CartSlice.CartState.AddToCart` | src/redux/cartSlice.ts:23-32 | The in-place update yields exactly `Added` of the old list and keeps the invariant. |
| `CartSlice.Without` | src/redux/cartSlice.ts:36 | The filter keeps exactly the rows whose id differs, and never lengthens the list. |
| `CartSlice.WithoutConcat` | src/redux/cartSlice.ts:36 | The filter distributes over concatenation, so the rows it keeps stay in their original order. |
| `CartSlice.DeleteFromCartEffect` | src/redux/cartSlice.ts:34-37 | After `deleteFromCart` no row has the id and every other row is kept. An absent id changes nothing. With unique ids, exactly the found row is cut out and the rest stay in order. |
| `CartSlice.DeleteIdempotent` | src/redux/cartSlice.ts:36 | Deleting the same id twice gives the same list as deleting it once. |
| `CartSlice.CartState.DeleteFromCart` | src/redux/cartSlice.ts:34-37 | Reassigning the list to the filtered list yields `Without` of the old list and keeps the invariant. |
| `CartSlice.AddThenDeleteRestores` | src/redux/cartSlice.ts:23-37 | Adding a product whose id was absent and then deleting that id restores the list exactly. |
| `CartSlice.IncreseQuantityEffect` | src/redux/cartSlice.ts:39-46 | `increseQuantity` never changes the length. It adds 1 to the matching row only, and leaves the list identical when no row matches. |
| `CartSlice.CartState.IncreseQuantity` | src/redux/cartSlice.ts:39-46 | The in-place update yields exactly `Increased` of the old list and keeps the invariant. |
| `CartSlice.DecreseQuantityEffect` | src/redux/cartSlice.ts:48-57 | `decreseQuantity` is a no-op on an absent id. A row of quantity 1 is removed, and with unique ids exactly that row is cut out. Any other found row loses one unit in place. |
| `CartSlice.CartState.DecreseQuantity` | src/redux/cartSlice.ts:48-57 | The in-place update yields exactly `Decreased` of the old list and keeps the invariant. |
| `CartSlice.AddedWellFormed` | src/redux/cartSlice.ts:23-32 | `addToCart` keeps quantities at least 1 and ids unique. |
| `CartSlice.WithoutWellFormed` | src/redux/cartSlice.ts:34-37 | `deleteFromCart` keeps quantities at least 1 and ids unique. |
| `CartSlice.IncreasedWellFormed` | src/redux/cartSlice.ts:39-46 | `increseQuantity` keeps quantities at least 1 and ids unique. |
| `CartSlice.DecreasedWellFormed` | src/redux/cartSlice.ts:48-57 | `decreseQuantity` keeps quantities at least 1 and ids unique, because a row of one unit is removed and never drops to zero. |
| `CartSlice.RunWellFormed` | src/redux/cartSlice.ts:22-58 | Any sequence of dispatched actions from a well-formed list ends in a well-formed list. |
| `CartSlice.ReachableWellFormed` | src/redux/cartSlice.ts:15-57 | Every list reachable from the initial empty state has all quantities at least 1 and unique ids. |
| `CartSlice.AddedTimesQuantity` | src/redux/cartSlice.ts:23-32 | `n` consecutive adds of a product leave it present with its previous quantity (or 0) plus `n`, and change no other product's quantity. |
| `CartView.UserCart` | src/components/Cart.tsx:26-28 | With no signed-in user, or no entry for the user's email, the rows are the empty list. Otherwise they are the stored rows. |
| `CartView.MissingEntryReadsAsEmpty` | src/components/Cart.tsx:27 | A missing entry and an entry holding no rows read the same for every user. |
| `CartView.ReduceConcat` | src/components/Cart.tsx:30-44 | The `reduce` fold used for both totals is additive over concatenation, so it is the sum over the rows. |
| `CartView.TotalItemsAtLeastRows` | src/components/Cart.tsx:39-44 | When every row holds at least one unit, `totalItems` is at least the number of rows, so it is non-negative and zero only for an empty cart. |
| `CartView.TotalItemsAfterAdd` | src/components/Cart.tsx:39-44 | Every `addToCart` raises `totalItems` by exactly one. |
| `CartView.TotalItemsAfterIncrease` | src/components/Cart.tsx:39-44 | `increseQuantity` raises `totalItems` by one when the row exists, and by nothing otherwise. |
| `CartView.TotalItemsAfterDecrease` | src/components/Cart.tsx:39-44 | With unique ids, `decreseQuantity` lowers `totalItems` by exactly one when the row exists, including when it removes the row, and by nothing otherwise. |
| `CartView.TotalItemsAfterDelete` | src/components/Cart.tsx:39-44 | With unique ids, `deleteFromCart` lowers `totalItems` by the deleted row's quantity. |
| `CartView.TotalPriceAfterAdd` | src/components/Cart.tsx:30-37 | The exact `totalPrice`, before rounding, rises on an add by the unit price of the row that took the unit. |
| `CartView.HeadingWording` | src/components/Cart.tsx:90-94 | An empty cart reads "Your cart is empty". Otherwise the heading is "1 item in your cart" exactly when `totalItems` is 1, and for any other count it is the count's digits followed by " items in your cart". For positive rows that means exactly one row of quantity one. |
| `CartView.EnabledDecreaseKeepsRow` | src/components/Cart.tsx:149 | In a well-formed cart the decrease button is disabled exactly at quantity 1. When it is enabled, a decrease keeps the row with one unit fewer, so this button never removes a row. |
| `Decimal.NatToStringRoundTrip` | src/components/Navbar.tsx:143 | The digits rendered for a count read back as the same count. |
| `NavbarView.TotalCountRange` | src/components/Navbar.tsx:31-35 | With no user, or no entry for the email, `totalCount` is 0. When every stored cart has positive rows it is never negative, and it is zero only for an empty cart. |
| `NavbarView.CartBadgeLabel` | src/components/Navbar.tsx:141-145 | The badge is shown exactly when `totalCount > 0`. It reads "99+" above 99, and otherwise digits that parse back to the exact count. It is never longer than three characters. The menu copy at lines 259-263 renders the same badge. |
| `NavbarView.Logout` | src/components/Navbar.tsx:25-29 | Signing out clears the current user and leaves the cart state as it was. |
| `NavbarView.LogoutKeepsCarts` | src/components/Navbar.tsx:25-35 | After signing out the badge is hidden, and each user's rows remain for the next sign-in. |
| `ProductListView.InCategory` | src/components/ProductList.tsx:28 | The filter keeps exactly the catalog entries of the category, and never more entries than the catalog has. |
| `ProductListView.InCategoryConcat` | src/components/ProductList.tsx:28 | The filter distributes over concatenation, so it keeps catalog order. |
| `ProductListView.FilteredProductsSpec` | src/components/ProductList.tsx:13-28 | The default category "All" yields the whole catalog unchanged and in order. Any other category yields exactly its entries, in catalog order. Filtering the result again changes nothing. |
| `ProductListView.HandleAdd` | src/components/ProductList.tsx:17-23 | With no signed-in user the cart is untouched. Otherwise exactly one `addToCart` of the entry is applied. |
| `ProductDetailsView.FindProduct` | src/components/ProductDetails.tsx:19-21 | The lookup yields the first catalog entry with the route's id. It yields nothing, the not-found branch, exactly when no entry has that id. |
| `ProductDetailsView.IncrementQuantity` | src/components/ProductDetails.tsx:68 | "+" adds exactly 1, and one "-" undoes it from any quantity of at least 1. |
| `ProductDetailsView.DecrementQuantity` | src/components/ProductDetails.tsx:69 | "-" lowers a quantity above 1 by one and turns 1 or less into 1, so the result is never below 1. |
| `ProductDetailsView.SelectorBounds` | src/components/ProductDetails.tsx:68-69 | From any start of at least 1, any sequence of presses leaves the selector between 1 and the start plus the number of "+" presses. |
| `ProductDetailsView.SelectorFromInitial` | src/components/ProductDetails.tsx:15 | From the page's initial quantity of 1 (`useState(1)`), any sequence of presses leaves the selector between 1 and 1 plus the number of "+" presses. |
| `ProductDetailsView.AddedTimesTotals` | src/components/ProductDetails.tsx:61-63 | Adding `n` units raises the cart's unit count by `n` and its exact price total by the page's subtotal, price × `n`, when the cart's rows for the product were copied from the same catalog entry. |
| `ProductDetailsView.NewRowSubtotal` | src/components/ProductDetails.tsx:289 | A product absent from the cart and added `n` times becomes a row whose subtotal on the cart page equals the product page's subtotal. |
| `ProductDetailsView.HandleAddToCart` | src/components/ProductDetails.tsx:57-66 | With no signed-in user the cart is untouched. Otherwise `addToCart` is applied `quantity` times, and the product ends up present with its previous quantity (or 0) plus `quantity`. |

## Left out

- JSX markup, CSS classes, SVG icons, the image gallery (`selectedImage`) and the star-rating display are presentation only.
- Routing, `useNavigate`, lazy loading, `Suspense`, `ErrorBoundary`, `React.memo`, `useMemo`, `useSelector` and `useDispatch` are framework glue. A dispatch is modelled as a direct call.
- Toast notifications are I/O. Only the branch each one marks, where nothing is dispatched, is modelled.
- `src/redux/store.ts` only calls `configureStore` from Redux Toolkit.
- `src/App.tsx`, `LoginForm.tsx`, `Features.tsx`, `Hero.tsx`, `Model.tsx` and `Footer.tsx` are form plumbing, static markup, a DOM portal and a `new Date()` call.
- The user slice and the `PRODUCTS` catalog are not part of this model. The catalog is an input sequence, and signing out is assumed to clear the current user.
- The navigation bar's category buttons (`handleCategoryClick`, `selectedCategory`) only forward a string to the product list, and are not modelled.
- JavaScript numbers are floating point. Prices are whole cents and quantities are integers here, so every total is exact and the `toFixed(2)` rounding is not modelled.
- `addToCart` spreads every field of the product into the new row. The model keeps only the fields of the `cartProduct` interface: id, title, price, image and quantity.
- `find` returns a reference into the draft, and `present.quantity += 1` mutates it in place. The model replaces the row at the found index, which gives the same list, but aliasing of the row object is not modelled.
- `NavbarView.TotalCountRange`: claims non-negativity only when every stored cart has positive quantities, because the component-side store is external and nothing in the components enforces that.
- `ProductListView.HandleAdd`, `ProductDetailsView.HandleAddToCart`, `CartView.EnabledDecreaseKeepsRow`: hand the reducer the product or id directly, not the `{userId, ...}` payloads the components build. As written those payloads do not match what the slice reads (see the wiring section above).
- There is no per-user reducer, no `clearCart`, and no catalog search, sort or pagination in the code, so none is modelled.
