/** The product page: finding the product for the route's id, the quantity selector, the
    subtotal it shows, and its "Add to cart" button, which dispatches `addToCart` once per
    selected unit. */
module ProductDetailsView {
  import opened Wrappers
  import opened Catalog
  import opened CartSlice
  import opened CartView

  /** `PRODUCTS.find((p) => p.id === id)`; None is the "Product Not Found" page. */
  function FindProduct(catalog: seq<Product>, id: string): (r: Option<Product>)
    ensures r.None? <==> forall i :: 0 <= i < |catalog| ==> catalog[i].id != id
    ensures forall i ::
      (0 <= i < |catalog| && catalog[i].id == id && forall j :: 0 <= j < i ==> catalog[j].id != id)
      ==> r == Some(catalog[i])
  {
    if catalog == [] then None
    else if catalog[0].id == id then Some(catalog[0])
    else FindProduct(catalog[1..], id)
  }

  // ---------------------------------------------------------------------------------
  // The quantity selector
  // ---------------------------------------------------------------------------------

  /** `useState(1)`. */
  const InitialQuantity: int := 1

  /** The "+" button: exactly one more, undone by one "-". */
  function IncrementQuantity(q: int): (r: int)
    ensures r - q == 1
    ensures q >= 1 ==> DecrementQuantity(r) == q
  {
    q + 1
  }

  /** The "-" button: one fewer, but never below one. */
  function DecrementQuantity(q: int): (r: int)
    ensures r >= 1
    ensures q > 1 ==> r == q - 1
    ensures q <= 1 ==> r == 1
  {
    if q > 1 then q - 1 else 1
  }

  datatype Press = Plus | Minus

  /** The selector's value after a sequence of presses. */
  function AfterPresses(q: int, presses: seq<Press>): int
    decreases |presses|
  {
    if presses == [] then q
    else AfterPresses(
      if presses[0] == Plus then IncrementQuantity(q) else DecrementQuantity(q), presses[1..])
  }

  function Pluses(presses: seq<Press>): nat
  {
    if presses == [] then 0 else (if presses[0] == Plus then 1 else 0) + Pluses(presses[1..])
  }

  /** Whatever the presses, the selector stays at one or more, and never above the start
      plus the number of "+" presses. */
  lemma {:induction false} SelectorBounds(q: int, presses: seq<Press>)
    requires q >= 1
    ensures 1 <= AfterPresses(q, presses) <= q + Pluses(presses)
    decreases |presses|
  {
    if presses != [] {
      var next := if presses[0] == Plus then IncrementQuantity(q) else DecrementQuantity(q);
      SelectorBounds(next, presses[1..]);
    }
  }

  /** From the page's initial quantity of one, the selector never shows less than one nor
      more than one plus the number of "+" presses. */
  lemma SelectorFromInitial(presses: seq<Press>)
    ensures 1 <= AfterPresses(InitialQuantity, presses) <= 1 + Pluses(presses)
  {
    SelectorBounds(InitialQuantity, presses);
  }

  /** The subtotal under the selector: `product.price * quantity`, before `toFixed(2)`. */
  function Subtotal(p: Product, quantity: int): int
  {
    p.price * quantity
  }

  // ---------------------------------------------------------------------------------
  // Adding the selected quantity
  // ---------------------------------------------------------------------------------

  /** Rows for the product carry the product's price (they were copied from it). */
  ghost predicate PricedAs(s: seq<Item>, p: Product)
  {
    forall i :: 0 <= i < |s| && s[i].id == p.id ==> s[i].price == p.price
  }

  lemma AddedPricedAs(s: seq<Item>, p: Product)
    requires PricedAs(s, p)
    ensures PricedAs(Added(s, p), p)
  {
    BumpAt(s, p.id, 1);
  }

  /** Adding `n` units from the product page raises the cart's unit count by `n` and its
      price total by exactly the subtotal the page showed, when the cart's rows for the
      product were copied from the same catalog entry. */
  lemma {:induction false} AddedTimesTotals(s: seq<Item>, p: Product, n: nat)
    requires PricedAs(s, p)
    ensures PricedAs(AddedTimes(s, p, n), p)
    ensures TotalItems(AddedTimes(s, p, n)) == TotalItems(s) + n
    ensures TotalPrice(AddedTimes(s, p, n)) == TotalPrice(s) + Subtotal(p, n)
  {
    if n > 0 {
      var t := AddedTimes(s, p, n - 1);
      AddedTimesTotals(s, p, n - 1);
      AddedPricedAs(t, p);
      TotalItemsAfterAdd(t, p);
      TotalPriceAfterAdd(t, p);
      assert p.price * (n - 1) + p.price == p.price * n;
    }
  }

  /** A product the cart did not hold, added `n` times, becomes one row whose subtotal on
      the cart page equals the product page's subtotal. */
  lemma {:induction false} NewRowSubtotal(s: seq<Item>, p: Product, n: nat)
    requires !Contains(s, p.id) && n > 0
    ensures var t := AddedTimes(s, p, n);
      Contains(t, p.id) && LineTotal(t[IndexOf(t, p.id).value]) == Subtotal(p, n)
  {
    if n == 1 {
      AddToCartEffect(s, p);
      IndexOfAppend(s, NewItem(p), p.id);
    } else {
      NewRowSubtotal(s, p, n - 1);
      var t := AddedTimes(s, p, n - 1);
      AddToCartEffect(t, p);
      AddedTimesQuantity(s, p, n - 1, p.id);
      AddedTimesQuantity(s, p, n, p.id);
      SameIdsSameIndex(t, Added(t, p), p.id);
      assert p.price * (n - 1) + p.price == p.price * n;
    }
  }

  /** `handleAddToCart`: with nobody signed in nothing is dispatched (a toast asks to sign
      in); otherwise `addToCart` is dispatched `quantity` times, so the product ends up in
      the cart with `quantity` more units than before. */
  method HandleAddToCart(cart: CartState, currentUser: Option<string>, product: Product, quantity: int)
    modifies cart
    ensures currentUser.None? ==> cart.items == old(cart.items)
    ensures currentUser.Some? ==> cart.items == AddedTimes(old(cart.items), product, quantity)
    ensures currentUser.Some? && quantity > 0 ==>
      && Contains(cart.items, product.id)
      && QuantityOf(cart.items, product.id) == QuantityOf(old(cart.items), product.id) + quantity
    ensures old(cart.Valid()) ==> cart.Valid()
  {
    if currentUser.Some? {
      var i := 0;
      while i < quantity
        invariant 0 <= i && (i <= quantity || i == 0)
        invariant cart.items == AddedTimes(old(cart.items), product, i)
        invariant old(cart.Valid()) ==> cart.Valid()
      {
        cart.AddToCart(product);
        i := i + 1;
      }
      if quantity > 0 {
        AddedTimesQuantity(old(cart.items), product, quantity, product.id);
      }
    }
  }
}
