/** What the cart page derives from the cart state: the signed-in user's rows, the number of
    units, the price total, the heading wording and when the decrease button is disabled. */
module CartView {
  import opened Wrappers
  import opened Catalog
  import opened CartSlice
  import Decimal

  /** The cart state as the components read it: rows keyed by user email. */
  type Store = map<string, seq<Item>>

  /** `currentUser ? cartState[currentUser.email] || [] : []`. */
  function UserCart(store: Store, currentUser: Option<string>): (cart: seq<Item>)
    ensures currentUser.None? ==> cart == []
    ensures currentUser.Some? && currentUser.value !in store ==> cart == []
    ensures currentUser.Some? && currentUser.value in store ==> cart == store[currentUser.value]
  {
    match currentUser
    case None => []
    case Some(email) => if email in store then store[email] else []
  }

  /** A missing entry reads exactly like an entry holding no rows, whoever is signed in. */
  lemma MissingEntryReadsAsEmpty(store: Store, email: string, currentUser: Option<string>)
    requires email !in store
    ensures UserCart(store, currentUser) == UserCart(store[email := []], currentUser)
  {
  }

  // ---------------------------------------------------------------------------------
  // Totals
  // ---------------------------------------------------------------------------------

  function Quantity(it: Item): int
  {
    it.quantity
  }

  /** The subtotal shown on a row: unit price times quantity, in cents. */
  function LineTotal(it: Item): int
  {
    it.price * it.quantity
  }

  /** `cart.reduce((acc, item) => acc + f(item), acc)`, a left fold. */
  function Reduce(cart: seq<Item>, f: Item -> int, acc: int): int
    decreases |cart|
  {
    if cart == [] then acc else Reduce(cart[1..], f, acc + f(cart[0]))
  }

  /** `totalItems`: the number of units in the cart. */
  function TotalItems(cart: seq<Item>): int
  {
    Reduce(cart, Quantity, 0)
  }

  /** `totalPrice` before `toFixed(2)`: the exact sum of the row subtotals, in cents. */
  function TotalPrice(cart: seq<Item>): int
  {
    Reduce(cart, LineTotal, 0)
  }

  lemma {:induction false} ReduceAcc(cart: seq<Item>, f: Item -> int, acc: int)
    ensures Reduce(cart, f, acc) == acc + Reduce(cart, f, 0)
    decreases |cart|
  {
    if cart != [] {
      ReduceAcc(cart[1..], f, acc + f(cart[0]));
      ReduceAcc(cart[1..], f, f(cart[0]));
    }
  }

  /** The fold splits over concatenation: a cart's total is the sum of its parts' totals. */
  lemma {:induction false} ReduceConcat(a: seq<Item>, b: seq<Item>, f: Item -> int)
    ensures Reduce(a + b, f, 0) == Reduce(a, f, 0) + Reduce(b, f, 0)
    decreases |a|
  {
    if a == [] {
      assert a + b == b;
    } else {
      assert (a + b)[1..] == a[1..] + b;
      ReduceAcc(a[1..] + b, f, f(a[0]));
      ReduceAcc(a[1..], f, f(a[0]));
      ReduceConcat(a[1..], b, f);
    }
  }

  lemma ReduceSingle(x: Item, f: Item -> int)
    ensures Reduce([x], f, 0) == f(x)
  {
    assert [x][1..] == [];
  }

  /** Replacing one row changes the total by the difference of the two rows alone. */
  lemma ReduceUpdate(cart: seq<Item>, k: nat, x: Item, f: Item -> int)
    requires k < |cart|
    ensures Reduce(cart[k := x], f, 0) == Reduce(cart, f, 0) - f(cart[k]) + f(x)
  {
    assert cart == cart[..k] + ([cart[k]] + cart[k + 1..]);
    assert cart[k := x] == cart[..k] + ([x] + cart[k + 1..]);
    ReduceConcat(cart[..k], [cart[k]] + cart[k + 1..], f);
    ReduceConcat([cart[k]], cart[k + 1..], f);
    ReduceConcat(cart[..k], [x] + cart[k + 1..], f);
    ReduceConcat([x], cart[k + 1..], f);
    ReduceSingle(cart[k], f);
    ReduceSingle(x, f);
  }

  /** Removing row `k` takes exactly that row's share off the total. */
  lemma ReduceRemove(cart: seq<Item>, k: nat, f: Item -> int)
    requires k < |cart|
    ensures Reduce(cart[..k] + cart[k + 1..], f, 0) == Reduce(cart, f, 0) - f(cart[k])
  {
    assert cart == cart[..k] + ([cart[k]] + cart[k + 1..]);
    ReduceConcat(cart[..k], [cart[k]] + cart[k + 1..], f);
    ReduceConcat([cart[k]], cart[k + 1..], f);
    ReduceConcat(cart[..k], cart[k + 1..], f);
    ReduceSingle(cart[k], f);
  }

  /** In a cart whose rows all hold at least one unit, there are at least as many units as
      rows; so the count is never negative and is zero only for an empty cart. */
  lemma {:induction false} TotalItemsAtLeastRows(cart: seq<Item>)
    requires Positive(cart)
    ensures TotalItems(cart) >= |cart|
    decreases |cart|
  {
    if cart != [] {
      TotalItemsAtLeastRows(cart[1..]);
      ReduceAcc(cart[1..], Quantity, cart[0].quantity);
    }
  }

  /** An add always brings one more unit into the cart. */
  lemma TotalItemsAfterAdd(s: seq<Item>, p: Product)
    ensures TotalItems(Added(s, p)) == TotalItems(s) + 1
  {
    BumpAt(s, p.id, 1);
    if Contains(s, p.id) {
      var k := IndexOf(s, p.id).value;
      ReduceUpdate(s, k, s[k].(quantity := s[k].quantity + 1), Quantity);
    } else {
      ReduceConcat(s, [NewItem(p)], Quantity);
      ReduceSingle(NewItem(p), Quantity);
    }
  }

  /** An increase brings one more unit when the row exists, and none otherwise. */
  lemma TotalItemsAfterIncrease(s: seq<Item>, id: string)
    ensures TotalItems(Increased(s, id)) == TotalItems(s) + (if Contains(s, id) then 1 else 0)
  {
    BumpAt(s, id, 1);
    if Contains(s, id) {
      var k := IndexOf(s, id).value;
      ReduceUpdate(s, k, s[k].(quantity := s[k].quantity + 1), Quantity);
    }
  }

  /** A delete takes the whole row's quantity off the count. */
  lemma TotalItemsAfterDelete(s: seq<Item>, id: string)
    requires UniqueIds(s)
    ensures TotalItems(Without(s, id)) == TotalItems(s) - QuantityOf(s, id)
  {
    DeleteFromCartEffect(s, id);
    if Contains(s, id) {
      ReduceRemove(s, IndexOf(s, id).value, Quantity);
    }
  }

  /** A decrease takes exactly one unit off when the row exists, whether it lowers the
      quantity or removes a row of one, and changes nothing otherwise. */
  lemma TotalItemsAfterDecrease(s: seq<Item>, id: string)
    requires UniqueIds(s)
    ensures TotalItems(Decreased(s, id)) == TotalItems(s) - (if Contains(s, id) then 1 else 0)
  {
    DecreseQuantityEffect(s, id);
    if Contains(s, id) {
      var k := IndexOf(s, id).value;
      if s[k].quantity == 1 {
        TotalItemsAfterDelete(s, id);
      } else {
        ReduceUpdate(s, k, s[k].(quantity := s[k].quantity - 1), Quantity);
      }
    }
  }

  /** An add raises the price total by the unit price of the row that took the unit: the
      new row's when the product was absent, the stored row's otherwise. */
  lemma TotalPriceAfterAdd(s: seq<Item>, p: Product)
    ensures !Contains(s, p.id) ==> TotalPrice(Added(s, p)) == TotalPrice(s) + p.price
    ensures Contains(s, p.id) ==>
      TotalPrice(Added(s, p)) == TotalPrice(s) + s[IndexOf(s, p.id).value].price
  {
    BumpAt(s, p.id, 1);
    if Contains(s, p.id) {
      var k := IndexOf(s, p.id).value;
      var x := s[k].(quantity := s[k].quantity + 1);
      ReduceUpdate(s, k, x, LineTotal);
      assert s[k].price * (s[k].quantity + 1) == s[k].price * s[k].quantity + s[k].price;
    } else {
      ReduceConcat(s, [NewItem(p)], LineTotal);
      ReduceSingle(NewItem(p), LineTotal);
    }
  }

  // ---------------------------------------------------------------------------------
  // Wording and buttons
  // ---------------------------------------------------------------------------------

  /** The line under the page title. */
  function Heading(cart: seq<Item>): string
  {
    if |cart| > 0 then
      Decimal.IntToString(TotalItems(cart)) + " "
        + (if TotalItems(cart) == 1 then "item" else "items") + " in your cart"
    else "Your cart is empty"
  }

  lemma PluralWording(digits: string)
    ensures digits + " " + "items" + " in your cart" == digits + " items in your cart"
  {
    assert " " + "items" + " in your cart" == " items in your cart";
  }

  /** An empty cart says so; otherwise the singular "item" appears exactly when the cart
      holds one unit, which in a cart of positive rows means one row of quantity one, and
      any other count reads "<count> items in your cart". */
  lemma HeadingWording(cart: seq<Item>)
    ensures cart == [] ==> Heading(cart) == "Your cart is empty"
    ensures cart != [] ==> (Heading(cart) == "1 item in your cart" <==> TotalItems(cart) == 1)
    ensures cart != [] && TotalItems(cart) != 1 ==>
      Heading(cart) == Decimal.IntToString(TotalItems(cart)) + " items in your cart"
    ensures cart != [] && Positive(cart) ==>
      (Heading(cart) == "1 item in your cart" <==> |cart| == 1 && cart[0].quantity == 1)
  {
    if cart != [] {
      var n := TotalItems(cart);
      var digits := Decimal.IntToString(n);
      if n == 1 {
        assert digits == "1";
      } else {
        PluralWording(digits);
        assert |Heading(cart)| == |digits| + 19;
      }
      if Positive(cart) {
        TotalItemsAtLeastRows(cart);
        if |cart| == 1 {
          assert cart == [cart[0]];
          ReduceSingle(cart[0], Quantity);
        }
      }
    }
  }

  /** `disabled={item.quantity <= 1}` on the decrease button. */
  predicate DecreaseDisabled(it: Item)
  {
    it.quantity <= 1
  }

  /** When the decrease button is enabled, pressing it takes one unit off the row and never
      removes it; in a well-formed cart the button is disabled exactly at quantity one. */
  lemma EnabledDecreaseKeepsRow(s: seq<Item>, k: nat)
    requires WellFormed(s) && k < |s|
    ensures DecreaseDisabled(s[k]) <==> s[k].quantity == 1
    ensures !DecreaseDisabled(s[k]) ==>
      && Contains(Decreased(s, s[k].id), s[k].id)
      && QuantityOf(Decreased(s, s[k].id), s[k].id) == s[k].quantity - 1
      && |Decreased(s, s[k].id)| == |s|
  {
    var id := s[k].id;
    assert IndexOf(s, id) == Some(k) by {
      var r := IndexOf(s, id);
      assert r.Some? && !(r.value < k) && !(k < r.value);
    }
    DecreseQuantityEffect(s, id);
    var t := Decreased(s, id);
    if !DecreaseDisabled(s[k]) {
      SameIdsSameIndex(s, t, id);
    }
  }
}
