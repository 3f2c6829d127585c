/** The cart slice: a single ordered list of line items and the four reducers that change
    it. The recursive functions below are the specification of each reducer on a list of
    rows; class CartState holds the list and updates it in place, as the reducers do on
    their draft state. */
module CartSlice {
  import opened Wrappers
  import opened Catalog

  /** A line item (`cartProduct`): the product's fields copied when it was added, and how
      many of it the cart holds. */
  datatype Item = Item(id: string, title: string, price: int, image: string, quantity: int)

  /** The row `addToCart` pushes for a product the cart does not hold yet. */
  function NewItem(p: Product): Item
  {
    Item(p.id, p.title, p.price, p.image, 1)
  }

  // ---------------------------------------------------------------------------------
  // Looking rows up
  // ---------------------------------------------------------------------------------

  /** Position of the first row whose id is `id`, the row that `items.find` returns. */
  function IndexOf(s: seq<Item>, id: string): (r: Option<nat>)
    ensures r.Some? ==> r.value < |s| && s[r.value].id == id
    ensures r.Some? ==> forall j :: 0 <= j < r.value ==> s[j].id != id
    ensures r.None? ==> forall j :: 0 <= j < |s| ==> s[j].id != id
  {
    if s == [] then None
    else if s[0].id == id then Some(0)
    else match IndexOf(s[1..], id)
      case None => None
      case Some(k) => Some(k + 1)
  }

  predicate Contains(s: seq<Item>, id: string)
  {
    IndexOf(s, id).Some?
  }

  /** Quantity of the row for `id`; 0 when the cart has no such row. */
  function QuantityOf(s: seq<Item>, id: string): int
  {
    match IndexOf(s, id)
    case None => 0
    case Some(k) => s[k].quantity
  }

  /** `find` depends on the ids alone: two lists with the same ids at the same positions
      agree on every lookup. */
  lemma SameIdsSameIndex(s: seq<Item>, t: seq<Item>, id: string)
    requires |s| == |t|
    requires forall i :: 0 <= i < |s| ==> s[i].id == t[i].id
    ensures IndexOf(s, id) == IndexOf(t, id)
  {
    var a, b := IndexOf(s, id), IndexOf(t, id);
    if a.Some? && b.Some? {
      assert !(a.value < b.value) && !(b.value < a.value);
    }
  }

  /** Appending a row leaves every earlier lookup alone and makes the new row findable. */
  lemma IndexOfAppend(s: seq<Item>, x: Item, id: string)
    ensures IndexOf(s + [x], id) ==
      if Contains(s, id) then IndexOf(s, id)
      else if x.id == id then Some(|s|)
      else None
  {
    var t := s + [x];
    assert forall j :: 0 <= j < |s| ==> t[j] == s[j];
    var a, b := IndexOf(s, id), IndexOf(t, id);
    if a.Some? {
      assert b.Some? && !(a.value < b.value) && !(b.value < a.value);
    } else if x.id == id {
      assert t[|s|].id == id;
      assert b.Some? && b.value == |s|;
    } else {
      assert forall j :: 0 <= j < |t| ==> t[j].id != id;
    }
  }

  // ---------------------------------------------------------------------------------
  // The invariant every reachable cart keeps
  // ---------------------------------------------------------------------------------

  /** No row with a quantity below one: a row that would reach zero is removed instead. */
  ghost predicate Positive(s: seq<Item>)
  {
    forall i :: 0 <= i < |s| ==> s[i].quantity >= 1
  }

  /** At most one row per product id. */
  ghost predicate UniqueIds(s: seq<Item>)
  {
    forall i, j :: 0 <= i < j < |s| ==> s[i].id != s[j].id
  }

  ghost predicate WellFormed(s: seq<Item>)
  {
    Positive(s) && UniqueIds(s)
  }

  // ---------------------------------------------------------------------------------
  // The reducers, as functions on the list of rows
  // ---------------------------------------------------------------------------------

  /** `present.quantity += delta` on the row `find` returns for `id`; no such row, no change. */
  function Bump(s: seq<Item>, id: string, delta: int): seq<Item>
  {
    if s == [] then []
    else if s[0].id == id then [s[0].(quantity := s[0].quantity + delta)] + s[1..]
    else [s[0]] + Bump(s[1..], id, delta)
  }

  /** The rows whose id is not `id`, in their original order
      (`items.filter((item) => item.id !== id)`). */
  function Without(s: seq<Item>, id: string): (r: seq<Item>)
    ensures |r| <= |s|
    ensures forall x :: x in r <==> x in s && x.id != id
  {
    if s == [] then []
    else if s[0].id == id then Without(s[1..], id)
    else [s[0]] + Without(s[1..], id)
  }

  /** `addToCart`: bump the existing row, or push a new one with quantity 1. */
  function Added(s: seq<Item>, p: Product): seq<Item>
  {
    if Contains(s, p.id) then Bump(s, p.id, 1) else s + [NewItem(p)]
  }

  /** `increseQuantity`: bump the existing row; nothing otherwise. */
  function Increased(s: seq<Item>, id: string): seq<Item>
  {
    Bump(s, id, 1)
  }

  /** `decreseQuantity`: a row holding one unit is filtered out, any other found row
      loses a unit, and an absent id changes nothing. */
  function Decreased(s: seq<Item>, id: string): seq<Item>
  {
    match IndexOf(s, id)
    case None => s
    case Some(k) => if s[k].quantity == 1 then Without(s, id) else Bump(s, id, -1)
  }

  /** Bumping changes exactly the quantity of the row `find` returns. */
  lemma {:induction false} BumpAt(s: seq<Item>, id: string, delta: int)
    ensures IndexOf(s, id).None? ==> Bump(s, id, delta) == s
    ensures IndexOf(s, id).Some? ==>
      var k := IndexOf(s, id).value;
      Bump(s, id, delta) == s[k := s[k].(quantity := s[k].quantity + delta)]
  {
    if s != [] && s[0].id != id {
      BumpAt(s[1..], id, delta);
      var r := IndexOf(s[1..], id);
      if r.Some? {
        var k := r.value;
        var u := s[k + 1].(quantity := s[k + 1].quantity + delta);
        assert Bump(s, id, delta) == [s[0]] + s[1..][k := u];
        assert [s[0]] + s[1..][k := u] == s[k + 1 := u];
      } else {
        assert Bump(s, id, delta) == [s[0]] + s[1..];
      }
    }
  }

  /** Removing an id the list does not hold changes nothing. */
  lemma {:induction false} WithoutAbsent(s: seq<Item>, id: string)
    requires forall i :: 0 <= i < |s| ==> s[i].id != id
    ensures Without(s, id) == s
  {
    if s != [] {
      WithoutAbsent(s[1..], id);
    }
  }

  /** The filter works row by row, so it keeps the order of what it keeps. */
  lemma {:induction false} WithoutConcat(a: seq<Item>, b: seq<Item>, id: string)
    ensures Without(a + b, id) == Without(a, id) + Without(b, id)
  {
    if a != [] {
      assert (a + b)[1..] == a[1..] + b;
      WithoutConcat(a[1..], b, id);
    } else {
      assert a + b == b;
    }
  }

  /** In a list with unique ids, removing the id found at `k` removes exactly row `k`. */
  lemma WithoutUnique(s: seq<Item>, id: string)
    requires UniqueIds(s) && Contains(s, id)
    ensures Without(s, id) == s[..IndexOf(s, id).value] + s[IndexOf(s, id).value + 1..]
  {
    var k := IndexOf(s, id).value;
    var a, b := s[..k], s[k + 1..];
    assert s == a + [s[k]] + b;
    forall i | 0 <= i < |a| ensures a[i].id != id {
      assert a[i] == s[i];
    }
    forall i | 0 <= i < |b| ensures b[i].id != id {
      assert b[i] == s[k + 1 + i];
    }
    WithoutOne(a, s[k], b, id);
  }

  /** Filtering out the only row with the id cuts exactly that row. */
  lemma WithoutOne(a: seq<Item>, x: Item, b: seq<Item>, id: string)
    requires x.id == id
    requires forall i :: 0 <= i < |a| ==> a[i].id != id
    requires forall i :: 0 <= i < |b| ==> b[i].id != id
    ensures Without(a + [x] + b, id) == a + b
  {
    WithoutAbsent(a, id);
    WithoutAbsent(b, id);
    assert Without([x], id) == [] by {
      assert [x][1..] == [];
    }
    WithoutConcat(a, [x], id);
    assert Without(a + [x], id) == a;
    WithoutConcat(a + [x], b, id);
  }

  /** Removal keeps ids unique. */
  lemma {:induction false} WithoutKeepsUnique(s: seq<Item>, id: string)
    requires UniqueIds(s)
    ensures UniqueIds(Without(s, id))
  {
    if s != [] {
      WithoutKeepsUnique(s[1..], id);
      var w := Without(s[1..], id);
      if s[0].id != id {
        forall j | 0 <= j < |w| ensures w[j].id != s[0].id {
          assert w[j] in s[1..];
        }
      }
    }
  }

  // ---------------------------------------------------------------------------------
  // What each reducer does
  // ---------------------------------------------------------------------------------

  /** `addToCart` on an absent id appends the new row at the end; on a present id it adds
      one to that row and leaves the length, the order and every other row alone. */
  lemma AddToCartEffect(s: seq<Item>, p: Product)
    ensures !Contains(s, p.id) ==> Added(s, p) == s + [NewItem(p)]
    ensures Contains(s, p.id) ==>
      var k := IndexOf(s, p.id).value;
      && |Added(s, p)| == |s|
      && Added(s, p)[k] == s[k].(quantity := s[k].quantity + 1)
      && forall j :: 0 <= j < |s| && j != k ==> Added(s, p)[j] == s[j]
  {
    BumpAt(s, p.id, 1);
  }

  /** After `addToCart` the cart holds the product, with one more unit than before (or 1),
      and every other product's quantity is unchanged. */
  lemma AddToCartQuantity(s: seq<Item>, p: Product, id: string)
    ensures Contains(Added(s, p), p.id)
    ensures QuantityOf(Added(s, p), id) == QuantityOf(s, id) + (if id == p.id then 1 else 0)
  {
    if Contains(s, p.id) {
      BumpAt(s, p.id, 1);
      SameIdsSameIndex(s, Added(s, p), id);
      SameIdsSameIndex(s, Added(s, p), p.id);
    } else {
      IndexOfAppend(s, NewItem(p), id);
      IndexOfAppend(s, NewItem(p), p.id);
    }
  }

  /** `deleteFromCart` leaves no row with the id, removes nothing else, keeps the order,
      and changes nothing when the id is absent. */
  lemma DeleteFromCartEffect(s: seq<Item>, id: string)
    ensures !Contains(Without(s, id), id)
    ensures forall x :: x in Without(s, id) <==> x in s && x.id != id
    ensures !Contains(s, id) ==> Without(s, id) == s
    ensures UniqueIds(s) && Contains(s, id) ==>
      Without(s, id) == s[..IndexOf(s, id).value] + s[IndexOf(s, id).value + 1..]
  {
    var r := Without(s, id);
    forall i | 0 <= i < |r| ensures r[i].id != id {
      assert r[i] in r;
    }
    if !Contains(s, id) {
      WithoutAbsent(s, id);
    }
    if UniqueIds(s) && Contains(s, id) {
      WithoutUnique(s, id);
    }
  }

  /** Deleting twice is deleting once. */
  lemma DeleteIdempotent(s: seq<Item>, id: string)
    ensures Without(Without(s, id), id) == Without(s, id)
  {
    var r := Without(s, id);
    forall i | 0 <= i < |r| ensures r[i].id != id {
      assert r[i] in r;
    }
    WithoutAbsent(r, id);
  }

  /** Adding a product the cart did not hold and then deleting it restores the list. */
  lemma AddThenDeleteRestores(s: seq<Item>, p: Product)
    requires !Contains(s, p.id)
    ensures Without(Added(s, p), p.id) == s
  {
    WithoutConcat(s, [NewItem(p)], p.id);
    WithoutAbsent(s, p.id);
    assert Without([NewItem(p)], p.id) == [];
  }

  /** `increseQuantity` adds one to the matching row, never adds a row, and changes nothing
      when no row matches. */
  lemma IncreseQuantityEffect(s: seq<Item>, id: string)
    ensures |Increased(s, id)| == |s|
    ensures !Contains(s, id) ==> Increased(s, id) == s
    ensures Contains(s, id) ==>
      var k := IndexOf(s, id).value;
      && Increased(s, id)[k] == s[k].(quantity := s[k].quantity + 1)
      && forall j :: 0 <= j < |s| && j != k ==> Increased(s, id)[j] == s[j]
  {
    BumpAt(s, id, 1);
  }

  /** `decreseQuantity` removes a row holding one unit, takes one unit off a row holding
      more, and changes nothing when the id is absent. */
  lemma DecreseQuantityEffect(s: seq<Item>, id: string)
    ensures !Contains(s, id) ==> Decreased(s, id) == s
    ensures Contains(s, id) && QuantityOf(s, id) == 1 ==>
      !Contains(Decreased(s, id), id) &&
      (UniqueIds(s) ==>
        Decreased(s, id) == s[..IndexOf(s, id).value] + s[IndexOf(s, id).value + 1..])
    ensures Contains(s, id) && QuantityOf(s, id) != 1 ==>
      var k := IndexOf(s, id).value;
      Decreased(s, id) == s[k := s[k].(quantity := s[k].quantity - 1)]
  {
    BumpAt(s, id, -1);
    DeleteFromCartEffect(s, id);
  }

  // ---------------------------------------------------------------------------------
  // The invariant is kept by every reducer
  // ---------------------------------------------------------------------------------

  lemma AddedWellFormed(s: seq<Item>, p: Product)
    requires WellFormed(s)
    ensures WellFormed(Added(s, p))
  {
    BumpAt(s, p.id, 1);
  }

  lemma WithoutWellFormed(s: seq<Item>, id: string)
    requires WellFormed(s)
    ensures WellFormed(Without(s, id))
  {
    WithoutKeepsUnique(s, id);
    var r := Without(s, id);
    forall i | 0 <= i < |r| ensures r[i].quantity >= 1 {
      assert r[i] in s;
    }
  }

  lemma IncreasedWellFormed(s: seq<Item>, id: string)
    requires WellFormed(s)
    ensures WellFormed(Increased(s, id))
  {
    BumpAt(s, id, 1);
  }

  lemma DecreasedWellFormed(s: seq<Item>, id: string)
    requires WellFormed(s)
    ensures WellFormed(Decreased(s, id))
  {
    BumpAt(s, id, -1);
    WithoutWellFormed(s, id);
  }

  /** An action the store can dispatch to the slice. */
  datatype Action = Add(product: Product) | Delete(id: string) | Increase(id: string) | Decrease(id: string)

  function Apply(s: seq<Item>, a: Action): seq<Item>
  {
    match a
    case Add(p) => Added(s, p)
    case Delete(id) => Without(s, id)
    case Increase(id) => Increased(s, id)
    case Decrease(id) => Decreased(s, id)
  }

  /** The list after dispatching `actions` in order. */
  function Run(s: seq<Item>, actions: seq<Action>): seq<Item>
    decreases |actions|
  {
    if actions == [] then s else Run(Apply(s, actions[0]), actions[1..])
  }

  lemma {:induction false} RunWellFormed(s: seq<Item>, actions: seq<Action>)
    requires WellFormed(s)
    ensures WellFormed(Run(s, actions))
    decreases |actions|
  {
    if actions != [] {
      match actions[0] {
        case Add(p) => AddedWellFormed(s, p);
        case Delete(id) => WithoutWellFormed(s, id);
        case Increase(id) => IncreasedWellFormed(s, id);
        case Decrease(id) => DecreasedWellFormed(s, id);
      }
      RunWellFormed(Apply(s, actions[0]), actions[1..]);
    }
  }

  /** Every list the slice can reach from `initialState` has quantities of at least one and
      one row per id. */
  lemma {:induction false} ReachableWellFormed(actions: seq<Action>)
    ensures WellFormed(Run([], actions))
  {
    RunWellFormed([], actions);
  }

  // ---------------------------------------------------------------------------------
  // Repeated adds (the product page dispatches `addToCart` once per unit)
  // ---------------------------------------------------------------------------------

  /** The list after `n` consecutive `addToCart` of the same product. */
  function AddedTimes(s: seq<Item>, p: Product, n: int): seq<Item>
    decreases n
  {
    if n <= 0 then s else Added(AddedTimes(s, p, n - 1), p)
  }

  /** `n` adds raise the product's quantity by exactly `n` (from 0 when it was absent),
      leave it in the cart, and change no other product's quantity. */
  lemma {:induction false} AddedTimesQuantity(s: seq<Item>, p: Product, n: nat, id: string)
    ensures n > 0 ==> Contains(AddedTimes(s, p, n), p.id)
    ensures QuantityOf(AddedTimes(s, p, n), id) == QuantityOf(s, id) + (if id == p.id then n else 0)
  {
    if n > 0 {
      AddedTimesQuantity(s, p, n - 1, id);
      AddToCartQuantity(AddedTimes(s, p, n - 1), p, id);
    }
  }

  // ---------------------------------------------------------------------------------
  // The slice state, updated in place
  // ---------------------------------------------------------------------------------

  /** The slice's state (`cartState`): the ordered list of rows. */
  class CartState {
    var items: seq<Item>

    ghost predicate Valid()
      reads this
    {
      WellFormed(items)
    }

    /** `initialState`: an empty list. */
    constructor ()
      ensures items == [] && Valid()
    {
      items := [];
    }

    /** `state.items.find((item) => item.id === id)`, as the scan it performs. */
    method Find(id: string) returns (present: Option<nat>)
      ensures present == IndexOf(items, id)
    {
      var i := 0;
      while i < |items|
        invariant 0 <= i <= |items|
        invariant forall j :: 0 <= j < i ==> items[j].id != id
      {
        if items[i].id == id {
          return Some(i);
        }
        i := i + 1;
      }
      return None;
    }

    method AddToCart(p: Product)
      modifies this
      ensures items == Added(old(items), p)
      ensures old(Valid()) ==> Valid()
    {
      if Valid() {
        AddedWellFormed(items, p);
      }
      BumpAt(items, p.id, 1);
      var present := Find(p.id);
      if present.Some? {
        var k := present.value;
        items := items[k := items[k].(quantity := items[k].quantity + 1)];
      } else {
        items := items + [NewItem(p)];
      }
    }

    method DeleteFromCart(id: string)
      modifies this
      ensures items == Without(old(items), id)
      ensures old(Valid()) ==> Valid()
    {
      if Valid() {
        WithoutWellFormed(items, id);
      }
      items := Without(items, id);
    }

    method IncreseQuantity(id: string)
      modifies this
      ensures items == Increased(old(items), id)
      ensures old(Valid()) ==> Valid()
    {
      if Valid() {
        IncreasedWellFormed(items, id);
      }
      BumpAt(items, id, 1);
      var present := Find(id);
      if present.Some? {
        var k := present.value;
        items := items[k := items[k].(quantity := items[k].quantity + 1)];
      }
    }

    method DecreseQuantity(id: string)
      modifies this
      ensures items == Decreased(old(items), id)
      ensures old(Valid()) ==> Valid()
    {
      if Valid() {
        DecreasedWellFormed(items, id);
      }
      BumpAt(items, id, -1);
      var present := Find(id);
      if present.Some? && items[present.value].quantity == 1 {
        items := Without(items, id);
      } else if present.Some? {
        var k := present.value;
        items := items[k := items[k].(quantity := items[k].quantity - 1)];
      }
    }
  }
}
