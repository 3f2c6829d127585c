/** The product grid: which catalog entries a category shows, and the sign-in gate on its
    "Add To Cart" button. */
module ProductListView {
  import opened Wrappers
  import opened Catalog
  import opened CartSlice

  /** The `category` prop's default value, meaning "no filter". */
  const DefaultCategory: string := "All"

  /** The catalog entries of one category, in catalog order
      (`PRODUCTS.filter((item) => item.category === category)`). */
  function InCategory(catalog: seq<Product>, category: string): (r: seq<Product>)
    ensures |r| <= |catalog|
    ensures forall p :: p in r <==> p in catalog && p.category == category
  {
    if catalog == [] then []
    else if catalog[0].category == category then [catalog[0]] + InCategory(catalog[1..], category)
    else InCategory(catalog[1..], category)
  }

  /** `filteredProducts`: the whole catalog for "All", one category otherwise. */
  function FilteredProducts(catalog: seq<Product>, category: string): seq<Product>
  {
    if category == DefaultCategory then catalog else InCategory(catalog, category)
  }

  /** The filter goes entry by entry, so the entries it keeps stay in catalog order. */
  lemma {:induction false} InCategoryConcat(a: seq<Product>, b: seq<Product>, category: string)
    ensures InCategory(a + b, category) == InCategory(a, category) + InCategory(b, category)
  {
    if a == [] {
      assert a + b == b;
    } else {
      assert (a + b)[1..] == a[1..] + b;
      InCategoryConcat(a[1..], b, category);
    }
  }

  /** A list all of whose entries are in the category passes the filter unchanged. */
  lemma {:induction false} InCategoryAll(catalog: seq<Product>, category: string)
    requires forall i :: 0 <= i < |catalog| ==> catalog[i].category == category
    ensures InCategory(catalog, category) == catalog
  {
    if catalog != [] {
      InCategoryAll(catalog[1..], category);
    }
  }

  /** "All" shows the catalog as it is; any other category shows exactly the entries of that
      category, in catalog order; and filtering what is shown again changes nothing. */
  lemma FilteredProductsSpec(catalog: seq<Product>, category: string)
    ensures category == DefaultCategory ==> FilteredProducts(catalog, category) == catalog
    ensures category != DefaultCategory ==>
      forall p :: p in FilteredProducts(catalog, category) <==> p in catalog && p.category == category
    ensures forall a, b :: catalog == a + b && category != DefaultCategory ==>
      FilteredProducts(catalog, category) == InCategory(a, category) + InCategory(b, category)
    ensures FilteredProducts(FilteredProducts(catalog, category), category)
      == FilteredProducts(catalog, category)
  {
    forall a, b | catalog == a + b && category != DefaultCategory
      ensures FilteredProducts(catalog, category) == InCategory(a, category) + InCategory(b, category)
    {
      InCategoryConcat(a, b, category);
    }
    if category != DefaultCategory {
      var r := InCategory(catalog, category);
      forall i | 0 <= i < |r| ensures r[i].category == category {
        assert r[i] in r;
      }
      InCategoryAll(r, category);
    }
  }

  /** `handleAdd`: with nobody signed in nothing is dispatched (a toast asks to sign in);
      otherwise exactly one `addToCart` of the entry. */
  method HandleAdd(cart: CartState, currentUser: Option<string>, item: Product)
    modifies cart
    ensures currentUser.None? ==> cart.items == old(cart.items)
    ensures currentUser.Some? ==> cart.items == Added(old(cart.items), item)
    ensures old(cart.Valid()) ==> cart.Valid()
  {
    if currentUser.Some? {
      cart.AddToCart(item);
    }
  }
}
