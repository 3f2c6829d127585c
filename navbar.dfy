/** What the navigation bar derives from the cart state: the unit count of the signed-in
    user's cart and the badge on the cart button; and what signing out does to the state. */
module NavbarView {
  import opened Wrappers
  import opened CartSlice
  import opened CartView
  import Decimal

  /** `totalCount`: units in the signed-in user's cart, with the empty-list default. */
  function TotalCount(store: Store, currentUser: Option<string>): int
  {
    TotalItems(UserCart(store, currentUser))
  }

  /** With nobody signed in, or no entry for the email, the count is zero. When every stored
      cart has positive rows, the count is never negative, and zero only for an empty cart. */
  lemma TotalCountRange(store: Store, currentUser: Option<string>)
    ensures currentUser.None? || currentUser.value !in store ==> TotalCount(store, currentUser) == 0
    ensures (forall email :: email in store ==> Positive(store[email])) ==>
      && TotalCount(store, currentUser) >= 0
      && (TotalCount(store, currentUser) == 0 <==> UserCart(store, currentUser) == [])
  {
    var cart := UserCart(store, currentUser);
    if forall email :: email in store ==> Positive(store[email]) {
      TotalItemsAtLeastRows(cart);
      if cart != [] {
        ReduceAcc(cart[1..], Quantity, cart[0].quantity);
        TotalItemsAtLeastRows(cart[1..]);
      }
    }
  }

  /** The red badge on the cart button. */
  datatype Badge = Hidden | Shown(text: string)

  /** `totalCount > 0 && (totalCount > 99 ? "99+" : totalCount)`; the desktop and the mobile
      menu render the same badge. */
  function CartBadge(totalCount: int): Badge
  {
    if totalCount > 0 then
      Shown(if totalCount > 99 then "99+" else Decimal.IntToString(totalCount))
    else Hidden
  }

  /** The badge shows exactly when the count is positive; above 99 it reads "99+"; otherwise
      its digits read back as the exact count. Either way it is at most three characters. */
  lemma CartBadgeLabel(totalCount: int)
    ensures CartBadge(totalCount).Shown? <==> totalCount > 0
    ensures totalCount > 99 ==> CartBadge(totalCount) == Shown("99+")
    ensures 0 < totalCount <= 99 ==>
      && Decimal.IsDigits(CartBadge(totalCount).text)
      && Decimal.StringToNat(CartBadge(totalCount).text) == totalCount
    ensures CartBadge(totalCount).Shown? ==> 1 <= |CartBadge(totalCount).text| <= 3
  {
    if 0 < totalCount <= 99 {
      Decimal.NatToStringRoundTrip(totalCount);
      Decimal.NatToStringShort(totalCount);
    }
  }

  /** The two slices the navigation bar reads: the cart state and the signed-in user. */
  datatype Session = Session(cart: Store, currentUser: Option<string>)

  /** `handleLogout`: only the user slice's `logout()` is dispatched, which clears the
      signed-in user; the cart state is not touched. */
  function Logout(s: Session): (r: Session)
    ensures r.cart == s.cart && r.currentUser.None?
  {
    s.(currentUser := None)
  }

  /** After signing out the badge is hidden, and every user's rows are kept for the next
      sign-in. */
  lemma LogoutKeepsCarts(s: Session, email: string)
    ensures CartBadge(TotalCount(Logout(s).cart, Logout(s).currentUser)) == Hidden
    ensures UserCart(Logout(s).cart, Some(email)) == UserCart(s.cart, Some(email))
  {
  }
}
