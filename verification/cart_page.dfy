/** The cart page (`src/pages/user/Cart.jsx`): the empty state or the item list with its
    summary, and the wiring of the item buttons to the cart context. */
module CartPage {
  import opened Http
  import Cart

  /** The item buttons: "-", "+" and the trash icon, each for one cart line id. */
  datatype Button = Minus(id: string) | Plus(id: string) | Trash(id: string)

  /** What the page shows: the empty state, or the lines with the context's totals and the
      checkout button's enabled flag. */
  datatype View =
    | EmptyCart
    | Lines(items: seq<Cart.CartItem>, totalItem: int, subTotal: real, checkoutEnabled: bool)

  /** `disabled={cart.length === 0}`. */
  predicate CheckoutDisabled(s: Cart.CartState) {
    |s.cart| == 0
  }

  function Show(s: Cart.CartState): (v: View)
    ensures v == EmptyCart <==> |s.cart| == 0
    ensures v.Lines? ==> v.items == s.cart && v.totalItem == s.totalItem && v.subTotal == s.subTotal
    ensures v.Lines? ==> v.checkoutEnabled == !CheckoutDisabled(s)
  {
    if |s.cart| == 0 then EmptyCart else Lines(s.cart, s.totalItem, s.subTotal, !CheckoutDisabled(s))
  }

  /** A button press, handed to the cart context. */
  function Press(s: Cart.CartState, b: Button, write: Reply<Ack>, refetch: Reply<Cart.CartPayload>): (r: Cart.Outcome)
    ensures b.Minus? ==> r == Cart.UpdateCart(s, "decrement", b.id, write, refetch)
    ensures b.Plus? ==> r == Cart.UpdateCart(s, "increment", b.id, write, refetch)
    ensures b.Trash? ==> r == Cart.RemoveFromCart(s, b.id, write, refetch)
  {
    match b
    case Minus(id) => Cart.UpdateCart(s, "decrement", id, write, refetch)
    case Plus(id) => Cart.UpdateCart(s, "increment", id, write, refetch)
    case Trash(id) => Cart.RemoveFromCart(s, id, write, refetch)
  }

  /* ------------------------------------------------------------ properties */

  /** The checkout button is disabled iff the cart is empty; since it only appears with a
      non-empty list, it is always enabled when shown. */
  lemma CheckoutEnabledWhenShown(s: Cart.CartState)
    ensures CheckoutDisabled(s) <==> s.cart == []
    ensures Show(s).Lines? ==> Show(s).checkoutEnabled
  {
  }

  /** The buttons send exactly the requests the context defines for them. */
  lemma ButtonsSendRequests(s: Cart.CartState, id: string, write: Reply<Ack>, refetch: Reply<Cart.CartPayload>)
    ensures Press(s, Minus(id), write, refetch).effects[0] == Request(Put, Cart.UpdatePrefix + "decrement", [Field("id", id)])
    ensures Press(s, Plus(id), write, refetch).effects[0] == Request(Put, Cart.UpdatePrefix + "increment", [Field("id", id)])
    ensures Press(s, Trash(id), write, refetch).effects[0] == Request(Delete, Cart.RemovePrefix + id, [])
  {
  }

  /** "+" and "-" end in the same state: the page does no arithmetic of its own. */
  lemma PlusMinusSameState(s: Cart.CartState, id: string, write: Reply<Ack>, refetch: Reply<Cart.CartPayload>)
    ensures Press(s, Plus(id), write, refetch).state == Press(s, Minus(id), write, refetch).state
  {
    Cart.UpdateIgnoresAction(s, "increment", "decrement", id, write, refetch);
  }

  /** The totals shown are the context's, not recomputed from the lines: a state whose totals
      disagree with its lines is shown as it is. */
  lemma TotalsNotRecomputed()
    ensures var s := Cart.CartState([Cart.CartItem("l", "p", 1, 2.0)], 7, 0.5);
      Show(s) == Lines(s.cart, 7, 0.5, true) && !Cart.Consistent(s)
  {
  }
}
