/** The cart context (`src/context/CartContext.jsx`): the client's copy of the server cart.
    Every write is followed by a full refetch, and the refetched answer replaces the cart,
    the item total and the subtotal together; the client never edits them itself. */
module Cart {
  import opened Http

  /** One cart line as `GET /api/cart/all` returns it. */
  datatype CartItem = CartItem(id: string, product: string, quantity: int, price: real)

  /** The context's `{ cart, totalItem, subTotal }`. */
  datatype CartState = CartState(cart: seq<CartItem>, totalItem: int, subTotal: real)

  /** The body of `GET /api/cart/all`. */
  datatype CartPayload = CartPayload(cart: seq<CartItem>, totalQuantity: int, subTotal: real)

  /** The state after a handler, and what the handler did on the way. */
  datatype Outcome = Outcome(state: CartState, effects: seq<Effect>)

  const CartAllPath := "/api/cart/all"
  const CartAddPath := "/api/cart/add"
  const UpdatePrefix := "/api/cart/update?action="
  const RemovePrefix := "/api/cart/remove/"

  /** The request `fetchCart` issues. */
  const Refetch := Request(Get, CartAllPath, [])

  /** The state the provider starts in, and the one `clearCart` restores. */
  const Empty := CartState([], 0, 0.0)

  /* ------------------------------------------------------------ the server's sums */

  function SumQuantity(items: seq<CartItem>): int
    decreases |items|
  {
    if |items| == 0 then 0 else items[0].quantity + SumQuantity(items[1..])
  }

  function SumPrice(items: seq<CartItem>): real
    decreases |items|
  {
    if |items| == 0 then 0.0
    else (items[0].quantity as real) * items[0].price + SumPrice(items[1..])
  }

  /** What the server is assumed to guarantee of its answer; the client never checks it. */
  predicate WellFormed(p: CartPayload) {
    p.totalQuantity == SumQuantity(p.cart) && p.subTotal == SumPrice(p.cart)
  }

  predicate WellFormedReply(r: Reply<CartPayload>) {
    r.Ok? ==> WellFormed(r.body)
  }

  /** The totals the client shows agree with the lines it shows. */
  predicate Consistent(s: CartState) {
    s.totalItem == SumQuantity(s.cart) && s.subTotal == SumPrice(s.cart)
  }

  /* ------------------------------------------------------------ operations */

  /** `fetchCart`: on success the three fields become the answer's, with no merge; on
      failure (only logged) nothing changes. */
  function FetchCart(s: CartState, reply: Reply<CartPayload>): (r: Outcome)
    ensures r.effects == [Refetch]
    ensures reply.Ok? ==>
      && r.state.cart == reply.body.cart
      && r.state.totalItem == reply.body.totalQuantity
      && r.state.subTotal == reply.body.subTotal
    ensures reply.Fail? ==> r.state == s
  {
    match reply
    case Ok(p) => Outcome(CartState(p.cart, p.totalQuantity, p.subTotal), [Refetch])
    case Fail(_) => Outcome(s, [Refetch])
  }

  /** `addToCart(product)`: post, toast the answer, refetch. */
  function AddToCart(s: CartState, product: string, write: Reply<Ack>, refetch: Reply<CartPayload>): (r: Outcome)
    ensures |r.effects| > 0 && r.effects[0] == Request(Post, CartAddPath, [Field("product", product)])
    ensures write.Ok? ==> r.state == FetchCart(s, refetch).state
    ensures write.Fail? ==> r.state == s
    ensures Count(r.effects, Refetch) == if write.Ok? then 1 else 0
  {
    var post := Request(Post, CartAddPath, [Field("product", product)]);
    match write
    case Ok(a) =>
      var f := FetchCart(s, refetch);
      CountAppend([post, Toast(SuccessToast, a.message)], f.effects, Refetch);
      Outcome(f.state, [post, Toast(SuccessToast, a.message)] + f.effects)
    case Fail(e) =>
      CountPair(post, ServerError(e), Refetch);
      Outcome(s, [post, ServerError(e)])
  }

  /** `updateCart(action, id)`: the action goes into the query string as given; the
      quantity change is left entirely to the server. */
  function UpdateCart(s: CartState, action: string, id: string, write: Reply<Ack>, refetch: Reply<CartPayload>): (r: Outcome)
    ensures |r.effects| > 0 && r.effects[0] == Request(Put, UpdatePrefix + action, [Field("id", id)])
    ensures write.Ok? ==> r.state == FetchCart(s, refetch).state
    ensures write.Fail? ==> r.state == s
    ensures Count(r.effects, Refetch) == if write.Ok? then 1 else 0
  {
    var put := Request(Put, UpdatePrefix + action, [Field("id", id)]);
    match write
    case Ok(_) =>
      var f := FetchCart(s, refetch);
      CountAppend([put], f.effects, Refetch);
      Outcome(f.state, [put] + f.effects)
    case Fail(e) =>
      CountPair(put, ServerError(e), Refetch);
      Outcome(s, [put, ServerError(e)])
  }

  /** `removeFromCart(id)`: delete, toast the answer, refetch. */
  function RemoveFromCart(s: CartState, id: string, write: Reply<Ack>, refetch: Reply<CartPayload>): (r: Outcome)
    ensures |r.effects| > 0 && r.effects[0] == Request(Delete, RemovePrefix + id, [])
    ensures write.Ok? ==> r.state == FetchCart(s, refetch).state
    ensures write.Fail? ==> r.state == s
    ensures Count(r.effects, Refetch) == if write.Ok? then 1 else 0
  {
    var del := Request(Delete, RemovePrefix + id, []);
    match write
    case Ok(a) =>
      var f := FetchCart(s, refetch);
      CountAppend([del, Toast(SuccessToast, a.message)], f.effects, Refetch);
      Outcome(f.state, [del, Toast(SuccessToast, a.message)] + f.effects)
    case Fail(e) =>
      CountPair(del, ServerError(e), Refetch);
      Outcome(s, [del, ServerError(e)])
  }

  /** `clearCart()`: a local reset that sends nothing. */
  function ClearCart(s: CartState): (r: Outcome)
    ensures r.effects == []
    ensures r.state.cart == [] && r.state.totalItem == 0 && r.state.subTotal == 0.0
  {
    Outcome(Empty, [])
  }

  /* ------------------------------------------------------------ properties */

  /** A successful fetch forgets the previous state entirely: two carts that receive the same
      answer end up identical. */
  lemma FetchCartNoMerge(s1: CartState, s2: CartState, p: CartPayload)
    ensures FetchCart(s1, Ok(p)).state == FetchCart(s2, Ok(p)).state
    ensures FetchCart(s1, Ok(p)).state == CartState(p.cart, p.totalQuantity, p.subTotal)
  {
  }

  /** The client applies no quantity arithmetic: whatever the action string, an update ends in
      the same state, the one the refetch delivers. */
  lemma UpdateIgnoresAction(s: CartState, a1: string, a2: string, id: string, write: Reply<Ack>, refetch: Reply<CartPayload>)
    ensures UpdateCart(s, a1, id, write, refetch).state == UpdateCart(s, a2, id, write, refetch).state
  {
  }

  /** The action is recoverable from the request path exactly as it was given. */
  lemma UpdateForwardsAction(s: CartState, action: string, id: string, write: Reply<Ack>, refetch: Reply<CartPayload>)
    ensures var path := UpdateCart(s, action, id, write, refetch).effects[0].path;
      UpdatePrefix <= path && path[|UpdatePrefix|..] == action
  {
    var path := UpdatePrefix + action;
    assert path[|UpdatePrefix|..] == action;
  }

  /** `clearCart` is idempotent and lands on the provider's initial state. */
  lemma ClearCartIdempotent(s: CartState)
    ensures ClearCart(ClearCart(s).state) == ClearCart(s)
    ensures ClearCart(s).state == Empty
  {
  }

  /** The initial (empty) state already satisfies the sum invariant. */
  lemma EmptyConsistent()
    ensures Consistent(Empty)
  {
  }

  /** Under the assumption that the server's answers are well formed, every cart operation
      keeps the displayed totals equal to the sums over the displayed lines. */
  lemma OperationsPreserveConsistency(s: CartState, product: string, action: string, id: string,
                                      write: Reply<Ack>, refetch: Reply<CartPayload>)
    requires Consistent(s)
    requires WellFormedReply(refetch)
    ensures Consistent(FetchCart(s, refetch).state)
    ensures Consistent(AddToCart(s, product, write, refetch).state)
    ensures Consistent(UpdateCart(s, action, id, write, refetch).state)
    ensures Consistent(RemoveFromCart(s, id, write, refetch).state)
    ensures Consistent(ClearCart(s).state)
  {
  }

  /** The client does not check the sum invariant: a malformed answer is adopted as is. */
  lemma MalformedAnswerAdopted(s: CartState)
    ensures !Consistent(FetchCart(s, Ok(CartPayload([], 5, 0.0))).state)
  {
  }
}
