/** The payment page (`src/pages/user/Payment.jsx`): the chosen address, the payment method
    selector, the proceed-button rule, and the two separate branches of `paymentHandler`. */
module PaymentPage {
  import opened Wrappers
  import opened Entities
  import opened Http
  import Cart

  /** `{ address, method, loading }`, with `method` as `choice`; `address` is None while it is
      still the initial "". */
  datatype PaymentState = PaymentState(address: Option<Address>, choice: string, loading: bool)

  const Initial := PaymentState(None, "", false)

  const CodPath := "/api/order/new/cod"
  const OnlinePath := "/api/order/new/online"
  const SessionFailed := "Failed to create Payment session"
  const PaymentFailed := "Payment Failed. Please try again..!"

  /** The body of an order-creation answer: `message` and, for online orders, `url` ("" when
      absent). */
  datatype OrderAnswer = OrderAnswer(message: string, url: string)

  /** The page state, the cart context, and what the handler did. */
  datatype Outcome = Outcome(state: PaymentState, cart: Cart.CartState, effects: seq<Effect>)

  /** `fetchAddress`: a 2xx answer becomes the address; a failure is only logged. */
  function FetchAddress(s: PaymentState, id: string, reply: Reply<Address>): (r: (PaymentState, seq<Effect>))
    ensures reply.Ok? ==> r.0 == s.(address := Some(reply.body))
    ensures reply.Fail? ==> r.0 == s
    ensures r.1 == [Request(Get, "/api/address/" + id, [])]
  {
    var next := match reply
      case Ok(a) => s.(address := Some(a))
      case Fail(_) => s;
    (next, [Request(Get, "/api/address/" + id, [])])
  }

  /** `disabled={!method || !address}`, negated. */
  predicate ProceedEnabled(s: PaymentState) {
    s.choice != "" && s.address.Some?
  }

  /** The order body: the method, then the address fields; reading them off the initial ""
      gives `undefined`, which the JSON body omits. */
  function OrderBody(s: PaymentState): (b: seq<Field>)
    ensures |b| > 0 && b[0] == Field("method", s.choice)
    ensures s.address.Some? ==> b[1..] == [Field("address", s.address.value.address), Field("phone", s.address.value.phone)]
    ensures s.address.None? ==> |b| == 1
  {
    [Field("method", s.choice)]
      + if s.address.Some? then [Field("address", s.address.value.address), Field("phone", s.address.value.phone)] else []
  }

  /** The cash-on-delivery branch. `cartReply` answers the (unawaited) `fetchCart`. */
  function PayCod(s: PaymentState, cart: Cart.CartState, write: Reply<OrderAnswer>, cartReply: Reply<Cart.CartPayload>): (r: Outcome)
    ensures !r.state.loading && r.state.address == s.address && r.state.choice == s.choice
    ensures |r.effects| > 0 && r.effects[0] == Request(Post, CodPath, OrderBody(s))
    ensures write.Ok? ==> r.cart == Cart.FetchCart(cart, cartReply).state && r.effects[|r.effects| - 1] == Navigate("/orders")
    ensures write.Fail? ==> r.cart == cart && Navigate("/orders") !in r.effects
  {
    var post := Request(Post, CodPath, OrderBody(s));
    match write
    case Ok(a) =>
      var f := Cart.FetchCart(cart, cartReply);
      Outcome(s.(loading := false), f.state, [post, Toast(SuccessToast, a.message)] + f.effects + [Navigate("/orders")])
    case Fail(e) =>
      // `setLoading(false)` runs before the message is read, so even a missing response
      // leaves the spinner off
      Outcome(s.(loading := false), cart, [post, ServerError(e)])
  }

  /** The online branch as written. After `if (data.url) { … } else P` the two statements that
      follow belong to neither arm: they run after a redirect as well; and without a url,
      evaluating the undeclared `P` throws a ReferenceError that the catch reports.
      `stripeLoaded` is false when `loadStripe` rejects. */
  function PayOnline(s: PaymentState, cart: Cart.CartState, stripeLoaded: bool, write: Reply<OrderAnswer>): (r: Outcome)
    ensures !r.state.loading && r.state.address == s.address && r.state.choice == s.choice
    ensures r.cart == cart
    ensures stripeLoaded && write.Ok? && write.body.url != "" ==>
      r.effects == [Request(Post, OnlinePath, OrderBody(s)), Assign(write.body.url), Toast(ErrorToast, SessionFailed)]
    ensures !(stripeLoaded && write.Ok? && write.body.url != "") ==>
      |r.effects| > 0 && r.effects[|r.effects| - 1] == Toast(ErrorToast, PaymentFailed)
  {
    var post := Request(Post, OnlinePath, OrderBody(s));
    if !stripeLoaded then Outcome(s.(loading := false), cart, [Toast(ErrorToast, PaymentFailed)])
    else match write
      case Fail(_) => Outcome(s.(loading := false), cart, [post, Toast(ErrorToast, PaymentFailed)])
      case Ok(a) =>
        if a.url != "" then Outcome(s.(loading := false), cart, [post, Assign(a.url), Toast(ErrorToast, SessionFailed)])
        else Outcome(s.(loading := false), cart, [post, Toast(ErrorToast, PaymentFailed)])
  }

  /** `paymentHandler`: "cod" and "online" each run their own branch; any other method does
      nothing. The online branch is the corrected `PayOnlineIntended`; `PayOnline` keeps the
      branch as written. */
  function PaymentHandler(s: PaymentState, cart: Cart.CartState, stripeLoaded: bool,
                          write: Reply<OrderAnswer>, cartReply: Reply<Cart.CartPayload>): (r: Outcome)
    ensures s.choice == "cod" ==> r == PayCod(s, cart, write, cartReply)
    ensures s.choice == "online" ==> r == PayOnlineIntended(s, cart, stripeLoaded, write)
    ensures s.choice != "cod" && s.choice != "online" ==> r == Outcome(s, cart, [])
  {
    if s.choice == "cod" then PayCod(s, cart, write, cartReply)
    else if s.choice == "online" then PayOnlineIntended(s, cart, stripeLoaded, write)
    else Outcome(s, cart, [])
  }

  /** `paymentHandler` as the code runs it: the same dispatch with the online branch as
      written. */
  function PaymentHandlerAsWritten(s: PaymentState, cart: Cart.CartState, stripeLoaded: bool,
                                   write: Reply<OrderAnswer>, cartReply: Reply<Cart.CartPayload>): (r: Outcome)
    ensures s.choice == "online" ==> r == PayOnline(s, cart, stripeLoaded, write)
    ensures s.choice != "online" ==> r == PaymentHandler(s, cart, stripeLoaded, write, cartReply)
  {
    if s.choice == "cod" then PayCod(s, cart, write, cartReply)
    else if s.choice == "online" then PayOnline(s, cart, stripeLoaded, write)
    else Outcome(s, cart, [])
  }

  /** The online branch with the `else` arm holding the failure toast, as the code evidently
      intends: a redirect is the only effect after the post, and the session-failure toast
      appears exactly when no url came back. */
  function PayOnlineIntended(s: PaymentState, cart: Cart.CartState, stripeLoaded: bool, write: Reply<OrderAnswer>): (r: Outcome)
    ensures !r.state.loading && r.cart == cart
    ensures stripeLoaded && write.Ok? ==>
      (Toast(ErrorToast, SessionFailed) in r.effects <==> write.body.url == "")
    ensures stripeLoaded && write.Ok? && write.body.url != "" ==>
      r.effects == [Request(Post, OnlinePath, OrderBody(s)), Assign(write.body.url)]
  {
    var post := Request(Post, OnlinePath, OrderBody(s));
    if !stripeLoaded then Outcome(s.(loading := false), cart, [Toast(ErrorToast, PaymentFailed)])
    else match write
      case Fail(_) => Outcome(s.(loading := false), cart, [post, Toast(ErrorToast, PaymentFailed)])
      case Ok(a) =>
        if a.url != "" then Outcome(s.(loading := false), cart, [post, Assign(a.url)])
        else Outcome(s.(loading := false), cart, [post, Toast(ErrorToast, SessionFailed)])
  }

  /* ------------------------------------------------------------ properties */

  /** The proceed button is enabled iff a method is chosen and an address is loaded; it starts
      disabled, and a loaded address alone does not enable it. */
  lemma ProceedRule(id: string, a: Address)
    ensures !ProceedEnabled(Initial)
    ensures !ProceedEnabled(FetchAddress(Initial, id, Ok(a)).0)
    ensures ProceedEnabled(FetchAddress(Initial, id, Ok(a)).0.(choice := "cod"))
  {
  }

  /** The online branch never refetches the cart, never records an order locally and never
      navigates to the orders page. */
  lemma OnlineLeavesCartAlone(s: PaymentState, cart: Cart.CartState, stripeLoaded: bool, write: Reply<OrderAnswer>)
    ensures var r := PayOnline(s, cart, stripeLoaded, write);
      && r.cart == cart
      && Cart.Refetch !in r.effects
      && Navigate("/orders") !in r.effects
  {
  }

  /** As written, a successful redirect is still followed by the session-failure toast. */
  lemma RedirectAlsoReportsFailure(s: PaymentState, cart: Cart.CartState, message: string, url: string)
    requires url != ""
    ensures var e := PayOnline(s, cart, true, Ok(OrderAnswer(message, url))).effects;
      e[1] == Assign(url) && e[2] == Toast(ErrorToast, SessionFailed)
  {
  }

  /** As written, a missing url reports the generic payment failure, never the session one. */
  lemma MissingUrlReportsPaymentFailed(s: PaymentState, cart: Cart.CartState, message: string)
    ensures var e := PayOnline(s, cart, true, Ok(OrderAnswer(message, ""))).effects;
      Toast(ErrorToast, SessionFailed) !in e && e[|e| - 1] == Toast(ErrorToast, PaymentFailed)
  {
  }

  /** The two online definitions part exactly on a successful answer. */
  lemma OnlineVersionsDiffer(s: PaymentState, cart: Cart.CartState, stripeLoaded: bool, write: Reply<OrderAnswer>)
    ensures PayOnline(s, cart, stripeLoaded, write) != PayOnlineIntended(s, cart, stripeLoaded, write)
        <==> stripeLoaded && write.Ok?
  {
  }

  /** The handler as written and the corrected one part ways only for an online payment whose
      post succeeded with Stripe loaded. */
  lemma HandlersDifferOnlyOnline(s: PaymentState, cart: Cart.CartState, stripeLoaded: bool,
                                 write: Reply<OrderAnswer>, cartReply: Reply<Cart.CartPayload>)
    ensures PaymentHandlerAsWritten(s, cart, stripeLoaded, write, cartReply) != PaymentHandler(s, cart, stripeLoaded, write, cartReply)
        <==> s.choice == "online" && stripeLoaded && write.Ok?
  {
    OnlineVersionsDiffer(s, cart, stripeLoaded, write);
  }

  /** A COD order refetches the cart once and ends on the orders page; a failed one neither
      refetches nor navigates. */
  lemma CodRefetchesOnce(s: PaymentState, cart: Cart.CartState, write: Reply<OrderAnswer>, cartReply: Reply<Cart.CartPayload>)
    ensures Count(PayCod(s, cart, write, cartReply).effects, Cart.Refetch) == if write.Ok? then 1 else 0
  {
    var post := Request(Post, CodPath, OrderBody(s));
    match write
    case Ok(a) =>
      var f := Cart.FetchCart(cart, cartReply);
      CountAppend([post, Toast(SuccessToast, a.message)], f.effects, Cart.Refetch);
      CountAppend([post, Toast(SuccessToast, a.message)] + f.effects, [Navigate("/orders")], Cart.Refetch);
    case Fail(e) =>
      CountPair(post, ServerError(e), Cart.Refetch);
  }
}
