/** One order's page (`src/pages/user/OrderPage.jsx`): the fetch that settles the page, and
    the render decision between loading, not found, the details and the ownership denial. */
module OrderPage {
  import opened Wrappers
  import opened Entities
  import opened Http
  import Cart
  import Session

  /** `{ order, loading }`; `order` is None for `null`. */
  datatype PageState = PageState(loading: bool, order: Option<Order>)

  const Initial := PageState(true, None)

  /** How "Paid On" reads: the payment time, or the cash-on-delivery fallback. */
  datatype PaidOn = PaidAt(when: string) | CashOnDelivery

  /** The status badge colour. */
  datatype Tone = Yellow | Green

  /** The fields the details view shows. */
  datatype Summary = Summary(id: string, status: string, tone: Tone, itemCount: nat, payment: string,
                             subTotal: real, paidOn: PaidOn, phone: string, address: string, customer: string)

  datatype View =
    | Spinner
    | NoOrder                // "No Order with this id", with a link to the products
    | Details(summary: Summary)
    | NotYours               // "This is not your order"
    | RenderError            // a property read on `null` while rendering

  /** `fetchOrder`: a 2xx answer's body (possibly `null`) becomes the order; a failure is only
      logged; `loading` goes false either way. */
  function FetchOrder(s: PageState, id: string, reply: Reply<Option<Order>>): (r: (PageState, seq<Effect>))
    ensures !r.0.loading
    ensures reply.Ok? ==> r.0.order == reply.body
    ensures reply.Fail? ==> r.0.order == s.order
    ensures r.1 == [Request(Get, "/api/order/" + id, [])]
  {
    var order := match reply
      case Ok(o) => o
      case Fail(_) => s.order;
    (PageState(false, order), [Request(Get, "/api/order/" + id, [])])
  }

  function PaidOnFor(o: Order): (p: PaidOn)
    ensures p == CashOnDelivery <==> o.paidAt == ""
    ensures p.PaidAt? ==> p.when == o.paidAt
  {
    if o.paidAt != "" then PaidAt(o.paidAt) else CashOnDelivery
  }

  function Summarise(o: Order): (s: Summary)
    ensures s.paidOn == PaidOnFor(o)
    ensures s.tone == Yellow <==> o.status == "Pending"
    ensures s.customer == (if o.owner.Some? && o.owner.value.email != "" then o.owner.value.email else "Guest")
    ensures s.id == o.id && s.status == o.status && s.itemCount == o.itemCount && s.payment == o.payment
    ensures s.subTotal == o.subTotal && s.phone == o.phone && s.address == o.address
  {
    var customer := if o.owner.Some? then Or(o.owner.value.email, "Guest") else "Guest";
    Summary(o.id, o.status, if o.status == "Pending" then Yellow else Green, o.itemCount, o.payment,
            o.subTotal, PaidOnFor(o), o.phone, o.address, customer)
  }

  /** The owner-or-admin test `user._id === order.user._id || user.role === "admin"`. An absent
      `_id` on both sides compares equal, as `undefined === undefined` does. */
  predicate MayView(user: UserRecord, owner: Owner) {
    user.id == owner.id || user.role == AdminRole
  }

  /** The page's render decision. */
  function Render(s: PageState, user: Option<UserRecord>): (v: View)
    ensures s.loading ==> v == Spinner
    ensures !s.loading && s.order.None? ==> v == NoOrder
    ensures v.Details? <==>
      && !s.loading && s.order.Some? && user.Some? && s.order.value.owner.Some?
      && MayView(user.value, s.order.value.owner.value)
    ensures v.Details? ==> v.summary == Summarise(s.order.value)
    ensures v == RenderError <==> !s.loading && s.order.Some? && (user.None? || s.order.value.owner.None?)
  {
    if s.loading then Spinner
    else match s.order
      case None => NoOrder
      case Some(o) =>
        if user.None? || o.owner.None? then RenderError
        else if MayView(user.value, o.owner.value) then Details(Summarise(o))
        else NotYours
  }

  /* ------------------------------------------------------------ properties */

  /** The page leaves the spinner after the fetch, whatever the answer. */
  lemma FetchSettlesPage(id: string, reply: Reply<Option<Order>>, user: Option<UserRecord>)
    ensures Render(Initial, user) == Spinner
    ensures Render(FetchOrder(Initial, id, reply).0, user) != Spinner
    ensures reply.Fail? ==> Render(FetchOrder(Initial, id, reply).0, user) == NoOrder
  {
  }

  /** An admin sees every order whose owner is populated. */
  lemma AdminSeesEveryOrder(s: PageState, user: UserRecord)
    requires !s.loading && s.order.Some? && s.order.value.owner.Some?
    requires user.role == AdminRole
    ensures Render(s, Some(user)) == Details(Summarise(s.order.value))
  {
  }

  /** The record `login` stores has no `_id`, so a non-admin signed in through the login form
      is refused every order whose owner carries an id, including their own. */
  lemma LoginRecordRefused(c: Session.Client, name: string, token: string, role: string, email: string,
                           cartReply: Reply<Cart.CartPayload>, s: PageState)
    requires role != AdminRole
    requires !s.loading && s.order.Some? && s.order.value.owner.Some? && s.order.value.owner.value.id.Some?
    ensures Render(s, Session.Login(c, name, token, role, email, true, cartReply).client.auth.user) == NotYours
  {
    Session.LoginEstablishesSession(c, name, token, role, email, cartReply);
  }

  /** Two records that differ only in `_id` are treated alike on an order whose owner has no
      `_id`: both absent ids compare equal, so such an order is shown to the id-less record. */
  lemma AbsentIdsCompareEqual(u: UserRecord, owner: Owner)
    requires u.id.None? && owner.id.None?
    ensures MayView(u, owner)
  {
  }

  /** The payment time a "Paid On" line stands for: "" for cash on delivery. */
  function PaidAtText(p: PaidOn): string {
    if p.PaidAt? then p.when else ""
  }

  /** Fetching an order its viewer may see shows exactly that order's details: the "Paid On"
      line gives back the order's payment time, and a customer other than "Guest" is the
      owner's email. */
  lemma FetchedOrderShown(id: string, o: Order, u: UserRecord)
    requires o.owner.Some? && MayView(u, o.owner.value)
    ensures Render(FetchOrder(Initial, id, Ok(Some(o))).0, Some(u)) == Details(Summarise(o))
    ensures PaidAtText(Summarise(o).paidOn) == o.paidAt
    ensures Summarise(o).customer != "Guest" ==> Summarise(o).customer == o.owner.value.email
  {
  }
}
