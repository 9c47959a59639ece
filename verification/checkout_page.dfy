/** The checkout page (`src/pages/user/Checkout.jsx`): the saved-address list, kept current by
    refetching it after every successful write, the add-address dialog, and confirmed deletes. */
module CheckoutPage {
  import opened Wrappers
  import opened Strings
  import opened Entities
  import opened Http
  import Routes

  /** The add-address form. */
  datatype Draft = Draft(address: string, phone: string)

  const BlankDraft := Draft("", "")

  /** `{ address (the list), loading, modalOpen, newAddress }`. */
  datatype CheckoutState = CheckoutState(addresses: seq<Address>, loading: bool, modalOpen: bool, draft: Draft)

  const Initial := CheckoutState([], true, false, BlankDraft)

  const FetchAll := Request(Get, "/api/address/all", [])

  /** `fetchAddress`: a 2xx answer replaces the list wholesale; `loading` goes false either way. */
  function FetchAddresses(s: CheckoutState, reply: Reply<seq<Address>>): (r: CheckoutState)
    ensures !r.loading && r.modalOpen == s.modalOpen && r.draft == s.draft
    ensures reply.Ok? ==> r.addresses == reply.body
    ensures reply.Fail? ==> r.addresses == s.addresses
  {
    match reply
    case Ok(list) => s.(addresses := list, loading := false)
    case Fail(_) => s.(loading := false)
  }

  /** `handleAddAddress`: posts the draft; only an answer that carries a message toasts it,
      refetches, resets the draft and closes the dialog. */
  function AddAddress(s: CheckoutState, write: Reply<Ack>, refetch: Reply<seq<Address>>): (r: (CheckoutState, seq<Effect>))
    ensures |r.1| > 0 && r.1[0] == Request(Post, "/api/address/new", [Field("address", s.draft.address), Field("phone", s.draft.phone)])
    ensures write.Ok? && write.body.message != "" ==>
      && r.0 == FetchAddresses(s, refetch).(draft := BlankDraft, modalOpen := false)
      && Count(r.1, FetchAll) == 1
    ensures !(write.Ok? && write.body.message != "") ==> r.0 == s && Count(r.1, FetchAll) == 0
  {
    var post := Request(Post, "/api/address/new", [Field("address", s.draft.address), Field("phone", s.draft.phone)]);
    match write
    case Ok(a) =>
      if a.message != "" then
        CountAppend([post, Toast(SuccessToast, a.message)], [FetchAll], FetchAll);
        (FetchAddresses(s, refetch).(draft := BlankDraft, modalOpen := false), [post, Toast(SuccessToast, a.message), FetchAll])
      else (s, [post])
    case Fail(e) =>
      CountPair(post, ServerError(e), FetchAll);
      (s, [post, ServerError(e)])
  }

  /** The message a failed delete shows. */
  function DeleteError(f: Failure): (m: string)
    ensures f.NoResponse? ==> m == "An unexpected error occurred"
    ensures f.Status? ==> m == (if f.message != "" then f.message else "Error deleting address")
  {
    match f
    case NoResponse => "An unexpected error occurred"
    case Status(_, message) => Or(message, "Error deleting address")
  }

  /** `deleteHandler(id)`; `confirmed` is the answer to the browser's confirmation dialog. */
  function DeleteAddress(s: CheckoutState, id: string, confirmed: bool,
                         write: Reply<Ack>, refetch: Reply<seq<Address>>): (r: (CheckoutState, seq<Effect>))
    ensures !confirmed ==> r == (s, [])
    ensures confirmed ==> |r.1| > 0 && r.1[0] == Request(Delete, "/api/address/" + id, [])
    ensures confirmed && write.Ok? ==> r.0 == FetchAddresses(s, refetch) && Count(r.1, FetchAll) == 1
    ensures confirmed && write.Fail? ==> r == (s, [Request(Delete, "/api/address/" + id, []), Toast(ErrorToast, DeleteError(write.failure))])
  {
    if !confirmed then (s, [])
    else
      var del := Request(Delete, "/api/address/" + id, []);
      match write
      case Ok(a) =>
        CountAppend([del, Toast(SuccessToast, a.message)], [FetchAll], FetchAll);
        (FetchAddresses(s, refetch), [del, Toast(SuccessToast, a.message), FetchAll])
      case Fail(e) => (s, [del, Toast(ErrorToast, DeleteError(e))])
  }

  /** One address card: its text and the target of its "Use Address" link. */
  datatype Card = Card(address: string, phone: string, link: string, deleteId: string)

  datatype View = Spinner | NoAddress | Cards(cards: seq<Card>)

  function PaymentLink(a: Address): string {
    "/payment/" + a.id
  }

  /** What the page shows: the spinner, "No Address found" for an empty list, or one card per
      address in list order. */
  function Show(s: CheckoutState): (v: View)
    ensures s.loading <==> v == Spinner
    ensures !s.loading ==> (v == NoAddress <==> |s.addresses| == 0)
    ensures v.Cards? ==> |v.cards| == |s.addresses| && forall i :: 0 <= i < |v.cards| ==>
      v.cards[i] == Card(s.addresses[i].address, s.addresses[i].phone, "/payment/" + s.addresses[i].id, s.addresses[i].id)
  {
    if s.loading then Spinner
    else if |s.addresses| == 0 then NoAddress
    else Cards(seq(|s.addresses|, i requires 0 <= i < |s.addresses| =>
      Card(s.addresses[i].address, s.addresses[i].phone, PaymentLink(s.addresses[i]), s.addresses[i].id)))
  }

  /* ------------------------------------------------------------ properties */

  /** After any successful write the shown list is exactly what the refetch returned. */
  lemma WritesKeepListCurrent(s: CheckoutState, id: string, a: Ack, list: seq<Address>)
    requires a.message != ""
    ensures AddAddress(s, Ok(a), Ok(list)).0.addresses == list
    ensures DeleteAddress(s, id, true, Ok(a), Ok(list)).0.addresses == list
    ensures AddAddress(s, Ok(a), Ok(list)).0.draft == BlankDraft && !AddAddress(s, Ok(a), Ok(list)).0.modalOpen
  {
  }

  /** An answer without a message leaves everything as it was, dialog and draft included. */
  lemma SilentAnswerKeepsDialog(s: CheckoutState, refetch: Reply<seq<Address>>)
    ensures AddAddress(s, Ok(Ack("")), refetch).0 == s
  {
  }

  /** A card's link leads a signed-in session to the payment page, for any id that is a single
      path segment. */
  lemma LinkReachesPayment(a: Address, user: Option<UserRecord>)
    requires a.id != "" && '/' !in a.id
    ensures Routes.Decide(false, true, user, PaymentLink(a)) == Routes.PaymentView
  {
    PaymentSegments(a.id);
    Routes.ProtectedNeedsAuth(Routes.Payment, true, user, PaymentLink(a));
  }

  lemma PaymentSegments(id: string)
    requires id != "" && '/' !in id
    ensures Routes.Segments("/payment/" + id) == ["payment", id]
    ensures Routes.Matches(Routes.Pattern(Routes.Payment), ["payment", id])
  {
    Routes.PathSegments(["payment", id]);
    Routes.TwoSegmentPath("payment", id);
    assert "/" + "payment" + "/" + id == "/payment/" + id;
    Routes.PlainHeads();
  }
}
