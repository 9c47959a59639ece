/** What the storefront's handlers see of the network and what they do to the page: server
    replies are abstract inputs, and requests, toasts and navigations are emitted effects. */
module Http {

  /** Why an axios or fetch call rejected. */
  datatype Failure =
    | NoResponse                          // network error: `error.response` is undefined
    | Status(code: int, message: string)  // an error status; "" when the body carries no message

  /** The settled outcome of one request. */
  datatype Reply<+T> = Ok(body: T) | Fail(failure: Failure)

  /** The body of a write request's answer: `{ message }`, "" when absent. */
  datatype Ack = Ack(message: string)

  datatype Verb = Get | Post | Put | Delete

  /** One named field of a request body. */
  datatype Field = Field(name: string, value: string)

  datatype ToastKind = SuccessToast | ErrorToast | InfoToast

  datatype Effect =
    | Request(verb: Verb, path: string, body: seq<Field>)
    | Toast(kind: ToastKind, text: string)
    | Navigate(path: string)   // the router's `navigate(path)`
    | Assign(url: string)      // `window.location.href = url`
    | Uncaught                 // a TypeError or ReferenceError escaping an async handler

  /** `toast.error(error.response.data.message)`: shows the server's message, and throws
      when the request got no response at all. */
  function ServerError(f: Failure): Effect {
    match f
    case NoResponse => Uncaught
    case Status(_, m) => Toast(ErrorToast, m)
  }

  /** `formData.append("files", f)` for each chosen file, in order. */
  function FileParts(files: seq<string>): (r: seq<Field>)
    ensures |r| == |files| && forall i :: 0 <= i < |files| ==> r[i] == Field("files", files[i])
  {
    seq(|files|, i requires 0 <= i < |files| => Field("files", files[i]))
  }

  /** `err.response?.data?.message || fallback`: the server's message when there is one. */
  function MessageOr(f: Failure, fallback: string): (m: string)
    ensures f.NoResponse? ==> m == fallback
    ensures f.Status? && f.message != "" ==> m == f.message
    ensures f.Status? && f.message == "" ==> m == fallback
  {
    match f
    case NoResponse => fallback
    case Status(_, message) => Or(message, fallback)
  }

  /** JavaScript's `a || b` on strings: the empty string is false. */
  function Or(a: string, b: string): string {
    if a != "" then a else b
  }

  /** How many times `e` occurs in `effects`. */
  function Count(effects: seq<Effect>, e: Effect): nat
    decreases |effects|
  {
    if |effects| == 0 then 0
    else (if effects[0] == e then 1 else 0) + Count(effects[1..], e)
  }

  lemma {:induction false} CountAppend(a: seq<Effect>, b: seq<Effect>, e: Effect)
    ensures Count(a + b, e) == Count(a, e) + Count(b, e)
    decreases |a|
  {
    if |a| > 0 {
      assert (a + b)[1..] == a[1..] + b;
      CountAppend(a[1..], b, e);
    } else {
      assert a + b == b;
    }
  }

  lemma CountPair(a: Effect, b: Effect, e: Effect)
    ensures Count([a, b], e) == (if a == e then 1 else 0) + (if b == e then 1 else 0)
  {
    assert [a, b][1..] == [b];
    assert [b][1..] == [];
    assert Count([b], e) == (if b == e then 1 else 0) + Count([], e);
    assert Count([a, b], e) == (if a == e then 1 else 0) + Count([b], e);
  }
}
