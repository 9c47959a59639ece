/** The admin order console (`src/pages/admin/AllOrders.jsx`): the order list, the
    case-insensitive search filter over owner email and order id, and status updates that are
    followed by a full refetch. */
module AdminOrders {
  import opened Wrappers
  import opened Strings
  import opened Entities
  import opened Http

  /** `{ orders, search, loading }`. */
  datatype ConsoleState = ConsoleState(orders: seq<Order>, search: string, loading: bool)

  const Initial := ConsoleState([], "", true)

  const AllOrdersPath := "/api/order/admin/all"
  const FetchAll := Request(Get, AllOrdersPath, [])

  /** The options of the status selector, in order. */
  const StatusOptions: seq<string> := ["Pending", "Shipped", "Delivered"]

  /* ------------------------------------------------------------ the search filter */

  /** `order.user?.email?.toLowerCase() || ""`, before lower-casing. */
  function EmailOf(o: Order): string {
    if o.owner.Some? then o.owner.value.email else ""
  }

  /** The filter's test for one order. */
  predicate Matches(o: Order, search: string) {
    Includes(Lower(EmailOf(o)), Lower(search)) || Includes(Lower(o.id), Lower(search))
  }

  /** `orders.filter(order => Matches(order, search))`. */
  function Filter(orders: seq<Order>, search: string): (r: seq<Order>)
    ensures |r| <= |orders|
    ensures forall o :: o in r <==> o in orders && Matches(o, search)
    decreases |orders|
  {
    if |orders| == 0 then []
    else if Matches(orders[0], search) then [orders[0]] + Filter(orders[1..], search)
    else Filter(orders[1..], search)
  }

  /** `a` is `b` with some elements left out, the rest in their original order: each element
      of `b` is either taken as the next element of `a` or skipped. */
  ghost predicate Subsequence<T>(a: seq<T>, b: seq<T>)
    decreases |b|
  {
    if |b| == 0 then |a| == 0
    else (|a| > 0 && a[0] == b[0] && Subsequence(a[1..], b[1..])) || Subsequence(a, b[1..])
  }

  /** The filter keeps the orders in their original relative order. */
  lemma {:induction false} FilterIsSubsequence(orders: seq<Order>, search: string)
    ensures Subsequence(Filter(orders, search), orders)
    decreases |orders|
  {
    if |orders| > 0 {
      FilterIsSubsequence(orders[1..], search);
      var rest := Filter(orders[1..], search);
      if Matches(orders[0], search) {
        assert ([orders[0]] + rest)[1..] == rest;
      }
    }
  }

  /** The filter keeps every copy of a matching order and no copy of any other, so together
      with `FilterIsSubsequence` it is exactly `orders.filter`. */
  lemma {:induction false} FilterKeepsCopies(orders: seq<Order>, search: string)
    ensures forall o :: multiset(Filter(orders, search))[o] == if Matches(o, search) then multiset(orders)[o] else 0
    decreases |orders|
  {
    if |orders| > 0 {
      FilterKeepsCopies(orders[1..], search);
      assert orders == [orders[0]] + orders[1..];
      assert multiset(orders) == multiset{orders[0]} + multiset(orders[1..]);
      if Matches(orders[0], search) {
        assert multiset(Filter(orders, search)) == multiset{orders[0]} + multiset(Filter(orders[1..], search));
      }
    }
  }

  /** An empty search keeps every order. */
  lemma {:induction false} EmptySearchKeepsAll(orders: seq<Order>)
    ensures Filter(orders, "") == orders
    decreases |orders|
  {
    if |orders| > 0 {
      IncludesEmpty(Lower(orders[0].id));
      EmptySearchKeepsAll(orders[1..]);
      assert [orders[0]] + orders[1..] == orders;
    }
  }

  /** Only the empty string is included in the empty string. */
  lemma IncludedInEmpty(t: string)
    ensures Includes("", t) <==> t == ""
  {
  }

  /** An order with no owner, or an owner without an email, is found only through its id. */
  lemma NoEmailMatchesById(o: Order, search: string)
    requires EmailOf(o) == ""
    ensures Matches(o, search) <==> Includes(Lower(o.id), Lower(search))
  {
    IncludedInEmpty(Lower(search));
    if Lower(search) == "" {
      IncludesEmpty(Lower(o.id));
    }
  }

  /** The search ignores ASCII case: upper-casing letters in the query changes nothing. */
  lemma SearchIgnoresCase(o: Order, search: string)
    ensures Matches(o, search) <==> Matches(o, Lower(search))
  {
    LowerIdempotent(search);
  }

  /** An order is kept exactly when the lower-cased query occurs in its lower-cased email or
      its lower-cased id. */
  lemma KeptIffOccurs(orders: seq<Order>, search: string, o: Order)
    requires o in orders
    ensures o in Filter(orders, search) <==>
      (exists i :: OccursAt(Lower(EmailOf(o)), Lower(search), i)) || (exists i :: OccursAt(Lower(o.id), Lower(search), i))
  {
    IncludesIffOccurs(Lower(EmailOf(o)), Lower(search));
    IncludesIffOccurs(Lower(o.id), Lower(search));
  }

  /* ------------------------------------------------------------ loading and updates */

  /** `fetchOrders`: a 2xx answer replaces the list wholesale; `loading` goes false either way. */
  function FetchOrders(s: ConsoleState, reply: Reply<seq<Order>>): (r: ConsoleState)
    ensures !r.loading && r.search == s.search
    ensures reply.Ok? ==> r.orders == reply.body
    ensures reply.Fail? ==> r.orders == s.orders
  {
    match reply
    case Ok(list) => s.(orders := list, loading := false)
    case Fail(_) => s.(loading := false)
  }

  /** `updateOrderStatus(orderId, status)`: the status is sent as chosen, with no check of the
      current one. Success toasts and refetches; a failure toasts the server's message; a
      failure without a response throws inside the handler before `loading` is cleared. */
  function UpdateOrderStatus(s: ConsoleState, orderId: string, status: string,
                             write: Reply<Ack>, refetch: Reply<seq<Order>>): (r: (ConsoleState, seq<Effect>))
    ensures |r.1| > 0 && r.1[0] == Request(Put, "/api/order/" + orderId, [Field("status", status)])
    ensures write.Ok? ==> r.0 == FetchOrders(s, refetch) && Count(r.1, FetchAll) == 1
    ensures write.Fail? ==> r.0.orders == s.orders && Count(r.1, FetchAll) == 0
    ensures write.Fail? ==> (r.0.loading <==> write.failure.NoResponse?)
  {
    var put := Request(Put, "/api/order/" + orderId, [Field("status", status)]);
    match write
    case Ok(a) =>
      CountPair(Toast(SuccessToast, a.message), FetchAll, FetchAll);
      CountAppend([put], [Toast(SuccessToast, a.message), FetchAll], FetchAll);
      (FetchOrders(s, refetch), [put, Toast(SuccessToast, a.message), FetchAll])
    case Fail(f) =>
      CountPair(put, ServerError(f), FetchAll);
      (if f.NoResponse? then s.(loading := true) else s.(loading := false), [put, ServerError(f)])
  }

  /** The option a controlled selector shows for an order: its status when that is one of the
      options, and otherwise the first option, which React selects when no option carries the
      value. */
  function Displayed(o: Order): (d: string)
    ensures d in StatusOptions
    ensures o.status in StatusOptions ==> d == o.status
  {
    if o.status in StatusOptions then o.status else StatusOptions[0]
  }

  /** Choosing the option at `i` in an order's selector. The browser fires `onChange` only when
      the choice differs from the option already shown, so picking the shown option again
      sends nothing; any other choice runs `updateOrderStatus`. */
  function SelectStatus(s: ConsoleState, o: Order, i: nat, write: Reply<Ack>, refetch: Reply<seq<Order>>): (r: (ConsoleState, seq<Effect>))
    requires i < |StatusOptions|
    ensures StatusOptions[i] == Displayed(o) ==> r == (s, [])
    ensures StatusOptions[i] != Displayed(o) ==>
      |r.1| > 0 && r.1[0] == Request(Put, "/api/order/" + o.id, [Field("status", StatusOptions[i])])
  {
    if StatusOptions[i] == Displayed(o) then (s, [])
    else UpdateOrderStatus(s, o.id, StatusOptions[i], write, refetch)
  }

  /** What the console shows below the search box. */
  datatype View = Spinner | Rows(orders: seq<Order>) | NoOrders

  /** The table lists every order the search keeps, in the list's order, and "No Orders"
      appears exactly when the search keeps none. */
  function Show(s: ConsoleState): (v: View)
    ensures s.loading <==> v == Spinner
    ensures v.Rows? ==> v.orders == Filter(s.orders, s.search) && |v.orders| > 0
    ensures v.Rows? ==> forall o :: o in s.orders && Matches(o, s.search) <==> o in v.orders
    ensures !s.loading ==> (v == NoOrders <==> forall o :: o in s.orders ==> !Matches(o, s.search))
  {
    if s.loading then Spinner
    else
      var kept := Filter(s.orders, s.search);
      if |kept| > 0 then assert kept[0] in kept; Rows(kept) else NoOrders
  }

  /** The owner cell: the email when an owner is populated, "Guest / Unknown" otherwise. */
  function OwnerCell(o: Order): (c: string)
    ensures o.owner.Some? ==> c == o.owner.value.email
    ensures o.owner.None? ==> c == "Guest / Unknown"
  {
    if o.owner.Some? then o.owner.value.email else "Guest / Unknown"
  }

  /* ------------------------------------------------------------ properties */

  /** Any option other than the shown one can be chosen from any current status: moving a
      delivered order back to pending sends the request like any other choice. */
  lemma NoForwardOnlyCheck(s: ConsoleState, o: Order, write: Reply<Ack>, refetch: Reply<seq<Order>>)
    ensures o.status == "Delivered" ==>
      SelectStatus(s, o, 0, write, refetch).1[0] == Request(Put, "/api/order/" + o.id, [Field("status", "Pending")])
  {
  }

  /** Re-selecting the status an order already has sends nothing and changes nothing, and a
      request goes out exactly when the choice differs from the shown option. */
  lemma SelectSendsIffChanged(s: ConsoleState, o: Order, i: nat, write: Reply<Ack>, refetch: Reply<seq<Order>>)
    requires i < |StatusOptions|
    ensures o.status == StatusOptions[i] ==> SelectStatus(s, o, i, write, refetch) == (s, [])
    ensures SelectStatus(s, o, i, write, refetch).1 != [] <==> StatusOptions[i] != Displayed(o)
  {
  }

  /** The selector offers exactly three distinct statuses. */
  lemma StatusOptionsFixed()
    ensures |StatusOptions| == 3
    ensures forall i, j :: 0 <= i < j < |StatusOptions| ==> StatusOptions[i] != StatusOptions[j]
    ensures forall st :: st in StatusOptions <==> st == "Pending" || st == "Shipped" || st == "Delivered"
  {
  }

  /** A successful update ends with the refetched list and the spinner off. */
  lemma UpdateThenRefetch(s: ConsoleState, orderId: string, status: string, a: Ack, list: seq<Order>)
    ensures UpdateOrderStatus(s, orderId, status, Ok(a), Ok(list)).0 == ConsoleState(list, s.search, false)
  {
  }
}
