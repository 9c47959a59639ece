# MernifyFrontendNew storefront — a Dafny model

This project models the client half of a small React storefront. Every handler becomes a pure
function from the state it reads and the server's answer to the new state plus the side
effects it emits. Those effects are HTTP requests, toasts, navigations, full-page redirects and
uncaught exceptions. The model covers:

- the authentication context: session restore from `localStorage` and the token cookie,
  login and logout;
- the cart context: fetch, add, update, remove and clear;
- the route table of `App.jsx` and the admin layout's guard and sidebar;
- the login, signup, order, admin-orders, payment, checkout and cart pages;
- the product context: the listing URL, with a round trip through its query string, and the
  refetch-on-dependency rule;
- the admin home page: paging and the multipart new-product form;
- the product page: stars, reviews, the average rating, cart controls and the admin edit form.

A server answer is `Reply<T>`: either `Ok(body)` or `Fail(NoResponse | Status(code, message))`.
Reading `error.response.data.message` with no response throws inside a `catch`. The model
shows that as an `Uncaught` effect (`Http.ServerError`). Toast texts, endpoint paths and
route patterns are the source's own.

Modules follow the source files:

- `Wrappers`, `Strings`, `Http`, `Entities`: shared;
- `Cart`, `Session`, `Catalog`: the three contexts;
- `Routes`, `AdminLayout`: the route table and the admin layout;
- one module per page: `LoginPage`, `SignupPage`, `OrderPage`, `AdminOrders`, `PaymentPage`,
  `CheckoutPage`, `CartPage`, `AdminHome`, `ProductPage`.

The route table has no entry for `/admin/orders`, though the admin sidebar links to it. The
model follows `App.jsx`, and that path renders NotFound (`Routes.AdminOrdersNotRouted`).

## Model

| member | source | states |
|---|---|---|
| Cart.FetchCart | src/context/CartContext.jsx:15-28 | a 2xx answer replaces cart, item total and subtotal wholesale with the server's; a failure keeps the old state |
| Cart.AddToCart | src/context/CartContext.jsx:29-41 | posts the product id; on success the state is exactly the refetched cart and the cart is refetched once; on failure nothing changes and nothing is refetched |
| Cart.UpdateCart | src/context/CartContext.jsx:43-54 | puts to `/api/cart/update?action=<action>` with the line id; success refetches once and adopts the refetch; failure keeps the state |
| Cart.RemoveFromCart | src/context/CartContext.jsx:56-68 | deletes `/api/cart/remove/<id>`; success refetches once and adopts the refetch; failure keeps the state |
| Cart.ClearCart | src/context/CartContext.jsx:79-83 | empties lines and zeroes both totals without any request |
| Cart.FetchCartNoMerge | src/context/CartContext.jsx:22-24 | the fetched state does not depend on the previous state: the client never merges, it adopts the server's payload |
| Cart.UpdateIgnoresAction | src/context/CartContext.jsx:43-54 | the resulting state is the same for every action string: the client does no arithmetic and trusts the refetch |
| Cart.UpdateForwardsAction | src/context/CartContext.jsx:45 | the request path carries the action string verbatim |
| Cart.ClearCartIdempotent | src/context/CartContext.jsx:79-83 | clearing twice equals clearing once, and the result is the initial empty cart |
| Cart.EmptyConsistent | src/context/CartContext.jsx:11-14 | the initial cart's totals agree with its (empty) lines |
| Cart.OperationsPreserveConsistency | src/context/CartContext.jsx:15-83 | if the server's cart payloads are self-consistent (totals are the sums over lines), every operation keeps the context's totals consistent with its lines |
| Cart.MalformedAnswerAdopted | src/context/CartContext.jsx:22-24 | a payload whose totals disagree with its lines is adopted as is, so consistency rests entirely on the server |
| CartPage.Show | src/pages/user/Cart.jsx:20-63 | the empty state appears iff there are no lines; otherwise the lines and the context's totals are shown, with checkout enabled iff not disabled |
| CartPage.Press | src/pages/user/Cart.jsx:39-43 | "-" and "+" call `updateCart` with "decrement"/"increment", the trash icon calls `removeFromCart`, each with the line id |
| CartPage.CheckoutEnabledWhenShown | src/pages/user/Cart.jsx:63 | checkout is disabled iff the cart is empty, so it is always enabled where it is shown |
| CartPage.ButtonsSendRequests | src/pages/user/Cart.jsx:39-43 | each button's first effect is the matching cart request |
| CartPage.PlusMinusSameState | src/pages/user/Cart.jsx:39-41 | "+" and "-" lead to the same state given the same answers |
| CartPage.TotalsNotRecomputed | src/pages/user/Cart.jsx:55-62 | the summary shows the context's totals even when they disagree with the lines |
| Session.Restore | src/context/AuthContext.jsx:49-73 | restore always ends loading and yields a valid auth state; cart, cookies and the button flag are untouched |
| Session.RestoreAuthenticatedIff | src/context/AuthContext.jsx:54-58 | authenticated iff a truthy stored user and a token cookie exist and the parsed record has a username, and then the user is that record |
| Session.RestoreFailureSignsOut | src/context/AuthContext.jsx:65-70 | a failed restore clears the user and removes only the `loggedInUser` key, keeping every other key and the cookies |
| Session.RestoreIgnoresRole | src/context/AuthContext.jsx:55-58 | whether restore succeeds does not depend on the stored role |
| Session.Login | src/context/AuthContext.jsx:22-47 | the button flag always ends false, and a valid auth state stays valid |
| Session.LoginEstablishesSession | src/context/AuthContext.jsx:25-40 | a login persists `{username, role, email}` and the token, authenticates with exactly that record, refetches the cart once and navigates to the admin dashboard iff the role is "admin" |
| Session.LoginFailureKeepsState | src/context/AuthContext.jsx:41-46 | a login whose storage write throws changes only the button flag and toasts "Login failed" |
| Session.RestoreAfterLogin | src/context/AuthContext.jsx:25-28 | restoring after a login reconstructs the same record iff username and token are non-empty; the record has no `_id` |
| Session.RunAppend | src/context/AuthContext.jsx:75-85 | running a statement list in two pieces equals running it whole |
| Session.EmittedAppend | src/context/AuthContext.jsx:75-85 | the effects of a statement list are the effects of its pieces, concatenated |
| Session.Quiet | src/context/AuthContext.jsx:76-82 | statements that neither navigate nor toast emit nothing |
| Session.ClearingSignsOut | src/context/AuthContext.jsx:76-82 | after the six clearing statements of logout the client is signed out: no user, not authenticated, both keys and the cookie gone, cart empty |
| Session.Logout | src/context/AuthContext.jsx:75-85 | logout runs the six clearing statements, then navigates to /login and toasts; `LogoutSignsOut` and `LogoutClearsBeforeNavigating` state what that achieves |
| Session.LogoutSignsOut | src/context/AuthContext.jsx:75-85 | logout signs out, keeps `loading` and every other storage key, and emits exactly the navigation to /login and the success toast |
| Session.LogoutClearsBeforeNavigating | src/context/AuthContext.jsx:75-85 | at the moment logout navigates, the client is already signed out |
| Session.TransitionsKeepValid | src/context/AuthContext.jsx:10-85 | restore, login and logout keep "authenticated implies a user record" |
| Session.RestoreUnblocksRendering | src/context/AuthContext.jsx:72-89 | the provider renders nothing before restore and renders its children after it, whatever storage holds |
| Routes.FirstMatch | src/App.jsx:31-52 | the first route whose pattern matches is chosen; none matches iff no route in the table matches |
| Routes.RoutesDisjoint | src/App.jsx:31-49 | no path matches two route patterns, so route order never matters |
| Routes.MatchIsUnique | src/App.jsx:31-49 | a route is chosen for a path iff its own pattern matches the path |
| Routes.DecideChosen | src/App.jsx:24-52 | once loaded, a matching route shows its element |
| Routes.LoadingShowsOnlyLoading | src/App.jsx:24 | while loading, every path shows the loading view, which no route element produces |
| Routes.ProtectedNeedsAuth | src/App.jsx:36-42 | a protected route shows the login page iff not authenticated and its page iff authenticated, whatever the role |
| Routes.AdminDashboardOnlyForAdmins | src/App.jsx:45 | the admin dashboard appears on some path only for an authenticated admin |
| Routes.AdminDashboardRoute | src/App.jsx:45 | on /adminDashboard the dashboard shows iff authenticated with role "admin", and the login page otherwise |
| Routes.AuthPagesRedirectHome | src/App.jsx:48-49 | /login and /signup show Home to an authenticated session and the form otherwise |
| Routes.PublicRoutesIgnoreSession | src/App.jsx:31-52 | the public routes and the catch-all show the same view whatever the session |
| Routes.UnlistedIsNotFound | src/App.jsx:52 | a path matching no pattern shows NotFound |
| Routes.Segments | src/App.jsx:31-52 | a pathname without its leading "/" gives the single empty segment, which no route matches; otherwise the router drops the leading "/" and any trailing "/"s and keeps every interior segment, empty ones included |
| Routes.Element | src/App.jsx:31-49 | a matched route never renders the loading or NotFound view, and a signed-out session only ever gets Home, the listing, a product page, Login or Signup |
| Routes.Decide | src/App.jsx:24-52 | the loading view appears iff the session is loading; NotFound appears iff it has settled and no route's pattern matches the path |
| Routes.PathSegments | src/App.jsx:31-52 | "/" followed by non-empty, slash-free segments joined with "/" has exactly those segments |
| Routes.TrailingSlashIgnored | src/App.jsx:31-52 | adding a trailing "/" to a pathname does not change the route it reaches |
| Routes.EmptySegmentNotFound | src/App.jsx:31-52 | a path with an empty segment between two slashes matches no route and shows NotFound for every session |
| Routes.DoubledSlashNotFound | src/App.jsx:36-52 | "//cart" shows NotFound even to a signed-in session, not the cart |
| Routes.AdminOrdersNotRouted | src/App.jsx:31-52 | /admin/orders matches no route and shows NotFound for every session |
| Routes.CartPath | src/App.jsx:36 | /cart shows the cart iff authenticated, the login page otherwise |
| AdminLayout.Render | src/components/AdminLayout.jsx:15-53 | the layout redirects to /login iff there is no user or the role is not "admin"; otherwise it shows the three sidebar entries, highlighting those whose path equals the current path |
| AdminLayout.Click | src/components/AdminLayout.jsx:40 | clicking an entry navigates to that entry's path |
| AdminLayout.ToggleMenu | src/components/AdminLayout.jsx:67 | the menu button flips the sidebar |
| AdminLayout.Close | src/components/AdminLayout.jsx:53 | the close button always closes the sidebar |
| AdminLayout.AtMostOneHighlighted | src/components/AdminLayout.jsx:20-44 | at most one entry is highlighted |
| AdminLayout.SomeHighlightIff | src/components/AdminLayout.jsx:20-44 | for an admin, some entry is highlighted iff the current path is one of the three entry paths |
| AdminLayout.MenuControls | src/components/AdminLayout.jsx:50-67 | toggling twice restores the sidebar, closing is idempotent, and toggling a closed sidebar opens it |
| AdminLayout.GuardAgreesWithRoutes | src/components/AdminLayout.jsx:15-18 | on /adminDashboard the route table's admin check and the layout's guard agree |
| AdminLayout.OrdersEntryUnrouted | src/components/AdminLayout.jsx:22 | the "Orders" entry leads to a path the route table does not serve |
| LoginPage.Endpoint | src/pages/shared/Login.jsx:23-25 | the admin endpoint is used iff the chosen role is "admin", the user endpoint otherwise |
| LoginPage.UserData | src/pages/shared/Login.jsx:41 | `result.user` wins when present, `result.admin` otherwise |
| LoginPage.FindRow | src/pages/shared/Login.jsx:42-44 | finds the first cookie row that starts with "token=" after trimming, or reports that none does |
| LoginPage.ExtractToken | src/pages/shared/Login.jsx:42-45 | a token is found iff some cookie row starts with "token=" |
| LoginPage.TokenIsSecondField | src/pages/shared/Login.jsx:42-45 | the token is the second "="-field of the first token row, and it contains neither "=" nor ";" |
| LoginPage.TokenAfterOtherCookie | src/pages/shared/Login.jsx:42-45 | in `"<before>; token=<t>;<after>"` with no token row in `before` and no ";" or "=" in `t`, the token read is `t` |
| LoginPage.Submit | src/pages/shared/Login.jsx:20-61 | missing email or password toasts and sends nothing; otherwise the role's endpoint is posted; login is called only for an ok answer that has a record and a token cookie, with the record's username, role and email |
| LoginPage.EndpointChoice | src/pages/shared/Login.jsx:13-25 | the initial role "user" posts to the user endpoint; "admin" posts to the admin endpoint |
| LoginPage.RejectedNeverLogsIn | src/pages/shared/Login.jsx:37-39 | a non-ok answer never logs in and toasts the server's message or "Login failed" |
| LoginPage.RoleComesFromRecord | src/pages/shared/Login.jsx:41-51 | the login call is independent of the role chosen in the form: the role comes from the returned record |
| LoginPage.LoginGate | src/pages/shared/Login.jsx:21-56 | login is called iff email and password are filled, the answer is ok, it carries a user or admin record, and the cookie holds a token row with a non-empty value |
| LoginPage.NoRecordCrashes | src/pages/shared/Login.jsx:47-58 | an ok answer with neither record throws at the logging line and ends in the generic error toast, never in "Missing user data or token" |
| LoginPage.EmptyTokenRefused | src/pages/shared/Login.jsx:50-55 | an empty token value never logs in |
| LoginPage.AcceptedLoginSurvivesReload | src/pages/shared/Login.jsx:50-51 | a login the page accepts is restored by the auth context after a reload iff the record's username is non-empty |
| SignupPage.ValidEmailIffPattern | src/pages/shared/Signup.jsx:32 | the executable email check accepts exactly the strings of the form local@domain.tld with no spaces or "@" in the parts |
| SignupPage.Validate | src/pages/shared/Signup.jsx:23-45 | each field has no error iff it is filled and, for email and mobile, matches its pattern (mobile: exactly ten ASCII digits) |
| SignupPage.HandleSignup | src/pages/shared/Signup.jsx:47-76 | an invalid form sends nothing; a valid one posts the four fields; a registered user ends navigating to /login |
| SignupPage.ValidIff | src/pages/shared/Signup.jsx:44 | the form is valid iff all four fields are non-empty and both patterns match |
| SignupPage.RequiredMessages | src/pages/shared/Signup.jsx:27-30 | the "is required" message for a field appears iff the field is empty |
| SignupPage.FormatMessages | src/pages/shared/Signup.jsx:33-40 | the format message for email or mobile appears iff the field is filled but fails its pattern |
| SignupPage.EmailAccepted | src/pages/shared/Signup.jsx:32 | the example "a.b@c.d.e", with a dotted local part and two dots in the domain, is accepted |
| SignupPage.DotAfterAtRefused | src/pages/shared/Signup.jsx:32 | "a@.b", whose domain's only dot is its first character, is refused |
| SignupPage.TrailingDotRefused | src/pages/shared/Signup.jsx:32 | "a@b.", whose domain's only dot is its last character, is refused |
| SignupPage.DomainRule | src/pages/shared/Signup.jsx:32 | for an address with one "@", it is accepted iff the local part is non-empty, nothing is white space, and the domain has a dot that is neither its first nor its last character; so a domain whose every dot sits at an edge is refused |
| SignupPage.InnerDotAccepted | src/pages/shared/Signup.jsx:32 | a non-empty local part and a domain, both free of white space and "@", with a dot strictly inside the domain, make an accepted address |
| SignupPage.EdgeDotWithInnerDotAccepted | src/pages/shared/Signup.jsx:32 | "a@.b.c" and "a@b.c." are accepted: a dot at the edge is harmless when another dot sits inside |
| SignupPage.SecondAtRefused | src/pages/shared/Signup.jsx:32 | an address with two "@" is refused |
| SignupPage.InvalidSendsNothing | src/pages/shared/Signup.jsx:50 | an invalid form emits no effect at all |
| SignupPage.AlreadyKnownIff | src/pages/shared/Signup.jsx:61-70 | the "already registered" notice appears iff the answer says the user exists or the server answers 409 |
| OrderPage.FetchOrder | src/pages/user/OrderPage.jsx:19-36 | the order endpoint is fetched; a 2xx answer replaces the order; loading ends either way |
| OrderPage.PaidOnFor | src/pages/user/OrderPage.jsx:90-91 | an order without `paidAt` is shown as cash on delivery, otherwise with its payment date |
| OrderPage.Summarise | src/pages/user/OrderPage.jsx:66-104 | the card shows the order's fields; the badge is yellow iff the status is "Pending"; the customer is the owner's email or "Guest" |
| OrderPage.MayView | src/pages/user/OrderPage.jsx:52 | the viewer may see the order iff their `_id` equals the owner's (two absent ids compare equal) or their role is "admin" |
| OrderPage.Render | src/pages/user/OrderPage.jsx:39-52 | spinner while loading, "No Order" without an order, details iff the viewer owns the order or is an admin, and a render error when there is no viewer or no owner |
| OrderPage.FetchSettlesPage | src/pages/user/OrderPage.jsx:19-41 | the page starts on the spinner and leaves it after the fetch; a failed fetch shows "No Order" |
| OrderPage.AdminSeesEveryOrder | src/pages/user/OrderPage.jsx:52 | an admin sees any loaded order that has an owner |
| OrderPage.LoginRecordRefused | src/pages/user/OrderPage.jsx:52 | a non-admin session created by login carries no `_id`, so it is shown "not yours" for an owner that has an id |
| OrderPage.AbsentIdsCompareEqual | src/pages/user/OrderPage.jsx:52 | a viewer and an owner that both lack an id compare equal and the order is shown |
| OrderPage.FetchedOrderShown | src/pages/user/OrderPage.jsx:19-104 | fetching an order its viewer may see shows exactly that order's summary; the "Paid On" line gives back the order's payment time, and a customer other than "Guest" is the owner's email |
| AdminOrders.Filter | src/pages/admin/AllOrders.jsx:55-58 | keeps exactly the orders whose owner's email or id contains the search, ignoring ASCII case |
| AdminOrders.FilterIsSubsequence | src/pages/admin/AllOrders.jsx:55 | filtering keeps the original order of the list |
| AdminOrders.FilterKeepsCopies | src/pages/admin/AllOrders.jsx:55-58 | every copy of a matching order is kept and no copy of any other, so with `FilterIsSubsequence` the result is exactly the filtered list |
| AdminOrders.EmptySearchKeepsAll | src/pages/admin/AllOrders.jsx:55-58 | an empty search shows every order |
| AdminOrders.NoEmailMatchesById | src/pages/admin/AllOrders.jsx:56-57 | an order without an owner email matches only by its id |
| AdminOrders.SearchIgnoresCase | src/pages/admin/AllOrders.jsx:56-57 | a search and its lower-cased form select the same orders |
| AdminOrders.KeptIffOccurs | src/pages/admin/AllOrders.jsx:55-58 | an order is kept iff the lowered search occurs at some position of its lowered email or id |
| AdminOrders.FetchOrders | src/pages/admin/AllOrders.jsx:18-30 | a 2xx answer replaces the list, a failure keeps it; loading ends either way |
| AdminOrders.UpdateOrderStatus | src/pages/admin/AllOrders.jsx:36-53 | puts the new status; success refetches once and adopts the refetch; failure keeps the list, and the spinner stays on iff there was no response |
| AdminOrders.Displayed | src/pages/admin/AllOrders.jsx:111-121 | the selector shows the order's status when it is one of the options, and the first option otherwise |
| AdminOrders.SelectStatus | src/pages/admin/AllOrders.jsx:111-121 | picking the option already shown fires no change event and does nothing; any other option sends its status for that order |
| AdminOrders.SelectSendsIffChanged | src/pages/admin/AllOrders.jsx:111-121 | re-selecting an order's current status leaves the console unchanged and sends nothing; a request goes out iff the choice differs from the shown option |
| AdminOrders.Show | src/pages/admin/AllOrders.jsx:72-130 | spinner iff loading; the rows are all the orders the search keeps, in list order; "No Orders" iff the search keeps none |
| AdminOrders.OwnerCell | src/pages/admin/AllOrders.jsx:93 | the owner's email, or "Guest / Unknown" without an owner |
| AdminOrders.NoForwardOnlyCheck | src/pages/admin/AllOrders.jsx:111-121 | a delivered order can be set back to "Pending": the client enforces no status order |
| AdminOrders.StatusOptionsFixed | src/pages/admin/AllOrders.jsx:119-121 | exactly three distinct statuses are offered: Pending, Shipped, Delivered |
| AdminOrders.UpdateThenRefetch | src/pages/admin/AllOrders.jsx:46-48 | after a successful update the console holds exactly the refetched list, with the search kept and loading off |
| PaymentPage.FetchAddress | src/pages/user/Payment.jsx:20-31 | fetches the address by id; a 2xx answer loads it, a failure keeps the page as it was |
| PaymentPage.OrderBody | src/pages/user/Payment.jsx:40-68 | the order body sends the method, then the loaded address and phone |
| PaymentPage.PayCod | src/pages/user/Payment.jsx:37-55 | posts the COD order; success refetches the cart and ends on /orders; failure keeps the cart and never navigates; loading ends either way |
| PaymentPage.PayOnline | src/pages/user/Payment.jsx:57-83 | the online branch as written: a redirect is followed by the session-failure toast, and every other outcome ends on the generic payment-failure toast |
| PaymentPage.PayOnlineIntended | src/pages/user/Payment.jsx:57-83 | the corrected online branch: the session-failure toast appears iff the answer has no url, and a url leads to the redirect alone |
| PaymentPage.PaymentHandler | src/pages/user/Payment.jsx:36-84 | "cod" runs the COD branch, "online" runs the corrected online branch, and any other method does nothing |
| PaymentPage.PaymentHandlerAsWritten | src/pages/user/Payment.jsx:36-84 | the handler as the code runs it: the online branch as written, and otherwise the same as the corrected handler |
| PaymentPage.HandlersDifferOnlyOnline | src/pages/user/Payment.jsx:57-83 | the two handlers differ exactly for an online payment whose post succeeded with Stripe loaded |
| PaymentPage.ProceedEnabled | src/pages/user/Payment.jsx:133 | proceed is enabled iff a method is chosen and an address is loaded |
| PaymentPage.ProceedRule | src/pages/user/Payment.jsx:133 | proceed is disabled initially and after loading only an address; it is enabled once a method is also chosen |
| PaymentPage.OnlineLeavesCartAlone | src/pages/user/Payment.jsx:57-83 | the online branch never changes or refetches the cart and never navigates to /orders |
| PaymentPage.RedirectAlsoReportsFailure | src/pages/user/Payment.jsx:72-77 | as written, a redirect is followed by "Failed to create Payment session" |
| PaymentPage.MissingUrlReportsPaymentFailed | src/pages/user/Payment.jsx:75-81 | as written, a missing url reports "Payment Failed", never the session failure |
| PaymentPage.OnlineVersionsDiffer | src/pages/user/Payment.jsx:72-77 | the as-written and corrected branches differ exactly when Stripe loaded and the server answered |
| PaymentPage.CodRefetchesOnce | src/pages/user/Payment.jsx:49 | a COD order refetches the cart once on success and never on failure |
| CheckoutPage.FetchAddresses | src/pages/user/Checkout.jsx:17-29 | a 2xx answer replaces the list, a failure keeps it; loading ends either way; the dialog is untouched |
| CheckoutPage.AddAddress | src/pages/user/Checkout.jsx:37-57 | posts the draft; only an answer with a message refetches once, clears the draft and closes the dialog; otherwise nothing changes |
| CheckoutPage.DeleteError | src/pages/user/Checkout.jsx:72-76 | the server's message, "Error deleting address" when it is empty, and "An unexpected error occurred" without a response |
| CheckoutPage.DeleteAddress | src/pages/user/Checkout.jsx:62-79 | nothing happens unless confirmed; a confirmed delete refetches once on success and reports the error otherwise |
| CheckoutPage.Show | src/pages/user/Checkout.jsx:84-94 | spinner iff loading; "No Address found" iff the list is empty; otherwise one card per address, in order, linking to `/payment/<id>` |
| CheckoutPage.WritesKeepListCurrent | src/pages/user/Checkout.jsx:45-69 | after a successful add or delete the list is exactly the refetched one |
| CheckoutPage.SilentAnswerKeepsDialog | src/pages/user/Checkout.jsx:45 | an answer without a message leaves draft and dialog as they were |
| CheckoutPage.PaymentLink | src/pages/user/Checkout.jsx:91 | a card links to `/payment/` followed by the address id |
| CheckoutPage.LinkReachesPayment | src/pages/user/Checkout.jsx:91 | a card's link reaches the payment page of the route table for an authenticated session |
| Catalog.ListingUrl | src/context/ProductContext.jsx:19 | the listing request targets the product listing endpoint with a query string |
| Catalog.Cut | src/context/ProductContext.jsx:19 | splits at the first separator, and the two halves rebuild the input |
| Catalog.Lookup | src/context/ProductContext.jsx:19 | a parameter found in a query is the value of some `key=value` pair with that key; the first such pair is read |
| Catalog.ListingRoundTrip | src/context/ProductContext.jsx:19 | when no value contains "&", reading the query back yields search, category, sort and page exactly as set |
| Catalog.SearchCanForgeCategory | src/context/ProductContext.jsx:19 | because values are not escaped, a search text containing "&category=x" puts a `category=x` pair into the query right before the chosen category's pair, and a first-occurrence reading finds x |
| Catalog.FetchProducts | src/context/ProductContext.jsx:17-30 | requests the listing for the current filters; a 2xx answer replaces products, new products, categories and page count; loading ends either way |
| Catalog.FetchProduct | src/context/ProductContext.jsx:33-46 | loading is on during the request and off after it; a 2xx answer replaces product and related products; every other field of the context is left as it was |
| Catalog.Rerender | src/context/ProductContext.jsx:47-49 | the listing is refetched iff search, category, page or price changed |
| Catalog.Set | src/context/ProductContext.jsx:10-14 | each exported setter stores its value in its own field, and the other filters, the page, the product and the related products keep their values |
| Catalog.InitialPaging | src/context/ProductContext.jsx:7-14 | the context starts loading, on page 1 of 1, with empty filters |
| Catalog.SetRefetchesIffChanged | src/context/ProductContext.jsx:47-49 | a setter sends a request iff it changes its dependency |
| Catalog.SetTwiceFetchesOnce | src/context/ProductContext.jsx:47-49 | repeating the same setter sends no second request |
| Catalog.SearchKeepsPage | src/context/ProductContext.jsx:47-49 | changing the search does not reset the page |
| Catalog.LoadingSettles | src/context/ProductContext.jsx:34-44 | a product fetch raises loading and settles it, and a following listing fetch leaves it off |
| Catalog.RefetchNotExported | src/context/ProductContext.jsx:51 | the context does not export `fetchProducts` |
| AdminHome.NextPage | src/pages/admin/HomePage.jsx:16-18 | moves one page forward and requests that page |
| AdminHome.PrevPage | src/pages/admin/HomePage.jsx:19-21 | moves one page back and requests that page |
| AdminHome.ShowGrid | src/pages/admin/HomePage.jsx:119-131 | spinner iff loading; the cards iff there are products; "No Products yet" otherwise |
| AdminHome.Get | src/pages/admin/HomePage.jsx:25-32 | a form key has a value iff some entry has that key, and the value is that entry's |
| AdminHome.Put | src/pages/admin/HomePage.jsx:37 | spreading an existing key keeps the key order; a new key is appended |
| AdminHome.PutGet | src/pages/admin/HomePage.jsx:37 | after a put the key reads the new value and every other key reads as before |
| AdminHome.PutKeepsWellFormed | src/pages/admin/HomePage.jsx:37-41 | putting keeps keys unique and file lists only under "images" |
| AdminHome.HandleChange | src/pages/admin/HomePage.jsx:34-38 | the named field takes the typed value and every other field is unchanged |
| AdminHome.HandleFileChange | src/pages/admin/HomePage.jsx:40-42 | "images" takes the chosen files and every other field is unchanged |
| AdminHome.Images | src/pages/admin/HomePage.jsx:48 | the chosen files, present iff "images" holds a file list |
| AdminHome.Parts | src/pages/admin/HomePage.jsx:55-63 | the multipart parts of the form, entry by entry: a text entry as one part under its key, a file list as one "files" part per file |
| AdminHome.Named | src/pages/admin/HomePage.jsx:55-63 | the multipart parts with a given name, in order |
| AdminHome.TextPartsMatchForm | src/pages/admin/HomePage.jsx:55-63 | a text part is sent iff the form has that text entry |
| AdminHome.FilePartsAreImages | src/pages/admin/HomePage.jsx:56-59 | the "files" parts are exactly the chosen images, one per file, in order |
| AdminHome.NoFilesWithoutImages | src/pages/admin/HomePage.jsx:56-59 | a form without a file list sends no "files" part |
| AdminHome.Create | src/pages/admin/HomePage.jsx:44-85 | no files: an error toast and nothing sent; otherwise the form is posted as multipart; success resets the form, closes the dialog and ends in an uncaught error from the missing `fetchProducts`; failure keeps the state |
| AdminHome.ShowPrev | src/pages/admin/HomePage.jsx:135 | "previous" shows iff the page is not 1 |
| AdminHome.ShowNext | src/pages/admin/HomePage.jsx:141 | "next" shows iff the page is not the last page |
| AdminHome.FirstOfOneHidesPaging | src/pages/admin/HomePage.jsx:135-145 | on the initial page 1 of 1 neither paging control is shown |
| AdminHome.ShownControlsStayInRange | src/pages/admin/HomePage.jsx:135-145 | inside the page range, a shown control leads to a page inside the range |
| AdminHome.PastLastPageRunsAway | src/pages/admin/HomePage.jsx:141 | past the last page "next" stays shown and moves further away |
| AdminHome.ChangeTouchesOnlyItsField | src/pages/admin/HomePage.jsx:34-38 | typing into a text field changes that field only and keeps the form well formed |
| AdminHome.CreateNeedsFiles | src/pages/admin/HomePage.jsx:48-51 | without files nothing is requested and the state is unchanged |
| AdminHome.FormBody | src/pages/admin/HomePage.jsx:55-63 | a filled blank form sends title and price as typed and one "files" part per image |
| AdminHome.BlankSendsEmptyCategory | src/pages/admin/HomePage.jsx:25-61 | the multipart body built from the initial form object, with only files chosen, carries category "" (on the page the `required` select stops that submit) |
| AdminHome.ResetLosesCategory | src/pages/admin/HomePage.jsx:72-79 | the reset form has a misspelt "categroy" key instead of "category", so a following create sends no category until one is typed |
| AdminHome.CreateNeverRefetches | src/pages/admin/HomePage.jsx:72-80 | a successful create resets the form but never requests the listing, because the context does not export `fetchProducts` |
| ProductPage.Stars | src/pages/shared/ProductPage.jsx:55-58 | five stars, lit from the left: a lit star has every star to its left lit |
| ProductPage.ClickStar | src/pages/shared/ProductPage.jsx:59 | clicking star i sets rating i+1, which lights star i and not the next |
| ProductPage.LightsCount | src/pages/shared/ProductPage.jsx:58 | the number of lit stars is the rating clamped to 0..5 |
| ProductPage.StarsShowRating | src/pages/shared/ProductPage.jsx:55-59 | a rating in 0..5 lights exactly that many stars; clicking star i lights i+1 |
| ProductPage.AverageStars | src/pages/shared/ProductPage.jsx:443-450 | five stars, lit from the left: a lit star has only lit stars before it |
| ProductPage.AverageRoundsUp | src/pages/shared/ProductPage.jsx:446 | an average in 0..5 lights as many stars as the least whole number at or above it: the display rounds a fractional average up |
| ProductPage.FractionalAverageExample | src/pages/shared/ProductPage.jsx:446 | an average of 3.2 lights four stars |
| ProductPage.WholeAverageLikeRating | src/pages/shared/ProductPage.jsx:446 | a whole-number average lights the same stars as that rating |
| ProductPage.SubmitReview | src/pages/shared/ProductPage.jsx:23-47 | a zero rating or empty comment only sets the error; otherwise it posts and, on success, calls the `fetchReviews` prop (its request is the last effect) and clears the form; on failure it keeps the form and toasts |
| ProductPage.AddReview | src/pages/shared/ProductPage.jsx:23-47 | on the page, a successful review post refreshes only the average, from the refetched reviews; the review list's state is never touched; an invalid or failed post keeps the average |
| ProductPage.AddedReviewNotListed | src/pages/shared/ProductPage.jsx:39-473 | after the first review is added, the average becomes its rating while the list still shows no review: the prop at line 473 recomputes the average and does not refetch the list |
| ProductPage.Average | src/pages/shared/ProductPage.jsx:227-231 | no average without reviews; otherwise the average times the count is the ratings' total |
| ProductPage.AverageInStarRange | src/pages/shared/ProductPage.jsx:227-229 | with ratings in 1..5 the average lies in 1..5 |
| ProductPage.RefreshAverage | src/pages/shared/ProductPage.jsx:223-236 | a 2xx answer recomputes the average; a failure keeps it and toasts |
| ProductPage.FetchReviews | src/pages/shared/ProductPage.jsx:89-99 | a 2xx answer replaces the reviews; a failure keeps them and toasts iff the viewer is not an admin |
| ProductPage.FindReview | src/pages/shared/ProductPage.jsx:129 | finds the first review with the given id, or reports that none has it |
| ProductPage.OwnsReview | src/pages/shared/ProductPage.jsx:163 | the edit and delete controls show iff there is a user whose `_id` equals the review author's id (two absent ids compare equal) |
| ProductPage.HandleDelete | src/pages/shared/ProductPage.jsx:127-141 | without a user or a matching review the handler throws; a non-owner gets the "Not authorized" toast; the owner's delete refetches on success |
| ProductPage.HandleEdit | src/pages/shared/ProductPage.jsx:105-109 | opens the edit form on that review with its rating and comment |
| ProductPage.HandleEditSubmit | src/pages/shared/ProductPage.jsx:111-125 | puts the edited rating and comment; success closes the form and adopts the refetch; failure keeps the state |
| ProductPage.EditThenSubmit | src/pages/shared/ProductPage.jsx:105-125 | editing a review and submitting it untouched sends that review's own rating and comment, the rating reading back as the number; success ends with exactly the refetched list and no edit open; failure leaves the edit form as primed |
| ProductPage.WritesKeepReviewsCurrent | src/pages/shared/ProductPage.jsx:111-141 | after the owner's successful delete or edit the list is exactly the refetched one; if that refetch fails the stale list stays, the deleted review included |
| ProductPage.CartControlFor | src/pages/shared/ProductPage.jsx:456-466 | a non-admin signed-in viewer gets "Add To Cart" iff stock is positive and "Out of Stock" otherwise; a signed-out viewer gets the login link; an admin gets nothing |
| ProductPage.AddToCartPress | src/pages/shared/ProductPage.jsx:242-244 | adds this product id to the cart, refetching once on success |
| ProductPage.UpdateHandler | src/pages/shared/ProductPage.jsx:254-261 | toggles the edit form and copies the product's fields into it |
| ProductPage.UpdateHandlerTwice | src/pages/shared/ProductPage.jsx:254-261 | pressing the edit button twice restores the editor's visibility and leaves the fields primed from the product |
| ProductPage.OpenedEditorSendsProduct | src/pages/shared/ProductPage.jsx:254-272 | saving right after opening the editor puts the product's own title, description, price, stock and category, the stock as a decimal that reads back as the stock |
| ProductPage.SubmitUpdate | src/pages/shared/ProductPage.jsx:263-282 | puts the edited fields; success refetches the product and closes the form; failure keeps the product, and the button spinner stays on iff there was no response |
| ProductPage.SubmitImages | src/pages/shared/ProductPage.jsx:284-312 | no new images: an error toast and nothing sent; otherwise one "files" part per image; success refetches the product and clears the selection |
| ProductPage.ReviewNeedsRatingAndComment | src/pages/shared/ProductPage.jsx:26-29 | a review is posted iff both a rating and a comment are given |
| ProductPage.ClickedRatingPasses | src/pages/shared/ProductPage.jsx:26-59 | any clicked star satisfies the rating check |
| ProductPage.DeleteIffControlsShown | src/pages/shared/ProductPage.jsx:129-166 | a delete request is sent iff the viewer owns the review, the same test that shows the controls |
| ProductPage.ShownControlsDelete | src/pages/shared/ProductPage.jsx:163-166 | the delete control shown on a review sends that review's delete request |
| ProductPage.LoginRecordOwnsNoReview | src/pages/shared/ProductPage.jsx:163 | a session created by login carries no `_id`, so it never owns a review whose author has one |
| ProductPage.ReviewFormShown | src/pages/shared/ProductPage.jsx:472 | the review form shows iff the session is authenticated and the role is not "admin" |
| ProductPage.ControlsAgree | src/pages/shared/ProductPage.jsx:456-472 | the review form shows iff a cart control or "Out of Stock" shows; an admin sees neither |
| ProductPage.AverageOnlyWithReviews | src/pages/shared/ProductPage.jsx:227-232 | the average is shown iff there are reviews, and then it lies in 1..5 |
| ProductPage.UploadNeedsFiles | src/pages/shared/ProductPage.jsx:288-292 | without new images nothing is requested and the button spinner is off |
| ProductPage.SaveRefetchesProduct | src/pages/shared/ProductPage.jsx:274-277 | a successful save sends the product request among its effects, and the catalog is not left loading |
| Strings.IncludesIffOccurs | src/pages/admin/AllOrders.jsx:56-57 | `includes` holds iff the needle occurs at some position |
| Strings.LowerIdempotent | src/pages/admin/AllOrders.jsx:56-57 | lower-casing twice equals lower-casing once |
| Strings.JoinSplit | src/pages/shared/Login.jsx:42-45 | joining the pieces of a split with the separator gives back the original string |
| Strings.SplitJoin | src/context/ProductContext.jsx:19 | splitting a join of separator-free pieces gives back the pieces |
| Strings.TrimStart | src/pages/shared/Login.jsx:44 | drops exactly the leading whitespace |
| Strings.TrimEnd | src/pages/shared/Login.jsx:44 | drops exactly the trailing whitespace |
| Strings.NatToStringRoundTrip | src/context/ProductContext.jsx:19 | the decimal rendering of a page number reads back as that number |
| Http.MessageOr | src/pages/shared/ProductPage.jsx:45 | the server's message when there is a response with a non-empty message, the fallback otherwise |

## Left out

- Network, storage and timer I/O are not executed. Each server answer, the cookie string, the confirmation dialog's answer and whether Stripe loaded are parameters.
- The payment form's Stripe publishable key, `loadStripe` itself and the redirect are out of scope; the redirect is an `Assign(url)` effect.
- Concurrency is not modelled. Overlapping requests, the order in which un-awaited refetches resolve, and the 1-second `setTimeout` before navigating after signup are treated as immediate and in source order.
- The order of React state updates and re-renders is not modelled; each handler's final state is what is modelled.
- `ProductPage.Average`: uses exact real division; JavaScript's floating-point division and `toFixed(1)` rounding are not modelled.
- Dates are left out: `moment` formatting of `createdAt`/`paidAt` and the `DD MM YYYY` columns.
- Printing (`window.print`) and the console logging are left out.
- Status badge colours beyond "Pending"/yellow are not modelled, because they carry no behaviour.
- URL encoding is not modelled: axios and template strings do not escape values, and only "&" and "=" in the query are modelled.
- `Catalog.ListingUrl`: its own contract only fixes the endpoint prefix. Its meaning is stated by `Catalog.ListingRoundTrip` and `Catalog.SearchCanForgeCategory`.
- `Strings.Lower`: folds ASCII letters only, while `toLowerCase` also folds non-ASCII letters. So `AdminOrders.Filter` drops an order owned by "ÉVA@MAIL.COM" for the search "éva", which the page keeps. Route matching is unaffected, because the router's case-insensitive flag never folds a non-ASCII letter onto an ASCII one.
- HTML form validation is not modelled. The `required` inputs of the new-product form and the product editor, and the `required` category select, stop an empty submit before the handler runs. The login form's inputs are `required` too and its email input is `type="email"` (src/pages/shared/Login.jsx:89-94), so in a browser `LoginPage.Submit`'s "Email and Password are required" branch and a malformed email never reach the handler. The model runs the handler on any form.
- `Routes.Segments`: percent-decoding of the pathname is not modelled. A pathname without a leading "/", which the browser never produces, is treated as matching no route; the router would render nothing rather than NotFound.
- `AdminHome.HandleChange`: it requires that the name is one of the form's text inputs (title, description, category, price, stock), which are the only inputs wired to it.
- The edit-review form has no `preventDefault` and would reload the page on submit. The model treats that submit like the others.
- `ProductPage.UpdateHandler`: it assumes a loaded product. Before the product loads, the source reads fields of an empty array and fills the form with `undefined`.
- `Session.Restore`: parse errors of stored JSON are modelled by the `Unparsable` value; the JSON grammar itself is not modelled.
- The components that sit outside the modelled pages are not part of this model: the navbar, footer, product cards, the orders list, the order-success page, the admin order details, the admin info and profile pages, the add-admin page and the UI kit.
- The server's behaviour is not modelled. Answers are arbitrary, and the cart's consistency is proved under the assumption that the server's payloads are consistent.

## Findings

| source | as written | input that shows it | evidently intended | confidence | as-written member | corrected member |
|---|---|---|---|---|---|---|
| src/pages/user/Payment.jsx:72-77 | `if (data.url) { … } else P` followed by the failure toast: the toast belongs to neither arm, and the `else` arm evaluates the undeclared `P` | an online order whose answer carries a url: the browser is redirected and "Failed to create Payment session" is still toasted; with no url, `P` throws and "Payment Failed" is shown instead of the session failure | the failure toast is the `else` arm: a url leads only to the redirect, and the session-failure toast appears iff no url came back | not executed; high, the statement after `else P` is outside the `if` by JavaScript's automatic semicolon insertion | PaymentPage.PayOnline, PaymentPage.PaymentHandlerAsWritten, PaymentPage.RedirectAlsoReportsFailure | PaymentPage.PayOnlineIntended |
