/** The authentication context (`src/context/AuthContext.jsx`): the session record kept in
    memory, its copy in browser storage, and the three transitions over both: restore on
    start, login and logout. Logout cascades into the cart. */
module Session {
  import opened Wrappers
  import opened Http
  import opened Entities
  import Cart

  const LoggedInUserKey := "loggedInUser"
  const TokenKey := "token"

  /** A `localStorage` value, kept as what `JSON.parse(...)?.user` makes of it. */
  datatype Stored =
    | Blank                          // the empty string, which JavaScript treats as false
    | Unparsable                     // text `JSON.parse` rejects
    | Json(user: Option<UserRecord>) // JSON; `user` is its `.user` member when that is truthy

  /** `localStorage` and the cookie jar, as finite maps from keys. */
  datatype Storage = Storage(local: map<string, Stored>, cookies: map<string, string>)

  /** The provider's `{ user, isAuth, loading, btnLoading }`. */
  datatype AuthState = AuthState(user: Option<UserRecord>, isAuth: bool, loading: bool, btnLoading: bool)

  /** Everything the session transitions read or write: storage, the auth state, the cart. */
  datatype Client = Client(storage: Storage, auth: AuthState, cart: Cart.CartState)

  /** A transition's result together with the toasts, requests and navigations it emitted. */
  datatype Step = Step(client: Client, effects: seq<Effect>)

  /** The provider's state before `fetchUser` has run. */
  const Initial := AuthState(None, false, true, false)

  /** The invariant of the auth state: authenticated implies a user record. */
  predicate Valid(a: AuthState) {
    a.isAuth ==> a.user.Some?
  }

  /** The provider renders its children only once `loading` is false. */
  predicate RendersChildren(a: AuthState) {
    !a.loading
  }

  /* ------------------------------------------------------------ restore */

  /** The stored value `getItem("loggedInUser")` yields, and whether it is truthy. */
  predicate HasStoredUser(st: Storage) {
    LoggedInUserKey in st.local && st.local[LoggedInUserKey] != Blank
  }

  /** `Cookies.get("token")` is truthy. */
  predicate HasTokenCookie(st: Storage) {
    TokenKey in st.cookies && st.cookies[TokenKey] != ""
  }

  /** The user record `fetchUser` accepts, if any. */
  function Accepted(st: Storage): Option<UserRecord> {
    if HasStoredUser(st) && HasTokenCookie(st) then
      match st.local[LoggedInUserKey]
      case Json(Some(u)) => if u.username != "" then Some(u) else None
      case _ => None
    else None
  }

  /** `fetchUser`: adopt the stored user when both storage entries are present and the parsed
      record has a username; otherwise fall back to signed out and drop the stored record
      (the token cookie stays). Either way `loading` ends false. */
  function Restore(c: Client): (r: Client)
    ensures !r.auth.loading
    ensures Valid(r.auth)
    ensures r.cart == c.cart && r.auth.btnLoading == c.auth.btnLoading
    ensures r.storage.cookies == c.storage.cookies
  {
    match Accepted(c.storage)
    case Some(u) =>
      c.(auth := c.auth.(user := Some(u), isAuth := true, loading := false))
    case None =>
      c.(storage := c.storage.(local := c.storage.local - {LoggedInUserKey}),
         auth := c.auth.(user := None, isAuth := false, loading := false))
  }

  /** Restore ends authenticated exactly when a stored `loggedInUser` parses to a `.user` with a
      username and a `token` cookie is present; the stored role plays no part. */
  lemma RestoreAuthenticatedIff(c: Client)
    ensures Restore(c).auth.isAuth <==>
      && LoggedInUserKey in c.storage.local
      && c.storage.local[LoggedInUserKey].Json?
      && c.storage.local[LoggedInUserKey].user.Some?
      && c.storage.local[LoggedInUserKey].user.value.username != ""
      && TokenKey in c.storage.cookies
      && c.storage.cookies[TokenKey] != ""
    ensures Restore(c).auth.isAuth ==>
      && Restore(c).auth.user == c.storage.local[LoggedInUserKey].user
      && Restore(c).storage == c.storage
  {
  }

  /** On every failed restore the user is null, `isAuth` is false and `loggedInUser` is gone
      from local storage, while every other entry and every cookie (the token included) stays. */
  lemma RestoreFailureSignsOut(c: Client)
    requires !Restore(c).auth.isAuth
    ensures Restore(c).auth.user.None?
    ensures LoggedInUserKey !in Restore(c).storage.local
    ensures forall k :: k in c.storage.local && k != LoggedInUserKey ==>
      k in Restore(c).storage.local && Restore(c).storage.local[k] == c.storage.local[k]
    ensures Restore(c).storage.cookies == c.storage.cookies
  {
  }

  /** Whatever the stored role, restore decides the same way. */
  lemma RestoreIgnoresRole(c: Client, u: UserRecord, role: string)
    requires LoggedInUserKey in c.storage.local && c.storage.local[LoggedInUserKey] == Json(Some(u))
    ensures var c' := c.(storage := c.storage.(local := c.storage.local[LoggedInUserKey := Json(Some(u.(role := role)))]));
      Restore(c').auth.isAuth == Restore(c).auth.isAuth
  {
  }

  /* ------------------------------------------------------------ login */

  /** Where `login` sends each role. */
  function HomeFor(role: string): string {
    if role == AdminRole then "/adminDashboard" else "/"
  }

  /** `login(name, token, role, email)`. `persisted` is false when `localStorage.setItem`
      throws (storage full or disabled), the one step of the body that can fail; `cartReply`
      answers the awaited `fetchCart`. */
  function Login(c: Client, name: string, token: string, role: string, email: string,
                 persisted: bool, cartReply: Reply<Cart.CartPayload>): (r: Step)
    ensures !r.client.auth.btnLoading
    ensures Valid(c.auth) ==> Valid(r.client.auth)
  {
    if !persisted then
      Step(c.(auth := c.auth.(btnLoading := false)), [Toast(ErrorToast, "Login failed")])
    else
      var record := UserRecord(None, name, role, email);
      var storage := Storage(c.storage.local[LoggedInUserKey := Json(Some(record))],
                             c.storage.cookies[TokenKey := token]);
      var fetched := Cart.FetchCart(c.cart, cartReply);
      Step(Client(storage, c.auth.(user := Some(record), isAuth := true, btnLoading := false), fetched.state),
           [Toast(SuccessToast, "Logged in successfully")] + fetched.effects + [Navigate(HomeFor(role))])
  }

  /** A completed login persists `{ user: { username, role, email } }` and the token, holds
      exactly that record in memory, fetches the cart for every role, and then navigates to the
      admin dashboard iff the role is "admin", to "/" otherwise. */
  lemma LoginEstablishesSession(c: Client, name: string, token: string, role: string, email: string,
                                cartReply: Reply<Cart.CartPayload>)
    ensures var r := Login(c, name, token, role, email, true, cartReply);
      && r.client.auth.user == Some(UserRecord(None, name, role, email))
      && r.client.auth.isAuth
      && r.client.storage.local[LoggedInUserKey] == Json(r.client.auth.user)
      && r.client.storage.cookies[TokenKey] == token
      && r.client.cart == Cart.FetchCart(c.cart, cartReply).state
      && Count(r.effects, Cart.Refetch) == 1
      && r.effects[|r.effects| - 1] == Navigate(if role == "admin" then "/adminDashboard" else "/")
  {
    var r := Login(c, name, token, role, email, true, cartReply);
    var fetched := Cart.FetchCart(c.cart, cartReply);
    CountAppend([Toast(SuccessToast, "Logged in successfully")], fetched.effects, Cart.Refetch);
    CountAppend([Toast(SuccessToast, "Logged in successfully")] + fetched.effects, [Navigate(HomeFor(role))], Cart.Refetch);
  }

  /** A login whose storage write throws changes nothing but the button flag and toasts. */
  lemma LoginFailureKeepsState(c: Client, name: string, token: string, role: string, email: string,
                               cartReply: Reply<Cart.CartPayload>)
    ensures var r := Login(c, name, token, role, email, false, cartReply);
      && r.client == c.(auth := c.auth.(btnLoading := false))
      && r.effects == [Toast(ErrorToast, "Login failed")]
  {
  }

  /** Restoring right after a login reconstructs the same record, role included, from storage
      alone, provided the username and the token are non-empty (otherwise restore rejects it).
      The record carries no `_id`. */
  lemma RestoreAfterLogin(c: Client, name: string, token: string, role: string, email: string,
                          cartReply: Reply<Cart.CartPayload>)
    ensures var r := Restore(Login(c, name, token, role, email, true, cartReply).client);
      && (r.auth.isAuth <==> name != "" && token != "")
      && (r.auth.isAuth ==> r.auth.user == Some(UserRecord(None, name, role, email)))
  {
  }

  /* ------------------------------------------------------------ logout */

  /** One statement of `logout`, in source order. */
  datatype Action =
    | RemoveLocal(key: string)
    | RemoveCookie(key: string)
    | SetUser(user: Option<UserRecord>)
    | SetIsAuth(flag: bool)
    | ClearCart
    | Go(path: string)
    | Notify(text: string)

  const LogoutActions: seq<Action> := [
    RemoveLocal(TokenKey), RemoveLocal(LoggedInUserKey), RemoveCookie(TokenKey),
    SetUser(None), SetIsAuth(false), ClearCart, Go("/login"), Notify("Logged out successfully")
  ]

  function Apply(c: Client, a: Action): Client {
    match a
    case RemoveLocal(k) => c.(storage := c.storage.(local := c.storage.local - {k}))
    case RemoveCookie(k) => c.(storage := c.storage.(cookies := c.storage.cookies - {k}))
    case SetUser(u) => c.(auth := c.auth.(user := u))
    case SetIsAuth(b) => c.(auth := c.auth.(isAuth := b))
    case ClearCart => c.(cart := Cart.ClearCart(c.cart).state)
    case Go(_) => c
    case Notify(_) => c
  }

  /** Runs a sequence of statements from left to right. */
  function Run(c: Client, actions: seq<Action>): Client
    decreases |actions|
  {
    if |actions| == 0 then c else Run(Apply(c, actions[0]), actions[1..])
  }

  /** What `logout` emits: the navigation and the toast. */
  function Emitted(actions: seq<Action>): seq<Effect>
    decreases |actions|
  {
    if |actions| == 0 then [] else Said(actions[0]) + Emitted(actions[1..])
  }

  /** What one statement emits: a navigation, a toast, or nothing. */
  function Said(a: Action): seq<Effect> {
    match a
    case Go(p) => [Navigate(p)]
    case Notify(t) => [Toast(SuccessToast, t)]
    case _ => []
  }

  /** `logout()`. */
  function Logout(c: Client): Step {
    Step(Run(c, LogoutActions), Emitted(LogoutActions))
  }

  /** Signed out: no user, not authenticated, no session keys stored, the cart empty. */
  predicate SignedOut(c: Client) {
    && c.auth.user.None? && !c.auth.isAuth
    && TokenKey !in c.storage.local && LoggedInUserKey !in c.storage.local
    && TokenKey !in c.storage.cookies
    && c.cart == Cart.Empty
  }

  /** Running a non-empty sequence applies its first statement, then the rest. */
  lemma RunCons(c: Client, a: Action, rest: seq<Action>)
    ensures Run(c, [a] + rest) == Run(Apply(c, a), rest)
  {
    assert ([a] + rest)[0] == a;
    assert ([a] + rest)[1..] == rest;
  }

  /** Running a concatenation runs the first part, then the second. */
  lemma {:induction false} RunAppend(c: Client, a: seq<Action>, b: seq<Action>)
    ensures Run(c, a + b) == Run(Run(c, a), b)
    decreases |a|
  {
    if |a| == 0 {
      assert a + b == b;
    } else {
      assert (a + b)[0] == a[0];
      assert (a + b)[1..] == a[1..] + b;
      RunAppend(Apply(c, a[0]), a[1..], b);
    }
  }

  /** What a concatenation emits is what its parts emit, in order. */
  lemma {:induction false} EmittedAppend(a: seq<Action>, b: seq<Action>)
    ensures Emitted(a + b) == Emitted(a) + Emitted(b)
    decreases |a|
  {
    if |a| == 0 {
      assert a + b == b;
    } else {
      assert (a + b)[0] == a[0];
      assert (a + b)[1..] == a[1..] + b;
      EmittedAppend(a[1..], b);
      var h, e := Said(a[0]), Emitted(a[1..]);
      assert Emitted(a + b) == h + (e + Emitted(b));
      assert h + (e + Emitted(b)) == (h + e) + Emitted(b);
    }
  }

  /** `logout` is six clearing statements followed by the navigation and the toast. */
  lemma LogoutParts()
    ensures LogoutActions == LogoutActions[..6] + [Go("/login"), Notify("Logged out successfully")]
    ensures LogoutActions[..6] == [RemoveLocal(TokenKey), RemoveLocal(LoggedInUserKey), RemoveCookie(TokenKey),
                                  SetUser(None), SetIsAuth(false), ClearCart]
  {
  }

  /** The six clearing statements emit nothing. */
  lemma QuietClearing()
    ensures Emitted(LogoutActions[..6]) == []
  {
    LogoutParts();
    Quiet(LogoutActions[..6]);
  }

  /** Statements that neither navigate nor notify emit nothing. */
  lemma {:induction false} Quiet(a: seq<Action>)
    requires forall i :: 0 <= i < |a| ==> !a[i].Go? && !a[i].Notify?
    ensures Emitted(a) == []
    decreases |a|
  {
    if |a| > 0 {
      Quiet(a[1..]);
    }
  }

  /** The six clearing statements sign the client out and keep every other stored key. */
  lemma ClearingSignsOut(c: Client)
    ensures var c6 := Run(c, LogoutActions[..6]);
      && SignedOut(c6)
      && c6.auth.loading == c.auth.loading
      && (forall k :: k in c.storage.local && k != TokenKey && k != LoggedInUserKey ==>
            k in c6.storage.local && c6.storage.local[k] == c.storage.local[k])
  {
    LogoutParts();
    var c1 := Apply(c, RemoveLocal(TokenKey));
    var c2 := Apply(c1, RemoveLocal(LoggedInUserKey));
    var c3 := Apply(c2, RemoveCookie(TokenKey));
    var c4 := Apply(c3, SetUser(None));
    var c5 := Apply(c4, SetIsAuth(false));
    var c6 := Apply(c5, ClearCart);
    RunCons(c5, ClearCart, []);
    RunCons(c4, SetIsAuth(false), [ClearCart]);
    RunCons(c3, SetUser(None), [SetIsAuth(false), ClearCart]);
    RunCons(c2, RemoveCookie(TokenKey), [SetUser(None), SetIsAuth(false), ClearCart]);
    RunCons(c1, RemoveLocal(LoggedInUserKey), [RemoveCookie(TokenKey), SetUser(None), SetIsAuth(false), ClearCart]);
    RunCons(c, RemoveLocal(TokenKey), [RemoveLocal(LoggedInUserKey), RemoveCookie(TokenKey), SetUser(None), SetIsAuth(false), ClearCart]);
    assert Run(c, LogoutActions[..6]) == c6;
  }

  /** The client after the first six statements of `logout` is already the final one. */
  lemma LogoutPrefixes(c: Client)
    ensures var c6 := Run(c, LogoutActions[..6]);
      && SignedOut(c6)
      && c6.auth.loading == c.auth.loading
      && (forall k :: k in c.storage.local && k != TokenKey && k != LoggedInUserKey ==>
            k in c6.storage.local && c6.storage.local[k] == c.storage.local[k])
    ensures Run(c, LogoutActions) == Run(c, LogoutActions[..6])
  {
    ClearingSignsOut(c);
    LogoutParts();
    var c6 := Run(c, LogoutActions[..6]);
    RunAppend(c, LogoutActions[..6], [Go("/login"), Notify("Logged out successfully")]);
    RunCons(c6, Go("/login"), [Notify("Logged out successfully")]);
    RunCons(c6, Notify("Logged out successfully"), []);
  }

  /** `logout` leaves the client signed out, with the rest of local storage and the loading
      flag untouched, and emits the navigation to `/login` then the success toast. */
  lemma LogoutSignsOut(c: Client)
    ensures SignedOut(Logout(c).client)
    ensures Logout(c).client.auth.loading == c.auth.loading
    ensures forall k :: k in c.storage.local && k != TokenKey && k != LoggedInUserKey ==>
      k in Logout(c).client.storage.local && Logout(c).client.storage.local[k] == c.storage.local[k]
    ensures Logout(c).effects == [Navigate("/login"), Toast(SuccessToast, "Logged out successfully")]
  {
    LogoutPrefixes(c);
    LogoutParts();
    var tail := [Go("/login"), Notify("Logged out successfully")];
    EmittedAppend(LogoutActions[..6], tail);
    assert tail[1..] == [Notify("Logged out successfully")];
    assert tail[1..][1..] == [];
    assert Emitted(tail) == [Navigate("/login"), Toast(SuccessToast, "Logged out successfully")];
    QuietClearing();
  }

  /** The cascade is ordered: by the time `logout` navigates, the storage, the in-memory
      session and the cart are all already cleared. */
  lemma LogoutClearsBeforeNavigating(c: Client)
    ensures forall k :: 0 <= k < |LogoutActions| && LogoutActions[k].Go? ==>
      SignedOut(Run(c, LogoutActions[..k]))
  {
    LogoutPrefixes(c);
    forall k | 0 <= k < |LogoutActions| && LogoutActions[k].Go?
      ensures SignedOut(Run(c, LogoutActions[..k]))
    {
      assert k == 6;
    }
  }

  /* ------------------------------------------------------------ the invariant */

  /** Every transition produces an auth state in which `isAuth` implies a user record. */
  lemma TransitionsKeepValid(c: Client, name: string, token: string, role: string, email: string,
                             persisted: bool, cartReply: Reply<Cart.CartPayload>)
    requires Valid(c.auth)
    ensures Valid(Restore(c).auth)
    ensures Valid(Login(c, name, token, role, email, persisted, cartReply).client.auth)
    ensures Valid(Logout(c).client.auth)
  {
    LogoutSignsOut(c);
  }

  /** Before restore the provider renders nothing; after it, it renders its children. */
  lemma RestoreUnblocksRendering(s: Storage, cart: Cart.CartState)
    ensures !RendersChildren(Initial)
    ensures RendersChildren(Restore(Client(s, Initial, cart)).auth)
  {
  }
}
