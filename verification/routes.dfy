/** The route table of `AppRoutes` (`src/App.jsx`) as a pure decision from the session state
    and the location to the page element rendered. */
module Routes {
  import opened Wrappers
  import opened Strings
  import opened Entities

  /** The element a route renders. */
  datatype View =
    | LoadingView | HomeView | ProductsView | ProductView | CartView | OrdersView | OrderView
    | CheckoutView | PaymentView | OrderSuccessView | AdminDashboardView | LoginView | SignupView
    | NotFoundView

  /** The routes declared in the table, in declaration order. */
  datatype Page =
    | Home | Products | Product | CartPage | Orders | OrderPage | Checkout | Payment
    | OrderSuccess | AdminDashboard | LoginPage | SignupPage

  /** One segment of a route path: a literal, or a dynamic `:id`. */
  datatype Seg = Lit(name: string) | Param

  function Pattern(p: Page): seq<Seg> {
    match p
    case Home => []
    case Products => [Lit("products")]
    case Product => [Lit("product"), Param]
    case CartPage => [Lit("cart")]
    case Orders => [Lit("orders")]
    case OrderPage => [Lit("order"), Param]
    case Checkout => [Lit("checkout")]
    case Payment => [Lit("payment"), Param]
    case OrderSuccess => [Lit("orderSuccess")]
    case AdminDashboard => [Lit("adminDashboard")]
    case LoginPage => [Lit("login")]
    case SignupPage => [Lit("signup")]
  }

  const Table: seq<Page> := [Home, Products, Product, CartPage, Orders, OrderPage, Checkout,
                             Payment, OrderSuccess, AdminDashboard, LoginPage, SignupPage]

  /** The router compares literal segments without regard to ASCII case; a dynamic segment
      takes any non-empty segment. */
  predicate SegMatches(seg: Seg, s: string) {
    match seg
    case Lit(n) => Lower(s) == Lower(n)
    case Param => s != ""
  }

  predicate Matches(pattern: seq<Seg>, path: seq<string>) {
    |pattern| == |path| && forall i :: 0 <= i < |path| ==> SegMatches(pattern[i], path[i])
  }

  /** The segments the router matches a pathname against. React Router turns `/cart` into a
      pattern that wants the leading `/`, the literal, and then any number of `/`s, and
      `/product/:id` into one whose parameter takes one or more characters other than `/`. So
      a run of trailing `/`s is tolerated, and every other `/` separates two segments: an
      interior empty segment ("//cart", "/product//5") is kept and matches no literal and no
      parameter. A pathname without the leading `/` gets the single empty segment, which no
      route matches. */
  function Segments(pathname: string): (r: seq<string>)
    ensures |pathname| == 0 || pathname[0] != '/' ==> r == [""]
  {
    if |pathname| == 0 || pathname[0] != '/' then [""]
    else
      var body := DropTrailing(pathname[1..], '/');
      if body == "" then [] else Split(body, '/')
  }

  /** `s` without its trailing run of `c`s: the longest prefix of `s` that does not end in `c`
      and after which `s` holds only `c`s. */
  function DropTrailing(s: string, c: char): (r: string)
    ensures |r| <= |s| && r == s[..|r|]
    ensures |r| == 0 || r[|r| - 1] != c
    ensures forall i :: |r| <= i < |s| ==> s[i] == c
    decreases |s|
  {
    if |s| > 0 && s[|s| - 1] == c then DropTrailing(s[..|s| - 1], c) else s
  }

  /** The first table entry whose pattern matches the path. */
  function FirstMatch(pages: seq<Page>, path: seq<string>): (r: Option<Page>)
    ensures r.Some? ==> r.value in pages && Matches(Pattern(r.value), path)
    ensures r.None? ==> forall p :: p in pages ==> !Matches(Pattern(p), path)
    decreases |pages|
  {
    if |pages| == 0 then None
    else if Matches(Pattern(pages[0]), path) then Some(pages[0])
    else FirstMatch(pages[1..], path)
  }

  /** The element the matched route renders for a session. */
  function Element(p: Page, isAuth: bool, user: Option<UserRecord>): (v: View)
    ensures v != LoadingView && v != NotFoundView
    ensures !isAuth ==> v in {HomeView, ProductsView, ProductView, LoginView, SignupView}
  {
    match p
    case Home => HomeView
    case Products => ProductsView
    case Product => ProductView
    case CartPage => if isAuth then CartView else LoginView
    case Orders => if isAuth then OrdersView else LoginView
    case OrderPage => if isAuth then OrderView else LoginView
    case Checkout => if isAuth then CheckoutView else LoginView
    case Payment => if isAuth then PaymentView else LoginView
    case OrderSuccess => if isAuth then OrderSuccessView else LoginView
    case AdminDashboard => if isAuth && IsAdmin(user) then AdminDashboardView else LoginView
    case LoginPage => if isAuth then HomeView else LoginView
    case SignupPage => if isAuth then HomeView else SignupView
  }

  /** `AppRoutes`: nothing but the loading element until the session has settled, then the
      matched route's element, and `NotFound` for every other path. */
  function Decide(loading: bool, isAuth: bool, user: Option<UserRecord>, pathname: string): (v: View)
    ensures v == LoadingView <==> loading
    ensures v == NotFoundView <==> !loading && forall p: Page :: !Matches(Pattern(p), Segments(pathname))
  {
    if loading then LoadingView
    else
      TableListsEvery();
      match FirstMatch(Table, Segments(pathname))
      case Some(p) => Element(p, isAuth, user)
      case None => NotFoundView
  }

  /** Every declared route is in the table. */
  lemma TableListsEvery()
    ensures forall p: Page :: p in Table
  {
    forall p: Page
      ensures p in Table
    {
      match p
      case Home => assert Table[0] == p;
      case Products => assert Table[1] == p;
      case Product => assert Table[2] == p;
      case CartPage => assert Table[3] == p;
      case Orders => assert Table[4] == p;
      case OrderPage => assert Table[5] == p;
      case Checkout => assert Table[6] == p;
      case Payment => assert Table[7] == p;
      case OrderSuccess => assert Table[8] == p;
      case AdminDashboard => assert Table[9] == p;
      case LoginPage => assert Table[10] == p;
      case SignupPage => assert Table[11] == p;
    }
  }

  /* ------------------------------------------------------------ properties */

  /** The lower-cased literal that leads each non-root pattern. */
  function Head(p: Page): string {
    match p
    case Home => ""
    case Products => "products"
    case Product => "product"
    case CartPage => "cart"
    case Orders => "orders"
    case OrderPage => "order"
    case Checkout => "checkout"
    case Payment => "payment"
    case OrderSuccess => "ordersuccess"
    case AdminDashboard => "admindashboard"
    case LoginPage => "login"
    case SignupPage => "signup"
  }

  lemma HeadIsLowered(p: Page)
    requires p != Home
    ensures Pattern(p)[0].Lit? && Lower(Pattern(p)[0].name) == Head(p)
  {
    PlainHeads();
    CamelHeads();
  }

  lemma PlainHeads()
    ensures Lower("products") == "products" && Lower("product") == "product" && Lower("cart") == "cart"
    ensures Lower("orders") == "orders" && Lower("order") == "order" && Lower("checkout") == "checkout"
    ensures Lower("payment") == "payment" && Lower("login") == "login" && Lower("signup") == "signup"
  {
    LowerKeeps("products");
    LowerKeeps("product");
    LowerKeeps("cart");
    LowerKeeps("orders");
    LowerKeeps("order");
    LowerKeeps("checkout");
    LowerKeeps("payment");
    LowerKeeps("login");
    LowerKeeps("signup");
  }

  lemma CamelHeads()
    ensures Lower("orderSuccess") == "ordersuccess" && Lower("adminDashboard") == "admindashboard"
  {
    LowerTwoWords("order", "Success", "success");
    assert "order" + "Success" == "orderSuccess";
    LowerTwoWords("admin", "Dashboard", "dashboard");
    assert "admin" + "Dashboard" == "adminDashboard";
  }

  /** A name without capitals is its own lower case. */
  lemma LowerKeeps(s: string)
    requires forall i :: 0 <= i < |s| ==> !('A' <= s[i] <= 'Z')
    ensures Lower(s) == s
  {
  }

  /** A camel-case name lowers word by word. */
  lemma LowerTwoWords(a: string, b: string, lowered: string)
    requires forall i :: 0 <= i < |a| ==> !('A' <= a[i] <= 'Z')
    requires Lower(b) == lowered
    ensures Lower(a + b) == a + lowered
  {
    LowerKeeps(a);
    assert forall i :: 0 <= i < |a + b| ==> Lower(a + b)[i] == (if i < |a| then Lower(a)[i] else Lower(b)[i - |a|]);
  }

  /** No two routes of the table match the same path, so the router's ranking and the table's
      order agree: the route chosen is the only one that matches. */
  lemma RoutesDisjoint(p: Page, q: Page, path: seq<string>)
    requires Matches(Pattern(p), path) && Matches(Pattern(q), path)
    ensures p == q
  {
    if p != Home && q != Home {
      HeadIsLowered(p);
      HeadIsLowered(q);
      assert SegMatches(Pattern(p)[0], path[0]) && SegMatches(Pattern(q)[0], path[0]);
      assert Head(p) == Head(q);
    }
  }

  /** The chosen route is characterised by matching alone. */
  lemma MatchIsUnique(p: Page, pathname: string)
    ensures FirstMatch(Table, Segments(pathname)) == Some(p) <==> Matches(Pattern(p), Segments(pathname))
  {
    var path := Segments(pathname);
    if Matches(Pattern(p), path) {
      assert p in Table;
      var r := FirstMatch(Table, path);
      if r.Some? {
        RoutesDisjoint(p, r.value, path);
      }
    }
  }

  /** A settled session gets the element of the route that matches. */
  lemma DecideChosen(p: Page, isAuth: bool, user: Option<UserRecord>, pathname: string)
    requires Matches(Pattern(p), Segments(pathname))
    ensures Decide(false, isAuth, user, pathname) == Element(p, isAuth, user)
  {
    MatchIsUnique(p, pathname);
  }

  /** While the session is loading, only the loading element is produced, whatever the path. */
  lemma LoadingShowsOnlyLoading(isAuth: bool, user: Option<UserRecord>, pathname: string)
    ensures Decide(true, isAuth, user, pathname) == LoadingView
    ensures forall p: Page :: Element(p, isAuth, user) != LoadingView
  {
  }

  /** The pages that require authentication. */
  predicate Protected(p: Page) {
    p in {CartPage, Orders, OrderPage, Checkout, Payment, OrderSuccess}
  }

  /** A protected route renders its page iff the session is authenticated, and the login page
      otherwise; the role plays no part. */
  lemma ProtectedNeedsAuth(p: Page, isAuth: bool, user: Option<UserRecord>, pathname: string)
    requires Protected(p) && Matches(Pattern(p), Segments(pathname))
    ensures Decide(false, isAuth, user, pathname) == LoginView <==> !isAuth
    ensures Decide(false, isAuth, user, pathname) == Element(p, true, None) <==> isAuth
  {
    MatchIsUnique(p, pathname);
  }

  /** The admin dashboard is produced only for an authenticated admin; every other session,
      an authenticated non-admin included, gets the login page there. */
  lemma AdminDashboardOnlyForAdmins(isAuth: bool, user: Option<UserRecord>, pathname: string)
    ensures Decide(false, isAuth, user, pathname) == AdminDashboardView ==> isAuth && IsAdmin(user)
  {
    var r := FirstMatch(Table, Segments(pathname));
    if r.Some? {
      ElementAdmin(r.value, isAuth, user);
    }
  }

  lemma ElementAdmin(p: Page, isAuth: bool, user: Option<UserRecord>)
    ensures Element(p, isAuth, user) == AdminDashboardView ==> p == AdminDashboard && isAuth && IsAdmin(user)
    ensures p == AdminDashboard ==> Element(p, isAuth, user) in {AdminDashboardView, LoginView}
  {
  }

  /** On the dashboard route the dashboard appears exactly for an authenticated admin. */
  lemma AdminDashboardRoute(isAuth: bool, user: Option<UserRecord>, pathname: string)
    requires Matches(Pattern(AdminDashboard), Segments(pathname))
    ensures Decide(false, isAuth, user, pathname) == if isAuth && IsAdmin(user) then AdminDashboardView else LoginView
  {
    DecideChosen(AdminDashboard, isAuth, user, pathname);
    DashboardElement(isAuth, user);
  }

  lemma DashboardElement(isAuth: bool, user: Option<UserRecord>)
    ensures Element(AdminDashboard, isAuth, user) == if isAuth && IsAdmin(user) then AdminDashboardView else LoginView
  {
  }

  /** An authenticated session of any role gets Home on the login and signup routes. */
  lemma AuthPagesRedirectHome(isAuth: bool, user: Option<UserRecord>, pathname: string)
    requires Matches(Pattern(LoginPage), Segments(pathname)) || Matches(Pattern(SignupPage), Segments(pathname))
    ensures isAuth ==> Decide(false, isAuth, user, pathname) == HomeView
    ensures !isAuth ==> Decide(false, isAuth, user, pathname) in {LoginView, SignupView}
  {
    if Matches(Pattern(LoginPage), Segments(pathname)) {
      RouteView(LoginPage, isAuth, user, pathname);
    } else {
      RouteView(SignupPage, isAuth, user, pathname);
    }
  }

  lemma RouteView(p: Page, isAuth: bool, user: Option<UserRecord>, pathname: string)
    requires p == LoginPage || p == SignupPage
    requires Matches(Pattern(p), Segments(pathname))
    ensures Decide(false, isAuth, user, pathname) == if isAuth then HomeView else if p == LoginPage then LoginView else SignupView
  {
    DecideChosen(p, isAuth, user, pathname);
  }


  /** The public routes and the catch-all render the same element for every session. */
  lemma PublicRoutesIgnoreSession(a1: bool, u1: Option<UserRecord>, a2: bool, u2: Option<UserRecord>, pathname: string)
    requires FirstMatch(Table, Segments(pathname)) in {Some(Home), Some(Products), Some(Product), None}
    ensures Decide(false, a1, u1, pathname) == Decide(false, a2, u2, pathname)
  {
    var r := FirstMatch(Table, Segments(pathname));
    if r.Some? {
      var p := r.value;
      assert p == Home || p == Products || p == Product;
      assert Decide(false, a1, u1, pathname) == Element(p, a1, u1);
      assert Decide(false, a2, u2, pathname) == Element(p, a2, u2);
    }
  }

  /** A path no route matches yields NotFound, whatever the session. */
  lemma UnlistedIsNotFound(isAuth: bool, user: Option<UserRecord>, pathname: string)
    requires forall p: Page :: !Matches(Pattern(p), Segments(pathname))
    ensures Decide(false, isAuth, user, pathname) == NotFoundView
  {
  }

  /** Only a string that is empty or ends in `c` loses anything to `DropTrailing`. */
  lemma DropTrailingKeeps(s: string, c: char)
    requires |s| > 0 && s[|s| - 1] != c
    ensures DropTrailing(s, c) == s
  {
  }

  /** Joining non-empty parts ends with the last character of the last part. */
  lemma {:induction false} JoinLastChar(ws: seq<string>, sep: char)
    requires |ws| > 0 && forall k :: 0 <= k < |ws| ==> ws[k] != ""
    ensures |Join(ws, sep)| > 0 && Join(ws, sep)[|Join(ws, sep)| - 1] == ws[|ws| - 1][|ws[|ws| - 1]| - 1]
    decreases |ws|
  {
    if |ws| > 1 {
      JoinLastChar(ws[1..], sep);
      assert ws[1..][|ws[1..]| - 1] == ws[|ws| - 1];
    }
  }

  /** The pathname `/w1/w2/…` has exactly the segments `w1, w2, …`. */
  lemma PathSegments(ws: seq<string>)
    requires forall k :: 0 <= k < |ws| ==> ws[k] != "" && '/' !in ws[k]
    ensures Segments("/" + Join(ws, '/')) == ws
  {
    var pathname := "/" + Join(ws, '/');
    assert pathname[1..] == Join(ws, '/');
    if |ws| > 0 {
      JoinLastChar(ws, '/');
      var last := ws[|ws| - 1];
      assert last[|last| - 1] in last;
      DropTrailingKeeps(Join(ws, '/'), '/');
      SplitJoin(ws, '/');
    }
  }

  /** Trailing slashes are ignored: `/cart/` and `/cart` reach the same route. */
  lemma TrailingSlashIgnored(pathname: string)
    requires |pathname| > 0 && pathname[0] == '/'
    ensures Segments(pathname + "/") == Segments(pathname)
  {
    var body := (pathname + "/")[1..];
    assert body == pathname[1..] + "/";
    assert body[..|body| - 1] == pathname[1..];
  }

  /** A path with an empty segment between two slashes matches no route and shows NotFound. */
  lemma EmptySegmentNotFound(isAuth: bool, user: Option<UserRecord>, pathname: string)
    requires "" in Segments(pathname)
    ensures Decide(false, isAuth, user, pathname) == NotFoundView
  {
    var path := Segments(pathname);
    var k :| 0 <= k < |path| && path[k] == "";
    forall p: Page
      ensures !Matches(Pattern(p), path)
    {
      if |Pattern(p)| == |path| {
        NoSegmentTakesEmpty(p, k);
      }
    }
  }

  /** No literal and no parameter of the table takes the empty segment. */
  lemma NoSegmentTakesEmpty(p: Page, k: nat)
    requires k < |Pattern(p)|
    ensures !SegMatches(Pattern(p)[k], "")
  {
    if Pattern(p)[k].Lit? {
      assert Pattern(p)[k].name != "";
    }
  }

  /** A doubled leading slash: "//cart" has an empty first segment, so even a signed-in
      session gets NotFound, not the cart. */
  lemma DoubledSlashNotFound(isAuth: bool, user: Option<UserRecord>)
    ensures Decide(false, isAuth, user, "//cart") == NotFoundView
  {
    DoubledSlashSegments();
    EmptySegmentNotFound(isAuth, user, "//cart");
  }

  lemma DoubledSlashSegments()
    ensures Segments("//cart") == ["", "cart"]
  {
    assert "//cart"[1..] == "/cart";
    DropTrailingKeeps("/cart", '/');
    SplitJoin(["", "cart"], '/');
    assert Join(["", "cart"], '/') == "/cart";
  }

  /** The admin console's order list has no route of its own in the table: a session of any
      kind that visits `/admin/orders` gets NotFound. */
  lemma AdminOrdersNotRouted(isAuth: bool, user: Option<UserRecord>)
    ensures Decide(false, isAuth, user, "/admin/orders") == NotFoundView
  {
    AdminOrdersSegments();
    NoRouteMatches(Segments("/admin/orders"));
    UnlistedIsNotFound(isAuth, user, "/admin/orders");
  }

  lemma AdminOrdersSegments()
    ensures Segments("/admin/orders") == ["admin", "orders"]
  {
    PathSegments(["admin", "orders"]);
    TwoSegmentPath("admin", "orders");
    assert "/" + "admin" + "/" + "orders" == "/admin/orders";
  }

  /** The pathname of two segments, as the router sees it. */
  lemma TwoSegmentPath(a: string, b: string)
    ensures "/" + Join([a, b], '/') == "/" + a + "/" + b
  {
    assert [a, b][1..] == [b];
    assert Join([a, b], '/') == a + ['/'] + b;
  }

  lemma NoRouteMatches(path: seq<string>)
    requires path == ["admin", "orders"]
    ensures forall p: Page :: !Matches(Pattern(p), path)
  {
    forall p: Page
      ensures !Matches(Pattern(p), path)
    {
      if p != Home && |Pattern(p)| == 2 {
        HeadIsLowered(p);
        assert Lower("admin") == "admin";
        assert Head(p) != "admin";
      }
    }
  }

  /** Visiting `/cart`: the cart for a signed-in session, the login page otherwise. */
  lemma CartPath(isAuth: bool, user: Option<UserRecord>)
    ensures Decide(false, isAuth, user, "/cart") == if isAuth then CartView else LoginView
  {
    CartSegments();
    ProtectedNeedsAuth(CartPage, isAuth, user, "/cart");
  }

  lemma CartSegments()
    ensures Segments("/cart") == ["cart"] && Matches(Pattern(CartPage), Segments("/cart"))
  {
    CartSegmentsSplit();
    LowerKeeps("cart");
  }

  lemma CartSegmentsSplit()
    ensures Segments("/cart") == ["cart"]
  {
    PathSegments(["cart"]);
    assert "/" + Join(["cart"], '/') == "/cart";
  }
}
