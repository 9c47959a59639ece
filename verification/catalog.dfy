/** The product context (`src/context/ProductContext.jsx`): the listing filters and paging, the
    listing query string, the refetch that follows every filter change, the single-product
    fetch with its loading flag, and the names the context hands to its consumers. */
module Catalog {
  import opened Wrappers
  import opened Strings
  import opened Http

  /** A product as the product endpoints return it. `price` is kept as the text the forms
      carry; `stock` is compared with 0 by the product page. */
  datatype Product = Product(
    id: string,
    title: string,
    description: string,
    price: string,
    stock: int,
    category: string,
    images: seq<string>)

  /** The listing answer: `{ products, newProduct, categories, totalPages }`. */
  datatype Listing = Listing(products: seq<Product>, newProduct: seq<Product>, categories: seq<string>, totalPages: int)

  /** The single-product answer: `{ product, relatedProduct }`; `product` may be `null`. */
  datatype ProductAnswer = ProductAnswer(product: Option<Product>, related: seq<Product>)

  /** The context's state. `product` is None both for the initial `[]` and for a `null`
      answer; no modelled member reads it before the first fetch, where the truthy `[]` and
      `null` would differ. */
  datatype CatalogState = CatalogState(
    products: seq<Product>,
    newProd: seq<Product>,
    loading: bool,
    page: int,
    totalPages: int,
    search: string,
    category: string,
    price: string,
    categories: seq<string>,
    product: Option<Product>,
    related: seq<Product>)

  const Initial := CatalogState([], [], true, 1, 1, "", "", "", [], None, [])

  /** The listing request goes to a fixed host rather than the configured server. */
  const Host := "http://localhost:4000"
  const ListingBase := Host + "/api/product/all"

  /* ------------------------------------------------------------ the listing query string */

  /** `key=value`, as the template literal writes it. */
  function Pair(key: string, value: string): string {
    key + "=" + value
  }

  /** The listing URL: the four filters interpolated in this order, without any encoding. */
  function ListingUrl(search: string, category: string, price: string, page: int): (u: string)
    ensures ListingBase + "?" <= u
  {
    ListingBase + "?" + (Pair("search", search) + "&" + Pair("category", category)
      + "&" + Pair("sortByPrice", price) + "&" + Pair("page", IntToString(page)))
  }

  /** `s` cut at the first `c`: the text before it and the text after it; without a `c`, the
      whole string and "". */
  function Cut(s: string, c: char): (r: (string, string))
    ensures c !in r.0
    ensures c in s ==> r.0 + [c] + r.1 == s
    ensures c !in s ==> r == (s, "")
    decreases |s|
  {
    if |s| == 0 then ("", "")
    else if s[0] == c then ("", s[1..])
    else
      var rest := Cut(s[1..], c);
      assert [s[0]] + s[1..] == s;
      ([s[0]] + rest.0, rest.1)
  }

  /** The query part of a URL: everything after its first '?'. */
  function Query(url: string): string {
    Cut(url, '?').1
  }

  /** The value of the first `key=value` pair named `key` among `pairs`. This is one reading
      of a query whose key repeats; servers differ (some take the last, some all of them). */
  function Lookup(pairs: seq<string>, key: string): (r: Option<string>)
    ensures r.Some? ==> exists k :: 0 <= k < |pairs| && Cut(pairs[k], '=') == (key, r.value)
    decreases |pairs|
  {
    if |pairs| == 0 then None
    else if Cut(pairs[0], '=').0 == key then Some(Cut(pairs[0], '=').1)
    else
      var r := Lookup(pairs[1..], key);
      if r.Some? then
        var k :| 0 <= k < |pairs[1..]| && Cut(pairs[1..][k], '=') == (key, r.value);
        assert pairs[k + 1] == pairs[1..][k];
        r
      else r
  }

  /** A query parameter of a URL. */
  function Param(url: string, key: string): Option<string> {
    Lookup(Split(Query(url), '&'), key)
  }

  /** Cutting a string at the separator placed right after a separator-free prefix. */
  lemma {:induction false} CutAt(a: string, b: string, c: char)
    requires c !in a
    ensures Cut(a + [c] + b, c) == (a, b)
    decreases |a|
  {
    if |a| > 0 {
      assert (a + [c] + b)[1..] == a[1..] + [c] + b;
      CutAt(a[1..], b, c);
      assert [a[0]] + a[1..] == a;
    }
  }

  /** The four `key=value` pairs of a listing query. */
  function ListingPairs(search: string, category: string, price: string, page: int): seq<string> {
    [Pair("search", search), Pair("category", category), Pair("sortByPrice", price), Pair("page", IntToString(page))]
  }

  /** Joining four parts with '&' between them. */
  lemma JoinFour(a: string, b: string, c: string, d: string)
    ensures Join([a, b, c, d], '&') == a + "&" + b + "&" + c + "&" + d
  {
    var parts := [a, b, c, d];
    assert parts[1..] == [b, c, d];
    assert parts[1..][1..] == [c, d];
    assert parts[1..][1..][1..] == [d];
    assert Join([c, d], '&') == c + "&" + d;
    assert Join([b, c, d], '&') == b + "&" + (c + "&" + d);
    assert Join(parts, '&') == a + "&" + (b + "&" + (c + "&" + d));
  }

  /** A listing URL is the base, a '?', and its pairs joined with '&'. */
  lemma ListingShape(search: string, category: string, price: string, page: int)
    ensures ListingUrl(search, category, price, page) == ListingBase + "?" + Join(ListingPairs(search, category, price, page), '&')
  {
    JoinFour(Pair("search", search), Pair("category", category), Pair("sortByPrice", price), Pair("page", IntToString(page)));
  }

  /** A pair holds a character only if its key or its value does, or it is the '='. */
  lemma PairFree(key: string, value: string, c: char)
    requires c !in key && c !in value && c != '='
    ensures c !in Pair(key, value)
  {
  }

  /** The query of a listing URL, joined from its pairs. */
  lemma ListingQuery(search: string, category: string, price: string, page: int)
    ensures Query(ListingUrl(search, category, price, page)) == Join(ListingPairs(search, category, price, page), '&')
  {
    ListingShape(search, category, price, page);
    var q := Join(ListingPairs(search, category, price, page), '&');
    CutAt(ListingBase, q, '?');
    assert ListingBase + "?" + q == ListingBase + ['?'] + q;
  }

  /** The query of a listing URL, split at '&', when no filter contains '&'. */
  lemma ListingSplit(search: string, category: string, price: string, page: int)
    requires '&' !in search && '&' !in category && '&' !in price
    ensures Split(Query(ListingUrl(search, category, price, page)), '&') == ListingPairs(search, category, price, page)
  {
    ListingQuery(search, category, price, page);
    ListingPairsFree(search, category, price, page);
    SplitJoin(ListingPairs(search, category, price, page), '&');
  }

  /** No listing pair holds '&' when no filter does. */
  lemma ListingPairsFree(search: string, category: string, price: string, page: int)
    requires '&' !in search && '&' !in category && '&' !in price
    ensures forall k :: 0 <= k < 4 ==> '&' !in ListingPairs(search, category, price, page)[k]
  {
    ListingKeys();
    PairFree("search", search, '&');
    TailPairsFree(search, category, price, page);
  }

  /** The pairs after the search pair hold no '&' when the other filters hold none. */
  lemma TailPairsFree(search: string, category: string, price: string, page: int)
    requires '&' !in category && '&' !in price
    ensures forall k :: 1 <= k < 4 ==> '&' !in ListingPairs(search, category, price, page)[k]
  {
    ListingKeys();
    PairFree("category", category, '&');
    PairFree("sortByPrice", price, '&');
    assert '&' !in IntToString(page);
    PairFree("page", IntToString(page), '&');
  }

  /** A pair whose key has no '=' reads back as that key and value. */
  lemma PairReads(key: string, value: string)
    requires '=' !in key
    ensures Cut(Pair(key, value), '=') == (key, value)
  {
    CutAt(key, value, '=');
  }

  /** A lookup of the first pair's own key finds its value. */
  lemma LookupHit(key: string, value: string, rest: seq<string>)
    requires '=' !in key
    ensures Lookup([Pair(key, value)] + rest, key) == Some(value)
  {
    PairReads(key, value);
  }

  /** A lookup of any other key passes over the first pair. */
  lemma LookupMiss(key: string, value: string, rest: seq<string>, wanted: string)
    requires '=' !in key && key != wanted
    ensures Lookup([Pair(key, value)] + rest, wanted) == Lookup(rest, wanted)
  {
    PairReads(key, value);
    assert ([Pair(key, value)] + rest)[1..] == rest;
  }

  /** The four listing keys hold no '=' or '&' and differ from each other (they differ in length). */
  lemma ListingKeys()
    ensures '=' !in "search" && '=' !in "category" && '=' !in "sortByPrice" && '=' !in "page"
    ensures '&' !in "search" && '&' !in "category" && '&' !in "sortByPrice" && '&' !in "page"
    ensures |"search"| == 6 && |"category"| == 8 && |"sortByPrice"| == 11 && |"page"| == 4
  {
  }

  /** The listing's pairs read back as the four filters. */
  lemma PairsReadBack(search: string, category: string, price: string, page: int)
    ensures var parts := ListingPairs(search, category, price, page);
      && Lookup(parts, "search") == Some(search)
      && Lookup(parts, "category") == Some(category)
      && Lookup(parts, "sortByPrice") == Some(price)
      && Lookup(parts, "page") == Some(IntToString(page))
  {
    var p3 := [Pair("page", IntToString(page))] + [];
    var p2 := [Pair("sortByPrice", price)] + p3;
    var p1 := [Pair("category", category)] + p2;
    var parts := [Pair("search", search)] + p1;
    assert ListingPairs(search, category, price, page) == parts;
    ListingKeys();
    LookupHit("search", search, p1);
    LookupMiss("search", search, p1, "category");
    LookupMiss("search", search, p1, "sortByPrice");
    LookupMiss("search", search, p1, "page");
    LookupHit("category", category, p2);
    LookupMiss("category", category, p2, "sortByPrice");
    LookupMiss("category", category, p2, "page");
    LookupHit("sortByPrice", price, p3);
    LookupMiss("sortByPrice", price, p3, "page");
    LookupHit("page", IntToString(page), []);
  }

  /** Reading the listing URL back: with no '&' in the filters, each of the four parameters
      carries exactly the value the context interpolated. */
  lemma ListingRoundTrip(search: string, category: string, price: string, page: int)
    requires '&' !in search && '&' !in category && '&' !in price
    ensures var u := ListingUrl(search, category, price, page);
      && Param(u, "search") == Some(search)
      && Param(u, "category") == Some(category)
      && Param(u, "sortByPrice") == Some(price)
      && Param(u, "page") == Some(IntToString(page))
  {
    ListingSplit(search, category, price, page);
    PairsReadBack(search, category, price, page);
  }

  /** The forged pairs join back into the same query. */
  lemma ForgedJoin(text: string, forged: string, category: string, price: string, page: int)
    ensures var parts := ListingPairs(text + "&" + Pair("category", forged), category, price, page);
      Join([Pair("search", text), Pair("category", forged)] + parts[1..], '&') == Join(parts, '&')
  {
    var parts := ListingPairs(text + "&" + Pair("category", forged), category, price, page);
    PairGlue("search", text, Pair("category", forged));
    assert parts == [Pair("search", text) + "&" + Pair("category", forged)] + parts[1..];
    JoinGlue(Pair("search", text), Pair("category", forged), parts[1..]);
  }

  /** A value holding `&rest` makes a pair that ends in that `&rest`. */
  lemma PairGlue(key: string, text: string, rest: string)
    ensures Pair(key, text + "&" + rest) == Pair(key, text) + "&" + rest
  {
    assert key + "=" + (text + "&" + rest) == (key + "=" + text) + "&" + rest;
  }

  /** Two parts joined by hand with '&' join like the two parts themselves. */
  lemma JoinGlue(a: string, b: string, rest: seq<string>)
    requires |rest| >= 1
    ensures Join([a, b] + rest, '&') == Join([a + "&" + b] + rest, '&')
  {
    var tail := Join(rest, '&');
    var glued := a + "&" + b;
    assert [a, b] + rest == [a] + ([b] + rest);
    JoinCons(a, [b] + rest);
    JoinCons(b, rest);
    JoinCons(glued, rest);
    assert "&" == ['&'];
    Assoc(a + ['&'], b + ['&'], tail);
    Assoc(a + ['&'], b, ['&']);
  }

  lemma Assoc(x: string, y: string, z: string)
    ensures x + (y + z) == x + y + z
  {
  }

  /** Joining a part in front of a non-empty list puts one '&' between them. */
  lemma JoinCons(x: string, rest: seq<string>)
    requires |rest| >= 1
    ensures Join([x] + rest, '&') == x + ['&'] + Join(rest, '&')
  {
    assert ([x] + rest)[1..] == rest;
  }


  /** A search text holding "&category=" splits into one pair more than the listing has: its
      own two pairs, then the remaining three. */
  lemma ForgedSplit(text: string, forged: string, category: string, price: string, page: int)
    requires '&' !in text && '&' !in forged && '&' !in category && '&' !in price
    ensures var parts := ListingPairs(text + "&" + Pair("category", forged), category, price, page);
      Split(Query(ListingUrl(text + "&" + Pair("category", forged), category, price, page)), '&')
        == [Pair("search", text), Pair("category", forged)] + parts[1..]
  {
    var search := text + "&" + Pair("category", forged);
    var parts := ListingPairs(search, category, price, page);
    var forgedParts := [Pair("search", text), Pair("category", forged)] + parts[1..];
    ListingQuery(search, category, price, page);
    ForgedJoin(text, forged, category, price, page);
    ForgedPartsFree(text, forged, category, price, page);
    SplitJoin(forgedParts, '&');
  }

  /** The five pairs of a forged query hold no '&' of their own. */
  lemma ForgedPartsFree(text: string, forged: string, category: string, price: string, page: int)
    requires '&' !in text && '&' !in forged && '&' !in category && '&' !in price
    ensures var parts := ListingPairs(text + "&" + Pair("category", forged), category, price, page);
      var forgedParts := [Pair("search", text), Pair("category", forged)] + parts[1..];
      |forgedParts| == 5 && forall k :: 0 <= k < 5 ==> '&' !in forgedParts[k]
  {
    var search := text + "&" + Pair("category", forged);
    var parts := ListingPairs(search, category, price, page);
    var forgedParts := [Pair("search", text), Pair("category", forged)] + parts[1..];
    ListingKeys();
    PairFree("search", text, '&');
    PairFree("category", forged, '&');
    TailPairsFree(search, category, price, page);
    assert forall k :: 2 <= k < 5 ==> forgedParts[k] == parts[k - 1];
  }

  /** Without encoding, a search text holding "&category=x" puts a `category=x` pair into the
      query, right before the pair of the chosen category, so a first-occurrence reading of
      the query finds x. Which of the two a server acts on is the server's business. */
  lemma SearchCanForgeCategory(text: string, forged: string, category: string, price: string, page: int)
    requires '&' !in text && '&' !in forged && '&' !in category && '&' !in price
    ensures var pairs := Split(Query(ListingUrl(text + "&" + Pair("category", forged), category, price, page)), '&');
      |pairs| == 5 && pairs[1] == Pair("category", forged) && pairs[2] == Pair("category", category)
    ensures Param(ListingUrl(text + "&" + Pair("category", forged), category, price, page), "category") == Some(forged)
  {
    var parts := ListingPairs(text + "&" + Pair("category", forged), category, price, page);
    ForgedSplit(text, forged, category, price, page);
    var tail := [Pair("category", forged)] + parts[1..];
    assert [Pair("search", text), Pair("category", forged)] + parts[1..] == [Pair("search", text)] + tail;
    ListingKeys();
    LookupMiss("search", text, tail, "category");
    LookupHit("category", forged, parts[1..]);
  }

  /* ------------------------------------------------------------ fetching */

  function ListingRequest(s: CatalogState): Effect {
    Request(Get, ListingUrl(s.search, s.category, s.price, s.page), [])
  }

  function ProductRequest(id: string): Effect {
    Request(Get, Host + "/api/product/" + id, [])
  }

  /** `fetchProducts`: a 2xx answer replaces the products, the new products, the categories
      and the page count together; `loading` goes false either way; the filters and the page
      are left alone. */
  function FetchProducts(s: CatalogState, reply: Reply<Listing>): (r: (CatalogState, seq<Effect>))
    ensures r.1 == [Request(Get, ListingUrl(s.search, s.category, s.price, s.page), [])]
    ensures !r.0.loading
    ensures r.0.page == s.page && r.0.search == s.search && r.0.category == s.category && r.0.price == s.price
    ensures r.0.product == s.product && r.0.related == s.related
    ensures reply.Ok? ==>
      && r.0.products == reply.body.products && r.0.newProd == reply.body.newProduct
      && r.0.categories == reply.body.categories && r.0.totalPages == reply.body.totalPages
    ensures reply.Fail? ==> r.0 == s.(loading := false)
  {
    var next := match reply
      case Ok(l) => s.(products := l.products, newProd := l.newProduct, categories := l.categories,
                       totalPages := l.totalPages, loading := false)
      case Fail(_) => s.(loading := false);
    (next, [ListingRequest(s)])
  }

  /** `fetchProduct(id)`: `during` is the state while the request is out, `after` the state
      once it settled. */
  datatype ProductFetch = ProductFetch(during: CatalogState, after: CatalogState, effects: seq<Effect>)

  function FetchProduct(s: CatalogState, id: string, reply: Reply<ProductAnswer>): (r: ProductFetch)
    ensures r.during.loading && !r.after.loading
    ensures r.effects == [ProductRequest(id)]
    ensures reply.Ok? ==> r.after.product == reply.body.product && r.after.related == reply.body.related
    ensures reply.Fail? ==> r.after.product == s.product && r.after.related == s.related
    ensures r.during == s.(loading := true)
    ensures r.after.(product := s.product, related := s.related, loading := s.loading) == s
  {
    var during := s.(loading := true);
    var after := match reply
      case Ok(a) => during.(product := a.product, related := a.related, loading := false)
      case Fail(_) => during.(loading := false);
    ProductFetch(during, after, [ProductRequest(id)])
  }

  /* ------------------------------------------------------------ filter changes */

  /** The values the listing effect depends on: `[search, category, page, price]`. */
  datatype Deps = Deps(search: string, category: string, page: int, price: string)

  function DepsOf(s: CatalogState): Deps {
    Deps(s.search, s.category, s.page, s.price)
  }

  /** A render with state `next` after `s`: the listing effect runs again exactly when one of
      its dependencies changed. */
  function Rerender(s: CatalogState, next: CatalogState, reply: Reply<Listing>): (r: (CatalogState, seq<Effect>))
    ensures DepsOf(next) == DepsOf(s) ==> r == (next, [])
    ensures DepsOf(next) != DepsOf(s) ==> r == FetchProducts(next, reply)
  {
    if DepsOf(next) == DepsOf(s) then (next, []) else FetchProducts(next, reply)
  }

  /** The four setters the context exports for the filters and the page. */
  datatype Setter = SetSearch(text: string) | SetCategory(text: string) | SetPrice(text: string) | SetPage(n: int)

  function Set(s: CatalogState, c: Setter, reply: Reply<Listing>): (r: (CatalogState, seq<Effect>))
    ensures c.SetSearch? ==> r.0.search == c.text
    ensures c.SetCategory? ==> r.0.category == c.text
    ensures c.SetPrice? ==> r.0.price == c.text
    ensures c.SetPage? ==> r.0.page == c.n
    ensures c.SetSearch? ==> DepsOf(r.0) == DepsOf(s).(search := c.text)
    ensures c.SetCategory? ==> DepsOf(r.0) == DepsOf(s).(category := c.text)
    ensures c.SetPrice? ==> DepsOf(r.0) == DepsOf(s).(price := c.text)
    ensures c.SetPage? ==> DepsOf(r.0) == DepsOf(s).(page := c.n)
    ensures r.0.product == s.product && r.0.related == s.related
  {
    var next := match c
      case SetSearch(t) => s.(search := t)
      case SetCategory(t) => s.(category := t)
      case SetPrice(t) => s.(price := t)
      case SetPage(n) => s.(page := n);
    Rerender(s, next, reply)
  }

  /* ------------------------------------------------------------ the context value */

  /** The names the provider puts in its value. */
  const Exported: set<string> := {
    "loading", "products", "newProd", "search", "setSearch", "categories", "category",
    "setCategory", "totalPages", "price", "setPrice", "page", "setPage", "fetchProduct",
    "relatedProduct", "product" }

  /* ------------------------------------------------------------ properties */

  /** Listing and paging start on page 1 of 1, with the spinner on. */
  lemma InitialPaging()
    ensures Initial.page == 1 && Initial.totalPages == 1 && Initial.loading
    ensures Initial.products == [] && Initial.search == "" && Initial.category == "" && Initial.price == ""
  {
  }

  /** Every setter refetches the listing exactly when it changes its value, and the request
      carries the new value; setting the current value again does nothing. */
  lemma SetRefetchesIffChanged(s: CatalogState, c: Setter, reply: Reply<Listing>)
    ensures var r := Set(s, c, reply);
      (r.1 != [] <==> DepsOf(r.0) != DepsOf(s))
      && (r.1 != [] ==> r.1 == [ListingRequest(r.0)])
  {
  }

  /** Applying the same setter twice refetches at most once. */
  lemma SetTwiceFetchesOnce(s: CatalogState, c: Setter, reply: Reply<Listing>)
    ensures var once := Set(s, c, reply);
      Set(once.0, c, reply).1 == []
  {
  }

  /** A new search keeps the page: a search narrowing the results leaves the page number where
      it was, possibly past the new page count. */
  lemma SearchKeepsPage(s: CatalogState, text: string, l: Listing)
    requires text != s.search
    ensures var r := Set(s, SetSearch(text), Ok(l));
      r.0.page == s.page && r.0.totalPages == l.totalPages && r.1 == [ListingRequest(s.(search := text))]
  {
  }

  /** Whatever the answer, the page leaves the spinner after the single-product fetch, and the
      listing fetch does not hold it either. */
  lemma LoadingSettles(s: CatalogState, id: string, answer: Reply<ProductAnswer>, listing: Reply<Listing>)
    ensures FetchProduct(s, id, answer).during.loading
    ensures !FetchProduct(s, id, answer).after.loading
    ensures !FetchProducts(FetchProduct(s, id, answer).after, listing).0.loading
  {
  }

  /** `fetchProducts` is not part of the value: a consumer that destructures it gets
      `undefined`. */
  lemma RefetchNotExported()
    ensures "fetchProducts" !in Exported
    ensures "fetchProduct" in Exported && "setPage" in Exported
  {
  }
}
