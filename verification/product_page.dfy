/** One product's page (`src/pages/shared/ProductPage.jsx`): the star ratings, the review form
    and the review list with its owner-only controls, the average rating, the add-to-cart
    control, and the admin editor with its image upload. */
module ProductPage {
  import opened Wrappers
  import opened Strings
  import opened Entities
  import opened Http
  import Cart
  import Catalog
  import Session

  /* ------------------------------------------------------------ stars */

  const StarCount := 5

  /** The first `n` stars for `rating`: star `i` is lit iff `rating > i`. */
  function Lights(rating: int, n: nat): (lit: seq<bool>)
    ensures |lit| == n
    ensures forall i :: 0 <= i < n ==> lit[i] == (rating > i)
  {
    seq(n, i requires 0 <= i < n => rating > i)
  }

  /** The five stars drawn for a rating, in the form (`rating > index`) and in the review list
      (`index < review.rating`) alike. */
  function Stars(rating: int): (lit: seq<bool>)
    ensures |lit| == StarCount
    ensures forall i, j :: 0 <= i <= j < StarCount && lit[j] ==> lit[i]
  {
    Lights(rating, StarCount)
  }

  /** Star `index` was clicked: the rating becomes `index + 1`. */
  function ClickStar(index: nat): (rating: int)
    requires index < StarCount
    ensures 1 <= rating <= StarCount
    ensures Stars(rating)[index] && (index + 1 < StarCount ==> !Stars(rating)[index + 1])
  {
    index + 1
  }

  /** How many stars are lit. */
  function LitCount(lit: seq<bool>): nat
    decreases |lit|
  {
    if |lit| == 0 then 0 else LitCount(lit[..|lit| - 1]) + (if lit[|lit| - 1] then 1 else 0)
  }

  /** Of the first `n` stars, exactly the rating's worth are lit, clamped to 0..n. */
  lemma {:induction false} LightsCount(rating: int, n: nat)
    ensures LitCount(Lights(rating, n)) == if rating <= 0 then 0 else if rating >= n then n else rating
    decreases n
  {
    if n > 0 {
      assert Lights(rating, n)[..n - 1] == Lights(rating, n - 1);
      LightsCount(rating, n - 1);
    }
  }

  /** A rating in 0..5 lights exactly that many stars; clicking star `i` lights `i + 1`. */
  lemma StarsShowRating(rating: int, index: nat)
    requires index < StarCount
    ensures 0 <= rating <= StarCount ==> LitCount(Stars(rating)) == rating
    ensures LitCount(Stars(ClickStar(index))) == index + 1
  {
    LightsCount(rating, StarCount);
    LightsCount(index + 1, StarCount);
  }

  /** The average's stars: star `i` is lit iff `i < averageRating`. A fractional average
      lights its partial star too (`AverageRoundsUp`). */
  function AverageStars(average: real): (lit: seq<bool>)
    ensures |lit| == StarCount
    ensures forall i, j :: 0 <= i <= j < StarCount && lit[j] ==> lit[i]
  {
    seq(StarCount, i requires 0 <= i < StarCount => (i as real) < average)
  }

  /** A whole-number average lights the same stars as that rating. */
  lemma WholeAverageLikeRating(rating: int)
    ensures AverageStars(rating as real) == Stars(rating)
  {
    assert forall i :: 0 <= i < StarCount ==> AverageStars(rating as real)[i] == Stars(rating)[i];
  }

  /** An average in 0..5 lights as many stars as the least whole number at or above it, so
      3.2 lights four. */
  lemma AverageRoundsUp(average: real)
    requires 0.0 <= average <= StarCount as real
    ensures var c := -((-average).Floor);
      (c - 1) as real < average <= c as real && LitCount(AverageStars(average)) == c
  {
    var c := -((-average).Floor);
    assert (c - 1) as real < average <= c as real;
    assert forall i :: 0 <= i < StarCount ==> AverageStars(average)[i] == Lights(c, StarCount)[i];
    assert AverageStars(average) == Lights(c, StarCount);
    LightsCount(c, StarCount);
  }

  /** An average of 3.2 lights four stars. */
  lemma FractionalAverageExample()
    ensures LitCount(AverageStars(3.2)) == 4
  {
    AverageRoundsUp(3.2);
  }

  /* ------------------------------------------------------------ the review form */

  /** `{ rating, reviewComment, errors.message }`; "" stands for no error. The form never
      renders the error. */
  datatype ReviewForm = ReviewForm(rating: int, comment: string, error: string)

  const BlankReview := ReviewForm(0, "", "")
  const RequiredMessage := "Rating and comment are required."
  const ReviewAddPath := "/api/review/add"

  /** The reviews of a product. The page's average refresh and the review list each send it. */
  function ReviewsRequest(productId: string): Effect {
    Request(Get, "/api/review/" + productId, [])
  }

  /** The review body; the numeric rating is written in decimal. */
  function ReviewBody(productId: string, f: ReviewForm): seq<Field> {
    [Field("productId", productId), Field("rating", IntToString(f.rating)), Field("reviewComment", f.comment)]
  }

  /** `handleSubmit`. A zero rating or an empty comment only records the error. Otherwise the
      review is posted; success toasts, calls the `fetchReviews` prop and clears the form (the
      error stays); a failure toasts the server's message or the fallback. The prop the page
      passes is its average refresh, so the request it sends feeds `RefreshAverage` only; the
      review list is not refetched (`AddReview`). */
  function SubmitReview(f: ReviewForm, productId: string, write: Reply<Ack>): (r: (ReviewForm, seq<Effect>))
    ensures f.rating == 0 || f.comment == "" ==> r == (f.(error := RequiredMessage), [])
    ensures f.rating != 0 && f.comment != "" ==>
      |r.1| > 0 && r.1[0] == Request(Post, ReviewAddPath, ReviewBody(productId, f))
    ensures f.rating != 0 && f.comment != "" && write.Ok? ==>
      r.0 == ReviewForm(0, "", f.error) && r.1[|r.1| - 1] == ReviewsRequest(productId)
    ensures write.Fail? ==> r.0 == f || r.0 == f.(error := RequiredMessage)
    ensures f.rating != 0 && f.comment != "" && write.Fail? ==>
      r.1 == [Request(Post, ReviewAddPath, ReviewBody(productId, f)), Toast(ErrorToast, MessageOr(write.failure, "Failed to submit review"))]
  {
    if f.rating == 0 || f.comment == "" then (f.(error := RequiredMessage), [])
    else
      var post := Request(Post, ReviewAddPath, ReviewBody(productId, f));
      match write
      case Ok(a) => (f.(rating := 0, comment := ""), [post, Toast(SuccessToast, a.message), ReviewsRequest(productId)])
      case Fail(e) => (f, [post, Toast(ErrorToast, MessageOr(e, "Failed to submit review"))])
  }

  /* ------------------------------------------------------------ reviews and their owners */

  /** A review as the review endpoint returns it; `authorId` is the populated author's `id`. */
  datatype Review = Review(id: string, authorId: Option<string>, authorName: string, rating: int, comment: string)

  /** The sum of the ratings. */
  function Total(reviews: seq<Review>): int
    decreases |reviews|
  {
    if |reviews| == 0 then 0 else Total(reviews[..|reviews| - 1]) + reviews[|reviews| - 1].rating
  }

  /** `fetchReviewsAndCalculateRating`'s result: no average without reviews, the mean rating
      otherwise (in exact arithmetic). */
  function Average(reviews: seq<Review>): (r: Option<real>)
    ensures r.None? <==> |reviews| == 0
    ensures r.Some? ==> r.value * (|reviews| as real) == Total(reviews) as real
  {
    if |reviews| > 0 then Some(Total(reviews) as real / |reviews| as real) else None
  }

  /** Ratings in `lo..hi` sum to between `|reviews| * lo` and `|reviews| * hi`. */
  lemma {:induction false} TotalBounds(reviews: seq<Review>, lo: int, hi: int)
    requires forall i :: 0 <= i < |reviews| ==> lo <= reviews[i].rating <= hi
    ensures |reviews| * lo <= Total(reviews) <= |reviews| * hi
    decreases |reviews|
  {
    if |reviews| > 0 {
      TotalBounds(reviews[..|reviews| - 1], lo, hi);
    }
  }

  /** A quotient of a total between `n` and `5n` by `n` lies between 1 and 5. */
  lemma QuotientBounds(t: real, n: real)
    requires n > 0.0 && n <= t <= 5.0 * n
    ensures 1.0 <= t / n <= 5.0
  {
    var q := t / n;
    assert q * n == t;
    assert (q - 1.0) * n == t - n;
    assert (5.0 - q) * n == 5.0 * n - t;
  }

  /** The average of ratings chosen with the stars lies between 1 and 5. */
  lemma AverageInStarRange(reviews: seq<Review>)
    requires |reviews| > 0
    requires forall i :: 0 <= i < |reviews| ==> 1 <= reviews[i].rating <= StarCount
    ensures 1.0 <= Average(reviews).value <= StarCount as real
  {
    TotalBounds(reviews, 1, StarCount);
    assert Average(reviews).value == Total(reviews) as real / |reviews| as real;
    QuotientBounds(Total(reviews) as real, |reviews| as real);
  }

  /** The average refresh: a 2xx answer recomputes the average (None without reviews); a
      failure toasts and keeps the previous one. */
  function RefreshAverage(average: Option<real>, productId: string, reply: Reply<seq<Review>>): (r: (Option<real>, seq<Effect>))
    ensures reply.Ok? ==> r.0 == Average(reply.body) && r.1 == [ReviewsRequest(productId)]
    ensures reply.Fail? ==> r == (average, [ReviewsRequest(productId), Toast(ErrorToast, "Failed to fetch reviews")])
  {
    match reply
    case Ok(reviews) => (Average(reviews), [ReviewsRequest(productId)])
    case Fail(_) => (average, [ReviewsRequest(productId), Toast(ErrorToast, "Failed to fetch reviews")])
  }

  /** The review list's state: `{ reviews, editReviewId, updatedRating, updatedComment }`. */
  datatype ReviewsState = ReviewsState(reviews: seq<Review>, editId: Option<string>, rating: int, comment: string)

  const NoReviews := ReviewsState([], None, 0, "")

  /** The page around a review submit: the form, the average and the separate review list. */
  datatype ReviewPage = ReviewPage(form: ReviewForm, average: Option<real>, list: ReviewsState, effects: seq<Effect>)

  /** Submitting the review form on the product page. A successful post calls the average
      refresh the page passed as `fetchReviews`, whose request is the last effect of
      `SubmitReview`; the review list is a sibling component with its own state and is left as
      it was. */
  function AddReview(f: ReviewForm, average: Option<real>, list: ReviewsState, productId: string,
                     write: Reply<Ack>, refetch: Reply<seq<Review>>): (r: ReviewPage)
    ensures r.list == list
    ensures r.form == SubmitReview(f, productId, write).0
    ensures f.rating != 0 && f.comment != "" && write.Ok? ==>
      r.average == RefreshAverage(average, productId, refetch).0 &&
      r.effects == SubmitReview(f, productId, write).1 + RefreshAverage(average, productId, refetch).1[1..]
    ensures f.rating == 0 || f.comment == "" || write.Fail? ==>
      r.average == average && r.effects == SubmitReview(f, productId, write).1
  {
    var sub := SubmitReview(f, productId, write);
    if f.rating != 0 && f.comment != "" && write.Ok? then
      var avg := RefreshAverage(average, productId, refetch);
      ReviewPage(sub.0, avg.0, list, sub.1 + avg.1[1..])
    else ReviewPage(sub.0, average, list, sub.1)
  }

  /** The list's own `fetchReviews`: a failure toasts only for a non-admin viewer. */
  function FetchReviews(s: ReviewsState, productId: string, user: Option<UserRecord>, reply: Reply<seq<Review>>): (r: (ReviewsState, seq<Effect>))
    ensures reply.Ok? ==> r.0 == s.(reviews := reply.body) && r.1 == [ReviewsRequest(productId)]
    ensures reply.Fail? ==> r.0 == s
    ensures reply.Fail? ==> (|r.1| == 2 <==> !IsAdmin(user))
    ensures |r.1| > 0 && r.1[0] == ReviewsRequest(productId)
  {
    match reply
    case Ok(list) => (s.(reviews := list), [ReviewsRequest(productId)])
    case Fail(_) =>
      if !IsAdmin(user) then (s, [ReviewsRequest(productId), Toast(ErrorToast, "Failed to fetch reviews")])
      else (s, [ReviewsRequest(productId)])
  }

  /** `user && review.userId.id === user._id`: the edit and delete controls show. Two absent
      ids compare equal. */
  predicate OwnsReview(user: Option<UserRecord>, r: Review) {
    user.Some? && r.authorId == user.value.id
  }

  /** `reviews.find(review => review._id === id)`: the first review with that id. */
  function FindReview(reviews: seq<Review>, id: string): (r: Option<Review>)
    ensures r.Some? ==> r.value in reviews && r.value.id == id
    ensures r.Some? ==> exists k :: 0 <= k < |reviews| && reviews[k] == r.value && forall j :: 0 <= j < k ==> reviews[j].id != id
    ensures r.None? <==> forall i :: 0 <= i < |reviews| ==> reviews[i].id != id
    decreases |reviews|
  {
    if |reviews| == 0 then None
    else if reviews[0].id == id then Some(reviews[0])
    else FindReview(reviews[1..], id)
  }

  const NotAuthorized := "Not authorized to delete this review"

  /** `handleDelete(reviewId)`. Reading `user._id` with no user, or `.userId` of a review that
      is not in the list, throws. A different id is refused with a toast; otherwise the
      review is deleted and the list refetched. */
  function HandleDelete(s: ReviewsState, user: Option<UserRecord>, productId: string, reviewId: string,
                        write: Reply<Ack>, refetch: Reply<seq<Review>>): (r: (ReviewsState, seq<Effect>))
    ensures user.None? || FindReview(s.reviews, reviewId).None? ==> r == (s, [Uncaught])
    ensures user.Some? && FindReview(s.reviews, reviewId).Some? && !OwnsReview(user, FindReview(s.reviews, reviewId).value) ==>
      r == (s, [Toast(ErrorToast, NotAuthorized)])
    ensures user.Some? && FindReview(s.reviews, reviewId).Some? && OwnsReview(user, FindReview(s.reviews, reviewId).value) ==>
      |r.1| > 0 && r.1[0] == Request(Delete, "/api/review/" + reviewId, [])
    ensures write.Ok? && |r.1| > 0 && r.1[0].Request? ==> r.0 == FetchReviews(s, productId, user, refetch).0
    ensures write.Fail? ==> r.0 == s
  {
    if user.None? then (s, [Uncaught])
    else match FindReview(s.reviews, reviewId)
      case None => (s, [Uncaught])
      case Some(found) =>
        if user.value.id != found.authorId then (s, [Toast(ErrorToast, NotAuthorized)])
        else
          var del := Request(Delete, "/api/review/" + reviewId, []);
          match write
          case Ok(_) =>
            var f := FetchReviews(s, productId, user, refetch);
            (f.0, [del, Toast(SuccessToast, "Review deleted successfully")] + f.1)
          case Fail(e) => (s, [del, Toast(ErrorToast, MessageOr(e, "Failed to delete review"))])
  }

  /** `handleEdit`: opens the edit form on a review, primed with its rating and comment. */
  function HandleEdit(s: ReviewsState, r: Review): (t: ReviewsState)
    ensures t.reviews == s.reviews && t.editId == Some(r.id)
    ensures t.rating == r.rating && t.comment == r.comment
  {
    s.(editId := Some(r.id), rating := r.rating, comment := r.comment)
  }

  /** `handleEditSubmit(reviewId)`: sends the edited rating and comment as they are; success
      closes the edit form and refetches the list. */
  function HandleEditSubmit(s: ReviewsState, user: Option<UserRecord>, productId: string, reviewId: string,
                            write: Reply<Ack>, refetch: Reply<seq<Review>>): (r: (ReviewsState, seq<Effect>))
    ensures |r.1| > 0 && r.1[0] == Request(Put, "/api/review/" + reviewId,
      [Field("rating", IntToString(s.rating)), Field("reviewComment", s.comment)])
    ensures write.Ok? ==> r.0.editId.None? && r.0.reviews == FetchReviews(s, productId, user, refetch).0.reviews
    ensures write.Fail? ==> r.0 == s
  {
    var put := Request(Put, "/api/review/" + reviewId, [Field("rating", IntToString(s.rating)), Field("reviewComment", s.comment)]);
    match write
    case Ok(a) =>
      var f := FetchReviews(s.(editId := None), productId, user, refetch);
      (f.0, [put, Toast(SuccessToast, a.message)] + f.1)
    case Fail(e) => (s, [put, Toast(ErrorToast, MessageOr(e, "Failed to update review"))])
  }

  /* ------------------------------------------------------------ the cart control */

  datatype CartControl = AddButton | OutOfStock | LoginLink | NoControl

  /** The control under the price, from the session and the stock. */
  function CartControlFor(isAuth: bool, user: Option<UserRecord>, stock: int): (c: CartControl)
    ensures c == AddButton <==> isAuth && !IsAdmin(user) && stock > 0
    ensures c == OutOfStock <==> isAuth && !IsAdmin(user) && stock <= 0
    ensures c == LoginLink <==> !isAuth
    ensures c == NoControl <==> isAuth && IsAdmin(user)
  {
    if isAuth && !IsAdmin(user) then (if stock <= 0 then OutOfStock else AddButton)
    else if !isAuth then LoginLink
    else NoControl
  }

  /** `isAuth && user?.role !== 'admin'`: the review form shows. */
  predicate ReviewFormShown(isAuth: bool, user: Option<UserRecord>) {
    isAuth && !IsAdmin(user)
  }

  /** "Add To Cart" hands the page's product id to the cart context. */
  function AddToCartPress(cart: Cart.CartState, id: string, write: Reply<Ack>, refetch: Reply<Cart.CartPayload>): (r: Cart.Outcome)
    ensures |r.effects| > 0 && r.effects[0] == Request(Post, Cart.CartAddPath, [Field("product", id)])
    ensures Count(r.effects, Cart.Refetch) == if write.Ok? then 1 else 0
  {
    Cart.AddToCart(cart, id, write, refetch)
  }

  /* ------------------------------------------------------------ the admin editor */

  /** `{ show, title, description, stock, price, category, btnLoading, updatedImages }`. */
  datatype Editor = Editor(show: bool, title: string, description: string, stock: string, price: string,
                           category: string, btnLoading: bool, images: Option<seq<string>>)

  const ClosedEditor := Editor(false, "", "", "", "", "", false, None)

  /** `updateHandler`: toggles the editor and primes it from the loaded product. The fields
      are primed on closing as well as on opening. */
  function UpdateHandler(e: Editor, p: Catalog.Product): (r: Editor)
    ensures r.show == !e.show
    ensures r.title == p.title && r.description == p.description && r.price == p.price && r.category == p.category
    ensures r.stock == IntToString(p.stock)
    ensures r.btnLoading == e.btnLoading && r.images == e.images
  {
    e.(show := !e.show, title := p.title, description := p.description, stock := IntToString(p.stock),
       price := p.price, category := p.category)
  }

  /** The editor, the product context and what a save did. */
  datatype EditorOutcome = EditorOutcome(editor: Editor, catalog: Catalog.CatalogState, effects: seq<Effect>)

  function UpdateBody(e: Editor): seq<Field> {
    [Field("title", e.title), Field("description", e.description), Field("price", e.price),
     Field("stock", e.stock), Field("category", e.category)]
  }

  /** `submitHandler`: saves the fields. Success toasts, refetches the product, closes the
      editor and frees the button. A failure toasts the server's message; without a response
      that read throws first, and the button stays busy. */
  function SubmitUpdate(e: Editor, c: Catalog.CatalogState, id: string, write: Reply<Ack>,
                        answer: Reply<Catalog.ProductAnswer>): (r: EditorOutcome)
    ensures |r.effects| > 0 && r.effects[0] == Request(Put, "/api/product/" + id, UpdateBody(e))
    ensures write.Ok? ==> !r.editor.show && !r.editor.btnLoading && r.catalog == Catalog.FetchProduct(c, id, answer).after
    ensures write.Fail? ==> r.catalog == c && r.editor.show == e.show
    ensures write.Fail? ==> (r.editor.btnLoading <==> write.failure.NoResponse?)
  {
    var put := Request(Put, "/api/product/" + id, UpdateBody(e));
    match write
    case Ok(a) =>
      var f := Catalog.FetchProduct(c, id, answer);
      EditorOutcome(e.(show := false, btnLoading := false), f.after, [put, Toast(SuccessToast, a.message)] + f.effects)
    case Fail(err) =>
      EditorOutcome(e.(btnLoading := err.NoResponse?), c, [put, ServerError(err)])
  }

  const NoNewImages := "Please select new images."

  /** `handleSubmitImage`: without chosen files it only complains; otherwise it posts the files
      and, on success, refetches the product and clears the choice. A failure behaves as in
      `SubmitUpdate`. */
  function SubmitImages(e: Editor, c: Catalog.CatalogState, id: string, write: Reply<Ack>,
                        answer: Reply<Catalog.ProductAnswer>): (r: EditorOutcome)
    ensures e.images.None? || e.images.value == [] ==>
      r == EditorOutcome(e.(btnLoading := false), c, [Toast(ErrorToast, NoNewImages)])
    ensures e.images.Some? && e.images.value != [] ==>
      |r.effects| > 0 && r.effects[0] == Request(Post, "/api/product/" + id, FileParts(e.images.value))
    ensures e.images.Some? && e.images.value != [] && write.Ok? ==>
      r.editor.images.None? && !r.editor.btnLoading && r.catalog == Catalog.FetchProduct(c, id, answer).after
    ensures e.images.Some? && e.images.value != [] && write.Fail? ==>
      r.catalog == c && (r.editor.btnLoading <==> write.failure.NoResponse?)
  {
    if e.images.None? || e.images.value == [] then EditorOutcome(e.(btnLoading := false), c, [Toast(ErrorToast, NoNewImages)])
    else
      var post := Request(Post, "/api/product/" + id, FileParts(e.images.value));
      match write
      case Ok(a) =>
        var f := Catalog.FetchProduct(c, id, answer);
        EditorOutcome(e.(images := None, btnLoading := false), f.after, [post, Toast(SuccessToast, a.message)] + f.effects)
      case Fail(err) =>
        EditorOutcome(e.(btnLoading := err.NoResponse?), c, [post, ServerError(err)])
  }

  /* ------------------------------------------------------------ properties */

  /** A review reaches the server only with a chosen rating and a comment, and a successful
      one leaves the form blank for the next review. */
  lemma ReviewNeedsRatingAndComment(f: ReviewForm, productId: string, write: Reply<Ack>)
    ensures (exists e :: e in SubmitReview(f, productId, write).1 && e.Request?) <==> f.rating != 0 && f.comment != ""
    ensures f.rating != 0 && f.comment != "" && write.Ok? ==>
      var g := SubmitReview(f, productId, write).0;
      g.rating == BlankReview.rating && g.comment == BlankReview.comment
  {
    if f.rating != 0 && f.comment != "" {
      assert SubmitReview(f, productId, write).1[0].Request?;
    }
  }

  /** A review form filled by clicking a star and typing a comment always passes the check. */
  lemma ClickedRatingPasses(index: nat, comment: string, productId: string, write: Reply<Ack>)
    requires index < StarCount && comment != ""
    ensures SubmitReview(ReviewForm(ClickStar(index), comment, ""), productId, write).1[0].Request?
  {
  }

  /** The delete request goes out exactly when the controls would show for the review found:
      the handler's check and the list's rule are the same comparison. */
  lemma DeleteIffControlsShown(s: ReviewsState, user: Option<UserRecord>, productId: string, reviewId: string,
                               write: Reply<Ack>, refetch: Reply<seq<Review>>)
    ensures var r := HandleDelete(s, user, productId, reviewId, write, refetch);
      Request(Delete, "/api/review/" + reviewId, []) in r.1 <==>
        FindReview(s.reviews, reviewId).Some? && OwnsReview(user, FindReview(s.reviews, reviewId).value)
  {
    var r := HandleDelete(s, user, productId, reviewId, write, refetch);
    if user.Some? && FindReview(s.reviews, reviewId).Some? && OwnsReview(user, FindReview(s.reviews, reviewId).value) {
      assert r.1[0] == Request(Delete, "/api/review/" + reviewId, []);
    }
  }

  /** With distinct review ids, the controls drawn next to a review lead to its deletion. */
  lemma ShownControlsDelete(s: ReviewsState, user: Option<UserRecord>, productId: string, i: nat,
                            write: Reply<Ack>, refetch: Reply<seq<Review>>)
    requires i < |s.reviews|
    requires forall j, k :: 0 <= j < k < |s.reviews| ==> s.reviews[j].id != s.reviews[k].id
    requires OwnsReview(user, s.reviews[i])
    ensures HandleDelete(s, user, productId, s.reviews[i].id, write, refetch).1[0] == Request(Delete, "/api/review/" + s.reviews[i].id, [])
  {
    var found := FindReview(s.reviews, s.reviews[i].id);
    assert found.Some?;
    assert found.value == s.reviews[i];
  }

  /** The record `login` stores has no `_id`, so a user signed in through the login form owns
      no review whose author carries an id, their own included. */
  lemma LoginRecordOwnsNoReview(c: Session.Client, name: string, token: string, role: string, email: string,
                                cartReply: Reply<Cart.CartPayload>, r: Review)
    requires r.authorId.Some?
    ensures !OwnsReview(Session.Login(c, name, token, role, email, true, cartReply).client.auth.user, r)
  {
    Session.LoginEstablishesSession(c, name, token, role, email, cartReply);
  }

  /** The review form shows exactly when the cart control is the button or "Out of Stock";
      an admin gets the editor and neither. */
  lemma ControlsAgree(isAuth: bool, user: Option<UserRecord>, stock: int)
    ensures ReviewFormShown(isAuth, user) <==> CartControlFor(isAuth, user, stock) in {AddButton, OutOfStock}
    ensures isAuth && IsAdmin(user) ==> CartControlFor(isAuth, user, stock) == NoControl && !ReviewFormShown(isAuth, user)
  {
  }

  /** No average is shown until there is a review, and then it lies in the stars' range. */
  lemma AverageOnlyWithReviews(average: Option<real>, productId: string, reviews: seq<Review>)
    requires forall i :: 0 <= i < |reviews| ==> 1 <= reviews[i].rating <= StarCount
    ensures RefreshAverage(average, productId, Ok(reviews)).0.None? <==> |reviews| == 0
    ensures |reviews| > 0 ==> 1.0 <= RefreshAverage(average, productId, Ok(reviews)).0.value <= 5.0
  {
    if |reviews| > 0 {
      AverageInStarRange(reviews);
    }
  }

  /** An upload without files sends nothing and frees the button. */
  lemma UploadNeedsFiles(e: Editor, c: Catalog.CatalogState, id: string, write: Reply<Ack>, answer: Reply<Catalog.ProductAnswer>)
    requires e.images.None? || e.images.value == []
    ensures forall x :: x in SubmitImages(e, c, id, write, answer).effects ==> !x.Request?
    ensures !SubmitImages(e, c, id, write, answer).editor.btnLoading
  {
  }

  /** After a successful save the product is fetched again and the page leaves the spinner. */
  lemma SaveRefetchesProduct(e: Editor, c: Catalog.CatalogState, id: string, a: Ack, answer: Reply<Catalog.ProductAnswer>)
    ensures var r := SubmitUpdate(e, c, id, Ok(a), answer);
      Catalog.ProductRequest(id) in r.effects && !r.catalog.loading
  {
    assert SubmitUpdate(e, c, id, Ok(a), answer).effects[2] == Catalog.ProductRequest(id);
  }

  /** Editing a review and submitting it untouched sends the review's own rating and comment,
      and the rating sent reads back as the same number. Success ends with exactly the
      refetched list and no edit open; a failure leaves the edit form open as primed. */
  lemma EditThenSubmit(s: ReviewsState, r: Review, user: Option<UserRecord>, productId: string,
                       write: Reply<Ack>, refetch: Reply<seq<Review>>)
    ensures HandleEditSubmit(HandleEdit(s, r), user, productId, r.id, write, refetch).1[0] ==
      Request(Put, "/api/review/" + r.id, [Field("rating", IntToString(r.rating)), Field("reviewComment", r.comment)])
    ensures ParseInt(IntToString(r.rating)) == r.rating
    ensures write.Ok? && refetch.Ok? ==>
      HandleEditSubmit(HandleEdit(s, r), user, productId, r.id, write, refetch).0 == ReviewsState(refetch.body, None, r.rating, r.comment)
    ensures write.Fail? ==> HandleEditSubmit(HandleEdit(s, r), user, productId, r.id, write, refetch).0 == HandleEdit(s, r)
  {
    IntToStringRoundTrip(r.rating);
  }

  /** After a successful delete or edit by the owner, the list is exactly the refetched one; if
      that refetch fails, the stale list stays on screen, the deleted review included. */
  lemma WritesKeepReviewsCurrent(s: ReviewsState, user: Option<UserRecord>, productId: string, reviewId: string,
                                 a: Ack, list: seq<Review>, f: Failure)
    requires user.Some? && FindReview(s.reviews, reviewId).Some?
    requires OwnsReview(user, FindReview(s.reviews, reviewId).value)
    ensures HandleDelete(s, user, productId, reviewId, Ok(a), Ok(list)).0 == s.(reviews := list)
    ensures HandleEditSubmit(s, user, productId, reviewId, Ok(a), Ok(list)).0 == s.(reviews := list, editId := None)
    ensures HandleDelete(s, user, productId, reviewId, Ok(a), Fail(f)).0.reviews == s.reviews
  {
  }

  /** A review added to a product with no reviews yet: the refetch moves the average to the
      new rating, while the list still shows no review, so the two disagree until the list is
      remounted. */
  lemma AddedReviewNotListed(f: ReviewForm, productId: string, a: Ack, added: Review)
    requires f.rating != 0 && f.comment != ""
    ensures var r := AddReview(f, None, NoReviews, productId, Ok(a), Ok([added]));
      r.list.reviews == [] && r.average == Some(added.rating as real) && r.average != Average(r.list.reviews)
    ensures SubmitReview(f, productId, Ok(a)).1[|SubmitReview(f, productId, Ok(a)).1| - 1] == ReviewsRequest(productId)
  {
    var one: seq<Review> := [added];
    assert Total(one) == added.rating by {
      assert one[..|one| - 1] == [];
    }
  }

  /** The edit button toggles: pressing it twice restores the editor's visibility and leaves
      the fields primed from the product. */
  lemma UpdateHandlerTwice(e: Editor, p: Catalog.Product)
    ensures UpdateHandler(UpdateHandler(e, p), p).show == e.show
    ensures UpdateHandler(UpdateHandler(e, p), p) == UpdateHandler(e, p).(show := e.show)
  {
  }

  /** Saving right after opening the editor sends the product's own fields, its stock as a
      decimal string that reads back as the stock. */
  lemma OpenedEditorSendsProduct(e: Editor, p: Catalog.Product, c: Catalog.CatalogState, id: string,
                                 write: Reply<Ack>, answer: Reply<Catalog.ProductAnswer>)
    ensures UpdateBody(UpdateHandler(e, p)) ==
      [Field("title", p.title), Field("description", p.description), Field("price", p.price),
       Field("stock", IntToString(p.stock)), Field("category", p.category)]
    ensures ParseInt(UpdateBody(UpdateHandler(e, p))[3].value) == p.stock
    ensures SubmitUpdate(UpdateHandler(e, p), c, id, write, answer).effects[0] ==
      Request(Put, "/api/product/" + id, UpdateBody(UpdateHandler(e, p)))
  {
    IntToStringRoundTrip(p.stock);
  }
}
