/** The product page: offer lookup, the liked flag, the price shown, and the
    order and review forms, both gated on a signed-in user. */
module ProductDetail {
  import opened Common
  import opened Catalogue
  import opened Auth

  datatype OrderForm = OrderForm(address: string, quantity: int)

  datatype ReviewForm = ReviewForm(rating: int, comment: string)

  /** The page's local state for product `id`. */
  datatype Page = Page(
    id: Id,
    product: Option<Product>,
    offer: Option<Offer>,
    isLiked: bool,
    showOrderForm: bool,
    order: OrderForm,
    review: ReviewForm)

  datatype View = View(auth: Session, page: Page)

  const EmptyOrder := OrderForm("", 1)
  const FreshReview := ReviewForm(5, "")

  /** The page as first rendered for route id `id`. */
  function Mount(id: Id): (p: Page)
    ensures p.id == id && p.product.None? && p.offer.None?
    ensures !p.isLiked && !p.showOrderForm
    ensures p.order == EmptyOrder && p.review == FreshReview
  {
    Page(id, None, None, false, false, EmptyOrder, FreshReview)
  }

  /** `GET /products/:id` answered: the product is stored; a failure is
      ignored. */
  function ProductLoaded(p: Page, resp: Response<Product>): (r: Page)
    ensures resp.Ok? ==> r == p.(product := Some(resp.data))
    ensures resp.Err? ==> r == p
  {
    if resp.Ok? then p.(product := Some(resp.data)) else p
  }

  /** `GET /offers/active` answered: the first offer for this product, by
      populated or raw reference, becomes the page's offer; with no match (or
      a failure) the offer stays what it was. */
  function OffersLoaded(p: Page, resp: Response<seq<Offer>>): (r: Page)
    ensures r.(offer := p.offer) == p
    ensures resp.Ok? && r.offer != p.offer ==> r.offer.Some? && RefersTo(r.offer.value.product, p.id)
    ensures resp.Ok? ==> r.offer == (if FindOffer(resp.data, p.id).Some? then FindOffer(resp.data, p.id) else p.offer)
    ensures resp.Ok? && (forall k :: 0 <= k < |resp.data| ==> !RefersTo(resp.data[k].product, p.id)) ==> r == p
    ensures resp.Err? ==> r == p
  {
    match resp
    case Ok(offers) =>
      var found := FindOffer(offers, p.id);
      if found.Some? then p.(offer := found) else p
    case Err(_) => p
  }

  /** `GET /likes/check` answered with the visitor's liked ids: the page is
      liked exactly when its id is among them. */
  function LikesLoaded(p: Page, resp: Response<seq<Id>>): (r: Page)
    ensures r.(isLiked := p.isLiked) == p
    ensures resp.Ok? ==> (r.isLiked <==> p.id in resp.data)
    ensures resp.Err? ==> r == p
  {
    match resp
    case Ok(ids) => p.(isLiked := p.id in ids)
    case Err(_) => p
  }

  /** `toggleLike`: the flag becomes the server's `liked`; a failure leaves
      it. */
  function LikeToggled(p: Page, resp: Response<bool>): (r: Page)
    ensures r.(isLiked := p.isLiked) == p
    ensures resp.Ok? ==> r.isLiked == resp.data
    ensures resp.Err? ==> r == p
  {
    match resp
    case Ok(liked) => p.(isLiked := liked)
    case Err(_) => p
  }

  /** `handleOrderClick`: without a user the login modal opens and the order
      form does not; with one, the order form opens. */
  function OrderClick(v: View): (r: View)
    ensures v.auth.user.None? ==> r.auth == SetShowLoginModal(v.auth, true) && r.page == v.page
    ensures v.auth.user.Some? ==> r.auth == v.auth && r.page == v.page.(showOrderForm := true)
  {
    if v.auth.user.None? then View(SetShowLoginModal(v.auth, true), v.page)
    else View(v.auth, v.page.(showOrderForm := true))
  }

  datatype OrderRequest = OrderRequest(address: string, quantity: int, product: Id)

  datatype OrderResult = OrderResult(view: View, sent: OrderRequest)

  /** `submitOrder`: always posts the form as it stands. Success closes and
      resets the form; a 401 opens the login modal; any other failure leaves
      everything as it was. */
  function SubmitOrder(v: View, resp: Response<()>): (r: OrderResult)
    ensures r.sent == OrderRequest(v.page.order.address, v.page.order.quantity, v.page.id)
    ensures resp.Ok? ==> r.view == View(v.auth, v.page.(showOrderForm := false, order := EmptyOrder))
    ensures resp.Err? && Unauthorized(resp.failure) ==> r.view == View(SetShowLoginModal(v.auth, true), v.page)
    ensures resp.Err? && !Unauthorized(resp.failure) ==> r.view == v
  {
    var request := OrderRequest(v.page.order.address, v.page.order.quantity, v.page.id);
    match resp
    case Ok(_) => OrderResult(View(v.auth, v.page.(showOrderForm := false, order := EmptyOrder)), request)
    case Err(f) =>
      if Unauthorized(f) then OrderResult(View(SetShowLoginModal(v.auth, true), v.page), request)
      else OrderResult(v, request)
  }

  datatype ReviewRequest = ReviewRequest(rating: int, comment: string, product: Id)

  /** The review-submit outcome: the next view, the review posted (if any)
      and whether the review list is fetched again. */
  datatype ReviewResult = ReviewResult(view: View, sent: Option<ReviewRequest>, refetch: bool)

  /** `submitReview`: without a user nothing is posted and the login modal
      opens. Success resets the form to five stars and no comment and
      re-fetches the reviews; a 401 opens the login modal; any other failure
      changes nothing. */
  function SubmitReview(v: View, resp: Response<()>): (r: ReviewResult)
    ensures r.sent.None? <==> v.auth.user.None?
    ensures r.refetch <==> v.auth.user.Some? && resp.Ok?
    ensures v.auth.user.None? ==> r.view == View(SetShowLoginModal(v.auth, true), v.page)
    ensures r.sent.Some? ==> r.sent.value == ReviewRequest(v.page.review.rating, v.page.review.comment, v.page.id)
    ensures r.sent.Some? && resp.Ok? ==> r.view == View(v.auth, v.page.(review := FreshReview))
    ensures r.sent.Some? && resp.Err? && Unauthorized(resp.failure) ==>
              r.view == View(SetShowLoginModal(v.auth, true), v.page)
    ensures r.sent.Some? && resp.Err? && !Unauthorized(resp.failure) ==> r.view == v
  {
    if v.auth.user.None? then ReviewResult(View(SetShowLoginModal(v.auth, true), v.page), None, false)
    else
      var request := ReviewRequest(v.page.review.rating, v.page.review.comment, v.page.id);
      match resp
      case Ok(_) => ReviewResult(View(v.auth, v.page.(review := FreshReview)), Some(request), true)
      case Err(f) =>
        if Unauthorized(f) then ReviewResult(View(SetShowLoginModal(v.auth, true), v.page), Some(request), false)
        else ReviewResult(v, Some(request), false)
  }

  /** After a logout the order is still posted, since `submitOrder` does not
      check for a user, and the server's 401 answer is what opens the login
      modal. A review, by contrast, is not posted at all. */
  lemma SignedOutOrderIsPosted(v: View, resp: Response<()>)
    ensures var w := View(Logout(v.auth), v.page);
      && SubmitOrder(w, resp).sent == OrderRequest(v.page.order.address, v.page.order.quantity, v.page.id)
      && (resp.Err? && Unauthorized(resp.failure) ==>
            SubmitOrder(w, resp).view.auth.showLoginModal && SubmitOrder(w, resp).view.auth.user.None?)
      && SubmitReview(w, resp).sent.None?
      && SubmitReview(w, resp).view.auth.showLoginModal
  {
  }

  /** A successful order resets the form, so submitting again posts one
      item with no address. */
  lemma OrderAgainAfterSuccess(v: View, resp: Response<()>)
    ensures SubmitOrder(SubmitOrder(v, Ok(())).view, resp).sent == OrderRequest("", 1, v.page.id)
  {
  }

  /** A successful review resets the form, so reviewing again posts five
      stars and no comment. */
  lemma ReviewAgainAfterSuccess(v: View, resp: Response<()>)
    requires v.auth.user.Some?
    ensures SubmitReview(SubmitReview(v, Ok(())).view, resp).sent == Some(ReviewRequest(5, "", v.page.id))
  {
  }

  // ---------------------------------------------------------------------
  // Quantity input: `parseInt(e.target.value) || 1`

  predicate IsDigit(c: char) {
    '0' <= c <= '9'
  }

  /** The longest prefix of `s` made of decimal digits. */
  function DigitPrefix(s: string): (r: string)
    ensures |r| <= |s| && r == s[..|r|]
    ensures forall i :: 0 <= i < |r| ==> IsDigit(r[i])
    ensures |r| < |s| ==> !IsDigit(s[|r|])
  {
    if s != [] && IsDigit(s[0]) then [s[0]] + DigitPrefix(s[1..]) else []
  }

  /** The number a string of decimal digits denotes. */
  function DigitsValue(ds: string): (v: int)
    requires forall i :: 0 <= i < |ds| ==> IsDigit(ds[i])
    ensures v >= 0
  {
    if ds == [] then 0
    else
      var last := ds[|ds| - 1];
      assert IsDigit(last);
      DigitsValue(ds[..|ds| - 1]) * 10 + (last as int - '0' as int)
  }

  /** The digits after an optional sign: `None` when there are none. */
  function UnsignedValue(t: string): Option<int> {
    var ds := DigitPrefix(t);
    if ds == [] then None else Some(DigitsValue(ds))
  }

  /** The value after leading white space: an optional sign, then digits. */
  function SignedValue(t: string): Option<int> {
    if |t| > 0 && t[0] == '-' then
      match UnsignedValue(t[1..])
      case None => None
      case Some(v) => Some(-v)
    else if |t| > 0 && t[0] == '+' then UnsignedValue(t[1..])
    else UnsignedValue(t)
  }

  /** What follows an optional leading sign. */
  function AfterSign(t: string): (u: string)
    ensures u == t || (|t| > 0 && (t[0] == '-' || t[0] == '+') && u == t[1..])
  {
    if |t| > 0 && (t[0] == '-' || t[0] == '+') then t[1..] else t
  }

  /** `parseInt(s)` in base ten: leading white space, an optional sign, then
      the longest run of digits. There is a number (rather than `NaN`, here
      `None`) exactly when a digit follows the white space and the sign; it
      is the value of the longest run of digits there, negated after a minus
      sign. */
  function ParseInt(s: string): (r: Option<int>)
    ensures var u := AfterSign(TrimStart(s)); r.Some? <==> u != [] && IsDigit(u[0])
    ensures r.Some? ==> var t := TrimStart(s); var ds := DigitPrefix(AfterSign(t));
      ds != [] && r.value == (if |t| > 0 && t[0] == '-' then -DigitsValue(ds) else DigitsValue(ds))
  {
    SignedValue(TrimStart(s))
  }

  /** The quantity a typed value becomes: non-numeric input and zero both
      fall back to 1; any other parsed number, negative ones included, is
      kept. */
  function ParseQuantity(input: string): (q: int)
    ensures q != 0
    ensures ParseInt(input).None? ==> q == 1
    ensures ParseInt(input).Some? && ParseInt(input).value != 0 ==> q == ParseInt(input).value
    ensures ParseInt(input) == Some(0) ==> q == 1
  {
    match ParseInt(input)
    case None => 1
    case Some(n) => if n == 0 then 1 else n
  }

  /** The decimal digits of `n`, as a number input shows them. */
  function Decimal(n: nat): (s: string)
    ensures |s| > 0
    ensures forall i :: 0 <= i < |s| ==> IsDigit(s[i])
  {
    var d := ['0' + (n % 10) as char];
    if n < 10 then d else Decimal(n / 10) + d
  }

  lemma {:induction false} DecimalValue(n: nat)
    ensures DigitsValue(Decimal(n)) == n
  {
    var s := Decimal(n);
    if n >= 10 {
      DecimalValue(n / 10);
      assert s[..|s| - 1] == Decimal(n / 10);
    }
  }

  lemma {:induction false} DigitPrefixOfDigits(s: string)
    requires forall i :: 0 <= i < |s| ==> IsDigit(s[i])
    ensures DigitPrefix(s) == s
  {
    if s != [] {
      DigitPrefixOfDigits(s[1..]);
    }
  }

  /** A string of digits is read as its own value. */
  lemma {:induction false} UnsignedOfDigits(ds: string)
    requires ds != [] && forall i :: 0 <= i < |ds| ==> IsDigit(ds[i])
    ensures UnsignedValue(ds) == Some(DigitsValue(ds))
  {
    DigitPrefixOfDigits(ds);
  }

  /** A string that does not start with white space is parsed as it is. */
  lemma {:induction false} ParseIntUntrimmed(s: string)
    requires s != [] && !IsSpace(s[0])
    ensures ParseInt(s) == SignedValue(s)
  {
    assert TrimStart(s) == s;
  }

  /** A non-empty run of digits parses to its value. */
  lemma {:induction false} ParseIntDigits(ds: string)
    requires ds != [] && forall i :: 0 <= i < |ds| ==> IsDigit(ds[i])
    ensures ParseInt(ds) == Some(DigitsValue(ds))
  {
    assert IsDigit(ds[0]);
    ParseIntUntrimmed(ds);
    UnsignedOfDigits(ds);
  }

  /** A minus sign followed by a non-empty run of digits negates its value. */
  lemma {:induction false} ParseIntNegatedDigits(ds: string)
    requires ds != [] && forall i :: 0 <= i < |ds| ==> IsDigit(ds[i])
    ensures ParseInt("-" + ds) == Some(-DigitsValue(ds))
  {
    var m := "-" + ds;
    assert m[1..] == ds;
    UnsignedOfDigits(ds);
    assert SignedValue(m) == Some(-DigitsValue(ds));
    ParseIntUntrimmed(m);
  }

  /** Reading back the decimal form of `n` gives `n`. */
  lemma {:induction false} ParseIntDecimal(n: nat)
    ensures ParseInt(Decimal(n)) == Some(n as int)
  {
    DecimalValue(n);
    ParseIntDigits(Decimal(n));
  }

  /** Reading back the decimal form of `n` after a minus sign gives `-n`. */
  lemma {:induction false} ParseIntNegatedDecimal(n: nat)
    ensures ParseInt("-" + Decimal(n)) == Some(-(n as int))
  {
    DecimalValue(n);
    ParseIntNegatedDigits(Decimal(n));
  }

  /** Typing a positive count sets exactly that quantity. */
  lemma {:induction false} QuantityRoundTrip(n: nat)
    requires n > 0
    ensures ParseQuantity(Decimal(n)) == n
  {
    ParseIntDecimal(n);
  }

  /** A negative count passes through unchanged: nothing enforces the
      input's minimum of 1. */
  lemma {:induction false} NegativeQuantityKept(n: nat)
    requires n > 0
    ensures ParseQuantity("-" + Decimal(n)) == -(n as int)
  {
    ParseIntNegatedDecimal(n);
  }

  /** Typing zero, or clearing the field, sets the quantity to 1. */
  lemma {:induction false} QuantityFallsBackToOne()
    ensures ParseQuantity(Decimal(0)) == 1
    ensures ParseQuantity("") == 1
  {
    ParseIntDecimal(0);
    assert TrimStart("") == "" && DigitPrefix("") == "";
  }

  /** The quantity input's change handler: the typed value, read as
      `ParseQuantity` reads it, becomes the quantity, and nothing else
      changes. */
  function QuantityTyped(p: Page, input: string): (r: Page)
    ensures r.(order := p.order) == p && r.order.address == p.order.address
    ensures r.order.quantity == ParseQuantity(input)
    ensures r.order.quantity != 0
    ensures ParseInt(input).None? ==> r.order.quantity == 1
  {
    p.(order := p.order.(quantity := ParseQuantity(input)))
  }

  /** The total shown in the order form, once the product has loaded. */
  function ShownTotal(p: Page): (t: Option<int>)
    ensures t.Some? <==> p.product.Some?
    ensures t.Some? ==> t.value == DisplayPrice(p.product.value, p.offer) * p.order.quantity
  {
    if p.product.None? then None
    else Some(DisplayPrice(p.product.value, p.offer) * p.order.quantity)
  }

  /** After typing a positive count `n`, the total is the price a customer
      pays times `n`: the discounted price under an active offer, the list
      price otherwise. */
  lemma {:induction false} TotalAfterTyping(p: Page, n: nat)
    requires p.product.Some? && n > 0
    ensures var t := ShownTotal(QuantityTyped(p, Decimal(n)));
      && t.Some?
      && (ActiveOffer(p.offer) ==> t.value == p.offer.value.discountedPrice * n)
      && (!ActiveOffer(p.offer) ==> t.value == p.product.value.price * n)
  {
    QuantityRoundTrip(n);
  }
}
