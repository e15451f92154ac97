/** The catalogue records the pages receive from the server, and the list
    logic that Home, Products, ProductDetail and ProductCard share: offer
    lookup, the active-offer price rule, like toggling and the review map. */
module Catalogue {
  import opened Common

  /** A document id (`_id`). */
  type Id = string

  /** A reference field (`offer.product`, `product.category`) that the server
      either populates with the referenced document, sends as the raw id, or
      leaves out. */
  datatype Ref = Populated(id: Id) | Raw(id: Id) | Missing

  /** `ref?._id === id || ref === id`. */
  predicate RefersTo(ref: Ref, id: Id) {
    match ref
    case Populated(x) => x == id
    case Raw(x) => x == id
    case Missing => false
  }

  datatype Spec = Spec(name: string, value: string)

  datatype Product = Product(
    id: Id,
    name: string,
    price: int,
    categoryType: string,
    category: Ref,
    images: seq<string>,
    specifications: seq<Spec>)

  datatype Offer = Offer(product: Ref, isActive: bool, discountedPrice: int, offerPercent: int)

  datatype Category = Category(id: Id, name: string)

  /** The review summary of one product; `averageRating` is whatever number
      the server sends, so it is a real. */
  datatype ReviewData = ReviewData(averageRating: real, count: int)

  /** `offers.find(o => o.product?._id === id || o.product === id)`: the first
      offer that refers to `id`, or none when no offer does. */
  function FindOffer(offers: seq<Offer>, id: Id): (r: Option<Offer>)
    ensures r.None? <==> forall k :: 0 <= k < |offers| ==> !RefersTo(offers[k].product, id)
    ensures r.Some? ==> exists k :: 0 <= k < |offers| && offers[k] == r.value
                          && RefersTo(offers[k].product, id)
                          && forall j :: 0 <= j < k ==> !RefersTo(offers[j].product, id)
  {
    if offers == [] then None
    else if RefersTo(offers[0].product, id) then Some(offers[0])
    else
      var r := FindOffer(offers[1..], id);
      assert forall k :: 1 <= k < |offers| ==> offers[k] == offers[1..][k - 1];
      r
  }

  /** `products.find(p => p._id === id)`: the first product with that id. */
  function FindProduct(products: seq<Product>, id: Id): (r: Option<Product>)
    ensures r.None? <==> forall k :: 0 <= k < |products| ==> products[k].id != id
    ensures r.Some? ==> r.value.id == id
    ensures r.Some? ==> exists k :: 0 <= k < |products| && products[k] == r.value
                          && forall j :: 0 <= j < k ==> products[j].id != id
  {
    if products == [] then None
    else if products[0].id == id then Some(products[0])
    else
      var r := FindProduct(products[1..], id);
      assert forall k :: 1 <= k < |products| ==> products[k] == products[1..][k - 1];
      r
  }

  /** `offer && offer.isActive` (ProductCard) and `offer?.isActive`
      (ProductDetail). */
  function ActiveOffer(offer: Option<Offer>): (active: bool)
    ensures active ==> offer.Some?
    ensures offer.Some? ==> (active <==> offer.value.isActive)
  {
    offer.Some? && offer.value.isActive
  }

  /** The price a customer pays: the discounted price under an active offer,
      the list price otherwise. */
  function DisplayPrice(product: Product, offer: Option<Offer>): (price: int)
    ensures ActiveOffer(offer) ==> price == offer.value.discountedPrice
    ensures !ActiveOffer(offer) ==> price == product.price
  {
    if ActiveOffer(offer) then offer.value.discountedPrice else product.price
  }

  /** The liked-id list after the server answered a like toggle: `liked`
      appends the id (no de-duplication), otherwise every occurrence of it is
      filtered out. */
  function ApplyLike(ids: seq<Id>, id: Id, liked: bool): (r: seq<Id>)
    ensures liked ==> r == ids + [id]
    ensures !liked ==> id !in r && IsSubsequence(r, ids)
    ensures !liked ==> forall x :: x != id ==> multiset(r)[x] == multiset(ids)[x]
  {
    if liked then ids + [id] else Filter(ids, (x: Id) => x != id)
  }

  /** Liking and then unliking a product leaves it out of the list, and
      removes nothing else that was there. */
  lemma LikeThenUnlike(ids: seq<Id>, id: Id)
    ensures id in ApplyLike(ids, id, true)
    ensures ApplyLike(ApplyLike(ids, id, true), id, false) == ApplyLike(ids, id, false)
  {
    FilterAppendRejected(ids, id, (x: Id) => x != id);
  }

  /** A page's review map after `GET /reviews/:id` answered for product `id`:
      `setReviews(prev => ({ ...prev, [id]: data }))` adds or overwrites that
      product's entry and keeps every other entry; a failure is swallowed. */
  function ReviewArrived(reviews: map<Id, ReviewData>, id: Id, resp: Response<ReviewData>): (r: map<Id, ReviewData>)
    ensures resp.Err? ==> r == reviews
    ensures resp.Ok? ==> r.Keys == reviews.Keys + {id} && r[id] == resp.data
    ensures forall k :: k in reviews && k != id ==> k in r && r[k] == reviews[k]
  {
    match resp
    case Ok(data) => reviews[id := data]
    case Err(_) => reviews
  }

  /** The per-product fetches run concurrently: summaries of different
      products arriving in either order give the same map. */
  lemma ReviewsCommute(reviews: map<Id, ReviewData>, a: Id, b: Id, ra: Response<ReviewData>, rb: Response<ReviewData>)
    requires a != b
    ensures ReviewArrived(ReviewArrived(reviews, a, ra), b, rb) == ReviewArrived(ReviewArrived(reviews, b, rb), a, ra)
  {
  }
}
