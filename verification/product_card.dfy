/** The product tile: image, offer badge, first two specifications, star
    rating and price, plus the like button. */
module ProductCard {
  import opened Common
  import opened Catalogue

  const Placeholder := "https://via.placeholder.com/400x300?text=No+Image"

  /** The price block: the offer price with the list price struck through,
      or the list price alone. */
  datatype PriceView = Discounted(price: int, original: int) | Plain(price: int)

  datatype Card = Card(
    image: string,
    badge: Option<int>,
    specs: seq<Spec>,
    rating: int,
    count: int,
    price: PriceView,
    liked: bool)

  /** `Math.round(x)`: the nearest integer, halves rounded up. */
  function Round(x: real): (n: int)
    ensures n as real - 0.5 <= x < n as real + 0.5
  {
    (x + 0.5).Floor
  }

  /** `product.images?.[0] || placeholder` */
  function FirstImage(images: seq<string>): (url: string)
    ensures |images| > 0 && images[0] != "" ==> url == images[0]
    ensures !(|images| > 0 && images[0] != "") ==> url == Placeholder
  {
    if |images| > 0 && images[0] != "" then images[0] else Placeholder
  }

  /** `specifications.slice(0, 2)`: at most the first two, in order. */
  function FirstSpecs(specs: seq<Spec>): (r: seq<Spec>)
    ensures |r| == if |specs| < 2 then |specs| else 2
    ensures r == specs[..|r|]
  {
    if |specs| < 2 then specs else specs[..2]
  }

  /** What the tile shows for a product, its offer (if any), its review
      summary (if it has arrived) and the liked flag. */
  function Render(product: Product, offer: Option<Offer>, reviewData: Option<ReviewData>, isLiked: bool): (c: Card)
    ensures c.badge.Some? <==> ActiveOffer(offer)
    ensures ActiveOffer(offer) ==> c.badge == Some(offer.value.offerPercent)
    ensures ActiveOffer(offer) ==> c.price == Discounted(offer.value.discountedPrice, product.price)
    ensures !ActiveOffer(offer) ==> c.price == Plain(product.price)
    ensures c.price.price == DisplayPrice(product, offer)
    ensures c.specs == FirstSpecs(product.specifications)
    ensures c.image == FirstImage(product.images)
    ensures reviewData.None? ==> c.rating == 0 && c.count == 0
    ensures reviewData.Some? ==> c.rating == Round(reviewData.value.averageRating) && c.count == reviewData.value.count
    ensures c.liked == isLiked
  {
    var active := ActiveOffer(offer);
    Card(
      FirstImage(product.images),
      if active then Some(offer.value.offerPercent) else None,
      FirstSpecs(product.specifications),
      if reviewData.Some? then Round(reviewData.value.averageRating) else 0,
      if reviewData.Some? then reviewData.value.count else 0,
      if active then Discounted(offer.value.discountedPrice, product.price) else Plain(product.price),
      isLiked)
  }

  /** A whole-number average is shown as itself, so an unrated product
      shows zero stars. */
  lemma RoundWhole(n: int)
    ensures Round(n as real) == n
  {
  }

  /** The like button calls `onToggleLike(product._id)` only when a callback
      was supplied; the result is the id passed, if any. */
  function LikeClick(product: Product, hasCallback: bool): (called: Option<Id>)
    ensures called.Some? <==> hasCallback
    ensures called.Some? ==> called.value == product.id
  {
    if hasCallback then Some(product.id) else None
  }
}
