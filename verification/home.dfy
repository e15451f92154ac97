/** The home page: the anonymous visitor id, the featured products' liked
    ids and their review summaries. */
module Home {
  import opened Common
  import opened Catalogue

  /** The `localStorage` key of the anonymous visitor id. */
  const VisitorKey := "visitorId"

  /** The visitor id in use and the storage after obtaining it. */
  datatype Visitor = Visitor(id: string, storage: Storage)

  /** A stored (truthy) id is reused and storage is left alone; otherwise
      `'v_' + random` is generated, where `random` stands for the
      base-36 digits, and persisted before use. */
  function VisitorId(storage: Storage, random: string): (v: Visitor)
    ensures StoredTruthy(storage, VisitorKey) ==> v.id == storage[VisitorKey] && v.storage == storage
    ensures !StoredTruthy(storage, VisitorKey) ==> v.id == "v_" + random && v.storage == storage[VisitorKey := v.id]
    ensures VisitorKey in v.storage && v.storage[VisitorKey] == v.id
    ensures forall k :: k in storage && k != VisitorKey ==> k in v.storage && v.storage[k] == storage[k]
  {
    if StoredTruthy(storage, VisitorKey) then Visitor(storage[VisitorKey], storage)
    else
      var id := "v_" + random;
      Visitor(id, storage[VisitorKey := id])
  }

  /** Once an id has been obtained every later page visit reuses it,
      whatever random digits it would have drawn. */
  lemma VisitorIdIsStable(storage: Storage, random1: string, random2: string)
    ensures var first := VisitorId(storage, random1);
      VisitorId(first.storage, random2) == first
  {
    var first := VisitorId(storage, random1);
    assert first.id != "" by {
      if !StoredTruthy(storage, VisitorKey) {
        assert first.id[0] == 'v';
      }
    }
  }

  /** The page's state; its review map is updated by `ReviewArrived`. */
  datatype Page = Page(featured: seq<Product>, offers: seq<Offer>, reviews: map<Id, ReviewData>, likedIds: seq<Id>)

  /** `toggleLike(id)` given the server's answer: append on `liked`, filter
      out every occurrence otherwise, and no change on failure. */
  function ToggleLike(p: Page, id: Id, resp: Response<bool>): (r: Page)
    ensures r.(likedIds := p.likedIds) == p
    ensures resp.Err? ==> r.likedIds == p.likedIds
    ensures resp.Ok? && resp.data ==> r.likedIds == p.likedIds + [id]
    ensures resp.Ok? && !resp.data ==> id !in r.likedIds && IsSubsequence(r.likedIds, p.likedIds)
    ensures resp.Ok? && !resp.data ==> forall x :: x != id ==> multiset(r.likedIds)[x] == multiset(p.likedIds)[x]
  {
    match resp
    case Ok(liked) => p.(likedIds := ApplyLike(p.likedIds, id, liked))
    case Err(_) => p
  }

  /** Liking then unliking leaves the liked ids as if only the unlike had
      happened. */
  lemma ToggleTwice(p: Page, id: Id)
    ensures id in ToggleLike(p, id, Ok(true)).likedIds
    ensures id !in ToggleLike(ToggleLike(p, id, Ok(true)), id, Ok(false)).likedIds
    ensures ToggleLike(ToggleLike(p, id, Ok(true)), id, Ok(false)) == ToggleLike(p, id, Ok(false))
  {
    LikeThenUnlike(p.likedIds, id);
  }
}
