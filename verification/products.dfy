/** The catalogue page: liked lists, the category / general partition, the
    name search, the tab counts and the per-category grouping. */
module Products {
  import opened Common
  import opened Catalogue

  /** The page's state; its review map is updated by `ReviewArrived`. */
  datatype Page = Page(
    products: seq<Product>,
    offers: seq<Offer>,
    reviews: map<Id, ReviewData>,
    likedIds: seq<Id>,
    likedProducts: seq<Product>,
    categories: seq<Category>,
    search: string)

  /** `likedProducts.filter(p => p._id !== id)` */
  function DropProduct(list: seq<Product>, id: Id): (r: seq<Product>)
    ensures forall q :: q in r ==> q.id != id
    ensures forall q: Product :: q.id != id ==> multiset(r)[q] == multiset(list)[q]
    ensures IsSubsequence(r, list)
  {
    Filter(list, (q: Product) => q.id != id)
  }

  /** `toggleLike(id)` given the server's answer. `liked` appends the id
      (without de-duplication) and appends the product only when it is on the
      page; otherwise every occurrence of the id leaves both lists and nothing
      else does. A failure changes nothing. */
  function ToggleLike(p: Page, id: Id, resp: Response<bool>): (r: Page)
    ensures r.(likedIds := p.likedIds, likedProducts := p.likedProducts) == p
    ensures resp.Err? ==> r == p
    ensures resp.Ok? && resp.data ==> r.likedIds == p.likedIds + [id]
    ensures resp.Ok? && resp.data && FindProduct(p.products, id).Some? ==>
              r.likedProducts == p.likedProducts + [FindProduct(p.products, id).value]
    ensures resp.Ok? && resp.data && FindProduct(p.products, id).None? ==>
              r.likedProducts == p.likedProducts
    ensures resp.Ok? && !resp.data ==>
              && id !in r.likedIds
              && (forall x :: x != id ==> multiset(r.likedIds)[x] == multiset(p.likedIds)[x])
              && (forall q :: q in r.likedProducts ==> q.id != id)
              && (forall q: Product :: q.id != id ==> multiset(r.likedProducts)[q] == multiset(p.likedProducts)[q])
              && IsSubsequence(r.likedIds, p.likedIds)
              && IsSubsequence(r.likedProducts, p.likedProducts)
  {
    match resp
    case Err(_) => p
    case Ok(liked) =>
      if liked then
        var found := FindProduct(p.products, id);
        var products := if found.Some? then p.likedProducts + [found.value] else p.likedProducts;
        p.(likedIds := ApplyLike(p.likedIds, id, true), likedProducts := products)
      else
        p.(likedIds := ApplyLike(p.likedIds, id, false), likedProducts := DropProduct(p.likedProducts, id))
  }

  /** Liking and then unliking a product leaves both liked lists as a lone
      unlike would; in between, the product is listed when it is on the
      page. */
  lemma ToggleTwice(p: Page, id: Id)
    ensures id in ToggleLike(p, id, Ok(true)).likedIds
    ensures FindProduct(p.products, id).Some? ==>
              FindProduct(p.products, id).value in ToggleLike(p, id, Ok(true)).likedProducts
    ensures ToggleLike(ToggleLike(p, id, Ok(true)), id, Ok(false)) == ToggleLike(p, id, Ok(false))
  {
    LikeThenUnlike(p.likedIds, id);
    var found := FindProduct(p.products, id);
    if found.Some? {
      FilterAppendRejected(p.likedProducts, found.value, (q: Product) => q.id != id);
    }
  }

  /** The two `categoryType` values the tabs split the catalogue by. */
  const CategoryKind := "category"
  const GeneralKind := "non-category"

  /** `products.filter(p => p.categoryType === kind)`: the products of one
      kind, in catalogue order. */
  function OfKind(products: seq<Product>, kind: string): (r: seq<Product>)
    ensures forall q :: q in r <==> q in products && q.categoryType == kind
    ensures forall q :: multiset(r)[q] == if q.categoryType == kind then multiset(products)[q] else 0
    ensures IsSubsequence(r, products)
  {
    Filter(products, (q: Product) => q.categoryType == kind)
  }

  /** The category and general lists never share a product, and a product of
      any other `categoryType` is in neither. */
  lemma PartitionDisjoint(products: seq<Product>, q: Product)
    ensures !(q in OfKind(products, CategoryKind) && q in OfKind(products, GeneralKind))
    ensures q.categoryType != CategoryKind && q.categoryType != GeneralKind ==>
              q !in OfKind(products, CategoryKind) && q !in OfKind(products, GeneralKind)
  {
  }

  /** The search test: the lower-cased name contains the lower-cased query. */
  predicate MatchesSearch(q: Product, search: string) {
    Contains(ToLower(q.name), ToLower(search))
  }

  /** `filterBySearch(list)` */
  function FilterBySearch(list: seq<Product>, search: string): (r: seq<Product>)
    ensures forall q :: q in r <==> q in list && MatchesSearch(q, search)
    ensures forall q :: multiset(r)[q] == if MatchesSearch(q, search) then multiset(list)[q] else 0
    ensures IsSubsequence(r, list)
  {
    Filter(list, (q: Product) => MatchesSearch(q, search))
  }

  /** An empty search shows the whole list. */
  lemma EmptySearchKeepsAll(list: seq<Product>)
    ensures FilterBySearch(list, "") == list
  {
    forall q | q in list
      ensures MatchesSearch(q, "")
    {
      ContainsEmpty(ToLower(q.name));
    }
    FilterAll(list, (q: Product) => MatchesSearch(q, ""));
  }

  /** The search ignores the case of the query's ASCII letters. */
  lemma SearchIgnoresQueryCase(list: seq<Product>, search: string)
    ensures FilterBySearch(list, ToLower(search)) == FilterBySearch(list, search)
  {
    ToLowerIdempotent(search);
    FilterCongruent(list, (q: Product) => MatchesSearch(q, ToLower(search)), (q: Product) => MatchesSearch(q, search));
  }

  /** The counts on the four tabs. */
  datatype TabCounts = TabCounts(all: nat, category: nat, general: nat, liked: nat)

  /** Tab counts are the lengths of the unsearched lists, so the two
      partition tabs never count more than the "all" tab. */
  function Tabs(p: Page): (t: TabCounts)
    ensures t.all == |p.products| && t.liked == |p.likedProducts|
    ensures t.category == |OfKind(p.products, CategoryKind)|
    ensures t.general == |OfKind(p.products, GeneralKind)|
    ensures t.category + t.general <= t.all
  {
    PartitionSize(p.products, CategoryKind, GeneralKind);
    TabCounts(|p.products|, |OfKind(p.products, CategoryKind)|, |OfKind(p.products, GeneralKind)|, |p.likedProducts|)
  }

  /** The lists of two different kinds together are no longer than the
      catalogue. */
  lemma {:induction false} PartitionSize(products: seq<Product>, kind1: string, kind2: string)
    requires kind1 != kind2
    ensures |OfKind(products, kind1)| + |OfKind(products, kind2)| <= |products|
  {
    if products != [] {
      PartitionSize(products[1..], kind1, kind2);
    }
  }

  /** One heading of the category tab and the products listed under it. */
  datatype Group = Group(category: Category, items: seq<Product>)

  /** The products of one category: `p.category?._id === cat._id || p.category === cat._id`. */
  function InCategory(list: seq<Product>, cat: Category): (r: seq<Product>)
    ensures forall q :: q in r <==> q in list && RefersTo(q.category, cat.id)
    ensures forall q :: multiset(r)[q] == if RefersTo(q.category, cat.id) then multiset(list)[q] else 0
    ensures IsSubsequence(r, list)
  {
    Filter(list, (q: Product) => RefersTo(q.category, cat.id))
  }

  /** The headings of a list of groups, in order. */
  function Headings(groups: seq<Group>): (cs: seq<Category>)
    ensures |cs| == |groups|
    ensures forall i :: 0 <= i < |groups| ==> cs[i] == groups[i].category
  {
    seq(|groups|, i requires 0 <= i < |groups| => groups[i].category)
  }

  /** No category is listed twice. */
  predicate Distinct<T(==)>(xs: seq<T>) {
    forall i, j :: 0 <= i < j < |xs| ==> xs[i] != xs[j]
  }

  /** The category tab: one group per category, in category order, holding
      the category products that refer to it; categories with no products
      are skipped. */
  function CategoryGroups(categories: seq<Category>, list: seq<Product>): (r: seq<Group>)
    ensures |r| <= |categories|
    ensures forall i :: 0 <= i < |r| ==> ListsItsCategory(r[i], categories, list)
    ensures forall c :: c in categories && InCategory(list, c) != [] ==> c in Headings(r)
    ensures IsSubsequence(Headings(r), categories)
    ensures Distinct(categories) ==> Distinct(Headings(r))
  {
    if categories == [] then []
    else
      var c, cs := categories[0], categories[1..];
      var rest := CategoryGroups(cs, list);
      assert categories == [c] + cs;
      var populated := (d: Category) => InCategory(list, d) != [];
      if InCategory(list, c) == [] then
        KeepGroupItems(c, cs, list, rest);
        SkipHeading(c, Headings(rest), cs, populated);
        rest
      else
        var r := [Group(c, InCategory(list, c))] + rest;
        assert r[1..] == rest;
        HeadingsCons(r);
        AddGroupItems(c, cs, list, rest);
        HeadingsWithin(cs, list, rest);
        PrependHeading(c, Headings(rest), cs, populated);
        r
  }

  /** The groups for `cs` keep listing their own categories as groups for
      `[c] + cs`. */
  lemma KeepGroupItems(c: Category, cs: seq<Category>, list: seq<Product>, rest: seq<Group>)
    requires forall i :: 0 <= i < |rest| ==> ListsItsCategory(rest[i], cs, list)
    ensures forall i :: 0 <= i < |rest| ==> ListsItsCategory(rest[i], [c] + cs, list)
  {
  }

  /** Every group of `[Group(c, …)] + rest` lists its own category. */
  lemma AddGroupItems(c: Category, cs: seq<Category>, list: seq<Product>, rest: seq<Group>)
    requires InCategory(list, c) != []
    requires forall i :: 0 <= i < |rest| ==> ListsItsCategory(rest[i], cs, list)
    ensures var r := [Group(c, InCategory(list, c))] + rest;
      forall i :: 0 <= i < |r| ==> ListsItsCategory(r[i], [c] + cs, list)
  {
    var r := [Group(c, InCategory(list, c))] + rest;
    forall i | 0 <= i < |r| ensures ListsItsCategory(r[i], [c] + cs, list) {
      if i > 0 {
        assert r[i] == rest[i - 1];
        assert ListsItsCategory(rest[i - 1], cs, list);
        assert r[i].category in cs;
      }
    }
  }

  /** Every heading of groups for `cs` is one of `cs`. */
  lemma HeadingsWithin(cs: seq<Category>, list: seq<Product>, rest: seq<Group>)
    requires forall i :: 0 <= i < |rest| ==> ListsItsCategory(rest[i], cs, list)
    ensures forall i :: 0 <= i < |rest| ==> Headings(rest)[i] in cs
  {
  }

  /** A group's heading is one of the categories and its items are exactly
      that category's products, of which there is at least one. */
  predicate ListsItsCategory(g: Group, categories: seq<Category>, list: seq<Product>) {
    g.category in categories && g.items != [] && g.items == InCategory(list, g.category)
  }

  /** Headings for the categories `xs` remain in order, distinct and
      covering, for `[x] + xs` when `x` gets no heading. */
  lemma SkipHeading<T>(x: T, hs: seq<T>, xs: seq<T>, wanted: T -> bool)
    requires !wanted(x)
    requires IsSubsequence(hs, xs)
    requires Distinct(xs) ==> Distinct(hs)
    requires forall d :: d in xs && wanted(d) ==> d in hs
    ensures IsSubsequence(hs, [x] + xs)
    ensures Distinct([x] + xs) ==> Distinct(hs)
    ensures forall d :: d in [x] + xs && wanted(d) ==> d in hs
  {
    SubsequenceOfTail(hs, [x] + xs);
    assert ([x] + xs)[1..] == xs;
    DistinctCons(x, xs);
  }

  /** Headings for the categories `xs`, preceded by a heading for `x`, are in
      the order of `[x] + xs`, distinct when those are, and covering. */
  lemma PrependHeading<T>(x: T, hs: seq<T>, xs: seq<T>, wanted: T -> bool)
    requires IsSubsequence(hs, xs)
    requires forall i :: 0 <= i < |hs| ==> hs[i] in xs
    requires Distinct(xs) ==> Distinct(hs)
    requires forall d :: d in xs && wanted(d) ==> d in hs
    ensures IsSubsequence([x] + hs, [x] + xs)
    ensures Distinct([x] + xs) ==> Distinct([x] + hs)
    ensures forall d :: d in [x] + xs && wanted(d) ==> d in [x] + hs
  {
    SubsequenceCons(x, hs, xs);
    DistinctCons(x, xs);
    DistinctCons(x, hs);
  }

  /** A sequence with a first element is distinct exactly when that element
      does not recur and the rest is distinct. */
  lemma DistinctCons<T>(x: T, xs: seq<T>)
    ensures Distinct([x] + xs) <==> x !in xs && Distinct(xs)
  {
    var all := [x] + xs;
    if x !in xs && Distinct(xs) {
      forall i, j | 0 <= i < j < |all| ensures all[i] != all[j] {
        assert all[j] == xs[j - 1];
        if i > 0 {
          assert all[i] == xs[i - 1];
        }
      }
    }
    if Distinct(all) {
      forall k | 0 <= k < |xs| ensures xs[k] != x {
        assert all[0] == x && xs[k] == all[k + 1];
      }
      forall i, j | 0 <= i < j < |xs| ensures xs[i] != xs[j] {
        assert xs[i] == all[i + 1] && xs[j] == all[j + 1];
      }
    }
  }

  /** The headings of a group list are its first heading followed by the
      headings of the rest. */
  lemma HeadingsCons(r: seq<Group>)
    requires r != []
    ensures Headings(r) == [r[0].category] + Headings(r[1..])
  {
  }

  /** Every product shown under a category heading is a category product
      of the catalogue that refers to that category. */
  lemma GroupedProductsBelong(p: Page)
    ensures forall g, q :: g in CategoryGroups(p.categories, OfKind(p.products, CategoryKind)) && q in g.items ==>
              q in p.products && q.categoryType == CategoryKind && RefersTo(q.category, g.category.id)
  {
  }
}
