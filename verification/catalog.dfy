/**
 The shop's read side: the product list (active products only, with an
 optional category and text filter, one of four orders, 12 to a page) and
 the product page (one active product by slug, and up to four related
 products from its category).
 */
module Catalog {
  import opened Common
  import opened Sequences
  import opened Store

  /** The list's query-string parameters; each may be absent. */
  datatype ListQuery = ListQuery(category: Option<string>, search: Option<string>, sort: Option<string>)

  datatype SortOrder = PriceAscending | PriceDescending | NameAscending | Latest

  /** The `sort` parameter: three named orders, and newest first for anything else. */
  function ParseSort(sort: Option<string>): (r: SortOrder)
    ensures r == PriceAscending <==> sort == Some("price_asc")
    ensures r == PriceDescending <==> sort == Some("price_desc")
    ensures r == NameAscending <==> sort == Some("name")
  {
    if sort == Some("price_asc") then PriceAscending
    else if sort == Some("price_desc") then PriceDescending
    else if sort == Some("name") then NameAscending
    else Latest
  }

  /** Character-code order on strings: a prefix comes first. */
  predicate LexLeq(a: string, b: string)
    decreases |a|
  {
    a == [] || (b != [] && (a[0] < b[0] || (a[0] == b[0] && LexLeq(a[1..], b[1..]))))
  }

  lemma {:induction false} LexLeqTotal(a: string, b: string)
    ensures LexLeq(a, b) || LexLeq(b, a)
    decreases |a|
  {
    if a != [] && b != [] && a[0] == b[0] {
      LexLeqTotal(a[1..], b[1..]);
    }
  }

  lemma {:induction false} LexLeqTransitive(a: string, b: string, c: string)
    requires LexLeq(a, b) && LexLeq(b, c)
    ensures LexLeq(a, c)
    decreases |a|
  {
    if a != [] && a[0] == b[0] && b[0] == c[0] {
      LexLeqTransitive(a[1..], b[1..], c[1..]);
    }
  }

  /** Strings equal up to order are equal. */
  lemma {:induction false} LexLeqAntisymmetric(a: string, b: string)
    requires LexLeq(a, b) && LexLeq(b, a)
    ensures a == b
    decreases |a|
  {
    if a != [] {
      LexLeqAntisymmetric(a[1..], b[1..]);
      assert a == [a[0]] + a[1..] && b == [b[0]] + b[1..];
    }
  }

  /** "`a` may come before `b`" under a sort order. */
  function Precedes(order: SortOrder): (Product, Product) -> bool
  {
    match order
    case PriceAscending => (a: Product, b: Product) => a.price <= b.price
    case PriceDescending => (a: Product, b: Product) => a.price >= b.price
    case NameAscending => (a: Product, b: Product) => LexLeq(a.name, b.name)
    case Latest => (a: Product, b: Product) => a.createdAt >= b.createdAt
  }

  lemma PrecedesIsTotalPreorder(order: SortOrder)
    ensures TotalPreorder(Precedes(order))
  {
    if order == NameAscending {
      forall a: Product, b: Product ensures LexLeq(a.name, b.name) || LexLeq(b.name, a.name) {
        LexLeqTotal(a.name, b.name);
      }
      forall a: Product, b: Product, c: Product | LexLeq(a.name, b.name) && LexLeq(b.name, c.name)
        ensures LexLeq(a.name, c.name)
      {
        LexLeqTransitive(a.name, b.name, c.name);
      }
    }
  }

  /** A like-`%q%` match on the name, the description or the brand. */
  predicate MatchesSearch(p: Product, q: string)
  {
    Contains(p.name, q) || Contains(p.description, q) || (p.brand.Some? && Contains(p.brand.value, q))
  }

  /** The product's category has the given slug. */
  predicate InCategory(p: Product, categories: map<CategoryId, Category>, slug: string)
  {
    p.categoryId in categories && categories[p.categoryId].slug == slug
  }

  /** The list's `where` clauses. */
  predicate Listed(p: Product, categories: map<CategoryId, Category>, q: ListQuery)
  {
    && p.isActive
    && (Filled(q.category) ==> InCategory(p, categories, q.category.value))
    && (Filled(q.search) ==> MatchesSearch(p, q.search.value))
  }

  function ListedBy(categories: map<CategoryId, Category>, q: ListQuery): Product -> bool
  {
    (p: Product) => Listed(p, categories, q)
  }

  /** Every listed product, in the requested order, before paging. */
  function Matching(rows: seq<Product>, categories: map<CategoryId, Category>, q: ListQuery): (r: seq<Product>)
    ensures multiset(r) == multiset(Filter(rows, ListedBy(categories, q)))
    ensures forall p :: p in r <==> p in rows && Listed(p, categories, q)
    ensures forall i, j :: 0 <= i < j < |r| ==> Precedes(ParseSort(q.sort))(r[i], r[j])
  {
    var kept := Filter(rows, ListedBy(categories, q));
    PrecedesIsTotalPreorder(ParseSort(q.sort));
    var r := SortBy(kept, Precedes(ParseSort(q.sort)));
    SameElements(r, kept);
    r
  }

  /** Page `page` of the list, 12 products to a page. */
  function Index(rows: seq<Product>, categories: map<CategoryId, Category>, q: ListQuery, page: int): (r: seq<Product>)
    ensures |r| <= 12
    ensures forall p :: p in r ==> p in rows && p.isActive
    ensures Filled(q.category) ==> forall p :: p in r ==> InCategory(p, categories, q.category.value)
    ensures Filled(q.search) ==> forall p :: p in r ==> MatchesSearch(p, q.search.value)
    ensures q.sort == Some("price_asc") ==> forall i, j :: 0 <= i < j < |r| ==> r[i].price <= r[j].price
    ensures q.sort == Some("price_desc") ==> forall i, j :: 0 <= i < j < |r| ==> r[i].price >= r[j].price
    ensures q.sort == Some("name") ==> forall i, j :: 0 <= i < j < |r| ==> LexLeq(r[i].name, r[j].name)
    ensures ParseSort(q.sort) == Latest ==> forall i, j :: 0 <= i < j < |r| ==> r[i].createdAt >= r[j].createdAt
  {
    var m := Matching(rows, categories, q);
    PageOfSorted(m, 12, page, Precedes(ParseSort(q.sort)));
    Page(m, 12, page)
  }

  /** Every listed product is on some page. */
  lemma IndexComplete(rows: seq<Product>, categories: map<CategoryId, Category>, q: ListQuery, p: Product)
    requires p in rows && Listed(p, categories, q)
    ensures exists page: nat :: p in Index(rows, categories, q, page)
  {
    var m := Matching(rows, categories, q);
    var page := PageOf(m, 12, p);
    assert Index(rows, categories, q, page) == Page(m, 12, page);
  }

  /** Under the name sort, a product whose name sorts before another's is
      never listed after it: two names out of order on a page are equal. */
  lemma NameSortStrict(rows: seq<Product>, categories: map<CategoryId, Category>, q: ListQuery, page: int)
    requires q.sort == Some("name")
    ensures var r := Index(rows, categories, q, page);
      forall i, j :: 0 <= i < j < |r| && LexLeq(r[j].name, r[i].name) ==> r[i].name == r[j].name
  {
    var r := Index(rows, categories, q, page);
    forall i, j | 0 <= i < j < |r| && LexLeq(r[j].name, r[i].name) ensures r[i].name == r[j].name {
      LexLeqAntisymmetric(r[i].name, r[j].name);
    }
  }

  /** An inactive product is never listed, whatever the query. */
  lemma InactiveNeverListed(rows: seq<Product>, categories: map<CategoryId, Category>, q: ListQuery, page: int, p: Product)
    requires !p.isActive
    ensures p !in Index(rows, categories, q, page)
  {
  }

  // ---------------------------------------------------------------------
  // The product page

  /** The index of the first active product with this slug. */
  function FindBySlug(rows: seq<Product>, slug: string): (r: Option<nat>)
    ensures r.None? <==> forall i :: 0 <= i < |rows| ==> !(rows[i].slug == slug && rows[i].isActive)
    ensures r.Some? ==> r.value < |rows| && rows[r.value].slug == slug && rows[r.value].isActive
    ensures r.Some? ==> forall i :: 0 <= i < r.value ==> !(rows[i].slug == slug && rows[i].isActive)
    decreases |rows|
  {
    if rows == [] then None
    else if rows[0].slug == slug && rows[0].isActive then Some(0)
    else
      match FindBySlug(rows[1..], slug)
      case None => None
      case Some(i) => Some(i + 1)
  }

  /** Candidates for "related products": same category, another product, active. */
  function RelatedTo(product: Product): Product -> bool
  {
    (p: Product) => p.categoryId == product.categoryId && p.id != product.id && p.isActive
  }

  /** The first four candidates in table order. */
  function Related(rows: seq<Product>, product: Product): (r: seq<Product>)
    ensures |r| <= 4
    ensures forall p :: p in r ==> p in rows && p.categoryId == product.categoryId && p.id != product.id && p.isActive
    ensures |r| <= |Filter(rows, RelatedTo(product))|
    ensures r == Filter(rows, RelatedTo(product))[..|r|]
    ensures |r| == 4 || r == Filter(rows, RelatedTo(product))
  {
    Take(Filter(rows, RelatedTo(product)), 4)
  }

  datatype ProductPage = ProductPage(product: Product, related: seq<Product>)

  /** `show`: 404 unless an active product has the slug. */
  function Show(rows: seq<Product>, slug: string): (r: Result<ProductPage>)
    ensures r.Failure? <==> forall p :: p in rows ==> !(p.slug == slug && p.isActive)
    ensures r.Failure? ==> r.error == NotFound
    ensures r.Success? ==> r.value.product in rows && r.value.product.slug == slug && r.value.product.isActive
    ensures r.Success? ==> r.value.product !in r.value.related && |r.value.related| <= 4
    ensures r.Success? ==> r.value.related == Related(rows, r.value.product)
  {
    match FindBySlug(rows, slug)
    case None => Failure(NotFound)
    case Some(i) => Success(ProductPage(rows[i], Related(rows, rows[i])))
  }

  /** With at least four candidates the page shows four; with fewer it shows
      them all, in table order. */
  lemma RelatedFillsUp(rows: seq<Product>, product: Product)
    ensures |Filter(rows, RelatedTo(product))| >= 4 ==> |Related(rows, product)| == 4
    ensures |Filter(rows, RelatedTo(product))| < 4 ==> Related(rows, product) == Filter(rows, RelatedTo(product))
  {
  }

  /** Slugs of active products being unique, `show` finds exactly that product. */
  lemma ShowFindsTheProduct(rows: seq<Product>, k: nat)
    requires k < |rows| && rows[k].isActive
    requires forall i :: 0 <= i < |rows| && i != k ==> !(rows[i].slug == rows[k].slug && rows[i].isActive)
    ensures Show(rows, rows[k].slug).Success?
    ensures Show(rows, rows[k].slug).value.product == rows[k]
  {
    var r := FindBySlug(rows, rows[k].slug);
    assert r.Some?;
    assert r.value == k;
  }
}
