/** The product search of the catalogue: the filter the storage query
    applies, the page it returns (ordering, cursor and `take`), the count
    query, and the re-arrangement by average price. Everything here is a
    pure function of a catalogue snapshot; `ProductService.SearchProduct`
    computes the same result step by step. */
module Search {
  import opened Util
  import opened Sorting
  import opened Store

  // ---------------------------------------------------------------------
  // What the filter reads of a product
  // ---------------------------------------------------------------------

  /** One product joined with the names of its tags, categories and brand
      and the prices of all its variants. */
  datatype ProductRecord = ProductRecord(
    name: string,
    tagNames: seq<string>,
    parentName: Option<string>,
    subName: Option<string>,
    brandName: Option<string>,
    prices: seq<int>)

  function BrandName(brands: seq<Brand>, id: Option<Id>): Option<string> {
    if id.None? then None
    else match FindIndex(brands, HasBrandId(id.value))
      case None => None
      case Some(i) => Some(brands[i].name)
  }

  function ParentName(parents: seq<ParentCategory>, id: Option<Id>): Option<string> {
    if id.None? then None
    else match FindIndex(parents, HasParentId(id.value))
      case None => None
      case Some(i) => Some(parents[i].name)
  }

  function SubName(subs: seq<SubCategory>, id: Option<Id>): Option<string> {
    if id.None? then None
    else match FindIndex(subs, HasSubId(id.value))
      case None => None
      case Some(i) => Some(subs[i].name)
  }

  function TagNames(tags: seq<Tag>): seq<string> {
    seq(|tags|, i requires 0 <= i < |tags| => tags[i].name)
  }

  function Prices(vs: seq<Variant>): seq<int> {
    seq(|vs|, i requires 0 <= i < |vs| => vs[i].price)
  }

  function Record(c: Catalog, p: Product): ProductRecord {
    ProductRecord(
      p.name,
      TagNames(Filter(c.tags, TagOf(p.id))),
      ParentName(c.parents, p.parentId),
      SubName(c.subs, p.subId),
      BrandName(c.brands, p.brandId),
      Prices(Filter(c.variants, VariantOf(p.id))))
  }

  // ---------------------------------------------------------------------
  // The filter
  // ---------------------------------------------------------------------

  // An empty query reaches the storage layer as `undefined`, which drops
  // the text condition of a clause but keeps its relation condition: the
  // tag clause still needs some tag, the category and brand clauses still
  // need the link, and the name clause holds for every product.

  predicate TagClause(r: ProductRecord, q: string) {
    exists i :: 0 <= i < |r.tagNames| && (q == "" || ContainsIgnoreCase(r.tagNames[i], q))
  }

  predicate ParentClause(r: ProductRecord, q: string) {
    r.parentName.Some? && (q == "" || EqualsIgnoreCase(r.parentName.value, q))
  }

  /** The search compares subcategory names exactly; the count ignores case. */
  predicate SubClause(r: ProductRecord, q: string, ignoreCase: bool) {
    r.subName.Some? &&
    (q == "" || (if ignoreCase then EqualsIgnoreCase(r.subName.value, q) else r.subName.value == q))
  }

  predicate NameClause(r: ProductRecord, q: string) {
    q == "" || ContainsIgnoreCase(r.name, q)
  }

  predicate BrandClause(r: ProductRecord, q: string) {
    r.brandName.Some? && (q == "" || EqualsIgnoreCase(r.brandName.value, q))
  }

  predicate TextClause(r: ProductRecord, q: string, subIgnoreCase: bool) {
    TagClause(r, q) || ParentClause(r, q) || SubClause(r, q, subIgnoreCase) ||
    NameClause(r, q) || BrandClause(r, q)
  }

  predicate InBand(price: int, lo: int, hi: int) {
    lo <= price <= hi
  }

  /** Some variant is priced within [lo, hi]. */
  predicate PriceClause(r: ProductRecord, lo: int, hi: int) {
    exists i :: 0 <= i < |r.prices| && InBand(r.prices[i], lo, hi)
  }

  /** The filter of the search query. */
  predicate SearchMatch(r: ProductRecord, q: string, lo: int, hi: int) {
    TextClause(r, q, false) && PriceClause(r, lo, hi)
  }

  /** The filter of the count query: with a query, the text clauses with
      subcategory names compared ignoring case; without one, prices only. */
  predicate CountMatch(r: ProductRecord, q: string, lo: int, hi: int) {
    if q != "" then TextClause(r, q, true) && PriceClause(r, lo, hi)
    else PriceClause(r, lo, hi)
  }

  function Matches(c: Catalog, q: string, lo: int, hi: int): Product -> bool {
    (p: Product) => SearchMatch(Record(c, p), q, lo, hi)
  }

  function Counts(c: Catalog, q: string, lo: int, hi: int): Product -> bool {
    (p: Product) => CountMatch(Record(c, p), q, lo, hi)
  }

  /** The number the count query returns. */
  function SearchCount(c: Catalog, q: string, lo: int, hi: int): (r: nat)
    ensures r <= |c.products|
  {
    |Filter(c.products, Counts(c, q, lo, hi))|
  }

  // ---------------------------------------------------------------------
  // The page
  // ---------------------------------------------------------------------

  /** The query parameters; an empty string stands for an absent one. */
  datatype SearchParams = SearchParams(
    greaterthan: int,
    lessthan: int,
    take: nat,
    searchQuery: string,
    sortbyViews: string,
    sortbyPrice: string,
    cursor: string)

  /** Any other ordering direction is rejected by the storage layer. */
  predicate ValidDirection(d: string) {
    d == "" || d == "asc" || d == "desc"
  }

  function ViewsKey(direction: string): Product -> Key {
    if direction == "desc" then (p: Product) => (0 - p.views as int, 0) else (p: Product) => (p.views, 0)
  }

  /** The products in query order: storage order, or stably ordered by views. */
  function Ordered(products: seq<Product>, direction: string): seq<Product> {
    if direction == "" then products else SortBy(products, ViewsKey(direction))
  }

  /** The products of one page. With a cursor the page is taken from the
      matching products at and after the cursor's position, skipping one;
      without one, `take == 0` means no limit. */
  function Page(c: Catalog, params: SearchParams): (r: Result<seq<Product>>)
    ensures r.Err? <==> !ValidDirection(params.sortbyViews) || (params.cursor != "" && !IsObjectId(params.cursor))
    ensures r.Ok? && params.take > 0 ==> |r.value| <= params.take
    ensures r.Ok? ==> |r.value| <= |c.products|
  {
    if !ValidDirection(params.sortbyViews) || (params.cursor != "" && !IsObjectId(params.cursor)) then
      Err(BadRequest)
    else
      var ordered := Ordered(c.products, params.sortbyViews);
      var keep := Matches(c, params.searchQuery, params.greaterthan, params.lessthan);
      if params.cursor != "" then
        match FindIndex(ordered, HasProductId(params.cursor))
        case None => Ok([])
        case Some(pos) => Ok(Take(Skip(Filter(ordered[pos..], keep), 1), params.take))
      else if params.take == 0 then
        Ok(Filter(ordered, keep))
      else
        Ok(Take(Filter(ordered, keep), params.take))
  }

  /** A product of the page with the variants priced within the band, in
      ascending price, and (after re-arrangement) their average price. */
  datatype Hit = Hit(product: Product, variants: seq<Variant>, averagePrice: Option<int>)

  function PriceKey(v: Variant): Key { (v.price, 0) }

  function VariantInBand(productId: Id, lo: int, hi: int): Variant -> bool {
    (v: Variant) => v.productId == productId && InBand(v.price, lo, hi)
  }

  function BandVariants(c: Catalog, p: Product, lo: int, hi: int): seq<Variant> {
    SortBy(Filter(c.variants, VariantInBand(p.id, lo, hi)), PriceKey)
  }

  function HitOf(c: Catalog, lo: int, hi: int, p: Product): Hit {
    Hit(p, BandVariants(c, p, lo, hi), None)
  }

  function Hits(c: Catalog, lo: int, hi: int, page: seq<Product>): (r: seq<Hit>)
    ensures |r| == |page|
  {
    seq(|page|, i requires 0 <= i < |page| => HitOf(c, lo, hi, page[i]))
  }

  /** What the storage query returns. */
  function Fetch(c: Catalog, params: SearchParams): (r: Result<seq<Hit>>)
    ensures r.Ok? <==> Page(c, params).Ok?
    ensures r.Ok? ==> |r.value| == |Page(c, params).value|
    ensures r.Ok? ==> forall i :: 0 <= i < |r.value| ==>
      r.value[i].product == Page(c, params).value[i] && r.value[i].averagePrice.None?
  {
    match Page(c, params)
    case Err(e) => Err(e)
    case Ok(page) => Ok(Hits(c, params.greaterthan, params.lessthan, page))
  }

  // ---------------------------------------------------------------------
  // Re-arrangement by average price
  // ---------------------------------------------------------------------

  /** Every hit has at least one variant (the price clause guarantees it). */
  predicate Priced(page: seq<Hit>) {
    forall i :: 0 <= i < |page| ==> |page[i].variants| > 0
  }

  /** `Math.round` of the mean price. */
  function AveragePrice(vs: seq<Variant>): int
    requires |vs| > 0
  {
    RoundedMean(Sum(Prices(vs)), |vs|)
  }

  function WithAverage(h: Hit): Hit
    requires |h.variants| > 0
  {
    h.(averagePrice := Some(AveragePrice(h.variants)))
  }

  function Averaged(page: seq<Hit>): (r: seq<Hit>)
    requires Priced(page)
    ensures |r| == |page|
  {
    seq(|page|, i requires 0 <= i < |page| && Priced(page) => WithAverage(page[i]))
  }

  function Average(h: Hit): int {
    if h.averagePrice.Some? then h.averagePrice.value else 0
  }

  /** Views descending then average ascending, or average ascending. */
  function ArrangeKey(byViews: bool): Hit -> Key {
    if byViews then (h: Hit) => (0 - h.product.views as int, Average(h)) else (h: Hit) => (Average(h), 0)
  }

  /** The page the search returns. */
  function Arrange(page: seq<Hit>, params: SearchParams): (r: seq<Hit>)
    requires Priced(page)
    ensures |r| == |page|
    ensures params.sortbyPrice == "" ==> r == page
  {
    if params.sortbyPrice == "" then page
    else SortBy(Averaged(page), ArrangeKey(params.sortbyViews != ""))
  }
}
