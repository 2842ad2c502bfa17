/** What the search promises: the rows of a page, the variants attached to
    each hit, cursor pagination, the count, and the price re-arrangement. */
module SearchProperties {
  import opened Util
  import opened Sorting
  import opened Store
  import opened Search

  // ---------------------------------------------------------------------
  // The filter
  // ---------------------------------------------------------------------

  /** Without a query the text clauses drop out: search and count both
      keep exactly the products with a variant priced within the band. */
  lemma {:induction false} EmptyQueryFiltersByPrice(r: ProductRecord, lo: int, hi: int)
    ensures SearchMatch(r, "", lo, hi) <==> PriceClause(r, lo, hi)
    ensures CountMatch(r, "", lo, hi) <==> PriceClause(r, lo, hi)
  {
    assert NameClause(r, "");
  }

  /** Every product the search keeps is counted. */
  lemma {:induction false} SearchImpliesCount(r: ProductRecord, q: string, lo: int, hi: int)
    requires SearchMatch(r, q, lo, hi)
    ensures CountMatch(r, q, lo, hi)
  {
    if q != "" && SubClause(r, q, false) {
      assert SubClause(r, q, true);
    }
  }

  /** Subcategory names are stored lower-cased. A query with a capital
      letter therefore never selects a product by its subcategory in the
      search, while the count still selects it when the names agree
      ignoring case. */
  lemma {:induction false} CapitalisedQueryMissesSubcategory(r: ProductRecord, name: string, q: string, k: nat)
    requires r.subName == Some(Lower(name))
    requires k < |q| && IsUpperLetter(q[k])
    ensures !SubClause(r, q, false)
    ensures EqualsIgnoreCase(name, q) ==> SubClause(r, q, true)
  {
    LowerNormalises(name);
    if k < |Lower(name)| {
      assert !IsUpperLetter(Lower(name)[k]);
    }
    if EqualsIgnoreCase(name, q) {
      assert Lower(Lower(name)) == Lower(q);
    }
  }

  /** Brand and category names are stored lower-cased, and the clauses that
      compare them ignore case: a query selects them however it is typed. */
  lemma {:induction false} StoredNameMatchesAnyCase(r: ProductRecord, name: string, q: string)
    requires r.brandName == Some(Lower(name))
    requires q != ""
    ensures BrandClause(r, q) <==> EqualsIgnoreCase(name, q)
  {
    LowerNormalises(name);
  }

  // ---------------------------------------------------------------------
  // Query order
  // ---------------------------------------------------------------------

  lemma {:induction false} OrderedPermutes(products: seq<Product>, direction: string)
    ensures multiset(Ordered(products, direction)) == multiset(products)
  {
    if direction != "" {
      SortByPermutes(products, ViewsKey(direction));
    }
  }

  /** The query order holds every product once and follows the views
      column in the requested direction. */
  lemma {:induction false} OrderedByViews(products: seq<Product>, direction: string)
    requires direction == "asc" || direction == "desc"
    ensures multiset(Ordered(products, direction)) == multiset(products)
    ensures var o := Ordered(products, direction);
      forall i, j :: 0 <= i < j < |o| ==>
        if direction == "desc" then o[i].views >= o[j].views else o[i].views <= o[j].views
  {
    OrderedPermutes(products, direction);
    SortBySorted(products, ViewsKey(direction));
  }

  lemma {:induction false} OrderedInjective(products: seq<Product>, direction: string)
    requires InjectiveOn(products, ProductKey)
    ensures InjectiveOn(Ordered(products, direction), ProductKey)
  {
    if direction != "" {
      SortByInjective(products, ViewsKey(direction), ProductKey);
    }
  }

  // ---------------------------------------------------------------------
  // The page
  // ---------------------------------------------------------------------

  /** Every product of a page is a stored product that matches the filter. */
  lemma {:induction false} PageMatches(c: Catalog, params: SearchParams, page: seq<Product>)
    requires Page(c, params) == Ok(page)
    ensures forall i :: 0 <= i < |page| ==>
      page[i] in c.products &&
      SearchMatch(Record(c, page[i]), params.searchQuery, params.greaterthan, params.lessthan)
  {
    var ordered := Ordered(c.products, params.sortbyViews);
    var keep := Matches(c, params.searchQuery, params.greaterthan, params.lessthan);
    OrderedPermutes(c.products, params.sortbyViews);
    forall i | 0 <= i < |page|
      ensures page[i] in c.products
      ensures SearchMatch(Record(c, page[i]), params.searchQuery, params.greaterthan, params.lessthan)
    {
      var x := page[i];
      if params.cursor != "" {
        var pos := FindIndex(ordered, HasProductId(params.cursor)).value;
        var f := Filter(ordered[pos..], keep);
        FilterMembers(ordered[pos..], keep);
        assert x == Skip(f, 1)[i] == f[i + 1];
        assert x in ordered[pos..] && keep(x);
      } else {
        var f := Filter(ordered, keep);
        FilterMembers(ordered, keep);
        assert x == f[i];
        assert x in ordered && keep(x);
      }
      assert x in multiset(ordered);
    }
  }

  /** Filtering the rows from the cursor onward and skipping one yields
      rows of the filtered tail after the cursor; when the cursor itself
      matches, exactly that filtered tail. */
  lemma {:induction false} CursorSkip(s: seq<Product>, keep: Product -> bool)
    requires |s| > 0
    ensures forall i :: 0 <= i < |Skip(Filter(s, keep), 1)| ==> Skip(Filter(s, keep), 1)[i] in Filter(s[1..], keep)
    ensures keep(s[0]) ==> Skip(Filter(s, keep), 1) == Filter(s[1..], keep)
  {
    var f := Filter(s, keep);
    var rest := Filter(s[1..], keep);
    var skipped := Skip(f, 1);
    if keep(s[0]) {
      assert f == [s[0]] + rest;
      assert skipped == rest;
    } else {
      assert f == rest;
      forall i | 0 <= i < |skipped|
        ensures skipped[i] in rest
      {
        assert skipped[i] == rest[i + 1];
      }
    }
  }

  /** With a cursor, the page holds products strictly after the cursor in
      query order, never the cursor itself; when the cursor matches the
      filter, the page is the first `take` matches after it. */
  lemma {:induction false} CursorPage(c: Catalog, params: SearchParams, page: seq<Product>, pos: nat)
    requires CatalogValid(c)
    requires params.cursor != ""
    requires Page(c, params) == Ok(page)
    requires FindIndex(Ordered(c.products, params.sortbyViews), HasProductId(params.cursor)) == Some(pos)
    ensures var ordered := Ordered(c.products, params.sortbyViews);
      forall i :: 0 <= i < |page| ==> page[i].id != params.cursor && page[i] in ordered[pos + 1..]
    ensures var ordered := Ordered(c.products, params.sortbyViews);
      var keep := Matches(c, params.searchQuery, params.greaterthan, params.lessthan);
      keep(ordered[pos]) ==> page == Take(Filter(ordered[pos + 1..], keep), params.take)
  {
    var ordered := Ordered(c.products, params.sortbyViews);
    var keep := Matches(c, params.searchQuery, params.greaterthan, params.lessthan);
    OrderedInjective(c.products, params.sortbyViews);
    var tail := ordered[pos..];
    assert tail[1..] == ordered[pos + 1..];
    CursorSkip(tail, keep);
    var skipped := Skip(Filter(tail, keep), 1);
    FilterMembers(ordered[pos + 1..], keep);
    assert page == Take(skipped, params.take);
    forall i | 0 <= i < |page|
      ensures page[i].id != params.cursor && page[i] in ordered[pos + 1..]
    {
      assert page[i] == skipped[i];
      assert skipped[i] in Filter(ordered[pos + 1..], keep);
      assert page[i] in ordered[pos + 1..];
      var j :| pos + 1 <= j < |ordered| && ordered[j] == page[i];
      assert ProductKey(ordered[pos]) != ProductKey(ordered[j]);
    }
  }

  /** In a sequence of distinct ids, the first row with a row's id is that row. */
  lemma {:induction false} FindOwnId(ordered: seq<Product>, m: nat)
    requires InjectiveOn(ordered, ProductKey)
    requires m < |ordered|
    ensures FindIndex(ordered, HasProductId(ordered[m].id)) == Some(m)
  {
    var r := FindIndex(ordered, HasProductId(ordered[m].id));
    assert r.Some? && r.value <= m;
    assert r.value < m ==> ProductKey(ordered[r.value]) != ProductKey(ordered[m]);
  }

  /** Rows at or before position m and rows after it differ. */
  lemma {:induction false} SplitDisjoint(ordered: seq<Product>, m: nat, xs: seq<Product>, ys: seq<Product>)
    requires InjectiveOn(ordered, ProductKey)
    requires m < |ordered|
    requires forall i :: 0 <= i < |xs| ==> xs[i] in ordered[..m + 1]
    requires forall j :: 0 <= j < |ys| ==> ys[j] in ordered[m + 1..]
    ensures forall i, j :: 0 <= i < |xs| && 0 <= j < |ys| ==> xs[i] != ys[j]
  {
    forall i, j | 0 <= i < |xs| && 0 <= j < |ys|
      ensures xs[i] != ys[j]
    {
      var before := ordered[..m + 1];
      var after := ordered[m + 1..];
      assert xs[i] in before;
      assert ys[j] in after;
      var a :| 0 <= a < |before| && before[a] == xs[i];
      var b :| 0 <= b < |after| && after[b] == ys[j];
      assert ordered[a] == xs[i] && ordered[m + 1 + b] == ys[j];
      assert ProductKey(ordered[a]) != ProductKey(ordered[m + 1 + b]);
    }
  }

  /** A page without a cursor is a prefix of the matches in query order,
      and its rows sit at or before the position of its last row. */
  lemma {:induction false} FirstPageEnds(c: Catalog, params: SearchParams, page: seq<Product>) returns (m: nat)
    requires params.cursor == "" && Page(c, params) == Ok(page) && |page| > 0
    ensures var f := Filter(Ordered(c.products, params.sortbyViews), Matches(c, params.searchQuery, params.greaterthan, params.lessthan));
      |page| <= |f| && page == f[..|page|]
    ensures var ordered := Ordered(c.products, params.sortbyViews);
      m < |ordered| && ordered[m] == page[|page| - 1] &&
      forall i :: 0 <= i < |page| ==> page[i] in ordered[..m + 1]
  {
    var ordered := Ordered(c.products, params.sortbyViews);
    var keep := Matches(c, params.searchQuery, params.greaterthan, params.lessthan);
    var f := Filter(ordered, keep);
    var k := |page| - 1;
    assert page == f[..k + 1];
    m := FilterPosition(ordered, keep, k);
    assert page == Filter(ordered[..m + 1], keep);
    FilterMembers(ordered[..m + 1], keep);
  }

  /** Paging forward: the page fetched with the last product of a first
      page as cursor shares no product with the first page. */
  lemma {:induction false} NextPageDisjoint(c: Catalog, first: SearchParams, page1: seq<Product>, next: SearchParams, page2: seq<Product>)
    requires CatalogValid(c)
    requires first.cursor == "" && Page(c, first) == Ok(page1) && |page1| > 0
    requires next == first.(cursor := page1[|page1| - 1].id)
    requires Page(c, next) == Ok(page2)
    ensures forall i, j :: 0 <= i < |page1| && 0 <= j < |page2| ==> page1[i] != page2[j]
  {
    var ordered := Ordered(c.products, first.sortbyViews);
    var keep := Matches(c, first.searchQuery, first.greaterthan, first.lessthan);
    OrderedInjective(c.products, first.sortbyViews);
    var m := FirstPageEnds(c, first, page1);
    FindOwnId(ordered, m);
    PageMatches(c, first, page1);
    assert page1[|page1| - 1].id != "";
    CursorPage(c, next, page2, m);
    SplitDisjoint(ordered, m, page1, page2);
  }

  /** The count is never less than the number of products on a page. */
  lemma {:induction false} CountBoundsPage(c: Catalog, params: SearchParams, page: seq<Product>)
    requires Page(c, params) == Ok(page)
    ensures |page| <= SearchCount(c, params.searchQuery, params.greaterthan, params.lessthan)
  {
    var q, lo, hi := params.searchQuery, params.greaterthan, params.lessthan;
    var ordered := Ordered(c.products, params.sortbyViews);
    var keep := Matches(c, q, lo, hi);
    if params.cursor != "" {
      match FindIndex(ordered, HasProductId(params.cursor))
      case None =>
      case Some(pos) =>
        assert ordered == ordered[..pos] + ordered[pos..];
        FilterAppend(ordered[..pos], ordered[pos..], keep);
    }
    assert |page| <= |Filter(ordered, keep)|;
    OrderedPermutes(c.products, params.sortbyViews);
    FilterCountsMultiset(ordered, c.products, keep);
    forall x: Product | keep(x)
      ensures Counts(c, q, lo, hi)(x)
    {
      SearchImpliesCount(Record(c, x), q, lo, hi);
    }
    FilterStronger(c.products, keep, Counts(c, q, lo, hi));
  }

  /** Without a query, a cursor or a limit, the search returns exactly as
      many products as the count reports. */
  lemma {:induction false} UnfilteredCountIsPageSize(c: Catalog, params: SearchParams, page: seq<Product>)
    requires params.searchQuery == "" && params.cursor == "" && params.take == 0
    requires Page(c, params) == Ok(page)
    ensures |page| == SearchCount(c, "", params.greaterthan, params.lessthan)
  {
    var lo, hi := params.greaterthan, params.lessthan;
    var ordered := Ordered(c.products, params.sortbyViews);
    var keep := Matches(c, "", lo, hi);
    OrderedPermutes(c.products, params.sortbyViews);
    FilterCountsMultiset(ordered, c.products, keep);
    forall x: Product
      ensures keep(x) == Counts(c, "", lo, hi)(x)
    {
      EmptyQueryFiltersByPrice(Record(c, x), lo, hi);
    }
    FilterStronger(c.products, keep, Counts(c, "", lo, hi));
    FilterStronger(c.products, Counts(c, "", lo, hi), keep);
  }

  // ---------------------------------------------------------------------
  // The hits
  // ---------------------------------------------------------------------

  /** The variants attached to a hit are the product's in-band variants,
      each once, in ascending price. */
  lemma {:induction false} BandVariantsExact(c: Catalog, p: Product, lo: int, hi: int)
    ensures var vs := BandVariants(c, p, lo, hi);
      multiset(vs) == multiset(Filter(c.variants, VariantInBand(p.id, lo, hi))) &&
      (forall i, j :: 0 <= i < j < |vs| ==> vs[i].price <= vs[j].price)
  {
    var f := Filter(c.variants, VariantInBand(p.id, lo, hi));
    SortByPermutes(f, PriceKey);
    SortBySorted(f, PriceKey);
  }

  /** Every attached variant is a stored variant of the product priced
      within the band. */
  lemma {:induction false} BandVariantsSound(c: Catalog, p: Product, lo: int, hi: int)
    ensures var vs := BandVariants(c, p, lo, hi);
      forall i :: 0 <= i < |vs| ==> vs[i] in c.variants && vs[i].productId == p.id && InBand(vs[i].price, lo, hi)
  {
    var f := Filter(c.variants, VariantInBand(p.id, lo, hi));
    var vs := BandVariants(c, p, lo, hi);
    SortByPermutes(f, PriceKey);
    FilterMembers(c.variants, VariantInBand(p.id, lo, hi));
    forall i | 0 <= i < |vs|
      ensures vs[i] in c.variants && vs[i].productId == p.id && InBand(vs[i].price, lo, hi)
    {
      assert vs[i] in multiset(f);
      assert vs[i] in f;
    }
  }

  /** Every stored variant of the product priced within the band is
      attached. */
  lemma {:induction false} BandVariantsComplete(c: Catalog, p: Product, lo: int, hi: int)
    ensures var vs := BandVariants(c, p, lo, hi);
      forall j :: 0 <= j < |c.variants| && c.variants[j].productId == p.id && InBand(c.variants[j].price, lo, hi) ==>
        c.variants[j] in vs
  {
    var f := Filter(c.variants, VariantInBand(p.id, lo, hi));
    var vs := BandVariants(c, p, lo, hi);
    SortByPermutes(f, PriceKey);
    FilterMembers(c.variants, VariantInBand(p.id, lo, hi));
    forall j | 0 <= j < |c.variants| && c.variants[j].productId == p.id && InBand(c.variants[j].price, lo, hi)
      ensures c.variants[j] in vs
    {
      assert c.variants[j] in f;
      assert c.variants[j] in multiset(vs);
    }
  }

  /** A product matching the price clause has a variant within the band. */
  lemma {:induction false} PricedHit(c: Catalog, p: Product, lo: int, hi: int)
    requires PriceClause(Record(c, p), lo, hi)
    ensures |BandVariants(c, p, lo, hi)| > 0
  {
    var own := Filter(c.variants, VariantOf(p.id));
    FilterMembers(c.variants, VariantOf(p.id));
    var k :| 0 <= k < |Prices(own)| && InBand(Prices(own)[k], lo, hi);
    var v := own[k];
    assert v in c.variants && v.productId == p.id;
    var j :| 0 <= j < |c.variants| && c.variants[j] == v;
    FilterMembers(c.variants, VariantInBand(p.id, lo, hi));
    assert v in Filter(c.variants, VariantInBand(p.id, lo, hi));
  }

  /** Every fetched hit is a stored, matching product carrying its in-band
      variants, and it has at least one. */
  lemma {:induction false} FetchedHits(c: Catalog, params: SearchParams, hits: seq<Hit>)
    requires Fetch(c, params) == Ok(hits)
    ensures Priced(hits)
    ensures forall i :: 0 <= i < |hits| ==>
      hits[i].product in c.products &&
      SearchMatch(Record(c, hits[i].product), params.searchQuery, params.greaterthan, params.lessthan) &&
      hits[i].variants == BandVariants(c, hits[i].product, params.greaterthan, params.lessthan) &&
      hits[i].averagePrice.None?
  {
    var page := Page(c, params).value;
    PageMatches(c, params, page);
    forall i | 0 <= i < |hits|
      ensures |hits[i].variants| > 0
    {
      assert hits[i] == HitOf(c, params.greaterthan, params.lessthan, page[i]);
      PricedHit(c, page[i], params.greaterthan, params.lessthan);
    }
  }

  /** The average price of a hit lies within the band. */
  lemma {:induction false} AverageInBand(c: Catalog, p: Product, lo: int, hi: int)
    requires |BandVariants(c, p, lo, hi)| > 0
    ensures lo <= AveragePrice(BandVariants(c, p, lo, hi)) <= hi
  {
    var vs := BandVariants(c, p, lo, hi);
    BandVariantsSound(c, p, lo, hi);
    SumBounds(Prices(vs), lo, hi);
    RoundedMeanWithin(Sum(Prices(vs)), |vs|, lo, hi);
  }

  // ---------------------------------------------------------------------
  // Re-arrangement
  // ---------------------------------------------------------------------

  /** With `sortbyPrice`, the returned page is the fetched page with
      averages attached, reordered, each hit kept once. */
  lemma {:induction false} ArrangePermutes(page: seq<Hit>, params: SearchParams)
    requires Priced(page)
    requires params.sortbyPrice != ""
    ensures multiset(Arrange(page, params)) == multiset(Averaged(page))
    ensures forall i :: 0 <= i < |Arrange(page, params)| ==> Arrange(page, params)[i].averagePrice.Some?
  {
    var a := Averaged(page);
    var r := Arrange(page, params);
    SortByPermutes(a, ArrangeKey(params.sortbyViews != ""));
    forall i | 0 <= i < |r|
      ensures r[i].averagePrice.Some?
    {
      assert r[i] in multiset(a);
      var j :| 0 <= j < |a| && a[j] == r[i];
    }
  }

  /** With `sortbyViews` (whatever its direction) the page is in views
      descending order, ties by average price ascending. */
  lemma {:induction false} ArrangeByViews(page: seq<Hit>, params: SearchParams)
    requires Priced(page)
    requires params.sortbyPrice != "" && params.sortbyViews != ""
    ensures var r := Arrange(page, params);
      forall i, j :: 0 <= i < j < |r| ==>
        r[i].product.views >= r[j].product.views &&
        (r[i].product.views == r[j].product.views ==> Average(r[i]) <= Average(r[j]))
  {
    SortBySorted(Averaged(page), ArrangeKey(true));
  }

  /** Without `sortbyViews` the page is in average price ascending order. */
  lemma {:induction false} ArrangeByAverage(page: seq<Hit>, params: SearchParams)
    requires Priced(page)
    requires params.sortbyPrice != "" && params.sortbyViews == ""
    ensures var r := Arrange(page, params);
      forall i, j :: 0 <= i < j < |r| ==> Average(r[i]) <= Average(r[j])
  {
    SortBySorted(Averaged(page), ArrangeKey(false));
  }

  /** Hits with equal sort keys keep the order the query returned them in. */
  lemma {:induction false} ArrangeStable(page: seq<Hit>, params: SearchParams, k: Key)
    requires Priced(page)
    requires params.sortbyPrice != ""
    ensures var key := ArrangeKey(params.sortbyViews != "");
      WithKey(Arrange(page, params), key, k) == WithKey(Averaged(page), key, k)
  {
    SortByStable(Averaged(page), ArrangeKey(params.sortbyViews != ""), k);
  }
}
