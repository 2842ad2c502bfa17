/** The product service: search, creating and updating products and their
    variants, reading a product (which counts a view), and replacing its
    tags. Each operation works on the shared `Store`; a failed storage
    call surfaces as `BadRequest` and leaves the tables as they were,
    except where noted. */
module ProductService {
  import opened Util
  import opened Sorting
  import opened Store
  import opened Search
  import opened SearchProperties

  // ---------------------------------------------------------------------
  // Request bodies
  // ---------------------------------------------------------------------

  datatype VariantInput = VariantInput(
    price: int,
    discount: Option<int>,
    size: Option<string>,
    color: Option<string>,
    quantity: int)

  datatype ProductInput = ProductInput(
    name: string,
    description: string,
    variants: seq<VariantInput>,
    images: seq<Image>,
    parentCategoryId: Option<Id>,
    subcategoryId: Option<Id>,
    brandId: Option<Id>,
    tags: seq<string>)

  /** Changes to one existing variant, named by its id; absent or falsy
      fields are left alone. */
  datatype VariantPatch = VariantPatch(
    id: Id,
    price: Option<int>,
    discount: Option<int>,
    size: Option<string>,
    color: Option<string>,
    quantity: Option<int>)

  datatype ProductPatch = ProductPatch(
    name: Option<string>,
    description: Option<string>,
    variants: Option<seq<VariantPatch>>,
    parentCategoryId: Option<Id>,
    subcategoryId: Option<Id>,
    brandId: Option<Id>)

  /** A product returned together with its variants. */
  datatype ProductWithVariants = ProductWithVariants(product: Product, variants: seq<Variant>)

  /** A product read with its links resolved, its variants and its tag names. */
  datatype ProductView = ProductView(
    product: Product,
    brand: Option<Brand>,
    parent: Option<ParentCategory>,
    sub: Option<SubCategory>,
    variants: seq<Variant>,
    tagNames: seq<string>)

  // ---------------------------------------------------------------------
  // Links
  // ---------------------------------------------------------------------

  function IfTruthy(id: Option<Id>): Option<Id> {
    if Truthy(id) then id else None
  }

  /** Connecting a relation to a row that does not exist fails. */
  predicate LinksResolve(c: Catalog, brandId: Option<Id>, parentId: Option<Id>, subId: Option<Id>) {
    (Truthy(brandId) ==> FindIndex(c.brands, HasBrandId(brandId.value)).Some?) &&
    (Truthy(parentId) ==> FindIndex(c.parents, HasParentId(parentId.value)).Some?) &&
    (Truthy(subId) ==> FindIndex(c.subs, HasSubId(subId.value)).Some?)
  }

  /** The parent category a new product is filed under: with a
      subcategory, that subcategory's parent (or none when it does not
      exist), whatever parent the request names. */
  function ResolvedParent(subs: seq<SubCategory>, input: ProductInput): (r: Option<Id>)
    ensures Truthy(input.subcategoryId) && r.Some? ==>
      exists i :: 0 <= i < |subs| && subs[i].id == input.subcategoryId.value && subs[i].parentId == r.value
    ensures Truthy(input.subcategoryId) && r.None? ==>
      forall i :: 0 <= i < |subs| ==> subs[i].id != input.subcategoryId.value
    ensures !Truthy(input.subcategoryId) ==> r == input.parentCategoryId
  {
    if Truthy(input.subcategoryId) then
      match FindIndex(subs, HasSubId(input.subcategoryId.value))
      case None => None
      case Some(i) => Some(subs[i].parentId)
    else input.parentCategoryId
  }

  // ---------------------------------------------------------------------
  // addProduct
  // ---------------------------------------------------------------------

  /** The row `addProduct` creates, or the error it reports. */
  function NewProduct(c: Catalog, input: ProductInput, id: Id): Result<Product> {
    var parentId := ResolvedParent(c.subs, input);
    if !LinksResolve(c, input.brandId, parentId, input.subcategoryId) then Err(BadRequest)
    else Ok(Product(id, input.name, input.description, 0, input.images,
                    IfTruthy(input.brandId), IfTruthy(parentId), IfTruthy(input.subcategoryId)))
  }

  /** The variant rows created with a product, stored as given. */
  function NewVariants(productId: Id, ids: seq<Id>, inputs: seq<VariantInput>): (r: seq<Variant>)
    requires |ids| == |inputs|
    ensures |r| == |inputs|
  {
    seq(|inputs|, i requires 0 <= i < |inputs| && |ids| == |inputs| =>
      Variant(ids[i], productId, inputs[i].price, inputs[i].discount, inputs[i].size, inputs[i].color, inputs[i].quantity))
  }

  function NewTags(productId: Id, names: seq<string>): (r: seq<Tag>)
    ensures |r| == |names|
  {
    seq(|names|, i requires 0 <= i < |names| => Tag(productId, names[i]))
  }

  function InputPrices(inputs: seq<VariantInput>): seq<int> {
    seq(|inputs|, i requires 0 <= i < |inputs| => inputs[i].price)
  }

  /** A created product starts unviewed, each of its links names an
      existing row, and a product filed under a subcategory is filed under
      that subcategory's parent. */
  lemma {:induction false} NewProductLinks(c: Catalog, input: ProductInput, id: Id, p: Product)
    requires NewProduct(c, input, id) == Ok(p)
    ensures p.id == id && p.views == 0
    ensures LinksResolve(c, p.brandId, p.parentId, p.subId)
    ensures p.subId.Some? ==>
      exists i :: 0 <= i < |c.subs| && c.subs[i].id == p.subId.value &&
        (p.parentId.Some? ==> c.subs[i].parentId == p.parentId.value)
  {
    var parentId := ResolvedParent(c.subs, input);
    if p.subId.Some? {
      var i := FindIndex(c.subs, HasSubId(p.subId.value)).value;
      assert c.subs[i].id == p.subId.value;
      assert parentId == Some(c.subs[i].parentId);
    }
  }

  /** The catalogue after adding a product. */
  function WithProduct(c: Catalog, p: Product, variantIds: seq<Id>, input: ProductInput): Catalog
    requires |variantIds| == |input.variants|
  {
    c.(products := c.products + [p],
       variants := c.variants + NewVariants(p.id, variantIds, input.variants),
       tags := c.tags + NewTags(p.id, input.tags))
  }

  /** The rows of a product in a table it was appended to are the
      appended rows. */
  lemma {:induction false} AppendedVariants(before: seq<Variant>, added: seq<Variant>, id: Id)
    requires forall i :: 0 <= i < |before| ==> before[i].productId != id
    requires forall i :: 0 <= i < |added| ==> added[i].productId == id
    ensures Filter(before + added, VariantOf(id)) == added
  {
    FilterAppend(before, added, VariantOf(id));
    FilterNone(before, VariantOf(id));
    FilterAll(added, VariantOf(id));
  }

  lemma {:induction false} AppendedTags(before: seq<Tag>, added: seq<Tag>, id: Id)
    requires forall i :: 0 <= i < |before| ==> before[i].productId != id
    requires forall i :: 0 <= i < |added| ==> added[i].productId == id
    ensures Filter(before + added, TagOf(id)) == added
  {
    FilterAppend(before, added, TagOf(id));
    FilterNone(before, TagOf(id));
    FilterAll(added, TagOf(id));
  }

  /** Once added, the search sees the product with exactly the name, the
      tags and the variant prices of the request. */
  lemma {:induction false} AddedProductRecord(c: Catalog, input: ProductInput, id: Id, variantIds: seq<Id>, p: Product)
    requires |variantIds| == |input.variants|
    requires NewProduct(c, input, id) == Ok(p)
    requires forall i :: 0 <= i < |c.variants| ==> c.variants[i].productId != id
    requires forall i :: 0 <= i < |c.tags| ==> c.tags[i].productId != id
    ensures Record(WithProduct(c, p, variantIds, input), p).tagNames == input.tags
    ensures Record(WithProduct(c, p, variantIds, input), p).prices == InputPrices(input.variants)
    ensures Record(WithProduct(c, p, variantIds, input), p).name == input.name
  {
    assert p.id == id && p.name == input.name;
    var after := WithProduct(c, p, variantIds, input);
    var nv := NewVariants(id, variantIds, input.variants);
    var nt := NewTags(id, input.tags);
    assert after.variants == c.variants + nv && after.tags == c.tags + nt;
    AppendedVariants(c.variants, nv, id);
    AppendedTags(c.tags, nt, id);
    assert Prices(nv) == InputPrices(input.variants);
    assert TagNames(nt) == input.tags;
  }

  method AddProduct(db: Store, input: ProductInput, id: Id, variantIds: seq<Id>) returns (r: Result<Product>)
    requires db.Valid()
    requires IsObjectId(id) && forall i :: 0 <= i < |db.products| ==> db.products[i].id != id
    requires |variantIds| == |input.variants|
    requires forall i, j :: 0 <= i < j < |variantIds| ==> variantIds[i] != variantIds[j]
    requires forall i, k :: 0 <= i < |variantIds| && 0 <= k < |db.variants| ==> db.variants[k].id != variantIds[i]
    modifies db`products, db`variants, db`tags
    ensures db.Valid()
    ensures r == NewProduct(old(db.Snapshot()), input, id)
    ensures r.Ok? ==> db.Snapshot() == WithProduct(old(db.Snapshot()), r.value, variantIds, input)
    ensures r.Err? ==> db.Snapshot() == old(db.Snapshot())
  {
    var parentId := input.parentCategoryId;
    if Truthy(input.subcategoryId) {
      var found := FindIndex(db.subs, HasSubId(input.subcategoryId.value));
      parentId := if found.Some? then Some(db.subs[found.value].parentId) else None;
    }
    if !LinksResolve(db.Snapshot(), input.brandId, parentId, input.subcategoryId) {
      return Err(BadRequest);
    }
    var p := Product(id, input.name, input.description, 0, input.images,
                     IfTruthy(input.brandId), IfTruthy(parentId), IfTruthy(input.subcategoryId));
    var added := NewVariants(id, variantIds, input.variants);
    assert forall i :: 0 <= i < |added| ==> VariantKey(added[i]) == variantIds[i];
    AppendInjective(db.variants, added, VariantKey);
    db.products := db.products + [p];
    db.variants := db.variants + NewVariants(id, variantIds, input.variants);
    db.tags := db.tags + NewTags(id, input.tags);
    r := Ok(p);
  }

  // ---------------------------------------------------------------------
  // updateProduct
  // ---------------------------------------------------------------------

  /** One variant after a patch: each truthy field replaces the stored
      one, sizes upper-cased and colours lower-cased. */
  function PatchVariant(v: Variant, p: VariantPatch): Variant {
    v.(price := if TruthyNumber(p.price) then p.price.value else v.price,
       discount := if TruthyNumber(p.discount) then p.discount else v.discount,
       size := if Truthy(p.size) then Some(Upper(p.size.value)) else v.size,
       color := if Truthy(p.color) then Some(Lower(p.color.value)) else v.color,
       quantity := if TruthyNumber(p.quantity) then p.quantity.value else v.quantity)
  }

  /** A patch keeps the variant's identity and owner, leaves the fields it
      does not set alone, stores sizes upper-case and colours lower-case,
      and applying it a second time changes nothing. */
  lemma {:induction false} PatchVariantFacts(v: Variant, p: VariantPatch)
    ensures var r := PatchVariant(v, p);
      r.id == v.id && r.productId == v.productId &&
      (!TruthyNumber(p.price) ==> r.price == v.price) &&
      (!TruthyNumber(p.discount) ==> r.discount == v.discount) &&
      (!Truthy(p.size) ==> r.size == v.size) &&
      (!Truthy(p.color) ==> r.color == v.color) &&
      (!TruthyNumber(p.quantity) ==> r.quantity == v.quantity)
    ensures Truthy(p.size) ==> NoLowerLetter(PatchVariant(v, p).size.value)
    ensures Truthy(p.color) ==> NoUpperLetter(PatchVariant(v, p).color.value)
    ensures PatchVariant(PatchVariant(v, p), p) == PatchVariant(v, p)
  {
    if Truthy(p.size) {
      UpperNormalises(p.size.value);
    }
    if Truthy(p.color) {
      LowerNormalises(p.color.value);
    }
  }

  /** The variant table after one update by id. */
  function ApplyPatch(vs: seq<Variant>, p: VariantPatch): (r: seq<Variant>)
    ensures |r| == |vs|
  {
    seq(|vs|, i requires 0 <= i < |vs| => if vs[i].id == p.id then PatchVariant(vs[i], p) else vs[i])
  }

  /** With unique variant ids, an update by id rewrites exactly the one
      row that carries the id. */
  lemma {:induction false} ApplyPatchOneRow(vs: seq<Variant>, p: VariantPatch)
    requires InjectiveOn(vs, VariantKey)
    requires FindIndex(vs, HasVariantId(p.id)).Some?
    ensures var k := FindIndex(vs, HasVariantId(p.id)).value;
      ApplyPatch(vs, p) == vs[k := PatchVariant(vs[k], p)]
  {
    var k := FindIndex(vs, HasVariantId(p.id)).value;
    forall i | 0 <= i < |vs| && i != k
      ensures vs[i].id != p.id
    {
      if i < k {
        assert VariantKey(vs[i]) != VariantKey(vs[k]);
      } else {
        assert VariantKey(vs[k]) != VariantKey(vs[i]);
      }
    }
  }

  /** The variant table after the updates in order. */
  function ApplyPatches(vs: seq<Variant>, ps: seq<VariantPatch>): (r: seq<Variant>)
    ensures |r| == |vs|
    decreases |ps|
  {
    if ps == [] then vs else ApplyPatch(ApplyPatches(vs, ps[..|ps| - 1]), ps[|ps| - 1])
  }

  /** Updates keep every variant's id and owner and leave the variants no
      patch names untouched. */
  lemma {:induction false} ApplyPatchesFrame(vs: seq<Variant>, ps: seq<VariantPatch>)
    ensures var r := ApplyPatches(vs, ps);
      forall i :: 0 <= i < |vs| ==>
        r[i].id == vs[i].id && r[i].productId == vs[i].productId &&
        ((forall k :: 0 <= k < |ps| ==> ps[k].id != vs[i].id) ==> r[i] == vs[i])
    decreases |ps|
  {
    if ps != [] {
      var init := ps[..|ps| - 1];
      ApplyPatchesFrame(vs, init);
      forall i | 0 <= i < |vs|
        ensures ApplyPatches(vs, ps)[i].id == vs[i].id
        ensures ApplyPatches(vs, ps)[i].productId == vs[i].productId
      {
        PatchVariantFacts(ApplyPatches(vs, init)[i], ps[|ps| - 1]);
      }
      forall i | 0 <= i < |vs| && (forall k :: 0 <= k < |ps| ==> ps[k].id != vs[i].id)
        ensures ApplyPatches(vs, ps)[i] == vs[i]
      {
        assert forall k :: 0 <= k < |init| ==> init[k] == ps[k];
      }
    }
  }

  /** Every patch names an existing variant. */
  predicate PatchesTarget(vs: seq<Variant>, ps: seq<VariantPatch>) {
    forall k :: 0 <= k < |ps| ==> FindIndex(vs, HasVariantId(ps[k].id)).Some?
  }

  /** The product row after an update: truthy scalar fields replace the
      stored ones, truthy links are reconnected. */
  function PatchProduct(p: Product, patch: ProductPatch): Product {
    p.(name := if Truthy(patch.name) then patch.name.value else p.name,
       description := if Truthy(patch.description) then patch.description.value else p.description,
       parentId := if Truthy(patch.parentCategoryId) then patch.parentCategoryId else p.parentId,
       subId := if Truthy(patch.subcategoryId) then patch.subcategoryId else p.subId,
       brandId := if Truthy(patch.brandId) then patch.brandId else p.brandId)
  }

  /** An update keeps the product's id, views and images, leaves what the
      patch does not set alone, and is idempotent. */
  lemma {:induction false} PatchProductFacts(p: Product, patch: ProductPatch)
    ensures var r := PatchProduct(p, patch);
      r.id == p.id && r.views == p.views && r.images == p.images &&
      (!Truthy(patch.name) ==> r.name == p.name) &&
      (!Truthy(patch.description) ==> r.description == p.description) &&
      (!Truthy(patch.parentCategoryId) ==> r.parentId == p.parentId) &&
      (!Truthy(patch.subcategoryId) ==> r.subId == p.subId) &&
      (!Truthy(patch.brandId) ==> r.brandId == p.brandId)
    ensures PatchProduct(PatchProduct(p, patch), patch) == PatchProduct(p, patch)
  {
  }

  /** Replacing a row by one with the same id keeps the catalogue valid. */
  lemma {:induction false} ReplaceKeepsValid(c: Catalog, idx: nat, p: Product)
    requires CatalogValid(c)
    requires idx < |c.products| && p.id == c.products[idx].id
    ensures CatalogValid(c.(products := c.products[idx := p]))
  {
    var ps := c.products[idx := p];
    assert forall i :: 0 <= i < |ps| ==> ProductKey(ps[i]) == ProductKey(c.products[i]);
  }

  /** Two variant tables that agree row by row on ids. */
  predicate SameIds(a: seq<Variant>, b: seq<Variant>) {
    |a| == |b| && forall j :: 0 <= j < |a| ==> a[j].id == b[j].id
  }

  lemma {:induction false} SameIdsFind(a: seq<Variant>, b: seq<Variant>, id: Id)
    requires SameIds(a, b)
    ensures FindIndex(a, HasVariantId(id)).None? <==> FindIndex(b, HasVariantId(id)).None?
  {
    assert forall j :: 0 <= j < |a| ==> (HasVariantId(id)(a[j]) <==> HasVariantId(id)(b[j]));
  }

  lemma {:induction false} SameIdsPatch(a: seq<Variant>, b: seq<Variant>, p: VariantPatch)
    requires SameIds(a, b)
    ensures SameIds(ApplyPatch(a, p), b)
  {
  }

  lemma {:induction false} ApplyPatchesStep(vs: seq<Variant>, ps: seq<VariantPatch>, i: nat)
    requires i < |ps|
    ensures ApplyPatches(vs, ps[..i + 1]) == ApplyPatch(ApplyPatches(vs, ps[..i]), ps[i])
  {
    assert ps[..i + 1][..i] == ps[..i];
  }

  lemma {:induction false} PatchesTargetStep(vs: seq<Variant>, ps: seq<VariantPatch>, i: nat)
    requires i < |ps|
    requires PatchesTarget(vs, ps[..i])
    requires FindIndex(vs, HasVariantId(ps[i].id)).Some?
    ensures PatchesTarget(vs, ps[..i + 1])
  {
    var qs := ps[..i + 1];
    forall k | 0 <= k < |qs|
      ensures FindIndex(vs, HasVariantId(qs[k].id)).Some?
    {
      if k < i {
        assert qs[k] == ps[..i][k];
      }
    }
  }

  /** The loop of `updateProduct` over the variant patches, on the
      transaction's view of the variant table: it stops at the first patch
      that names no variant. */
  method PatchVariants(vs: seq<Variant>, ps: seq<VariantPatch>) returns (r: Option<seq<Variant>>)
    ensures r.None? <==> !PatchesTarget(vs, ps)
    ensures r.Some? ==> r.value == ApplyPatches(vs, ps)
  {
    var current := vs;
    var i := 0;
    while i < |ps|
      invariant 0 <= i <= |ps|
      invariant current == ApplyPatches(vs, ps[..i])
      invariant SameIds(current, vs)
      invariant PatchesTarget(vs, ps[..i])
    {
      SameIdsFind(current, vs, ps[i].id);
      if FindIndex(current, HasVariantId(ps[i].id)).None? {
        assert FindIndex(vs, HasVariantId(ps[i].id)).None?;
        return None;
      }
      PatchesTargetStep(vs, ps, i);
      ApplyPatchesStep(vs, ps, i);
      SameIdsPatch(current, vs, ps[i]);
      current := ApplyPatch(current, ps[i]);
      i := i + 1;
    }
    assert ps[..i] == ps;
    r := Some(current);
  }

  /** `updateProduct`: inside one transaction, each variant patch in
      order, then the product row; any failure rolls everything back. A
      request without a variant list fails before the transaction does
      anything. */
  method UpdateProduct(db: Store, productId: Id, patch: ProductPatch) returns (r: Result<ProductWithVariants>)
    requires db.Valid()
    modifies db`products, db`variants
    ensures db.Valid()
    ensures patch.variants.None? ==> r == Err(Unhandled("TypeError"))
    ensures patch.variants.Some? && !PatchesTarget(old(db.variants), patch.variants.value) ==> r == Err(BadRequest)
    ensures patch.variants.Some? && FindIndex(old(db.products), HasProductId(productId)).None? ==> r == Err(BadRequest)
    ensures patch.variants.Some? && !LinksResolve(old(db.Snapshot()), patch.brandId, patch.parentCategoryId, patch.subcategoryId) ==> r == Err(BadRequest)
    ensures (patch.variants.Some? && PatchesTarget(old(db.variants), patch.variants.value) &&
             FindIndex(old(db.products), HasProductId(productId)).Some? &&
             LinksResolve(old(db.Snapshot()), patch.brandId, patch.parentCategoryId, patch.subcategoryId)) ==> r.Ok?
    ensures r.Err? ==> db.products == old(db.products) && db.variants == old(db.variants)
    ensures r.Ok? ==>
      patch.variants.Some? &&
      FindIndex(old(db.products), HasProductId(productId)).Some? &&
      var idx := FindIndex(old(db.products), HasProductId(productId)).value;
      db.variants == ApplyPatches(old(db.variants), patch.variants.value) &&
      db.products == old(db.products)[idx := PatchProduct(old(db.products)[idx], patch)] &&
      r.value == ProductWithVariants(db.products[idx], Filter(db.variants, VariantOf(productId)))
  {
    if patch.variants.None? {
      return Err(Unhandled("TypeError"));
    }
    var patched := PatchVariants(db.variants, patch.variants.value);
    if patched.None? {
      return Err(BadRequest);
    }
    var vs := patched.value;
    var found := FindIndex(db.products, HasProductId(productId));
    if found.None? || !LinksResolve(db.Snapshot(), patch.brandId, patch.parentCategoryId, patch.subcategoryId) {
      return Err(BadRequest);
    }
    var idx := found.value;
    var updated := PatchProduct(db.products[idx], patch);
    ApplyPatchesFrame(db.variants, patch.variants.value);
    assert forall i :: 0 <= i < |vs| ==> VariantKey(vs[i]) == VariantKey(db.variants[i]);
    ReplaceKeepsValid(db.Snapshot(), idx, updated);
    db.variants := vs;
    db.products := db.products[idx := updated];
    r := Ok(ProductWithVariants(updated, Filter(vs, VariantOf(productId))));
  }

  // ---------------------------------------------------------------------
  // addProductVariation
  // ---------------------------------------------------------------------

  /** The variant `addProductVariation` creates: the price and quantity as
      given, a truthy discount, a truthy size upper-cased and a truthy
      colour as given. */
  function NewVariation(productId: Id, id: Id, input: VariantInput): Variant {
    Variant(id, productId, input.price,
            if TruthyNumber(input.discount) then input.discount else None,
            if Truthy(input.size) then Some(Upper(input.size.value)) else None,
            if Truthy(input.color) then input.color else None,
            input.quantity)
  }

  /** A new variation belongs to its product, carries no falsy optional
      field, and stores its size upper-case; to the search it adds exactly
      its price to the product's prices. */
  lemma {:induction false} VariationRecord(c: Catalog, p: Product, id: Id, input: VariantInput)
    ensures var v := NewVariation(p.id, id, input);
      v.productId == p.id && v.price == input.price &&
      (v.discount.Some? ==> v.discount.value != 0) &&
      (v.size.Some? ==> NoLowerLetter(v.size.value) && v.size.value != "") &&
      (v.color.Some? ==> v.color.value != "")
    ensures Record(c.(variants := c.variants + [NewVariation(p.id, id, input)]), p).prices ==
      Record(c, p).prices + [input.price]
  {
    var v := NewVariation(p.id, id, input);
    if Truthy(input.size) {
      UpperNormalises(input.size.value);
    }
    FilterAppend(c.variants, [v], VariantOf(p.id));
    FilterSingleton(v, VariantOf(p.id));
    var f := Filter(c.variants, VariantOf(p.id));
    assert Prices(f + [v]) == Prices(f) + [v.price];
  }

  method AddProductVariation(db: Store, productId: Id, input: VariantInput, id: Id) returns (r: Result<Product>)
    requires db.Valid()
    requires FindIndex(db.variants, HasVariantId(id)).None?
    modifies db`variants
    ensures db.Valid()
    ensures FindIndex(db.products, HasProductId(productId)).None? ==>
      r == Err(BadRequest) && db.variants == old(db.variants)
    ensures FindIndex(db.products, HasProductId(productId)).Some? ==>
      r == Ok(db.products[FindIndex(db.products, HasProductId(productId)).value]) &&
      db.variants == old(db.variants) + [NewVariation(productId, id, input)]
  {
    var found := FindIndex(db.products, HasProductId(productId));
    if found.None? {
      return Err(BadRequest);
    }
    assert forall k :: 0 <= k < |db.variants| ==> !HasVariantId(id)(db.variants[k]);
    AppendInjective(db.variants, [NewVariation(productId, id, input)], VariantKey);
    db.variants := db.variants + [NewVariation(productId, id, input)];
    r := Ok(db.products[found.value]);
  }

  // ---------------------------------------------------------------------
  // getProduct
  // ---------------------------------------------------------------------

  function LookupBrand(brands: seq<Brand>, id: Option<Id>): Option<Brand> {
    if id.None? then None
    else match FindIndex(brands, HasBrandId(id.value))
      case None => None
      case Some(i) => Some(brands[i])
  }

  function LookupParent(parents: seq<ParentCategory>, id: Option<Id>): Option<ParentCategory> {
    if id.None? then None
    else match FindIndex(parents, HasParentId(id.value))
      case None => None
      case Some(i) => Some(parents[i])
  }

  function LookupSub(subs: seq<SubCategory>, id: Option<Id>): Option<SubCategory> {
    if id.None? then None
    else match FindIndex(subs, HasSubId(id.value))
      case None => None
      case Some(i) => Some(subs[i])
  }

  /** A product as read with its brand, categories, variants and tags. */
  function ViewOf(c: Catalog, p: Product): ProductView {
    ProductView(p, LookupBrand(c.brands, p.brandId), LookupParent(c.parents, p.parentId),
                LookupSub(c.subs, p.subId), Filter(c.variants, VariantOf(p.id)),
                TagNames(Filter(c.tags, TagOf(p.id))))
  }

  /** The view and the search record of a product agree on its links, tag
      names and prices. */
  lemma {:induction false} ViewMatchesRecord(c: Catalog, p: Product)
    ensures var v := ViewOf(c, p);
      var r := Record(c, p);
      (v.brand.Some? <==> r.brandName.Some?) && (v.brand.Some? ==> v.brand.value.name == r.brandName.value) &&
      (v.parent.Some? <==> r.parentName.Some?) && (v.parent.Some? ==> v.parent.value.name == r.parentName.value) &&
      (v.sub.Some? <==> r.subName.Some?) && (v.sub.Some? ==> v.sub.value.name == r.subName.value) &&
      v.tagNames == r.tagNames && Prices(v.variants) == r.prices
  {
  }

  /** `getProduct`: the product as it was read, then its view count
      increased by one; an unknown product is an error and counts nothing. */
  method GetProduct(db: Store, productId: Id) returns (r: Result<ProductView>)
    requires db.Valid()
    modifies db`products
    ensures db.Valid()
    ensures FindIndex(old(db.products), HasProductId(productId)).None? ==>
      r == Err(BadRequest) && db.products == old(db.products)
    ensures FindIndex(old(db.products), HasProductId(productId)).Some? ==>
      var idx := FindIndex(old(db.products), HasProductId(productId)).value;
      r == Ok(ViewOf(old(db.Snapshot()), old(db.products)[idx])) &&
      db.products == old(db.products)[idx := old(db.products)[idx].(views := old(db.products)[idx].views + 1)]
  {
    var found := FindIndex(db.products, HasProductId(productId));
    if found.None? {
      return Err(BadRequest);
    }
    var idx := found.value;
    var p := db.products[idx];
    r := Ok(ViewOf(db.Snapshot(), p));
    ReplaceKeepsValid(db.Snapshot(), idx, p.(views := p.views + 1));
    db.products := db.products[idx := p.(views := p.views + 1)];
  }

  // ---------------------------------------------------------------------
  // updateTag
  // ---------------------------------------------------------------------

  /** `updateTag`: the product's tags are deleted first, then the new ones
      are created on the product. The deletion is not undone when the
      product does not exist. */
  method UpdateTag(db: Store, productId: Id, names: seq<string>) returns (r: Result<Product>)
    requires db.Valid()
    modifies db`tags
    ensures db.Valid()
    ensures FindIndex(db.products, HasProductId(productId)).None? ==>
      r == Err(BadRequest) && db.tags == Filter(old(db.tags), NotTagOf(productId))
    ensures FindIndex(db.products, HasProductId(productId)).Some? ==>
      r == Ok(db.products[FindIndex(db.products, HasProductId(productId)).value]) &&
      db.tags == Filter(old(db.tags), NotTagOf(productId)) + NewTags(productId, names)
  {
    db.tags := Filter(db.tags, NotTagOf(productId));
    var found := FindIndex(db.products, HasProductId(productId));
    if found.None? {
      return Err(BadRequest);
    }
    db.tags := db.tags + NewTags(productId, names);
    r := Ok(db.products[found.value]);
  }

  /** After a successful `updateTag` the product's tags are exactly the
      new names, in order, and no other product's tags changed. */
  lemma {:induction false} ReplacedTags(tags: seq<Tag>, productId: Id, names: seq<string>, other: Id)
    requires other != productId
    ensures TagNames(Filter(Filter(tags, NotTagOf(productId)) + NewTags(productId, names), TagOf(productId))) == names
    ensures Filter(Filter(tags, NotTagOf(productId)) + NewTags(productId, names), TagOf(other)) == Filter(tags, TagOf(other))
  {
    var kept := Filter(tags, NotTagOf(productId));
    var added := NewTags(productId, names);
    FilterMembers(tags, NotTagOf(productId));
    AppendedTags(kept, added, productId);
    assert TagNames(added) == names;
    FilterAppend(kept, added, TagOf(other));
    FilterNone(added, TagOf(other));
    FilterOfFilter(tags, productId, other);
  }

  /** Dropping one product's tags keeps every other product's tags. */
  lemma {:induction false} FilterOfFilter(tags: seq<Tag>, productId: Id, other: Id)
    requires other != productId
    ensures Filter(Filter(tags, NotTagOf(productId)), TagOf(other)) == Filter(tags, TagOf(other))
    decreases |tags|
  {
    if tags != [] {
      FilterOfFilter(tags[1..], productId, other);
      var head := if NotTagOf(productId)(tags[0]) then [tags[0]] else [];
      assert Filter(tags, NotTagOf(productId)) == head + Filter(tags[1..], NotTagOf(productId));
      FilterAppend(head, Filter(tags[1..], NotTagOf(productId)), TagOf(other));
      if head != [] {
        FilterSingleton(tags[0], TagOf(other));
      }
    }
  }

  // ---------------------------------------------------------------------
  // searchProduct
  // ---------------------------------------------------------------------

  /** The loop that attaches to every hit the rounded mean price of its
      variants. */
  method AttachAverages(a: array<Hit>)
    requires Priced(a[..])
    modifies a
    ensures Priced(old(a[..])) && a[..] == Averaged(old(a[..]))
  {
    ghost var input := a[..];
    var i := 0;
    while i < a.Length
      invariant 0 <= i <= a.Length
      invariant forall k :: 0 <= k < i ==> a[k] == WithAverage(input[k])
      invariant forall k :: i <= k < a.Length ==> a[k] == input[k]
    {
      var vs := a[i].variants;
      var sum := 0;
      var j := 0;
      while j < |vs|
        invariant 0 <= j <= |vs|
        invariant sum == Sum(Prices(vs)[..j])
      {
        assert Prices(vs)[..j + 1][..j] == Prices(vs)[..j];
        sum := sum + vs[j].price;
        j := j + 1;
      }
      assert Prices(vs)[..j] == Prices(vs);
      a[i] := a[i].(averagePrice := Some(RoundedMean(sum, |vs|)));
      i := i + 1;
    }
  }

  /** `searchProduct`: the storage query, then, with `sortbyPrice`, the
      averages and the re-sort. */
  method SearchProduct(db: Store, params: SearchParams) returns (r: Result<seq<Hit>>)
    ensures match Fetch(db.Snapshot(), params)
      case Err(e) => r == Err(e)
      case Ok(hits) => Priced(hits) && r == Ok(Arrange(hits, params))
  {
    var fetched := Fetch(db.Snapshot(), params);
    if fetched.Err? {
      return Err(fetched.error);
    }
    var hits := fetched.value;
    FetchedHits(db.Snapshot(), params, hits);
    if params.sortbyPrice == "" {
      return Ok(hits);
    }
    var a := new Hit[|hits|](i requires 0 <= i < |hits| => hits[i]);
    assert a[..] == hits;
    AttachAverages(a);
    InsertionSort(a, ArrangeKey(params.sortbyViews != ""));
    r := Ok(a[..]);
  }
}
