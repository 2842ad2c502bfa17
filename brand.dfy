/** The brand service: adding, removing and listing brands. Names are
    stored lower-case and are unique. */
module BrandService {
  import opened Util
  import opened Sorting
  import opened Store
  import opened Search

  const BrandExists := "Brand alredy exists"

  lemma {:induction false} AddBrandKeepsValid(brands: seq<Brand>, parents: seq<ParentCategory>, subs: seq<SubCategory>, b: Brand)
    requires TaxonomyValid(brands, parents, subs)
    requires NoUpperLetter(b.name) && FindIndex(brands, HasBrandName(b.name)).None?
    requires FindIndex(brands, HasBrandId(b.id)).None?
    ensures TaxonomyValid(brands + [b], parents, subs)
  {
    var bs := brands + [b];
    forall i, j | 0 <= i < j < |bs|
      ensures BrandKey(bs[i]) != BrandKey(bs[j]) && BrandNameKey(bs[i]) != BrandNameKey(bs[j])
    {
      if j == |brands| {
        assert !HasBrandName(b.name)(brands[i]);
        assert !HasBrandId(b.id)(brands[i]);
      }
    }
  }

  /** `addBrand`: the name lower-cased; a name already stored is refused. */
  method AddBrand(db: Store, name: string, id: Id) returns (r: Result<Brand>)
    requires db.Valid()
    requires FindIndex(db.brands, HasBrandId(id)).None?
    modifies db`brands
    ensures db.Valid()
    ensures FindIndex(old(db.brands), HasBrandName(Lower(name))).Some? ==>
      r == Err(Forbidden(BrandExists)) && db.brands == old(db.brands)
    ensures FindIndex(old(db.brands), HasBrandName(Lower(name))).None? ==>
      r == Ok(Brand(id, Lower(name))) && db.brands == old(db.brands) + [r.value]
  {
    var stored := Lower(name);
    if FindIndex(db.brands, HasBrandName(stored)).Some? {
      return Err(Forbidden(BrandExists));
    }
    LowerNormalises(name);
    AddBrandKeepsValid(db.brands, db.parents, db.subs, Brand(id, stored));
    r := Ok(Brand(id, stored));
    db.brands := db.brands + [r.value];
  }

  function RemoveAt<T>(s: seq<T>, i: nat): (r: seq<T>)
    requires i < |s|
    ensures |r| == |s| - 1
  {
    s[..i] + s[i + 1..]
  }

  lemma {:induction false} RemoveAtIndex<T>(s: seq<T>, i: nat, k: nat)
    requires i < |s| && k < |s| - 1
    ensures RemoveAt(s, i)[k] == s[if k < i then k else k + 1]
  {
  }

  /** No brand with the removed id remains. */
  lemma {:induction false} RemovedIdGone(brands: seq<Brand>, i: nat)
    requires InjectiveOn(brands, BrandKey)
    requires i < |brands|
    ensures forall k :: 0 <= k < |RemoveAt(brands, i)| ==> RemoveAt(brands, i)[k].id != brands[i].id
  {
    forall k | 0 <= k < |RemoveAt(brands, i)|
      ensures RemoveAt(brands, i)[k].id != brands[i].id
    {
      RemoveAtIndex(brands, i, k);
      if k < i {
        assert BrandKey(brands[k]) != BrandKey(brands[i]);
      } else {
        assert BrandKey(brands[i]) != BrandKey(brands[k + 1]);
      }
    }
  }

  /** Removing a brand keeps the table valid and the other brands, in
      order. */
  lemma {:induction false} RemoveBrandFacts(brands: seq<Brand>, parents: seq<ParentCategory>, subs: seq<SubCategory>, i: nat)
    requires TaxonomyValid(brands, parents, subs)
    requires i < |brands|
    ensures TaxonomyValid(RemoveAt(brands, i), parents, subs)
    ensures multiset(RemoveAt(brands, i)) + multiset{brands[i]} == multiset(brands)
  {
    var r := RemoveAt(brands, i);
    assert brands == brands[..i] + [brands[i]] + brands[i + 1..];
    forall a, b | 0 <= a < b < |r|
      ensures BrandKey(r[a]) != BrandKey(r[b]) && BrandNameKey(r[a]) != BrandNameKey(r[b])
    {
      RemoveAtIndex(brands, i, a);
      RemoveAtIndex(brands, i, b);
    }
    forall k | 0 <= k < |r|
      ensures NoUpperLetter(r[k].name)
    {
      RemoveAtIndex(brands, i, k);
    }
  }

  /** After a brand is removed, a product that named it reads as having
      no brand, so the brand clause of the search no longer selects it. */
  lemma {:induction false} RemovedBrandUnlinks(brands: seq<Brand>, parents: seq<ParentCategory>, subs: seq<SubCategory>, i: nat)
    requires TaxonomyValid(brands, parents, subs)
    requires i < |brands|
    ensures BrandName(RemoveAt(brands, i), Some(brands[i].id)).None?
  {
    RemovedIdGone(brands, i);
  }

  /** `removeBrand`: any failure (a malformed or an unknown id) is a bad
      request; products that named the brand keep the dangling id. */
  method RemoveBrand(db: Store, id: Id) returns (r: Result<()>)
    requires db.Valid()
    modifies db`brands
    ensures db.Valid()
    ensures !IsObjectId(id) || FindIndex(old(db.brands), HasBrandId(id)).None? ==>
      r == Err(BadRequest) && db.brands == old(db.brands)
    ensures IsObjectId(id) && FindIndex(old(db.brands), HasBrandId(id)).Some? ==>
      r == Ok(()) && db.brands == RemoveAt(old(db.brands), FindIndex(old(db.brands), HasBrandId(id)).value)
  {
    if !IsObjectId(id) {
      return Err(BadRequest);
    }
    var found := FindIndex(db.brands, HasBrandId(id));
    if found.None? {
      return Err(BadRequest);
    }
    RemoveBrandFacts(db.brands, db.parents, db.subs, found.value);
    db.brands := RemoveAt(db.brands, found.value);
    r := Ok(());
  }

  /** `getBrandnames`: every stored brand, in storage order; their names
      are distinct and lower-case. */
  method GetBrandNames(db: Store) returns (r: seq<Brand>)
    requires db.Valid()
    ensures r == db.brands
    ensures forall i, j :: 0 <= i < j < |r| ==> r[i].name != r[j].name
    ensures forall i :: 0 <= i < |r| ==> NoUpperLetter(r[i].name)
  {
    r := db.brands;
    assert forall i, j :: 0 <= i < j < |r| ==> BrandNameKey(r[i]) != BrandNameKey(r[j]);
  }
}
