/** The category service: parent categories, their subcategories, and the
    listing of both. Names are stored lower-case and are unique, so a
    second category whose name differs only in case is refused. */
module CategoryService {
  import opened Util
  import opened Sorting
  import opened Store

  /** A parent category listed with its subcategories. */
  datatype CategoryTree = CategoryTree(id: Id, name: string, subcategories: seq<SubCategory>)

  const CategoryExists := "Category alredy exists"

  function ChildOf(parentId: Id): SubCategory -> bool { (s: SubCategory) => s.parentId == parentId }

  /** Adding a row with a fresh id and a fresh lower-case name keeps ids
      and names unique and names lower-case. */
  lemma {:induction false} AddParentKeepsValid(brands: seq<Brand>, parents: seq<ParentCategory>, subs: seq<SubCategory>, c: ParentCategory)
    requires TaxonomyValid(brands, parents, subs)
    requires NoUpperLetter(c.name) && FindIndex(parents, HasParentName(c.name)).None?
    requires FindIndex(parents, HasParentId(c.id)).None?
    ensures TaxonomyValid(brands, parents + [c], subs)
  {
    var ps := parents + [c];
    forall i, j | 0 <= i < j < |ps|
      ensures ParentKey(ps[i]) != ParentKey(ps[j]) && ParentNameKey(ps[i]) != ParentNameKey(ps[j])
    {
      if j == |parents| {
        assert !HasParentName(c.name)(parents[i]);
        assert !HasParentId(c.id)(parents[i]);
      }
    }
  }

  lemma {:induction false} AddSubKeepsValid(brands: seq<Brand>, parents: seq<ParentCategory>, subs: seq<SubCategory>, c: SubCategory)
    requires TaxonomyValid(brands, parents, subs)
    requires NoUpperLetter(c.name) && FindIndex(subs, HasSubName(c.name)).None?
    requires FindIndex(subs, HasSubId(c.id)).None?
    ensures TaxonomyValid(brands, parents, subs + [c])
  {
    var ss := subs + [c];
    forall i, j | 0 <= i < j < |ss|
      ensures SubKey(ss[i]) != SubKey(ss[j]) && SubNameKey(ss[i]) != SubNameKey(ss[j])
    {
      if j == |subs| {
        assert !HasSubName(c.name)(subs[i]);
        assert !HasSubId(c.id)(subs[i]);
      }
    }
  }

  /** `createCategory`: the name lower-cased; a name already stored is
      refused. */
  method CreateCategory(db: Store, name: string, id: Id) returns (r: Result<ParentCategory>)
    requires db.Valid()
    requires FindIndex(db.parents, HasParentId(id)).None?
    modifies db`parents
    ensures db.Valid()
    ensures FindIndex(old(db.parents), HasParentName(Lower(name))).Some? ==>
      r == Err(Forbidden(CategoryExists)) && db.parents == old(db.parents)
    ensures FindIndex(old(db.parents), HasParentName(Lower(name))).None? ==>
      r == Ok(ParentCategory(id, Lower(name))) && db.parents == old(db.parents) + [r.value]
  {
    var stored := Lower(name);
    if FindIndex(db.parents, HasParentName(stored)).Some? {
      return Err(Forbidden(CategoryExists));
    }
    LowerNormalises(name);
    AddParentKeepsValid(db.brands, db.parents, db.subs, ParentCategory(id, stored));
    r := Ok(ParentCategory(id, stored));
    db.parents := db.parents + [r.value];
  }

  /** `addSubCategory`: the name lower-cased, filed under the given parent
      id; a name already stored is refused. The parent id is not checked
      against the stored parents. */
  method AddSubCategory(db: Store, name: string, parentId: Id, id: Id) returns (r: Result<SubCategory>)
    requires db.Valid()
    requires FindIndex(db.subs, HasSubId(id)).None?
    modifies db`subs
    ensures db.Valid()
    ensures FindIndex(old(db.subs), HasSubName(Lower(name))).Some? ==>
      r == Err(Forbidden(CategoryExists)) && db.subs == old(db.subs)
    ensures FindIndex(old(db.subs), HasSubName(Lower(name))).None? ==>
      r == Ok(SubCategory(id, Lower(name), parentId)) && db.subs == old(db.subs) + [r.value]
  {
    var stored := Lower(name);
    if FindIndex(db.subs, HasSubName(stored)).Some? {
      return Err(Forbidden(CategoryExists));
    }
    LowerNormalises(name);
    AddSubKeepsValid(db.brands, db.parents, db.subs, SubCategory(id, stored, parentId));
    r := Ok(SubCategory(id, stored, parentId));
    db.subs := db.subs + [r.value];
  }

  /** Once a category name is stored, every spelling of it that differs
      only in case is refused. */
  lemma {:induction false} CaseVariantCollides(parents: seq<ParentCategory>, id: Id, a: string, b: string)
    requires EqualsIgnoreCase(a, b)
    ensures FindIndex(parents + [ParentCategory(id, Lower(a))], HasParentName(Lower(b))).Some?
  {
    var ps := parents + [ParentCategory(id, Lower(a))];
    assert HasParentName(Lower(b))(ps[|ps| - 1]);
  }

  /** The subcategories filed under a parent are exactly those naming it. */
  lemma {:induction false} ChildrenExact(subs: seq<SubCategory>)
    ensures forall id, s :: s in Filter(subs, ChildOf(id)) <==> s in subs && s.parentId == id
  {
    forall id: Id
      ensures forall s :: s in Filter(subs, ChildOf(id)) <==> s in subs && s.parentId == id
    {
      FilterMembers(subs, ChildOf(id));
    }
  }

  /** `getcategorynames`: every parent category, in storage order, with
      exactly the subcategories filed under it. */
  function CategoryNames(parents: seq<ParentCategory>, subs: seq<SubCategory>): (r: seq<CategoryTree>)
    ensures |r| == |parents|
    ensures forall i :: 0 <= i < |r| ==>
      r[i].id == parents[i].id && r[i].name == parents[i].name &&
      (forall s :: s in r[i].subcategories <==> s in subs && s.parentId == parents[i].id)
  {
    ChildrenExact(subs);
    seq(|parents|, i requires 0 <= i < |parents| =>
      CategoryTree(parents[i].id, parents[i].name, Filter(subs, ChildOf(parents[i].id))))
  }

  /** A subcategory filed under a stored parent is listed exactly once. */
  lemma {:induction false} ListedOnce(parents: seq<ParentCategory>, subs: seq<SubCategory>, s: SubCategory)
    requires InjectiveOn(parents, ParentKey)
    requires s in subs
    requires exists k :: 0 <= k < |parents| && parents[k].id == s.parentId
    ensures var r := CategoryNames(parents, subs);
      exists k :: 0 <= k < |r| && s in r[k].subcategories &&
        forall m :: 0 <= m < |r| && m != k ==> s !in r[m].subcategories
  {
    var r := CategoryNames(parents, subs);
    var k :| 0 <= k < |parents| && parents[k].id == s.parentId;
    assert s in r[k].subcategories;
    forall m | 0 <= m < |r| && m != k
      ensures s !in r[m].subcategories
    {
      if m < k {
        assert ParentKey(parents[m]) != ParentKey(parents[k]);
      } else {
        assert ParentKey(parents[k]) != ParentKey(parents[m]);
      }
    }
  }
}
