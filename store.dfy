/** The in-memory store that stands for the database behind the services:
    one table per model. The catalogue tables are sequences in storage
    order (the order in which an unordered `findMany` returns rows); users
    and addresses are keyed by id. */
module Store {
  import opened Util
  import opened Sorting

  // ---------------------------------------------------------------------
  // Catalogue rows
  // ---------------------------------------------------------------------

  datatype Brand = Brand(id: Id, name: string)

  datatype ParentCategory = ParentCategory(id: Id, name: string)

  datatype SubCategory = SubCategory(id: Id, name: string, parentId: Id)

  datatype Image = Image(assetId: string, publicId: string, format: string, secureUrl: string, apiKey: string)

  /** A product row: its scalar fields, its images, and its optional links. */
  datatype Product = Product(
    id: Id,
    name: string,
    description: string,
    views: nat,
    images: seq<Image>,
    brandId: Option<Id>,
    parentId: Option<Id>,
    subId: Option<Id>)

  /** A priced variant of a product (a `productDetails` row). Prices are
      whole numbers in this model. */
  datatype Variant = Variant(
    id: Id,
    productId: Id,
    price: int,
    discount: Option<int>,
    size: Option<string>,
    color: Option<string>,
    quantity: int)

  datatype Tag = Tag(productId: Id, name: string)

  /** A snapshot of the catalogue tables. */
  datatype Catalog = Catalog(
    brands: seq<Brand>,
    parents: seq<ParentCategory>,
    subs: seq<SubCategory>,
    products: seq<Product>,
    variants: seq<Variant>,
    tags: seq<Tag>)

  // ---------------------------------------------------------------------
  // Account rows
  // ---------------------------------------------------------------------

  /** An argon2 digest. Hashing is a foreign call: the model keeps the
      password and the random salt it was hashed with, and verification
      succeeds exactly for the password that was hashed. */
  datatype Digest = Argon2(password: string, salt: nat)

  datatype Name = Name(firstName: string, middleName: Option<string>, lastName: string)

  /** A user row; `token` is the pending verification code of the user's
      one-to-one token row, if any. */
  datatype User = User(
    email: string,
    hash: Digest,
    name: Name,
    phone: Option<string>,
    isVerified: bool,
    token: Option<string>)

  datatype Address = Address(
    userId: Id,
    address: string,
    streetName: string,
    landmark: string,
    locality: Option<string>,
    pincode: int,
    city: string,
    state: string,
    addresstype: bool)

  // ---------------------------------------------------------------------
  // Row selectors
  // ---------------------------------------------------------------------

  function ProductKey(p: Product): Id { p.id }

  function HasProductId(id: Id): Product -> bool { (p: Product) => p.id == id }

  function HasBrandId(id: Id): Brand -> bool { (b: Brand) => b.id == id }

  function HasParentId(id: Id): ParentCategory -> bool { (c: ParentCategory) => c.id == id }

  function HasSubId(id: Id): SubCategory -> bool { (c: SubCategory) => c.id == id }

  function HasVariantId(id: Id): Variant -> bool { (v: Variant) => v.id == id }

  function VariantOf(productId: Id): Variant -> bool { (v: Variant) => v.productId == productId }

  function TagOf(productId: Id): Tag -> bool { (t: Tag) => t.productId == productId }

  function NotTagOf(productId: Id): Tag -> bool { (t: Tag) => t.productId != productId }

  function BrandKey(b: Brand): Id { b.id }

  function ParentKey(c: ParentCategory): Id { c.id }

  function SubKey(c: SubCategory): Id { c.id }

  function VariantKey(v: Variant): Id { v.id }

  function BrandNameKey(b: Brand): string { b.name }

  function ParentNameKey(c: ParentCategory): string { c.name }

  function SubNameKey(c: SubCategory): string { c.name }

  function HasBrandName(name: string): Brand -> bool { (b: Brand) => b.name == name }

  function HasParentName(name: string): ParentCategory -> bool { (c: ParentCategory) => c.name == name }

  function HasSubName(name: string): SubCategory -> bool { (c: SubCategory) => c.name == name }

  /** Brand and category ids are unique; brand and category names are
      unique columns and are stored lower-case. */
  ghost predicate TaxonomyValid(brands: seq<Brand>, parents: seq<ParentCategory>, subs: seq<SubCategory>) {
    InjectiveOn(brands, BrandKey) &&
    InjectiveOn(parents, ParentKey) &&
    InjectiveOn(subs, SubKey) &&
    InjectiveOn(brands, BrandNameKey) &&
    InjectiveOn(parents, ParentNameKey) &&
    InjectiveOn(subs, SubNameKey) &&
    (forall i :: 0 <= i < |brands| ==> NoUpperLetter(brands[i].name)) &&
    (forall i :: 0 <= i < |parents| ==> NoUpperLetter(parents[i].name)) &&
    (forall i :: 0 <= i < |subs| ==> NoUpperLetter(subs[i].name))
  }

  /** Email addresses and pending verification codes are unique columns. */
  ghost predicate AccountsValid(users: map<Id, User>) {
    forall u, v :: u in users && v in users && u != v ==>
      users[u].email != users[v].email &&
      (users[u].token.Some? ==> users[u].token != users[v].token)
  }

  /** Product ids are unique ObjectIds; variant ids are unique. */
  ghost predicate CatalogValid(c: Catalog) {
    InjectiveOn(c.products, ProductKey) &&
    InjectiveOn(c.variants, VariantKey) &&
    forall i :: 0 <= i < |c.products| ==> IsObjectId(c.products[i].id)
  }

  class Store {
    var brands: seq<Brand>
    var parents: seq<ParentCategory>
    var subs: seq<SubCategory>
    var products: seq<Product>
    var variants: seq<Variant>
    var tags: seq<Tag>
    var users: map<Id, User>
    var addresses: map<Id, Address>

    ghost predicate Valid()
      reads this
    {
      CatalogValid(Snapshot()) && TaxonomyValid(brands, parents, subs) && AccountsValid(users)
    }

    /** The catalogue tables as a value. */
    function Snapshot(): Catalog
      reads this
    {
      Catalog(brands, parents, subs, products, variants, tags)
    }

    constructor ()
      ensures Valid()
      ensures brands == [] && parents == [] && subs == [] && products == []
      ensures variants == [] && tags == [] && users == map[] && addresses == map[]
    {
      brands, parents, subs, products, variants, tags := [], [], [], [], [], [];
      users, addresses := map[], map[];
    }
  }
}
