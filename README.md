# ecommerce-backend services in Dafny

This project models the service layer of the `ecommerce-backend` shop. The
original is a NestJS application whose services read and write a MongoDB
database through Prisma. The model covers five services:

- **Product catalogue** (`product.service.ts`):
  - adding a product with its variants ("product details"), tags and links
    to a brand, a parent category and a subcategory;
  - updating a product and its variants inside one transaction;
  - adding a variant;
  - reading a product, which also bumps its view counter;
  - replacing its tags;
  - the paginated product search and its count.
- **Categories and brands** (`category.service.ts`, `brand.service.ts`):
  creating parent categories and subcategories under lower-cased, unique
  names; adding and removing brands; listing both.
- **Users** (`user.service.ts`): profile reads and edits, and the address
  book with its ownership checks.
- **Authentication** (`auth.service.ts`): sign-up with an e-mail
  verification code, sign-in, account verification, change of e-mail,
  change of password, the forgotten-password flow and re-sending the
  verification code.

The database is a `Store` object (`store.dfy`):

- Catalogue tables (brands, parent categories, subcategories, products,
  variants, tags) are sequences in storage order.
- Users and addresses are maps keyed by id.
- `Store.Valid` holds the uniqueness constraints the services rely on:
  - distinct product ids, each a 24-digit hex ObjectId;
  - distinct variant, brand, parent-category and subcategory ids;
  - distinct, lower-case brand and category names;
  - distinct user e-mails;
  - distinct pending verification codes.

Every method that writes the catalogue, category, brand or user tables
keeps `Valid`. The address methods and `GetUser` write no table `Valid`
constrains: they modify only the address table, or nothing, and so cannot
break it. The adding methods take the new row's id as a parameter and
require it to be unused, as the database's generated ids are.

Each service method takes the store and states its new state and result
outright: the error returned on each failure path, the rows it appends,
replaces or deletes, and the fact that nothing changes on an error. Things
outside the program's control become parameters:

- fresh ids;
- the random six-digit code;
- the Argon2 salt;
- whether a mail was delivered.

The search is split in two layers:

- **Pure specification** (`search.dfy`):
  - `Record` joins a product to its tags, categories, brand and variant
    prices.
  - `SearchMatch` and `CountMatch` are the two `where` clauses.
  - `Ordered` is the `orderBy views`.
  - `Page` models `take`/`skip`/`cursor`.
  - `Fetch` attaches the in-band variants, sorted by price.
  - `Arrange` is the optional re-sort by the rounded average price.
- **Imperative method** (`ProductService.SearchProduct`): it computes each
  average with a nested loop (`AttachAverages`) and re-sorts an array in
  place with a stable insertion sort (`Sorting.InsertionSort`). Both are
  proved equal to the specification.

Behaviours of the code worth knowing, all modelled as written:

- The search compares the subcategory name case-sensitively. The count, and
  every other clause, compare ignoring case. Names are stored lower-cased,
  so a search for "Shirts" misses subcategory "shirts" while the count finds
  it (`CapitalisedQueryMissesSubcategory`). The system's design description
  calls this clause case-insensitive; the model follows the code.
- With `sortbyPrice`, the re-sort by views is always views-descending, even
  when `sortbyViews` is `asc`.
- Without a cursor, `take: 0` means no limit. With a cursor it means an
  empty page.
- When the product is missing, `updateTag` still deletes the product's tags
  first and then fails.

## Model

| member | source | states |
|---|---|---|
| Util.RoundedMean | src/product/product.service.ts:363-365 | `Math.round(sum / count)`: the result is the integer nearest to the mean, halves rounded up. |
| Util.RoundedMeanWithin | src/product/product.service.ts:355-366 | The rounded average of values in [lo, hi] lies in [lo, hi]. |
| Util.LowerNormalises | src/category/category.service.ts:14 | `toLowerCase` leaves no upper-case letter, keeps the length, and is idempotent. |
| Util.UpperNormalises | src/product/product.service.ts:89-91 | `toUpperCase` leaves no lower-case letter, keeps the length, and is idempotent. |
| Util.FilterCountsMultiset | src/product/product.service.ts:494-576 | A `count` over a `where` clause does not depend on the storage order of the rows. |
| Util.FilterPosition | src/product/product.service.ts:379-383 | The k-th match of a `findMany` sits at a definite row, and the first k+1 matches are exactly the matches up to that row. |
| Sorting.SortByPermutes | src/product/product.service.ts:367-376 | The stable sort returns a permutation of its input. |
| Sorting.SortBySorted | src/product/product.service.ts:367-376 | The stable sort orders its result by key. |
| Sorting.SortByStable | src/product/product.service.ts:367-376 | Elements with equal keys keep their relative order (`Array.prototype.sort` is stable). |
| Sorting.SortByInjective | src/product/product.service.ts:350 | Reordering the products keeps their ids distinct. |
| Sorting.InsertAt | src/product/product.service.ts:367-376 | Moving an element left past the greater keys in place yields the functional insertion, and the rest of the array is untouched. |
| Sorting.InsertionSort | src/product/product.service.ts:367-376 | Sorting an array in place leaves it equal to the stable sort of its old contents. |
| Search.Record | src/product/product.service.ts:277-331 | The joined row the `where` clause reads: the product's name, its tag names, its parent-category, subcategory and brand names (none when the link is unset or dangling), and all its variant prices. |
| Search.SearchMatch | src/product/product.service.ts:277-331 | The search's `where`: some tag contains the query ignoring case, or the parent name equals it ignoring case, or the subcategory name equals it exactly, or the product name contains it ignoring case, or the brand name equals it ignoring case; and some variant is priced in [greaterthan, lessthan]. An empty query drops the text tests but keeps each relation's existence test. |
| Search.CountMatch | src/product/product.service.ts:494-576 | The count's `where`: with a query, the search's clauses with the subcategory compared ignoring case; without one, the price clause alone. |
| Search.SearchCount | src/product/product.service.ts:488-577 | `searchProductcount`: the number of stored products satisfying the count's `where`, never more than the stored products. |
| Search.Page | src/product/product.service.ts:262-383 | The products `findMany` returns: a direction other than `asc`/`desc` or a malformed cursor is BadRequest. Otherwise the matches in query order, from the cursor skipping one, or from the start; never more than `take` when `take` is positive, and never more than the stored products. |
| Search.Fetch | src/product/product.service.ts:262-454 | The query's result: fails exactly when `Page` fails, and otherwise holds one hit per paged product, in page order, carrying its in-band variants sorted by price and no average yet. |
| Search.Arrange | src/product/product.service.ts:355-376 | The post-processing: without `sortbyPrice` the hits are returned as fetched; with it, each gets its rounded average and the page is stably re-sorted. The page keeps its length either way. |
| SearchProperties.EmptyQueryFiltersByPrice | src/product/product.service.ts:558-576 | With no search text, both the search and the count reduce to the price clause "some variant priced in [greaterthan, lessthan]". |
| SearchProperties.SearchImpliesCount | src/product/product.service.ts:277-331 | Every product the search's `where` accepts is counted by `searchProductcount`'s `where` (the count's case-insensitive subcategory clause is weaker). |
| SearchProperties.CapitalisedQueryMissesSubcategory | src/product/product.service.ts:297-303 | A query with an upper-case letter never equals a stored, lower-cased subcategory name under the case-sensitive search, although the case-insensitive count matches it. |
| SearchProperties.StoredNameMatchesAnyCase | src/product/product.service.ts:310-317 | The brand clause accepts a query exactly when it equals the stored brand name ignoring case. |
| SearchProperties.OrderedPermutes | src/product/product.service.ts:350 | `orderBy views` returns every product once. |
| SearchProperties.OrderedByViews | src/product/product.service.ts:350 | With `asc`/`desc`, the products come out ordered by views in that direction. |
| SearchProperties.OrderedInjective | src/product/product.service.ts:350 | The ordered products have distinct ids. |
| SearchProperties.PageMatches | src/product/product.service.ts:271-331 | Every product on a page is a stored product satisfying the search's `where` clause. |
| SearchProperties.CursorSkip | src/product/product.service.ts:274-276 | `skip: 1` from the cursor yields matches after the cursor; when the cursor matches, exactly those. |
| SearchProperties.CursorPage | src/product/product.service.ts:271-276 | A cursor page holds only products strictly after the cursor in view order, never the cursor itself. When the cursor matches, it is the first `take` matches after it. |
| SearchProperties.FindOwnId | src/product/product.service.ts:276 | With distinct ids, looking a product up by its own id finds its row. |
| SearchProperties.SplitDisjoint | src/product/product.service.ts:271-276 | Products at or before a position and products after it are different. |
| SearchProperties.FirstPageEnds | src/product/product.service.ts:379-383 | A first page is a prefix of the matches in query order, and all its rows sit at or before the row of its last product. |
| SearchProperties.NextPageDisjoint | src/product/product.service.ts:271-383 | Paging forward with the last product of the first page as cursor returns no product of the first page. |
| SearchProperties.CountBoundsPage | src/product/product.service.ts:488-577 | No page is longer than `searchProductcount` for the same query and price band. |
| SearchProperties.UnfilteredCountIsPageSize | src/product/product.service.ts:379-383 | With no text, no cursor and `take: 0`, the page has exactly `searchProductcount` products. |
| SearchProperties.BandVariantsExact | src/product/product.service.ts:440-454 | The included variants are a permutation of the product's in-band variants, in ascending price. |
| SearchProperties.BandVariantsSound | src/product/product.service.ts:440-454 | Every included variant is a stored variant of that product priced within the band. |
| SearchProperties.BandVariantsComplete | src/product/product.service.ts:440-454 | Every stored in-band variant of the product is included. |
| SearchProperties.PricedHit | src/product/product.service.ts:319-331 | A product passing the price clause has at least one included variant, so its average is never 0/0. |
| SearchProperties.FetchedHits | src/product/product.service.ts:271-354 | Each fetched hit is a stored matching product with its in-band variants, not yet averaged. |
| SearchProperties.AverageInBand | src/product/product.service.ts:361-371 | A hit's rounded average price lies within [greaterthan, lessthan]. |
| SearchProperties.ArrangePermutes | src/product/product.service.ts:355-376 | With `sortbyPrice`, the result is the averaged page reordered, every hit carrying an average. |
| SearchProperties.ArrangeByViews | src/product/product.service.ts:367-372 | With `sortbyViews`, hits come out by views descending, ties by average ascending. |
| SearchProperties.ArrangeByAverage | src/product/product.service.ts:374-375 | Without `sortbyViews`, hits come out by average ascending. |
| SearchProperties.ArrangeStable | src/product/product.service.ts:367-376 | Hits with equal sort keys keep the order the query returned them in. |
| ProductService.ResolvedParent | src/product/product.service.ts:17-27 | With a subcategory id, the parent becomes that subcategory's parent when it exists and none otherwise. Without one, the given parent id is kept. |
| ProductService.NewProductLinks | src/product/product.service.ts:28-71 | A created product has the fresh id and zero views. Its brand, parent and subcategory links resolve, and the subcategory lies under the parent. |
| ProductService.AppendedVariants | src/product/product.service.ts:33-37 | After `createMany`, the product's variants are exactly the new ones. |
| ProductService.AppendedTags | src/product/product.service.ts:62-66 | After `createMany`, the product's tags are exactly the new ones. |
| ProductService.AddedProductRecord | src/product/product.service.ts:16-73 | After `addProduct`, the search sees the product with the requested name, tags and variant prices. |
| ProductService.AddProduct | src/product/product.service.ts:16-73 | Returns the new product or BadRequest. On success it appends the product, its variants and its tags; on error nothing changes. |
| ProductService.ApplyPatchOneRow | src/product/product.service.ts:79-82 | With unique variant ids, `update({where: {id}})` rewrites exactly the one row carrying that id. |
| ProductService.PatchVariantFacts | src/product/product.service.ts:79-99 | A variant update keeps id and owner and changes only the truthy fields. It upper-cases the size and lower-cases the colour, and applying it twice equals applying it once. |
| ProductService.ApplyPatchesFrame | src/product/product.service.ts:77-103 | The update loop keeps every variant's id and owner, and leaves variants no patch names unchanged. |
| ProductService.PatchVariants | src/product/product.service.ts:77-103 | The loop fails exactly when some patch names no variant; otherwise it yields all patches applied in order. |
| ProductService.PatchProductFacts | src/product/product.service.ts:104-138 | The product update changes only truthy fields, keeps id, views and images, and is idempotent. |
| ProductService.ReplaceKeepsValid | src/product/product.service.ts:104-138 | Replacing a product row by one with the same id keeps product ids distinct. |
| ProductService.UpdateProduct | src/product/product.service.ts:75-145 | Fails on a missing variant list, an unknown variant, a missing product or an unresolved link, rolling back every variant update. When none of these holds it succeeds, and it returns the patched product with its variants. |
| ProductService.VariationRecord | src/product/product.service.ts:147-171 | The new variant belongs to the product with the given price, an upper-cased size and no falsy options. The product's price list gains exactly that price. |
| ProductService.AddProductVariation | src/product/product.service.ts:147-171 | Appends the variant and returns the product, or BadRequest with nothing changed when the product is missing. |
| ProductService.ViewMatchesRecord | src/product/product.service.ts:173-204 | The product view shows the same brand, categories, tags and prices the search joins. |
| ProductService.GetProduct | src/product/product.service.ts:173-217 | Returns the view as read before the increment, then adds 1 to views. A missing product gives BadRequest. |
| ProductService.UpdateTag | src/product/product.service.ts:227-250 | Deletes the product's tags, then appends the new ones, or fails with BadRequest with the deletion kept. |
| ProductService.ReplacedTags | src/product/product.service.ts:227-250 | After `updateTag` the product's tags are exactly the new names, in order, and every other product's tags are unchanged. |
| ProductService.FilterOfFilter | src/product/product.service.ts:228-234 | Deleting one product's tags keeps every other product's tags. |
| ProductService.AttachAverages | src/product/product.service.ts:355-366 | The nested loop sets each hit's average to the rounded mean of its included prices. |
| ProductService.SearchProduct | src/product/product.service.ts:253-486 | Returns the query's error, or the fetched page re-arranged as `Arrange` specifies. |
| CategoryService.AddParentKeepsValid | src/category/category.service.ts:10-25 | Adding a fresh lower-case name keeps category names unique and lower-case. |
| CategoryService.AddSubKeepsValid | src/category/category.service.ts:27-43 | Adding a fresh lower-case subcategory name keeps names unique and lower-case. |
| CategoryService.CreateCategory | src/category/category.service.ts:10-25 | Stores the lower-cased name. If that name exists it fails with "Category alredy exists" and changes nothing. |
| CategoryService.AddSubCategory | src/category/category.service.ts:27-43 | Stores the lower-cased name under the given parent. A duplicate name is Forbidden and changes nothing. |
| CategoryService.CaseVariantCollides | src/category/category.service.ts:14-20 | Once a name is stored, any name equal to it ignoring case is rejected as a duplicate. |
| CategoryService.ChildrenExact | src/category/category.service.ts:56-63 | The subcategories included under a parent are exactly those naming it. |
| CategoryService.CategoryNames | src/category/category.service.ts:45-66 | Lists every parent in order, each with exactly its subcategories. |
| CategoryService.ListedOnce | src/category/category.service.ts:45-66 | A subcategory of an existing parent appears under exactly one listed parent. |
| BrandService.AddBrandKeepsValid | src/brand/brand.service.ts:15-30 | Adding a fresh brand keeps brand ids and names unique and lower-case. |
| BrandService.AddBrand | src/brand/brand.service.ts:15-30 | Stores the lower-cased name. A duplicate gives "Brand alredy exists" and changes nothing. |
| BrandService.RemovedIdGone | src/brand/brand.service.ts:32-42 | No brand with the deleted id remains. |
| BrandService.RemoveBrandFacts | src/brand/brand.service.ts:32-42 | Deleting a brand keeps the constraints, and removes exactly that one row. |
| BrandService.RemovedBrandUnlinks | src/brand/brand.service.ts:32-42 | After deletion, products that pointed at the brand join to no brand. |
| BrandService.RemoveBrand | src/brand/brand.service.ts:32-42 | Deletes the brand with that id. A malformed or unknown id gives BadRequest and changes nothing. |
| BrandService.GetBrandNames | src/brand/brand.service.ts:44-56 | Returns every brand in storage order, with distinct, lower-case names. |
| UserService.PublicViewHidesSecrets | src/user/user.service.ts:14-31 | The returned profile does not depend on the password hash or the pending code. |
| UserService.AddressesOf | src/user/user.service.ts:14-31 | The included addresses are exactly the user's own. |
| UserService.GetUser | src/user/user.service.ts:14-31 | Malformed id gives Forbidden("Credentials invalid"), and a missing user a TypeError. Otherwise the public profile, with the addresses exactly when asked. |
| UserService.PatchUserFacts | src/user/user.service.ts:33-50 | An edit changes only name and phone, and is idempotent. |
| UserService.ReplaceUserKeepsValid | src/user/user.service.ts:33-50 | Replacing a user row with the same e-mail and code keeps both unique. |
| UserService.EditUser | src/user/user.service.ts:33-50 | Patches the user and returns the public view, or BadRequest with nothing changed. |
| UserService.AddAddress | src/user/user.service.ts:52-64 | Stores the address under the user. A malformed user id gives BadRequest. |
| UserService.GetAddress | src/user/user.service.ts:66-79 | Returns the address exactly when the user owns it, otherwise Unauthorized. Malformed ids give BadRequest. |
| UserService.PatchAddressFacts | src/user/user.service.ts:81-107 | An address edit keeps the owner, an empty edit changes nothing, and edits are idempotent. |
| UserService.EditAddress | src/user/user.service.ts:81-107 | Only the owner may edit ("Access to resources denied"). Malformed id gives BadRequest; nothing changes on error. |
| UserService.DeleteAddress | src/user/user.service.ts:109-132 | Only the owner may delete. The address disappears and nothing else changes. |
| AuthService.UniqueOwner | src/auth/auth.service.ts:289-325 | An e-mail or a pending code identifies at most one user. |
| AuthService.PutUserKeepsValid | src/auth/auth.service.ts:40-93 | Writing a user with an unused e-mail and code keeps e-mails and codes unique. |
| AuthService.Signup | src/auth/auth.service.ts:40-93 | A taken e-mail or code gives "Credentials taken". Otherwise it creates an unverified user with the hashed password and a pending code, and returns the user and a token. |
| AuthService.Signin | src/auth/auth.service.ts:95-114 | Succeeds exactly when the e-mail exists and the password verifies, returning that user's token. Otherwise "Credentials invalid". |
| AuthService.VerifyAccount | src/auth/auth.service.ts:116-150 | Succeeds exactly when the user's pending code matches, then marks the user verified and clears the code. |
| AuthService.UpdateEmailReq | src/auth/auth.service.ts:173-222 | A missing user or a pending code gives BadRequest, and an e-mail or code taken by another gives "Credentials taken". Otherwise it sets the new e-mail, unverified, with a new code. |
| AuthService.UpdatePassword | src/auth/auth.service.ts:224-245 | Replaces the hash only when the old password verifies. |
| AuthService.ForgotPasswordReq | src/auth/auth.service.ts:247-287 | Unknown e-mail, an existing code or a taken code give BadRequest. Otherwise it stores a new code for that user. |
| AuthService.ForgotPasswordVerify | src/auth/auth.service.ts:289-325 | An unknown code gives Unauthorized. Otherwise that code's owner gets the new hash, the code is cleared, and a token is issued. |
| AuthService.ResendVerification | src/auth/auth.service.ts:327-356 | Succeeds exactly when a user with that e-mail has a pending code and the mail was delivered. |
| AuthService.SignupVerifySignin | src/auth/auth.service.ts:40-150 | After sign-up and verification with the sent code, the user is verified and can sign in. |
| AuthService.ResetPassword | src/auth/auth.service.ts:247-325 | After the forgotten-password flow the new password signs in and the old one no longer does. |
| AuthService.ChangeEmail | src/auth/auth.service.ts:173-222 | After an e-mail change the user is unverified with a pending code, the new e-mail signs in, and the old one fails. |

## Left out

- The database behaviours below are modelled as assumptions; the schema is not part of this model.
  - Prisma's unique indexes on names, e-mails and codes are taken as given, so a duplicate becomes the P2002 error the code catches.
  - A nested `token.create` for a user who already holds a token is taken to fail (one-to-one relation), so it surfaces as BadRequest.
  - `orderBy views` is modelled as a stable sort of storage order.
  - An unknown cursor is modelled as giving an empty page.
- The pending code is embedded in the user row (`token: Option<string>`) instead of a separate table with a one-to-one relation.
- Negative `take` (backwards pagination) is left out: `take` is a natural number.
- Case mapping is ASCII only: `toLowerCase`/`toUpperCase` outside ASCII are not modelled.
- Prices are integers. Floating-point prices and the rounding of non-integer sums are not modelled.
- Argon2 hashing and verification are modelled as an ideal hash: `Verify` checks the password the digest was made from.
- JWT signing is a pure function of the user id and e-mail.
- Mail sending, the random six-digit code and the salt are parameters.
- `sendConfirmedEmail` and `sendConfirmationEmail` are not modelled.
- Image upload, Cloudinary, the controllers, guards and DTO validation are not modelled. Inputs are taken as already validated.
- Product comments, which `getProduct` includes, are not modelled. Neither are the cart, order and comment services.
- CategoryService.CreateCategory, CategoryService.AddSubCategory and BrandService.AddBrand: errors other than P2002 are rethrown; those unknown database failures are not modelled.
- CategoryService.AddSubCategory does not check that the parent category exists. The code stores the given id without a check, although the system's design description requires an existing parent; the model follows the code.
- UserService.AddAddress: a user id that is well formed but unknown is accepted, as in the code.
- BrandService.AddBrand requires a fresh brand id, because the database generates ids and the model takes them as a parameter. CategoryService.CreateCategory, CategoryService.AddSubCategory, ProductService.AddProduct (its variant ids) and ProductService.AddProductVariation require fresh ids for the same reason.
- ProductService.SearchProduct: the `sortbyViews` direction is ignored by the in-memory re-sort (always views descending), as in the code.
- ProductService.UpdateProduct: Prisma's `P2025` error on an unknown variant or product is modelled only as its resulting BadRequest.
