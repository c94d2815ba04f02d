/**
 * Products: the closed set of categories, the stored document, the request
 * payloads with the validation their tags ask for, and the response shape
 * with its image-URL rewriting (internal/models/product.go).
 */
module ProductModel {
  import opened Wrappers
  import opened Text
  import opened Times
  import opened Floats
  import opened ObjectIds
  import opened Validation

  /** `GetValidCategories`: the ten categories, in their fixed order. */
  function ValidCategories(): (cs: seq<string>)
    ensures |cs| == 10
    ensures cs[0] == "electronics" && cs[9] == "other"
    ensures forall i, j :: 0 <= i < j < |cs| ==> cs[i] != cs[j]
  {
    ["electronics", "clothing", "books", "home", "sports",
     "beauty", "toys", "automotive", "food", "other"]
  }

  /** `IsValidCategory`: an exact, case-sensitive match with one of the categories. */
  predicate IsValidCategory(category: string) {
    category in ValidCategories()
  }

  /** The ten accepted spellings, and nothing else. */
  lemma ValidCategoryCases(category: string)
    ensures IsValidCategory(category) <==>
      category == "electronics" || category == "clothing" || category == "books" ||
      category == "home" || category == "sports" || category == "beauty" ||
      category == "toys" || category == "automotive" || category == "food" ||
      category == "other"
  {
  }

  /** The match is case-sensitive and the empty string is not a category. */
  lemma CategoryCaseSensitive()
    ensures IsValidCategory("books") && !IsValidCategory("Books") && !IsValidCategory("BOOKS")
    ensures !IsValidCategory("")
  {
    assert ValidCategories()[2] == "books";
  }

  /** A stored product. */
  datatype Product = Product(
    id: ObjectId,
    name: string,
    price: Float64,
    category: string,
    imageUrl: string,
    description: string,
    specification: string,
    material: string,
    inStock: bool,
    createdBy: ObjectId,
    createdAt: Instant,
    updatedAt: Instant)

  /**
   * What the database keeps of a product written from memory: every field,
   * with its times cut to the millisecond of a BSON datetime.
   */
  function StoredProduct(p: Product): Product {
    p.(createdAt := BsonTime(p.createdAt), updatedAt := BsonTime(p.updatedAt))
  }

  /** A product read back from the database is stored again unchanged. */
  lemma StoredProductStable(p: Product)
    ensures StoredProduct(StoredProduct(p)) == StoredProduct(p)
  {
    BsonTimeIdempotent(p.createdAt);
    BsonTimeIdempotent(p.updatedAt);
  }

  /** `CreateProductRequest`, as decoded from the JSON body. */
  datatype CreateProductRequest = CreateProductRequest(
    name: string,
    price: Float64,
    category: string,
    description: string,
    specification: string,
    material: string,
    inStock: bool)

  /** `UpdateProductRequest`: every field optional (a nil pointer when absent). */
  datatype UpdateProductRequest = UpdateProductRequest(
    name: Option<string>,
    price: Option<Float64>,
    category: Option<string>,
    description: Option<string>,
    specification: Option<string>,
    material: Option<string>,
    inStock: Option<bool>)

  /** `ProductResponse`: no `CreatedBy`, the ID as hexadecimal text. */
  datatype ProductResponse = ProductResponse(
    id: string,
    name: string,
    price: Float64,
    category: string,
    imageUrl: string,
    description: string,
    specification: string,
    material: string,
    inStock: bool,
    createdAt: Instant,
    updatedAt: Instant)

  /** `ProductListResponse`. */
  datatype ProductListResponse = ProductListResponse(
    products: seq<ProductResponse>, total: int, page: int, limit: int)

  /** An image URL that already names its scheme. */
  predicate IsAbsoluteUrl(url: string) {
    HasPrefix(url, "http://") || HasPrefix(url, "https://")
  }

  /** The URL with one leading '/' removed, if it has one. */
  function WithoutLeadingSlash(url: string): string {
    if HasPrefix(url, "/") then url[1..] else url
  }

  /**
   * The image-URL rewriting of `ToResponseWithBaseURL`: a relative path is
   * joined to the base URL with exactly one '/' between them; an empty base,
   * an empty path or an absolute URL is left alone.
   */
  function ResolveImageUrl(baseUrl: string, imageUrl: string): (r: string)
    ensures baseUrl == "" || imageUrl == "" || IsAbsoluteUrl(imageUrl) ==> r == imageUrl
    ensures baseUrl != "" && imageUrl != "" && !IsAbsoluteUrl(imageUrl) ==>
      r == baseUrl + "/" + WithoutLeadingSlash(imageUrl)
  {
    if baseUrl != "" && imageUrl != "" && !IsAbsoluteUrl(imageUrl) then
      if HasPrefix(imageUrl, "/") then
        assert imageUrl == "/" + imageUrl[1..];
        baseUrl + imageUrl
      else baseUrl + "/" + imageUrl
    else imageUrl
  }

  /** A rewritten URL starts with the base URL; otherwise it is the stored one. */
  lemma ResolvedStartsWithBase(baseUrl: string, imageUrl: string)
    ensures var r := ResolveImageUrl(baseUrl, imageUrl);
      r == imageUrl || HasPrefix(r, baseUrl)
  {
    var r := ResolveImageUrl(baseUrl, imageUrl);
    if r != imageUrl {
      assert r[..|baseUrl|] == baseUrl;
    }
  }

  /**
   * Rewriting is idempotent when the base URL names its scheme (as every URL
   * `getBaseURL` builds does): the rewritten URL is absolute and is left alone.
   */
  lemma ResolveIdempotent(baseUrl: string, imageUrl: string)
    requires IsAbsoluteUrl(baseUrl)
    ensures ResolveImageUrl(baseUrl, ResolveImageUrl(baseUrl, imageUrl)) == ResolveImageUrl(baseUrl, imageUrl)
  {
    var r := ResolveImageUrl(baseUrl, imageUrl);
    if r != imageUrl {
      var rest := r[|baseUrl|..];
      assert r == baseUrl + rest;
      if HasPrefix(baseUrl, "http://") {
        PrefixOfConcat(baseUrl, rest, "http://");
      } else {
        PrefixOfConcat(baseUrl, rest, "https://");
      }
    }
  }

  /** `ToResponseWithBaseURL`. */
  function ToResponseWithBaseUrl(p: Product, baseUrl: string): ProductResponse {
    ProductResponse(
      Hex(p.id), p.name, p.price, p.category, ResolveImageUrl(baseUrl, p.imageUrl),
      p.description, p.specification, p.material, p.inStock, p.createdAt, p.updatedAt)
  }

  /** `ToResponse`, which is `ToResponseWithBaseURL("")`. */
  function ToResponse(p: Product): ProductResponse {
    ToResponseWithBaseUrl(p, "")
  }

  /**
   * Whatever the base URL, the image URL is the stored one rewritten against
   * it (unchanged without a base) and every other field but the creator is
   * copied, the ID as its hexadecimal form.
   */
  lemma ToResponseCopies(p: Product, baseUrl: string)
    ensures var r := ToResponseWithBaseUrl(p, baseUrl);
      r.imageUrl == ResolveImageUrl(baseUrl, p.imageUrl) &&
      (baseUrl == "" ==> r.imageUrl == p.imageUrl) && FromHex(r.id) == Some(p.id) &&
      r.name == p.name && r.price == p.price && r.category == p.category &&
      r.description == p.description && r.specification == p.specification &&
      r.material == p.material && r.inStock == p.inStock &&
      r.createdAt == p.createdAt && r.updatedAt == p.updatedAt
  {
    FromHexOfHex(p.id);
  }

  /** The response does not depend on who created the product. */
  lemma ResponseHidesCreator(p: Product, creator: ObjectId, baseUrl: string)
    ensures ToResponseWithBaseUrl(p.(createdBy := creator), baseUrl) == ToResponseWithBaseUrl(p, baseUrl)
  {
  }

  /** Two products with different IDs never give the same response. */
  lemma ResponseIdentifiesProduct(p: Product, q: Product, baseUrl: string)
    requires ToResponseWithBaseUrl(p, baseUrl) == ToResponseWithBaseUrl(q, baseUrl)
    ensures p.id == q.id
  {
    HexInjective(p.id, q.id);
  }

  /** The price tags `required,gt=0`: the first one the price fails. */
  function PriceFailure(price: Float64): (t: Option<string>)
    ensures t == None <==> GreaterThanZero(price)
  {
    if IsZero(price) then Some("required")
    else if !GreaterThanZero(price) then Some("gt")
    else None
  }

  /** `validator.Struct` on a `CreateProductRequest`: its field errors in field order. */
  function CreateViolations(req: CreateProductRequest): seq<FieldError> {
    Check("CreateProductRequest", "Name", StringTagFailure(req.name, true, 2, 100))
    + Check("CreateProductRequest", "Price", PriceFailure(req.price))
    + Check("CreateProductRequest", "Category", if req.category == "" then Some("required") else None)
    + Check("CreateProductRequest", "Description", StringTagFailure(req.description, true, 10, 1000))
  }

  /** What a create request must satisfy to pass validation. */
  predicate CreateRequestValid(req: CreateProductRequest) {
    2 <= |req.name| <= 100 && GreaterThanZero(req.price) && req.category != ""
    && 10 <= |req.description| <= 1000
  }

  lemma CreateViolationsEmpty(req: CreateProductRequest)
    ensures CreateViolations(req) == [] <==> CreateRequestValid(req)
  {
  }

  /**
   * `validator.Struct` on an `UpdateProductRequest`: absent fields are skipped
   * (`omitempty` on a nil pointer); a supplied one is checked even when it
   * holds the zero value.
   */
  function UpdateViolations(req: UpdateProductRequest): seq<FieldError> {
    (if req.name.Some? then
       Check("UpdateProductRequest", "Name", StringTagFailure(req.name.value, false, 2, 100))
     else [])
    + (if req.price.Some? && !GreaterThanZero(req.price.value) then
         [FieldError("UpdateProductRequest", "Price", "gt")]
       else [])
    + (if req.description.Some? then
         Check("UpdateProductRequest", "Description", StringTagFailure(req.description.value, false, 10, 1000))
       else [])
  }

  /** What an update request must satisfy to pass validation. */
  predicate UpdateRequestValid(req: UpdateProductRequest) {
    (req.name.Some? ==> 2 <= |req.name.value| <= 100)
    && (req.price.Some? ==> GreaterThanZero(req.price.value))
    && (req.description.Some? ==> 10 <= |req.description.value| <= 1000)
  }

  lemma UpdateViolationsEmpty(req: UpdateProductRequest)
    ensures UpdateViolations(req) == [] <==> UpdateRequestValid(req)
  {
  }
}
