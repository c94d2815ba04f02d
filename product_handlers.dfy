/**
 * The product endpoints (internal/handlers/product.go) over an in-memory
 * products collection, together with the helpers the slider endpoints share:
 * the request's base URL and the checks on an uploaded image.
 */
module ProductHandlers {
  import opened Wrappers
  import opened Text
  import opened Times
  import opened Floats
  import opened Strconv
  import opened ObjectIds
  import opened Bson
  import opened Validation
  import opened Collections
  import opened Http
  import opened ProductModel

  // ---------------------------------------------------------------------
  // getBaseURL
  // ---------------------------------------------------------------------

  /** The host `getBaseURL` settles on: the forwarded host, else the request host, else a fallback. */
  function BaseHost(req: RequestInfo): (host: string)
    ensures host != ""
  {
    if req.forwardedHost != "" then req.forwardedHost
    else if req.host != "" then req.host
    else "localhost:8080"
  }

  /** `getBaseURL`: "scheme://host". */
  function BaseUrl(req: RequestInfo): (url: string)
    ensures IsAbsoluteUrl(url)
    ensures HasPrefix(url, "https://") <==> req.forwardedProto == "https" || req.tls
    ensures var prefix := if req.forwardedProto == "https" || req.tls then "https://" else "http://";
      HasPrefix(url, prefix) && url[|prefix|..] == BaseHost(req)
  {
    var scheme := if req.forwardedProto == "https" || req.tls then "https" else "http";
    var url := scheme + "://" + BaseHost(req);
    var prefix := scheme + "://";
    assert url == prefix + BaseHost(req);
    assert url[..|prefix|] == prefix;
    assert url[|prefix|..] == BaseHost(req);
    assert scheme == "http" ==> url[4] == ':';
    url
  }

  /** Image URLs resolved against a request's base URL are not rewritten a second time. */
  lemma ResolveAgainstRequestIdempotent(req: RequestInfo, imageUrl: string)
    ensures var base := BaseUrl(req);
      ResolveImageUrl(base, ResolveImageUrl(base, imageUrl)) == ResolveImageUrl(base, imageUrl)
  {
    ResolveIdempotent(BaseUrl(req), imageUrl);
  }

  // ---------------------------------------------------------------------
  // Uploaded images
  // ---------------------------------------------------------------------

  const ImageExtensions: seq<string> := [".jpg", ".jpeg", ".png", ".gif"]

  /** `isValidImageType`: the lower-cased extension is one of the four accepted ones. */
  predicate IsValidImageType(filename: string) {
    ToLower(Ext(filename)) in ImageExtensions
  }

  /** A name ending in an extension is judged by that extension alone, case-insensitively. */
  lemma ImageTypeByExtension(stem: string, ext: string)
    requires |ext| >= 1 && ext[0] == '.' && PlainSegment(ext[1..])
    ensures IsValidImageType(stem + ext) <==> ToLower(ext) in ImageExtensions
  {
    ExtOfSuffix(stem, ext);
  }

  /** A name whose final path element has no dot is rejected. */
  lemma NoExtensionRejected(dir: string, tail: string)
    requires PlainSegment(tail)
    requires dir == [] || dir[|dir| - 1] == '/'
    ensures !IsValidImageType(dir + tail)
  {
    ExtOfPlainTail(dir, tail);
  }

  /**
   * Letter case in the extension does not matter: a name is accepted exactly
   * when its lower-cased spelling is.
   */
  lemma ImageTypeIgnoresCase(stem: string, ext: string)
    requires |ext| >= 1 && ext[0] == '.' && PlainSegment(ext[1..])
    ensures IsValidImageType(stem + ext) <==> IsValidImageType(stem + ToLower(ext))
  {
    ToLowerKeepsExtensionShape(ext);
    ExtOfSuffix(stem, ext);
    ExtOfSuffix(stem, ToLower(ext));
    ToLowerIdempotent(ext);
  }

  /** An upper-case extension passes. */
  lemma ImageTypeUpperCase(stem: string)
    ensures IsValidImageType(stem + ".JPG")
  {
    ImageTypeByExtension(stem, ".JPG");
    assert ToLower(".JPG") == ".jpg";
  }

  /**
   * The check agrees with one made with any lower-casing that agrees with
   * LowerChar wherever either gives ASCII, `unicode.ToLower` among them: the
   * accepted extensions are ASCII, so no other character can matter.
   */
  lemma ImageTypeUnderAnyLowering(filename: string, lower: char -> char)
    requires AgreesOnAscii(lower)
    ensures MapChars(Ext(filename), lower) in ImageExtensions <==> IsValidImageType(filename)
  {
    ImageExtensionsAreAscii();
    LoweringAgreesOnAsciiMembership(Ext(filename), lower, ImageExtensions);
  }

  lemma ImageExtensionsAreAscii()
    ensures forall i, k :: 0 <= i < |ImageExtensions| && 0 <= k < |ImageExtensions[i]| ==> IsAscii(ImageExtensions[i][k])
  {
  }

  /** A capital I with a dot above lowers to 'i', so ".G\u0130F" passes as Go lowers it to ".gif". */
  lemma ImageTypeFoldsDottedCapitalI(stem: string)
    ensures IsValidImageType(stem + ".G\U{0130}F")
  {
    ImageTypeByExtension(stem, ".G\U{0130}F");
    assert ToLower(".G\U{0130}F") == ".gif";
  }

  /** An unknown extension fails. */
  lemma ImageTypeRejectsUnknown(stem: string)
    ensures !IsValidImageType(stem + ".bmp")
  {
    ImageTypeByExtension(stem, ".bmp");
    assert ToLower(".bmp") == ".bmp";
  }

  /** An accepted extension followed by another one fails: only the last extension counts. */
  lemma ImageTypeRejectsDoubleExtension(stem: string)
    ensures !IsValidImageType(stem + ".jpg.exe")
  {
    assert stem + ".jpg.exe" == (stem + ".jpg") + ".exe";
    ImageTypeByExtension(stem + ".jpg", ".exe");
    assert ToLower(".exe") == ".exe";
  }

  /** 5 MiB. */
  const MaxImageSize: int := 5 * 1024 * 1024

  const NoImageMessage: string := "No image file provided"
  const InvalidFormatMessage: string := "Invalid image format. Only JPG, JPEG, PNG, and GIF are allowed"
  const TooLargeMessage: string := "Image size too large. Maximum 5MB allowed"

  /**
   * The three checks every image upload makes, in order: a file is present,
   * its type is accepted, it is at most 5 MiB. The error text of the first
   * failing check, or None.
   */
  function UploadError(upload: Option<Upload>): (err: Option<string>)
    ensures err.None? <==>
      upload.Some? && IsValidImageType(upload.value.filename) && upload.value.size <= MaxImageSize
    ensures upload.None? ==> err == Some(NoImageMessage)
    ensures upload.Some? && !IsValidImageType(upload.value.filename) ==> err == Some(InvalidFormatMessage)
  {
    if upload.None? then Some(NoImageMessage)
    else if !IsValidImageType(upload.value.filename) then Some(InvalidFormatMessage)
    else if upload.value.size > MaxImageSize then Some(TooLargeMessage)
    else None
  }

  /** The size limit is inclusive: exactly 5 MiB passes, one byte more does not. */
  lemma SizeLimitBoundary(stem: string)
    ensures UploadError(Some(Upload(stem + ".png", 5 * 1024 * 1024))) == None
    ensures UploadError(Some(Upload(stem + ".png", 5 * 1024 * 1024 + 1))) == Some(TooLargeMessage)
  {
    ImageTypeByExtension(stem, ".png");
    assert ToLower(".png") == ".png";
  }

  /**
   * An accepted file name has a non-empty extension: a '.' followed by
   * neither dots nor separators.
   */
  lemma ValidImageHasExtension(filename: string)
    requires IsValidImageType(filename)
    ensures var e := Ext(filename); |e| >= 2 && e[0] == '.' && PlainSegment(e[1..])
  {
  }

  /**
   * The stored image path of an uploaded product image:
   * "/uploads/products/<id>_<unix seconds><extension>".
   */
  function ProductImageUrl(idParam: string, now: Instant, filename: string): string {
    "/uploads/products/" + idParam + "_" + FormatInt(UnixSeconds(now)) + Ext(filename)
  }

  /**
   * The stored path lies under "/uploads/products/" and keeps the uploaded
   * file's extension, so it is itself an accepted image name.
   */
  lemma ProductImageUrlShape(idParam: string, now: Instant, filename: string)
    requires IsValidImageType(filename)
    ensures var url := ProductImageUrl(idParam, now, filename);
      HasPrefix(url, "/uploads/products/") && Ext(url) == Ext(filename) && IsValidImageType(url)
  {
    var url := ProductImageUrl(idParam, now, filename);
    var e := Ext(filename);
    var stem := "/uploads/products/" + idParam + "_" + FormatInt(UnixSeconds(now));
    assert url == stem + e;
    ValidImageHasExtension(filename);
    ExtOfSuffix(stem, e);
    ProductImageUrlPrefix(idParam, now, filename);
  }

  /** Whatever the ID and file name, the stored path lies under "/uploads/products/". */
  lemma ProductImageUrlPrefix(idParam: string, now: Instant, filename: string)
    ensures HasPrefix(ProductImageUrl(idParam, now, filename), "/uploads/products/")
  {
    var dir := "/uploads/products/";
    assert HasPrefix(dir, dir);
    PrefixOfConcat(dir, idParam, dir);
    PrefixOfConcat(dir + idParam, "_", dir);
    PrefixOfConcat(dir + idParam + "_", FormatInt(UnixSeconds(now)), dir);
    PrefixOfConcat(dir + idParam + "_" + FormatInt(UnixSeconds(now)), Ext(filename), dir);
  }

  // ---------------------------------------------------------------------
  // Pagination
  // ---------------------------------------------------------------------

  /**
   * The page and limit `GetProducts` settles on, from the raw `page` and
   * `limit` query values (None when absent, which reads as "1" and "10").
   * An unparsable page reads as 0 and becomes 1; a limit outside 1..100
   * becomes 10.
   */
  method Paginate(pageParam: Option<string>, limitParam: Option<string>) returns (page: int, limit: int)
    ensures 1 <= page <= MaxInt64 && 1 <= limit <= 100
    ensures var p := Atoi(pageParam.GetOr("1")).value;
      (p >= 1 ==> page == p) && (p < 1 ==> page == 1)
    ensures var l := Atoi(limitParam.GetOr("10")).value;
      (1 <= l <= 100 ==> limit == l) && (l < 1 || l > 100 ==> limit == 10)
  {
    AtoiBounds(pageParam.GetOr("1"));
    page := Atoi(pageParam.GetOr("1")).value;
    limit := Atoi(limitParam.GetOr("10")).value;
    if page < 1 {
      page := 1;
    }
    if limit < 1 || limit > 100 {
      limit := 10;
    }
  }

  /** Go's `int` multiplication result: the product reduced into the signed 64-bit range. */
  function WrapInt64(x: int): (r: int)
    ensures MinInt64 <= r <= MaxInt64
    ensures (r - x) % (MaxUint64 + 1) == 0
  {
    (x - MinInt64) % (MaxUint64 + 1) + MinInt64
  }

  /** The skip `GetProducts` computes, `(page - 1) * limit` in 64-bit arithmetic. */
  function SkipAsWritten(page: int, limit: int): int {
    WrapInt64((page - 1) * limit)
  }

  /**
   * The page query "100000000000000000" parses without error and passes the
   * clamp, yet with limit 100 the 64-bit skip wraps to a negative number.
   */
  lemma SkipAsWrittenGoesNegative()
    ensures Atoi(FormatInt(100_000_000_000_000_000)) == Parsed(100_000_000_000_000_000, None)
    ensures SkipAsWritten(100_000_000_000_000_000, 100) < 0
  {
    AtoiFormat(100_000_000_000_000_000);
    assert (100_000_000_000_000_000 - 1) * 100 == 9_999_999_999_999_999_900;
    assert (9_999_999_999_999_999_900 - MinInt64) % (MaxUint64 + 1) == 776_627_963_145_224_092;
  }

  /** The number of products on the pages before `page`, without a width limit. */
  function Skip(page: int, limit: int): nat
    requires page >= 1 && limit >= 1
  {
    (page - 1) * limit
  }

  /** Where the product fits in 64 bits the two computations agree. */
  lemma SkipAgreesWhenInRange(page: int, limit: int)
    requires page >= 1 && limit >= 1 && (page - 1) * limit <= MaxInt64
    ensures SkipAsWritten(page, limit) == Skip(page, limit)
  {
  }

  /**
   * Consecutive pages are adjacent and do not overlap: page `page` followed
   * by page `page + 1` is the window of twice the limit.
   */
  lemma {:induction false} ConsecutivePages<T>(s: seq<T>, page: int, limit: int)
    requires page >= 1 && limit >= 1
    ensures Window(s, Skip(page, limit), limit) + Window(s, Skip(page + 1, limit), limit)
         == Window(s, Skip(page, limit), 2 * limit)
  {
    var a := Window(s, Skip(page, limit), limit);
    var b := Window(s, Skip(page + 1, limit), limit);
    var w := Window(s, Skip(page, limit), 2 * limit);
    assert Skip(page + 1, limit) == Skip(page, limit) + limit;
    assert |a + b| == |w|;
    forall k | 0 <= k < |w|
      ensures (a + b)[k] == w[k]
    {
      if k >= |a| {
        assert k - |a| < |b|;
      }
    }
  }

  // ---------------------------------------------------------------------
  // Filters and $set documents
  // ---------------------------------------------------------------------

  /** A product read as the BSON document it is stored as. */
  function ProductField(p: Product, key: string): Option<Value> {
    match key
    case "_id" => Some(Oid(p.id))
    case "name" => Some(Str(p.name))
    case "price" => Some(Double(p.price))
    case "category" => Some(Str(p.category))
    case "image_url" => Some(Str(p.imageUrl))
    case "description" => Some(Str(p.description))
    case "specification" => Some(Str(p.specification))
    case "material" => Some(Str(p.material))
    case "in_stock" => Some(Bool(p.inStock))
    case "created_by" => Some(Oid(p.createdBy))
    case "created_at" => Some(Date(p.createdAt))
    case "updated_at" => Some(Date(p.updatedAt))
    case _ => None
  }

  /** An equality filter matches a product holding every field it names, with that value. */
  predicate Matches(p: Product, filter: Document) {
    forall k :: k in filter ==> ProductField(p, k) == Some(filter[k])
  }

  /** What the `category` and `in_stock` query values select, stated on products. */
  predicate Selects(category: string, inStock: string, p: Product) {
    (IsValidCategory(category) ==> p.category == category)
    && (inStock == "true" ==> p.inStock)
    && (inStock == "false" ==> !p.inStock)
  }

  /**
   * The filter `GetProducts` builds: a category condition only for a valid
   * category, an `in_stock` condition only for exactly "true" or "false".
   */
  method BuildFilter(category: string, inStock: string) returns (filter: Document)
    ensures "category" in filter <==> IsValidCategory(category)
    ensures "in_stock" in filter <==> inStock == "true" || inStock == "false"
    ensures forall k :: k in filter ==> k == "category" || k == "in_stock"
    ensures forall p :: Matches(p, filter) <==> Selects(category, inStock, p)
  {
    filter := map[];
    if category != "" && IsValidCategory(category) {
      filter := filter["category" := Str(category)];
    }
    if inStock != "" {
      if inStock == "true" {
        filter := filter["in_stock" := Bool(true)];
      } else if inStock == "false" {
        filter := filter["in_stock" := Bool(false)];
      }
    }
    forall p: Product
      ensures Matches(p, filter) <==> Selects(category, inStock, p)
    {
      if Matches(p, filter) {
        if "category" in filter {
          assert ProductField(p, "category") == Some(filter["category"]);
        }
        if "in_stock" in filter {
          assert ProductField(p, "in_stock") == Some(filter["in_stock"]);
        }
      }
    }
  }

  /** The fields a `$set` on a product may carry, each with the type it is stored as. */
  predicate Settable(key: string, v: Value) {
    match key
    case "name" => v.Str?
    case "category" => v.Str?
    case "image_url" => v.Str?
    case "description" => v.Str?
    case "specification" => v.Str?
    case "material" => v.Str?
    case "price" => v.Double?
    case "in_stock" => v.Bool?
    case "updated_at" => v.Date?
    case _ => false
  }

  function SetString(doc: Document, key: string, current: string): string {
    if key in doc && doc[key].Str? then doc[key].s else current
  }

  /** A `$set` applied to a stored product: each field it names takes its value. */
  function ApplySet(p: Product, doc: Document): Product {
    p.(name := SetString(doc, "name", p.name),
       price := if "price" in doc && doc["price"].Double? then doc["price"].f else p.price,
       category := SetString(doc, "category", p.category),
       imageUrl := SetString(doc, "image_url", p.imageUrl),
       description := SetString(doc, "description", p.description),
       specification := SetString(doc, "specification", p.specification),
       material := SetString(doc, "material", p.material),
       inStock := if "in_stock" in doc && doc["in_stock"].Bool? then doc["in_stock"].b else p.inStock,
       updatedAt := if "updated_at" in doc && doc["updated_at"].Date? then doc["updated_at"].t else p.updatedAt)
  }

  /**
   * `$set` semantics: every field of a well-typed `$set` reads back as the
   * value it sets, and every field it does not name reads as before.
   */
  lemma ApplySetReadsBack(p: Product, doc: Document)
    requires forall k :: k in doc ==> Settable(k, doc[k])
    ensures forall k :: k in doc ==> ProductField(ApplySet(p, doc), k) == Some(doc[k])
    ensures forall k :: k !in doc ==> ProductField(ApplySet(p, doc), k) == ProductField(p, k)
  {
    var q := ApplySet(p, doc);
    forall k | k in doc
      ensures ProductField(q, k) == Some(doc[k])
    {
      assert Settable(k, doc[k]);
    }
  }

  /** The fields an update document may name. */
  const UpdateKeys: set<string> :=
    {"updated_at", "name", "price", "category", "description", "specification", "material", "in_stock"}

  /** The text fields that follow the category in an update. */
  const DetailKeys: set<string> := {"description", "specification", "material", "in_stock"}

  /** `updated_at`, name, price and category set as the request says. */
  predicate SetsLeading(doc: Document, req: UpdateProductRequest, now: Instant) {
    "updated_at" in doc && doc["updated_at"] == Date(BsonTime(now))
    && ("name" in doc <==> req.name.Some?)
    && (req.name.Some? ==> doc["name"] == Str(req.name.value))
    && ("price" in doc <==> req.price.Some?)
    && (req.price.Some? ==> doc["price"] == Double(req.price.value))
    && ("category" in doc <==> req.category.Some?)
    && (req.category.Some? ==> doc["category"] == Str(req.category.value))
  }

  /** Description, specification, material and stock set as the request says. */
  predicate SetsDetails(doc: Document, req: UpdateProductRequest) {
    ("description" in doc <==> req.description.Some?)
    && (req.description.Some? ==> doc["description"] == Str(req.description.value))
    && ("specification" in doc <==> req.specification.Some?)
    && (req.specification.Some? ==> doc["specification"] == Str(req.specification.value))
    && ("material" in doc <==> req.material.Some?)
    && (req.material.Some? ==> doc["material"] == Str(req.material.value))
    && ("in_stock" in doc <==> req.inStock.Some?)
    && (req.inStock.Some? ==> doc["in_stock"] == Bool(req.inStock.value))
  }

  /** A `$set` that sets `updated_at` to `now` (as a BSON datetime) and exactly the supplied fields, to their values. */
  predicate SetsSupplied(doc: Document, req: UpdateProductRequest, now: Instant) {
    doc.Keys <= UpdateKeys && SetsLeading(doc, req, now) && SetsDetails(doc, req)
  }

  /** Setting a detail field leaves the leading fields as they were. */
  lemma DetailKeepsLeading(doc: Document, req: UpdateProductRequest, now: Instant, key: string, v: Value)
    requires SetsLeading(doc, req, now) && key in DetailKeys
    ensures SetsLeading(doc[key := v], req, now)
  {
  }

  /**
   * The `$set` of `UpdateProduct`, built field by field; a supplied category
   * outside the closed set stops the build with "Invalid category".
   */
  method BuildUpdate(req: UpdateProductRequest, now: Instant) returns (r: Result<Document, string>)
    ensures if req.category.Some? && !IsValidCategory(req.category.value) then r == Failure("Invalid category")
            else r.Success? && SetsSupplied(r.value, req, now)
  {
    var doc: Document := map["updated_at" := Date(BsonTime(now))];
    if req.name.Some? {
      doc := doc["name" := Str(req.name.value)];
    }
    if req.price.Some? {
      doc := doc["price" := Double(req.price.value)];
    }
    if req.category.Some? {
      if !IsValidCategory(req.category.value) {
        return Failure("Invalid category");
      }
      doc := doc["category" := Str(req.category.value)];
    }
    assert SetsLeading(doc, req, now) && doc.Keys <= UpdateKeys - DetailKeys;
    if req.description.Some? {
      DetailKeepsLeading(doc, req, now, "description", Str(req.description.value));
      doc := doc["description" := Str(req.description.value)];
    }
    if req.specification.Some? {
      DetailKeepsLeading(doc, req, now, "specification", Str(req.specification.value));
      doc := doc["specification" := Str(req.specification.value)];
    }
    if req.material.Some? {
      DetailKeepsLeading(doc, req, now, "material", Str(req.material.value));
      doc := doc["material" := Str(req.material.value)];
    }
    if req.inStock.Some? {
      DetailKeepsLeading(doc, req, now, "in_stock", Bool(req.inStock.value));
      doc := doc["in_stock" := Bool(req.inStock.value)];
    }
    assert doc.Keys <= UpdateKeys;
    r := Success(doc);
  }

  /** A product after an update request: supplied fields replaced, `updated_at` set to `now` to the millisecond. */
  function Updated(p: Product, req: UpdateProductRequest, now: Instant): Product {
    p.(name := req.name.GetOr(p.name),
       price := req.price.GetOr(p.price),
       category := req.category.GetOr(p.category),
       description := req.description.GetOr(p.description),
       specification := req.specification.GetOr(p.specification),
       material := req.material.GetOr(p.material),
       inStock := req.inStock.GetOr(p.inStock),
       updatedAt := BsonTime(now))
  }

  /**
   * Applying the update document changes exactly the supplied fields and
   * `updated_at`; the ID, image, creator and creation time never change.
   */
  lemma UpdateChangesOnlySupplied(p: Product, doc: Document, req: UpdateProductRequest, now: Instant)
    requires SetsSupplied(doc, req, now)
    ensures ApplySet(p, doc) == Updated(p, req, now)
    ensures var q := ApplySet(p, doc);
      q.id == p.id && q.imageUrl == p.imageUrl && q.createdBy == p.createdBy && q.createdAt == p.createdAt
  {
  }

  /** The `$set` of an image upload. */
  function ImageUpdate(url: string, now: Instant): Document {
    map["image_url" := Str(url), "updated_at" := Date(BsonTime(now))]
  }

  /** The image `$set` changes the image URL and `updated_at`, and nothing else. */
  lemma ImageUpdateChanges(p: Product, url: string, now: Instant)
    ensures ApplySet(p, ImageUpdate(url, now)) == p.(imageUrl := url, updatedAt := BsonTime(now))
  {
    var doc := ImageUpdate(url, now);
    assert "name" !in doc && "price" !in doc && "category" !in doc && "description" !in doc;
    assert "specification" !in doc && "material" !in doc && "in_stock" !in doc;
  }

  // ---------------------------------------------------------------------
  // Responses
  // ---------------------------------------------------------------------

  /**
   * The response loop of `GetProducts`. The slider handlers have the same
   * loop over slides (SliderHandlers.ToSliderResponses), as the Go source does.
   */
  method ToResponses(ps: seq<Product>, baseUrl: string) returns (rs: seq<ProductResponse>)
    ensures |rs| == |ps|
    ensures forall k :: 0 <= k < |ps| ==> rs[k] == ToResponseWithBaseUrl(ps[k], baseUrl)
  {
    rs := [];
    var i := 0;
    while i < |ps|
      invariant 0 <= i <= |ps|
      invariant |rs| == i
      invariant forall k :: 0 <= k < i ==> rs[k] == ToResponseWithBaseUrl(ps[k], baseUrl)
    {
      rs := rs + [ToResponseWithBaseUrl(ps[i], baseUrl)];
      i := i + 1;
    }
  }

  /** The JSON bodies of successful product replies. */
  datatype ProductBody =
    | ProductCreated(message: string, product: ProductResponse)
    | ProductPage(list: ProductListResponse)
    | ProductFound(product: ProductResponse)
    | ProductUpdated(message: string, product: ProductResponse)
    | ProductDeleted(message: string)
    | ImageStored(message: string, imageUrl: string)
    | ImageAlreadySet(message: string, imageUrl: string, warning: string)
    | Categories(categories: seq<string>)

  /** `GetCategories`: the category list copied element by element into the reply. */
  method GetCategories() returns (reply: Reply<ProductBody>)
    ensures reply == Ok(StatusOK, Categories(ValidCategories()))
  {
    var categories := ValidCategories();
    var names: seq<string> := [];
    var i := 0;
    while i < |categories|
      invariant 0 <= i <= |categories|
      invariant names == categories[..i]
    {
      names := names + [categories[i]];
      i := i + 1;
    }
    assert categories[..|categories|] == categories;
    reply := Ok(StatusOK, Categories(names));
  }

  // ---------------------------------------------------------------------
  // The products collection
  // ---------------------------------------------------------------------

  /** A path the catalogue stores as an image URL: none yet, or an uploaded product image. */
  predicate IsStoredImageUrl(url: string) {
    url == "" || HasPrefix(url, "/uploads/products/")
  }

  /** The positions holding a product with this ID. */
  function IndexOfId(products: seq<Product>, id: ObjectId): Option<nat> {
    FirstIndex(products, (p: Product) => p.id == id)
  }

  /** The list a query selects: matching products, newest first (ties keep collection order). */
  function Listing(products: seq<Product>, category: string, inStock: string): seq<Product> {
    SortBy(Filter(products, (p: Product) => Selects(category, inStock, p)), (p: Product) => -p.createdAt)
  }

  /**
   * Products created in the same millisecond share a stored `created_at`;
   * among them the listing keeps the collection's order.
   */
  lemma ListingKeepsTies(products: seq<Product>, category: string, inStock: string, createdAt: Instant)
    ensures Filter(Listing(products, category, inStock), (p: Product) => p.createdAt == createdAt)
         == Filter(Filter(products, (p: Product) => Selects(category, inStock, p)), (p: Product) => p.createdAt == createdAt)
  {
    SortByStable(Filter(products, (p: Product) => Selects(category, inStock, p)), (p: Product) => -p.createdAt,
                 (p: Product) => p.createdAt == createdAt);
  }

  /** The product `CreateProduct` builds; it has no image yet. */
  function NewProduct(req: CreateProductRequest, id: ObjectId, adminId: ObjectId, now: Instant): Product {
    Product(id, req.name, req.price, req.category, "", req.description, req.specification,
            req.material, req.inStock, adminId, now, now)
  }

  /** The raw query values of `GetProducts` (None for an absent `page` or `limit`, "" for the others). */
  datatype ProductQuery = ProductQuery(page: Option<string>, limit: Option<string>, category: string, inStock: string)

  lemma FilterSame<T>(s: seq<T>, f: T -> bool, g: T -> bool)
    requires forall x :: f(x) == g(x)
    ensures Filter(s, f) == Filter(s, g)
  {
  }

  /**
   * What the handlers keep true of the collection: IDs are unique (the
   * database's `_id` index), every category is valid, and every image URL
   * is empty or an uploaded product image.
   */
  ghost predicate ValidProducts(products: seq<Product>) {
    (forall i, j :: 0 <= i < j < |products| ==> products[i].id != products[j].id)
    && (forall i :: 0 <= i < |products| ==>
          IsValidCategory(products[i].category) && IsStoredImageUrl(products[i].imageUrl))
  }

  /** Replacing a product by one with the same ID, a valid category and a stored image URL keeps the collection valid. */
  lemma ReplaceKeepsValid(products: seq<Product>, i: nat, q: Product)
    requires ValidProducts(products) && i < |products|
    requires q.id == products[i].id && IsValidCategory(q.category) && IsStoredImageUrl(q.imageUrl)
    ensures ValidProducts(products[i := q])
  {
  }

  /** Appending a product with a new ID, a valid category and a stored image URL keeps the collection valid. */
  lemma AppendKeepsValidProducts(products: seq<Product>, q: Product)
    requires ValidProducts(products) && IndexOfId(products, q.id).None?
    requires IsValidCategory(q.category) && IsStoredImageUrl(q.imageUrl)
    ensures ValidProducts(products + [q])
  {
    var s := products + [q];
    forall i, j | 0 <= i < j < |s|
      ensures s[i].id != s[j].id
    {
      if j == |products| {
        assert !(products[i].id == q.id);
      }
    }
  }

  /** Removing a product keeps the collection valid. */
  lemma RemoveKeepsValid(products: seq<Product>, i: nat)
    requires ValidProducts(products) && i < |products|
    ensures ValidProducts(products[..i] + products[i + 1..])
  {
    var s := products[..i] + products[i + 1..];
    assert forall k :: 0 <= k < |s| ==> s[k] == products[if k < i then k else k + 1];
  }

  /** The products collection, in insertion order. */
  class ProductCatalog {
    var products: seq<Product>

    /** The collection invariant, on the current contents. */
    ghost predicate Valid()
      reads this
    {
      ValidProducts(products)
    }

    constructor()
      ensures products == [] && Valid()
    {
      products := [];
    }

    /**
     * `CreateProduct`: the user must be known (401) and an admin (403); the
     * payload must decode (400), validate (400 with the validator's text),
     * name a valid category (400) and come from a user whose ID is
     * hexadecimal (400). The new product, without an image, is appended
     * with its times to the millisecond; the reply shows the product as
     * built, with the full times.
     */
    method CreateProduct(ctx: Context, body: Result<CreateProductRequest, string>, newId: ObjectId,
                         now: Instant, request: RequestInfo) returns (reply: Reply<ProductBody>)
      modifies this
      ensures old(Valid()) ==> Valid()
      ensures ctx.userId.None? ==> reply == Fail(StatusUnauthorized, "Unauthorized")
      ensures ctx.userId.Some? && !IsAdmin(ctx) ==> reply == AdminRequired()
      ensures ctx.userId.Some? && IsAdmin(ctx) ==>
        if body.Failure? then reply == Fail(StatusBadRequest, "Invalid request payload")
        else if CreateViolations(body.value) != [] then
          reply == Fail(StatusBadRequest, Message(CreateViolations(body.value)))
        else if !IsValidCategory(body.value.category) then reply == Fail(StatusBadRequest, "Invalid category")
        else if FromHex(ctx.userId.value).None? then reply == Fail(StatusBadRequest, "Invalid user ID")
        else if IndexOfId(old(products), newId).Some? then
          reply == Fail(StatusInternalServerError, "Failed to create product")
        else
          var p := NewProduct(body.value, newId, FromHex(ctx.userId.value).value, now);
          products == old(products) + [StoredProduct(p)] &&
          reply == Ok(StatusCreated, ProductCreated("Product created successfully", ToResponseWithBaseUrl(p, BaseUrl(request))))
      ensures !reply.Ok? ==> products == old(products)
    {
      if ctx.userId.None? {
        return Fail(StatusUnauthorized, "Unauthorized");
      }
      if !IsAdmin(ctx) {
        return AdminRequired();
      }
      if body.Failure? {
        return Fail(StatusBadRequest, "Invalid request payload");
      }
      var req := body.value;
      var violations := CreateViolations(req);
      if violations != [] {
        return Fail(StatusBadRequest, Message(violations));
      }
      if !IsValidCategory(req.category) {
        return Fail(StatusBadRequest, "Invalid category");
      }
      var adminId := FromHex(ctx.userId.value);
      if adminId.None? {
        return Fail(StatusBadRequest, "Invalid user ID");
      }
      var product := NewProduct(req, newId, adminId.value, now);
      if IndexOfId(products, newId).Some? {
        return Fail(StatusInternalServerError, "Failed to create product");
      }
      if old(Valid()) {
        AppendKeepsValidProducts(products, StoredProduct(product));
      }
      products := products + [StoredProduct(product)];
      reply := Ok(StatusCreated, ProductCreated("Product created successfully", ToResponseWithBaseUrl(product, BaseUrl(request))));
    }

    /**
     * `GetProducts`: the clamped page of the products the query selects,
     * newest first, with the number of all selected products.
     */
    method GetProducts(query: ProductQuery, request: RequestInfo) returns (reply: Reply<ProductBody>)
      ensures reply.Ok? && reply.status == StatusOK && reply.body.ProductPage?
      ensures var r := reply.body.list;
        var p := Atoi(query.page.GetOr("1")).value;
        var l := Atoi(query.limit.GetOr("10")).value;
        r.page == (if p >= 1 then p else 1) &&
        r.limit == (if 1 <= l <= 100 then l else 10) &&
        r.total == |Filter(products, (q: Product) => Selects(query.category, query.inStock, q))|
      ensures var r := reply.body.list;
        r.page >= 1 && 1 <= r.limit <= 100 &&
        var shown := Window(Listing(products, query.category, query.inStock), Skip(r.page, r.limit), r.limit);
        |r.products| == |shown| <= r.limit &&
        forall k :: 0 <= k < |shown| ==> r.products[k] == ToResponseWithBaseUrl(shown[k], BaseUrl(request))
    {
      var page, limit := Paginate(query.page, query.limit);
      var filter := BuildFilter(query.category, query.inStock);
      FilterSame(products, (q: Product) => Matches(q, filter), (q: Product) => Selects(query.category, query.inStock, q));
      var matching := Filter(products, (q: Product) => Matches(q, filter));
      var total := |matching|;
      var skip := Skip(page, limit);
      var sorted := SortBy(matching, (q: Product) => -q.createdAt);
      assert sorted == Listing(products, query.category, query.inStock);
      var found := Window(sorted, skip, limit);
      var responses := ToResponses(found, BaseUrl(request));
      reply := Ok(StatusOK, ProductPage(ProductListResponse(responses, total, page, limit)));
    }

    /** `GetProduct`: 400 for an ID that is not hexadecimal, 404 for an unknown one. */
    method GetProduct(idParam: string, request: RequestInfo) returns (reply: Reply<ProductBody>)
      ensures FromHex(idParam).None? ==> reply == Fail(StatusBadRequest, "Invalid product ID")
      ensures FromHex(idParam).Some? ==>
        match IndexOfId(products, FromHex(idParam).value)
        case None => reply == Fail(StatusNotFound, "Product not found")
        case Some(i) => reply == Ok(StatusOK, ProductFound(ToResponseWithBaseUrl(products[i], BaseUrl(request))))
    {
      var id := FromHex(idParam);
      if id.None? {
        return Fail(StatusBadRequest, "Invalid product ID");
      }
      var i := IndexOfId(products, id.value);
      if i.None? {
        return Fail(StatusNotFound, "Product not found");
      }
      reply := Ok(StatusOK, ProductFound(ToResponseWithBaseUrl(products[i.value], BaseUrl(request))));
    }

    /**
     * `UpdateProduct`: admin gate, ID, payload, validation and category
     * checks in that order; then the stored product takes the supplied
     * fields and the new `updated_at`, and nothing else changes.
     */
    method UpdateProduct(ctx: Context, idParam: string, body: Result<UpdateProductRequest, string>,
                         now: Instant, request: RequestInfo) returns (reply: Reply<ProductBody>)
      modifies this
      ensures old(Valid()) ==> Valid()
      ensures !IsAdmin(ctx) ==> reply == AdminRequired()
      ensures IsAdmin(ctx) ==>
        if FromHex(idParam).None? then reply == Fail(StatusBadRequest, "Invalid product ID")
        else if body.Failure? then reply == Fail(StatusBadRequest, "Invalid request payload")
        else if UpdateViolations(body.value) != [] then
          reply == Fail(StatusBadRequest, Message(UpdateViolations(body.value)))
        else if body.value.category.Some? && !IsValidCategory(body.value.category.value) then
          reply == Fail(StatusBadRequest, "Invalid category")
        else
          match IndexOfId(old(products), FromHex(idParam).value)
          case None => reply == Fail(StatusNotFound, "Product not found")
          case Some(i) =>
            products == old(products)[i := Updated(old(products)[i], body.value, now)] &&
            reply == Ok(StatusOK, ProductUpdated("Product updated successfully",
                                                      ToResponseWithBaseUrl(products[i], BaseUrl(request))))
      ensures !reply.Ok? ==> products == old(products)
    {
      if !IsAdmin(ctx) {
        return AdminRequired();
      }
      var id := FromHex(idParam);
      if id.None? {
        return Fail(StatusBadRequest, "Invalid product ID");
      }
      if body.Failure? {
        return Fail(StatusBadRequest, "Invalid request payload");
      }
      var req := body.value;
      var violations := UpdateViolations(req);
      if violations != [] {
        return Fail(StatusBadRequest, Message(violations));
      }
      var update := BuildUpdate(req, now);
      if update.Failure? {
        return Fail(StatusBadRequest, update.error);
      }
      var i := IndexOfId(products, id.value);
      if i.None? {
        return Fail(StatusNotFound, "Product not found");
      }
      var p := products[i.value];
      UpdateChangesOnlySupplied(p, update.value, req, now);
      if old(Valid()) {
        assert IsValidCategory(Updated(p, req, now).category);
        ReplaceKeepsValid(products, i.value, Updated(p, req, now));
      }
      products := products[i.value := ApplySet(p, update.value)];
      reply := Ok(StatusOK, ProductUpdated("Product updated successfully",
                                                ToResponseWithBaseUrl(products[i.value], BaseUrl(request))));
    }

    /** `DeleteProduct`: admin gate, ID check, 404 for an unknown ID, else the product is removed. */
    method DeleteProduct(ctx: Context, idParam: string) returns (reply: Reply<ProductBody>)
      modifies this
      ensures old(Valid()) ==> Valid()
      ensures !IsAdmin(ctx) ==> reply == AdminRequired()
      ensures IsAdmin(ctx) ==>
        if FromHex(idParam).None? then reply == Fail(StatusBadRequest, "Invalid product ID")
        else
          match IndexOfId(old(products), FromHex(idParam).value)
          case None => reply == Fail(StatusNotFound, "Product not found")
          case Some(i) =>
            products == old(products)[..i] + old(products)[i + 1..] &&
            reply == Ok(StatusOK, ProductDeleted("Product deleted successfully"))
      ensures !reply.Ok? ==> products == old(products)
    {
      if !IsAdmin(ctx) {
        return AdminRequired();
      }
      var id := FromHex(idParam);
      if id.None? {
        return Fail(StatusBadRequest, "Invalid product ID");
      }
      var i := IndexOfId(products, id.value);
      if i.None? {
        return Fail(StatusNotFound, "Product not found");
      }
      if old(Valid()) {
        RemoveKeepsValid(products, i.value);
      }
      products := products[..i.value] + products[i.value + 1..];
      reply := Ok(StatusOK, ProductDeleted("Product deleted successfully"));
    }

    /**
     * `UploadProductImage`: admin gate, ID check, the three upload checks;
     * then the product's image URL and `updated_at` are set. When that
     * leaves the stored product as it was (the same path, stored within the
     * same millisecond), the reply says so and carries the
     * stored path; otherwise it carries the path resolved against the base URL.
     */
    method UploadProductImage(ctx: Context, idParam: string, upload: Option<Upload>, now: Instant,
                              request: RequestInfo) returns (reply: Reply<ProductBody>)
      modifies this
      ensures old(Valid()) ==> Valid()
      ensures !IsAdmin(ctx) ==> reply == AdminRequired()
      ensures IsAdmin(ctx) ==>
        if FromHex(idParam).None? then reply == Fail(StatusBadRequest, "Invalid product ID")
        else if UploadError(upload).Some? then reply == Fail(StatusBadRequest, UploadError(upload).value)
        else
          var url := ProductImageUrl(idParam, now, upload.value.filename);
          match IndexOfId(old(products), FromHex(idParam).value)
          case None => reply == Fail(StatusNotFound, "Product not found")
          case Some(i) =>
            var p := old(products)[i];
            if p.imageUrl == url && p.updatedAt == BsonTime(now) then
              products == old(products) &&
              reply == Ok(StatusOK, ImageAlreadySet("Image uploaded but product already has this image URL",
                                                         url, "No database update was needed"))
            else
              products == old(products)[i := p.(imageUrl := url, updatedAt := BsonTime(now))] &&
              reply == Ok(StatusOK, ImageStored("Image uploaded successfully", ResolveImageUrl(BaseUrl(request), url)))
      ensures !reply.Ok? ==> products == old(products)
    {
      if !IsAdmin(ctx) {
        return AdminRequired();
      }
      var id := FromHex(idParam);
      if id.None? {
        return Fail(StatusBadRequest, "Invalid product ID");
      }
      var err := UploadError(upload);
      if err.Some? {
        return Fail(StatusBadRequest, err.value);
      }
      var imageUrl := ProductImageUrl(idParam, now, upload.value.filename);
      ProductImageUrlShape(idParam, now, upload.value.filename);
      var doc := ImageUpdate(imageUrl, now);
      var i := IndexOfId(products, id.value);
      if i.None? {
        return Fail(StatusNotFound, "Product not found");
      }
      var p := products[i.value];
      var updated := ApplySet(p, doc);
      ImageUpdateChanges(p, imageUrl, now);
      if updated == p {
        return Ok(StatusOK, ImageAlreadySet("Image uploaded but product already has this image URL",
                                                 imageUrl, "No database update was needed"));
      }
      if old(Valid()) {
        ReplaceKeepsValid(products, i.value, updated);
      }
      products := products[i.value := updated];
      reply := Ok(StatusOK, ImageStored("Image uploaded successfully", ResolveImageUrl(BaseUrl(request), products[i.value].imageUrl)));
    }
  }
}
