# Shop backend: request decisions and data shaping

This project models, in Dafny, the core of a small shop backend written in Go
on gin and MongoDB: products with a closed set of categories and an uploaded
image, home-page slides with their display settings, and users who register
and log in. It covers what the handlers decide and what they write:

- the checks every request goes through, in their order (the admin gate first,
  then identifiers, payloads, validation and uploads);
- the query and update documents they build (pagination, filters, partial
  `$set` updates, the upsert of the slide settings);
- the record-to-response projections and the rewriting of image paths into
  absolute URLs;
- configuration loading from an environment and the application error type.

MongoDB collections are sequences inside classes (`ProductCatalog`,
`SliderStore`, `UserStore`), kept in insertion order; a lookup takes the first
matching document. Times written to the database keep whole milliseconds,
as a BSON datetime does, while replies built from a value still in memory show
the full instant. The clock, new ObjectIDs, password hashing and checking,
token issuance and duration parsing are parameters. Go library behaviour the
handlers rely on is modelled in small modules: `strconv.Atoi`, `ParseUint`
and `FormatInt` (`Strconv`), `filepath.Ext` and `strings.ToLower` (`Text`),
ObjectID hex encoding (`ObjectIds`), BSON values (`Bson`), the validator's
messages (`Validation`) and the HTTP reply shape (`Http`). A handler's reply is
`Fail(status, error)`, `Ok(status, body)` or `Panic` (a panic that gin's
recovery middleware turns into a 500).

Where the handlers state something about a collection (unique IDs, valid
categories, image paths under the upload directories, unique emails, valid
roles), it is a `Valid()` predicate that every state-changing method keeps.

## Model

| member | source | states |
|---|---|---|
| ProductModel.ValidCategories | internal/models/product.go:27-40 | exactly ten categories, "electronics" first and "other" last, no two equal |
| ProductModel.ValidCategoryCases | internal/models/product.go:43-50 | a category is valid iff it equals one of the ten strings |
| ProductModel.CategoryCaseSensitive | internal/models/product.go:43-50 | the comparison is case-sensitive ("books" valid, "Books" and "" not) |
| ProductModel.ResolveImageUrl | internal/models/product.go:111-120 | an empty base, an empty path or an http/https URL is returned unchanged; otherwise base + "/" + the path without its leading "/" |
| ProductModel.ResolvedStartsWithBase | internal/models/product.go:114-119 | a rewritten URL starts with the base URL |
| ProductModel.ResolveIdempotent | internal/models/product.go:114-119 | with an http/https base, rewriting an already rewritten URL changes nothing |
| ProductModel.ToResponseCopies | internal/models/product.go:106-134 | for any base URL the image path is the stored one rewritten against it (unchanged without a base), and every other field but the creator is copied, the ID as hex that decodes back to it |
| ProductModel.StoredProductStable | internal/handlers/product.go:100 | a product read back from the database is stored again unchanged: only the times are cut, once |
| ProductModel.ResponseHidesCreator | internal/models/product.go:122-134 | the response does not depend on `CreatedBy` |
| ProductModel.ResponseIdentifiesProduct | internal/models/product.go:123 | equal responses come from products with equal IDs |
| ProductModel.PriceFailure | internal/models/product.go:71 | the price passes `required,gt=0` iff it is greater than zero |
| ProductModel.CreateViolationsEmpty | internal/models/product.go:69-77 | a create request validates iff every tagged field meets its tag |
| ProductModel.UpdateViolationsEmpty | internal/models/product.go:80-88 | an update request validates iff every supplied field meets its tag |
| SliderModel.WithEmptyBaseIsToResponse | internal/models/slider.go:64-92 | `ToResponseWithBaseURL("")` equals `ToResponse()` |
| SliderModel.ConversionKeepsFields | internal/models/slider.go:75-92 | order and timestamps unchanged, ID as hex, a relative path joined with exactly one "/", other paths unchanged |
| SliderModel.SettingsViolationsEmpty | internal/models/slider.go:40-45 | a settings request validates iff a supplied duration lies in 1..30 |
| UserModel.Role.String | internal/models/user.go:31-33 | the string gives back the same role |
| UserModel.RoleValidExactly | internal/models/user.go:36-38 | a role is valid iff it is "user" or "admin" |
| UserModel.ToResponseOmitsPassword | internal/models/user.go:73-84 | every field but the password is copied, and the response is the same whatever the password |
| ProductHandlers.BaseHost | internal/handlers/product.go:519-525 | the host is never empty (X-Forwarded-Host, else Host, else "localhost:8080") |
| ProductHandlers.BaseUrl | internal/handlers/product.go:514-527 | the URL is absolute; it is https iff X-Forwarded-Proto is "https" or TLS is on; it is the scheme followed by the host |
| ProductHandlers.ResolveAgainstRequestIdempotent | internal/handlers/product.go:514-527 | paths resolved against a request's base URL are not rewritten again |
| ProductHandlers.ImageTypeByExtension | internal/handlers/product.go:530-540 | a name with an extension is accepted iff its lower-cased extension is .jpg, .jpeg, .png or .gif |
| ProductHandlers.NoExtensionRejected | internal/handlers/product.go:530-540 | a name without an extension is rejected |
| ProductHandlers.ImageTypeIgnoresCase | internal/handlers/product.go:531 | the check does not depend on the case of the extension, including U+0130 and U+212A, the two non-ASCII capitals that lower to ASCII letters |
| ProductHandlers.ImageTypeUnderAnyLowering | internal/handlers/product.go:531 | the check gives the same verdict as one made with any lower-casing that agrees with the model's wherever either result is ASCII, as Go's `unicode.ToLower` does |
| ProductHandlers.ImageTypeFoldsDottedCapitalI | internal/handlers/product.go:531 | ".G" + U+0130 + "F" lowers to ".gif" and is accepted |
| ProductHandlers.ImageTypeUpperCase | internal/handlers/product.go:531 | ".JPG" is accepted |
| ProductHandlers.ImageTypeRejectsUnknown | internal/handlers/product.go:530-540 | a ".bmp" name is rejected |
| ProductHandlers.ImageTypeRejectsDoubleExtension | internal/handlers/product.go:531 | a ".jpg.exe" name is rejected: only the last extension counts |
| ProductHandlers.UploadError | internal/handlers/product.go:373-391 | an upload passes iff a file is present, its type is accepted and it is at most 5 MiB; a missing file and a bad type get their own messages, in that order |
| ProductHandlers.SizeLimitBoundary | internal/handlers/product.go:388-391 | exactly 5 MiB passes, one byte more is rejected |
| ProductHandlers.ValidImageHasExtension | internal/handlers/product.go:530-540 | an accepted name has an extension of at least two characters |
| ProductHandlers.ProductImageUrlShape | internal/handlers/product.go:401-414 | the stored path lies under "/uploads/products/" and keeps the upload's extension, so it is an accepted image name |
| ProductHandlers.Paginate | internal/handlers/product.go:115-125 | page ≥ 1 and 1 ≤ limit ≤ 100; a parsed page ≥ 1 and a parsed limit in 1..100 are kept, others become 1 and 10 |
| ProductHandlers.WrapInt64 | internal/handlers/product.go:152 | the result is the 64-bit value congruent to the input modulo 2^64 |
| ProductHandlers.SkipAsWrittenGoesNegative | internal/handlers/product.go:115-152 | page 10^17 parses, and with limit 100 the computed skip is negative |
| ProductHandlers.SkipAgreesWhenInRange | internal/handlers/product.go:152 | when (page−1)·limit fits in 64 bits, the computed skip is that product |
| ProductHandlers.ConsecutivePages | internal/handlers/product.go:152-155 | page p followed by page p+1 is the window of 2·limit starting at page p |
| ProductHandlers.BuildFilter | internal/handlers/product.go:127-138 | the category key is present iff the category is valid, the stock key iff the value is "true" or "false"; a product matches iff it has the requested category and stock |
| ProductHandlers.ApplySetReadsBack | internal/handlers/product.go:245-276 | after a `$set` every set field reads back its value and every other field is unchanged |
| ProductHandlers.BuildUpdate | internal/handlers/product.go:245-271 | an invalid supplied category gives "Invalid category"; otherwise `updated_at` is set and each other field iff supplied |
| ProductHandlers.UpdateChangesOnlySupplied | internal/handlers/product.go:245-276 | applying the update changes exactly the supplied fields and `updated_at` |
| ProductHandlers.ImageUpdateChanges | internal/handlers/product.go:416-422 | the image update changes only the image path and `updated_at` |
| ProductHandlers.ToResponses | internal/handlers/product.go:171-174 | one response per product, in order, each with its image URL resolved |
| ProductHandlers.GetCategories | internal/handlers/product.go:497-509 | 200 with the ten categories in their fixed order |
| ProductHandlers.ProductImageUrlPrefix | internal/handlers/product.go:411 | every stored product image path lies under "/uploads/products/" |
| ProductHandlers.AppendKeepsValidProducts | internal/handlers/product.go:100 | appending a product with a new ID, a valid category and a stored image path keeps the collection valid |
| ProductHandlers.RemoveKeepsValid | internal/handlers/product.go:335 | removing one product keeps the collection valid |
| ProductHandlers.ReplaceKeepsValid | internal/handlers/product.go:276 | replacing a product by one with the same ID, a valid category and a stored image path keeps the collection valid |
| ProductHandlers.ProductCatalog.CreateProduct | internal/handlers/product.go:41-110 | 401, 403, invalid payload, validator text, invalid category, invalid user ID, insert failure, in that order; else the new product is appended with its times to the millisecond and 201 shows it as built; failures write nothing |
| ProductHandlers.ProductCatalog.GetProducts | internal/handlers/product.go:113-186 | 200 with the clamped page and limit, the number of selected products, and the page's window of them newest first |
| ProductHandlers.ProductCatalog.GetProduct | internal/handlers/product.go:189-214 | 400 for a non-hex ID, 404 for an unknown one, else the product |
| ProductHandlers.ProductCatalog.UpdateProduct | internal/handlers/product.go:217-300 | 403 before anything else; then ID, payload, validation and category checks; 404 for an unknown ID; else only that product changes, as the update states |
| ProductHandlers.ProductCatalog.DeleteProduct | internal/handlers/product.go:303-355 | 403 first, 400 for a non-hex ID, 404 for an unknown one, else exactly that product is removed |
| ProductHandlers.ProductCatalog.UploadProductImage | internal/handlers/product.go:358-494 | 403 first, then ID and upload checks, 404 for an unknown product; a product that the update leaves unchanged (the same path, `updated_at` already in this millisecond) gets the "already has this image" reply, otherwise the path and `updated_at` are stored and the absolute URL returned |
| SliderHandlers.SliderImageUrlShape | internal/handlers/slider.go:73-101 | the stored path is "/uploads/slider/slider_" + seconds + extension and is an accepted image name |
| SliderHandlers.SliderImageUrlIsSlidePath | internal/handlers/slider.go:101 | every stored path lies under "/uploads/slider/slider_" |
| SliderHandlers.NextOrder | internal/handlers/slider.go:87-90 | a new slide's order is the number of slides, or 0 when counting fails |
| SliderHandlers.ConsecutiveUploadsGetConsecutiveOrders | internal/handlers/slider.go:87-105 | each successful upload raises the next order by one |
| SliderHandlers.DefaultSettings | internal/handlers/slider.go:160-170 | the defaults are duration 5 with autoplay, indicators and controls on |
| SliderHandlers.BuildSettingsUpdate | internal/handlers/slider.go:340-353 | `updated_at` is always set, each of the four settings iff supplied, to its value |
| SliderHandlers.SettingsUpdateChangesOnlySupplied | internal/handlers/slider.go:340-357 | applying the `$set` changes exactly the supplied settings and `updated_at` |
| SliderHandlers.UpdateKeepsDurationInRange | internal/handlers/slider.go:331-357 | a validated update keeps the stored duration in 1..30 when it was there or is supplied |
| SliderHandlers.UpsertWithoutDurationStoresZero | internal/handlers/slider.go:340-357 | an upsert on empty settings without a duration stores duration 0, not the default 5 |
| SliderHandlers.ToSliderResponses | internal/handlers/slider.go:175-178 | one response per slide, in order, each with its image URL resolved |
| SliderHandlers.InDisplayOrder | internal/handlers/slider.go:143 | the same slides, ascending by order (the same sort serves the public list at line 207) |
| SliderHandlers.DisplayOrderKeepsTies | internal/handlers/slider.go:143 | slides sharing a position are shown in collection order |
| SliderHandlers.AppendKeepsValid | internal/handlers/slider.go:100-117 | appending a slide with a new ID and a slide path keeps the collection valid |
| SliderHandlers.SliderStore.UploadSliderImage | internal/handlers/slider.go:38-133 | 403 first, then the upload checks, a panic without a user ID, 400 for a bad one, insert failure; else the slide is appended with the next order and its URL |
| SliderHandlers.SliderStore.GetSliders | internal/handlers/slider.go:136-193 | 200 with the slides in display order, their number, and the stored settings, or the defaults as built, which are then stored with their time to the millisecond |
| SliderHandlers.SliderStore.GetAllSliders | internal/handlers/slider.go:196-231 | 403 first, else every slide in display order with `total_slides` equal to their number |
| SliderHandlers.SliderStore.DeleteSlider | internal/handlers/slider.go:234-275 | 403 first, 400 for a non-hex ID, 404 for an unknown one, else exactly that slide is removed |
| SliderHandlers.SliderStore.GetSliderSettings | internal/handlers/slider.go:278-315 | 403 first, else the stored settings or the defaults, without storing them |
| SliderHandlers.SliderStore.UpdateSliderSettings | internal/handlers/slider.go:318-380 | 403 first, then payload and validation (no write on failure); else the upsert sets the supplied fields and `updated_at` |
| AuthHandlers.ResolveRole | internal/handlers/auth.go:55-66 | the role is always valid: the requested one when valid, else "user" |
| AuthHandlers.ResolveRoleDefaults | internal/handlers/auth.go:55-66 | no requested role, or any other than "user" and "admin", gives "user"; "admin" gives "admin" |
| AuthHandlers.NewUser | internal/handlers/auth.go:69-79 | a new user is active, holds the hash, and has a valid role |
| AuthHandlers.AppendKeepsValidUsers | internal/handlers/auth.go:42-81 | appending a user with a new ID, a new email and a valid role keeps IDs and emails unique |
| AuthHandlers.EmailLookupUnique | internal/handlers/auth.go:111 | in a valid collection the lookup by email finds the one user with that email |
| AuthHandlers.UserStore.Register | internal/handlers/auth.go:32-98 | bad payload 400, existing email 409, hash failure 500, ID clash 500; else the user is appended; token failure 500 (the user stays), else 201 with token and user; the new user is active, holds the hash, keeps its times to the millisecond and is found by its email; every failure but the token's writes nothing |
| AuthHandlers.UserStore.Login | internal/handlers/auth.go:101-144 | bad payload 400; unknown email 401 "Invalid credentials"; inactive account 401 "Account is deactivated" before the password; wrong password 401 "Invalid credentials"; token failure 500; else 200 with token and role; success implies an active account whose password matched |
| AuthHandlers.UserStore.GetProfile | internal/handlers/auth.go:147-169 | no user ID 401, a non-hex one 400, an unknown one 404, else the user without its password |
| Config.GetEnv | internal/config/config.go:60-65 | the value is non-empty iff the variable or the default is |
| Config.EnvOverrides | internal/config/config.go:60-74 | a set, non-empty variable wins, an empty one gives the default; an unparsable duration gives the default |
| Config.GetUint64EnvCorrect | internal/config/config.go:76-83 | the default unless the variable is a non-empty run of digits whose value fits in 64 bits, and then that value |
| Config.GetUint64EnvFormat | internal/config/config.go:76-83 | a variable holding a 64-bit number's decimal form is read back as that number |
| Config.LoadDefaults | internal/config/config.go:39-58 | with no variable set, port 8080, timeouts 10s/10s/120s, pool 100, secret "default-secret-key", expiry 24h |
| Config.LoadDependsOnlyOnKeys | internal/config/config.go:39-58 | environments that agree on the ten variables give the same configuration |
| AppErrors.New | internal/errors/errors.go:24-30 | code, message and cause are stored unchanged |
| AppErrors.ErrorText | internal/errors/errors.go:16-21 | the text starts with the message; without a cause it is the message, with one it is message + ": " + cause |
| AppErrors.PredefinedCodes | internal/errors/errors.go:33-41 | the predefined errors carry 401, 404, 409, 401, 403, 400 and 500 |
| AppErrors.PredefinedTextIsMessage | internal/errors/errors.go:33-41 | every predefined error has no cause, so its text is its message |
| Strconv.AtoiBounds | internal/handlers/product.go:115-116 | `Atoi`'s value always lies in the 64-bit range, as Go clamps out-of-range input |
| Strconv.AtoiFormat | internal/handlers/product.go:115-116 | `Atoi` reads back the decimal form of any 64-bit number |
| Strconv.ParseUintCorrect | internal/config/config.go:78 | `ParseUint` succeeds iff the text is a non-empty run of digits whose value fits in 64 bits, and then returns that value |
| Text.ExtOfSuffix | internal/handlers/product.go:531 | `filepath.Ext` of a name ending in a plain extension is that extension |
| Text.ExtOfPlainTail | internal/handlers/product.go:531 | a last path segment without a dot has no extension |
| Collections.Filter | internal/handlers/product.go:158 | each element that satisfies the filter is kept as often as the input holds it, and no other element is kept |
| Collections.FilterConcat | internal/handlers/product.go:158 | filtering keeps order: the filter of a concatenation is the concatenation of the filters |
| Collections.FilterInsert | internal/handlers/product.go:156 | an insertion, filtered by a predicate whose elements share one key, puts the new element before all the others kept |
| Collections.SortByStable | internal/handlers/product.go:156 | the sort is stable: elements sharing a key come out in the order they went in |
| Collections.FirstIndex | internal/handlers/product.go:203 | the index found is the first whose element satisfies the query; none is found iff no element does |
| Collections.SortBy | internal/handlers/product.go:156 | the result is sorted by the key and is a permutation of the input |
| Collections.InsertSorted | internal/handlers/product.go:156 | inserting into a sorted sequence keeps it sorted |
| Collections.SortByLength | internal/handlers/product.go:156 | sorting keeps the number of elements |
| Collections.Window | internal/handlers/product.go:152-155 | skip then limit: at most `limit` elements, the ones starting at position `skip` |
| ObjectIds.FromHexOfHex | internal/models/product.go:123 | reading back an ObjectID's hex form gives the ObjectID |
| ObjectIds.HexInjective | internal/models/product.go:123 | different ObjectIDs have different hex forms |
| Times.BsonTime | internal/handlers/product.go:100 | a stored time is the instant rounded down to a whole millisecond |
| Times.BsonTimeSameMillisecond | internal/handlers/product.go:438 | two instants are stored alike exactly when they fall in the same millisecond |
| Times.BsonTimeIdempotent | internal/handlers/product.go:100 | a stored time is stored again unchanged |
| Text.LoweringAgreesOnAsciiResults | internal/handlers/product.go:531 | a lower-casing that agrees with the model's wherever either gives ASCII lowers a string to a given ASCII string exactly when the model's does |
| Times.UnixSeconds | internal/handlers/product.go:401 | the seconds count is the floor of the instant in seconds |

## Left out

- Database failures (connection errors, timeouts, failed counts, finds, inserts and updates) are not modelled. The one exception is the slide count, whose failure is the `countOk` input. The "Failed to …" 500 replies for these cases are therefore absent, and so is Login's "Database error" reply.
- Register treats any lookup error, not only "no documents", as "no such user" and goes on (internal/handlers/auth.go:42-46). The model has no lookup errors, so this case does not arise.
- Duplicate-key failures on insert are modelled only for the `_id` of the new document.
- JWT issuance and validation, bcrypt hashing and the password check are not modelled; they are the parameters `issue`, `hash` and `passwordMatches`. The auth and admin middleware are not modelled either: the handlers read the `user_id` and `user_role` entries they leave in the context.
- File-system effects are not modelled: creating the upload directories, saving the file, and removing files on failure or deletion. The outcome of the file save is not modelled either, so the model has no "Failed to save image" or "Failed to create upload directory" replies.
- gin binding and JSON encoding are not modelled. Payloads arrive already decoded, or as a decoding error. A nil Go slice is serialised as `null` and an empty one as `[]`; the model does not tell them apart.
- `time.Now`, `primitive.NewObjectID` and `time.ParseDuration` are not modelled; they are the inputs `now`, `newId`/`newSettingsId` and `parseDuration`. Several handlers read the clock more than once: for a file name and then for `updated_at`, or for the creation and update times. The model uses one instant per request, so a product re-uploaded within the same millisecond as its last stored update is the "already has this image" case.
- Price: `float64` arithmetic is not modelled. A price is its 64-bit pattern, and only "is zero" and "greater than zero" are interpreted.
- Text.ToLower: lowers 'A' to 'Z', U+0130 (to 'i') and U+212A (to 'k'), the only characters whose simple lower case in Unicode is ASCII, and keeps every other character. Go's `strings.ToLower` also lowers other non-ASCII letters, always to non-ASCII letters. The image-type check, its only user, gives the same verdict under any such lowering (ProductHandlers.ImageTypeUnderAnyLowering); that Go's tables are of this kind is assumed, not proved.
- The `user_role` check compares an interface value with "admin" (internal/handlers/product.go:49). The model takes the role entry as an optional string.
- The `userID.(string)` type assertions assume that the middleware stored a string, as the model's context does.
- `AdminDashboard` (internal/handlers/auth.go:172-181) is not modelled: it returns a constant reply and makes no decision.
- The skip passed to MongoDB is the corrected `Skip`. `SkipAsWritten` keeps Go's 64-bit wrap-around for the finding below, and the driver's handling of a negative skip is not modelled.
- Products, slides and users are kept as sequences in insertion order, not as maps keyed by ID. MongoDB's natural order is taken to be insertion order. MongoDB returns documents with equal sort keys (products created in the same millisecond, slides at the same position) in no guaranteed order; the model returns them in collection order (Collections.SortByStable).
- Server start-up, routing, logging and the process entry point are not modelled.

## Findings

| source | as written | input that shows it | evidently intended | confidence | as-written member | corrected member |
|---|---|---|---|---|---|---|
| internal/handlers/product.go:152 | `skip := (page - 1) * limit` in Go's 64-bit `int`; `page` is unbounded above after clamping | `?page=100000000000000000&limit=100`: the product wraps around and the skip is negative | skip = (page−1)·limit ≥ 0, and consecutive pages are consecutive windows | not executed | ProductHandlers.SkipAsWrittenGoesNegative | ProductHandlers.ConsecutivePages |
