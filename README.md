# Hermes catalogue and cart, modelled in Dafny

Hermes is a product-catalogue web application. Its server exposes product and
image tables over HTTP. Its Blazor front end fetches those, searches and
summarises the catalogue, encodes uploaded images, and keeps a shopping cart
in the browser's local storage. This project models the logic of both sides
and proves what each operation promises.

- `common.dfy` (`Common`): optional values, results, C# `int`, ticks, prices in cents, the LINQ `Where`
  filter and its laws.
- `base64.dfy` (`Base64`): the padded encoding of section 4 of RFC 4648, as `Convert.ToBase64String`
  produces it, with a strict decoder that accepts exactly the encodings.
- `models.dfy` (`Models`): `Product` (a value, and a mutable `ProductEntity` with the `Name`/`Price`
  aliases), the related rows, `ProductCreateDto` with its validation rules, `ProductStatistics`,
  `ProductImage`.
- `api_service.dfy` (`Gateway`): the workspace the gateway client uses.
- `image_service.dfy` (`ImageCodec`): URL/payload classification, `data:` URIs (section 3 of RFC 2397),
  and the guarded upload and download converters.
- `cart_service.dfy` (`Cart`): the `CartService` class over its live list, initialisation flag, storage
  slot, JavaScript capability and the trace of its outside effects.
- `product_service.dfy` (`Catalog`): search, status and category filters, the most recent products,
  statistics, and the objects built for creation and update.
- `product_image_service.dfy` (`ProductImages`): the client image holder, the image record posted, the
  batch upload loop and the per-product filter.
- `store.dfy` (`Store`): the database context as keyed tables with identity counters.
- `products_controller.dfy` (`ProductsApi`), `images_controller.dfy` (`ImagesApi`): the server's
  actions as functions on the tables, with the controller classes that apply them in place.

Every exchange with the outside is a parameter of the operation:
- the browser file stream, `Uri.TryCreate`, the HTTP GET, the gateway's GET/POST/PUT;
- the clock;
- whether a database save throws;
- the local-storage slot and the JavaScript probe.

Since these are parameters, "no request is made" is stated as "the result is the same whatever
the oracle answers".

## Model

| member | source | states |
|---|---|---|
| Common.Filter | Hermes.Website/Components/Service/ProductService.cs:239 | `Where` keeps only elements that satisfy the predicate and is never longer than its input |
| Common.FilterKeepsAll | Hermes.Website/Components/Service/ProductService.cs:239 | every element satisfying the predicate is kept |
| Common.FilterIsSubsequence | Hermes.Website/Components/Service/ProductService.cs:239 | `Where` keeps the input order |
| Common.FilterPartition | Hermes.Website/Components/Service/ProductService.cs:315-316 | filtering by a predicate and by its negation splits the input: the lengths add up, the results are disjoint |
| Common.FilterAll | Hermes.Website/Components/Service/ProductService.cs:221 | a predicate true everywhere returns the input |
| Common.FilterExtensional | Hermes.Website/Components/Service/ProductService.cs:315-316 | filters by equal predicates agree |
| Common.FilterSameLength | Hermes.Website/Components/Service/CartService.cs:94 | a filter that drops nothing returns its input |
| Common.CountWhere | Hermes.Website/Components/Service/ProductService.cs:315 | `Count(p)` is the length of `Where(p)` |
| Common.StartsWithTransitive | Hermes.CoreServiceAPI/Controller/ImagesController.cs:124 | a prefix of a prefix is a prefix |
| Base64.Encode | Hermes.Website/Components/Service/ImageService.cs:40 | four characters per started group of three bytes, all from the alphabet or padding, no padding for whole groups |
| Base64.RoundTrip | Hermes.Website/Components/Service/ImageService.cs:40 | decoding the encoding gives the bytes back |
| Base64.EncodeInjective | Hermes.Website/Components/Service/ImageService.cs:82 | different byte strings have different encodings |
| Base64.EncodeOfDecode | Hermes.Website/Components/Service/ImageService.cs:40 | every string the decoder accepts is the encoding of the bytes it decodes to |
| Base64.DecodeExact | Hermes.Website/Components/Service/ImageService.cs:40 | `Decode(s) == Some(b)` exactly when `s == Encode(b)`: the padded encodings, with zero padding bits, are the only accepted strings |
| Gateway.WorkspaceId | Hermes.Website/Components/Service/ApiService.cs:41-44 | the set workspace when positive, otherwise 1; always at least 1 |
| Models.Product.WithoutNavigation | Hermes.Website/Components/Service/ProductService.cs:144-149 | all six navigation objects cleared, editable fields, id, workspace and creation time kept |
| Models.Product.WithEditableFields | Hermes.Website/Components/Service/ProductService.cs:132-141 | the ten editable fields taken from the form, id, workspace, creation time and navigation kept |
| Models.ProductEntity.constructor | Hermes.Data.Product/Models/Product.cs:14-61 | a new object has every declared default |
| Models.ProductEntity.Deserialized | Hermes.Website/Components/Service/ProductService.cs:124 | the object received holds the fetched product |
| Models.ProductEntity.CopyEditableFields | Hermes.Website/Components/Service/ProductService.cs:132-141 | the ten field assignments give the product with the form's editable fields and nothing else changed |
| Models.ProductEntity.CopyDetails | Hermes.Website/Components/Service/ProductService.cs:132-135 | name, description, price and flag set; every other field unchanged |
| Models.ProductEntity.CopyImageMaterialCategoryKeys | Hermes.Website/Components/Service/ProductService.cs:136-138 | three keys set; every other field unchanged |
| Models.ProductEntity.CopyTagStockSeoKeys | Hermes.Website/Components/Service/ProductService.cs:139-141 | three keys set; every other field unchanged |
| Models.ProductEntity.ClearNavigation | Hermes.Website/Components/Service/ProductService.cs:144-149 | the six navigation properties become null, nothing else changes |
| Models.ProductEntity.ClearImageMaterialCategory | Hermes.Website/Components/Service/ProductService.cs:144-147 | image, category and material cleared; every other field unchanged |
| Models.ProductEntity.ClearTagStockSeo | Hermes.Website/Components/Service/ProductService.cs:146-149 | tag, stock and SEO cleared; every other field unchanged |
| Models.ProductEntity.Name | Hermes.Data.Product/Models/Product.cs:28-32 | the `Name` getter reads `Nom` |
| Models.ProductEntity.SetName | Hermes.Data.Product/Models/Product.cs:31 | the `Name` setter writes `Nom` and nothing else, and reads back |
| Models.ProductEntity.Price | Hermes.Data.Product/Models/Product.cs:35-39 | the `Price` getter reads `Prix` |
| Models.ProductEntity.SetPrice | Hermes.Data.Product/Models/Product.cs:38 | the `Price` setter writes `Prix` and nothing else, and reads back |
| Models.Validate | Hermes.Data.Product/Models/ProductCreateDto.cs:12-21 | no error exactly when the form is valid; a name error exactly for a blank name; a length error exactly for a non-blank name over 100 characters (a failed `[Required]` skips the other rules) or a description over 1000; a price error exactly outside 1 to 99999999 cents |
| Models.IsValid | Hermes.Data.Product/Models/ProductCreateDto.cs:12-21 | the annotation rules as one predicate; `Validate` is empty exactly when it holds |
| Models.Defaults | Hermes.Data.Product/Models/ProductCreateDto.cs:23-31 | declared defaults of product and form: workspace 0, empty name, unpublished, no keys or navigation; the default form fails on name and price |
| ImageCodec.GetImageDataUrl | Hermes.Website/Components/Service/ImageService.cs:93-97 | empty stays empty; otherwise the PNG `data:` prefix followed by exactly the payload, never taken for a URL |
| ImageCodec.GetDisplayUrl | Hermes.Website/Components/Service/ImageService.cs:111-123 | empty stays empty, a URL is returned unchanged, any other data becomes its `data:` URI; the result is a URL exactly when the input is |
| ImageCodec.ConvertFileToBase64 | Hermes.Website/Components/Service/ImageService.cs:26-46 | no file gives `""`; too large is refused; a failed read is a conversion error; success means the size was within the ceiling and the result is exactly `Encode` of the bytes read, which decodes back to them |
| ImageCodec.DownloadImageAsBase64 | Hermes.Website/Components/Service/ImageService.cs:51-88 | blank gives `""`; otherwise it succeeds exactly when every check passes (`DownloadAccepted`), and then the result is exactly `Encode` of the body, which decodes back to it |
| ImageCodec.DownloadAccepted | Hermes.Website/Components/Service/ImageService.cs:56-80 | the checks of a download: absolute `http`/`https` address, success status, `image/` media type, body read within the ceiling |
| ImageCodec.FailedRequestRefused | Hermes.Website/Components/Service/ImageService.cs:64-65 | no response, a failure status, or an unreadable body fails as a failed request |
| ImageCodec.IsUrl | Hermes.Website/Components/Service/ImageService.cs:102-106 | the classification; its properties are `EncodingIsNeverUrl`, `GetDisplayUrl` and the two agreement lemmas |
| ImageCodec.ValidImageAddress | Hermes.Website/Components/Service/ImageService.cs:56-60 | the address check; a failing address is refused without a request (`NoRequestForBadAddress`) |
| ImageCodec.DefaultCeilingAcceptsExactSize | Hermes.Website/Components/Service/ImageService.cs:26-31 | the default ceiling is 2097152 and a file of exactly that size is accepted |
| ImageCodec.OversizedFileNotRead | Hermes.Website/Components/Service/ImageService.cs:31-32 | an oversized file is refused whatever its stream holds |
| ImageCodec.NoRequestForBadAddress | Hermes.Website/Components/Service/ImageService.cs:53-60 | a blank or non-http(s) address is answered without the GET |
| ImageCodec.NonImageRefused | Hermes.Website/Components/Service/ImageService.cs:68-72 | a missing or non-`image/` content type fails the download |
| ImageCodec.OversizedBodyRefused | Hermes.Website/Components/Service/ImageService.cs:74-80 | a body over the ceiling fails, after it has been read |
| ImageCodec.EncodingIsNeverUrl | Hermes.Website/Components/Service/ImageService.cs:102-106 | no base64 encoding is classified as a URL |
| ImageCodec.DisplayOfEncodedUpload | Hermes.Website/Components/Service/ImageService.cs:111-123 | an uploaded file's encoding is displayed as its `data:` URI |
| ImageCodec.DataUrlPrefixLength | Hermes.Website/Components/Service/ImageService.cs:96 | the prefix has 22 characters; dropping them gives the payload back |
| ImageCodec.DisplayUrlWrapsTwice | Hermes.Website/Components/Service/ImageService.cs:121 | a `data:` URI given again is wrapped a second time |
| ImageCodec.ProductImageIsUrlAgrees | Hermes.Data.Product/Models/ProductImage.cs:17 | `ProductImage.IsUrl` agrees with `ImageService.IsUrl` on every string |
| Models.ProductImage.IsUrl | Hermes.Data.Product/Models/ProductImage.cs:17 | the holder's property; `ProductImageIsUrlAgrees`, `DefaultProductImageIsNotUrl` |
| ImageCodec.DefaultProductImageIsNotUrl | Hermes.Data.Product/Models/ProductImage.cs:13 | a default image is not a URL |
| Cart.Loaded | Hermes.Website/Components/Service/CartService.cs:71-111 | the loaded list holds only positive ids, in stored order |
| Cart.FirstIndex | Hermes.Website/Components/Service/CartService.cs:146 | the position of the first line of the product, or none when no line has it |
| Cart.Inc32 | Hermes.Website/Components/Service/CartService.cs:151 | the unchecked increment equals q + 1 modulo 2^32 |
| Cart.ProductIds | Hermes.Website/Components/Service/CartService.cs:282 | the group keys are exactly the product ids that occur |
| Cart.LoadSpec | Hermes.Website/Components/Service/CartService.cs:47-121 | the read as a function of the state; properties in `LoadEmpty`, `LoadFilters`, `LoadSynced`, `LoadNeverNotifies`, `ReloadIsStable` |
| Cart.EnsureLoaded | Hermes.Website/Components/Service/CartService.cs:141-144 | the lazy load of the mutations: the list is read only when not yet initialised; used by `AddExisting`, `AddNew`, `UpdatePositive`, `RemoveFirstOnly` |
| Cart.Save | Hermes.Website/Components/Service/CartService.cs:314-347 | the write of the live list; `SaveSynced` |
| Cart.AddSpec | Hermes.Website/Components/Service/CartService.cs:123-179 | the add; `AddRejectsInvalidId`, `AddExisting`, `AddNew`, `AddWrapsAround`, `AddKeepsSynced` |
| Cart.RemoveSpec | Hermes.Website/Components/Service/CartService.cs:219-247 | the removal; `RemoveFirstOnly`, `AbsentProductIsNoOp`, `RemoveKeepsSynced` |
| Cart.UpdateSpec | Hermes.Website/Components/Service/CartService.cs:181-217 | the update; `UpdateNonPositiveIsRemove`, `UpdatePositive`, `AbsentProductIsNoOp`, `UpdateKeepsSynced` |
| Cart.ClearSpec | Hermes.Website/Components/Service/CartService.cs:249-268 | the clear; `ClearEmptiesCart` |
| Cart.ItemCountSpec | Hermes.Website/Components/Service/CartService.cs:270-291 | the count; `CountOfWellFormed`, `OverflowZeroesCount`, `CountAndTotalExample` |
| Cart.TotalQuantitySpec | Hermes.Website/Components/Service/CartService.cs:296-312 | the total; `TotalIsSum`, `OverflowZeroesCount` |
| Cart.CheckedSum | Hermes.Website/Components/Service/CartService.cs:305-306 | the checked `Sum`; `CheckedSumFromIsExact`, `CheckedSumFromOverflow` |
| Cart.CheckedSumFrom | Hermes.Website/Components/Service/CartService.cs:306 | the checked running sum; `CheckedSumFromIsExact`, `CheckedSumFromOverflow` |
| Cart.AddTo | Hermes.Website/Components/Service/CartService.cs:146-168 | the list edit of an add; `AddToWellFormed` |
| Cart.SetQuantity | Hermes.Website/Components/Service/CartService.cs:204-207 | the list edit of an update; `SetQuantityWellFormed` |
| Cart.RemoveAt | Hermes.Website/Components/Service/CartService.cs:236 | the list edit of a removal; `RemoveAtWellFormed` |
| Cart.CartService.constructor | Hermes.Website/Components/Service/CartService.cs:22-30 | empty list, not initialised, over the given storage |
| Cart.CartService.SaveCart | Hermes.Website/Components/Service/CartService.cs:314-347 | follows `Save`: the live list is written to the slot when JavaScript is available |
| Cart.CartService.GetCartItems | Hermes.Website/Components/Service/CartService.cs:47-121 | follows `LoadSpec` |
| Cart.CartService.AddToCart | Hermes.Website/Components/Service/CartService.cs:123-179 | follows `AddSpec` |
| Cart.CartService.RemoveFromCart | Hermes.Website/Components/Service/CartService.cs:219-247 | follows `RemoveSpec` |
| Cart.CartService.UpdateQuantity | Hermes.Website/Components/Service/CartService.cs:181-217 | follows `UpdateSpec` |
| Cart.CartService.ClearCart | Hermes.Website/Components/Service/CartService.cs:249-268 | follows `ClearSpec` |
| Cart.CartService.GetCartItemCount | Hermes.Website/Components/Service/CartService.cs:270-291 | follows `ItemCountSpec` |
| Cart.CartService.GetCartTotalQuantity | Hermes.Website/Components/Service/CartService.cs:296-312 | follows `TotalQuantitySpec` |
| Cart.AddRejectsInvalidId | Hermes.Website/Components/Service/CartService.cs:128-132 | a non-positive id fails with an argument error, before the JavaScript check, with no change at all |
| Cart.UnavailableChangesNothing | Hermes.Website/Components/Service/CartService.cs:52-56 | without JavaScript the mutations throw and the reads return empty or 0, all with no change |
| Cart.LoadEmpty | Hermes.Website/Components/Service/CartService.cs:108-113 | an absent or empty slot gives an empty initialised cart |
| Cart.LoadFilters | Hermes.Website/Components/Service/CartService.cs:90-113 | the live list is the stored lines with positive ids; the slot is rewritten exactly when something was dropped; the cart becomes initialised |
| Cart.LoadKeepsDuplicatesAndZeros | Hermes.Website/Components/Service/CartService.cs:90 | a repeated product and a zero quantity survive loading; the count sees one product |
| Cart.LoadNeverNotifies | Hermes.Website/Components/Service/CartService.cs:94-106 | loading never notifies and writes at most once |
| Cart.AddExisting | Hermes.Website/Components/Service/CartService.cs:146-153 | a present product's first line gains exactly 1 and its update time, nothing else changes, then save then notify |
| Cart.AddNew | Hermes.Website/Components/Service/CartService.cs:155-171 | an absent product is appended with quantity 1 and both times now, then save then notify |
| Cart.AddWrapsAround | Hermes.Website/Components/Service/CartService.cs:151 | a line at `int.MaxValue` wraps to `int.MinValue` |
| Cart.UpdateNonPositiveIsRemove | Hermes.Website/Components/Service/CartService.cs:198-201 | a quantity of 0 or less on a present item does exactly what removal does |
| Cart.UpdatePositive | Hermes.Website/Components/Service/CartService.cs:204-207 | a positive quantity sets that line's quantity and update time only, then save then notify |
| Cart.AbsentProductIsNoOp | Hermes.Website/Components/Service/CartService.cs:195-196 | updating or removing an absent product only loads: no save, no notification |
| Cart.RemoveFirstOnly | Hermes.Website/Components/Service/CartService.cs:233-238 | only the first line of the product is removed, the rest keep their order, then save then notify |
| Cart.RemoveDuplicateExample | Hermes.Website/Components/Service/CartService.cs:236 | with a product twice, the second line stays |
| Cart.ClearEmptiesCart | Hermes.Website/Components/Service/CartService.cs:258-260 | the list is emptied, the slot becomes absent, one notification; count and total then read 0 |
| Cart.CheckedSumFromIsExact | Hermes.Website/Components/Service/CartService.cs:306 | a sum that did not overflow is the mathematical sum |
| Cart.CheckedSumFromOverflow | Hermes.Website/Components/Service/CartService.cs:306 | with no negative quantity, overflow happens exactly when the sum exceeds `int.MaxValue` |
| Cart.NonNegativeSum | Hermes.Website/Components/Service/CartService.cs:306 | quantities of at least 0 sum to at least 0 |
| Cart.TotalIsSum | Hermes.Website/Components/Service/CartService.cs:305-306 | the total is the sum of the quantities whenever the running sum does not overflow, and, with no negative quantity, whenever the sum fits an `int` |
| Cart.DistinctCount | Hermes.Website/Components/Service/CartService.cs:282 | lines with distinct ids form as many groups as lines |
| Cart.CountOfWellFormed | Hermes.Website/Components/Service/CartService.cs:282 | on a well-formed cart whose sum does not overflow, the count is the number of lines |
| Cart.CountAndTotalExample | Hermes.Website/Components/Service/CartService.cs:282-306 | product 1 three times and product 2 once: count 2, total 4 |
| Cart.OverflowZeroesCount | Hermes.Website/Components/Service/CartService.cs:283-289 | for every cart: when summing the loaded quantities overflows, the total and the count both read 0; with no negative quantity, whenever the sum exceeds `int.MaxValue` |
| Cart.OverflowExample | Hermes.Website/Components/Service/CartService.cs:283-306 | a line at `int.MaxValue` and one more article: total and count read 0 |
| Cart.AddToWellFormed | Hermes.Website/Components/Service/CartService.cs:146-168 | add keeps ids distinct and quantities at least 1, short of the wrap-around |
| Cart.SetQuantityWellFormed | Hermes.Website/Components/Service/CartService.cs:204-205 | setting a positive quantity keeps the cart well formed |
| Cart.RemoveAtWellFormed | Hermes.Website/Components/Service/CartService.cs:236 | removing a line keeps the cart well formed |
| Cart.MutationsKeepWellFormed | Hermes.Website/Components/Service/CartService.cs:146-258 | add, update, remove and clear keep distinct positive ids with quantities at least 1 |
| Cart.SaveSynced | Hermes.Website/Components/Service/CartService.cs:332-339 | after a save, live list and slot agree |
| Cart.LoadSynced | Hermes.Website/Components/Service/CartService.cs:71-113 | after a load, live list and slot agree |
| Cart.AddKeepsSynced | Hermes.Website/Components/Service/CartService.cs:141-171 | add keeps live list and slot in agreement |
| Cart.RemoveKeepsSynced | Hermes.Website/Components/Service/CartService.cs:228-238 | remove keeps them in agreement |
| Cart.UpdateKeepsSynced | Hermes.Website/Components/Service/CartService.cs:190-207 | update keeps them in agreement |
| Cart.ClearAndQueriesKeepSynced | Hermes.Website/Components/Service/CartService.cs:258-306 | clear and the two queries keep them in agreement |
| Cart.ReloadIsStable | Hermes.Website/Components/Service/CartService.cs:47-114 | reading an agreeing, loaded cart returns its list and changes nothing |
| Catalog.AllProducts | Hermes.Website/Components/Service/ProductService.cs:21-33 | the fetched array, or empty when the GET gave nothing |
| Catalog.FoldChar | Hermes.Website/Components/Service/ProductService.cs:221 | `a`-`z` and the Latin-1 lower-case letters map to their capitals (32 code points down), `ÿ` to `Ÿ`, `µ` to `Μ`; every other character is kept |
| Catalog.FoldCharIdempotent | Hermes.Website/Components/Service/ProductService.cs:221 | a mapped character maps to itself and is never a lower-case letter |
| Catalog.FoldIdempotent | Hermes.Website/Components/Service/ProductService.cs:221 | mapping a string twice maps it once |
| Catalog.ContainsIgnoreCaseOfFolded | Hermes.Website/Components/Service/ProductService.cs:221 | case-mapping the name or the term first does not change the comparison |
| Catalog.Fold | Hermes.Website/Components/Service/ProductService.cs:221 | one mapped character per character |
| Catalog.SearchFindsExactlyMatches | Hermes.Website/Components/Service/ProductService.cs:219-222 | exactly the products whose name contains the term without regard to case, in catalogue order |
| Catalog.SearchEmptyTermReturnsAll | Hermes.Website/Components/Service/ProductService.cs:221 | an empty term returns every product |
| Catalog.SearchIgnoresCase | Hermes.Website/Components/Service/ProductService.cs:221 | terms that differ only in case find the same products |
| Catalog.SearchExample | Hermes.Website/Components/Service/ProductService.cs:221 | "ours" finds "Ours brun" and "OURS", not "Lapin" |
| Catalog.ByStatusPartitions | Hermes.Website/Components/Service/ProductService.cs:238-239 | published and draft results are disjoint, order-preserving, and their lengths sum to the total |
| Catalog.ByCategoryExact | Hermes.Website/Components/Service/ProductService.cs:255-256 | exactly the products of that category, in order; none without a category |
| Catalog.Take | Hermes.Website/Components/Service/ProductService.cs:275 | a prefix of length min(max(count, 0), n) |
| Catalog.Search | Hermes.Website/Components/Service/ProductService.cs:215-229 | the search; `SearchFindsExactlyMatches`, `SearchEmptyTermReturnsAll`, `SearchIgnoresCase` |
| Catalog.ByStatus | Hermes.Website/Components/Service/ProductService.cs:234-246 | the status filter; `ByStatusPartitions` |
| Catalog.ByCategory | Hermes.Website/Components/Service/ProductService.cs:251-263 | the category filter; `ByCategoryExact` |
| Catalog.InsertByDate | Hermes.Website/Components/Service/ProductService.cs:274 | one step of the sort; `InsertSorted`, `InsertPermutes`, `InsertStable` |
| Catalog.SortByNewest | Hermes.Website/Components/Service/ProductService.cs:274 | the stable descending sort; `SortByNewestSorts`, `SortByNewestStable` |
| Catalog.Recent | Hermes.Website/Components/Service/ProductService.cs:268-283 | the recent products; `RecentProducts` |
| Catalog.RecentDefault | Hermes.Website/Components/Service/ProductService.cs:268 | without an argument, the count is 10: the ten newest, or all when fewer |
| Catalog.Statistics | Hermes.Website/Components/Service/ProductService.cs:306-327 | the statistics record; `StatisticsCounts`, `StatisticsPrices` |
| Catalog.InsertNoneNewer | Hermes.Website/Components/Service/ProductService.cs:274 | insertion keeps a bound on creation times |
| Catalog.InsertSorted | Hermes.Website/Components/Service/ProductService.cs:274 | insertion keeps the list newest first |
| Catalog.InsertPermutes | Hermes.Website/Components/Service/ProductService.cs:274 | insertion adds exactly the one product |
| Catalog.InsertStable | Hermes.Website/Components/Service/ProductService.cs:274 | insertion keeps the order among equal creation times |
| Catalog.SortByNewestSorts | Hermes.Website/Components/Service/ProductService.cs:274 | the sort is newest first and a permutation |
| Catalog.SortByNewestStable | Hermes.Website/Components/Service/ProductService.cs:274 | the sort is stable, as `OrderByDescending` is |
| Catalog.SplitNewest | Hermes.Website/Components/Service/ProductService.cs:274-275 | in a sorted list nothing after a cut is newer than anything before it |
| Catalog.TakeKeepsNewest | Hermes.Website/Components/Service/ProductService.cs:275 | nothing left out is newer than something kept |
| Catalog.PrefixSubMultiset | Hermes.Website/Components/Service/ProductService.cs:275 | a prefix draws on the list's elements |
| Catalog.RecentProducts | Hermes.Website/Components/Service/ProductService.cs:272-276 | newest first, drawn from the catalogue, of length min(max(count, 0), n), nothing left out newer than anything returned |
| Catalog.MinPrice | Hermes.Website/Components/Service/ProductService.cs:318 | a lower bound of every price, attained |
| Catalog.MaxPrice | Hermes.Website/Components/Service/ProductService.cs:319 | an upper bound of every price, attained |
| Catalog.PriceSumBounds | Hermes.Website/Components/Service/ProductService.cs:317 | n prices within bounds sum to between n·lo and n·hi |
| Catalog.MeanBounds | Hermes.Website/Components/Service/ProductService.cs:317 | the mean of such prices lies within the bounds |
| Catalog.StatisticsCounts | Hermes.Website/Components/Service/ProductService.cs:314-316 | total is n, published plus drafts is the total, each equals the status filter's length |
| Catalog.StatisticsPrices | Hermes.Website/Components/Service/ProductService.cs:317-319 | empty gives 0 for min, max and average; otherwise min ≤ every price ≤ max, both attained, average between them |
| Catalog.ProductFromDto | Hermes.Website/Components/Service/ProductService.cs:93-106 | the form's ten fields verbatim, the given workspace, id 0, no navigation |
| Catalog.CreateProduct | Hermes.Website/Components/Service/ProductService.cs:87-115 | builds that product with the gateway workspace (at least 1) and returns the POST's answer |
| Catalog.PreparedForUpdate | Hermes.Website/Components/Service/ProductService.cs:132-149 | the ten form fields, no navigation objects, id, workspace and creation time as fetched |
| Catalog.UpdateProduct | Hermes.Website/Components/Service/ProductService.cs:120-158 | no PUT and false when the product is missing; otherwise puts the prepared product and returns the PUT's success |
| ProductImages.ClientIsUrlAgrees | Hermes.Website/Components/Service/ProductImageService.cs:9-14 | `ClientProductImage.IsUrl` is false by default, agrees with `ImageService.IsUrl`, depends only on the data |
| ProductImages.ImageDto | Hermes.Website/Components/Service/ProductImageService.cs:46-52 | the data verbatim, the product as given (possibly none), the gateway workspace, the time; id 0, no product object |
| ProductImages.CreateImage | Hermes.Website/Components/Service/ProductImageService.cs:40-61 | the POST's answer to that record; none on failure |
| ProductImages.Successes | Hermes.Website/Components/Service/ProductImageService.cs:73-76 | the answers kept are never more than the records posted |
| ProductImages.SuccessesAppend | Hermes.Website/Components/Service/ProductImageService.cs:70-77 | the answers of two batches in sequence are the first's followed by the second's |
| ProductImages.FailureSkipped | Hermes.Website/Components/Service/ProductImageService.cs:73 | a failed image is dropped without stopping the ones after it |
| ProductImages.SuccessesSound | Hermes.Website/Components/Service/ProductImageService.cs:72-76 | every answer kept answers one posted record; all succeed gives one answer per record |
| ProductImages.CreateMultipleImages | Hermes.Website/Components/Service/ProductImageService.cs:66-80 | one record per picture, in order, with its data and the same product; the result is the successful answers in order |
| ProductImages.GetProductImages | Hermes.Website/Components/Service/ProductImageService.cs:101-113 | exactly the fetched images of that product, in fetched order; none on failure |
| Store.EmptyTablesValid | Hermes.CoreServiceAPI/DbContext/ProductWebsiteContext.cs:14-20 | empty tables satisfy the key invariant |
| Store.Lookup | Hermes.CoreServiceAPI/Controller/ProductsController.cs:132 | `FindAsync`: a row exactly when its key is present |
| Store.InsertGrows | Hermes.CoreServiceAPI/Controller/ProductsController.cs:109-110 | adding under a fresh key adds one row and keeps the others |
| Store.RemoveShrinks | Hermes.CoreServiceAPI/Controller/ProductsController.cs:172-173 | removing a present key removes one row |
| Store.ProductWebsiteContext.constructor | Hermes.CoreServiceAPI/DbContext/ProductWebsiteContext.cs:8-20 | a context over the given tables |
| ProductsApi.GetById | Hermes.CoreServiceAPI/Controller/ProductsController.cs:34-43 | the row, or 404 exactly when there is none |
| ProductsApi.GetByIdMatchesId | Hermes.CoreServiceAPI/Controller/ProductsController.cs:36-37 | the row found has the requested `Id`, and any row with that `Id` is found |
| ProductsApi.Related | Hermes.CoreServiceAPI/Controller/ProductsController.cs:60-76 | a related row only when the key has a value and the row exists |
| ProductsApi.GetByIdWithDetails | Hermes.CoreServiceAPI/Controller/ProductsController.cs:47-85 | 404 without the product; otherwise the product with image, category and SEO row each resolved from its key |
| ProductsApi.DetailsIgnoreUnkeyedTables | Hermes.CoreServiceAPI/Controller/ProductsController.cs:60-76 | an absent key gives null without consulting its table |
| ProductsApi.DetailsMatchKeys | Hermes.CoreServiceAPI/Controller/ProductsController.cs:62-75 | each related row found is the one whose `Id` is the key |
| ProductsApi.NewRow | Hermes.CoreServiceAPI/Controller/ProductsController.cs:98-107 | creation time now, navigation cleared, the generated id; editable fields and workspace as posted |
| ProductsApi.CreateSpec | Hermes.CoreServiceAPI/Controller/ProductsController.cs:89-122 | a throwing save gives 400 and no change; otherwise 201 with the new row stored under the next identity |
| ProductsApi.CreateAddsOneRow | Hermes.CoreServiceAPI/Controller/ProductsController.cs:109-114 | one row more, other rows and images untouched, tables still valid, the new row found by its id |
| ProductsApi.CreateIgnoresClientFields | Hermes.CoreServiceAPI/Controller/ProductsController.cs:98-107 | the posted id, creation time and navigation objects have no effect |
| ProductsApi.UpdateSpec | Hermes.CoreServiceAPI/Controller/ProductsController.cs:126-161 | 400 on an id mismatch, then 404 without the row, else the ten fields copied and 204 |
| ProductsApi.UpdateChecksIdFirst | Hermes.CoreServiceAPI/Controller/ProductsController.cs:128-134 | a mismatched id is refused with 400 whatever the table holds, and nothing changes |
| ProductsApi.UpdateTouchesOnlyEditableFields | Hermes.CoreServiceAPI/Controller/ProductsController.cs:137-160 | exactly the ten editable fields change; id, workspace, creation time and other rows stay; 204 |
| ProductsApi.DeleteSpec | Hermes.CoreServiceAPI/Controller/ProductsController.cs:165-176 | 404 without the row, else the row removed and 204 |
| ProductsApi.DeleteRemovesOnlyThatRow | Hermes.CoreServiceAPI/Controller/ProductsController.cs:172 | one row fewer, the others kept, tables still valid, the id then not found |
| ProductsApi.SetPublishedSpec | Hermes.CoreServiceAPI/Controller/ProductsController.cs:180-204 | 404 without the row, else `IsPublished` set and 204 |
| ProductsApi.SetPublishedIdempotent | Hermes.CoreServiceAPI/Controller/ProductsController.cs:182-203 | only that row's flag changes; a second identical call changes nothing and answers the same |
| ProductsApi.ProductsController.constructor | Hermes.CoreServiceAPI/Controller/ProductsController.cs:19-22 | the controller works on the given context |
| ProductsApi.ProductsController.Create | Hermes.CoreServiceAPI/Controller/ProductsController.cs:89-122 | changes the context as `CreateSpec` says |
| ProductsApi.ProductsController.Update | Hermes.CoreServiceAPI/Controller/ProductsController.cs:126-161 | changes the context as `UpdateSpec` says |
| ProductsApi.ProductsController.Delete | Hermes.CoreServiceAPI/Controller/ProductsController.cs:165-176 | changes the context as `DeleteSpec` says |
| ProductsApi.ProductsController.Publish | Hermes.CoreServiceAPI/Controller/ProductsController.cs:180-190 | sets the flag as `SetPublishedSpec` says |
| ProductsApi.ProductsController.Unpublish | Hermes.CoreServiceAPI/Controller/ProductsController.cs:194-204 | clears the flag as `SetPublishedSpec` says |
| ProductsApi.ProductsController.SetPublished | Hermes.CoreServiceAPI/Controller/ProductsController.cs:182-189 | the shared lookup, assignment and save |
| ImagesApi.GetById | Hermes.CoreServiceAPI/Controller/ImagesController.cs:28-36 | the image, or 404 exactly when there is none |
| ImagesApi.ImagesFrom | Hermes.CoreServiceAPI/Controller/ImagesController.cs:42-45 | only images of that product, each stored under a key in range |
| ImagesApi.ImagesFromAscending | Hermes.CoreServiceAPI/Controller/ImagesController.cs:44 | ids come out strictly increasing |
| ImagesApi.ImagesFromComplete | Hermes.CoreServiceAPI/Controller/ImagesController.cs:43 | every image of the product in range is listed |
| ImagesApi.GetByProductIdExact | Hermes.CoreServiceAPI/Controller/ImagesController.cs:40-48 | exactly the images with that `ProductId`, in strictly ascending `Id` order |
| ImagesApi.GetByProductId | Hermes.CoreServiceAPI/Controller/ImagesController.cs:40-48 | the query over the key range; `GetByProductIdExact` |
| ImagesApi.NewRow | Hermes.CoreServiceAPI/Controller/ImagesController.cs:62-66 | creation time now, id generated, product object cleared; data and product key as posted |
| ImagesApi.CreateSpec | Hermes.CoreServiceAPI/Controller/ImagesController.cs:52-81 | a throwing save gives 400 and no change; otherwise 201 with the new image stored under the next identity |
| ImagesApi.CreateAddsOneImage | Hermes.CoreServiceAPI/Controller/ImagesController.cs:68-73 | one image more, the others and the products untouched, tables still valid |
| ImagesApi.DeleteSpec | Hermes.CoreServiceAPI/Controller/ImagesController.cs:85-96 | 404 without the image, else the image removed and 204 |
| ImagesApi.DeleteRemovesOnlyThatImage | Hermes.CoreServiceAPI/Controller/ImagesController.cs:92 | one image fewer, the others and the products kept |
| ImagesApi.AssignSpec | Hermes.CoreServiceAPI/Controller/ImagesController.cs:100-114 | "Image not found", then "Product not found", else the image's product key set and 204 |
| ImagesApi.AssignChecksImageFirst | Hermes.CoreServiceAPI/Controller/ImagesController.cs:102-104 | a missing image is reported even when the product is missing too, and nothing changes |
| ImagesApi.AssignChangesOnlyProductKey | Hermes.CoreServiceAPI/Controller/ImagesController.cs:110-113 | only that image's `ProductId` changes, the tables stay valid, and the image is then listed for the product |
| ImagesApi.GetImageData | Hermes.CoreServiceAPI/Controller/ImagesController.cs:118-135 | 404 without the image; the URL flag is the loose `http` test, the base64 flag its negation, data and product key as stored |
| ImagesApi.LooseIsUrl | Hermes.CoreServiceAPI/Controller/ImagesController.cs:124 | the server's `StartsWith("http")` test; `StrictImpliesLoose`, `LooseIsLooser` |
| ImagesApi.StrictImpliesLoose | Hermes.CoreServiceAPI/Controller/ImagesController.cs:124 | everything `ImageService.IsUrl` accepts passes the loose test |
| ImagesApi.LooseIsLooser | Hermes.CoreServiceAPI/Controller/ImagesController.cs:124 | "httpx", and the genuine payload `Encode([0x86, 0xDB, 0x69]) == "http"`, pass the loose test only |
| ImagesApi.ImagesController.constructor | Hermes.CoreServiceAPI/Controller/ImagesController.cs:14-17 | the controller works on the given context |
| ImagesApi.ImagesController.Create | Hermes.CoreServiceAPI/Controller/ImagesController.cs:52-81 | changes the context as `CreateSpec` says |
| ImagesApi.ImagesController.Delete | Hermes.CoreServiceAPI/Controller/ImagesController.cs:85-96 | changes the context as `DeleteSpec` says |
| ImagesApi.ImagesController.AssignToProduct | Hermes.CoreServiceAPI/Controller/ImagesController.cs:100-114 | changes the context as `AssignSpec` says |

## Left out

- JSON serialisation and deserialisation are identities. Malformed JSON in the cart slot is not
  modelled, and neither are malformed product or image bodies; `Deserialize` returning null is read as
  an empty list.
- Local storage, the JavaScript `eval` probe, `localStorage.removeItem` and every `Console.WriteLine`
  are left out. Storage is one `Option` slot and the probe is a boolean fixed for the life of the
  service. A storage write that throws is not modelled.
- Concurrency is left out: the async cart operations race in the source, and the model runs them one
  after another.
- `DateTime.Now`/`UtcNow` is a timestamp parameter. `AddToCartAsync` reads the clock twice for a new
  line; the model gives both reads the same value.
- `ProductStatistics.AveragePrice` is decimal division; the model keeps the exact mean as a real, so
  decimal rounding is not modelled. `PublishedPercentage` (a `double`) and the `*Formatted` currency
  strings are culture-dependent and left out.
- Catalog.FoldChar: the case folding of `OrdinalIgnoreCase` is modelled on Basic Latin and Latin-1 only;
  other letters compare as they are.
- Prices (`decimal Prix`) are whole cents of unbounded size. Sub-cent amounts, the 28-digit limit of
  `decimal` and the unbounded `numeric` column are not modelled; the price range check is exact on cents.
- String lengths count characters, not UTF-16 code units, for the 100 and 1000 character limits.
- C# `StartsWith(string)` is culture-sensitive; the model compares ordinally.
- Null strings are not modelled: every string field is non-null.
- `ProductService`'s other calls are one-line gateway pass-throughs and are not modelled: get by id,
  the image by id, the product with details, delete, publish, unpublish and the count query. So are `ApiService`'s HTTP and URL
  composition and `ProductImageService.DeleteImageAsync`/`SetPrimaryImageAsync`.
- The controllers' `GetAll` endpoints return the whole table and are not modelled.
- Database exceptions other than a throwing save on creation are left out. This covers the
  concurrency exception handled in `Update` (ProductsController.cs:152-158) and foreign-key
  violations on delete.
- Catalog.CreateProduct, Catalog.UpdateProduct: the gateway's POST and PUT are pure functions of the
  request, so a server that answers the same request differently over time is not modelled.
- The server's database rows are values in maps. Entity tracking and the identity of the returned row
  object are left out.
- Cart.CartService: the live list holds `CartItem` values, not objects. Aliasing of the returned list
  (a caller mutating the list `GetCartItemsAsync` returned) is not modelled.
- Models.ProductEntity: the client's object writes are modelled. The controllers' writes on tracked
  entities are applied to the row values of the table, not to shared objects.
- The DOM observer script, the hosting and dependency-injection bootstrap and the mapping code of the
  other tables are not part of this model.
