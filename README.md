# Catalog service core in Dafny

A model of the core of a small Go catalog service. The service lists products
with pagination and filtering, looks a product up by its code, lists
categories and creates them. Three pieces of logic are modelled:

- **Variant price inheritance** (`Inheritance`). After a product is loaded
  with its variants, a hook gives every variant whose stored price is zero
  the product's base price. A zero price covers both an unset (NULL) price
  and an explicit 0. The specification function is `ResolveVariants`. The
  hook itself is the in-place loop `LoadedProduct.AfterFind` over the
  variants array, and it is proved against that function.
- **The repository** (`Repository`). The products table is a `seq<Product>`
  in primary-key order; each row holds its category and its variants as
  stored. `GetProducts` filters, counts all matches, then slices
  `LIMIT`/`OFFSET`. `GetByCode` returns the first row with the code. Both
  hand out their products through the hook. The categories table is a class
  (`CategoryTable`), because creating a category appends a row and writes
  the assigned key back to the caller.
- **The HTTP handlers** (`Catalog`). Each handler is a function. Its inputs
  are the already-parsed request parameters and the repository's answer,
  passed as a function or as values. It returns the status and body, plus
  the repository call it made, or `None` when it made no call.
  `ServeCreateCategory` runs the create handler against a `CategoryTable`.

Prices are whole cents, since the price columns are `decimal(10,2)`. The
`priceLessThan` bound is also in cents. A query parameter that fails to parse
arrives as 0, which is what Go's `strconv` returns on failure. Storage
failures are parameters: `None` means the statement succeeds, and `Some(e)`
means it reports `e`.

Two behaviours of the code are kept as written. A category's code and name
are compared with `""` as given, with no trimming, so `" "` counts as a
non-empty code. Every `CreateCategory` error, a duplicate code included, is
answered with the same 500; there is no separate conflict case.

## Model

| member | source | states |
|---|---|---|
| `Inheritance.EffectivePrice` | models/products.go:26-27 | A definition with no contract of its own: the rule for one stored price, where zero (NULL or 0) means the base price and anything else is kept. Its properties are stated by the lemmas on `ResolveVariants`. |
| `Inheritance.ResolveVariant` | models/products.go:26-27 | A definition with no contract of its own: one variant with the rule applied to its price field only. |
| `Inheritance.ResolveVariants` | models/products.go:24-29 | The hook keeps the number of variants. |
| `Inheritance.ResolveProduct` | models/products.go:23-31 | The hook changes nothing in the product except its variants: id, code, base price, category id and category stay the same, and so does the number of variants. |
| `Inheritance.ResolvedAt` | models/products.go:24-28 | The variant at each position after the hook is the rule applied to the variant at that same position. |
| `Inheritance.ZeroPriceInherits` | models/products.go:26-27 | Every variant whose stored price is zero ends up with the product's base price. |
| `Inheritance.NonZeroPriceKept` | models/products.go:26 | Every variant with a non-zero stored price keeps that price, whatever the base price is. |
| `Inheritance.VariantShapeKept` | models/products.go:24-28 | The number and order of the variants stay the same. Each variant keeps its id, product id, name and SKU; only its price can change. |
| `Inheritance.ZeroOnlyIfBaseZero` | models/products.go:26-27 | After the hook, a variant price is zero only if the base price is zero. |
| `Inheritance.ResolveVariantsIdempotent` | models/products.go:26-27 | Resolving a resolved variant list again with the same base price changes nothing. |
| `Inheritance.ResolveProductIdempotent` | models/products.go:23-31 | Running the hook twice on a product gives the same product as running it once. |
| `Inheritance.LoadedProduct.Load` | models/products.go:8-16 | A loaded product object holds exactly the given record, and its variants array is freshly allocated. |
| `Inheritance.LoadedProduct.AfterFind` | models/products.go:23-31 | The loop rewrites the variants array in place into `ResolveVariants` of its old contents at the product's base price. No field of the product changes, and the returned error is always nil. |
| `Repository.Matches` | models/products_repository.go:34-41 | A definition with no contract of its own: the listing's WHERE clause. The category-code condition applies only to a non-empty category, and the strict base-price bound only to a positive bound. This is what "satisfies the filters" means in the contracts of `Filtered`, `GetProducts` and `ListingThroughRepository`. |
| `Repository.Filtered` | models/products_repository.go:33-41 | The selected rows are never more than the table's rows, and every one of them satisfies both active filters. The category filter is active only for a non-empty code; the strict price bound is active only for a positive bound. |
| `Repository.FilteredExactly` | models/products_repository.go:34-41 | The filter keeps exactly the matching products. A matching product appears as many times as it does in the table, and a product that does not match does not appear. |
| `Repository.InactiveFiltersKeepAll` | models/products_repository.go:33-41 | With an empty category and a non-positive bound, the whole table is selected, in its order. |
| `Repository.Page` | models/products_repository.go:48-49 | The page is the contiguous run of rows starting at the offset. For a non-negative limit and offset it holds `min(limit, max(0, total - offset))` rows; a negative limit means no limit. |
| `Repository.PagesCoverAll` | models/products_repository.go:49 | Paging through all pages of a positive size, starting at an offset, returns every row from that offset on, exactly once and in order. |
| `Repository.ResolveAll` | models/products_repository.go:49 | A definition with no contract of its own: the load hook applied to every row of the fetched page, in order. |
| `Repository.GetProducts` | models/products_repository.go:26-52 | A failed count returns no products, total 0 and the error. Otherwise `total` is the number of matching rows, counted before paging. Product k on the page is the hook's result on match number offset+k, it satisfies both filters, and the page size is `min(limit, max(0, total - offset))`. |
| `Repository.TotalIgnoresPaging` | models/products_repository.go:43-49 | The total is the same for any limit and offset. |
| `Repository.FirstWithCode` | models/products_repository.go:56-57 | The position returned holds the given code, and no earlier position from the start point does. `None` means no row from the start point on has that code. |
| `Repository.GetByCode` | models/products_repository.go:54-62 | A storage failure is passed on. Otherwise the lookup succeeds exactly when some row has the code. It then returns the hook's result on the first such row in primary-key order. When no row has the code the error is `RecordNotFound`. |
| `Repository.CategoryTable.GetAllCategories` | models/products_repository.go:64-68 | Returns every category in the table, in order, unless the read fails. A failed read returns its error and no categories. |
| `Repository.CategoryTable.CreateCategory` | models/products_repository.go:70-72 | On success, exactly one row is appended and the existing rows stay the same. The new row has the given code and name and a key that is not 0. A zero key becomes the next sequence value, which is handed back to the caller. On failure nothing changes and the category is handed back as it was. |
| `Repository.CreatedCategoryIsListed` | models/products_repository.go:64-72 | After a successful create, listing the categories returns the old rows followed by the new one. |
| `Catalog.EffectiveLimit` | app/catalog/handler.go:27-36 | The limit is 10 when the parsed limit is at most 0 (a failed parse gives 0), 100 when it is above 100, and unchanged otherwise. It always lies in [1,100]. |
| `Catalog.EffectiveOffset` | app/catalog/handler.go:28-39 | The offset is 0 when the parsed offset is negative, and unchanged otherwise. It is never negative. |
| `Catalog.NormalisationIdempotent` | app/catalog/handler.go:31-39 | Normalising a second time changes nothing. A value is left unchanged exactly when it is already in range. |
| `Catalog.HandleGet` | app/catalog/handler.go:22-58 | There is always exactly one `GetProducts` call. It gets the normalised limit and offset, and the category and price bound reach it unchanged. A repository error yields 500 "Could not fetch products". Otherwise the status is 200 and the body holds exactly the products and total returned. |
| `Catalog.HandleGetByCode` | app/catalog/handler.go:59-77 | An empty code yields 400 and no repository call. Otherwise there is one `GetByCode` call with that code: any error yields 404, and a success yields 200 with the product. |
| `Catalog.HandleGetCategories` | app/catalog/handler.go:80-88 | There is one `GetAllCategories` call. The status is 500 exactly when that call fails; otherwise it is 200 with the list. |
| `Catalog.CreatedResponse` | app/catalog/handler.go:106-111 | A definition with no contract of its own: any `CreateCategory` error gives 500 "Failed to create category", and a success gives 200 with the written-back category. `HandleCreateCategory` and `ServeCreateCategory` state this in their contracts. |
| `Catalog.HandleCreateCategory` | app/catalog/handler.go:91-112 | A body that does not decode, or an empty code or name (compared with "" as written, no trimming), yields 400 and no repository call. Otherwise there is one `CreateCategory` call with key 0 and the request's code and name. Every error of that call yields the same 500; a success yields 200 with the category the repository wrote back. |
| `Catalog.ServeCreateCategory` | app/catalog/handler.go:91-112 | Run against the categories table, the create handler gives the outcome that `HandleCreateCategory` describes. A 200 returns the request's code and name with the key the table assigned, and that category is appended to the table. Any other status leaves the table unchanged. |
| `Catalog.ListingThroughRepository` | app/catalog/handler.go:46-57 | With a repository whose statements succeed, listing yields 200. The total is the number of all matches, the page holds at most 100 products, and every product on it satisfies the filters. |
| `Catalog.DefaultListing` | app/catalog/handler_test.go:29-47 | A listing with limit 0, an offset of at most 0 and no filters uses limit 10. It answers 200 with the hook's result on the first ten products and the size of the table as total. |
| `Catalog.InheritedPriceOnLookup` | app/catalog/handler.go:68-76 | Looking up PROD001 (base price 100.00) shows 100.00 for its unpriced variant V1 and 75.00 for V2, which keeps its own price. |

## Left out

- HTTP routing, query-string and path extraction, response writing and JSON encoding: the model covers only each handler's status and body as an abstract value.
- JSON decoding of the create-category body: a body that does not decode is the input `None`. The key is never read from JSON, so a decoded category always starts with key 0.
- `strconv.Atoi` and `strconv.ParseFloat`: they are inputs. A failed parse gives 0, and an out-of-range integer gives the clamped value Go's parser returns.
- Go's 64-bit `int` and `int64`: limit, offset and total are unbounded integers. After the handler's clamping no wrap-around is reachable.
- The float64 bound `priceLessThan` and its comparison with a decimal column: the bound is integer cents. NaN, infinities and bounds between two cents are not modelled.
- The decimal column range (`decimal(10,2)`): prices are unbounded integers of cents.
- Repository.GetProducts: if the page fetch fails after a successful count, the rows gorm may have filled in are taken as none; the total and the error are kept.
- Repository.GetProducts: there is no ORDER BY, so table row order is assumed. A database may return another order.
- Repository: gorm and SQL machinery is taken on trust: preloading, the join on the category, SQL text, the driver. Each product is assumed to carry the category its category id refers to. The filter condition `category.code` is assumed to name the joined category's code. gorm gives the joined table the quoted alias `"Category"`, and Postgres folds the unquoted `category` to lower case, so as written a category-filtered listing may fail on Postgres and answer 500. This was not executed; the model takes the intended meaning.
- Repository.CategoryTable.CreateCategory: uniqueness of codes is left to the storage layer and appears only as the failure parameter. A non-zero key given by the caller is kept and does not advance the sequence.
- Repository.CategoryTable.CreateCategory: a duplicate code is not detected as a conflict, matching the code.
- Repository.CategoryTable.CreateCategory: a failed insert is treated as using no key (`nextId` is unchanged). On Postgres a serial key is already drawn when a unique-code violation is raised. No response depends on the key, which is never serialised.
- Repository.CategoryTable.GetAllCategories: the query has no ORDER BY, so insertion order is assumed. A database may return another order.
- Process start-up, environment loading, signal handling, the server goroutine and graceful shutdown (cmd/server/main.go): process I/O and concurrency.
- The test double in app/catalog/handler_test.go is not modelled. Its checks are stated as properties of the handlers.
