/**
 * The catalog's HTTP handlers, reduced to what they decide: how the parsed
 * request parameters are normalised, which repository call they make (if
 * any), and which status and body they answer with for each repository
 * outcome. Query-string parsing happens before: a parameter that fails to
 * parse arrives as 0. Writing the response is left to the transport.
 */
module Catalog {
  import opened Wrappers
  import opened Models
  import opened Inheritance
  import opened Repository

  const StatusOK := 200
  const StatusBadRequest := 400
  const StatusNotFound := 404
  const StatusInternalServerError := 500

  /** The JSON body a handler writes. */
  datatype Body =
    | ProductsPage(products: seq<Product>, total: nat)
    | ProductBody(product: Product)
    | CategoryList(categories: seq<Category>)
    | CategoryBody(category: Category)
    | ErrorBody(message: string)

  datatype Response = Response(status: int, body: Body)

  /** A call a handler makes on the repository, with its arguments. */
  datatype RepoCall =
    | GetProductsCall(limit: int, offset: int, category: string, priceLessThan: int)
    | GetByCodeCall(code: string)
    | GetAllCategoriesCall
    | CreateCategoryCall(newCategory: Category)

  /** What a request leads to: the response, and the repository call made on the way (if any). */
  datatype Outcome = Outcome(response: Response, call: Option<RepoCall>)

  /** The decoded body of a create-category request. */
  datatype CategoryPayload = CategoryPayload(code: string, name: string)

  /** What the repository's `CreateCategory` reports: the category as written back, and the error. */
  datatype CreateResult = CreateResult(saved: Category, err: Option<StoreError>)

  /** The page size used: 10 when none (or a non-positive one) was given, at most 100. */
  function EffectiveLimit(parsed: int): (limit: int)
    ensures 1 <= limit <= 100
    ensures parsed <= 0 ==> limit == 10
    ensures parsed > 100 ==> limit == 100
    ensures 1 <= parsed <= 100 ==> limit == parsed
  {
    var limit := if parsed <= 0 then 10 else parsed;
    if limit > 100 then 100 else limit
  }

  /** The offset used: a negative one becomes 0. */
  function EffectiveOffset(parsed: int): (offset: int)
    ensures offset >= 0
    ensures parsed < 0 ==> offset == 0
    ensures parsed >= 0 ==> offset == parsed
  {
    if parsed < 0 then 0 else parsed
  }

  /** Normalising an already normalised limit or offset changes nothing. */
  lemma NormalisationIdempotent(limit: int, offset: int)
    ensures EffectiveLimit(EffectiveLimit(limit)) == EffectiveLimit(limit)
    ensures EffectiveOffset(EffectiveOffset(offset)) == EffectiveOffset(offset)
    ensures EffectiveLimit(limit) == limit <==> 1 <= limit <= 100
    ensures EffectiveOffset(offset) == offset <==> offset >= 0
  {
  }

  /**
   * `GET /catalog`: always one `GetProducts` call with the normalised limit and
   * offset and the filters as given; 500 on its error, else 200 with exactly
   * the page and total it returned.
   */
  function HandleGet(
    limitParam: int, offsetParam: int, category: string, priceLessThan: int,
    getProducts: (int, int, string, int) -> ListResult): (o: Outcome)
    ensures o.call.Some? && o.call.value.GetProductsCall?
    ensures 1 <= o.call.value.limit <= 100 && o.call.value.offset >= 0
    ensures o.call.value.category == category && o.call.value.priceLessThan == priceLessThan
    ensures o.call.value == GetProductsCall(EffectiveLimit(limitParam), EffectiveOffset(offsetParam), category, priceLessThan)
    ensures var res := getProducts(o.call.value.limit, o.call.value.offset, category, priceLessThan);
      && (res.err.Some? ==> o.response == Response(StatusInternalServerError, ErrorBody("Could not fetch products")))
      && (res.err.None? ==> o.response == Response(StatusOK, ProductsPage(res.products, res.total)))
  {
    var limit := EffectiveLimit(limitParam);
    var offset := EffectiveOffset(offsetParam);
    var res := getProducts(limit, offset, category, priceLessThan);
    var call := Some(GetProductsCall(limit, offset, category, priceLessThan));
    if res.err.Some? then
      Outcome(Response(StatusInternalServerError, ErrorBody("Could not fetch products")), call)
    else
      Outcome(Response(StatusOK, ProductsPage(res.products, res.total)), call)
  }

  /**
   * `GET /catalog/{code}`: an empty code is a 400 without any repository
   * call; otherwise one `GetByCode` call, any error of which is a 404.
   */
  function HandleGetByCode(code: string, getByCode: string -> Result<Product, StoreError>): (o: Outcome)
    ensures o.call.None? <==> code == ""
    ensures code == "" ==> o.response == Response(StatusBadRequest, ErrorBody("Product code is required"))
    ensures code != "" ==> o.call == Some(GetByCodeCall(code))
    ensures code != "" && getByCode(code).Err? ==> o.response == Response(StatusNotFound, ErrorBody("Product not found"))
    ensures code != "" && getByCode(code).Ok? ==> o.response == Response(StatusOK, ProductBody(getByCode(code).value))
  {
    if code == "" then
      Outcome(Response(StatusBadRequest, ErrorBody("Product code is required")), None)
    else
      match getByCode(code)
      case Err(_) => Outcome(Response(StatusNotFound, ErrorBody("Product not found")), Some(GetByCodeCall(code)))
      case Ok(p) => Outcome(Response(StatusOK, ProductBody(p)), Some(GetByCodeCall(code)))
  }

  /** `GET /categories`: one `GetAllCategories` call; 500 on its error, else 200 with the list. */
  function HandleGetCategories(categories: seq<Category>, err: Option<StoreError>): (o: Outcome)
    ensures o.call == Some(GetAllCategoriesCall)
    ensures err.Some? <==> o.response.status == StatusInternalServerError
    ensures err.Some? ==> o.response.body == ErrorBody("Failed to fetch categories")
    ensures err.None? ==> o.response == Response(StatusOK, CategoryList(categories))
  {
    if err.Some? then
      Outcome(Response(StatusInternalServerError, ErrorBody("Failed to fetch categories")), Some(GetAllCategoriesCall))
    else
      Outcome(Response(StatusOK, CategoryList(categories)), Some(GetAllCategoriesCall))
  }

  /** The answer to a create request once the repository was called. */
  function CreatedResponse(res: CreateResult): Response
  {
    if res.err.Some? then Response(StatusInternalServerError, ErrorBody("Failed to create category"))
    else Response(StatusOK, CategoryBody(res.saved))
  }

  /**
   * `POST /categories`: a body that does not decode, or an empty code or name
   * (compared with "" as is, without trimming), is a 400 without any
   * repository call. Otherwise one `CreateCategory` call with a category whose
   * key is still 0; every error of it is the same 500, and a success is a 200
   * with the category as the repository wrote it back.
   */
  function HandleCreateCategory(body: Option<CategoryPayload>, create: Category -> CreateResult): (o: Outcome)
    ensures o.call.None? <==> body.None? || body.value.code == "" || body.value.name == ""
    ensures body.None? ==> o.response == Response(StatusBadRequest, ErrorBody("Invalid request body"))
    ensures body.Some? && (body.value.code == "" || body.value.name == "") ==>
      o.response == Response(StatusBadRequest, ErrorBody("Category code and name are required"))
    ensures o.call.Some? ==> o.call.value == CreateCategoryCall(Category(0, body.value.code, body.value.name))
    ensures o.call.Some? && create(o.call.value.newCategory).err.Some? ==>
      o.response == Response(StatusInternalServerError, ErrorBody("Failed to create category"))
    ensures o.call.Some? && create(o.call.value.newCategory).err.None? ==>
      o.response == Response(StatusOK, CategoryBody(create(o.call.value.newCategory).saved))
  {
    match body
    case None => Outcome(Response(StatusBadRequest, ErrorBody("Invalid request body")), None)
    case Some(payload) =>
      if payload.code == "" || payload.name == "" then
        Outcome(Response(StatusBadRequest, ErrorBody("Category code and name are required")), None)
      else
        var category := Category(0, payload.code, payload.name);
        Outcome(CreatedResponse(create(category)), Some(CreateCategoryCall(category)))
  }

  /**
   * `POST /categories` against the categories table itself: the handler's
   * decisions, with the table's insert as the repository. A created category
   * carries the request's code and name and the key the table assigned.
   */
  method ServeCreateCategory(store: CategoryTable, body: Option<CategoryPayload>, failure: Option<StoreError>)
    returns (o: Outcome)
    requires store.Valid()
    modifies store
    ensures store.Valid()
    ensures var next := old(store.nextId);
      o == HandleCreateCategory(body, (c: Category) =>
        if failure.None? then CreateResult(c.(id := next), None) else CreateResult(c, failure))
    ensures o.response.status != StatusOK ==> store.rows == old(store.rows) && store.nextId == old(store.nextId)
    ensures o.response.status == StatusOK ==>
      && body.Some?
      && o.response.body == CategoryBody(Category(old(store.nextId), body.value.code, body.value.name))
      && store.rows == old(store.rows) + [o.response.body.category]
      && store.nextId == old(store.nextId) + 1
  {
    var next := store.nextId;
    var create := (c: Category) =>
      if failure.None? then CreateResult(c.(id := next), None) else CreateResult(c, failure);
    match body
    case None =>
      o := Outcome(Response(StatusBadRequest, ErrorBody("Invalid request body")), None);
    case Some(payload) =>
      if payload.code == "" || payload.name == "" {
        o := Outcome(Response(StatusBadRequest, ErrorBody("Category code and name are required")), None);
      } else {
        var category := Category(0, payload.code, payload.name);
        var saved, err := store.CreateCategory(category, failure);
        assert CreateResult(saved, err) == create(category);
        o := Outcome(CreatedResponse(CreateResult(saved, err)), Some(CreateCategoryCall(category)));
      }
  }

  /**
   * The listing end to end on a table whose statements succeed: a 200 whose
   * total counts every match and whose page holds at most 100 products, all
   * matching the filters as given.
   */
  lemma ListingThroughRepository(table: seq<Product>, limitParam: int, offsetParam: int, category: string, priceLessThan: int)
    ensures var o := HandleGet(limitParam, offsetParam, category, priceLessThan,
        (l, off, c, b) => GetProducts(table, l, off, c, b, None, None));
      && o.response.status == StatusOK
      && o.response.body.ProductsPage?
      && o.response.body.total == |Filtered(table, category, priceLessThan)|
      && |o.response.body.products| <= 100
      && forall k :: 0 <= k < |o.response.body.products| ==>
        Matches(o.response.body.products[k], category, priceLessThan)
  {
  }

  /**
   * A listing request without parameters (or with limit 0 and a negative
   * offset) and no filters answers with the first ten products of the table,
   * through the load hook, and the size of the whole table as total.
   */
  lemma DefaultListing(table: seq<Product>, offsetParam: int)
    requires offsetParam <= 0
    ensures HandleGet(0, offsetParam, "", 0, (l, off, c, b) => GetProducts(table, l, off, c, b, None, None)).response
         == Response(StatusOK, ProductsPage(ResolveAll(table[..Min(10, |table|)]), |table|))
  {
    InactiveFiltersKeepAll(table, 0);
    assert Page(table, 10, 0) == table[..Min(10, |table|)];
    assert GetProducts(table, 10, 0, "", 0, None, None)
        == ListResult(ResolveAll(table[..Min(10, |table|)]), |table|, None);
  }

  /** The example of a product with one unpriced and one priced variant, looked up by its code. */
  lemma InheritedPriceOnLookup()
    ensures var category := Category(1, "clothing", "Clothing");
      var p := Product(1, "PROD001", 10000, 1, category,
        [Variant(1, 1, "Variant 1", "V1", 0), Variant(2, 1, "Variant 2", "V2", 7500)]);
      var o := HandleGetByCode("PROD001", code => GetByCode([p], code, None));
      && o.response.status == StatusOK
      && o.response.body.ProductBody?
      && o.response.body.product.variants[0].priceCents == 10000
      && o.response.body.product.variants[1].priceCents == 7500
  {
  }
}
