/**
 * The product repository over in-memory tables. The products table is a
 * sequence in primary-key order holding each product with its category and
 * its variants as stored (the preloads); every product the repository hands
 * out has been through the load hook. The storage layer's own failures are
 * parameters: `None` for a statement that succeeds, `Some(e)` for one that
 * reports `e`.
 */
module Repository {
  import opened Wrappers
  import opened Models
  import opened Inheritance

  function Min(a: int, b: int): int { if a <= b then a else b }

  function Max(a: int, b: int): int { if a <= b then b else a }

  /**
   * The listing query's WHERE clause: the category-code condition is there
   * only for a non-empty `category`, the strict base-price bound only for a
   * positive `priceLessThan`.
   */
  predicate Matches(p: Product, category: string, priceLessThan: int)
  {
    && (category == "" || p.category.code == category)
    && (priceLessThan <= 0 || p.priceCents < priceLessThan)
  }

  /** The rows the listing query selects, in table order. */
  function Filtered(table: seq<Product>, category: string, priceLessThan: int): (r: seq<Product>)
    ensures |r| <= |table|
    ensures forall k :: 0 <= k < |r| ==> Matches(r[k], category, priceLessThan)
  {
    if table == [] then []
    else
      (if Matches(table[0], category, priceLessThan) then [table[0]] else [])
      + Filtered(table[1..], category, priceLessThan)
  }

  /**
   * The filter keeps exactly the matching rows: a matching product occurs as
   * often as in the table, any other product not at all.
   */
  lemma {:induction false} FilteredExactly(table: seq<Product>, category: string, priceLessThan: int)
    ensures forall p ::
      multiset(Filtered(table, category, priceLessThan))[p]
        == if Matches(p, category, priceLessThan) then multiset(table)[p] else 0
    ensures forall p ::
      p in Filtered(table, category, priceLessThan) <==> p in table && Matches(p, category, priceLessThan)
  {
    if table != [] {
      FilteredExactly(table[1..], category, priceLessThan);
      assert table == [table[0]] + table[1..];
      assert multiset(table) == multiset{table[0]} + multiset(table[1..]);
    }
    forall p
      ensures p in Filtered(table, category, priceLessThan) <==> p in table && Matches(p, category, priceLessThan)
    {
      assert p in Filtered(table, category, priceLessThan) <==> multiset(Filtered(table, category, priceLessThan))[p] > 0;
      assert p in table <==> multiset(table)[p] > 0;
    }
  }

  /** With neither filter active the query selects the whole table, in order. */
  lemma {:induction false} InactiveFiltersKeepAll(table: seq<Product>, priceLessThan: int)
    requires priceLessThan <= 0
    ensures Filtered(table, "", priceLessThan) == table
  {
    if table != [] {
      InactiveFiltersKeepAll(table[1..], priceLessThan);
      assert table == [table[0]] + table[1..];
    }
  }

  /**
   * `LIMIT limit OFFSET offset` over the selected rows, as the query builder
   * renders them: a negative limit adds no LIMIT, an offset that is not
   * positive adds no OFFSET, and an offset past the end selects nothing.
   */
  function Page<T>(s: seq<T>, limit: int, offset: int): (r: seq<T>)
    ensures Max(offset, 0) + |r| <= |s| || r == []
    ensures forall k :: 0 <= k < |r| ==> Max(offset, 0) + k < |s| && r[k] == s[Max(offset, 0) + k]
    ensures limit >= 0 && offset >= 0 ==> |r| == Min(limit, Max(0, |s| - offset))
    ensures limit < 0 ==> |r| == Max(0, |s| - Max(offset, 0))
  {
    var start := Min(Max(offset, 0), |s|);
    var rest := s[start..];
    if 0 <= limit < |rest| then rest[..limit] else rest
  }

  /** All pages of size `limit`, from `offset` on, one after the other. */
  function Pages<T>(s: seq<T>, limit: int, offset: nat): seq<T>
    requires limit >= 1
    decreases |s| - offset
  {
    if offset >= |s| then [] else Page(s, limit, offset) + Pages(s, limit, offset + limit)
  }

  /** Walking the pages from `offset` yields every remaining row once, in order. */
  lemma {:induction false} PagesCoverAll<T>(s: seq<T>, limit: int, offset: nat)
    requires limit >= 1 && offset <= |s|
    ensures Pages(s, limit, offset) == s[offset..]
    decreases |s| - offset
  {
    if offset < |s| {
      var p := Page(s, limit, offset);
      if offset + limit <= |s| {
        PagesCoverAll(s, limit, offset + limit);
        assert p == s[offset..offset + limit];
        assert s[offset..] == s[offset..offset + limit] + s[offset + limit..];
      } else {
        assert p == s[offset..];
      }
    }
  }

  /** The products of a page, each through the load hook. */
  function ResolveAll(ps: seq<Product>): seq<Product>
  {
    seq(|ps|, i requires 0 <= i < |ps| => ResolveProduct(ps[i]))
  }

  /** What `GetProducts` returns: the page, the count of all matches, and the error. */
  datatype ListResult = ListResult(products: seq<Product>, total: nat, err: Option<StoreError>)

  /**
   * The listing: filter, count all matches before paging, then fetch the page
   * of matches starting at `offset`. A failed count gives no products, total 0
   * and its error; a failed fetch gives its error (its rows are taken as none).
   */
  function GetProducts(
    table: seq<Product>, limit: int, offset: int, category: string, priceLessThan: int,
    countFailure: Option<StoreError>, findFailure: Option<StoreError>): (r: ListResult)
    ensures countFailure.Some? ==> r == ListResult([], 0, countFailure)
    ensures countFailure.None? ==> r.err == findFailure && r.total == |Filtered(table, category, priceLessThan)|
    ensures r.err.None? ==> forall k :: 0 <= k < |r.products| ==>
      Matches(r.products[k], category, priceLessThan)
    ensures r.err.None? ==> forall k :: 0 <= k < |r.products| ==>
      Max(offset, 0) + k < r.total
      && r.products[k] == ResolveProduct(Filtered(table, category, priceLessThan)[Max(offset, 0) + k])
    ensures r.err.None? && limit >= 0 && offset >= 0 ==> |r.products| == Min(limit, Max(0, r.total - offset))
  {
    var matches := Filtered(table, category, priceLessThan);
    if countFailure.Some? then ListResult([], 0, countFailure)
    else if findFailure.Some? then ListResult([], |matches|, findFailure)
    else ListResult(ResolveAll(Page(matches, limit, offset)), |matches|, None)
  }

  /** The total does not depend on the page asked for. */
  lemma TotalIgnoresPaging(
    table: seq<Product>, limit1: int, offset1: int, limit2: int, offset2: int,
    category: string, priceLessThan: int, findFailure1: Option<StoreError>, findFailure2: Option<StoreError>)
    ensures GetProducts(table, limit1, offset1, category, priceLessThan, None, findFailure1).total
         == GetProducts(table, limit2, offset2, category, priceLessThan, None, findFailure2).total
  {
  }

  /** The position of the first row (in primary-key order) at or after `from` with the code. */
  function FirstWithCode(table: seq<Product>, code: string, from: nat): (r: Option<nat>)
    requires from <= |table|
    ensures r.Some? ==>
      && from <= r.value < |table|
      && table[r.value].code == code
      && forall j :: from <= j < r.value ==> table[j].code != code
    ensures r.None? ==> forall j :: from <= j < |table| ==> table[j].code != code
    decreases |table| - from
  {
    if from == |table| then None
    else if table[from].code == code then Some(from)
    else FirstWithCode(table, code, from + 1)
  }

  /**
   * Lookup by code: the first product in primary-key order with that code,
   * through the load hook; `RecordNotFound` when there is none.
   */
  function GetByCode(table: seq<Product>, code: string, failure: Option<StoreError>): (r: Result<Product, StoreError>)
    ensures failure.Some? ==> r == Err(failure.value)
    ensures failure.None? ==> (r.Ok? <==> exists k :: 0 <= k < |table| && table[k].code == code)
    ensures failure.None? && r.Err? ==> r.error == RecordNotFound
    ensures r.Ok? ==> r.value.code == code
    ensures r.Ok? ==>
      exists i ::
        && 0 <= i < |table|
        && table[i].code == code
        && (forall j :: 0 <= j < i ==> table[j].code != code)
        && r.value == ResolveProduct(table[i])
  {
    if failure.Some? then Err(failure.value)
    else match FirstWithCode(table, code, 0)
      case None => Err(RecordNotFound)
      case Some(i) => Ok(ResolveProduct(table[i]))
  }

  /**
   * The categories table. Rows are kept in insertion order; `nextId` is the
   * next value of the key sequence.
   */
  class CategoryTable {
    var rows: seq<Category>
    var nextId: nat

    /** Keys come from a sequence starting at 1, so no stored key is 0. */
    ghost predicate Valid()
      reads this
    {
      nextId >= 1 && forall k :: 0 <= k < |rows| ==> rows[k].id >= 1
    }

    constructor (initial: seq<Category>, next: nat)
      requires next >= 1 && forall k :: 0 <= k < |initial| ==> initial[k].id >= 1
      ensures Valid() && rows == initial && nextId == next
    {
      rows, nextId := initial, next;
    }

    /** All categories, in table order, unless the read fails. */
    method GetAllCategories(failure: Option<StoreError>) returns (categories: seq<Category>, err: Option<StoreError>)
      ensures err == failure
      ensures failure.None? ==> categories == rows
      ensures failure.Some? ==> categories == []
    {
      if failure.Some? {
        categories, err := [], failure;
      } else {
        categories, err := rows, None;
      }
    }

    /**
     * Inserts `category` and writes back the key it was stored under: a zero
     * key is replaced by the next sequence value, a non-zero one is kept. On
     * failure nothing is stored and the category is handed back unchanged.
     */
    method CreateCategory(category: Category, failure: Option<StoreError>) returns (saved: Category, err: Option<StoreError>)
      requires Valid()
      modifies this
      ensures Valid()
      ensures err == failure
      ensures failure.Some? ==> saved == category && rows == old(rows) && nextId == old(nextId)
      ensures failure.None? ==> saved.code == category.code && saved.name == category.name && saved.id >= 1
      ensures failure.None? ==> rows == old(rows) + [saved]
      ensures failure.None? && category.id == 0 ==> saved.id == old(nextId) && nextId == old(nextId) + 1
      ensures failure.None? && category.id != 0 ==> saved.id == category.id && nextId == old(nextId)
    {
      err := failure;
      if failure.Some? {
        saved := category;
        return;
      }
      if category.id == 0 {
        saved := category.(id := nextId);
        nextId := nextId + 1;
      } else {
        saved := category;
      }
      rows := rows + [saved];
    }
  }

  /** After a successful create, listing the categories returns the old ones followed by the new one. */
  method CreatedCategoryIsListed(store: CategoryTable, category: Category) returns (saved: Category, listed: seq<Category>)
    requires store.Valid()
    modifies store
    ensures store.Valid()
    ensures listed == old(store.rows) + [saved]
    ensures saved.code == category.code && saved.name == category.name
  {
    var err;
    saved, err := store.CreateCategory(category, None);
    listed, err := store.GetAllCategories(None);
  }
}
