/**
 * The record shapes of the catalog's three tables (categories, products,
 * product_variants). Identifiers are the unsigned surrogate keys of the
 * source; prices are the decimal(10,2) columns counted in cents.
 */
module Models {
  /** A row of `categories`. `id` is internal only and never serialised. */
  datatype Category = Category(id: nat, code: string, name: string)

  /**
   * A row of `product_variants`. `priceCents` is the stored price; the column
   * is nullable and a NULL price is decoded as zero, the same as an explicit 0.
   */
  datatype Variant = Variant(id: nat, productId: nat, name: string, sku: string, priceCents: int)

  /** A row of `products` together with its preloaded category and variants. */
  datatype Product = Product(
    id: nat,
    code: string,
    priceCents: int,
    categoryId: nat,
    category: Category,
    variants: seq<Variant>)

  /** What the storage layer may report: no matching row, or any other failure. */
  datatype StoreError = RecordNotFound | StorageFailure(message: string)
}
