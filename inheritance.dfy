/**
 * Variant price inheritance: the hook that runs after a product and its
 * variants are loaded and gives every variant without a price of its own
 * (stored price zero) the product's base price.
 */
module Inheritance {
  import opened Wrappers
  import opened Models

  /** The rule for one stored price: zero (unset or explicit 0) means "inherit". */
  function EffectivePrice(base: int, raw: int): int
  {
    if raw == 0 then base else raw
  }

  function ResolveVariant(v: Variant, base: int): Variant
  {
    v.(priceCents := EffectivePrice(base, v.priceCents))
  }

  /** The variants as readers observe them, once the hook has run over all of them in order. */
  function ResolveVariants(vs: seq<Variant>, base: int): (r: seq<Variant>)
    ensures |r| == |vs|
  {
    if vs == [] then [] else [ResolveVariant(vs[0], base)] + ResolveVariants(vs[1..], base)
  }

  /** A loaded product with the hook applied: only its variants' prices can differ. */
  function ResolveProduct(p: Product): (r: Product)
    ensures r.(variants := p.variants) == p
    ensures |r.variants| == |p.variants|
  {
    p.(variants := ResolveVariants(p.variants, p.priceCents))
  }

  /** Each resolved variant is the rule applied to the variant at the same position. */
  lemma {:induction false} ResolvedAt(vs: seq<Variant>, base: int, k: nat)
    requires k < |vs|
    ensures ResolveVariants(vs, base)[k] == ResolveVariant(vs[k], base)
  {
    if k > 0 {
      ResolvedAt(vs[1..], base, k - 1);
    }
  }

  // The four lemmas below are not inductive; each applies ResolvedAt at every
  // position. They carry {:induction false} so that this per-position
  // argument, and not Dafny's automatic induction, is what proves them.

  /** A variant stored with price zero shows the product's base price. */
  lemma {:induction false} ZeroPriceInherits(vs: seq<Variant>, base: int)
    ensures forall k :: 0 <= k < |vs| && vs[k].priceCents == 0 ==>
      ResolveVariants(vs, base)[k].priceCents == base
  {
    forall k | 0 <= k < |vs| && vs[k].priceCents == 0
      ensures ResolveVariants(vs, base)[k].priceCents == base
    {
      ResolvedAt(vs, base, k);
    }
  }

  /** A variant stored with a non-zero price keeps it, whatever the base price is. */
  lemma {:induction false} NonZeroPriceKept(vs: seq<Variant>, base: int)
    ensures forall k :: 0 <= k < |vs| && vs[k].priceCents != 0 ==>
      ResolveVariants(vs, base)[k].priceCents == vs[k].priceCents
  {
    forall k | 0 <= k < |vs| && vs[k].priceCents != 0
      ensures ResolveVariants(vs, base)[k].priceCents == vs[k].priceCents
    {
      ResolvedAt(vs, base, k);
    }
  }

  /**
   * The number and order of the variants are kept, and each variant keeps its
   * id, product id, name and SKU: only the price field can change.
   */
  lemma {:induction false} VariantShapeKept(vs: seq<Variant>, base: int)
    ensures |ResolveVariants(vs, base)| == |vs|
    ensures forall k :: 0 <= k < |vs| ==>
      ResolveVariants(vs, base)[k].(priceCents := vs[k].priceCents) == vs[k]
  {
    forall k | 0 <= k < |vs|
      ensures ResolveVariants(vs, base)[k].(priceCents := vs[k].priceCents) == vs[k]
    {
      ResolvedAt(vs, base, k);
    }
  }

  /** After resolution a variant price is zero only if the base price is zero. */
  lemma {:induction false} ZeroOnlyIfBaseZero(vs: seq<Variant>, base: int)
    ensures forall k :: 0 <= k < |vs| && ResolveVariants(vs, base)[k].priceCents == 0 ==> base == 0
  {
    forall k | 0 <= k < |vs| && ResolveVariants(vs, base)[k].priceCents == 0
      ensures base == 0
    {
      ResolvedAt(vs, base, k);
    }
  }

  /** Resolving twice with the same base price gives the same variants as resolving once. */
  lemma {:induction false} ResolveVariantsIdempotent(vs: seq<Variant>, base: int)
    ensures ResolveVariants(ResolveVariants(vs, base), base) == ResolveVariants(vs, base)
  {
    if vs != [] {
      ResolveVariantsIdempotent(vs[1..], base);
      var r := ResolveVariants(vs, base);
      assert r[0] == ResolveVariant(vs[0], base);
      assert r[1..] == ResolveVariants(vs[1..], base);
    }
  }

  /** Running the hook on an already resolved product changes nothing. */
  lemma ResolveProductIdempotent(p: Product)
    ensures ResolveProduct(ResolveProduct(p)) == ResolveProduct(p)
  {
    ResolveVariantsIdempotent(p.variants, p.priceCents);
  }

  /**
   * A product as the load hook receives it: its fields, and the backing array
   * of its `Variants` slice, which the hook rewrites in place.
   */
  class LoadedProduct {
    var id: nat
    var code: string
    var priceCents: int
    var categoryId: nat
    var category: Category
    var variants: array<Variant>

    /** The product record this object currently holds. */
    function Value(): Product
      reads this, variants
    {
      Product(id, code, priceCents, categoryId, category, variants[..])
    }

    constructor Load(p: Product)
      ensures Value() == p
      ensures fresh(variants)
    {
      id, code, priceCents, categoryId, category := p.id, p.code, p.priceCents, p.categoryId, p.category;
      var a := new Variant[|p.variants|](i requires 0 <= i < |p.variants| => p.variants[i]);
      assert a[..] == p.variants;
      variants := a;
    }

    /**
     * The load hook: every variant whose stored price is zero takes the base
     * price. It never reports an error and touches nothing but the variant
     * prices.
     */
    method AfterFind() returns (err: Option<StoreError>)
      modifies variants
      ensures unchanged(this)
      ensures variants[..] == ResolveVariants(old(variants[..]), priceCents)
      ensures Value() == ResolveProduct(old(Value()))
      ensures err == None
    {
      var i := 0;
      while i < variants.Length
        invariant 0 <= i <= variants.Length
        invariant forall k :: 0 <= k < i ==> variants[k] == ResolveVariant(old(variants[k]), priceCents)
        invariant forall k :: i <= k < variants.Length ==> variants[k] == old(variants[k])
      {
        if variants[i].priceCents == 0 {
          variants[i] := variants[i].(priceCents := priceCents);
        }
        i := i + 1;
      }
      ghost var was := old(variants[..]);
      forall k | 0 <= k < variants.Length
        ensures variants[..][k] == ResolveVariants(was, priceCents)[k]
      {
        ResolvedAt(was, priceCents, k);
      }
      err := None;
    }
  }
}
