/**
 * The two commerce tables the key listings join against: `product_variant` and `product`.
 * Only the columns the joins and listings read are kept.
 */
module Catalog {
  import opened Wrappers
  import opened Seqs

  datatype Product = Product(id: string, title: Option<string>, deletedAt: Option<int>)

  datatype Variant = Variant(id: string, title: Option<string>, sku: Option<string>, productId: string)

  datatype Catalog = Catalog(variants: seq<Variant>, products: map<string, Product>)

  predicate DistinctIds(a: Variant, b: Variant) {
    a.id != b.id
  }

  /** Variant ids are a primary key, and each product is filed under its own id. */
  predicate WellFormed(c: Catalog) {
    Pairwise(c.variants, DistinctIds) && forall id :: id in c.products ==> c.products[id].id == id
  }

  /** `LEFT JOIN product_variant pv ON ... = pv.id`: the variant with that id, if any. */
  function FindVariant(vs: seq<Variant>, id: string): (r: Option<Variant>)
    ensures r.Some? ==> r.value in vs && r.value.id == id
    ensures r.None? <==> forall i :: 0 <= i < |vs| ==> vs[i].id != id
  {
    if vs == [] then None
    else if vs[0].id == id then Some(vs[0])
    else
      var r := FindVariant(vs[1..], id);
      assert forall i :: 1 <= i < |vs| ==> vs[i] == vs[1..][i - 1];
      r
  }

  /** `LEFT JOIN product p ON pv.product_id = p.id`. */
  function ProductOf(c: Catalog, v: Variant): (r: Option<Product>)
    ensures r.Some? <==> v.productId in c.products
    ensures r.Some? ==> r.value == c.products[v.productId]
  {
    if v.productId in c.products then Some(c.products[v.productId]) else None
  }

  /** In a catalog with unique variant ids, the join finds exactly the variant listed under an id. */
  lemma FindVariantUnique(c: Catalog, i: nat)
    requires WellFormed(c) && i < |c.variants|
    ensures FindVariant(c.variants, c.variants[i].id) == Some(c.variants[i])
  {
    var vs := c.variants;
    forall k | 0 <= k < |vs| && k != i ensures vs[k].id != vs[i].id {
      if k < i {
        assert DistinctIds(vs[k], vs[i]);
      } else {
        assert DistinctIds(vs[i], vs[k]);
      }
    }
  }
}
