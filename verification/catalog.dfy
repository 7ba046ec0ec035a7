/**
 * The product catalogue: the product record, the listing order of the
 * products page, a product card's button label, and an admin's delete.
 */
module Catalog {
  import opened Common
  import opened Sorting

  /**
   * A `products` row. Prices are integer cents; `createdAt` is an opaque,
   * ordered timestamp.
   */
  datatype Product = Product(
    id: Id,
    name: string,
    description: Option<string>,
    price: int,
    imageUrl: Option<string>,
    category: Option<string>,
    stockQuantity: int,
    prescriptionRequired: bool,
    createdAt: int)

  function ProductCreatedAt(p: Product): int {
    p.createdAt
  }

  /** The products page lists the whole table, newest first. */
  function ProductListing(products: seq<Product>): (r: seq<Product>)
    ensures |r| == |products| && multiset(r) == multiset(products)
    ensures SortedDesc(r, ProductCreatedAt)
  {
    SortDesc(products, ProductCreatedAt)
  }

  /** A product is listed exactly when it is in the table. */
  lemma ListingShowsEveryProduct(products: seq<Product>, p: Product)
    ensures p in ProductListing(products) <==> p in products
  {
    assert p in ProductListing(products) <==> p in multiset(ProductListing(products));
  }

  /** The card's button text. */
  function AddToCartLabel(p: Product): string {
    if p.prescriptionRequired then "Buy with Prescription" else "Add to Cart"
  }

  /** The label reads "Buy with Prescription" exactly for prescription-only products, whatever else differs. */
  lemma LabelDependsOnlyOnPrescription(p: Product, q: Product)
    ensures AddToCartLabel(p) == "Buy with Prescription" <==> p.prescriptionRequired
    ensures p.prescriptionRequired == q.prescriptionRequired ==> AddToCartLabel(p) == AddToCartLabel(q)
    ensures p.prescriptionRequired != q.prescriptionRequired ==> AddToCartLabel(p) != AddToCartLabel(q)
  {
  }

  function OtherThan(id: Id): Product -> bool {
    (p: Product) => p.id != id
  }

  /** `handleDelete`: on success only the product with that id is gone; on failure nothing changes. */
  function DeleteProduct(products: seq<Product>, id: Id, ok: bool): (r: seq<Product>)
    ensures !ok ==> r == products
    ensures ok ==> forall p :: p in r <==> p in products && p.id != id
    ensures multiset(r) <= multiset(products)
  {
    if ok then Filter(products, OtherThan(id)) else products
  }

  /** Deleting a product that is not in the table changes nothing. */
  lemma DeleteAbsentIsNoOp(products: seq<Product>, id: Id, ok: bool)
    requires forall p :: p in products ==> p.id != id
    ensures DeleteProduct(products, id, ok) == products
  {
    if ok {
      FilterKeepsAll(products, OtherThan(id));
    }
  }
}
