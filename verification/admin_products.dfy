/**
 * The admin product list (src/app/admin/products/page.jsx): the local
 * effect of deletes, the selection checkboxes, and the search filter.
 * Only the fields these operations read are kept.
 */
module AdminProducts {
  import opened Options
  import opened Text
  import Seqs

  /** A product row; `name` and `category` are columns the database may leave null. */
  datatype Product = Product(id: string, name: Option<string>, category: Option<string>)

  /** `products.filter(product => product.id !== productId)` after a successful delete. */
  function Delete(products: seq<Product>, productId: string): (r: seq<Product>)
    ensures forall i :: 0 <= i < |r| ==> r[i] in products && r[i].id != productId
    ensures forall i :: 0 <= i < |products| && products[i].id != productId ==> products[i] in r
    ensures Seqs.IsSubsequence(r, products)
    ensures forall p :: Seqs.Count(r, p) == if p.id == productId then 0 else Seqs.Count(products, p)
  {
    Seqs.FilterIsSubsequence(products, (p: Product) => p.id != productId);
    Seqs.FilterCounts(products, (p: Product) => p.id != productId);
    Seqs.Filter(products, (p: Product) => p.id != productId)
  }

  /** A successful bulk delete: the products left, and the now empty selection. */
  function BulkDelete(products: seq<Product>, selected: seq<string>): (r: (seq<Product>, seq<string>))
    ensures forall i :: 0 <= i < |r.0| ==> r.0[i] in products && r.0[i].id !in selected
    ensures forall i :: 0 <= i < |products| && products[i].id !in selected ==> products[i] in r.0
    ensures Seqs.IsSubsequence(r.0, products)
    ensures forall p :: Seqs.Count(r.0, p) == if p.id in selected then 0 else Seqs.Count(products, p)
    ensures r.1 == []
  {
    Seqs.FilterIsSubsequence(products, (p: Product) => p.id !in selected);
    Seqs.FilterCounts(products, (p: Product) => p.id !in selected);
    (Seqs.Filter(products, (p: Product) => p.id !in selected), [])
  }

  /** `toggleSelectProduct(productId)`. */
  function Toggle(selected: seq<string>, productId: string): (r: seq<string>)
    ensures productId in r <==> productId !in selected
    ensures forall x :: x != productId ==> (x in r <==> x in selected)
    ensures Seqs.Distinct(selected) ==> Seqs.Distinct(r)
  {
    if productId in selected then
      Seqs.FilterDistinct(selected, (id: string) => id != productId);
      Seqs.Filter(selected, (id: string) => id != productId)
    else
      Seqs.AppendDistinct(selected, productId);
      selected + [productId]
  }

  /** Toggling the same id twice gives back the same set of selected ids. */
  lemma ToggleTwice(selected: seq<string>, productId: string)
    ensures forall x :: x in Toggle(Toggle(selected, productId), productId) <==> x in selected
  {
  }

  /** The header checkbox: every product's id when checked, none otherwise. */
  function SelectAll(products: seq<Product>, checked: bool): (r: seq<string>)
    ensures checked ==> |r| == |products| && forall i :: 0 <= i < |r| ==> r[i] == products[i].id
    ensures !checked ==> r == []
  {
    if checked then seq(|products|, i requires 0 <= i < |products| => products[i].id) else []
  }

  /** The search predicate: the name or the category contains the term, case-insensitively. */
  predicate Matches(p: Product, term: string)
  {
    (p.name.Some? && Includes(ToLower(p.name.value), ToLower(term)))
    || (p.category.Some? && Includes(ToLower(p.category.value), ToLower(term)))
  }

  /**
   * The filter callback: `product.name.toLowerCase()` throws on a missing name,
   * and `product.category.toLowerCase()` throws on a missing category once the
   * name did not match.
   */
  function Test(p: Product, term: string): Outcome<bool>
  {
    match p.name
    case None => TypeError
    case Some(n) =>
      if Includes(ToLower(n), ToLower(term)) then Returns(true)
      else match p.category
        case None => TypeError
        case Some(c) => Returns(Includes(ToLower(c), ToLower(term)))
  }

  /** `filteredProducts`: the matching products in list order, or the `TypeError` of the first callback that throws. */
  function Filtered(products: seq<Product>, term: string): (r: Outcome<seq<Product>>)
    ensures r.Returns? <==>
              forall i :: 0 <= i < |products| ==>
                products[i].name.Some?
                && (products[i].category.Some? || Includes(ToLower(products[i].name.value), ToLower(term)))
    ensures r.Returns? ==> forall i :: 0 <= i < |r.value| ==> r.value[i] in products && Matches(r.value[i], term)
    ensures r.Returns? ==> forall i :: 0 <= i < |products| && Matches(products[i], term) ==> products[i] in r.value
    ensures r.Returns? ==> Seqs.IsSubsequence(r.value, products)
    ensures r.Returns? ==> forall p :: Seqs.Count(r.value, p) == if Matches(p, term) then Seqs.Count(products, p) else 0
  {
    if forall i :: 0 <= i < |products| ==> Test(products[i], term).Returns? then
      Seqs.FilterIsSubsequence(products, (p: Product) => Matches(p, term));
      Seqs.FilterCounts(products, (p: Product) => Matches(p, term));
      Returns(Seqs.Filter(products, (p: Product) => Matches(p, term)))
    else
      TypeError
  }

  /** An empty search term lists every product, unless some product has no name. */
  lemma EmptySearchKeepsAll(products: seq<Product>)
    ensures Filtered(products, "") == if forall i :: 0 <= i < |products| ==> products[i].name.Some? then Returns(products) else TypeError
  {
    if forall i :: 0 <= i < |products| ==> products[i].name.Some? {
      forall i | 0 <= i < |products| ensures Matches(products[i], "") {
        IncludesEmpty(ToLower(products[i].name.value));
      }
      Seqs.FilterKeepsAll(products, (p: Product) => Matches(p, ""));
    }
  }

  /** Deleting an id no product has leaves the list as it is. */
  lemma DeleteAbsentIsNoop(products: seq<Product>, productId: string)
    requires forall i :: 0 <= i < |products| ==> products[i].id != productId
    ensures Delete(products, productId) == products
  {
    Seqs.FilterKeepsAll(products, (p: Product) => p.id != productId);
  }

  /** Bulk-deleting an empty selection keeps every product; bulk-deleting one id is deleting it. */
  lemma BulkDeletePartners(products: seq<Product>, productId: string)
    ensures BulkDelete(products, []).0 == products
    ensures BulkDelete(products, [productId]).0 == Delete(products, productId)
  {
    Seqs.FilterKeepsAll(products, (p: Product) => p.id !in []);
    Seqs.FilterAgree(products, (p: Product) => p.id !in [productId], (p: Product) => p.id != productId);
  }
}
