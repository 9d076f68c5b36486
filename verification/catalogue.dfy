/** The home page's brand buttons and its live search over the fetched product list. */
module Catalogue {
  import opened Wrappers
  import opened Models
  import opened Text
  import Seqs

  /** The pseudo-brand of the first button; selecting it switches the brand filter off. */
  const AllBrands: Option<string> := Some("All")

  /** `products.map(p => p.brand)`; a product without a brand contributes `null`. */
  function BrandColumn(products: seq<ProductDict>): (bs: seq<Option<string>>)
    ensures |bs| == |products|
    ensures forall i :: 0 <= i < |products| ==> bs[i] == products[i].brand
  {
    seq(|products|, i requires 0 <= i < |products| => products[i].brand)
  }

  /** `['All', ...new Set(allBrands)]`. */
  function Brands(products: seq<ProductDict>): (r: seq<Option<string>>)
    ensures |r| >= 1 && r[0] == AllBrands
    ensures Seqs.NoDuplicates(r[1..])
    ensures forall i :: 0 <= i < |products| ==> products[i].brand in r[1..]
    ensures forall b :: b in r[1..] ==> exists i :: 0 <= i < |products| && products[i].brand == b
  {
    var column := BrandColumn(products);
    var d := Seqs.Distinct(column);
    var r := [AllBrands] + d;
    assert r[1..] == d;
    r
  }

  /** The brand buttons after `All` follow the order in which each brand first appears. */
  lemma BrandsInFirstOccurrenceOrder(products: seq<ProductDict>)
    ensures var bs := Brands(products);
      forall i, j :: 1 <= i < j < |bs| ==>
        Seqs.FirstIndex(BrandColumn(products), bs[i]) < Seqs.FirstIndex(BrandColumn(products), bs[j])
  {
    var column := BrandColumn(products);
    var bs := Brands(products);
    assert bs[1..] == Seqs.Distinct(column);
    Seqs.DistinctKeepsFirstOccurrenceOrder(column);
    forall i, j | 1 <= i < j < |bs|
      ensures Seqs.FirstIndex(column, bs[i]) < Seqs.FirstIndex(column, bs[j])
    {
      assert bs[i] == Seqs.Distinct(column)[i - 1] && bs[j] == Seqs.Distinct(column)[j - 1];
    }
  }

  /** `product.name.toLowerCase().includes(searchTerm.toLowerCase())`. */
  predicate MatchesSearch(p: ProductDict, term: string) {
    Contains(Lower(p.name), Lower(term))
  }

  /** `selectedBrand === 'All' || product.brand === selectedBrand`. */
  predicate MatchesBrand(p: ProductDict, selected: Option<string>) {
    selected == AllBrands || p.brand == selected
  }

  predicate Shown(p: ProductDict, term: string, selected: Option<string>) {
    MatchesSearch(p, term) && MatchesBrand(p, selected)
  }

  /** `filteredProducts`. */
  function FilterProducts(products: seq<ProductDict>, term: string, selected: Option<string>): (r: seq<ProductDict>)
    ensures forall i :: 0 <= i < |r| ==> r[i] in products && Shown(r[i], term, selected)
    ensures forall i :: 0 <= i < |products| && Shown(products[i], term, selected) ==> products[i] in r
  {
    Seqs.Filter(products, (p: ProductDict) => Shown(p, term, selected))
  }

  /** The grid shows a selection of the catalogue in the catalogue's own order. */
  lemma FilteredKeepsOrder(products: seq<ProductDict>, term: string, selected: Option<string>)
    ensures Seqs.IsSubsequence(FilterProducts(products, term, selected), products)
  {
    Seqs.FilterIsSubsequence(products, (p: ProductDict) => Shown(p, term, selected));
  }

  lemma EmptyIsContained(s: string)
    ensures Contains(s, "")
  {
    assert IsPrefix("", s);
  }

  /** Before anything is typed and with `All` selected, every product is shown. */
  lemma NoFilterShowsAll(products: seq<ProductDict>)
    ensures FilterProducts(products, "", AllBrands) == products
  {
    forall i | 0 <= i < |products|
      ensures Shown(products[i], "", AllBrands)
    {
      EmptyIsContained(Lower(products[i].name));
      assert Lower("") == "";
    }
    Seqs.FilterKeepsAll(products, (p: ProductDict) => Shown(p, "", AllBrands));
  }

  /** Two search terms that differ only in letter case select the same products. */
  lemma SearchIgnoresCase(products: seq<ProductDict>, t1: string, t2: string, selected: Option<string>)
    requires Lower(t1) == Lower(t2)
    ensures FilterProducts(products, t1, selected) == FilterProducts(products, t2, selected)
  {
    Seqs.FilterCongruent(products, (p: ProductDict) => Shown(p, t1, selected),
                                   (p: ProductDict) => Shown(p, t2, selected));
  }

  /** Typing in upper case finds what typing in lower case finds. */
  lemma LowerCaseTermEquivalent(products: seq<ProductDict>, term: string, selected: Option<string>)
    ensures FilterProducts(products, Lower(term), selected) == FilterProducts(products, term, selected)
  {
    LowerIdempotent(term);
    SearchIgnoresCase(products, Lower(term), term, selected);
  }

  /** `filteredProducts.length === 0 && searchTerm`. */
  predicate ShowNoResults(filtered: seq<ProductDict>, term: string) {
    |filtered| == 0 && term != ""
  }

  /** The no-results note appears exactly when something was typed and nothing matches it. */
  lemma NoResultsMeansNothingMatches(products: seq<ProductDict>, term: string, selected: Option<string>)
    ensures ShowNoResults(FilterProducts(products, term, selected), term) <==>
      term != "" && forall i :: 0 <= i < |products| ==> !Shown(products[i], term, selected)
  {
    var r := FilterProducts(products, term, selected);
    if term != "" && forall i :: 0 <= i < |products| ==> !Shown(products[i], term, selected) {
      Seqs.FilterDropsAll(products, (p: ProductDict) => Shown(p, term, selected));
    }
  }
}
