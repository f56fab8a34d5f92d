/** The product search of the product list (`components/products/product-list.tsx`):
    a product is listed when the lower-cased search text occurs in its
    lower-cased name or product number. */
module ProductSearch {
  import opened Common
  import opened Tables

  predicate Matches(p: Product, search: string) {
    Includes(Lower(p.name), Lower(search)) || Includes(Lower(p.productNo), Lower(search))
  }

  function FilteredProducts(products: seq<Product>, search: string): seq<Product> {
    Filter(products, (p: Product) => Matches(p, search))
  }

  /** The listed products keep the fetched order and are all fetched products. */
  lemma ListedKeepOrder(products: seq<Product>, search: string)
    ensures IsSubsequence(FilteredProducts(products, search), products)
  {
    FilterIsSubsequence(products, (p: Product) => Matches(p, search));
  }

  /** A product is listed exactly when it was fetched and the lower-cased search
      occurs in its lower-cased name or number. */
  lemma ListedIffOccurs(products: seq<Product>, search: string, p: Product)
    ensures p in FilteredProducts(products, search) <==>
      p in products && (OccursIn(Lower(search), Lower(p.name)) || OccursIn(Lower(search), Lower(p.productNo)))
  {
    FilterKeepsExactly(products, (x: Product) => Matches(x, search), p);
    IncludesMeansOccurs(Lower(p.name), Lower(search));
    IncludesMeansOccurs(Lower(p.productNo), Lower(search));
  }

  /** The search ignores the case of ASCII letters. */
  lemma SearchIgnoresCase(products: seq<Product>, search: string)
    ensures FilteredProducts(products, Lower(search)) == FilteredProducts(products, search)
  {
    LowerIdempotent(search);
    FilterAgreeing(products, (p: Product) => Matches(p, Lower(search)), (p: Product) => Matches(p, search));
  }

  /** An empty search lists every product. */
  lemma {:induction false} EmptySearchListsAll(products: seq<Product>)
    ensures FilteredProducts(products, "") == products
  {
    forall k | 0 <= k < |products| ensures Matches(products[k], "") {
      IncludesEmpty(Lower(products[k].name));
    }
    FilterKeepsAll(products, (p: Product) => Matches(p, ""));
  }

  lemma FilterTwiceIsOnce(products: seq<Product>, search: string)
    ensures FilteredProducts(FilteredProducts(products, search), search) == FilteredProducts(products, search)
  {
    FilterIdempotent(products, (p: Product) => Matches(p, search));
  }
}
