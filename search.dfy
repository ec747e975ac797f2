/** The search screen's filter: once the query has at least three characters,
    the products whose name contains it (compared in lower case) or whose
    barcode contains it as typed; with a shorter query, nothing. */
module Search {
  import opened Common
  import opened Types

  /** Queries shorter than this give no results. */
  const MinQueryLength: nat := 3

  /** One product against the query; `toLowerCase` is `String.prototype.toLowerCase`. */
  predicate Matches(p: Product, query: string, toLowerCase: string -> string)
  {
    Includes(toLowerCase(p.name), toLowerCase(query)) || Includes(p.barcode, query)
  }

  /** What the debounced effect stores in `searchResults`. The product list is an
      immutable value here, so the search cannot change it. */
  function SearchResults(products: seq<Product>, query: string, toLowerCase: string -> string): (r: seq<Product>)
    ensures |query| < MinQueryLength ==> r == []
    ensures |query| >= MinQueryLength ==>
              forall p :: p in r <==> p in products && Matches(p, query, toLowerCase)
    ensures forall p :: multiset(r)[p] <= multiset(products)[p]
  {
    if |query| >= MinQueryLength then Filter(products, p => Matches(p, query, toLowerCase))
    else []
  }

  /** The results keep the catalogue's order and repeat nothing: they are a subsequence. */
  lemma ResultsAreSubsequence(products: seq<Product>, query: string, toLowerCase: string -> string)
    ensures Subsequence(SearchResults(products, query, toLowerCase), products)
  {
    if |query| >= MinQueryLength {
      FilterIsSubsequence(products, p => Matches(p, query, toLowerCase));
    } else {
      assert Embedding([], SearchResults(products, query, toLowerCase), products);
    }
  }

  /** A match spelled out: some window of the lowered name is the lowered query,
      or some window of the barcode is the query itself. */
  lemma MatchesIffWindow(p: Product, query: string, toLowerCase: string -> string)
    ensures Matches(p, query, toLowerCase)
            <==> (exists i :: OccursAt(toLowerCase(p.name), toLowerCase(query), i))
                 || (exists i :: OccursAt(p.barcode, query, i))
  {
    IncludesIffOccurs(toLowerCase(p.name), toLowerCase(query));
    IncludesIffOccurs(p.barcode, query);
  }
}
