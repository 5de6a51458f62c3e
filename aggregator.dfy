/**
 * The catalog aggregator: traverses the men's and then the women's category
 * on one page session, concatenates the two product lists and derives the
 * list of distinct brands in order of first occurrence.
 */
module Aggregator {
  import opened Wrappers
  import opened Extractor
  import opened Paginator

  /** The response body: the distinct brands and every product. */
  datatype CatalogResult = CatalogResult(brands: seq<string>, productList: seq<Product>)

  predicate NoDuplicates<T(==)>(s: seq<T>) {
    forall i, j :: 0 <= i < j < |s| ==> s[i] != s[j]
  }

  /**
   * The position of the first occurrence of `x` in `xs`.
   */
  function FirstIndex<T(==)>(xs: seq<T>, x: T): (i: nat)
    requires x in xs
    ensures i < |xs| && xs[i] == x
    ensures forall j :: 0 <= j < i ==> xs[j] != x
  {
    if xs[0] == x then 0 else 1 + FirstIndex(xs[1..], x)
  }

  /**
   * The values of `xs` in the order a JavaScript `Set` keeps them: each
   * value is inserted when first met, and a repeated value is ignored.
   */
  function Dedup(xs: seq<string>): (d: seq<string>)
    ensures NoDuplicates(d)
    ensures forall x :: x in d <==> x in xs
  {
    if xs == [] then []
    else
      var rest := Dedup(xs[..|xs| - 1]);
      var x := xs[|xs| - 1];
      assert forall y :: y in xs <==> y in xs[..|xs| - 1] || y == x by {
        assert xs == xs[..|xs| - 1] + [x];
      }
      if x in rest then rest else rest + [x]
  }

  /** Extending a sequence does not move the first occurrence of a value already in it. */
  lemma FirstIndexOfPrefix<T>(xs: seq<T>, x: T, y: T)
    requires y in xs
    ensures FirstIndex(xs + [x], y) == FirstIndex(xs, y)
  {
    assert (xs + [x])[FirstIndex(xs, y)] == y;
  }

  /** The deduplicated list is ordered by the first occurrence of its values in the input. */
  lemma {:induction false} DedupFirstOccurrenceOrder(xs: seq<string>)
    ensures forall i, j :: 0 <= i < j < |Dedup(xs)| ==> FirstIndex(xs, Dedup(xs)[i]) < FirstIndex(xs, Dedup(xs)[j])
  {
    if xs != [] {
      var init, x := xs[..|xs| - 1], xs[|xs| - 1];
      assert xs == init + [x];
      DedupFirstOccurrenceOrder(init);
      var rest, d := Dedup(init), Dedup(xs);
      assert d == if x in rest then rest else rest + [x];
      forall i, j | 0 <= i < j < |d| ensures FirstIndex(xs, d[i]) < FirstIndex(xs, d[j]) {
        assert d[i] == rest[i] && rest[i] in init;
        FirstIndexOfPrefix(init, x, rest[i]);
        if j < |rest| {
          assert d[j] == rest[j] && rest[j] in init;
          FirstIndexOfPrefix(init, x, rest[j]);
        } else {
          assert d[j] == x && x !in init;
          assert FirstIndex(xs, x) == |init|;
        }
      }
    }
  }

  /** A list without repeated values is left as it is. */
  lemma {:induction false} DedupOfDistinct(xs: seq<string>)
    requires NoDuplicates(xs)
    ensures Dedup(xs) == xs
  {
    if xs != [] {
      var init := xs[..|xs| - 1];
      DedupOfDistinct(init);
      assert xs == init + [xs[|xs| - 1]];
    }
  }

  /** Deduplicating twice is deduplicating once. */
  lemma DedupIdempotent(xs: seq<string>)
    ensures Dedup(Dedup(xs)) == Dedup(xs)
  {
    DedupOfDistinct(Dedup(xs));
  }

  /** Helper of `Brands`: the `brand` of every product, in product order (`productList.map(brand)`). */
  function BrandColumn(products: seq<Product>): (bs: seq<string>)
    ensures |bs| == |products|
    ensures forall i :: 0 <= i < |products| ==> bs[i] == products[i].brand
  {
    seq(|products|, i requires 0 <= i < |products| => products[i].brand)
  }

  /**
   * `[...new Set(productList.map(brand))]`: every brand that occurs, once,
   * compared by exact string equality.
   */
  function Brands(products: seq<Product>): (brands: seq<string>)
    ensures NoDuplicates(brands)
    ensures forall b :: b in brands <==> exists i :: 0 <= i < |products| && products[i].brand == b
  {
    var column := BrandColumn(products);
    assert forall b :: b in column <==> exists i :: 0 <= i < |products| && products[i].brand == b by {
      forall b | b in column ensures exists i :: 0 <= i < |products| && products[i].brand == b {
        var i :| 0 <= i < |column| && column[i] == b;
        assert products[i].brand == b;
      }
    }
    Dedup(column)
  }

  /** Of two listed brands, the earlier one first appears on an earlier product. */
  lemma BrandsFirstOccurrenceOrder(products: seq<Product>)
    ensures forall i, j :: 0 <= i < j < |Brands(products)| ==>
      FirstIndex(BrandColumn(products), Brands(products)[i]) < FirstIndex(BrandColumn(products), Brands(products)[j])
  {
    DedupFirstOccurrenceOrder(BrandColumn(products));
  }

  /**
   * `getData`: traverses `men`, then `women`, on one session; the product
   * list is the men's records followed by the women's, and `brands` is
   * derived from it. A failing traversal fails the whole aggregation, and the
   * women's category is never visited after the men's failed.
   */
  method GetData(men: seq<Page>, women: seq<Page>)
    returns (r: Result<CatalogResult, CrawlError>, visited: seq<string>)
    ensures r.Success? <==> CategoryResult(men).Success? && CategoryResult(women).Success?
    ensures r.Success? ==>
      && r.value.productList == CategoryResult(men).value + CategoryResult(women).value
      && |r.value.productList| == |CategoryResult(men).value| + |CategoryResult(women).value|
      && r.value.brands == Brands(r.value.productList)
    ensures CategoryResult(men).Failure? ==> r == Failure(CategoryResult(men).error)
    ensures CategoryResult(men).Success? && CategoryResult(women).Failure? ==>
      r == Failure(CategoryResult(women).error)
    ensures visited ==
      PageUrls("men", Halt(men, 0) + 1)
      + (if CategoryResult(men).Success? then PageUrls("women", Halt(women, 0) + 1) else [])
  {
    var maleProducts, menVisited := GetCategory("men", men);
    if maleProducts.Failure? {
      return Failure(maleProducts.error), menVisited;
    }
    var womenProducts, womenVisited := GetCategory("women", women);
    visited := menVisited + womenVisited;
    if womenProducts.Failure? {
      return Failure(womenProducts.error), visited;
    }
    var productList := maleProducts.value + womenProducts.value;
    r := Success(CatalogResult(Brands(productList), productList));
  }
}
