/**
 * The category paginator: visits the listing pages of one category in order,
 * starting at page 1, and keeps going only while the next-page control says
 * it is not hidden.
 *
 * The browser is replaced by the catalog itself, a finite sequence of pages in
 * which `catalog[i]` is what the listing URL with page index `i + 1` shows once
 * fully loaded.
 */
module Paginator {
  import opened Wrappers
  import opened Extractor

  /** What reading the `aria-hidden` attribute of `[data-testid="page-next"]` yields. */
  datatype NextControl =
    | NoControl                          // the selector matches nothing: the read throws
    | Control(ariaHidden: Option<string>) // `None` when the attribute is not set

  /** One fully loaded listing page. */
  datatype Page = Page(cards: seq<Card>, next: NextControl)

  /** Why a category traversal failed; page numbers are the 1-based page index. */
  datatype CrawlError =
    | NoSuchPage(page: nat)                              // the catalog has no page with this index
    | NoNextControl(page: nat)                           // the page lacks the next-page control
    | ExtractionFailed(page: nat, cause: ExtractError)   // a card of the page could not be extracted

  // ---------------------------------------------------------------- URLs

  /** The character of a decimal digit. */
  function Digit(d: nat): (ch: char)
    requires d < 10
    ensures '0' <= ch <= '9' && ch as int - '0' as int == d
  {
    (48 + d) as char
  }

  predicate IsDigits(s: string) {
    forall k :: 0 <= k < |s| ==> '0' <= s[k] <= '9'
  }

  /** The decimal rendering of a page index, as a template literal renders an integer below 10^21. */
  function Decimal(n: nat): (s: string)
    ensures |s| >= 1 && IsDigits(s)
  {
    if n < 10 then [Digit(n)] else Decimal(n / 10) + [Digit(n % 10)]
  }

  /** The number a string of decimal digits denotes. */
  function DecimalValue(s: string): nat
    requires IsDigits(s)
  {
    if s == [] then 0 else 10 * DecimalValue(s[..|s| - 1]) + (s[|s| - 1] as int - '0' as int)
  }

  /** Reading back the rendering of a page index gives the index. */
  lemma {:induction false} DecimalRoundTrip(n: nat)
    ensures DecimalValue(Decimal(n)) == n
  {
    if n >= 10 {
      var s := Decimal(n);
      assert s[..|s| - 1] == Decimal(n / 10);
      DecimalRoundTrip(n / 10);
    }
  }

  const UrlHead := "https://www.farfetch.com/en-EN/shopping/"
  const UrlPath := "/ekademe/items.aspx?page="
  const UrlQuery := "&view=96&sort=3&scale=282"

  /** The listing URL of a category's page: fixed view size, sort order and scale. */
  function PageUrl(category: string, pageIndex: nat): string {
    UrlHead + category + UrlPath + Decimal(pageIndex) + UrlQuery
  }

  /** Different page indices of one category have different listing URLs. */
  lemma PageUrlInjective(category: string, a: nat, b: nat)
    requires PageUrl(category, a) == PageUrl(category, b)
    ensures a == b
  {
    var head := UrlHead + category + UrlPath;
    var da, db := Decimal(a), Decimal(b);
    var ua, ub := head + da + UrlQuery, head + db + UrlQuery;
    assert PageUrl(category, a) == ua && PageUrl(category, b) == ub;
    assert |da| == |db|;
    assert ua[|head|..|head| + |da|] == da;
    assert ub[|head|..|head| + |db|] == db;
    DecimalRoundTrip(a);
    DecimalRoundTrip(b);
  }

  /** The URLs of pages 1 to `count` of a category, in visiting order. */
  function PageUrls(category: string, count: nat): (urls: seq<string>)
    ensures |urls| == count
  {
    seq(count, i requires 0 <= i => PageUrl(category, i + 1))
  }

  /** No listing page appears twice among the visited URLs. */
  lemma PageUrlsDistinct(category: string, count: nat)
    ensures forall i, j :: 0 <= i < j < count ==> PageUrls(category, count)[i] != PageUrls(category, count)[j]
  {
    forall i, j | 0 <= i < j < count
      ensures PageUrls(category, count)[i] != PageUrls(category, count)[j]
    {
      if PageUrl(category, i + 1) == PageUrl(category, j + 1) {
        PageUrlInjective(category, i + 1, j + 1);
      }
    }
  }

  // ---------------------------------------------------------- traversal

  /** The attribute is exactly the string `false`: a next page exists. */
  predicate Advances(p: Page) {
    p.next == Control(Some("false"))
  }

  /** The page at 0-based position `i` exists, announces a next page and extracts cleanly. */
  predicate Continues(catalog: seq<Page>, i: nat) {
    i < |catalog| && Advances(catalog[i]) && ExtractAll(catalog[i].cards).Success?
  }

  /** The 0-based position of the first page at or after `from` that does not let the traversal go on. */
  function Halt(catalog: seq<Page>, from: nat): (k: nat)
    requires from <= |catalog|
    ensures from <= k <= |catalog|
    ensures forall j :: from <= j < k ==> Continues(catalog, j)
    // implied by the line above; stated on its own so that callers can meet
    // the precondition of `Collected` without unfolding `Continues`
    ensures forall j :: from <= j < k ==> ExtractAll(catalog[j].cards).Success?
    ensures !Continues(catalog, k)
    decreases |catalog| - from
  {
    if Continues(catalog, from) then Halt(catalog, from + 1) else from
  }

  /** The items of the first `n` pages concatenated in page order. */
  function Collected(catalog: seq<Page>, n: nat): seq<Product>
    requires n <= |catalog|
    requires forall j :: 0 <= j < n ==> ExtractAll(catalog[j].cards).Success?
  {
    if n == 0 then [] else Collected(catalog, n - 1) + ExtractAll(catalog[n - 1].cards).value
  }

  /** The number of cards on the first `n` pages. */
  function CardCount(catalog: seq<Page>, n: nat): nat
    requires n <= |catalog|
  {
    if n == 0 then 0 else CardCount(catalog, n - 1) + |catalog[n - 1].cards|
  }

  /** The collected list holds one record per card of the pages it covers. */
  lemma {:induction false} CollectedLength(catalog: seq<Page>, n: nat)
    requires n <= |catalog|
    requires forall j :: 0 <= j < n ==> ExtractAll(catalog[j].cards).Success?
    ensures |Collected(catalog, n)| == CardCount(catalog, n)
  {
    if n > 0 {
      CollectedLength(catalog, n - 1);
    }
  }

  /** The accumulator only grows: what was collected from fewer pages is a prefix. */
  lemma {:induction false} CollectedPrefix(catalog: seq<Page>, m: nat, n: nat)
    requires m <= n <= |catalog|
    requires forall j :: 0 <= j < n ==> ExtractAll(catalog[j].cards).Success?
    ensures Collected(catalog, m) <= Collected(catalog, n)
    decreases n - m
  {
    if m < n {
      CollectedPrefix(catalog, m, n - 1);
    }
  }

  /**
   * The outcome of traversing a category. The traversal reaches page
   * `Halt(catalog, 0) + 1` and decides there: it stops with what it collected
   * from the earlier pages, or fails. The stopping page's own items are not
   * extracted.
   */
  function CategoryResult(catalog: seq<Page>): (r: Result<seq<Product>, CrawlError>)
    ensures var k := Halt(catalog, 0);
      r.Success? <==> k < |catalog| && catalog[k].next.Control? && !Advances(catalog[k])
  {
    var k := Halt(catalog, 0);
    if k == |catalog| then Failure(NoSuchPage(k + 1))
    else
      match catalog[k].next
      case NoControl => Failure(NoNextControl(k + 1))
      case Control(ariaHidden) =>
        if ariaHidden == Some("false") then Failure(ExtractionFailed(k + 1, ExtractAll(catalog[k].cards).error))
        else Success(Collected(catalog, k))
  }

  /**
   * A successful traversal stops at the first page whose attribute is not
   * exactly `false`; it holds one record per card of the pages before it and
   * none of the stopping page's own cards.
   */
  lemma StopsAtFirstPageNotFalse(catalog: seq<Page>)
    requires CategoryResult(catalog).Success?
    ensures var k := Halt(catalog, 0);
      && k < |catalog|
      && (forall j :: 0 <= j < k ==> Advances(catalog[j]))
      && !Advances(catalog[k])
      && CategoryResult(catalog).value == Collected(catalog, k)
      && |CategoryResult(catalog).value| == CardCount(catalog, k)
  {
    var k := Halt(catalog, 0);
    forall j | 0 <= j < k ensures Advances(catalog[j]) {
      assert Continues(catalog, j);
    }
    CollectedLength(catalog, k);
  }

  /** A failed traversal fails at the page where it halted, for the reason that page gives. */
  lemma CategoryFailureCases(catalog: seq<Page>)
    requires CategoryResult(catalog).Failure?
    ensures var k, err := Halt(catalog, 0), CategoryResult(catalog).error;
      match err
      case NoSuchPage(p) => p == k + 1 && k == |catalog|
      case NoNextControl(p) => p == k + 1 && k < |catalog| && catalog[k].next == NoControl
      case ExtractionFailed(p, cause) =>
        && p == k + 1 && k < |catalog| && Advances(catalog[k])
        && ExtractAll(catalog[k].cards) == Failure(cause)
  {
  }

  /**
   * A category of two pages, three cards on page 1 and two on page 2, whose
   * next-page control is hidden on page 2: the traversal visits both pages
   * and returns the three records of page 1 only; no record of page 2 is in it.
   */
  lemma TwoPageCategoryKeepsFirstPageOnly(c1: Card, c2: Card)
    requires forall e :: Present(c1, e)
    requires forall e :: Present(c2, e)
    requires c1.brand != c2.brand
    ensures var catalog := [Page([c1, c1, c1], Control(Some("false"))), Page([c2, c2], Control(Some("true")))];
      && Halt(catalog, 0) + 1 == 2
      && CategoryResult(catalog) == Success([ExtractCard(c1).value, ExtractCard(c1).value, ExtractCard(c1).value])
      && ExtractCard(c2).value !in CategoryResult(catalog).value
  {
    var catalog := [Page([c1, c1, c1], Control(Some("false"))), Page([c2, c2], Control(Some("true")))];
    assert Continues(catalog, 0);
    assert !Continues(catalog, 1);
    assert Halt(catalog, 1) == 1;
    assert Halt(catalog, 0) == 1;
    var p1, p2 := ExtractCard(c1).value, ExtractCard(c2).value;
    assert p1.brand != p2.brand;
    assert ExtractAll(catalog[0].cards).value == [p1, p1, p1];
    assert Collected(catalog, 0) == [];
    assert Collected(catalog, 1) == [p1, p1, p1];
    assert catalog[1].next.ariaHidden != Some("false");
    assert CategoryResult(catalog) == Success(Collected(catalog, 1));
    assert CategoryResult(catalog) == Success([p1, p1, p1]);
  }

  /**
   * `getCategory`: starts at page 1; on each page reads the next-page control,
   * and only if it reads exactly `false` advances the index, extracts the
   * current page and appends its items, then loads the next page.
   */
  method GetCategory(category: string, catalog: seq<Page>)
    returns (r: Result<seq<Product>, CrawlError>, visited: seq<string>)
    ensures r == CategoryResult(catalog)
    ensures visited == PageUrls(category, Halt(catalog, 0) + 1)
  {
    var productList: seq<Product> := [];
    var pageIndex: nat := 1;
    visited := [];
    while true
      invariant 1 <= pageIndex <= |catalog| + 1
      invariant forall j :: 0 <= j < pageIndex - 1 ==> Continues(catalog, j)
      invariant forall j :: 0 <= j < pageIndex - 1 ==> ExtractAll(catalog[j].cards).Success?
      invariant Halt(catalog, 0) == Halt(catalog, pageIndex - 1)
      invariant productList == Collected(catalog, pageIndex - 1)
      invariant visited == PageUrls(category, pageIndex - 1)
      decreases |catalog| + 1 - pageIndex
    {
      visited := visited + [PageUrl(category, pageIndex)];
      assert visited == PageUrls(category, pageIndex);
      if pageIndex > |catalog| {
        return Failure(NoSuchPage(pageIndex)), visited;
      }
      var page := catalog[pageIndex - 1];
      match page.next
      case NoControl =>
        return Failure(NoNextControl(pageIndex)), visited;
      case Control(isLastPage) =>
        if isLastPage == Some("false") {
          pageIndex := pageIndex + 1;
          var pageProducts := GetAllItems(page.cards);
          if pageProducts.Failure? {
            return Failure(ExtractionFailed(pageIndex - 1, pageProducts.error)), visited;
          }
          productList := productList + pageProducts.value;
        } else {
          return Success(productList), visited;
        }
    }
  }
}
