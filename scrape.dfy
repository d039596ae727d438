/**
 * `scrape_website`: the page loop. For each page number from 1 to `pages` it
 * builds the page URL, opens it in the browser when the URL looks like
 * Amazon, and otherwise fetches it and hands the HTML to `parse_html`. The
 * rows of all pages are concatenated in page order; an exception raised by an
 * extractor ends the loop and escapes.
 */
module Scrape {

  import opened Wrappers
  import opened Text
  import opened Copies
  import opened Listings

  /**
   * What the network gives back, keyed by page URL: the result cards of each
   * page the browser opens, and the items of each page `fetch_html` fetches.
   * A URL missing from `browser` is one whose navigation fails; a URL missing
   * from `http` is one whose fetch returns None or an empty body.
   */
  datatype Web = Web(browser: map<string, seq<AmazonItem>>, http: map<string, seq<EbayItem>>)

  /** `f"{target_url}&page={page}"`. */
  function PageUrl(target: string, n: nat): (url: string)
    ensures |url| > |target| && url[..|target|] == target
    ensures url[|target|..] == "&page=" + NatToString(n)
  {
    target + "&page=" + NatToString(n)
  }

  /** Each page number has its own URL: no page is fetched twice for one search. */
  lemma PageUrlInjective(target: string, m: nat, n: nat)
    requires PageUrl(target, m) == PageUrl(target, n)
    ensures m == n
  {
    var u := PageUrl(target, m);
    assert u[|target| + 6..] == NatToString(m);
    assert PageUrl(target, n)[|target| + 6..] == NatToString(n);
    NatToStringInjective(m, n);
  }

  /**
   * The page goes to the browser: the older copies test that the URL starts
   * with "https://amazon", app_gradio.py and app.py that "amazon" occurs
   * anywhere in it.
   */
  predicate ToBrowser(copy: Copy, url: string) {
    if OlderShape(copy) then StartsWith(url, "https://amazon") else Contains(url, "amazon")
  }

  /** The URL `parse_html` receives: the search URL in the older copies, the page URL in the others. */
  function HtmlUrl(copy: Copy, target: string, url: string): string {
    if OlderShape(copy) then target else url
  }

  function Opened(web: Web, url: string): Option<seq<AmazonItem>> {
    if url in web.browser then Some(web.browser[url]) else None
  }

  /** The rows one page adds, or the exception its extractor raises. */
  function PageSpec(copy: Copy, convert: Converter, web: Web, target: string, n: nat): Result<seq<Listing>, Raised> {
    var url := PageUrl(target, n);
    if ToBrowser(copy, url) then ParseAmazonSpec(copy, convert, Opened(web, url))
    else if url in web.http then ParseHtmlSpec(copy, convert, web.http[url], HtmlUrl(copy, target, url))
    else Success([])
  }

  /** The outcome of each page, by page number. */
  type PageResults = nat -> Result<seq<Listing>, Raised>

  function PagesOf(copy: Copy, convert: Converter, web: Web, target: string): PageResults {
    (n: nat) => PageSpec(copy, convert, web, target, n)
  }

  /** Pages 1 to `pages`, one after the other: the loop of `scrape_website` over given page outcomes. */
  function Collect(page: PageResults, pages: int): Result<seq<Listing>, Raised>
    decreases if pages < 0 then 0 else pages
  {
    if pages < 1 then Success([])
    else
      var r := Collect(page, pages - 1);
      if r.Failure? then r
      else
        match page(pages)
        case Failure(e) => Failure(e)
        case Success(rows) => Success(r.value + rows)
  }

  /** `scrape_website(target, pages=pages)`. */
  function ScrapeSpec(copy: Copy, convert: Converter, web: Web, target: string, pages: int): Result<seq<Listing>, Raised> {
    Collect(PagesOf(copy, convert, web, target), pages)
  }

  /** One pass of the loop: open or fetch the page and extract its rows. */
  method ScrapePage(copy: Copy, convert: Converter, web: Web, target: string, n: nat) returns (data: Result<seq<Listing>, Raised>)
    ensures data == PageSpec(copy, convert, web, target, n)
  {
    var url := PageUrl(target, n);
    if ToBrowser(copy, url) {
      data := ParseAmazon(copy, convert, Opened(web, url));
    } else if url in web.http {
      data := ParseHtml(copy, convert, web.http[url], HtmlUrl(copy, target, url));
    } else {
      data := Success([]);
    }
  }

  method ScrapeWebsite(copy: Copy, convert: Converter, web: Web, target: string, pages: int) returns (r: Result<seq<Listing>, Raised>)
    ensures r == ScrapeSpec(copy, convert, web, target, pages)
  {
    var allData: seq<Listing> := [];
    var page := 1;
    ghost var outcome := PagesOf(copy, convert, web, target);
    while page <= pages
      invariant 1 <= page <= (if pages >= 1 then pages + 1 else 1)
      invariant Collect(outcome, page - 1) == Success(allData)
    {
      var data := ScrapePage(copy, convert, web, target, page);
      assert data == outcome(page);
      if data.Failure? {
        CollectStops(outcome, page, pages);
        return Failure(data.error);
      }
      allData := allData + data.value;
      page := page + 1;
    }
    if pages >= 1 {
      assert page - 1 == pages;
    }
    assert ScrapeSpec(copy, convert, web, target, pages) == Collect(outcome, pages);
    return Success(allData);
  }

  /** A page that raises ends the scrape with its exception, whatever pages follow. */
  lemma {:induction false} CollectStops(page: PageResults, n: nat, pages: int)
    requires 1 <= n <= pages && Collect(page, n).Failure?
    ensures Collect(page, pages) == Collect(page, n)
    decreases pages - n
  {
    if n < pages {
      CollectStops(page, n, pages - 1);
    }
  }

  /** Asking for fewer than one page scrapes nothing. */
  lemma NoPagesNoRows(copy: Copy, convert: Converter, web: Web, target: string, pages: int)
    requires pages < 1
    ensures ScrapeSpec(copy, convert, web, target, pages) == Success([])
  {
  }

  /** A page that neither goes to the browser nor is fetched adds no rows. */
  lemma FailedFetchAddsNothing(copy: Copy, convert: Converter, web: Web, target: string, n: nat)
    requires !ToBrowser(copy, PageUrl(target, n)) && PageUrl(target, n) !in web.http
    ensures PageSpec(copy, convert, web, target, n) == Success([])
  {
  }

  /** The rows of pages `first` to `last`, in page order. */
  function AllPages(page: PageResults, first: nat, last: nat): seq<Listing>
    decreases last + 1 - first
  {
    if first > last then []
    else (if page(first).Success? then page(first).value else []) + AllPages(page, first + 1, last)
  }

  /** Adding a page at the end appends its rows. */
  lemma {:induction false} AllPagesSnoc(page: PageResults, first: nat, last: nat)
    requires 1 <= first <= last + 1 && page(last + 1).Success?
    ensures AllPages(page, first, last + 1) == AllPages(page, first, last) + page(last + 1).value
    decreases last + 1 - first
  {
    if first <= last {
      AllPagesSnoc(page, first + 1, last);
    }
  }

  /** No page up to `pages` raises. */
  predicate PagesSucceed(page: PageResults, pages: nat) {
    forall n :: 1 <= n <= pages ==> page(n).Success?
  }

  /**
   * When no page raises, `scrape_website` returns every page's rows,
   * concatenated in page order from page 1 to page `pages`.
   */
  lemma {:induction false} CollectConcatenates(page: PageResults, pages: nat)
    requires PagesSucceed(page, pages)
    ensures Collect(page, pages) == Success(AllPages(page, 1, pages))
  {
    if pages >= 1 {
      CollectConcatenates(page, pages - 1);
      AllPagesSnoc(page, 1, pages - 1);
    }
  }

  /** The first page that raises decides the exception of the whole scrape. */
  lemma CollectFirstFailure(page: PageResults, k: nat, pages: int)
    requires 1 <= k <= pages && page(k).Failure?
    requires PagesSucceed(page, k - 1)
    ensures Collect(page, pages) == Failure(page(k).error)
  {
    CollectConcatenates(page, k - 1);
    CollectStops(page, k, pages);
  }

  /** Hence for the pages of a search: in page order when none raises, the first exception otherwise. */
  lemma ScrapeOutcome(copy: Copy, convert: Converter, web: Web, target: string, pages: nat)
    ensures var page := PagesOf(copy, convert, web, target);
      (PagesSucceed(page, pages) ==> ScrapeSpec(copy, convert, web, target, pages) == Success(AllPages(page, 1, pages))) &&
      (forall k :: 1 <= k <= pages && page(k).Failure? && PagesSucceed(page, k - 1) ==>
        ScrapeSpec(copy, convert, web, target, pages) == Failure(page(k).error))
  {
    var page := PagesOf(copy, convert, web, target);
    if PagesSucceed(page, pages) {
      CollectConcatenates(page, pages);
    }
    forall k | 1 <= k <= pages && page(k).Failure? && PagesSucceed(page, k - 1)
      ensures Collect(page, pages) == Failure(page(k).error)
    {
      CollectFirstFailure(page, k, pages);
    }
  }

  /**
   * In app_gradio.py and app.py every page of a search URL that mentions
   * "amazon" goes to the browser, even an eBay search for a product whose
   * name holds the word.
   */
  lemma SearchTermRoutesToBrowser(copy: Copy, target: string, n: nat)
    requires !OlderShape(copy) && Contains(target, "amazon")
    ensures ToBrowser(copy, PageUrl(target, n))
  {
    ContainsExtend(target, "&page=" + NatToString(n), "amazon");
    assert PageUrl(target, n) == target + ("&page=" + NatToString(n));
  }

  /** In the older copies a page goes to the browser when its search URL starts like Amazon's. */
  lemma AmazonPrefixRoutesToBrowser(copy: Copy, target: string, n: nat)
    requires OlderShape(copy) && StartsWith(target, "https://amazon")
    ensures ToBrowser(copy, PageUrl(target, n))
  {
    var url := PageUrl(target, n);
    assert url[..|target|][..14] == url[..14];
  }
}
