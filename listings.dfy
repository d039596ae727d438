/**
 * The listing extractors: `parse_ebay` walks the `li.s-item` elements of a
 * fetched eBay page, `parse_amazon` the result cards of an Amazon page opened
 * in a browser, and `parse_html` picks the extractor for a fetched page. A
 * DOM element is modelled by what the selectors find in it: an Option per
 * field, None where `find` or `query_selector` finds nothing.
 */
module Listings {

  import opened Wrappers
  import opened Text
  import opened Currency
  import opened Conversion
  import opened Copies

  /** One row of the scraped data: the Name, Price and Link columns. */
  datatype Listing = Listing(name: string, price: string, link: string)

  /** The exception an extractor lets escape to its caller. */
  datatype Raised = AttributeError | TypeError | NameError | NavigationError

  /**
   * One eBay item: the stripped text of its title div, the stripped text of
   * its price span, and the `href` of its first anchor that has one. Both
   * texts are only ever used stripped (`.text.strip()`).
   */
  datatype EbayItem = EbayItem(title: Option<string>, price: Option<string>, href: Option<string>)

  /**
   * One Amazon result card: the inner text of its title span, the inner text
   * of its price span, and its title anchor, itself holding the `href`
   * attribute when the anchor has one.
   */
  datatype AmazonItem = AmazonItem(title: Option<string>, price: Option<string>, anchor: Option<Option<string>>)

  /**
   * `convert_price` with the copy's settings fixed: the extractors pass it
   * every price text they find.
   */
  type Converter = string -> string

  /** `convert_price` as the given copy defines it. */
  function CopyPrice(copy: Copy, settings: Settings): Converter {
    text => ConvertPrice(settings, Symbols(copy), OlderShape(copy), text)
  }

  const ShopOnEbay: string := "Shop on eBay"

  // ---------------------------------------------------------------------
  // parse_ebay

  /**
   * The item raises out of `parse_ebay`: its title is looked up outside the
   * `try`, so a missing title raises AttributeError; a missing anchor makes
   * `None['href']` raise TypeError, which the `except AttributeError` does not
   * catch. A missing price raises AttributeError inside the `try` and only
   * skips the item, and it is looked up before the anchor.
   */
  predicate EbayRaises(item: EbayItem) {
    item.title.None? || (item.title.value != ShopOnEbay && item.price.Some? && item.href.None?)
  }

  function EbayError(item: EbayItem): Raised
    requires EbayRaises(item)
  {
    if item.title.None? then AttributeError else TypeError
  }

  /** The item becomes a row: it is titled, not the "Shop on eBay" sentinel, priced and linked. */
  predicate EbayKept(item: EbayItem) {
    item.title.Some? && item.title.value != ShopOnEbay && item.price.Some? && item.href.Some?
  }

  function EbayListing(convert: Converter, item: EbayItem): Listing
    requires EbayKept(item)
  {
    Listing(item.title.value, convert(item.price.value), item.href.value)
  }

  /** The row a non-raising eBay item adds: one when it is kept, none otherwise. */
  function EbayRows(convert: Converter, item: EbayItem): seq<Listing> {
    if EbayKept(item) then [EbayListing(convert, item)] else []
  }

  /** `parse_ebay(soup)` on a page whose items are `items`, one item at a time. */
  function ParseEbaySpec(convert: Converter, items: seq<EbayItem>): Result<seq<Listing>, Raised>
    decreases |items|
  {
    if items == [] then Success([])
    else
      var r := ParseEbaySpec(convert, items[..|items| - 1]);
      var last := items[|items| - 1];
      if r.Failure? then r
      else if EbayRaises(last) then Failure(EbayError(last))
      else Success(r.value + EbayRows(convert, last))
  }

  /** The rows of the kept items, in page order. */
  function KeptEbay(convert: Converter, items: seq<EbayItem>): (r: seq<Listing>)
    ensures |r| <= |items|
  {
    if items == [] then []
    else
      EbayRows(convert, items[0]) + KeptEbay(convert, items[1..])
  }

  /** Where the first item that raises is, or `|items|`. */
  function FirstEbayRaise(items: seq<EbayItem>): (k: nat)
    ensures k <= |items|
    ensures k < |items| ==> EbayRaises(items[k])
    ensures forall j :: 0 <= j < k ==> !EbayRaises(items[j])
  {
    if items == [] || EbayRaises(items[0]) then 0 else 1 + FirstEbayRaise(items[1..])
  }

  method ParseEbay(convert: Converter, items: seq<EbayItem>) returns (r: Result<seq<Listing>, Raised>)
    ensures r == ParseEbaySpec(convert, items)
  {
    var data: seq<Listing> := [];
    var i := 0;
    while i < |items|
      invariant 0 <= i <= |items|
      invariant ParseEbaySpec(convert, items[..i]) == Success(data)
    {
      var item := items[i];
      assert items[..i + 1][..i] == items[..i];
      if item.title.None? {
        ParseEbayStops(convert, items, i + 1);
        return Failure(AttributeError);
      }
      var title := item.title.value;
      ghost var before := data;
      if title != ShopOnEbay {
        if item.price.Some? {
          if item.href.None? {
            ParseEbayStops(convert, items, i + 1);
            return Failure(TypeError);
          }
          data := data + [Listing(title, convert(item.price.value), item.href.value)];
        }
      }
      assert data == before + EbayRows(convert, item);
      assert ParseEbaySpec(convert, items[..i + 1]) == Success(before + EbayRows(convert, item));
      i := i + 1;
    }
    assert items[..i] == items;
    return Success(data);
  }

  /** Once a prefix of the page raises, the whole page raises the same exception. */
  lemma {:induction false} ParseEbayStops(convert: Converter, items: seq<EbayItem>, n: nat)
    requires n <= |items| && ParseEbaySpec(convert, items[..n]).Failure?
    ensures ParseEbaySpec(convert, items) == ParseEbaySpec(convert, items[..n])
    decreases |items| - n
  {
    if n < |items| {
      assert items[..n + 1][..n] == items[..n];
      ParseEbayStops(convert, items, n + 1);
    } else {
      assert items[..n] == items;
    }
  }

  lemma {:induction false} KeptEbayAppend(convert: Converter, a: seq<EbayItem>, b: seq<EbayItem>)
    ensures KeptEbay(convert, a + b) == KeptEbay(convert, a) + KeptEbay(convert, b)
    decreases |a|
  {
    if a == [] {
      assert a + b == b;
    } else {
      assert (a + b)[0] == a[0];
      assert (a + b)[1..] == a[1..] + b;
      KeptEbayAppend(convert, a[1..], b);
    }
  }

  /** A page on which no item raises gives the rows of its kept items. */
  lemma {:induction false} ParseEbayClean(convert: Converter, items: seq<EbayItem>)
    requires forall j :: 0 <= j < |items| ==> !EbayRaises(items[j])
    ensures ParseEbaySpec(convert, items) == Success(KeptEbay(convert, items))
    decreases |items|
  {
    if items != [] {
      var init := items[..|items| - 1];
      var last := items[|items| - 1];
      assert items == init + [last];
      ParseEbayClean(convert, init);
      KeptEbayAppend(convert, init, [last]);
      assert KeptEbay(convert, [last]) == EbayRows(convert, last) by {
        assert [last][1..] == [];
      }
    }
  }

  /** The first item that raises decides the exception of the whole page. */
  lemma ParseEbayFirstRaise(convert: Converter, items: seq<EbayItem>, k: nat)
    requires k < |items| && EbayRaises(items[k])
    requires forall j :: 0 <= j < k ==> !EbayRaises(items[j])
    ensures ParseEbaySpec(convert, items) == Failure(EbayError(items[k]))
  {
    var prefix := items[..k + 1];
    assert prefix[..|prefix| - 1] == items[..k];
    assert prefix[|prefix| - 1] == items[k];
    ParseEbayClean(convert, items[..k]);
    assert ParseEbaySpec(convert, prefix) == Failure(EbayError(items[k]));
    ParseEbayStops(convert, items, k + 1);
  }

  /**
   * `parse_ebay` raises the exception of the first item that raises, and
   * otherwise returns the rows of the kept items in page order.
   */
  lemma ParseEbayOutcome(convert: Converter, items: seq<EbayItem>)
    ensures var k := FirstEbayRaise(items);
      ParseEbaySpec(convert, items) ==
        if k < |items| then Failure(EbayError(items[k])) else Success(KeptEbay(convert, items))
  {
    var k := FirstEbayRaise(items);
    if k < |items| {
      ParseEbayFirstRaise(convert, items, k);
    } else {
      ParseEbayClean(convert, items);
    }
  }

  /**
   * A row comes from a kept item and every kept item gives its row: the
   * "Shop on eBay" sentinel, unpriced items and untitled items give none.
   */
  lemma {:induction false} KeptEbayRows(convert: Converter, items: seq<EbayItem>, row: Listing)
    ensures row in KeptEbay(convert, items) <==>
      exists i :: 0 <= i < |items| && EbayKept(items[i]) && EbayListing(convert, items[i]) == row
  {
    if items != [] {
      KeptEbayRows(convert, items[1..], row);
      if row in KeptEbay(convert, items[1..]) {
        var i :| 0 <= i < |items[1..]| && EbayKept(items[1..][i]) && EbayListing(convert, items[1..][i]) == row;
        assert items[i + 1] == items[1..][i];
      }
      if exists i :: 0 <= i < |items| && EbayKept(items[i]) && EbayListing(convert, items[i]) == row {
        var i :| 0 <= i < |items| && EbayKept(items[i]) && EbayListing(convert, items[i]) == row;
        if i > 0 {
          assert items[1..][i - 1] == items[i];
        }
      }
    }
  }

  /** No row is named "Shop on eBay". */
  lemma NoSentinelRow(convert: Converter, items: seq<EbayItem>)
    ensures forall row :: row in KeptEbay(convert, items) ==> row.name != ShopOnEbay
  {
    forall row | row in KeptEbay(convert, items)
      ensures row.name != ShopOnEbay
    {
      KeptEbayRows(convert, items, row);
    }
  }

  // ---------------------------------------------------------------------
  // parse_amazon

  /** What a copy does with a titled card that has no price span. */
  datatype MissingPrice = PriceAsZero | PriceAborts

  /** What a copy does with a titled card that has no title anchor. */
  datatype MissingAnchor = LinkAsNA | AnchorAborts

  /**
   * app_fastapi.py and app.py convert the text "0.00" instead; the other
   * copies call `inner_text()` on None, and the AttributeError ends the loop.
   */
  function PricePolicy(copy: Copy): MissingPrice {
    if copy == AppFastapi || copy == App then PriceAsZero else PriceAborts
  }

  /** app_fastapi.py writes "N/A" as the link; the other copies call a method on None. */
  function AnchorPolicy(copy: Copy): MissingAnchor {
    if copy == AppFastapi then LinkAsNA else AnchorAborts
  }

  /**
   * app_fastapi.py opens the page inside its `try` and returns what it has
   * (nothing) when navigation fails; the other copies call `goto` before
   * their `try`, so the failure escapes.
   */
  predicate NavigationCaught(copy: Copy) {
    copy == AppFastapi
  }

  /** An f-string shows a missing `href` attribute as "None". */
  function HrefText(href: Option<string>): string {
    match href
    case None => "None"
    case Some(h) => h
  }

  function AmazonLink(anchor: Option<Option<string>>): string {
    match anchor
    case None => "N/A"
    case Some(href) => "https://amazon.com" + HrefText(href)
  }

  /** The card ends the loop with an AttributeError in this copy. */
  predicate AmazonAborts(copy: Copy, item: AmazonItem) {
    item.title.Some? &&
    ((item.price.None? && PricePolicy(copy) == PriceAborts) || (item.anchor.None? && AnchorPolicy(copy) == AnchorAborts))
  }

  /** The row of a titled card that does not abort. */
  function AmazonListing(copy: Copy, convert: Converter, item: AmazonItem): Listing
    requires item.title.Some?
  {
    Listing(item.title.value, convert(item.price.GetOr("0.00")), AmazonLink(item.anchor))
  }

  /** What one card adds to the page's rows; untitled cards are passed over. */
  function AmazonRows(copy: Copy, convert: Converter, item: AmazonItem): seq<Listing> {
    if item.title.None? || AmazonAborts(copy, item) then [] else [AmazonListing(copy, convert, item)]
  }

  /** The rows collected so far, and whether an AttributeError has ended the loop. */
  datatype Scan = Scan(rows: seq<Listing>, stopped: bool)

  /** The item loop of `parse_amazon`, one card at a time. */
  function AmazonScan(copy: Copy, convert: Converter, items: seq<AmazonItem>): Scan
    decreases |items|
  {
    if items == [] then Scan([], false)
    else
      var s := AmazonScan(copy, convert, items[..|items| - 1]);
      if s.stopped then s
      else if AmazonAborts(copy, items[|items| - 1]) then Scan(s.rows, true)
      else Scan(s.rows + AmazonRows(copy, convert, items[|items| - 1]), false)
  }

  /** `parse_amazon(url)`; `page` is None where navigation to the URL fails. */
  function ParseAmazonSpec(copy: Copy, convert: Converter, page: Option<seq<AmazonItem>>): Result<seq<Listing>, Raised> {
    match page
    case None => if NavigationCaught(copy) then Success([]) else Failure(NavigationError)
    case Some(items) => Success(AmazonScan(copy, convert, items).rows)
  }

  method ParseAmazon(copy: Copy, convert: Converter, page: Option<seq<AmazonItem>>) returns (r: Result<seq<Listing>, Raised>)
    ensures r == ParseAmazonSpec(copy, convert, page)
  {
    if page.None? {
      if NavigationCaught(copy) {
        return Success([]);
      }
      return Failure(NavigationError);
    }
    var items := page.value;
    var data: seq<Listing> := [];
    var i := 0;
    while i < |items|
      invariant 0 <= i <= |items|
      invariant AmazonScan(copy, convert, items[..i]) == Scan(data, false)
    {
      var item := items[i];
      assert items[..i + 1][..i] == items[..i];
      if item.title.Some? {
        if AmazonAborts(copy, item) {
          AmazonScanStops(copy, convert, items, i + 1);
          return Success(data);
        }
        data := data + [AmazonListing(copy, convert, item)];
      }
      i := i + 1;
    }
    assert items[..i] == items;
    return Success(data);
  }

  /** Once the loop has stopped on a prefix, the later cards change nothing. */
  lemma {:induction false} AmazonScanStops(copy: Copy, convert: Converter, items: seq<AmazonItem>, n: nat)
    requires n <= |items| && AmazonScan(copy, convert, items[..n]).stopped
    ensures AmazonScan(copy, convert, items) == AmazonScan(copy, convert, items[..n])
    decreases |items| - n
  {
    if n < |items| {
      assert items[..n + 1][..n] == items[..n];
      AmazonScanStops(copy, convert, items, n + 1);
    } else {
      assert items[..n] == items;
    }
  }

  /** The rows of the cards, in page order, with no card aborting. */
  function KeptAmazon(copy: Copy, convert: Converter, items: seq<AmazonItem>): (r: seq<Listing>)
    ensures |r| <= |items|
  {
    if items == [] then [] else AmazonRows(copy, convert, items[0]) + KeptAmazon(copy, convert, items[1..])
  }

  /** Where the first card that aborts is, or `|items|`. */
  function FirstAbort(copy: Copy, items: seq<AmazonItem>): (k: nat)
    ensures k <= |items|
    ensures k < |items| ==> AmazonAborts(copy, items[k])
    ensures forall j :: 0 <= j < k ==> !AmazonAborts(copy, items[j])
  {
    if items == [] || AmazonAborts(copy, items[0]) then 0 else 1 + FirstAbort(copy, items[1..])
  }

  lemma {:induction false} KeptAmazonAppend(copy: Copy, convert: Converter, a: seq<AmazonItem>, b: seq<AmazonItem>)
    ensures KeptAmazon(copy, convert, a + b) == KeptAmazon(copy, convert, a) + KeptAmazon(copy, convert, b)
    decreases |a|
  {
    if a == [] {
      assert a + b == b;
    } else {
      assert (a + b)[0] == a[0];
      assert (a + b)[1..] == a[1..] + b;
      KeptAmazonAppend(copy, convert, a[1..], b);
    }
  }

  /** A page on which no card aborts is read to the end, giving the rows of its cards. */
  lemma {:induction false} AmazonScanClean(copy: Copy, convert: Converter, items: seq<AmazonItem>)
    requires forall j :: 0 <= j < |items| ==> !AmazonAborts(copy, items[j])
    ensures AmazonScan(copy, convert, items) == Scan(KeptAmazon(copy, convert, items), false)
    decreases |items|
  {
    if items != [] {
      var init := items[..|items| - 1];
      var last := items[|items| - 1];
      assert items == init + [last];
      AmazonScanClean(copy, convert, init);
      KeptAmazonAppend(copy, convert, init, [last]);
      assert KeptAmazon(copy, convert, [last]) == AmazonRows(copy, convert, last) by {
        assert [last][1..] == [];
      }
    }
  }

  /** The loop stops at the first card that aborts, with the rows of the cards before it. */
  lemma AmazonScanFirstAbort(copy: Copy, convert: Converter, items: seq<AmazonItem>, k: nat)
    requires k < |items| && AmazonAborts(copy, items[k])
    requires forall j :: 0 <= j < k ==> !AmazonAborts(copy, items[j])
    ensures AmazonScan(copy, convert, items) == Scan(KeptAmazon(copy, convert, items[..k]), true)
  {
    var prefix := items[..k + 1];
    assert prefix[..k] == items[..k];
    AmazonScanClean(copy, convert, items[..k]);
    assert AmazonScan(copy, convert, prefix) == Scan(KeptAmazon(copy, convert, items[..k]), true);
    AmazonScanStops(copy, convert, items, k + 1);
  }

  /**
   * The rows `parse_amazon` returns for a page that opens are those of the
   * cards before the first card that aborts: a prefix of the page decides
   * them, and the cards after it are dropped.
   */
  lemma ParseAmazonKeepsPrefix(copy: Copy, convert: Converter, items: seq<AmazonItem>)
    ensures ParseAmazonSpec(copy, convert, Some(items)) ==
      Success(KeptAmazon(copy, convert, items[..FirstAbort(copy, items)]))
  {
    var k := FirstAbort(copy, items);
    if k < |items| {
      AmazonScanFirstAbort(copy, convert, items, k);
    } else {
      assert items[..k] == items;
      AmazonScanClean(copy, convert, items);
    }
  }

  /** app_fastapi.py never stops early: every titled card gives a row. */
  lemma FastapiReadsWholePage(convert: Converter, items: seq<AmazonItem>)
    ensures ParseAmazonSpec(AppFastapi, convert, Some(items)) == Success(KeptAmazon(AppFastapi, convert, items))
  {
    ParseAmazonKeepsPrefix(AppFastapi, convert, items);
    assert items[..|items|] == items;
  }

  /**
   * A row comes from a titled card, is named by the card's title, and links
   * to amazon.com, or, in app_fastapi.py only, to "N/A".
   */
  lemma {:induction false} KeptAmazonRows(copy: Copy, convert: Converter, items: seq<AmazonItem>, row: Listing)
    requires row in KeptAmazon(copy, convert, items)
    ensures exists i :: 0 <= i < |items| && items[i].title == Some(row.name)
    ensures StartsWith(row.link, "https://amazon.com") || (copy == AppFastapi && row.link == "N/A")
  {
    if row in AmazonRows(copy, convert, items[0]) {
      assert items[0].title == Some(row.name);
      var anchor := items[0].anchor;
      if anchor.Some? {
        assert row.link == "https://amazon.com" + HrefText(anchor.value);
      }
    } else {
      KeptAmazonRows(copy, convert, items[1..], row);
      var i :| 0 <= i < |items[1..]| && items[1..][i].title == Some(row.name);
      assert items[i + 1] == items[1..][i];
    }
  }

  /** In app.py a card without a price span is kept, priced as the text "0.00". */
  lemma AppPricesMissingAsZero(convert: Converter, item: AmazonItem)
    requires item.title.Some? && item.price.None? && item.anchor.Some?
    ensures AmazonRows(App, convert, item) ==
      [Listing(item.title.value, convert("0.00"), "https://amazon.com" + HrefText(item.anchor.value))]
  {
  }

  // ---------------------------------------------------------------------
  // parse_html

  /**
   * `parse_html(html, url)`: eBay pages go to `parse_ebay`, anything else
   * gives no rows. products_webscrap.py first tests for "aliexpress" and
   * calls `parse_aliexpress`, whose definition is commented out, so the call
   * raises NameError.
   */
  function ParseHtmlSpec(copy: Copy, convert: Converter, items: seq<EbayItem>, url: string): Result<seq<Listing>, Raised> {
    if copy == ProductsWebscrap && Contains(url, "aliexpress") then Failure(NameError)
    else if Contains(url, "ebay") then ParseEbaySpec(convert, items)
    else Success([])
  }

  method ParseHtml(copy: Copy, convert: Converter, items: seq<EbayItem>, url: string) returns (r: Result<seq<Listing>, Raised>)
    ensures r == ParseHtmlSpec(copy, convert, items, url)
  {
    if copy == ProductsWebscrap && Contains(url, "aliexpress") {
      return Failure(NameError);
    }
    if Contains(url, "ebay") {
      r := ParseEbay(convert, items);
    } else {
      r := Success([]);
    }
  }

  /** A page whose URL names no supported site gives no rows, whatever it holds. */
  lemma ParseHtmlOtherSites(copy: Copy, convert: Converter, items: seq<EbayItem>, url: string)
    requires !Contains(url, "ebay") && !Contains(url, "aliexpress")
    ensures ParseHtmlSpec(copy, convert, items, url) == Success([])
  {
  }

  /** In products_webscrap.py an AliExpress URL raises, even one that also names eBay. */
  lemma AliexpressRaises(convert: Converter, items: seq<EbayItem>, url: string)
    requires Contains(url, "aliexpress")
    ensures ParseHtmlSpec(ProductsWebscrap, convert, items, url) == Failure(NameError)
    ensures Contains(url, "ebay") ==>
      ParseHtmlSpec(ProductsWebscrapGradio, convert, items, url) == ParseEbaySpec(convert, items)
  {
  }
}
