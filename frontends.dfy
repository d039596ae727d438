/**
 * The front ends: what each copy does with the search term, currency code,
 * symbol choice and page count it is given before and after the page loops.
 * app_fastapi.py answers an HTTP request (`scrape_endpoint`); the two Gradio
 * apps and app.py run `run_scraper`, which sets module globals and then
 * scrapes; products_webscrap.py asks its questions on the command line in its
 * `__main__` block. Each scrapes an Amazon search URL and, except app_fastapi.py,
 * an eBay one, then draws the pie chart.
 */
module Frontends {

  import opened Wrappers
  import opened Text
  import opened Currency
  import opened Conversion
  import opened Copies
  import opened Listings
  import opened Scrape
  import opened PriceColumn
  import opened Buckets

  /** `f'https://amazon.com/s?k={search_field}&s=exact-aware-popularity-rank'`. */
  function AmazonSearch(term: string): (url: string)
    ensures StartsWith(url, "https://amazon")
  {
    assert ("https://amazon.com/s?k=" + term + "&s=exact-aware-popularity-rank")[..14] == "https://amazon";
    "https://amazon.com/s?k=" + term + "&s=exact-aware-popularity-rank"
  }

  /** `f'https://ebay.com/sch/i.html?_nkw={search_field}'`. */
  function EbaySearch(term: string): string {
    "https://ebay.com/sch/i.html?_nkw=" + term
  }

  // ---------------------------------------------------------------------
  // The loop over the search URLs

  /** `for url in urls: all_data.extend(scrape_website(url, ...))`, an exception ending it. */
  function ScrapeAllSpec(copy: Copy, convert: Converter, web: Web, urls: seq<string>, pages: int): Result<seq<Listing>, Raised>
    decreases |urls|
  {
    if urls == [] then Success([])
    else
      var r := ScrapeAllSpec(copy, convert, web, urls[..|urls| - 1], pages);
      if r.Failure? then r
      else
        match ScrapeSpec(copy, convert, web, urls[|urls| - 1], pages)
        case Failure(e) => Failure(e)
        case Success(rows) => Success(r.value + rows)
  }

  method ScrapeAll(copy: Copy, convert: Converter, web: Web, urls: seq<string>, pages: int) returns (r: Result<seq<Listing>, Raised>)
    ensures r == ScrapeAllSpec(copy, convert, web, urls, pages)
  {
    var allData: seq<Listing> := [];
    var i := 0;
    while i < |urls|
      invariant 0 <= i <= |urls|
      invariant ScrapeAllSpec(copy, convert, web, urls[..i], pages) == Success(allData)
    {
      assert urls[..i + 1][..i] == urls[..i];
      var data := ScrapeWebsite(copy, convert, web, urls[i], pages);
      if data.Failure? {
        ScrapeAllStops(copy, convert, web, urls, pages, i + 1);
        return Failure(data.error);
      }
      allData := allData + data.value;
      i := i + 1;
    }
    assert urls[..i] == urls;
    return Success(allData);
  }

  lemma {:induction false} ScrapeAllStops(copy: Copy, convert: Converter, web: Web, urls: seq<string>, pages: int, n: nat)
    requires n <= |urls| && ScrapeAllSpec(copy, convert, web, urls[..n], pages).Failure?
    ensures ScrapeAllSpec(copy, convert, web, urls, pages) == ScrapeAllSpec(copy, convert, web, urls[..n], pages)
    decreases |urls| - n
  {
    if n < |urls| {
      assert urls[..n + 1][..n] == urls[..n];
      ScrapeAllStops(copy, convert, web, urls, pages, n + 1);
    } else {
      assert urls[..n] == urls;
    }
  }

  /**
   * Two search URLs: the rows of the first, then those of the second; an
   * exception from the first skips the second.
   */
  lemma ScrapeTwoSites(copy: Copy, convert: Converter, web: Web, first: string, second: string, pages: int)
    ensures var a := ScrapeSpec(copy, convert, web, first, pages);
      var b := ScrapeSpec(copy, convert, web, second, pages);
      ScrapeAllSpec(copy, convert, web, [first, second], pages) ==
        if a.Failure? then a
        else if b.Failure? then b
        else Success(a.value + b.value)
  {
    var urls := [first, second];
    assert urls[..1] == [first];
    ScrapeOneSite(copy, convert, web, first, pages);
  }

  /** One search URL: its rows, or its exception. */
  lemma ScrapeOneSite(copy: Copy, convert: Converter, web: Web, url: string, pages: int)
    ensures ScrapeAllSpec(copy, convert, web, [url], pages) == ScrapeSpec(copy, convert, web, url, pages)
  {
    assert [url][..0] == [];
    var a := ScrapeSpec(copy, convert, web, url, pages);
    if a.Success? {
      assert [] + a.value == a.value;
    }
  }

  /**
   * The eBay search for a product whose name starts with "amazon", such as
   * "amazon echo", goes to the browser in app_gradio.py, whose search term
   * keeps "amazon" and whose test is "amazon" anywhere in the URL, and to
   * `fetch_html` in products_webscrap_gradio.py, which tests the prefix.
   */
  lemma EbaySearchForAmazonProduct(name: string, n: nat)
    requires |name| >= 6 && name[..6] == "amazon"
    ensures ToBrowser(AppGradio, PageUrl(EbaySearch(SearchTerm(AppGradio, name)), n))
    ensures !ToBrowser(ProductsWebscrapGradio, PageUrl(EbaySearch(SearchTerm(ProductsWebscrapGradio, name)), n))
  {
    assert ToBrowser(AppGradio, PageUrl(EbaySearch(SearchTerm(AppGradio, name)), n)) by {
      var lowered := Lower(name);
      assert lowered[..6] == "amazon" by {
        forall i | 0 <= i < 6 ensures lowered[i] == name[i] {
          assert lowered[i] == LowerChar(name[i]);
        }
      }
      var term := SearchTerm(AppGradio, name);
      assert term[..6] == "amazon" by {
        assert lowered == lowered[..6] + lowered[6..];
        ReplacePrefix(lowered[..6], lowered[6..], " ", "_");
      }
      var s := EbaySearch(term);
      assert s[33..][..6] == "amazon";
      ContainsAt(s, "amazon", 33);
      SearchTermRoutesToBrowser(AppGradio, s, n);
    }
    assert !ToBrowser(ProductsWebscrapGradio, PageUrl(EbaySearch(SearchTerm(ProductsWebscrapGradio, name)), n)) by {
      var other := EbaySearch(SearchTerm(ProductsWebscrapGradio, name));
      var url := PageUrl(other, n);
      assert url[..14] == other[..14];
      assert other[8] == 'e';
    }
  }

  /** Replacing a one-character pattern leaves a prefix that lacks that character as it was. */
  lemma {:induction false} ReplacePrefix(p: string, rest: string, pat: string, sub: string)
    requires |pat| == 1 && pat[0] !in p
    ensures |Replace(p + rest, pat, sub)| >= |p| && Replace(p + rest, pat, sub)[..|p|] == p
    decreases |p|
  {
    if p != [] {
      assert (p + rest)[1..] == p[1..] + rest;
      assert !StartsWith(p + rest, pat) by {
        assert (p + rest)[0] == p[0];
      }
      ReplacePrefix(p[1..], rest, pat, sub);
    }
  }

  // ---------------------------------------------------------------------
  // Inputs shared by the front ends

  /** Python's `str.isdigit()`: at least one character, all of them digits. */
  predicate IsDigitString(s: string) {
    s != [] && AllDigits(s)
  }

  /** `int(pages) if pages.isdigit() else 3`. */
  function PagesField(pages: string): (n: nat)
    ensures !IsDigitString(pages) ==> n == 3
  {
    if IsDigitString(pages) then DigitsValue(pages) else 3
  }

  /** The text of a number reads as that number, and text that is not all digits gives the default of three pages. */
  lemma PagesFieldCases(n: nat, pages: string)
    ensures PagesField(NatToString(n)) == n
    ensures PagesField("0") == 0
    ensures !IsDigitString(pages) ==> PagesField(pages) == 3
    ensures PagesField("") == 3
  {
    NatToStringRoundTrip(n);
    assert NatToString(0) == "0";
    NatToStringRoundTrip(0);
  }

  /** A pie chart that raised ValueError. */
  predicate ChartRaises(chart: Chart) {
    chart.PriceUnreadable? || chart.TooFewPrices?
  }

  // ---------------------------------------------------------------------
  // app_fastapi.py: scrape_endpoint

  /** The JSON body of a `/scrape` request. */
  datatype ScrapeRequest = ScrapeRequest(searchField: string, currency: string, pagesToScrape: int, removeCurrencyFromCsv: bool)

  /** Why a request is answered with 400. */
  datatype Rejection = EmptySearch | UnsupportedCurrency | TooFewPages

  /** The answer to a request: 400, 500 (with the 404 for no data folded into it), or success. */
  datatype Response = BadRequest(reason: Rejection) | ServerError | Scraped(records: nat)

  /** The checks before the `try`, in their order; None when the request passes them. */
  function CheckRequest(request: ScrapeRequest): (r: Option<Rejection>)
    ensures r == Some(EmptySearch) <==> request.searchField == []
    ensures r == Some(UnsupportedCurrency) <==>
      request.searchField != [] && !HasValue(FastapiSymbols, Lower(request.currency))
    ensures r == Some(TooFewPages) <==>
      request.searchField != [] && HasValue(FastapiSymbols, Lower(request.currency)) && request.pagesToScrape < 1
  {
    if Lower(request.searchField) == [] then Some(EmptySearch)
    else if !HasValue(FastapiSymbols, Lower(request.currency)) then Some(UnsupportedCurrency)
    else if request.pagesToScrape < 1 then Some(TooFewPages)
    else None
  }

  /**
   * `scrape_endpoint(request)`. `fetched` is the rate document the request
   * for the chosen currency returns, None where that request or its JSON
   * decoding raises; `convert_price` fetches the same document again for
   * every price, which the model takes to give the same table.
   */
  function ScrapeEndpointSpec(request: ScrapeRequest, fetched: Option<Rates>, web: Web, assign: real -> Cluster): Response {
    match CheckRequest(request)
    case Some(reason) => BadRequest(reason)
    case None =>
      var search := Lower(request.searchField);
      var currency := Lower(request.currency);
      var symbol := SymbolFor(FastapiSymbols, currency).value;
      if fetched.None? then ServerError
      else
        var scraped := EndpointRows(request, fetched.value, web);
        if scraped.Failure? || scraped.value == [] then ServerError
        else if ChartRaises(PieGraph(AppFastapi, scraped.value, symbol, assign)) then ServerError
        else Scraped(|scraped.value|)
  }

  /** The settings `scrape_endpoint` passes down for a request that passed its checks. */
  function EndpointSettings(request: ScrapeRequest, rates: Rates): (settings: Settings)
    requires HasValue(FastapiSymbols, Lower(request.currency))
    ensures settings.currency == Lower(request.currency) && settings.removeCurrency == request.removeCurrencyFromCsv
    ensures Lookup(FastapiSymbols, settings.symbol, "usd") == settings.currency
    ensures HasKey(FastapiSymbols, settings.symbol) && SymbolFor(FastapiSymbols, settings.currency) == Some(settings.symbol)
    ensures settings.rates == rates
  {
    FastapiKeysDistinct();
    SymbolLooksUpToCode(FastapiSymbols, Lower(request.currency), "usd");
    var currency := Lower(request.currency);
    Settings(currency, SymbolFor(FastapiSymbols, currency).value, request.removeCurrencyFromCsv, rates)
  }

  /** The rows of the one search URL app_fastapi.py scrapes. */
  function EndpointRows(request: ScrapeRequest, rates: Rates, web: Web): Result<seq<Listing>, Raised>
    requires HasValue(FastapiSymbols, Lower(request.currency))
  {
    ScrapeAllSpec(AppFastapi, CopyPrice(AppFastapi, EndpointSettings(request, rates)), web,
                  [AmazonSearch(Lower(request.searchField))], request.pagesToScrape)
  }

  method ScrapeEndpoint(request: ScrapeRequest, fetched: Option<Rates>, web: Web, assign: real -> Cluster) returns (response: Response)
    ensures response == ScrapeEndpointSpec(request, fetched, web, assign)
  {
    var search := Lower(request.searchField);
    if search == [] {
      return BadRequest(EmptySearch);
    }
    var currency := Lower(request.currency);
    if !HasValue(FastapiSymbols, currency) {
      return BadRequest(UnsupportedCurrency);
    }
    var symbol := SymbolFor(FastapiSymbols, currency).value;
    if request.pagesToScrape < 1 {
      return BadRequest(TooFewPages);
    }
    if fetched.None? {
      return ServerError;
    }
    var settings := Settings(currency, symbol, request.removeCurrencyFromCsv, fetched.value);
    assert settings == EndpointSettings(request, fetched.value);
    var allScraped := ScrapeAll(AppFastapi, CopyPrice(AppFastapi, settings), web, [AmazonSearch(search)], request.pagesToScrape);
    if allScraped.Failure? || allScraped.value == [] {
      return ServerError;
    }
    if ChartRaises(PieGraph(AppFastapi, allScraped.value, symbol, assign)) {
      return ServerError;
    }
    return Scraped(|allScraped.value|);
  }

  /**
   * The checks come in order: an empty search is refused whatever the
   * currency, an unsupported currency whatever the page count; a request
   * that passes them and scrapes nothing is answered 500, since the 404
   * raised inside the `try` is caught there; a success reports at least one
   * record.
   */
  lemma EndpointOrder(request: ScrapeRequest, fetched: Option<Rates>, web: Web, assign: real -> Cluster)
    ensures request.searchField == [] ==> ScrapeEndpointSpec(request, fetched, web, assign) == BadRequest(EmptySearch)
    ensures request.searchField != [] && !HasValue(FastapiSymbols, Lower(request.currency)) ==>
      ScrapeEndpointSpec(request, fetched, web, assign) == BadRequest(UnsupportedCurrency)
    ensures CheckRequest(request).None? && fetched.None? ==> ScrapeEndpointSpec(request, fetched, web, assign) == ServerError
    ensures ScrapeEndpointSpec(request, fetched, web, assign).Scraped? ==>
      CheckRequest(request).None? && ScrapeEndpointSpec(request, fetched, web, assign).records >= 1
  {
  }

  /** A supported request whose one Amazon search scrapes no rows is answered 500. */
  lemma NoDataIsServerError(request: ScrapeRequest, rates: Rates, web: Web, assign: real -> Cluster)
    requires CheckRequest(request).None?
    requires ScrapeSpec(AppFastapi, CopyPrice(AppFastapi, EndpointSettings(request, rates)), web,
                        AmazonSearch(Lower(request.searchField)), request.pagesToScrape) == Success([])
    ensures ScrapeEndpointSpec(request, Some(rates), web, assign) == ServerError
  {
    ScrapeOneSite(AppFastapi, CopyPrice(AppFastapi, EndpointSettings(request, rates)), web,
                  AmazonSearch(Lower(request.searchField)), request.pagesToScrape);
  }

  // ---------------------------------------------------------------------
  // run_scraper (products_webscrap_gradio.py, app_gradio.py, app.py)

  /** What a run ends with: a refusal message, the scraped rows and chart, or an exception. */
  datatype Failure = ExtractorRaised(error: Raised) | RateFetchFailed | ChartValueError

  datatype Outcome = Refused(message: string) | Completed(rows: seq<Listing>, chart: Chart) | Crashed(failure: Failure)

  predicate RunScraperCopy(copy: Copy) {
    copy == ProductsWebscrapGradio || copy == AppGradio || copy == App
  }

  /** The search term: lower-cased, and in app_gradio.py and app.py with spaces made underscores. */
  function SearchTerm(copy: Copy, productName: string): (term: string)
    ensures term == [] <==> productName == []
  {
    var lowered := Lower(productName);
    if copy == ProductsWebscrapGradio then lowered
    else
      ReplaceKeepsEmpty(lowered);
      Replace(lowered, " ", "_")
  }

  lemma ReplaceKeepsEmpty(s: string)
    ensures Replace(s, " ", "_") == [] <==> s == []
  {
  }

  function EmptyNameMessage(copy: Copy): string {
    if copy == ProductsWebscrapGradio then "Please enter a product name." else "Enter a product name."
  }

  /** `supported` is the list of codes and names built from the currency catalogue fetched at start-up. */
  function InvalidCurrencyMessage(copy: Copy, supported: string): string {
    if copy == ProductsWebscrapGradio then "Invalid currency code. Supported currencies:\n" + supported
    else "Invalid currency."
  }

  /** The rows and chart once the globals are set and the rates fetched. */
  function ScrapeAndChart(copy: Copy, settings: Settings, term: string, pages: int, web: Web, assign: real -> Cluster): Outcome {
    match ScrapeAllSpec(copy, CopyPrice(copy, settings), web, [AmazonSearch(term), EbaySearch(term)], pages)
    case Failure(e) => Crashed(ExtractorRaised(e))
    case Success(rows) =>
      var chart := PieGraph(copy, rows, settings.symbol, assign);
      if ChartRaises(chart) then Crashed(ChartValueError) else Completed(rows, chart)
  }

  /** What `run_scraper` returns, or the exception that escapes it. */
  function RunScraperSpec(copy: Copy, productName: string, currencyCode: string, removeSymbol: bool, pages: string,
                          supported: string, fetched: Option<Rates>, web: Web, assign: real -> Cluster): Outcome
  {
    var term := SearchTerm(copy, productName);
    var currency := Lower(currencyCode);
    if term == [] then Refused(EmptyNameMessage(copy))
    else if !HasValue(SignSymbols, currency) then Refused(InvalidCurrencyMessage(copy, supported))
    else if fetched.None? then Crashed(RateFetchFailed)
    else
      var settings := Settings(currency, SymbolFor(SignSymbols, currency).value, !removeSymbol, fetched.value);
      ScrapeAndChart(copy, settings, term, PagesField(pages), web, assign)
  }

  /**
   * The module globals after `run_scraper`: it sets `currency` as soon as the
   * name is accepted, even when the code then turns out unsupported, and the
   * symbol, the removal flag and the rates only for a supported code.
   */
  function AfterRunScraper(before: Settings, copy: Copy, productName: string, currencyCode: string, removeSymbol: bool,
                           fetched: Option<Rates>): Settings
  {
    var currency := Lower(currencyCode);
    if SearchTerm(copy, productName) == [] then before
    else if !HasValue(SignSymbols, currency) then before.(currency := currency)
    else Settings(currency, SymbolFor(SignSymbols, currency).value, !removeSymbol,
                  if fetched.Some? then fetched.value else before.rates)
  }

  // ---------------------------------------------------------------------
  // products_webscrap.py: the questions of `__main__`

  /** The answers the symbol question accepts, as written: `'nah' 'y'` is one string, "nahy". */
  const AcceptedAsWritten: seq<string> := ["no", "n", "not", "na", "nah" + "y", "yes", "yep", "ye", ""]

  /** The answers the symbol question evidently means to accept: the tuple with "nah" and "y" as two entries. */
  const AcceptedAnswers: seq<string> := ["no", "n", "not", "na", "nah", "y", "yes", "yep", "ye", ""]

  /** The answers that turn symbol removal off. */
  const NoAnswers: seq<string> := ["no", "n", "not", "na", "nah"]

  /**
   * What an answer does to `remove_currency_from_csv` given the list of
   * accepted answers: None where the script exits, false where it keeps the
   * symbol, true (the default) otherwise.
   */
  function RemovalChoice(accepted: seq<string>, answer: string): (r: Option<bool>)
    ensures r.None? <==> Lower(answer) !in accepted
    ensures r == Some(false) <==> Lower(answer) in accepted && Lower(answer) in NoAnswers
  {
    var a := Lower(answer);
    if a !in accepted then None else if a in NoAnswers then Some(false) else Some(true)
  }

  /**
   * As written, the prompt's own "Y" is refused, and so is "nah", although
   * the next line would turn symbol removal off for it.
   */
  lemma AnswerTupleAsWritten()
    ensures RemovalChoice(AcceptedAsWritten, "Y") == None
    ensures RemovalChoice(AcceptedAsWritten, "nah") == None
    ensures "nah" in NoAnswers
  {
    assert Lower("Y") == "y";
    assert Lower("nah") == "nah";
    assert "nah" + "y" == "nahy";
  }

  /**
   * With the intended tuple every answer that keeps the symbol is accepted,
   * "Y" and "N" in either case are answered as the prompt says, and every
   * accepted answer outside the no-answers leaves removal on.
   */
  lemma AnswerTupleCorrected(answer: string)
    ensures forall a :: a in NoAnswers ==> a in AcceptedAnswers
    ensures RemovalChoice(AcceptedAnswers, "Y") == Some(true) && RemovalChoice(AcceptedAnswers, "y") == Some(true)
    ensures RemovalChoice(AcceptedAnswers, "N") == Some(false) && RemovalChoice(AcceptedAnswers, "nah") == Some(false)
    ensures RemovalChoice(AcceptedAnswers, "") == Some(true)
    ensures Lower(answer) in NoAnswers ==> RemovalChoice(AcceptedAnswers, answer) == Some(false)
  {
    assert Lower("Y") == "y" && Lower("y") == "y";
    assert Lower("N") == "n" && Lower("nah") == "nah";
    assert Lower("") == "";
  }

  /** Python's `int(s)` on ASCII text: optional whitespace and sign around the digits; None where it raises ValueError. */
  function ParseInt(s: string): (r: Option<int>)
    ensures IsDigitString(Strip(s)) ==> r == Some(DigitsValue(Strip(s)))
    ensures Strip(s) == [] ==> r.None?
    ensures r.Some? ==> exists i :: 0 <= i < |s| && IsDigit(s[i])
    ensures r.Some? <==> SignedDigits(Strip(s))
  {
    var t := Strip(s);
    if t != [] && (t[0] == '-' || t[0] == '+') then
      if IsDigitString(t[1..]) then
        StripDigit(s, t, 1);
        Some(if t[0] == '-' then -(DigitsValue(t[1..]) as int) else DigitsValue(t[1..]))
      else None
    else if IsDigitString(t) then
      StripDigit(s, t, 0);
      Some(DigitsValue(t))
    else None
  }

  /** Digits, with or without one leading sign: the text `int()` accepts once stripped. */
  predicate SignedDigits(t: string) {
    IsDigitString(t) || (t != [] && (t[0] == '-' || t[0] == '+') && IsDigitString(t[1..]))
  }

  /** A digit of the stripped text is a digit of the text. */
  lemma StripDigit(s: string, t: string, k: nat)
    requires t == Strip(s) && k < |t| && IsDigit(t[k])
    ensures exists i :: 0 <= i < |s| && IsDigit(s[i])
  {
    var u := TrimStart(s);
    assert t == TrimEnd(u);
    assert t[k] == u[k];
    assert u[k] == s[|s| - |u| + k];
  }

  /** The text of a number reads back as that number. */
  lemma ParseIntOfNat(n: nat)
    ensures ParseInt(NatToString(n)) == Some(n)
  {
    var t := NatToString(n);
    NatToStringRoundTrip(n);
    assert NoSpace(t) by {
      forall i | 0 <= i < |t| ensures !IsSpace(t[i]) {
        assert IsDigit(t[i]);
      }
    }
    assert Strip(t) == t;
  }

  /** A minus sign before the text of a number reads as its negative. */
  lemma ParseIntOfNegative(n: nat)
    ensures ParseInt("-" + NatToString(n)) == Some(-(n as int))
  {
    var d := NatToString(n);
    var t := "-" + d;
    assert t[1..] == d;
    assert NoSpace(t) by {
      forall i | 0 <= i < |t| ensures !IsSpace(t[i]) {
        if i > 0 {
          assert t[i] == d[i - 1];
          assert IsDigit(d[i - 1]);
        }
      }
    }
    ParseIntSigned(t);
    NatToStringRoundTrip(n);
  }

  lemma ParseIntSigned(t: string)
    requires NoSpace(t) && t != [] && t[0] == '-' && IsDigitString(t[1..])
    ensures ParseInt(t) == Some(-(DigitsValue(t[1..]) as int))
  {
    StripUnchanged(t);
  }

  /**
   * Text that, stripped, has a character other than a digit after its
   * optional sign makes `int()` raise: "1.5", "3 pages" and "a1" all exit.
   */
  lemma ParseIntRefuses(s: string, k: nat)
    requires s != [] && !IsSpace(s[0]) && !IsSpace(s[|s| - 1])
    requires k < |s| && !IsDigit(s[k]) && (k == 0 ==> s[0] != '-' && s[0] != '+')
    ensures ParseInt(s).None?
  {
    StripUnchanged(s);
    if k > 0 {
      assert s[1..][k - 1] == s[k];
    }
  }

  const EmptySearchExit: string := "Sorry, i need at least one letter to start looking for a product on the websites."
  const UnknownCurrencyExit: string :=
    "Sorry, i could not find the currency code you typed, please run the script again and make sure you typed the currency abbreviation code right.\nThe currencies code that we support are:\n"
  const AnswerExit: string := "Sorry, i only accept Yes, Y, No and N as possible answers"
  const PagesExit: string := "Sorry, i only accept numbers as possible answer"

  /**
   * What the script ends with, given its four answers; `accepted` is the
   * tuple the symbol answer is checked against (`AcceptedAsWritten` as the
   * script has it, `AcceptedAnswers` as it is evidently meant).
   */
  function CliSpec(accepted: seq<string>, productName: string, currencyCode: string, answer: string, pagesText: string,
                   supported: string, fetched: Option<Rates>, web: Web, assign: real -> Cluster): Outcome
  {
    var term := Lower(productName);
    var currency := Lower(currencyCode);
    if term == [] then Refused(EmptySearchExit)
    else if !HasValue(SignSymbols, currency) then Refused(UnknownCurrencyExit + supported)
    else if RemovalChoice(accepted, answer).None? then Refused(AnswerExit)
    else if ParseInt(pagesText).None? then Refused(PagesExit)
    else if fetched.None? then Crashed(RateFetchFailed)
    else
      var settings := Settings(currency, SymbolFor(SignSymbols, currency).value,
                               RemovalChoice(accepted, answer).value, fetched.value);
      ScrapeAndChart(ProductsWebscrap, settings, term, ParseInt(pagesText).value, web, assign)
  }

  /** The module globals once the script has asked its questions and fetched the rates. */
  function AfterCli(accepted: seq<string>, before: Settings, productName: string, currencyCode: string, answer: string, pagesText: string,
                    fetched: Option<Rates>): Settings
  {
    var currency := Lower(currencyCode);
    var choice := RemovalChoice(accepted, answer);
    if Lower(productName) == [] then before
    else if !HasValue(SignSymbols, currency) then before.(currency := currency)
    else
      var symbolSet := before.(currency := currency, symbol := SymbolFor(SignSymbols, currency).value);
      if choice.None? then symbolSet
      else
        var removalSet := symbolSet.(removeCurrency := choice.value && before.removeCurrency);
        if ParseInt(pagesText).None? || fetched.None? then removalSet
        else removalSet.(rates := fetched.value)
  }

  /**
   * The module-level state of one copy: the globals `convert_price` reads
   * (`currency`, `currency_symbol`, `remove_currency_from_csv`,
   * `api_url_for_currencies`), which `run_scraper` and the `__main__` block
   * assign step by step before scraping.
   */
  class Globals {
    var currency: string
    var currencySymbol: string
    var removeCurrencyFromCsv: bool
    var rates: Rates

    /** The settings a `convert_price` call reads now. */
    function Current(): Settings
      reads this
    {
      Settings(currency, currencySymbol, removeCurrencyFromCsv, rates)
    }

    /** At import only `remove_currency_from_csv = True` is set; the others are set before any use. */
    constructor ()
      ensures removeCurrencyFromCsv && rates == map[]
    {
      currency := "";
      currencySymbol := "";
      removeCurrencyFromCsv := true;
      rates := map[];
    }

    /** `run_scraper(product_name, currency_code, remove_symbol, pages)`. */
    method RunScraper(copy: Copy, productName: string, currencyCode: string, removeSymbol: bool, pages: string,
                      supported: string, fetched: Option<Rates>, web: Web, assign: real -> Cluster) returns (outcome: Outcome)
      requires RunScraperCopy(copy)
      modifies this
      ensures Current() == AfterRunScraper(old(Current()), copy, productName, currencyCode, removeSymbol, fetched)
      ensures outcome == RunScraperSpec(copy, productName, currencyCode, removeSymbol, pages, supported, fetched, web, assign)
    {
      var searchField := SearchTerm(copy, productName);
      if searchField == [] {
        return Refused(EmptyNameMessage(copy));
      }
      currency := Lower(currencyCode);
      if !HasValue(SignSymbols, currency) {
        return Refused(InvalidCurrencyMessage(copy, supported));
      }
      currencySymbol := SymbolFor(SignSymbols, currency).value;
      removeCurrencyFromCsv := !removeSymbol;
      var pageCount := PagesField(pages);
      if fetched.None? {
        return Crashed(RateFetchFailed);
      }
      rates := fetched.value;
      outcome := Finish(copy, searchField, pageCount, web, assign);
    }

    /** `__main__` of products_webscrap.py, with the symbol answer checked against `accepted`. */
    method RunCli(accepted: seq<string>, productName: string, currencyCode: string, answer: string, pagesText: string,
                  supported: string, fetched: Option<Rates>, web: Web, assign: real -> Cluster) returns (outcome: Outcome)
      modifies this
      ensures Current() == AfterCli(accepted, old(Current()), productName, currencyCode, answer, pagesText, fetched)
      ensures old(removeCurrencyFromCsv) ==>
        outcome == CliSpec(accepted, productName, currencyCode, answer, pagesText, supported, fetched, web, assign)
    {
      var searchField := Lower(productName);
      if searchField == [] {
        return Refused(EmptySearchExit);
      }
      currency := Lower(currencyCode);
      if !HasValue(SignSymbols, currency) {
        return Refused(UnknownCurrencyExit + supported);
      }
      currencySymbol := SymbolFor(SignSymbols, currency).value;
      var choice := RemovalChoice(accepted, answer);
      if choice.None? {
        return Refused(AnswerExit);
      }
      if Lower(answer) in NoAnswers {
        removeCurrencyFromCsv := false;
      }
      var pagesToScrape := ParseInt(pagesText);
      if pagesToScrape.None? {
        return Refused(PagesExit);
      }
      if fetched.None? {
        return Crashed(RateFetchFailed);
      }
      rates := fetched.value;
      outcome := Finish(ProductsWebscrap, searchField, pagesToScrape.value, web, assign);
    }

    /** Scrape the Amazon and eBay searches with the settings now in the globals, then draw the chart. */
    method Finish(copy: Copy, searchField: string, pages: int, web: Web, assign: real -> Cluster) returns (outcome: Outcome)
      ensures outcome == ScrapeAndChart(copy, Current(), searchField, pages, web, assign)
    {
      var allScraped := ScrapeAll(copy, CopyPrice(copy, Current()), web, [AmazonSearch(searchField), EbaySearch(searchField)], pages);
      if allScraped.Failure? {
        return Crashed(ExtractorRaised(allScraped.error));
      }
      var chart := PieGraph(copy, allScraped.value, currencySymbol, assign);
      if ChartRaises(chart) {
        return Crashed(ChartValueError);
      }
      return Completed(allScraped.value, chart);
    }
  }

  // ---------------------------------------------------------------------
  // Properties of run_scraper and the script

  /**
   * `run_scraper` checks the name first and the currency second; only then
   * does it scrape, with `remove_currency_from_csv = not remove_symbol` and
   * the first symbol the table lists for the code.
   */
  lemma RunScraperOrder(copy: Copy, productName: string, currencyCode: string, removeSymbol: bool, pages: string,
                        supported: string, fetched: Option<Rates>, web: Web, assign: real -> Cluster)
    ensures var o := RunScraperSpec(copy, productName, currencyCode, removeSymbol, pages, supported, fetched, web, assign);
      (productName == [] ==> o == Refused(EmptyNameMessage(copy))) &&
      (productName != [] && !HasValue(SignSymbols, Lower(currencyCode)) ==> o == Refused(InvalidCurrencyMessage(copy, supported))) &&
      (productName != [] && HasValue(SignSymbols, Lower(currencyCode)) && fetched.Some? ==>
        var currency := Lower(currencyCode);
        o == ScrapeAndChart(copy, Settings(currency, SymbolFor(SignSymbols, currency).value, !removeSymbol, fetched.value),
                            SearchTerm(copy, productName), PagesField(pages), web, assign))
  {
  }

  /**
   * The globals leak from one run to the next: a run refused for its
   * currency still leaves that code in `currency`, and keeps the symbol,
   * removal flag and rates of the run before it.
   */
  lemma RefusedRunLeaksCurrency(before: Settings, copy: Copy, productName: string, currencyCode: string, removeSymbol: bool,
                                fetched: Option<Rates>)
    requires productName != [] && !HasValue(SignSymbols, Lower(currencyCode))
    ensures var after := AfterRunScraper(before, copy, productName, currencyCode, removeSymbol, fetched);
      after.currency == Lower(currencyCode) && after.symbol == before.symbol &&
      after.removeCurrency == before.removeCurrency && after.rates == before.rates
  {
  }

  /** After an accepted run the globals name a supported currency whose symbol converts back to it. */
  lemma AcceptedRunSettings(before: Settings, copy: Copy, productName: string, currencyCode: string, removeSymbol: bool,
                            fetched: Option<Rates>)
    requires productName != [] && HasValue(SignSymbols, Lower(currencyCode))
    ensures var after := AfterRunScraper(before, copy, productName, currencyCode, removeSymbol, fetched);
      after.currency == Lower(currencyCode) && after.removeCurrency == !removeSymbol &&
      Lookup(SignSymbols, after.symbol, "usd") == after.currency &&
      HasKey(SignSymbols, after.symbol) && SymbolFor(SignSymbols, after.currency) == Some(after.symbol)
  {
    SignKeysDistinct();
    SymbolLooksUpToCode(SignSymbols, Lower(currencyCode), "usd");
  }

  /** Choosing Brazilian reais writes "R$" in front of prices. */
  lemma BrlRun(before: Settings, copy: Copy, productName: string, removeSymbol: bool, fetched: Option<Rates>)
    requires productName != []
    ensures AfterRunScraper(before, copy, productName, "BRL", removeSymbol, fetched).symbol == "R$"
  {
    assert Lower("BRL") == "brl";
    BrlIsWrittenRDollar();
  }

  /** Asking for "0" pages scrapes nothing and draws nothing. */
  lemma ZeroPagesScrapeNothing(copy: Copy, productName: string, currencyCode: string, removeSymbol: bool,
                               supported: string, rates: Rates, web: Web, assign: real -> Cluster)
    requires productName != [] && HasValue(SignSymbols, Lower(currencyCode))
    ensures RunScraperSpec(copy, productName, currencyCode, removeSymbol, "0", supported, Some(rates), web, assign) == Completed([], NoData)
  {
    PagesFieldCases(0, "0");
    var term := SearchTerm(copy, productName);
    var currency := Lower(currencyCode);
    var settings := Settings(currency, SymbolFor(SignSymbols, currency).value, !removeSymbol, rates);
    var convert := CopyPrice(copy, settings);
    ScrapeTwoSites(copy, convert, web, AmazonSearch(term), EbaySearch(term), 0);
  }

  /** In the script, only the no-answers turn symbol removal off; every other accepted answer leaves it as it was. */
  lemma CliRemovalFlag(accepted: seq<string>, before: Settings, productName: string, currencyCode: string, answer: string, pagesText: string,
                       fetched: Option<Rates>)
    requires Lower(productName) != [] && HasValue(SignSymbols, Lower(currencyCode)) && Lower(answer) in accepted
    ensures AfterCli(accepted, before, productName, currencyCode, answer, pagesText, fetched).removeCurrency ==
      (before.removeCurrency && Lower(answer) !in NoAnswers)
  {
  }

  /**
   * The script as written exits on the prompt's own "Y", on "y" and on "nah":
   * with a name and a supported currency it ends with the answer message,
   * before it reads the page count or fetches any rate.
   */
  lemma CliAsWrittenExits(productName: string, currencyCode: string, answer: string, pagesText: string,
                          supported: string, fetched: Option<Rates>, web: Web, assign: real -> Cluster)
    requires Lower(productName) != [] && HasValue(SignSymbols, Lower(currencyCode))
    requires answer == "Y" || answer == "y" || answer == "nah"
    ensures CliSpec(AcceptedAsWritten, productName, currencyCode, answer, pagesText, supported, fetched, web, assign) == Refused(AnswerExit)
  {
    assert RemovalChoice(AcceptedAsWritten, answer).None? by {
      AnswerTupleAsWritten();
      assert Lower("y") == "y";
      assert "nah" + "y" == "nahy";
    }
  }

  /** The same answers go on with the intended tuple: "Y" and "y" keep removal on, "nah" turns it off. */
  lemma CliCorrectedGoesOn(before: Settings, productName: string, currencyCode: string, answer: string, pagesText: string,
                           fetched: Option<Rates>)
    requires Lower(productName) != [] && HasValue(SignSymbols, Lower(currencyCode))
    requires answer == "Y" || answer == "y" || answer == "nah"
    ensures AfterCli(AcceptedAnswers, before, productName, currencyCode, answer, pagesText, fetched).removeCurrency ==
      (before.removeCurrency && answer != "nah")
  {
    assert Lower("Y") == "y" && Lower("y") == "y" && Lower("nah") == "nah";
  }
}
