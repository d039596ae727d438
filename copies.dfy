/**
 * The scraper exists in five near-identical copies, one per front end: a
 * FastAPI service (app_fastapi.py), a command-line script
 * (products_webscrap.py), two Gradio apps (products_webscrap_gradio.py,
 * app_gradio.py) and a FastAPI form app (app.py). Where their price pipeline
 * differs, the model takes the copy as a parameter.
 */
module Copies {

  import opened Currency

  datatype Copy = AppFastapi | ProductsWebscrap | ProductsWebscrapGradio | AppGradio | App

  /** The symbol table the copy carries. */
  function Symbols(copy: Copy): (t: SymbolTable)
    ensures t == FastapiSymbols || t == SignSymbols
  {
    if copy == AppFastapi then FastapiSymbols else SignSymbols
  }

  /**
   * The three older copies share one shape: `convert_price` checks for "to"
   * before splitting on it, `scrape_website` sends a page to the browser when
   * its URL starts with "https://amazon" and hands the search URL to
   * `parse_html`, and `pie_graph` reads every comma-separated piece of a price.
   */
  predicate OlderShape(copy: Copy) {
    copy == AppFastapi || copy == ProductsWebscrap || copy == ProductsWebscrapGradio
  }
}
