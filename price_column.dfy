/**
 * The first half of `pie_graph`: the Price column, as the converter wrote it,
 * read back into numbers. The three older copies read every ", "-separated
 * piece of a price that holds a comma; app_gradio.py and app.py read only the
 * text before the first comma.
 */
module PriceColumn {

  import opened Wrappers
  import opened Text
  import opened Decimal
  import opened DecimalReadBack
  import opened Currency
  import opened Conversion
  import opened Copies
  import opened Listings

  /**
   * A list comprehension of a reader that may raise: the value of every item,
   * in order, or None at the first item the reader rejects.
   */
  function ReadEach<T>(read: T -> Option<real>, items: seq<T>): (r: Option<seq<real>>)
    ensures r.Some? ==> |r.value| == |items|
  {
    if items == [] then Some([])
    else
      match ReadEach(read, items[..|items| - 1])
      case None => None
      case Some(xs) =>
        match read(items[|items| - 1])
        case None => None
        case Some(x) => Some(xs + [x])
  }

  /**
   * The numbers the three older copies take from one price: every piece of
   * the symbol-free text split at ", " when the price holds a comma, the
   * whole symbol-free text otherwise. None where `float()` raises ValueError.
   */
  function RowPrices(price: string, sym: string): Option<seq<real>> {
    var bare := Replace(price, sym, "");
    if Contains(price, ",") then ReadEach(ParseFloat, SplitOn(bare, ", "))
    else
      match ParseFloat(bare)
      case None => None
      case Some(x) => Some([x])
  }

  /**
   * A loop that extends a list by what `read` makes of each item, in order,
   * or None at the first item the reader rejects.
   */
  function ReadConcat<T>(read: T -> Option<seq<real>>, items: seq<T>): Option<seq<real>> {
    if items == [] then Some([])
    else
      match ReadConcat(read, items[..|items| - 1])
      case None => None
      case Some(xs) =>
        match read(items[|items| - 1])
        case None => None
        case Some(ys) => Some(xs + ys)
  }

  function RowPricesOf(sym: string): Listing -> Option<seq<real>> {
    (row: Listing) => RowPrices(row.price, sym)
  }

  /** The `prices` list the older copies' `pie_graph` builds, row after row. */
  function OlderPrices(rows: seq<Listing>, sym: string): Option<seq<real>> {
    ReadConcat(RowPricesOf(sym), rows)
  }

  /** The number app_gradio.py and app.py take from one price: the symbol-free text up to the first comma. */
  function FirstPiecePrice(price: string, sym: string): Option<real> {
    ParseFloat(SplitOn(Replace(price, sym, ""), ",")[0])
  }

  function FirstPieceOf(sym: string): Listing -> Option<real> {
    (row: Listing) => FirstPiecePrice(row.price, sym)
  }

  /** The comprehension of app_gradio.py and app.py: one number per row. */
  function NewerPrices(rows: seq<Listing>, sym: string): (r: Option<seq<real>>)
    ensures r.Some? ==> |r.value| == |rows|
  {
    ReadEach(FirstPieceOf(sym), rows)
  }

  /** The prices `pie_graph` clusters, in the copy's own reading. */
  function PiePrices(copy: Copy, rows: seq<Listing>, sym: string): Option<seq<real>> {
    if OlderShape(copy) then OlderPrices(rows, sym) else NewerPrices(rows, sym)
  }

  /** The inner loop of the older copies: `read` (there `float()`) of each piece, in order. */
  method ReadPieces(read: string -> Option<real>, pieces: seq<string>) returns (r: Option<seq<real>>)
    ensures r == ReadEach(read, pieces)
  {
    var prices: seq<real> := [];
    var j := 0;
    while j < |pieces|
      invariant 0 <= j <= |pieces|
      invariant ReadEach(read, pieces[..j]) == Some(prices)
    {
      assert pieces[..j + 1][..j] == pieces[..j];
      var value := read(pieces[j]);
      if value.None? {
        ReadEachStops(read, pieces, j + 1);
        return None;
      }
      prices := prices + [value.value];
      j := j + 1;
    }
    assert pieces[..j] == pieces;
    return Some(prices);
  }

  /** The numbers of one row, as the older copies' loop body reads them. */
  method ReadRow(price: string, sym: string) returns (r: Option<seq<real>>)
    ensures r == RowPrices(price, sym)
  {
    var bare := Replace(price, sym, "");
    if Contains(price, ",") {
      r := ReadPieces(ParseFloat, SplitOn(bare, ", "));
    } else {
      var value := ParseFloat(bare);
      if value.None? {
        return None;
      }
      r := Some([value.value]);
    }
  }

  /** The price loop of `pie_graph` in app_fastapi.py, products_webscrap.py and products_webscrap_gradio.py. */
  method ExtractPrices(rows: seq<Listing>, sym: string) returns (r: Option<seq<real>>)
    ensures r == OlderPrices(rows, sym)
  {
    var prices: seq<real> := [];
    var i := 0;
    while i < |rows|
      invariant 0 <= i <= |rows|
      invariant OlderPrices(rows[..i], sym) == Some(prices)
    {
      assert rows[..i + 1][..i] == rows[..i];
      var values := ReadRow(rows[i].price, sym);
      if values.None? {
        ReadConcatStops(RowPricesOf(sym), rows, i + 1);
        return None;
      }
      prices := prices + values.value;
      i := i + 1;
    }
    assert rows[..i] == rows;
    return Some(prices);
  }

  lemma {:induction false} ReadEachStops<T>(read: T -> Option<real>, items: seq<T>, n: nat)
    requires n <= |items| && ReadEach(read, items[..n]).None?
    ensures ReadEach(read, items).None?
    decreases |items| - n
  {
    if n < |items| {
      assert items[..n + 1][..n] == items[..n];
      ReadEachStops(read, items, n + 1);
    } else {
      assert items[..n] == items;
    }
  }

  lemma {:induction false} ReadConcatStops<T>(read: T -> Option<seq<real>>, items: seq<T>, n: nat)
    requires n <= |items| && ReadConcat(read, items[..n]).None?
    ensures ReadConcat(read, items).None?
    decreases |items| - n
  {
    if n < |items| {
      assert items[..n + 1][..n] == items[..n];
      ReadConcatStops(read, items, n + 1);
    } else {
      assert items[..n] == items;
    }
  }

  /**
   * The items are read exactly when the reader accepts every one of them,
   * and then the result holds their values in item order.
   */
  lemma {:induction false} ReadEachPointwise<T>(read: T -> Option<real>, items: seq<T>, xs: seq<real>)
    ensures ReadEach(read, items) == Some(xs) <==>
      |xs| == |items| && forall i :: 0 <= i < |items| ==> read(items[i]) == Some(xs[i])
  {
    if items != [] {
      var n := |items| - 1;
      var r := ReadEach(read, items[..n]);
      if |xs| == |items| {
        ReadEachPointwise(read, items[..n], xs[..n]);
        assert xs[..n] + [xs[n]] == xs;
      } else if r.Some? {
        ReadEachPointwise(read, items[..n], r.value);
      }
    }
  }

  // ---------------------------------------------------------------------
  // What the converter writes, the chart reads back

  /** The characters of an amount in `:.2f` and of the space after a symbol. */
  predicate AmountChar(c: char) {
    IsDigit(c) || c == '.' || c == '-' || c == ' '
  }

  /**
   * A symbol that `replace` cannot find inside an amount: it holds a
   * character no amount text has, and no comma. Every symbol of both
   * tables is one.
   */
  predicate DistinctSymbol(sym: string) {
    (exists i :: 0 <= i < |sym| && !AmountChar(sym[i])) && ',' !in sym
  }

  /** The number `pie_graph` should see for a converted price: the amount to the cent, or 0 for "0.00". */
  function ReadBack(c: Conversion): real {
    if c.Converted? then Rounded(c.amount) else 0.0
  }

  lemma {:induction false} AbsentByForeignChar(s: string, p: string, c: char)
    requires c in p && c !in s
    ensures !Contains(s, p)
    decreases |s|
  {
    if s != [] {
      assert forall x :: x in s[1..] ==> x in s;
      AbsentByForeignChar(s[1..], p, c);
    }
  }

  lemma Fmt2Chars(x: real)
    ensures forall c :: c in Fmt2(x) ==> AmountChar(c) && c != ' '
  {
    var f := FixedPoint(Cents(Magnitude(x)));
    assert forall c :: c in f ==> IsDigit(c) || c == '.' by {
      forall c | c in f ensures IsDigit(c) || c == '.' {
        var i :| 0 <= i < |f| && f[i] == c;
      }
    }
  }

  /** "0.00" is the text of the amount 0. */
  lemma ZeroText()
    ensures Fmt2(0.0) == "0.00" && Rounded(0.0) == 0.0
  {
    assert Cents(0.0) == 0;
    assert NatToString(0) == "0";
    assert TwoDigits(0) == "00";
  }

  /** `str.strip()` drops one leading space in front of a word. */
  lemma StripLeadingSpace(t: string)
    requires t != [] && NoSpace(t)
    ensures Strip(" " + t) == t
  {
    assert (" " + t)[1..] == t;
    assert TrimStart(t) == t;
    assert TrimStart(" " + t) == t;
    assert TrimEnd(t) == t;
  }

  /** Removing a symbol found nowhere but at the front of `sym + " " + f` leaves `" " + f`. */
  lemma ReplaceLeadingSymbol(text: string, sym: string, f: string, c: char)
    requires text == sym + " " + f && c in sym && c != ' ' && c !in f
    ensures Replace(text, sym, "") == " " + f
  {
    assert text[..|sym|] == sym;
    assert text[|sym|..] == " " + f;
    AbsentByForeignChar(" " + f, sym, c);
    ReplaceAbsent(" " + f, sym);
  }

  /** The symbol-free text of a rendered price: the amount, with a leading space when a symbol was written. */
  lemma RenderedBare(text: string, sym: string, f: string)
    requires text == f || text == sym + " " + f
    requires DistinctSymbol(sym) && (forall c :: c in f ==> AmountChar(c) && c != ' ')
    ensures Replace(text, sym, "") == f || Replace(text, sym, "") == " " + f
    ensures ',' !in text
  {
    var k :| 0 <= k < |sym| && !AmountChar(sym[k]);
    if text == f {
      AbsentByForeignChar(f, sym, sym[k]);
      ReplaceAbsent(f, sym);
    } else {
      ReplaceLeadingSymbol(text, sym, f, sym[k]);
    }
  }

  /** `float()` reads an amount text the same with or without a leading space. */
  lemma ReadsWithSpace(bare: string, f: string, v: real)
    requires bare == f || bare == " " + f
    requires f != [] && (forall c :: c in f ==> AmountChar(c) && c != ' ')
    requires ParseFloat(f) == Some(v)
    ensures ParseFloat(bare) == Some(v)
  {
    assert NoSpace(f) by {
      forall i | 0 <= i < |f| ensures !IsSpace(f[i]) {
        assert f[i] in f;
      }
    }
    if bare != f {
      StripLeadingSpace(f);
    }
  }

  /** The amount text the converter writes for `c`. */
  function AmountText(c: Conversion): string {
    if c.Converted? then Fmt2(c.amount) else Fmt2(0.0)
  }

  /**
   * The price text `convert_price` writes for `c` holds no comma, and once
   * its symbol is removed `float()` reads it back as the amount rounded to
   * the cent (0 for the fallback "0.00").
   */
  lemma RenderedReadsBack(settings: Settings, c: Conversion)
    requires DistinctSymbol(settings.symbol)
    ensures ',' !in Render(settings, c)
    ensures ParseFloat(Replace(Render(settings, c), settings.symbol, "")) == Some(ReadBack(c))
  {
    var f := AmountText(c);
    ZeroText();
    Fmt2Chars(if c.Converted? then c.amount else 0.0);
    FormatReadsBack(if c.Converted? then c.amount else 0.0);
    var text := Render(settings, c);
    assert text == f || text == settings.symbol + " " + f;
    RenderedBare(text, settings.symbol, f);
    ReadsWithSpace(Replace(text, settings.symbol, ""), f, ReadBack(c));
  }

  /** Both readings of a comma-free price agree: the whole symbol-free text. */
  lemma CommaFreeRow(price: string, sym: string, v: real)
    requires ',' !in price && ParseFloat(Replace(price, sym, "")) == Some(v)
    ensures RowPrices(price, sym) == Some([v])
    ensures FirstPiecePrice(price, sym) == Some(v)
  {
    var bare := Replace(price, sym, "");
    ReplaceKeepsOut(price, sym, ',');
    AbsentByForeignChar(price, ",", ',');
    AbsentByForeignChar(bare, ",", ',');
    BeforeWhole(bare, ",");
  }

  /** Removing text adds no character. */
  lemma {:induction false} ReplaceKeepsOut(s: string, pat: string, c: char)
    requires c !in s
    ensures c !in Replace(s, pat, "")
    decreases |s|
  {
    if pat != [] && s != [] {
      if StartsWith(s, pat) {
        assert forall x :: x in s[|pat|..] ==> x in s;
        ReplaceKeepsOut(s[|pat|..], pat, c);
      } else {
        assert forall x :: x in s[1..] ==> x in s;
        ReplaceKeepsOut(s[1..], pat, c);
      }
    }
  }

  /** What one copy's converter makes of a scraped price text. */
  function CopyConversion(copy: Copy, settings: Settings, raw: string): Conversion {
    Convert(settings.rates, settings.currency, Symbols(copy), OlderShape(copy), raw)
  }

  /** One converted price, in either reading. */
  lemma RowReadsBack(copy: Copy, settings: Settings, raw: string, price: string)
    requires DistinctSymbol(settings.symbol) && price == CopyPrice(copy, settings)(raw)
    ensures var v := ReadBack(CopyConversion(copy, settings, raw));
      RowPrices(price, settings.symbol) == Some([v]) && FirstPiecePrice(price, settings.symbol) == Some(v)
  {
    var c := CopyConversion(copy, settings, raw);
    assert price == Render(settings, c);
    RenderedReadsBack(settings, c);
    CommaFreeRow(price, settings.symbol, ReadBack(c));
  }

  /** Items that each give one number give those numbers in item order. */
  lemma {:induction false} ReadConcatOfSingles<T>(read: T -> Option<seq<real>>, items: seq<T>, vs: seq<real>)
    requires |vs| == |items| && forall i :: 0 <= i < |items| ==> read(items[i]) == Some([vs[i]])
    ensures ReadConcat(read, items) == Some(vs)
  {
    if items != [] {
      var n := |items| - 1;
      ReadConcatOfSingles(read, items[..n], vs[..n]);
      assert vs[..n] + [vs[n]] == vs;
    }
  }

  /**
   * Every copy reads the Price column its own converter wrote back as the
   * converted amounts to the cent, one number per row and in row order, as
   * long as the symbol is one `replace` cannot find inside an amount.
   */
  lemma ConvertedRowsReadBack(copy: Copy, settings: Settings, raws: seq<string>, rows: seq<Listing>)
    requires DistinctSymbol(settings.symbol) && |raws| == |rows|
    requires forall i :: 0 <= i < |rows| ==> rows[i].price == CopyPrice(copy, settings)(raws[i])
    ensures PiePrices(copy, rows, settings.symbol) ==
      Some(seq(|raws|, i requires 0 <= i < |raws| => ReadBack(CopyConversion(copy, settings, raws[i]))))
  {
    var sym := settings.symbol;
    var vs := seq(|raws|, i requires 0 <= i < |raws| => ReadBack(CopyConversion(copy, settings, raws[i])));
    forall i | 0 <= i < |rows|
      ensures RowPricesOf(sym)(rows[i]) == Some([vs[i]]) && FirstPieceOf(sym)(rows[i]) == Some(vs[i])
    {
      RowReadsBack(copy, settings, raws[i], rows[i].price);
    }
    if OlderShape(copy) {
      ReadConcatOfSingles(RowPricesOf(sym), rows, vs);
    } else {
      ReadEachPointwise(FirstPieceOf(sym), rows, vs);
    }
  }

  /** Every symbol of both tables is one `replace` cannot find inside an amount. */
  lemma TableSymbolsDistinct(copy: Copy, i: nat)
    requires i < |Symbols(copy)|
    ensures DistinctSymbol(Symbols(copy)[i].0)
  {
    var key := Symbols(copy)[i].0;
    assert key != [] && !AmountChar(key[0]);
  }
}
