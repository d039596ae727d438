/**
 * `convert_price`: the scraped price text of one listing, normalised into the
 * currency the user chose. Every copy does the same steps: tidy the
 * whitespace, find the currency symbol in the first word, keep the text before
 * "to" (a price range keeps its lower end), collect its digits and dots, parse
 * them, divide by the exchange rate and print two decimals. Any exception on
 * the way makes the function return "0.00".
 */
module Conversion {

  import opened Wrappers
  import opened Text
  import opened Decimal
  import opened Currency

  /** The exchange-rate document: `rates[target][source]` units of target per unit of source. */
  type Rates = map<string, map<string, real>>

  /**
   * What a call reads besides the price text: the chosen code, its symbol,
   * whether the symbol is left off, and the rates fetched for the code. In
   * app_fastapi.py these are arguments; in the other copies module globals.
   */
  datatype Settings = Settings(currency: string, symbol: string, removeCurrency: bool, rates: Rates)

  /** The outcome of a conversion: an amount, or the failure that prints as "0.00". */
  datatype Conversion = Converted(amount: real) | Fallback

  const Nbsp: char := '\U{A0}'

  /** `s.replace('\xa0', ' ')`: each no-break space becomes a plain space. */
  function SpaceForNbsp(s: string): (r: string)
    ensures |r| == |s|
    ensures forall i :: 0 <= i < |s| ==> r[i] == (if s[i] == Nbsp then ' ' else s[i])
  {
    seq(|s|, i requires 0 <= i < |s| => if s[i] == Nbsp then ' ' else s[i])
  }

  /** The text `convert_price` works on: no-break spaces made plain, then stripped. */
  function Clean(text: string): (r: string)
    ensures r == [] <==> AllSpace(text)
    ensures r != [] ==> !IsSpace(r[0]) && !IsSpace(r[|r| - 1])
  {
    var t := SpaceForNbsp(text);
    assert AllSpace(t) <==> AllSpace(text) by {
      assert forall i :: 0 <= i < |t| ==> (IsSpace(t[i]) <==> IsSpace(text[i]));
    }
    Strip(t)
  }

  /**
   * The cleaned text is the no-break-space-replaced text without its
   * surrounding whitespace: a piece of it with only whitespace on either side,
   * starting and ending with a non-space character.
   */
  lemma CleanIsStripped(text: string)
    ensures var t := SpaceForNbsp(text);
      Surrounded(t, |t| - |TrimStart(t)|, Clean(text)) &&
      (Clean(text) != [] ==> !IsSpace(Clean(text)[0]) && !IsSpace(Clean(text)[|Clean(text)| - 1]))
  {
    StripIsSurrounded(SpaceForNbsp(text));
  }

  predicate NumericChar(c: char) {
    IsDigit(c) || c == '.'
  }

  /** `''.join(c for c in s if c.isdigit() or c == '.')`. */
  function NumericChars(s: string): (r: string)
    ensures |r| <= |s|
    ensures DigitsAndDots(r)
    ensures forall c :: c in r <==> c in s && NumericChar(c)
  {
    if s == [] then []
    else (if NumericChar(s[0]) then [s[0]] else []) + NumericChars(s[1..])
  }

  /** `''.join(c for c in w if not c.isdigit() and c not in ('.', ','))`. */
  function SymbolChars(w: string): (r: string)
    ensures |r| <= |w|
    ensures forall c :: c in r <==> c in w && !NumericChar(c) && c != ','
  {
    if w == [] then []
    else (if NumericChar(w[0]) || w[0] == ',' then [] else [w[0]]) + SymbolChars(w[1..])
  }

  /**
   * The symbol the price is written in: what is left of its first word once
   * digits, dots and commas are gone, or "$" when nothing is left. None where
   * the text has no word and `split()[0]` raises IndexError.
   */
  function SourceSymbol(cleaned: string): (r: Option<string>)
    ensures r.None? <==> AllSpace(cleaned)
    ensures r.Some? ==> r.value != []
  {
    match FirstWord(cleaned)
    case None => None
    case Some(w) =>
      var sym := Strip(SymbolChars(w));
      Some(if sym == [] then "$" else sym)
  }

  /**
   * The part of the text whose digits count. The three older copies split on
   * "to" only once `lower()` shows a "to"; app_gradio.py and app.py split
   * unconditionally.
   */
  function PricePart(guarded: bool, cleaned: string): (r: string)
    ensures |r| <= |cleaned|
    ensures r == cleaned[..|r|]
  {
    if guarded then
      if Contains(Lower(cleaned), "to") then Before(cleaned, "to") else cleaned
    else Before(cleaned, "to")
  }

  /** `float(numeric_part) if numeric_part else 0.0`; None where `float()` raises. */
  function Amount(numeric: string): Option<real> {
    if numeric == [] then Some(0.0) else ParseFloat(numeric)
  }

  /** `rates[currency][source]`, when the rate document has it; None where the lookup raises KeyError. */
  function Rate(rates: Rates, currency: string, source: string): Option<real> {
    if currency in rates && source in rates[currency] then Some(rates[currency][source]) else None
  }

  /** The number `convert_price` computes, or Fallback where one of its steps raises. */
  function Convert(rates: Rates, currency: string, table: SymbolTable, guarded: bool, text: string): Conversion {
    var cleaned := Clean(text);
    match SourceSymbol(cleaned)
    case None => Fallback
    case Some(sym) =>
      var source := Lookup(table, sym, "usd");
      match Amount(NumericChars(PricePart(guarded, cleaned)))
      case None => Fallback
      case Some(amount) =>
        match Rate(rates, currency, source)
        case None => Fallback
        case Some(rate) => if rate == 0.0 then Fallback else Converted(amount / rate)
  }

  /** The text written into the Price column. */
  function Render(settings: Settings, c: Conversion): (r: string)
    ensures c.Fallback? ==> r == "0.00"
    ensures c.Converted? && settings.removeCurrency ==> r == Fmt2(c.amount)
    ensures c.Converted? && !settings.removeCurrency ==> r == settings.symbol + " " + Fmt2(c.amount)
  {
    match c
    case Fallback => "0.00"
    case Converted(x) => if settings.removeCurrency then Fmt2(x) else settings.symbol + " " + Fmt2(x)
  }

  /** `convert_price(price_data, ...)`. */
  function ConvertPrice(settings: Settings, table: SymbolTable, guarded: bool, text: string): string {
    Render(settings, Convert(settings.rates, settings.currency, table, guarded, text))
  }

  // ---------------------------------------------------------------------
  // Properties

  /** Collecting digits and dots goes left to right: the pieces of a text give the pieces of the result. */
  lemma {:induction false} NumericCharsAppend(a: string, b: string)
    ensures NumericChars(a + b) == NumericChars(a) + NumericChars(b)
    decreases |a|
  {
    if a != [] {
      var head := if NumericChar(a[0]) then [a[0]] else [];
      assert (a + b)[0] == a[0];
      assert (a + b)[1..] == a[1..] + b;
      NumericCharsAppend(a[1..], b);
      assert NumericChars(a) == head + NumericChars(a[1..]);
      assert NumericChars(a + b) == head + (NumericChars(a[1..]) + NumericChars(b));
    } else {
      assert a + b == b;
    }
  }

  /** Dropping digits, dots and commas goes left to right as well: the rest keeps its order. */
  lemma {:induction false} SymbolCharsAppend(a: string, b: string)
    ensures SymbolChars(a + b) == SymbolChars(a) + SymbolChars(b)
    decreases |a|
  {
    if a != [] {
      var head := if NumericChar(a[0]) || a[0] == ',' then [] else [a[0]];
      assert (a + b)[0] == a[0];
      assert (a + b)[1..] == a[1..] + b;
      SymbolCharsAppend(a[1..], b);
      assert SymbolChars(a) == head + SymbolChars(a[1..]);
      assert SymbolChars(a + b) == head + (SymbolChars(a[1..]) + SymbolChars(b));
    } else {
      assert a + b == b;
    }
  }

  /** A word without digits, dots and commas is kept whole. */
  lemma {:induction false} SymbolCharsKeepsSymbols(w: string)
    requires forall i :: 0 <= i < |w| ==> !NumericChar(w[i]) && w[i] != ','
    ensures SymbolChars(w) == w
    decreases |w|
  {
    if w != [] {
      SymbolCharsKeepsSymbols(w[1..]);
    }
  }

  /** Text that is all digits and dots is kept whole. */
  lemma {:induction false} NumericCharsKeepsNumbers(s: string)
    requires DigitsAndDots(s)
    ensures NumericChars(s) == s
    decreases |s|
  {
    if s != [] {
      NumericCharsKeepsNumbers(s[1..]);
    }
  }

  /** An "o" cannot follow a "t" in the lowered text unless it does in the text. */
  lemma LowerKeepsTo(s: string)
    requires Contains(s, "to")
    ensures Contains(Lower(s), "to")
  {
    var i := ContainsWitness(s, "to");
    var l := Lower(s);
    assert s[i..][..2] == "to";
    assert s[i] == 't' && s[i + 1] == 'o';
    assert l[i..][..2] == [l[i], l[i + 1]];
    ContainsAt(l, "to", i);
  }

  /**
   * The guard of the older copies changes nothing: when the lowered text has
   * no "to", the text has none either and splitting on "to" keeps it whole.
   * app_gradio.py and app.py, which split unconditionally, compute the same
   * price part for every text.
   */
  lemma GuardMakesNoDifference(cleaned: string)
    ensures PricePart(true, cleaned) == PricePart(false, cleaned)
  {
    if !Contains(Lower(cleaned), "to") {
      if Contains(cleaned, "to") {
        LowerKeepsTo(cleaned);
      }
      BeforeWhole(cleaned, "to");
    }
  }

  /** Hence the two variants of `convert_price` agree on every input. */
  lemma ConvertVariantsAgree(rates: Rates, currency: string, table: SymbolTable, text: string)
    ensures Convert(rates, currency, table, true, text) == Convert(rates, currency, table, false, text)
  {
    GuardMakesNoDifference(Clean(text));
  }

  /**
   * Only the text before the first lower-case "to" contributes digits: the
   * price part never contains "to", and it is the whole text exactly when the
   * text has no "to". An upper-case "TO" passes the lowered check of the
   * older copies but does not split.
   */
  lemma PricePartStopsAtTo(guarded: bool, cleaned: string)
    ensures !Contains(PricePart(guarded, cleaned), "to")
    ensures PricePart(guarded, cleaned) == cleaned <==> !Contains(cleaned, "to")
    ensures |PricePart(guarded, cleaned)| < |cleaned| ==>
      StartsWith(cleaned[|PricePart(guarded, cleaned)|..], "to")
  {
    GuardMakesNoDifference(cleaned);
    BeforeWhole(cleaned, "to");
  }

  /** The amount of a numeric part: zero when it is empty, and a failure exactly when it has two dots or no digit. */
  lemma AmountFailure(numeric: string)
    requires DigitsAndDots(numeric)
    ensures numeric == [] ==> Amount(numeric) == Some(0.0)
    ensures Amount(numeric).None? <==> numeric != [] && (TwoDots(numeric) || !HasDigit(numeric))
  {
    if numeric != [] {
      ParseFloatDigitsAndDots(numeric);
      ParseUnsignedFailure(numeric);
    }
  }

  /** The amount read from the price text, or None where `float()` raises. */
  function TextAmount(guarded: bool, cleaned: string): Option<real> {
    Amount(NumericChars(PricePart(guarded, cleaned)))
  }

  /**
   * `convert_price` never raises: it prints "0.00" exactly when the text has
   * no word, its digits and dots do not form a number, the rate document has
   * no rate from the source currency, or that rate is zero.
   */
  lemma FallbackCases(rates: Rates, currency: string, table: SymbolTable, guarded: bool, text: string)
    ensures var cleaned := Clean(text);
      Convert(rates, currency, table, guarded, text).Fallback? <==>
        || AllSpace(text)
        || TextAmount(guarded, cleaned).None?
        || Rate(rates, currency, Lookup(table, SourceSymbol(cleaned).value, "usd")).None?
        || Rate(rates, currency, Lookup(table, SourceSymbol(cleaned).value, "usd")) == Some(0.0)
  {
  }

  /** A blank price, or one that is only no-break spaces, prints "0.00". */
  lemma BlankPriceIsZero(settings: Settings, table: SymbolTable, guarded: bool, text: string)
    requires AllSpace(text)
    ensures ConvertPrice(settings, table, guarded, text) == "0.00"
  {
  }

  /** Text with no digit, dot, comma or whitespace: what a currency symbol is made of. */
  predicate SymbolText(t: string) {
    forall i :: 0 <= i < |t| ==> !NumericChar(t[i]) && t[i] != ',' && !IsSpace(t[i])
  }

  /** The symbol a price is written in has no digit, dot, comma or whitespace. */
  lemma SourceSymbolChars(cleaned: string)
    requires !AllSpace(cleaned)
    ensures SymbolText(SourceSymbol(cleaned).value)
  {
    var w := FirstWord(cleaned).value;
    SourceSymbolOfWord(cleaned);
    if SymbolChars(w) == [] {
      DollarIsSymbolText();
    } else {
      SymbolCharsOnly(w);
    }
  }

  lemma DollarIsSymbolText()
    ensures SymbolText("$")
  {
    assert "$"[0] == '$';
  }

  /** What is left of a word without whitespace is symbol characters only. */
  lemma SymbolCharsOnly(w: string)
    requires NoSpace(w)
    ensures SymbolText(SymbolChars(w))
  {
    var chars := SymbolChars(w);
    forall i | 0 <= i < |chars| ensures !NumericChar(chars[i]) && chars[i] != ',' && !IsSpace(chars[i]) {
      assert chars[i] in chars;
    }
  }

  /**
   * The symbol is "$", and the price is read as dollars, exactly when the
   * first word is only digits, dots and commas, or is "$" once they are gone.
   */
  lemma SourceSymbolDefault(cleaned: string)
    requires !AllSpace(cleaned)
    ensures var w := FirstWord(cleaned).value;
      SourceSymbol(cleaned) == Some("$") <==>
        (forall i :: 0 <= i < |w| ==> NumericChar(w[i]) || w[i] == ',') || SymbolChars(w) == "$"
  {
    SourceSymbolOfWord(cleaned);
    SymbolCharsEmpty(FirstWord(cleaned).value);
  }

  /** The symbol is what is left of the first word, which has no whitespace to strip, or "$". */
  lemma SourceSymbolOfWord(cleaned: string)
    requires !AllSpace(cleaned)
    ensures var chars := SymbolChars(FirstWord(cleaned).value);
      NoSpace(chars) && SourceSymbol(cleaned) == Some(if chars == [] then "$" else chars)
  {
    var w := FirstWord(cleaned).value;
    var chars := SymbolChars(w);
    assert NoSpace(chars) by {
      forall i | 0 <= i < |chars| ensures !IsSpace(chars[i]) {
        assert chars[i] in w;
      }
    }
    assert Strip(chars) == chars;
  }

  /** Nothing is left of a word exactly when it is all digits, dots and commas. */
  lemma SymbolCharsEmpty(w: string)
    ensures SymbolChars(w) == [] <==> forall i :: 0 <= i < |w| ==> NumericChar(w[i]) || w[i] == ','
  {
    var chars := SymbolChars(w);
    if forall i :: 0 <= i < |w| ==> NumericChar(w[i]) || w[i] == ',' {
      if chars != [] {
        assert chars[0] in w;
      }
    } else {
      var i :| 0 <= i < |w| && !NumericChar(w[i]) && w[i] != ',';
      assert w[i] in chars;
    }
  }

  /** The code `convert_price` converts from. */
  function SourceCode(table: SymbolTable, cleaned: string): string
    requires !AllSpace(cleaned)
  {
    Lookup(table, SourceSymbol(cleaned).value, "usd")
  }

  /** A price whose first word is "R$" once digits are dropped, such as "R$ 12,50" or "R$12,50", is in Brazilian reais. */
  lemma RealsPrice(cleaned: string)
    requires !AllSpace(cleaned) && SymbolChars(FirstWord(cleaned).value) == "R$"
    ensures SourceCode(SignSymbols, cleaned) == "brl"
  {
    SourceSymbolOfWord(cleaned);
    SignKeysDistinct();
    LookupEntry(SignSymbols, 8, "usd");
  }

  /** A price whose first word is a bare number, such as "12.99" or "1,299.00", is in dollars. */
  lemma BarePrice(cleaned: string)
    requires !AllSpace(cleaned)
    requires var w := FirstWord(cleaned).value; forall i :: 0 <= i < |w| ==> NumericChar(w[i]) || w[i] == ','
    ensures SourceCode(SignSymbols, cleaned) == "usd"
  {
    SourceSymbolOfWord(cleaned);
    SymbolCharsEmpty(FirstWord(cleaned).value);
    assert SignSymbols[0] == ("$", "usd");
  }

  /**
   * A symbol of three or more characters, such as the "EUR" of "EUR 5", is
   * no key of the table, so the price is read as dollars.
   */
  lemma UnknownSymbolPrice(cleaned: string)
    requires !AllSpace(cleaned) && |SymbolChars(FirstWord(cleaned).value)| >= 3
    ensures SourceCode(SignSymbols, cleaned) == "usd"
  {
    var sym := SourceSymbol(cleaned).value;
    assert |sym| >= 3 by {
      SourceSymbolOfWord(cleaned);
    }
    assert !HasKey(SignSymbols, sym) by {
      SignKeysShort();
    }
  }

  /**
   * Keeping the symbol only prefixes it: when a conversion succeeds, the
   * text with the symbol is the symbol, a space, and the text without it.
   * The fallback is the bare "0.00" either way.
   */
  lemma SymbolOnlyPrefixes(settings: Settings, table: SymbolTable, guarded: bool, text: string)
    ensures var c := Convert(settings.rates, settings.currency, table, guarded, text);
      var kept := settings.(removeCurrency := false);
      var removed := settings.(removeCurrency := true);
      (c.Converted? ==>
        (ConvertPrice(kept, table, guarded, text) == settings.symbol + " " + ConvertPrice(removed, table, guarded, text))) &&
      (c.Fallback? ==> ConvertPrice(kept, table, guarded, text) == "0.00" && ConvertPrice(removed, table, guarded, text) == "0.00")
  {
  }

  /** A digit-and-dot text reads as a non-negative amount, when it reads at all. */
  lemma AmountNonNegative(numeric: string)
    requires DigitsAndDots(numeric)
    ensures Amount(numeric).Some? ==> Amount(numeric).value >= 0.0
  {
    if numeric != [] {
      ParseFloatDigitsAndDots(numeric);
    }
  }

  /** With positive rates the converted amount is never negative, so its text has no minus sign. */
  lemma ConvertedAmountNonNegative(rates: Rates, currency: string, table: SymbolTable, guarded: bool, text: string)
    requires currency in rates ==> forall source :: source in rates[currency] ==> rates[currency][source] > 0.0
    ensures Convert(rates, currency, table, guarded, text).Converted? ==> Convert(rates, currency, table, guarded, text).amount >= 0.0
  {
    var c := Convert(rates, currency, table, guarded, text);
    if c.Converted? {
      var cleaned := Clean(text);
      var numeric := NumericChars(PricePart(guarded, cleaned));
      AmountNonNegative(numeric);
      var source := Lookup(table, SourceSymbol(cleaned).value, "usd");
      QuotientNonNegative(Amount(numeric).value, rates[currency][source], c.amount);
    }
  }

  lemma QuotientNonNegative(a: real, b: real, q: real)
    requires a >= 0.0 && b > 0.0 && q == a / b
    ensures q >= 0.0
  {
  }
}
