/**
 * The currency table every copy of the scraper carries: an insertion-ordered
 * dictionary from a price symbol to a lower-case currency code. It is read in
 * both directions: `symbols_hash_map.get(symbol, 'usd')` finds the code a
 * scraped price is written in, and the first key whose value is the chosen
 * code gives the symbol written in front of converted prices.
 */
module Currency {

  import opened Wrappers
  import opened Text

  /** A Python dict literal, as its items in insertion order. */
  type SymbolTable = seq<(string, string)>

  /**
   * The table as app_fastapi.py spells it. Its non-ASCII keys are the UTF-8
   * bytes of the currency signs read back as single-byte characters, so the
   * euro sign is the three characters U+00E2 U+201A U+00AC; a price written
   * with a real euro sign therefore is not found there.
   */
  const FastapiSymbols: SymbolTable := [
    ("$", "usd"),
    ("\U{E2}\U{201A}\U{AC}", "eur"),
    ("\U{C2}\U{141}", "gbp"),
    ("\U{C2}\U{104}", "jpy"),
    ("\U{E2}\U{201A}\U{A9}", "krw"),
    ("\U{E2}\U{201A}\U{105}", "inr"),
    ("\U{E2}\U{201A}\U{2DD}", "rub"),
    ("\U{E2}\U{201A}\U{B1}", "php"),
    ("R$", "brl"),
    ("\U{E2}\U{201A}\U{17C}", "btc")
  ]

  /** The table of the four other copies, with the currency signs themselves. */
  const SignSymbols: SymbolTable := [
    ("$", "usd"),
    ("\U{20AC}", "eur"),
    ("\U{A3}", "gbp"),
    ("\U{A5}", "jpy"),
    ("\U{20A9}", "krw"),
    ("\U{20B9}", "inr"),
    ("\U{20BD}", "rub"),
    ("\U{20B1}", "php"),
    ("R$", "brl"),
    ("\U{20BF}", "btc")
  ]

  predicate HasKey(table: SymbolTable, key: string) {
    exists i :: 0 <= i < |table| && table[i].0 == key
  }

  /** `code in table.values()`. */
  predicate HasValue(table: SymbolTable, code: string) {
    exists i :: 0 <= i < |table| && table[i].1 == code
  }

  predicate KeysDistinct(table: SymbolTable) {
    forall i, j :: 0 <= i < j < |table| ==> table[i].0 != table[j].0
  }

  predicate ValuesDistinct(table: SymbolTable) {
    forall i, j :: 0 <= i < j < |table| ==> table[i].1 != table[j].1
  }

  /** Where the first entry with `key` is, or `|table|` when there is none. */
  function KeyIndex(table: SymbolTable, key: string): (k: nat)
    ensures k <= |table|
    ensures k < |table| ==> table[k].0 == key
    ensures forall j :: 0 <= j < k ==> table[j].0 != key
  {
    if table == [] || table[0].0 == key then 0 else 1 + KeyIndex(table[1..], key)
  }

  /** Where the first entry with value `code` is, or `|table|` when there is none. */
  function ValueIndex(table: SymbolTable, code: string): (k: nat)
    ensures k <= |table|
    ensures k < |table| ==> table[k].1 == code
    ensures forall j :: 0 <= j < k ==> table[j].1 != code
  {
    if table == [] || table[0].1 == code then 0 else 1 + ValueIndex(table[1..], code)
  }

  /** `table.get(key, default)`: the value of the entry with that key, else the default. */
  function Lookup(table: SymbolTable, key: string, default: string): (r: string)
    ensures !HasKey(table, key) ==> r == default
    ensures HasKey(table, key) ==> exists i :: 0 <= i < |table| && table[i] == (key, r)
  {
    var k := KeyIndex(table, key);
    if k < |table| then table[k].1 else default
  }

  /**
   * `[k for k, v in table.items() if v == code][0]`: the first key whose value
   * is `code`, or None where the empty list raises IndexError.
   */
  function SymbolFor(table: SymbolTable, code: string): (r: Option<string>)
    ensures r.None? <==> !HasValue(table, code)
    ensures r.Some? ==> exists i :: 0 <= i < |table| && table[i] == (r.value, code)
  {
    var k := ValueIndex(table, code);
    if k < |table| then Some(table[k].0) else None
  }

  /**
   * In a table with distinct keys, the symbol chosen for a supported code
   * converts back to that code: the prefix written on converted prices names
   * the currency they are in.
   */
  lemma SymbolLooksUpToCode(table: SymbolTable, code: string, default: string)
    requires KeysDistinct(table) && HasValue(table, code)
    ensures SymbolFor(table, code).Some?
    ensures Lookup(table, SymbolFor(table, code).value, default) == code
  {
    var i := ValueIndex(table, code);
    var k := KeyIndex(table, table[i].0);
    assert k <= i;
  }

  /** In a table with distinct values, the code of a known symbol leads back to that symbol. */
  lemma CodeLeadsToSymbol(table: SymbolTable, key: string, default: string)
    requires ValuesDistinct(table) && HasKey(table, key)
    ensures SymbolFor(table, Lookup(table, key, default)) == Some(key)
  {
    var i := KeyIndex(table, key);
    var k := ValueIndex(table, table[i].1);
    assert k <= i;
  }

  /** In a table with distinct keys, every entry is what `get` finds for its key. */
  lemma LookupEntry(table: SymbolTable, i: nat, default: string)
    requires KeysDistinct(table) && i < |table|
    ensures Lookup(table, table[i].0, default) == table[i].1
  {
    var k := KeyIndex(table, table[i].0);
    assert k <= i;
  }

  /** In a table with distinct values, every entry is what the reverse lookup finds for its value. */
  lemma SymbolForEntry(table: SymbolTable, i: nat)
    requires ValuesDistinct(table) && i < |table|
    ensures SymbolFor(table, table[i].1) == Some(table[i].0)
  {
    var k := ValueIndex(table, table[i].1);
    assert k <= i;
  }

  /** The sign table holds ten distinct symbols... */
  lemma SignKeysDistinct()
    ensures KeysDistinct(SignSymbols)
  {
  }

  /** ...for ten distinct codes. */
  lemma SignValuesDistinct()
    ensures ValuesDistinct(SignSymbols)
  {
  }

  /** So does the table of app_fastapi.py. */
  lemma FastapiKeysDistinct()
    ensures KeysDistinct(FastapiSymbols)
  {
  }

  lemma FastapiValuesDistinct()
    ensures ValuesDistinct(FastapiSymbols)
  {
  }

  /** Every symbol of the sign table is one or two characters long. */
  lemma SignKeysShort()
    ensures forall i :: 0 <= i < |SignSymbols| ==> 1 <= |SignSymbols[i].0| <= 2
  {
  }

  /** The reverse lookup picks the first key with the code: `brl` is written `R$`. */
  lemma BrlIsWrittenRDollar()
    ensures SymbolFor(SignSymbols, "brl") == Some("R$")
    ensures SymbolFor(FastapiSymbols, "brl") == Some("R$")
  {
    SignValuesDistinct();
    FastapiValuesDistinct();
    SymbolForEntry(SignSymbols, 8);
    SymbolForEntry(FastapiSymbols, 8);
  }

  /**
   * A price written with the euro sign is read as euros by the copies with
   * the sign table, and as dollars by app_fastapi.py, whose table does not
   * hold the euro sign.
   */
  lemma EuroSignAcrossTables()
    ensures Lookup(SignSymbols, "\U{20AC}", "usd") == "eur"
    ensures Lookup(FastapiSymbols, "\U{20AC}", "usd") == "usd"
  {
    SignKeysDistinct();
    LookupEntry(SignSymbols, 1, "usd");
    assert !HasKey(FastapiSymbols, "\U{20AC}") by {
      forall i | 0 <= i < |FastapiSymbols| ensures FastapiSymbols[i].0 != "\U{20AC}" {
        assert |FastapiSymbols[i].0| != 1 || FastapiSymbols[i].0[0] != '\U{20AC}';
      }
    }
  }
}
