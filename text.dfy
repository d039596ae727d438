/**
 * The handful of Python `str` operations the price pipeline leans on, over
 * `seq<char>`: `isspace`, `isdigit` (ASCII digits only), `lower` (ASCII letters
 * only), `strip`, `split()[0]`, `in`, `startswith`, `split(sep)`, `replace`
 * and `str(int)`.
 */
module Text {

  import opened Wrappers

  /** Python's `str.isspace()`: the characters it calls whitespace. */
  predicate IsSpace(c: char) {
    || c == ' '
    || ('\U{9}' <= c <= '\U{D}')
    || ('\U{1C}' <= c <= '\U{1F}')
    || c == '\U{85}' || c == '\U{A0}' || c == '\U{1680}'
    || ('\U{2000}' <= c <= '\U{200A}')
    || c == '\U{2028}' || c == '\U{2029}' || c == '\U{202F}' || c == '\U{205F}' || c == '\U{3000}'
  }

  /** `str.isdigit()` restricted to the ASCII digits. */
  predicate IsDigit(c: char) {
    '0' <= c <= '9'
  }

  predicate AllDigits(s: string) {
    forall i :: 0 <= i < |s| ==> IsDigit(s[i])
  }

  predicate NoSpace(s: string) {
    forall i :: 0 <= i < |s| ==> !IsSpace(s[i])
  }

  predicate AllSpace(s: string) {
    forall i :: 0 <= i < |s| ==> IsSpace(s[i])
  }

  /** `str.lower()` on one character, for the ASCII letters. */
  function LowerChar(c: char): (r: char)
    ensures IsDigit(c) ==> r == c
    ensures r == 't' <==> c == 't' || c == 'T'
    ensures r == 'o' <==> c == 'o' || c == 'O'
  {
    if 'A' <= c <= 'Z' then (c as int + 32) as char else c
  }

  function Lower(s: string): (r: string)
    ensures |r| == |s|
    ensures forall i :: 0 <= i < |s| ==> r[i] == LowerChar(s[i])
  {
    seq(|s|, i requires 0 <= i < |s| => LowerChar(s[i]))
  }

  /** `str.lstrip()`. */
  function TrimStart(s: string): (r: string)
    ensures |r| <= |s|
    ensures r == s[|s| - |r|..]
    ensures r != [] ==> !IsSpace(r[0])
    ensures AllSpace(s[..|s| - |r|])
  {
    if s != [] && IsSpace(s[0]) then
      var r := TrimStart(s[1..]);
      assert s[1..][..|s| - 1 - |r|] == s[1..|s| - |r|];
      r
    else s
  }

  /** `str.rstrip()`. */
  function TrimEnd(s: string): (r: string)
    ensures |r| <= |s|
    ensures r == s[..|r|]
    ensures r != [] ==> !IsSpace(r[|r| - 1])
    ensures AllSpace(s[|r|..])
  {
    if s != [] && IsSpace(s[|s| - 1]) then
      var r := TrimEnd(s[..|s| - 1]);
      assert s[..|s| - 1][..|r|] == s[..|r|];
      assert s[|r|..] == s[..|s| - 1][|r|..] + [s[|s| - 1]];
      r
    else s
  }

  /** `r` is the piece of `s` from `a` on that has only whitespace before and after it. */
  predicate Surrounded(s: string, a: nat, r: string) {
    a + |r| <= |s| && s[a..a + |r|] == r && AllSpace(s[..a]) && AllSpace(s[a + |r|..])
  }

  /** `str.strip()`: the text without surrounding whitespace. */
  function Strip(s: string): (r: string)
    ensures r == [] <==> AllSpace(s)
    ensures r != [] ==> !IsSpace(r[0]) && !IsSpace(r[|r| - 1])
    ensures NoSpace(s) ==> r == s
  {
    var t := TrimStart(s);
    assert AllSpace(t) ==> AllSpace(s) by {
      if t == [] {
        assert s[..|s|] == s;
      }
    }
    var r := TrimEnd(t);
    assert r == [] ==> AllSpace(t) by {
      if r == [] { assert t[|r|..] == t; }
    }
    r
  }

  /** What `strip()` leaves is the piece of `s` after its leading whitespace, with only whitespace after it. */
  lemma StripIsSurrounded(s: string)
    ensures Surrounded(s, |s| - |TrimStart(s)|, Strip(s))
  {
    var t := TrimStart(s);
    var r := TrimEnd(t);
    assert Strip(s) == r;
    SurroundedRest(s, t, r);
  }

  /** A prefix with only whitespace after it, of a suffix with only whitespace before it, lies surrounded in the text. */
  lemma SurroundedRest(s: string, t: string, r: string)
    requires |t| <= |s| && t == s[|s| - |t|..] && AllSpace(s[..|s| - |t|])
    requires |r| <= |t| && r == t[..|r|] && AllSpace(t[|r|..])
    ensures Surrounded(s, |s| - |t|, r)
  {
    var a := |s| - |t|;
    assert s[a..a + |r|] == t[..|r|];
    assert s[a + |r|..] == t[|r|..];
  }

  /** Text that neither starts nor ends with whitespace is its own `strip()`. */
  lemma StripUnchanged(s: string)
    requires s != [] && !IsSpace(s[0]) && !IsSpace(s[|s| - 1])
    ensures Strip(s) == s
  {
    var r := Strip(s);
    var a := |s| - |TrimStart(s)|;
    StripIsSurrounded(s);
    assert s[..|s|] == s;
  }

  /** The longest prefix of `s` without whitespace. */
  function TakeWord(s: string): (r: string)
    ensures |r| <= |s|
    ensures r == s[..|r|]
    ensures NoSpace(r)
    ensures |r| < |s| ==> IsSpace(s[|r|])
  {
    if s == [] || IsSpace(s[0]) then [] else [s[0]] + TakeWord(s[1..])
  }

  /**
   * `s.split()[0]`: the first whitespace-delimited word, or None where
   * Python raises IndexError because `s` holds no word at all.
   */
  function FirstWord(s: string): (r: Option<string>)
    ensures r.None? <==> AllSpace(s)
    ensures r.Some? ==> r.value != [] && NoSpace(r.value)
  {
    var t := TrimStart(s);
    assert AllSpace(s) ==> t == [];
    assert t == [] ==> AllSpace(s) by {
      if t == [] { assert s[..|s|] == s; }
    }
    if t == [] then None else Some(TakeWord(t))
  }

  /** The first word starts where the leading whitespace ends and runs up to whitespace or the end. */
  lemma FirstWordPosition(s: string)
    requires !AllSpace(s)
    ensures WordAt(s, |s| - |TrimStart(s)|, FirstWord(s).value)
  {
    var t := TrimStart(s);
    var w := TakeWord(t);
    assert FirstWord(s) == Some(w);
    WordAtRest(s, t, w);
  }

  /** A word at the start of a suffix that only whitespace precedes is a word of the whole text. */
  lemma WordAtRest(s: string, t: string, w: string)
    requires |t| <= |s| && t == s[|s| - |t|..] && AllSpace(s[..|s| - |t|])
    requires |w| <= |t| && w == t[..|w|] && (|w| < |t| ==> IsSpace(t[|w|]))
    ensures WordAt(s, |s| - |t|, w)
  {
    var a := |s| - |t|;
    assert s[a..a + |w|] == t[..|w|];
    if a + |w| < |s| {
      assert s[a + |w|] == t[|w|];
    }
  }

  /** A leading run of non-whitespace that ends at whitespace or at the end is the first word. */
  lemma FirstWordIs(s: string, k: nat)
    requires 0 < k <= |s| && NoSpace(s[..k]) && (k < |s| ==> IsSpace(s[k]))
    ensures FirstWord(s) == Some(s[..k])
  {
    assert s[..k][0] == s[0];
    assert TrimStart(s) == s;
    FirstWordPosition(s);
    WordAtStart(s, FirstWord(s).value, k);
  }

  /** Two words that both start the text are the same word. */
  lemma WordAtStart(s: string, w: string, k: nat)
    requires WordAt(s, 0, w) && NoSpace(w)
    requires 0 < k <= |s| && NoSpace(s[..k]) && (k < |s| ==> IsSpace(s[k]))
    ensures w == s[..k]
  {
    assert w == s[..|w|];
  }

  /**
   * `w` is the first word of `s`, starting at `a`: only whitespace before it,
   * and whitespace or the end of `s` after it.
   */
  predicate WordAt(s: string, a: nat, w: string) {
    a + |w| <= |s| && s[a..a + |w|] == w && AllSpace(s[..a]) &&
    (a + |w| < |s| ==> IsSpace(s[a + |w|]))
  }

  /** `s.startswith(p)`. */
  predicate StartsWith(s: string, p: string) {
    |p| <= |s| && s[..|p|] == p
  }

  /** `p in s`, for a non-empty `p`: some position of `s` starts with `p`. */
  predicate Contains(s: string, p: string)
    decreases |s|
  {
    StartsWith(s, p) || (s != [] && Contains(s[1..], p))
  }

  lemma {:induction false} ContainsAt(s: string, p: string, i: nat)
    requires i <= |s| && StartsWith(s[i..], p)
    ensures Contains(s, p)
    decreases i
  {
    if i > 0 {
      assert s[1..][i - 1..] == s[i..];
      ContainsAt(s[1..], p, i - 1);
    }
  }

  lemma {:induction false} ContainsWitness(s: string, p: string) returns (i: nat)
    requires Contains(s, p)
    ensures i <= |s| && StartsWith(s[i..], p)
    decreases |s|
  {
    if StartsWith(s, p) {
      i := 0;
    } else {
      var j := ContainsWitness(s[1..], p);
      assert s[1..][j..] == s[j + 1..];
      i := j + 1;
    }
  }

  /** Whatever `s` contains, `s + t` contains as well. */
  lemma ContainsExtend(s: string, t: string, p: string)
    requires Contains(s, p)
    ensures Contains(s + t, p)
  {
    var i := ContainsWitness(s, p);
    assert (s + t)[i..][..|p|] == s[i..][..|p|];
    ContainsAt(s + t, p, i);
  }

  /**
   * `s.split(sep)[0]`: the text before the first occurrence of `sep`, or all
   * of `s` when `sep` does not occur.
   */
  function Before(s: string, sep: string): (r: string)
    requires sep != []
    ensures |r| <= |s|
    ensures r == s[..|r|]
    ensures |r| < |s| ==> StartsWith(s[|r|..], sep)
    ensures !Contains(r, sep)
    decreases |s|
  {
    if StartsWith(s, sep) then []
    else if s == [] then []
    else
      var rest := Before(s[1..], sep);
      assert s[1..][|rest|..] == s[|rest| + 1..];
      assert [s[0]] + rest == s[..|rest| + 1];
      assert !StartsWith([s[0]] + rest, sep);
      assert ([s[0]] + rest)[1..] == rest;
      [s[0]] + rest
  }

  /** The piece before the first separator is all of `s` exactly when `sep` does not occur. */
  lemma BeforeWhole(s: string, sep: string)
    requires sep != []
    ensures Before(s, sep) == s <==> !Contains(s, sep)
  {
    var r := Before(s, sep);
    if |r| < |s| {
      ContainsAt(s, sep, |r|);
    }
  }

  /** `s.split(sep)` for a non-empty separator: the pieces between the separators, in order. */
  function SplitOn(s: string, sep: string): (r: seq<string>)
    requires sep != []
    ensures |r| >= 1
    ensures r[0] == Before(s, sep)
    decreases |s|
  {
    var b := Before(s, sep);
    if |b| == |s| then [s]
    else [b] + SplitOn(s[|b| + |sep|..], sep)
  }

  /** `s.replace(pat, sub)`: every non-overlapping occurrence of `pat`, from the left, becomes `sub`. */
  function Replace(s: string, pat: string, sub: string): (r: string)
    decreases |s|
  {
    if pat == [] || s == [] then s
    else if StartsWith(s, pat) then sub + Replace(s[|pat|..], pat, sub)
    else [s[0]] + Replace(s[1..], pat, sub)
  }

  /** Removing a string that does not occur leaves the text unchanged. */
  lemma {:induction false} ReplaceAbsent(s: string, pat: string)
    requires !Contains(s, pat)
    ensures Replace(s, pat, "") == s
    decreases |s|
  {
    if pat != [] && s != [] {
      ReplaceAbsent(s[1..], pat);
      assert [s[0]] + s[1..] == s;
    }
  }

  function DigitChar(d: nat): (c: char)
    requires d < 10
    ensures IsDigit(c)
  {
    ('0' as int + d) as char
  }

  function DigitValue(c: char): (d: nat)
    requires IsDigit(c)
    ensures d < 10
  {
    c as int - '0' as int
  }

  /** The number an ASCII digit string spells in base ten. */
  function DigitsValue(s: string): nat
    requires AllDigits(s)
  {
    if s == [] then 0 else DigitsValue(s[..|s| - 1]) * 10 + DigitValue(s[|s| - 1])
  }

  /** `str(n)` for a natural number. */
  function NatToString(n: nat): (r: string)
    ensures r != [] && AllDigits(r)
  {
    if n < 10 then [DigitChar(n)] else NatToString(n / 10) + [DigitChar(n % 10)]
  }

  /** `str(n)` for any integer: a minus sign, then the digits of the magnitude. */
  function IntToString(n: int): (r: string)
    ensures r != []
  {
    if n < 0 then "-" + NatToString(-n) else NatToString(n)
  }

  /** Reading back the decimal text of a number gives that number. */
  lemma {:induction false} NatToStringRoundTrip(n: nat)
    ensures DigitsValue(NatToString(n)) == n
  {
    if n >= 10 {
      NatToStringRoundTrip(n / 10);
      var s := NatToString(n);
      assert s[..|s| - 1] == NatToString(n / 10);
    }
  }

  /** Distinct numbers have distinct decimal texts. */
  lemma NatToStringInjective(m: nat, n: nat)
    requires NatToString(m) == NatToString(n)
    ensures m == n
  {
    NatToStringRoundTrip(m);
    NatToStringRoundTrip(n);
  }
}
