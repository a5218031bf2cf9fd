/** Character classes, scanning and number parsing with Python's semantics,
    as the hand-written scale patterns need them.
    - `\s` is Python's Unicode whitespace class for `str` patterns.
    - `\d` is restricted to the ASCII digits.
    - `float()` is read on the strings the patterns can hand it (digits, '.',
      '/', '\'', '-'): an optional sign, then `d+`, `d+.`, `d+.d+` or `.d+`;
      the value is exact. */
module Scanner {
  import opened Utils

  predicate IsDigit(c: char) {
    '0' <= c <= '9'
  }

  /** Python's `\s`: the characters `str.isspace()` accepts. */
  predicate IsSpace(c: char) {
    var n := c as int;
    (0x09 <= n <= 0x0d) || (0x1c <= n <= 0x20) || n == 0x85 || n == 0xa0 || n == 0x1680
    || (0x2000 <= n <= 0x200a) || n == 0x2028 || n == 0x2029 || n == 0x202f || n == 0x205f || n == 0x3000
  }

  /** The letters that match `s` in a case-insensitive Python pattern: `s`, `S`
      and the long s U+017F. */
  predicate IsLetterS(c: char) {
    c == 's' || c == 'S' || c == '\U{017F}'
  }

  /** The word `scale` at `i`, case-insensitively. */
  predicate ScaleWordAt(s: string, i: nat) {
    i + 5 <= |s| && IsLetterS(s[i]) && (s[i + 1] == 'c' || s[i + 1] == 'C')
    && (s[i + 2] == 'a' || s[i + 2] == 'A') && (s[i + 3] == 'l' || s[i + 3] == 'L')
    && (s[i + 4] == 'e' || s[i + 4] == 'E')
  }

  predicate AllDigits(s: string) {
    forall i :: 0 <= i < |s| ==> IsDigit(s[i])
  }

  function DigitValue(c: char): nat
    requires IsDigit(c)
  {
    c as int - '0' as int
  }

  /** The number a run of decimal digits denotes. */
  function DigitsValue(s: string): nat
    requires AllDigits(s)
  {
    if |s| == 0 then 0 else DigitsValue(s[..|s| - 1]) * 10 + DigitValue(s[|s| - 1])
  }

  function Pow10(n: nat): (r: nat)
    ensures r > 0
  {
    if n == 0 then 1 else 10 * Pow10(n - 1)
  }

  /** The digits after a decimal point, as a fraction. */
  function FractionValue(f: string): (r: real)
    requires AllDigits(f)
    ensures 0.0 <= r
  {
    DigitsValue(f) as real / Pow10(|f|) as real
  }

  /** The end of the longest run from `i` whose characters all satisfy `p`. */
  function SkipWhile(s: string, i: nat, p: char -> bool): (j: nat)
    requires i <= |s|
    ensures i <= j <= |s|
    ensures forall k :: i <= k < j ==> p(s[k])
    ensures j == |s| || !p(s[j])
    decreases |s| - i
  {
    if i == |s| || !p(s[i]) then i else SkipWhile(s, i + 1, p)
  }

  /** The run is determined by its two properties. */
  lemma SkipWhileIs(s: string, i: nat, j: nat, p: char -> bool)
    requires i <= j <= |s|
    requires forall k :: i <= k < j ==> p(s[k])
    requires j == |s| || !p(s[j])
    ensures SkipWhile(s, i, p) == j
  {
  }

  /** A digit run is all digits. */
  lemma DigitRun(s: string, i: nat)
    requires i <= |s|
    ensures AllDigits(s[i..SkipWhile(s, i, IsDigit)])
  {
    var j := SkipWhile(s, i, IsDigit);
    assert forall k :: 0 <= k < j - i ==> s[i..j][k] == s[i + k];
  }

  /** `re.search`: the leftmost start position, from `from` on, where the
      pattern matches, with the match found there. Python tries every start
      position up to and including `|s|`. */
  function Search<M>(s: string, at: nat -> Option<M>, from: nat): (r: Option<(nat, M)>)
    requires from <= |s| + 1
    ensures r.Some? ==> from <= r.value.0 <= |s| && at(r.value.0) == Some(r.value.1)
    ensures r.Some? ==> forall k :: from <= k < r.value.0 ==> at(k).None?
    ensures r.None? <==> forall k :: from <= k <= |s| ==> at(k).None?
    decreases |s| + 1 - from
  {
    if from > |s| then None
    else
      match at(from)
      case Some(m) => Some((from, m))
      case None => Search(s, at, from + 1)
  }

  /** A search whose first match is at `k` returns that match. */
  lemma SearchFindsFirst<M>(s: string, at: nat -> Option<M>, k: nat)
    requires k <= |s| && at(k).Some?
    requires forall j :: 0 <= j < k ==> at(j).None?
    ensures Search(s, at, 0) == Some((k, at(k).value))
  {
  }

  // ----- float() -----

  /** An unsigned decimal: `d+`, `d+.`, `d+.d+` or `.d+`. */
  function ParseUnsigned(s: string): (r: Option<real>)
    ensures r.Some? ==> r.value >= 0.0
  {
    var d := SkipWhile(s, 0, IsDigit);
    if d == |s| then
      if d > 0 then Some(DigitsValue(s) as real) else None
    else if s[d] != '.' then None
    else
      var frac := s[d + 1..];
      if !AllDigits(frac) || (d == 0 && |frac| == 0) then None
      else Some(DigitsValue(s[..d]) as real + FractionValue(frac))
  }

  /** Python's `float()` on a string of digits, signs, dots and punctuation. */
  function ParseFloat(s: string): Option<real> {
    if |s| > 0 && (s[0] == '-' || s[0] == '+') then
      match ParseUnsigned(s[1..])
      case None => None
      case Some(v) => Some(if s[0] == '-' then -v else v)
    else ParseUnsigned(s)
  }

  // ----- decimal rendering, to state what the parsers read -----

  function DigitChar(d: nat): (c: char)
    requires d < 10
    ensures IsDigit(c) && DigitValue(c) == d
  {
    ('0' as int + d) as char
  }

  /** The decimal digits of `n`, without leading zeros. */
  function Show(n: nat): (r: string)
    ensures |r| > 0 && AllDigits(r)
  {
    if n < 10 then [DigitChar(n)] else Show(n / 10) + [DigitChar(n % 10)]
  }

  lemma {:induction false} ShowValue(n: nat)
    ensures DigitsValue(Show(n)) == n
    decreases n
  {
    if n >= 10 {
      ShowValue(n / 10);
      assert Show(n)[..|Show(n)| - 1] == Show(n / 10);
    }
  }

  /** `float()` reads a digit run as its value. */
  lemma ParseDigits(s: string)
    requires |s| > 0 && AllDigits(s)
    ensures ParseFloat(s) == Some(DigitsValue(s) as real)
  {
    SkipWhileIs(s, 0, |s|, IsDigit);
  }

  lemma ParseShow(n: nat)
    ensures ParseFloat(Show(n)) == Some(n as real)
  {
    ParseDigits(Show(n));
    ShowValue(n);
  }

  /** A leading minus sign negates. */
  lemma ParseNegative(n: nat)
    ensures ParseFloat("-" + Show(n)) == Some(-(n as real))
  {
    assert ("-" + Show(n))[1..] == Show(n);
    ParseDigits(Show(n));
    ShowValue(n);
  }

  /** `float()` rejects a string holding a slash. */
  lemma ParseRejectsSlash(s: string, k: nat)
    requires k < |s| && s[k] == '/'
    ensures ParseFloat(s) == None
  {
    if |s| > 0 && (s[0] == '-' || s[0] == '+') {
      var t := s[1..];
      assert t[k - 1] == '/';
      UnsignedRejectsSlash(t, k - 1);
    } else {
      UnsignedRejectsSlash(s, k);
    }
  }

  lemma UnsignedRejectsSlash(s: string, k: nat)
    requires k < |s| && s[k] == '/'
    ensures ParseUnsigned(s) == None
  {
    var d := SkipWhile(s, 0, IsDigit);
    if d < |s| && s[d] == '.' {
      assert k > d;
      assert s[d + 1..][k - d - 1] == '/';
    }
  }

  /** `d+.d*` reads as the integer part plus the fraction. */
  lemma ParseDecimal(whole: string, frac: string)
    requires |whole| > 0 && AllDigits(whole) && AllDigits(frac)
    ensures ParseFloat(whole + "." + frac) == Some(DigitsValue(whole) as real + FractionValue(frac))
  {
    var s := whole + "." + frac;
    DecimalPieces(whole, frac);
    UnsignedDecimal(s, |whole|);
  }

  lemma DecimalPieces(whole: string, frac: string)
    requires |whole| > 0 && AllDigits(whole) && AllDigits(frac)
    ensures SkipWhile(whole + "." + frac, 0, IsDigit) == |whole|
    ensures (whole + "." + frac)[..|whole|] == whole && (whole + "." + frac)[|whole| + 1..] == frac
    ensures (whole + "." + frac)[|whole|] == '.' && IsDigit((whole + "." + frac)[0])
  {
    var s := whole + "." + frac;
    forall k | 0 <= k < |whole|
      ensures IsDigit(s[k])
    {
      assert s[k] == whole[k];
    }
    SkipWhileIs(s, 0, |whole|, IsDigit);
    assert s[..|whole|] == whole && s[|whole| + 1..] == frac;
  }

  lemma UnsignedDecimal(s: string, d: nat)
    requires 0 < d < |s| && SkipWhile(s, 0, IsDigit) == d && s[d] == '.' && IsDigit(s[0])
    requires AllDigits(s[d + 1..])
    ensures AllDigits(s[..d])
    ensures ParseFloat(s) == Some(DigitsValue(s[..d]) as real + FractionValue(s[d + 1..]))
  {
    assert forall k :: 0 <= k < d ==> s[..d][k] == s[k];
  }
}
