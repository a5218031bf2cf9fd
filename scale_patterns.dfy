/** The regular expressions of the scale interpreter, each hand-coded as a
    scanner that tries one start position. Every pattern here is
    deterministic at a fixed start: each greedy run is followed by a character
    its class excludes, so backtracking finds no other match, and the scanner
    follows the single path the regex engine can succeed on. A `...At(s, i)`
    function answers `re.match` at `i`; `Search` from the scanner module turns
    it into `re.search`. */
module ScalePatterns {
  import opened Utils
  import opened Scanner

  predicate IsColonOrSpace(c: char) { c == ':' || IsSpace(c) }

  /** `[\d/\.]`: the characters of a left-hand scale value. */
  predicate IsLeftChar(c: char) { IsDigit(c) || c == '/' || c == '.' }

  /** `[\"â€']` under IGNORECASE: the two ASCII quotes, `â`, its upper case `Â`, and `€`. */
  predicate IsFancyQuote(c: char) {
    c == '"' || c == '\'' || c == 'â' || c == 'Â' || c == '€'
  }

  /** `[\d'\-\.]`: the characters of a right-hand scale value. */
  predicate IsRightChar(c: char) { IsDigit(c) || c == '\'' || c == '-' || c == '.' }

  predicate IsDigitOrSlash(c: char) { IsDigit(c) || c == '/' }

  /** `[\d\'\-"]`: the characters that may follow `=` in the line-finding pattern. */
  predicate IsLineValueChar(c: char) { IsDigit(c) || c == '\'' || c == '-' || c == '"' }

  predicate IsQuote(c: char) { c == '"' || c == '\'' }

  /** The two groups of the architectural pattern. */
  datatype ArchMatch = ArchMatch(left: string, right: string)

  /** `scale[:\s]*([\d/\.]+)[\"â€']?\s*=\s*([\d'\-\.]+)`, case-insensitive, at `i`. */
  function ArchScaleAt(s: string, i: nat): (r: Option<ArchMatch>)
    ensures r.Some? ==> ScaleWordAt(s, i) && |r.value.left| > 0 && |r.value.right| > 0
    ensures r.Some? ==> forall k :: 0 <= k < |r.value.left| ==> IsLeftChar(r.value.left[k])
    ensures r.Some? ==> forall k :: 0 <= k < |r.value.right| ==> IsRightChar(r.value.right[k])
  {
    if !ScaleWordAt(s, i) then None
    else
      var a := SkipWhile(s, i + 5, IsColonOrSpace);
      var b := SkipWhile(s, a, IsLeftChar);
      var c := if b < |s| && IsFancyQuote(s[b]) then b + 1 else b;
      var d := SkipWhile(s, c, IsSpace);
      if b == a || d == |s| || s[d] != '=' then None
      else
        var e := SkipWhile(s, d + 1, IsSpace);
        var f := SkipWhile(s, e, IsRightChar);
        if f == e then None else Some(ArchMatch(s[a..b], s[e..f]))
  }

  /** `ArchScaleAt` once the ends of its runs are known. */
  lemma ArchScaleAtIs(s: string, i: nat, a: nat, b: nat, d: nat, e: nat, f: nat)
    requires ScaleWordAt(s, i)
    requires SkipWhile(s, i + 5, IsColonOrSpace) == a
    requires SkipWhile(s, a, IsLeftChar) == b && a < b
    requires SkipWhile(s, if b < |s| && IsFancyQuote(s[b]) then b + 1 else b, IsSpace) == d
    requires d < |s| && s[d] == '='
    requires SkipWhile(s, d + 1, IsSpace) == e
    requires SkipWhile(s, e, IsRightChar) == f && e < f
    ensures ArchScaleAt(s, i) == Some(ArchMatch(s[a..b], s[e..f]))
  {
  }

  /** `scale\s*1[:=]\s*(\d+)`, case-insensitive, at `i`: the number. */
  function RatioScaleAt(s: string, i: nat): Option<nat> {
    if !ScaleWordAt(s, i) then None
    else
      var a := SkipWhile(s, i + 5, IsSpace);
      if a + 1 >= |s| || s[a] != '1' || (s[a + 1] != ':' && s[a + 1] != '=') then None
      else
        var b := SkipWhile(s, a + 2, IsSpace);
        var c := SkipWhile(s, b, IsDigit);
        if c == b then None else Some(DigitsValue(s[b..c]))
  }

  /** `1["] ?= ?(\d+)[']`, case-sensitive, at `i`: the number. */
  function InchToFeetAt(s: string, i: nat): Option<nat> {
    if i + 2 > |s| || s[i] != '1' || s[i + 1] != '"' then None
    else
      var a := if i + 2 < |s| && s[i + 2] == ' ' then i + 3 else i + 2;
      if a >= |s| || s[a] != '=' then None
      else
        var b := if a + 1 < |s| && s[a + 1] == ' ' then a + 2 else a + 1;
        var c := SkipWhile(s, b, IsDigit);
        if c == b || c == |s| || s[c] != '\'' then None else Some(DigitsValue(s[b..c]))
  }

  /** `SCALE[:\s]*[\d/]+"?\s*=\s*[\d\'\-"]+`, case-insensitive, at `i`. Only
      whether it matches matters, so the final run is checked for one character. */
  function ScaleLineAt(s: string, i: nat): Option<()> {
    if !ScaleWordAt(s, i) then None
    else
      var a := SkipWhile(s, i + 5, IsColonOrSpace);
      var b := SkipWhile(s, a, IsDigitOrSlash);
      var c := if b < |s| && s[b] == '"' then b + 1 else b;
      var d := SkipWhile(s, c, IsSpace);
      if b == a || d == |s| || s[d] != '=' then None
      else
        var e := SkipWhile(s, d + 1, IsSpace);
        if e < |s| && IsLineValueChar(s[e]) then Some(()) else None
  }

  predicate HasScaleLine(s: string) {
    Search(s, k => ScaleLineAt(s, k), 0).Some?
  }

  /** The three groups of the value pattern; `inches` is `None` when group 3 did not take part. */
  datatype ValueMatch = ValueMatch(left: string, feet: string, inches: Option<string>)

  /** `(\d+/\d+|\d+\.?\d*)["\']?\s*=\s*(\d+)[\'\-]?(\d+)?["\']?` at `i`. */
  function ValueAt(s: string, i: nat): (r: Option<ValueMatch>)
    ensures r.Some? ==> IsValueLeft(r.value.left) && AllDigits(r.value.feet) && |r.value.feet| > 0
    ensures r.Some? && r.value.inches.Some? ==> AllDigits(r.value.inches.value) && |r.value.inches.value| > 0
  {
    match ValueLeftEnd(s, i)
    case None => None
    case Some(e) =>
      var q := if e < |s| && IsQuote(s[e]) then e + 1 else e;
      var t := SkipWhile(s, q, IsSpace);
      if t == |s| || s[t] != '=' then None
      else
        match FeetAt(s, SkipWhile(s, t + 1, IsSpace))
        case None => None
        case Some((feet, inches)) => Some(ValueMatch(s[i..e], feet, inches))
  }

  /** `(\d+)[\'\-]?(\d+)?` at `u`: the feet digits and, if any, the inches digits. */
  function FeetAt(s: string, u: nat): (r: Option<(string, Option<string>)>)
    requires u <= |s|
    ensures r.Some? ==> AllDigits(r.value.0) && |r.value.0| > 0
    ensures r.Some? && r.value.1.Some? ==> AllDigits(r.value.1.value) && |r.value.1.value| > 0
  {
    var v := SkipWhile(s, u, IsDigit);
    if v == u then None
    else
      DigitRun(s, u);
      var w := if v < |s| && (s[v] == '\'' || s[v] == '-') then v + 1 else v;
      var x := SkipWhile(s, w, IsDigit);
      DigitRun(s, w);
      Some((s[u..v], if x > w then Some(s[w..x]) else None))
  }

  /** The feet-and-inches part of the value pattern, given where its runs end. */
  lemma FeetAtIs(s: string, u: nat, v: nat, w: nat, x: nat)
    requires u <= |s| && SkipWhile(s, u, IsDigit) == v && u < v
    requires w == if v < |s| && (s[v] == '\'' || s[v] == '-') then v + 1 else v
    requires SkipWhile(s, w, IsDigit) == x
    ensures FeetAt(s, u) == Some((s[u..v], if x > w then Some(s[w..x]) else None))
  {
  }

  /** The end of group 1 of the value pattern at `i`. When the leading digits
      are followed by `/` only the first alternative can lead to a match;
      otherwise only the second. */
  function ValueLeftEnd(s: string, i: nat): (r: Option<nat>)
    ensures r.Some? ==> i < r.value <= |s| && IsValueLeft(s[i..r.value])
  {
    if i >= |s| then None
    else
      var d := SkipWhile(s, i, IsDigit);
      if d == i then None
      else
        var fractional := d < |s| && s[d] == '/';
        var e := if fractional then SkipWhile(s, d + 1, IsDigit)
                 else if d < |s| && s[d] == '.' then SkipWhile(s, d + 1, IsDigit)
                 else d;
        if fractional && e == d + 1 then None
        else
          ValueLeftShape(s, i, d, e);
          Some(e)
  }

  /** The text group 1 of the value pattern can capture: `\d+/\d+` or `\d+\.?\d*`. */
  predicate IsValueLeft(left: string) {
    var d := SkipWhile(left, 0, IsDigit);
    d > 0
    && (d == |left|
        || (left[d] == '/' && d + 1 < |left| && AllDigits(left[d + 1..]))
        || (left[d] == '.' && AllDigits(left[d + 1..])))
  }

  lemma ValueLeftShape(s: string, i: nat, d: nat, e: nat)
    requires i < d <= e <= |s| && d == SkipWhile(s, i, IsDigit)
    requires e == d || (s[d] == '/' && e > d + 1) || s[d] == '.'
    requires forall k :: d + 1 <= k < e ==> IsDigit(s[k])
    ensures IsValueLeft(s[i..e])
  {
    var left := s[i..e];
    assert forall k :: 0 <= k < d - i ==> left[k] == s[i + k];
    SkipWhileIs(left, 0, d - i, IsDigit);
    if d < e {
      assert left[d - i] == s[d];
      assert left[d - i + 1..] == s[d + 1..e];
    }
  }

  /** The number pair pattern `(\d+)\s*[:=]\s*(\d+)` at `i`: the second number. */
  function PairRatioAt(s: string, i: nat): Option<nat> {
    if i >= |s| then None
    else
      var d := SkipWhile(s, i, IsDigit);
      var e := SkipWhile(s, d, IsSpace);
      if d == i || e == |s| || (s[e] != ':' && s[e] != '=') then None
      else
        var f := SkipWhile(s, e + 1, IsSpace);
        var g := SkipWhile(s, f, IsDigit);
        if g == f then None else Some(DigitsValue(s[f..g]))
  }

  /** `re.match(r"^\s*scale\s*[:\-]?\s*$", s, re.IGNORECASE)`: the text is just a
      scale label. */
  predicate IsBareScaleLabel(s: string) {
    var i := SkipWhile(s, 0, IsSpace);
    ScaleWordAt(s, i)
    && var j := SkipWhile(s, i + 5, IsSpace);
       var k := if j < |s| && (s[j] == ':' || s[j] == '-') then j + 1 else j;
       SkipWhile(s, k, IsSpace) == |s|
  }

  // ----- reading the groups -----

  /** The start of `re.match(r"(\d+)/(\d+)", left)`: numerator and denominator. */
  function LeadingFraction(left: string): (r: Option<(nat, nat)>)
  {
    var d := SkipWhile(left, 0, IsDigit);
    if d == 0 || d == |left| || left[d] != '/' then None
    else
      var e := SkipWhile(left, d + 1, IsDigit);
      if e == d + 1 then None else Some((DigitsValue(left[..d]), DigitsValue(left[d + 1..e])))
  }

  /** The left value of the architectural pass: a number, no number (`None`, a
      failed `float()`), or the division by zero `a/0` raises. */
  datatype LeftValue = Decimal(value: Option<real>) | LeftDivisionByZero

  function ParseLeft(left: string): (r: LeftValue)
    ensures r == LeftDivisionByZero <==> LeadingFraction(left).Some? && LeadingFraction(left).value.1 == 0
  {
    match LeadingFraction(left)
    case Some((a, b)) => if b == 0 then LeftDivisionByZero else Decimal(Some(a as real / b as real))
    case None => Decimal(ParseFloat(left))
  }

  /** The left value of the fallback passes: `"/" in left` splits at the slash,
      anything else goes to `float()`. */
  function ValueLeft(left: string): (r: LeftValue)
    requires IsValueLeft(left)
    ensures r.Decimal? ==> r.value.Some? && r.value.value >= 0.0
  {
    var d := SkipWhile(left, 0, IsDigit);
    if '/' in left then
      ValueLeftSlash(left);
      var den := DigitsValue(left[d + 1..]);
      if den == 0 then LeftDivisionByZero
      else Decimal(Some(DigitsValue(left[..d]) as real / den as real))
    else
      ValueLeftParses(left);
      Decimal(ParseFloat(left))
  }

  /** A slash in a value-pattern left side is the one right after the leading digits. */
  lemma ValueLeftSlash(left: string)
    requires IsValueLeft(left)
    ensures var d := SkipWhile(left, 0, IsDigit);
      '/' in left <==> d < |left| && left[d] == '/'
  {
  }

  /** `float()` accepts a value-pattern left side without a slash. */
  lemma ValueLeftParses(left: string)
    requires IsValueLeft(left) && '/' !in left
    ensures ParseFloat(left).Some? && ParseFloat(left).value >= 0.0
  {
    var d := SkipWhile(left, 0, IsDigit);
    ValueLeftSlash(left);
    assert AllDigits(left[..d]);
    if d < |left| {
      assert left == left[..d] + "." + left[d + 1..];
      ParseDecimal(left[..d], left[d + 1..]);
    } else {
      ParseDigits(left);
    }
  }

  /** The fallback passes read a left side exactly as the architectural pass does. */
  lemma ValueLeftIsParseLeft(left: string)
    requires IsValueLeft(left)
    ensures ValueLeft(left) == ParseLeft(left)
  {
    var d := SkipWhile(left, 0, IsDigit);
    ValueLeftSlash(left);
    if d < |left| && left[d] == '/' {
      SkipWhileIs(left, d + 1, |left|, IsDigit);
      assert left[d + 1..|left|] == left[d + 1..];
    }
  }

  /** The start of `re.match(r"(\d+)'[- ]?(\d+)?", right)`: feet, and inches if given. */
  function FeetInches(right: string): Option<(nat, Option<nat>)> {
    var d := SkipWhile(right, 0, IsDigit);
    if d == 0 || d == |right| || right[d] != '\'' then None
    else
      var e := if d + 1 < |right| && (right[d + 1] == '-' || right[d + 1] == ' ') then d + 2 else d + 1;
      var f := SkipWhile(right, e, IsDigit);
      Some((DigitsValue(right[..d]), if f > e then Some(DigitsValue(right[e..f])) else None))
  }

  /** The right side in inches: `F'` and `F'-I` as `12F + I`, otherwise the
      `float()` of the text, and 0 when that fails. */
  function ParseRight(right: string): real {
    match FeetInches(right)
    case Some((feet, inches)) => 12.0 * feet as real + (match inches case Some(n) => n as real case None => 0.0)
    case None => ParseFloat(right).GetOr(0.0)
  }

  // ----- what the readers read -----

  /** `LeadingFraction` is determined by where its two digit runs end. */
  lemma LeadingFractionIs(left: string, d: nat, e: nat)
    requires 0 < d && d + 1 < e <= |left| && left[d] == '/'
    requires forall k :: 0 <= k < d ==> IsDigit(left[k])
    requires forall k :: d + 1 <= k < e ==> IsDigit(left[k])
    requires e == |left| || !IsDigit(left[e])
    ensures AllDigits(left[..d]) && AllDigits(left[d + 1..e])
    ensures LeadingFraction(left) == Some((DigitsValue(left[..d]), DigitsValue(left[d + 1..e])))
  {
    SkipWhileIs(left, 0, d, IsDigit);
    SkipWhileIs(left, d + 1, e, IsDigit);
  }

  /** `a/b` followed by anything but a digit reads as `a/b`, or raises for `b = 0`. */
  lemma ParseLeftFraction(A: string, B: string, rest: string)
    requires |A| > 0 && AllDigits(A) && |B| > 0 && AllDigits(B)
    requires |rest| == 0 || !IsDigit(rest[0])
    ensures ParseLeft(A + "/" + B + rest)
      == if DigitsValue(B) == 0 then LeftDivisionByZero
         else Decimal(Some(DigitsValue(A) as real / DigitsValue(B) as real))
  {
    FractionPieces(A, B, rest);
    ParseLeftOfFraction(A + "/" + B + rest, DigitsValue(A), DigitsValue(B));
  }

  lemma FractionPieces(A: string, B: string, rest: string)
    requires |A| > 0 && AllDigits(A) && |B| > 0 && AllDigits(B)
    requires |rest| == 0 || !IsDigit(rest[0])
    ensures LeadingFraction(A + "/" + B + rest) == Some((DigitsValue(A), DigitsValue(B)))
  {
    var s := A + "/" + B + rest;
    var d, e := |A|, |A| + 1 + |B|;
    assert s[..d] == A;
    assert s[d + 1..e] == B;
    assert s[d] == '/';
    forall k | 0 <= k < d
      ensures IsDigit(s[k])
    {
      assert s[k] == A[k];
    }
    forall k | d + 1 <= k < e
      ensures IsDigit(s[k])
    {
      assert s[k] == B[k - d - 1];
    }
    assert e < |s| ==> s[e] == rest[0];
    LeadingFractionIs(s, d, e);
  }

  lemma ParseLeftOfFraction(s: string, a: nat, b: nat)
    requires LeadingFraction(s) == Some((a, b))
    ensures ParseLeft(s) == if b == 0 then LeftDivisionByZero else Decimal(Some(a as real / b as real))
  {
  }

  /** A plain number reads as itself. */
  lemma ParseLeftWhole(A: string)
    requires |A| > 0 && AllDigits(A)
    ensures ParseLeft(A) == Decimal(Some(DigitsValue(A) as real))
  {
    SkipWhileIs(A, 0, |A|, IsDigit);
    ParseDigits(A);
  }

  /** A left side that is not a number nor a leading fraction has no value. */
  lemma ParseLeftSlashOnly(left: string, k: nat)
    requires k < |left| && left[k] == '/' && LeadingFraction(left).None?
    ensures ParseLeft(left) == Decimal(None)
  {
    ParseRejectsSlash(left, k);
  }

  /** `FeetInches` is determined by where its digit runs end. */
  lemma FeetInchesIs(right: string, d: nat, e: nat, f: nat)
    requires 0 < d < |right| && right[d] == '\''
    requires e == if d + 1 < |right| && (right[d + 1] == '-' || right[d + 1] == ' ') then d + 2 else d + 1
    requires e < f <= |right|
    requires forall k :: 0 <= k < d ==> IsDigit(right[k])
    requires forall k :: e <= k < f ==> IsDigit(right[k])
    requires f == |right| || !IsDigit(right[f])
    ensures AllDigits(right[..d]) && AllDigits(right[e..f])
    ensures FeetInches(right) == Some((DigitsValue(right[..d]), Some(DigitsValue(right[e..f]))))
  {
    SkipWhileIs(right, 0, d, IsDigit);
    SkipWhileIs(right, e, f, IsDigit);
  }

  /** Where the pieces of `F'` + `sep` + `I` + `rest` sit. */
  lemma FeetInchesLayout(F: string, sep: string, I: string, rest: string)
    requires |F| > 0 && |I| > 0 && (sep == "" || sep == "-")
    ensures var s, d, e := F + "'" + sep + I + rest, |F|, |F| + 1 + |sep|;
      && s[d] == '\'' && s[..d] == F && s[e..e + |I|] == I
      && (forall k :: 0 <= k < d ==> s[k] == F[k])
      && (forall k :: e <= k < e + |I| ==> s[k] == I[k - e])
      && (sep == "-" ==> s[d + 1] == '-')
      && (sep == "" ==> s[d + 1] == I[0])
      && (e + |I| < |s| ==> s[e + |I|] == rest[0])
  {
  }

  /** `F'-I` (or `F'I`) followed by a non-digit reads as `12F + I` inches. */
  lemma ParseRightFeetInches(F: string, sep: string, I: string, rest: string)
    requires |F| > 0 && AllDigits(F) && |I| > 0 && AllDigits(I)
    requires sep == "" || sep == "-"
    requires |rest| == 0 || !IsDigit(rest[0])
    ensures ParseRight(F + "'" + sep + I + rest) == 12.0 * DigitsValue(F) as real + DigitsValue(I) as real
  {
    var s := F + "'" + sep + I + rest;
    FeetInchesLayout(F, sep, I, rest);
    FeetInchesIs(s, |F|, |F| + 1 + |sep|, |F| + 1 + |sep| + |I|);
  }

  /** `F'` alone reads as `12F` inches. */
  lemma ParseRightFeet(F: string)
    requires |F| > 0 && AllDigits(F)
    ensures ParseRight(F + "'") == 12.0 * DigitsValue(F) as real
  {
    var s := F + "'";
    SkipWhileIs(s, 0, |F|, IsDigit);
    assert s[..|F|] == F;
  }

  /** A bare number is read as inches. */
  lemma ParseRightInches(N: string)
    requires |N| > 0 && AllDigits(N)
    ensures ParseRight(N) == DigitsValue(N) as real
  {
    SkipWhileIs(N, 0, |N|, IsDigit);
    ParseDigits(N);
  }

  /** A negative number is read as negative inches. */
  lemma ParseRightNegative(N: string)
    requires |N| > 0 && AllDigits(N)
    ensures ParseRight("-" + N) == -(DigitsValue(N) as real)
  {
    assert ("-" + N)[1..] == N;
    ParseDigits(N);
  }

  /** Anything else that `float()` rejects reads as 0. */
  lemma ParseRightUnreadable(right: string)
    requires FeetInches(right).None? && ParseFloat(right).None?
    ensures ParseRight(right) == 0.0
  {
  }
}
