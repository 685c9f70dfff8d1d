/** The parts of JavaScript's string semantics that the request handlers rely
    on: `String.prototype.trim`, and whether `Number(text)` is NaN, which is
    decided by the StringNumericLiteral grammar of ECMA-262 (section 7.1.4.1.1,
    "StringToNumber"). */
module JsText {

  /** WhiteSpace (ECMA-262 section 12.2, with the Unicode "Zs" code points) and
      LineTerminator (section 12.3): what `trim` strips and what
      StringNumericLiteral allows around a number. */
  predicate IsJsSpace(c: char) {
    || c == '\U{9}' || c == '\U{B}' || c == '\U{C}' || c == ' ' || c == '\U{A0}' || c == '\U{FEFF}'
    || c == '\U{A}' || c == '\U{D}' || c == '\U{2028}' || c == '\U{2029}'
    || c == '\U{1680}' || ('\U{2000}' <= c <= '\U{200A}') || c == '\U{202F}' || c == '\U{205F}' || c == '\U{3000}'
  }

  function TrimStart(s: string): (r: string)
    ensures |r| <= |s| && r == s[|s| - |r|..]
    ensures r == [] || !IsJsSpace(r[0])
    ensures forall k :: 0 <= k < |s| - |r| ==> IsJsSpace(s[k])
  {
    if s != [] && IsJsSpace(s[0]) then TrimStart(s[1..]) else s
  }

  function TrimEnd(s: string): (r: string)
    ensures |r| <= |s| && r == s[..|r|]
    ensures r == [] || !IsJsSpace(r[|r| - 1])
    ensures forall k :: |r| <= k < |s| ==> IsJsSpace(s[k])
  {
    if s != [] && IsJsSpace(s[|s| - 1]) then TrimEnd(s[..|s| - 1]) else s
  }

  /** `s.trim()` */
  function Trim(s: string): (r: string)
    ensures r == [] || (!IsJsSpace(r[0]) && !IsJsSpace(r[|r| - 1]))
  {
    var t := TrimStart(s);
    var r := TrimEnd(t);
    assert r != [] ==> r[0] == t[0];
    r
  }

  /** The trimmed text is the slice of `s` left after dropping white space
      from both ends: everything before and after it is white space. */
  lemma TrimIsSlice(s: string) returns (i: nat)
    ensures i + |Trim(s)| <= |s| && Trim(s) == s[i..i + |Trim(s)|]
    ensures forall k :: 0 <= k < i ==> IsJsSpace(s[k])
    ensures forall k :: i + |Trim(s)| <= k < |s| ==> IsJsSpace(s[k])
  {
    var t := TrimStart(s);
    i := |s| - |t|;
    var r := TrimEnd(t);
    forall k | i + |r| <= k < |s| ensures IsJsSpace(s[k]) {
      assert s[k] == t[k - i];
    }
  }

  /** The text trims to "" exactly when it is all white space. */
  lemma TrimEmptyIffAllSpace(s: string)
    ensures Trim(s) == [] <==> forall k :: 0 <= k < |s| ==> IsJsSpace(s[k])
  {
    var i := TrimIsSlice(s);
    assert Trim(s) != [] ==> Trim(s)[0] == s[i];
  }

  /** Trimming twice is trimming once. */
  lemma TrimIdempotent(s: string)
    ensures Trim(Trim(s)) == Trim(s)
  {
    var r := Trim(s);
    assert TrimStart(r) == r;
    assert TrimEnd(r) == r;
  }

  // ---------------------------------------------------------------------
  // Number(text) and NaN

  predicate IsDecimalDigit(c: char) { '0' <= c <= '9' }
  predicate IsBinaryDigit(c: char) { c == '0' || c == '1' }
  predicate IsOctalDigit(c: char) { '0' <= c <= '7' }
  predicate IsHexDigit(c: char) { '0' <= c <= '9' || 'a' <= c <= 'f' || 'A' <= c <= 'F' }

  /** One or more digits of the given class. */
  predicate DigitRun(s: string, digit: char -> bool) {
    |s| > 0 && forall k :: 0 <= k < |s| ==> digit(s[k])
  }

  /** The index of the first character satisfying `p`, or |s| when none does. */
  function IndexWhere(s: string, p: char -> bool): (r: nat)
    ensures r <= |s|
    ensures r < |s| ==> p(s[r])
    ensures forall k :: 0 <= k < r ==> !p(s[k])
  {
    if s == [] then 0
    else if p(s[0]) then 0
    else 1 + IndexWhere(s[1..], p)
  }

  /** SignedInteger ::: DecimalDigits | + DecimalDigits | - DecimalDigits */
  predicate SignedInteger(s: string) {
    DigitRun(s, IsDecimalDigit) || (|s| > 1 && (s[0] == '+' || s[0] == '-') && DigitRun(s[1..], IsDecimalDigit))
  }

  /** ExponentPart ::: ExponentIndicator SignedInteger */
  predicate ExponentPart(s: string) {
    |s| > 0 && (s[0] == 'e' || s[0] == 'E') && SignedInteger(s[1..])
  }

  /** The digits-and-point part of StrUnsignedDecimalLiteral:
      `DecimalDigits . DecimalDigits?`, `. DecimalDigits` or `DecimalDigits`. */
  predicate Mantissa(m: string) {
    var d := IndexWhere(m, c => c == '.');
    if d == |m| then DigitRun(m, IsDecimalDigit)
    else
      var whole, fraction := m[..d], m[d + 1..];
      || (DigitRun(whole, IsDecimalDigit) && (fraction == [] || DigitRun(fraction, IsDecimalDigit)))
      || (whole == [] && DigitRun(fraction, IsDecimalDigit))
  }

  /** StrUnsignedDecimalLiteral: `Infinity`, or a mantissa with an optional
      exponent (the exponent letter cannot occur in a mantissa, so the first
      `e` or `E` is where the exponent starts). */
  predicate UnsignedDecimal(s: string) {
    s == "Infinity" ||
    var e := IndexWhere(s, c => c == 'e' || c == 'E');
    Mantissa(s[..e]) && (e == |s| || ExponentPart(s[e..]))
  }

  /** StrDecimalLiteral ::: StrUnsignedDecimalLiteral | + ... | - ... */
  predicate DecimalLiteral(s: string) {
    UnsignedDecimal(s) || (|s| > 0 && (s[0] == '+' || s[0] == '-') && UnsignedDecimal(s[1..]))
  }

  /** NonDecimalIntegerLiteral without separators: 0b…, 0o…, 0x… */
  predicate NonDecimalInteger(s: string) {
    && |s| > 2 && s[0] == '0'
    && (|| ((s[1] == 'b' || s[1] == 'B') && DigitRun(s[2..], IsBinaryDigit))
        || ((s[1] == 'o' || s[1] == 'O') && DigitRun(s[2..], IsOctalDigit))
        || ((s[1] == 'x' || s[1] == 'X') && DigitRun(s[2..], IsHexDigit)))
  }

  /** StrNumericLiteral ::: StrDecimalLiteral | NonDecimalIntegerLiteral */
  predicate NumericLiteral(s: string) {
    DecimalLiteral(s) || NonDecimalInteger(s)
  }

  /** `isNaN(Number(s))`: the text, trimmed, is neither empty (which reads as 0)
      nor a StrNumericLiteral. */
  predicate IsNaNText(s: string) {
    var t := Trim(s);
    t != [] && !NumericLiteral(t)
  }

  /** A run of decimal digits, surrounded by any white space, is a number. */
  lemma DigitsAreNumbers(s: string, i: nat, j: nat)
    requires i <= j <= |s|
    requires forall k :: 0 <= k < i ==> IsJsSpace(s[k])
    requires forall k :: j <= k < |s| ==> IsJsSpace(s[k])
    requires DigitRun(s[i..j], IsDecimalDigit)
    ensures !IsNaNText(s)
    ensures Trim(s) == s[i..j] && i < j
  {
    var d := s[i..j];
    assert d[0] == s[i] && d[|d| - 1] == s[j - 1];
    TrimOfPadded(s, i, j);
    DigitsAreLiteral(d);
  }

  /** A run of decimal digits is a StrUnsignedDecimalLiteral with no point
      and no exponent. */
  lemma DigitsAreLiteral(t: string)
    requires DigitRun(t, IsDecimalDigit)
    ensures UnsignedDecimal(t) && NumericLiteral(t)
  {
    assert IndexWhere(t, c => c == 'e' || c == 'E') == |t|;
    assert IndexWhere(t, c => c == '.') == |t|;
    assert t[..|t|] == t;
  }

  /** Trimming text that is white space around a core with non-space ends
      gives that core. */
  lemma TrimOfPadded(s: string, i: nat, j: nat)
    requires i < j <= |s|
    requires forall k :: 0 <= k < i ==> IsJsSpace(s[k])
    requires forall k :: j <= k < |s| ==> IsJsSpace(s[k])
    requires !IsJsSpace(s[i]) && !IsJsSpace(s[j - 1])
    ensures Trim(s) == s[i..j]
  {
    var n := TrimIsSlice(s);
    var t := Trim(s);
    assert n <= i && j <= n + |t|;
    assert t[0] == s[n] && t[|t| - 1] == s[n + |t| - 1];
  }

  /** Text holding any character that can occur in no numeric literal is NaN. */
  lemma ForeignCharacterIsNaN(s: string, k: nat)
    requires k < |Trim(s)|
    requires !IsHexDigit(Trim(s)[k]) && Trim(s)[k] !in "+-.xXoOInfinity"
    ensures IsNaNText(s)
  {
    var t := Trim(s);
    ForeignCharacterNotInUnsigned(t, k);
    if |t| > 0 && (t[0] == '+' || t[0] == '-') {
      assert k >= 1 && t[k] == t[1..][k - 1];
      ForeignCharacterNotInUnsigned(t[1..], k - 1);
    }
  }

  lemma ForeignCharacterNotInUnsigned(u: string, k: nat)
    requires k < |u| && !IsHexDigit(u[k]) && u[k] !in "+-.xXoOInfinity"
    ensures !UnsignedDecimal(u)
  {
    var e := IndexWhere(u, c => c == 'e' || c == 'E');
    var m := u[..e];
    var d := IndexWhere(m, c => c == '.');
    assert k < e ==> u[k] == m[k];
    assert k < e && k < d ==> m[k] == m[..d][k];
    assert k < e && d < k ==> m[k] == m[d + 1..][k - d - 1];
    assert e < k ==> u[k] == u[e..][1..][k - e - 1];
  }

  /** The empty text is no StrNumericLiteral (it reads as 0 by a separate
      rule of StringToNumber). */
  lemma EmptyNotNumericLiteral()
    ensures !NumericLiteral([])
  {
    assert IndexWhere([], c => c == 'e' || c == 'E') == 0;
    assert !Mantissa([]);
  }

  /** On text that is already trimmed, `!isNaN(Number(t))` for a non-empty
      `t` is exactly the StrNumericLiteral grammar. */
  lemma TrimmedNumberIffLiteral(s: string)
    ensures var t := Trim(s);
      (t != [] && !IsNaNText(t)) <==> NumericLiteral(t)
  {
    TrimIdempotent(s);
    EmptyNotNumericLiteral();
  }
}
