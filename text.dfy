/** Strings as the engine sees them: a password is a sequence of UTF-16 code
    units (JavaScript's `length`, indexing and non-`u` regular expressions all
    work on code units), and the character classes the engine's regular
    expressions test for. */
module Text {

  /** One UTF-16 code unit. */
  newtype CodeUnit = x: int | 0 <= x < 0x1_0000

  type Password = seq<CodeUnit>

  /** `[A-Z]` */
  predicate IsUpper(c: CodeUnit) { 0x41 <= c <= 0x5A }

  /** `[a-z]` */
  predicate IsLower(c: CodeUnit) { 0x61 <= c <= 0x7A }

  /** `[0-9]` */
  predicate IsDigit(c: CodeUnit) { 0x30 <= c <= 0x39 }

  /** `[a-zA-Z]` */
  predicate IsLetter(c: CodeUnit) { IsUpper(c) || IsLower(c) }

  /** `[^A-Za-z0-9]`: everything that is not an ASCII letter or digit. */
  predicate IsSymbol(c: CodeUnit) { !IsLetter(c) && !IsDigit(c) }

  /** `[^\x00-\x7F]` */
  predicate IsNonAscii(c: CodeUnit) { c > 0x7F }

  /** The code units `.` does not match: LF, CR, LINE SEPARATOR, PARAGRAPH SEPARATOR. */
  predicate IsLineTerminator(c: CodeUnit)
  {
    c == 0x0A || c == 0x0D || c == 0x2028 || c == 0x2029
  }

  /** `/[A-Z]/.test(p)` and its siblings: some code unit of the class occurs. */
  predicate HasUpper(p: Password) { exists i :: 0 <= i < |p| && IsUpper(p[i]) }
  predicate HasLower(p: Password) { exists i :: 0 <= i < |p| && IsLower(p[i]) }
  predicate HasDigit(p: Password) { exists i :: 0 <= i < |p| && IsDigit(p[i]) }
  predicate HasSymbol(p: Password) { exists i :: 0 <= i < |p| && IsSymbol(p[i]) }
  predicate HasNonAscii(p: Password) { exists i :: 0 <= i < |p| && IsNonAscii(p[i]) }

  /** `/^[a-zA-Z]+$/.test(p)` */
  predicate AllLetters(p: Password)
  {
    |p| > 0 && forall i :: 0 <= i < |p| ==> IsLetter(p[i])
  }

  /** `/^[0-9]+$/.test(p)` */
  predicate AllDigits(p: Password)
  {
    |p| > 0 && forall i :: 0 <= i < |p| ==> IsDigit(p[i])
  }

  /** Every code unit falls in one of the four classes the pool size counts. */
  lemma SomeClassPresent(p: Password)
    requires |p| > 0
    ensures HasLower(p) || HasUpper(p) || HasDigit(p) || HasSymbol(p)
  {
    assert IsLower(p[0]) || IsUpper(p[0]) || IsDigit(p[0]) || IsSymbol(p[0]);
  }

  /** A non-ASCII code unit is also a symbol, so the 100-unit pool never comes alone. */
  lemma NonAsciiIsSymbol(p: Password)
    requires HasNonAscii(p)
    ensures HasSymbol(p)
  {
    var i :| 0 <= i < |p| && IsNonAscii(p[i]);
    assert IsSymbol(p[i]);
  }

  /** ASCII case folding, which is what `/i` does for the ASCII patterns the
      engine uses (without the `u` flag a non-ASCII code unit never folds onto
      an ASCII letter). */
  function FoldCase(c: CodeUnit): (f: CodeUnit)
    ensures !IsUpper(f)
    ensures IsLower(c) || IsUpper(c) <==> IsLower(f)
  {
    if IsUpper(c) then c + 0x20 else c
  }

  /** `/^(word)/i.test(p)` for an ASCII lower-case `word`. */
  predicate StartsWithIgnoringCase(p: Password, word: string)
  {
    |word| <= |p|
    && (word == [] || (FoldCase(p[0]) as int == word[0] as int && StartsWithIgnoringCase(p[1..], word[1..])))
  }

  /** The code units of a string whose characters all lie in the Basic
      Multilingual Plane (used to state the examples). */
  function FromString(s: string): (p: Password)
    requires forall i :: 0 <= i < |s| ==> s[i] as int < 0x1_0000
    ensures |p| == |s| && forall i :: 0 <= i < |s| ==> p[i] as int == s[i] as int
  {
    seq(|s|, i requires 0 <= i < |s| => s[i] as int as CodeUnit)
  }

  /** Decimal digits of a natural number, as JavaScript prints an integer below 1e21. */
  function NatToString(n: nat): (s: string)
    ensures |s| >= 1
    ensures forall i :: 0 <= i < |s| ==> '0' <= s[i] <= '9'
    ensures s[0] == '0' ==> n == 0
    decreases n
  {
    if n < 10 then [DigitChar(n)] else NatToString(n / 10) + [DigitChar(n % 10)]
  }

  function DigitChar(d: nat): (c: char)
    requires d < 10
    ensures '0' <= c <= '9' && c as int - '0' as int == d
  {
    "0123456789"[d]
  }

  /** The value a string of decimal digits denotes. */
  function DecimalValue(s: string): nat
    requires forall i :: 0 <= i < |s| ==> '0' <= s[i] <= '9'
  {
    if s == [] then 0 else 10 * DecimalValue(s[..|s| - 1]) + (s[|s| - 1] as int - '0' as int)
  }

  /** Printing a count and reading it back gives the count. */
  lemma {:induction false} NatToStringRoundTrip(n: nat)
    ensures DecimalValue(NatToString(n)) == n
    decreases n
  {
    var s := NatToString(n);
    if n >= 10 {
      NatToStringRoundTrip(n / 10);
      assert s[..|s| - 1] == NatToString(n / 10);
    }
  }

  /** `Array.prototype.join(sep)` over strings: the parts, one separator
      between each two neighbours and none at either end. */
  function Join(xs: seq<string>, sep: string): (s: string)
    ensures |xs| > 0 ==> |s| == TotalLength(xs) + (|xs| - 1) * |sep|
    ensures |xs| > 0 ==> s[..|xs[0]|] == xs[0]
  {
    if |xs| == 0 then "" else if |xs| == 1 then xs[0] else xs[0] + sep + Join(xs[1..], sep)
  }

  /** The summed lengths of the parts. */
  function TotalLength(xs: seq<string>): nat
  {
    if |xs| == 0 then 0 else |xs[0]| + TotalLength(xs[1..])
  }
}
