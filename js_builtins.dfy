/** The JavaScript built-ins that the form's validation relies on, over a
    simplified number grammar: String.prototype.indexOf and substring,
    whitespace trimming, parseFloat, Number, Math.abs and the `>` comparison.

    Numbers are exact reals or NaN. The decimal grammar is
      [sign] digits [ '.' [digits] ]   |   [sign] '.' digits
    which is ECMAScript's StrDecimalLiteral without exponents and Infinity. */
module JsBuiltins {

  /** A JavaScript number as far as the validation needs one. */
  datatype Num = NaN | Finite(value: real)

  predicate IsDigit(c: char) { '0' <= c <= '9' }

  predicate IsSign(c: char) { c == '+' || c == '-' }

  /** ECMAScript's StrWhiteSpaceChar: WhiteSpace (including the Zs space
      separators) and LineTerminator. '\t'..'\r' are TAB, LF, VT, FF and CR. */
  predicate IsWhiteSpace(c: char) {
    c == ' ' || ('\t' <= c <= '\r') || ('\U{00A0}' <= c && IsWideWhiteSpace(c))
  }

  /** The whitespace characters at U+00A0 and above. */
  predicate IsWideWhiteSpace(c: char) {
    c == '\U{00A0}' || c == '\U{1680}' || ('\U{2000}' <= c <= '\U{200A}')
    || c == '\U{2028}' || c == '\U{2029}' || c == '\U{202F}' || c == '\U{205F}'
    || c == '\U{3000}' || c == '\U{FEFF}'
  }

  predicate AllDigits(s: string) {
    forall i :: 0 <= i < |s| ==> IsDigit(s[i])
  }

  predicate AllWhiteSpace(s: string) {
    forall i :: 0 <= i < |s| ==> IsWhiteSpace(s[i])
  }

  // ---------------------------------------------------------------------
  // Strings

  /** String.prototype.indexOf for a single character: the first position
      of c in s, or -1 when there is none. */
  function IndexOf(s: string, c: char): (r: int)
    ensures -1 <= r < |s|
    ensures r == -1 <==> c !in s
    ensures 0 <= r ==> s[r] == c && c !in s[..r]
  {
    if s == [] then -1
    else if s[0] == c then 0
    else
      var r := IndexOf(s[1..], c);
      if r < 0 then -1 else r + 1
  }

  /** Clamps an index into 0..len, as substring does with its arguments. */
  function Clamp(x: int, len: nat): (r: nat)
    ensures r <= len
    ensures 0 <= x <= len ==> r == x
  {
    if x < 0 then 0 else if x > len then len else x
  }

  /** String.prototype.substring(start, end): both arguments are clamped to
      0..|s| and swapped when start exceeds end. */
  function Substring(s: string, start: int, end: int): (r: string)
    ensures 0 <= start <= end <= |s| ==> r == s[start..end]
    ensures start <= 0 && |s| <= end ==> r == s
  {
    var a := Clamp(start, |s|);
    var b := Clamp(end, |s|);
    if a <= b then s[a..b] else s[b..a]
  }

  /** The input with its leading whitespace removed (TrimStartSplits states
      this). */
  function TrimStart(s: string): string {
    if s != [] && IsWhiteSpace(s[0]) then TrimStart(s[1..]) else s
  }

  /** The input with its trailing whitespace removed (TrimEndSplits states
      this). */
  function TrimEnd(s: string): string {
    if s != [] && IsWhiteSpace(s[|s| - 1]) then TrimEnd(s[..|s| - 1]) else s
  }

  function Trim(s: string): string {
    TrimEnd(TrimStart(s))
  }

  // ---------------------------------------------------------------------
  // Decimal literals

  function DigitValue(c: char): nat
    requires IsDigit(c)
  {
    c as int - '0' as int
  }

  /** The value of a string of decimal digits (0 for the empty string). */
  function DigitsValue(ds: string): nat
    requires AllDigits(ds)
  {
    if ds == [] then 0 else DigitsValue(ds[..|ds| - 1]) * 10 + DigitValue(ds[|ds| - 1])
  }

  /** The value of the digits after a decimal point: 0.d1d2... */
  function FractionValue(ds: string): (r: real)
    requires AllDigits(ds)
    ensures 0.0 <= r < 1.0
  {
    if ds == [] then 0.0 else (DigitValue(ds[0]) as real + FractionValue(ds[1..])) / 10.0
  }

  /** A literal without its optional leading sign. */
  function Unsigned(t: string): string {
    if t != [] && IsSign(t[0]) then t[1..] else t
  }

  /** 1 when the literal starts with a sign, 0 otherwise. */
  function SignLength(t: string): nat {
    if t != [] && IsSign(t[0]) then 1 else 0
  }

  /** Digits, optionally followed by '.' and more digits, with at least one
      digit in all. */
  predicate IsUnsignedDecimal(u: string) {
    var d := IndexOf(u, '.');
    if d < 0 then u != [] && AllDigits(u)
    else AllDigits(u[..d]) && AllDigits(u[d + 1..]) && |u| > 1
  }

  predicate IsDecimalLiteral(t: string) {
    IsUnsignedDecimal(Unsigned(t))
  }

  function UnsignedValue(u: string): real
    requires IsUnsignedDecimal(u)
  {
    var d := IndexOf(u, '.');
    if d < 0 then DigitsValue(u) as real
    else DigitsValue(u[..d]) as real + FractionValue(u[d + 1..])
  }

  /** The exact value a decimal literal denotes. */
  function DecimalValue(t: string): real
    requires IsDecimalLiteral(t)
  {
    if t != [] && t[0] == '-' then -UnsignedValue(Unsigned(t)) else UnsignedValue(Unsigned(t))
  }

  /** The number of consecutive digits of t from index i on. */
  function DigitRun(t: string, i: nat): (n: nat)
    requires i <= |t|
    ensures i + n <= |t|
    ensures forall j :: i <= j < i + n ==> IsDigit(t[j])
    ensures i + n < |t| ==> !IsDigit(t[i + n])
    decreases |t| - i
  {
    if i < |t| && IsDigit(t[i]) then 1 + DigitRun(t, i + 1) else 0
  }

  /** The length of the longest prefix of t that is a decimal literal, or 0
      when no prefix is one (LongestLiteralIsLongest states this). */
  function LongestLiteral(t: string): nat {
    var sign := SignLength(t);
    var n1 := DigitRun(t, sign);
    var p := sign + n1;
    if p < |t| && t[p] == '.' then
      var n2 := DigitRun(t, p + 1);
      if n1 + n2 > 0 then p + 1 + n2 else 0
    else if n1 > 0 then p
    else 0
  }

  // ---------------------------------------------------------------------
  // The conversions

  /** parseFloat: skip leading whitespace, then read the longest prefix that
      is a decimal literal; NaN when there is none. */
  function ParseFloat(s: string): Num {
    var t := TrimStart(s);
    var n := LongestLiteral(t);
    if n == 0 then NaN
    else
      LiteralPrefix(t);
      Finite(DecimalValue(t[..n]))
  }

  /** Number applied to a string (as Math.abs does to its argument): the whole
      string, less surrounding whitespace, must be a literal; a blank string
      is 0. */
  function ToNumber(s: string): Num {
    var t := Trim(s);
    if t == [] then Finite(0.0)
    else if IsDecimalLiteral(t) then Finite(DecimalValue(t))
    else NaN
  }

  /** Math.abs; NaN stays NaN. */
  function Abs(x: Num): Num {
    match x
    case NaN => NaN
    case Finite(v) => Finite(if v < 0.0 then -v else v)
  }

  /** The `>` comparison of a number with a bound: false whenever x is NaN. */
  predicate GreaterThan(x: Num, bound: real) {
    x.Finite? && x.value > bound
  }

  // ---------------------------------------------------------------------
  // Properties

  /** TrimStart removes a run of whitespace from the front and stops at the
      first character that is not whitespace. */
  lemma TrimStartSplits(s: string)
    ensures |TrimStart(s)| <= |s| && TrimStart(s) == s[|s| - |TrimStart(s)|..]
    ensures AllWhiteSpace(s[..|s| - |TrimStart(s)|])
    ensures TrimStart(s) != [] ==> !IsWhiteSpace(TrimStart(s)[0])
  {
    TrimStartIsSuffix(s);
    TrimStartDropsBlank(s);
    TrimStartStops(s);
  }

  lemma {:induction false} TrimStartIsSuffix(s: string)
    ensures |TrimStart(s)| <= |s| && TrimStart(s) == s[|s| - |TrimStart(s)|..]
  {
    if s != [] && IsWhiteSpace(s[0]) {
      TrimStartIsSuffix(s[1..]);
      var k := |s| - |TrimStart(s[1..])|;
      assert s[1..][k - 1..] == s[k..];
    }
  }

  lemma {:induction false} TrimStartDropsBlank(s: string)
    ensures |TrimStart(s)| <= |s| && AllWhiteSpace(s[..|s| - |TrimStart(s)|])
  {
    if s != [] && IsWhiteSpace(s[0]) {
      TrimStartDropsBlank(s[1..]);
      var k := |s| - |TrimStart(s[1..])|;
      assert s[..k] == [s[0]] + s[1..][..k - 1];
      WhiteSpaceCons(s[0], s[1..][..k - 1]);
    } else {
      assert s[..0] == [];
    }
  }

  lemma {:induction false} TrimStartStops(s: string)
    ensures TrimStart(s) != [] ==> !IsWhiteSpace(TrimStart(s)[0])
  {
    if s != [] && IsWhiteSpace(s[0]) {
      TrimStartStops(s[1..]);
    }
  }

  lemma WhiteSpaceCons(c: char, w: string)
    requires IsWhiteSpace(c) && AllWhiteSpace(w)
    ensures AllWhiteSpace([c] + w)
  {
    forall i | 0 <= i < |[c] + w|
      ensures IsWhiteSpace(([c] + w)[i])
    {
      if i > 0 {
        assert ([c] + w)[i] == w[i - 1];
      }
    }
  }

  /** TrimEnd removes a run of whitespace from the back and stops at the last
      character that is not whitespace. */
  lemma {:induction false} TrimEndSplits(s: string)
    ensures |TrimEnd(s)| <= |s| && TrimEnd(s) == s[..|TrimEnd(s)|]
    ensures AllWhiteSpace(s[|TrimEnd(s)|..])
    ensures TrimEnd(s) != [] ==> !IsWhiteSpace(TrimEnd(s)[|TrimEnd(s)| - 1])
  {
    if s != [] && IsWhiteSpace(s[|s| - 1]) {
      var s' := s[..|s| - 1];
      var r := TrimEnd(s');
      TrimEndSplits(s');
      var k := |r|;
      assert s'[..k] == s[..k];
      forall j | 0 <= j < |s| - k
        ensures IsWhiteSpace(s[k..][j])
      {
        if j < |s| - 1 - k {
          assert s[k..][j] == s'[k..][j];
        }
      }
    }
  }

  /** After its first character a decimal literal holds only digits and '.'. */
  lemma {:induction false} LiteralTail(w: string, i: nat)
    requires IsDecimalLiteral(w)
    requires 0 < i < |w|
    ensures IsDigit(w[i]) || w[i] == '.'
  {
    var u := Unsigned(w);
    var off := |w| - |u|;
    assert u == w[off..];
    assert off <= i;
    var d := IndexOf(u, '.');
    var j := i - off;
    assert u[j] == w[i];
    if d < 0 {
      assert IsDigit(u[j]);
    } else if j < d {
      assert u[..d][j] == u[j];
    } else if j > d {
      assert u[d + 1..][j - d - 1] == u[j];
    }
  }

  /** A decimal literal starts with a sign, a digit or '.', so never with
      whitespace. */
  lemma LiteralHead(w: string)
    requires IsDecimalLiteral(w)
    ensures w != [] && (IsSign(w[0]) || IsDigit(w[0]) || w[0] == '.')
  {
    var u := Unsigned(w);
    if !(w != [] && IsSign(w[0])) {
      assert u == w;
      var d := IndexOf(u, '.');
      if d > 0 {
        assert u[..d][0] == u[0];
      }
    }
  }

  /** The first '.' of u is at d. */
  lemma FirstDot(u: string, d: nat)
    requires d < |u| && u[d] == '.' && '.' !in u[..d]
    ensures IndexOf(u, '.') == d
  {
    assert u[d] in u;
  }

  lemma DigitsHaveNoDot(x: string)
    requires AllDigits(x)
    ensures '.' !in x
  {
  }

  /** A character other than a digit or '.' rules out a literal. */
  lemma StrayChar(u: string, j: nat)
    requires j < |u| && !IsDigit(u[j]) && u[j] != '.'
    ensures !IsUnsignedDecimal(u)
  {
    var d := IndexOf(u, '.');
    if d >= 0 {
      if j < d {
        assert u[..d][j] == u[j];
      } else {
        assert u[d + 1..][j - d - 1] == u[j];
      }
    }
  }

  /** A second '.' rules out a literal. */
  lemma SecondDot(u: string, i: nat, j: nat)
    requires i < j < |u| && u[i] == '.' && u[j] == '.'
    ensures !IsUnsignedDecimal(u)
  {
    assert u[i] in u;
    var d := IndexOf(u, '.');
    assert u[d + 1..][j - d - 1] == '.';
  }

  lemma UnsignedOfPrefix(t: string, k: nat)
    requires 1 <= k <= |t|
    ensures Unsigned(t[..k]) == t[SignLength(t)..k]
  {
  }

  /** LongestLiteral is the length of a literal prefix and no longer prefix
      is a literal. */
  lemma LongestLiteralIsLongest(t: string)
    ensures LongestLiteral(t) <= |t|
    ensures LongestLiteral(t) > 0 ==> IsDecimalLiteral(t[..LongestLiteral(t)])
    ensures forall k :: LongestLiteral(t) < k <= |t| ==> !IsDecimalLiteral(t[..k])
  {
    var n := LongestLiteral(t);
    if n > 0 {
      LiteralPrefix(t);
    }
    forall k | n < k <= |t|
      ensures !IsDecimalLiteral(t[..k])
    {
      NotLiteralBeyond(t, k);
    }
  }

  lemma LiteralPrefix(t: string)
    requires LongestLiteral(t) > 0
    ensures LongestLiteral(t) <= |t|
    ensures IsDecimalLiteral(t[..LongestLiteral(t)])
  {
    var n := LongestLiteral(t);
    var sign := SignLength(t);
    var n1 := DigitRun(t, sign);
    var p := sign + n1;
    UnsignedOfPrefix(t, n);
    var u := t[sign..n];
    assert u[..n1] == t[sign..p];
    if p < |t| && t[p] == '.' {
      var n2 := DigitRun(t, p + 1);
      assert u[n1 + 1..] == t[p + 1..p + 1 + n2];
      DottedIsUnsigned(u, n1);
    } else {
      DigitsAreUnsigned(u);
    }
  }

  lemma DottedIsUnsigned(u: string, d: nat)
    requires d < |u| && u[d] == '.' && |u| > 1
    requires AllDigits(u[..d]) && AllDigits(u[d + 1..])
    ensures IsUnsignedDecimal(u)
  {
    DigitsHaveNoDot(u[..d]);
    FirstDot(u, d);
  }

  lemma DigitsAreUnsigned(u: string)
    requires u != [] && AllDigits(u)
    ensures IsUnsignedDecimal(u)
  {
    DigitsHaveNoDot(u);
  }

  lemma NotLiteralBeyond(t: string, k: nat)
    requires LongestLiteral(t) < k <= |t|
    ensures !IsDecimalLiteral(t[..k])
  {
    var sign := SignLength(t);
    var n1 := DigitRun(t, sign);
    var p := sign + n1;
    UnsignedOfPrefix(t, k);
    var u := t[sign..k];
    if |u| == 0 {
    } else if p < |t| && t[p] == '.' {
      var n2 := DigitRun(t, p + 1);
      assert u[n1] == '.';
      if n1 + 1 + n2 < |u| {
        assert u[n1 + 1 + n2] == t[p + 1 + n2];
      }
      DotThenStop(u, n1, n2);
    } else if n1 < |u| {
      assert u[n1] == t[p];
      StrayChar(u, n1);
    }
  }

  /** Digits, a '.', n2 digits and then a character that is not a digit (or
      the end, when there are no digits at all) do not make a literal. */
  lemma DotThenStop(u: string, n1: nat, n2: nat)
    requires n1 < |u| && u[n1] == '.'
    requires n1 + 1 + n2 <= |u|
    requires n1 + 1 + n2 < |u| ==> !IsDigit(u[n1 + 1 + n2])
    requires n1 + n2 > 0 ==> n1 + 1 + n2 < |u|
    ensures !IsUnsignedDecimal(u)
  {
    var j := n1 + 1 + n2;
    if j < |u| {
      if u[j] == '.' {
        SecondDot(u, n1, j);
      } else {
        StrayChar(u, j);
      }
    } else {
      FirstDot(u, 0);
    }
  }

  lemma {:induction false} TrimStartOfBlankPrefix(ws: string, r: string)
    requires AllWhiteSpace(ws)
    requires r != [] && !IsWhiteSpace(r[0])
    ensures TrimStart(ws + r) == r
  {
    if ws != [] {
      assert (ws + r)[1..] == ws[1..] + r;
      TrimStartOfBlankPrefix(ws[1..], r);
    } else {
      assert ws + r == r;
    }
  }

  /** A literal followed by a character that cannot extend it is the
      longest literal prefix. */
  lemma LongestLiteralStops(lit: string, rest: string)
    requires IsDecimalLiteral(lit)
    requires rest != [] ==> !IsDigit(rest[0]) && rest[0] != '.'
    ensures LongestLiteral(lit + rest) == |lit|
  {
    var t := lit + rest;
    LongestLiteralIsLongest(t);
    var n := LongestLiteral(t);
    assert t[..|lit|] == lit;
    if n > |lit| {
      LiteralTail(t[..n], |lit|);
    }
  }

  /** parseFloat reads a literal that is preceded only by whitespace and
      followed by anything that cannot extend it. */
  lemma ParseFloatReadsLiteral(ws: string, lit: string, rest: string)
    requires AllWhiteSpace(ws)
    requires IsDecimalLiteral(lit)
    requires rest != [] ==> !IsDigit(rest[0]) && rest[0] != '.'
    ensures ParseFloat(ws + lit + rest) == Finite(DecimalValue(lit))
  {
    var t := lit + rest;
    LiteralHead(lit);
    assert t[0] == lit[0];
    TrimStartOfBlankPrefix(ws, t);
    ConcatAssociates(ws, lit, rest);
    LongestLiteralStops(lit, rest);
    assert t[..|lit|] == lit;
  }

  lemma ConcatAssociates(a: string, b: string, c: string)
    ensures a + b + c == a + (b + c)
  {
  }

  lemma SplitAt(s: string, i: nat)
    requires i <= |s|
    ensures s[..i] + s[i..] == s
  {
  }

  /** A literal has no surrounding whitespace to trim. */
  lemma TrimLiteral(lit: string)
    requires IsDecimalLiteral(lit)
    ensures TrimStart(lit) == lit && Trim(lit) == lit
  {
    LiteralHead(lit);
    assert !IsWhiteSpace(lit[0]);
    TrimStartKeeps(lit);
    if |lit| > 1 {
      LiteralTail(lit, |lit| - 1);
    }
    assert !IsWhiteSpace(lit[|lit| - 1]);
    TrimEndKeeps(lit);
  }

  lemma TrimStartKeeps(s: string)
    requires s != [] && !IsWhiteSpace(s[0])
    ensures TrimStart(s) == s
  {
  }

  lemma TrimEndKeeps(s: string)
    requires s != [] && !IsWhiteSpace(s[|s| - 1])
    ensures TrimEnd(s) == s
  {
  }

  /** A literal standing alone is read whole by both conversions. */
  lemma ConversionsOfLiteral(lit: string)
    requires IsDecimalLiteral(lit)
    ensures ParseFloat(lit) == Finite(DecimalValue(lit))
    ensures ToNumber(lit) == Finite(DecimalValue(lit))
  {
    TrimLiteral(lit);
    LongestLiteralStops(lit, []);
    assert lit + [] == lit;
  }

  /** A string is its leading whitespace, its trimmed text and its trailing
      whitespace. */
  lemma TrimSplits(s: string) returns (ws: string, rest: string)
    ensures AllWhiteSpace(ws) && AllWhiteSpace(rest)
    ensures s == ws + Trim(s) + rest
  {
    var t := TrimStart(s);
    var lit := TrimEnd(t);
    TrimStartSplits(s);
    TrimEndSplits(t);
    ws := s[..|s| - |t|];
    rest := t[|lit|..];
    SplitAt(s, |s| - |t|);
    SplitAt(t, |lit|);
    ConcatAssociates(ws, lit, rest);
  }

  lemma NumberOfNonBlank(s: string)
    requires Trim(s) != []
    requires ToNumber(s).Finite?
    ensures IsDecimalLiteral(Trim(s))
    ensures ToNumber(s) == Finite(DecimalValue(Trim(s)))
  {
  }

  /** Number is stricter than parseFloat: whenever Number gives a value for a
      non-blank string, parseFloat gives the same value. */
  lemma NumberAgreesWithParseFloat(s: string)
    requires Trim(s) != []
    requires ToNumber(s).Finite?
    ensures ParseFloat(s) == ToNumber(s)
  {
    NumberOfNonBlank(s);
    var ws, rest := TrimSplits(s);
    if rest != [] {
      assert IsWhiteSpace(rest[0]);
    }
    ParseFloatReadsLiteral(ws, Trim(s), rest);
  }
}
