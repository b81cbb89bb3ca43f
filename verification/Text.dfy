// Characters, tokens, decimal numerals and the C library number scanner.

module Text {
  import opened Basics

  // ---------- Characters ----------

  predicate IsSpace(c: char) {
    c == ' ' || c == '\t' || c == '\n' || c == '\r' || c == '\U{0B}' || c == '\U{0C}'
  }

  predicate IsDelimiter(c: char) {
    IsSpace(c) || c == '.' || c == ',' || c == '(' || c == ')' || c == '='
  }

  predicate IsDigit(c: char) {
    '0' <= c <= '9'
  }

  /** The characters that separate tokens: the white space of the C locale, and these five. */
  lemma DelimitersExactly(c: char)
    ensures IsDelimiter(c) <==> c in " \t\n\r\U{0B}\U{0C}.,()="
    ensures IsSpace(c) <==> c in " \t\n\r\U{0B}\U{0C}"
    ensures IsDigit(c) <==> c in "0123456789"
  {}

  ghost predicate Blank(s: string) {
    forall i :: 0 <= i < |s| ==> IsDelimiter(s[i])
  }

  ghost predicate Solid(s: string) {
    forall i :: 0 <= i < |s| ==> !IsDelimiter(s[i])
  }

  /** Nothing of a token can continue into `s`. */
  predicate Breaks(s: string) {
    s == "" || IsDelimiter(s[0])
  }

  /** The C string held by a buffer: everything before the first NUL. */
  function CStr(s: string): (r: string)
    ensures '\0' !in r && r <= s
  {
    if s == "" || s[0] == '\0' then "" else [s[0]] + CStr(s[1..])
  }

  lemma {:induction false} CStrTerminated(s: string, junk: string)
    ensures CStr(s + "\0" + junk) == CStr(s)
    ensures '\0' !in s ==> CStr(s) == s
  {
    if s == "" {
      assert (s + "\0" + junk)[0] == '\0';
    } else {
      assert (s + "\0" + junk)[1..] == s[1..] + "\0" + junk;
      CStrTerminated(s[1..], junk);
    }
  }

  // ---------- Tokens: a pointer into the text is the suffix it points at ----------

  function DropBlank(s: string): (r: string)
    ensures |r| <= |s| && (r != "" ==> !IsDelimiter(r[0]))
  {
    if s != "" && IsDelimiter(s[0]) then DropBlank(s[1..]) else s
  }

  function TokenLen(s: string): (n: nat)
    ensures n <= |s| && (s != "" && !IsDelimiter(s[0]) ==> n > 0)
  {
    if s != "" && !IsDelimiter(s[0]) then 1 + TokenLen(s[1..]) else 0
  }

  /** What is dropped is a prefix of delimiters. */
  lemma {:induction false} DropBlankSplits(s: string) returns (d: string)
    ensures Blank(d) && s == d + DropBlank(s)
  {
    if s != "" && IsDelimiter(s[0]) {
      d := DropBlankSplits(s[1..]);
      d := [s[0]] + d;
    } else {
      d := "";
    }
  }

  /** The length is that of the maximal run of non-delimiters at the front. */
  lemma {:induction false} TokenLenSplits(s: string) returns (t: string, rest: string)
    ensures Solid(t) && Breaks(rest) && |t| == TokenLen(s) && s == t + rest
    ensures t == s[..TokenLen(s)] && rest == s[TokenLen(s)..]
  {
    if s != "" && !IsDelimiter(s[0]) {
      t, rest := TokenLenSplits(s[1..]);
      t := [s[0]] + t;
    } else {
      t, rest := "", s;
    }
  }

  /** The maximal runs of non-delimiters of `s`, in order. */
  function Tokens(s: string): seq<string>
    decreases |s|
  {
    var t := DropBlank(s);
    if t == "" then []
    else
      var n := TokenLen(t);
      [t[..n]] + Tokens(t[n..])
  }

  lemma {:induction false} TokensAreSolid(s: string, i: nat)
    requires i < |Tokens(s)|
    ensures Tokens(s)[i] != "" && Solid(Tokens(s)[i])
    decreases |s|
  {
    var t, rest := TokenLenSplits(DropBlank(s));
    if i > 0 {
      TokensAreSolid(rest, i - 1);
    }
  }

  lemma {:induction false} DropBlankPrefix(d: string, s: string)
    requires Blank(d)
    ensures DropBlank(d + s) == DropBlank(s)
  {
    if d == "" {
      assert d + s == s;
    } else {
      assert (d + s)[1..] == d[1..] + s;
      DropBlankPrefix(d[1..], s);
    }
  }

  lemma {:induction false} TokenLenOf(t: string, s: string)
    requires Solid(t) && Breaks(s)
    ensures TokenLen(t + s) == |t|
  {
    if t == "" {
      assert t + s == s;
    } else {
      assert (t + s)[1..] == t[1..] + s;
      TokenLenOf(t[1..], s);
    }
  }

  /** A token followed by a break is the head of the token list. */
  lemma TokensCons(t: string, s: string)
    requires t != "" && Solid(t) && Breaks(s)
    ensures Tokens(t + s) == [t] + Tokens(s)
  {
    TokenLenOf(t, s);
    assert DropBlank(t + s) == t + s;
    assert (t + s)[..|t|] == t && (t + s)[|t|..] == s;
  }

  lemma TokensDropBlank(s: string)
    ensures Tokens(s) == Tokens(DropBlank(s))
  {
    assert DropBlank(DropBlank(s)) == DropBlank(s);
  }

  lemma TokensBlankPrefix(d: string, s: string)
    requires Blank(d)
    ensures Tokens(d + s) == Tokens(s)
  {
    DropBlankPrefix(d, s);
  }

  /** A text is blank, or has a first token. */
  lemma FirstToken(s: string) returns (lead: string, t: string, rest: string)
    ensures Blank(lead) && Solid(t) && Breaks(rest) && s == lead + (t + rest)
    ensures t == "" ==> s == lead
  {
    lead := DropBlankSplits(s);
    t, rest := TokenLenSplits(DropBlank(s));
  }

  lemma TokensOfBlank(s: string)
    requires Blank(s)
    ensures Tokens(s) == []
  {
    TokensBlankPrefix(s, "");
    assert s + "" == s;
  }

  lemma TokensLeadCons(lead: string, t: string, s: string)
    requires Blank(lead) && t != "" && Solid(t) && Breaks(s)
    ensures Tokens(lead + (t + s)) == [t] + Tokens(s)
  {
    TokensBlankPrefix(lead, t + s);
    TokensCons(t, s);
  }

  /** Text on the two sides of a delimiter run is tokenized independently. */
  lemma {:induction false} TokensSplit(a: string, d: string, b: string)
    requires d != "" && Blank(d)
    ensures Tokens(a + (d + b)) == Tokens(a) + Tokens(b)
    decreases |a|
  {
    var lead, t, rest := FirstToken(a);
    if t == "" {
      TokensOfBlank(a);
      TokensBlankPrefix(a, d + b);
      TokensBlankPrefix(d, b);
    } else {
      TokensSplit(rest, d, b);
      TokensSplitStep(lead, t, rest, d, b);
    }
  }

  lemma TokensSplitStep(lead: string, t: string, rest: string, d: string, b: string)
    requires Blank(lead) && t != "" && Solid(t) && Breaks(rest) && d != "" && Blank(d)
    requires Tokens(rest + (d + b)) == Tokens(rest) + Tokens(b)
    ensures Tokens(lead + (t + rest) + (d + b)) == Tokens(lead + (t + rest)) + Tokens(b)
  {
    Assoc4(lead, t, rest, d + b);
    BreaksMore(rest, d, b);
    TokensLeadCons(lead, t, rest + (d + b));
    TokensLeadCons(lead, t, rest);
    Assoc([t], Tokens(rest), Tokens(b));
  }

  lemma BreaksMore(rest: string, d: string, b: string)
    requires Breaks(rest) && d != "" && Blank(d)
    ensures Breaks(rest + (d + b))
  {
    assert (rest + (d + b))[0] == if rest == "" then d[0] else rest[0];
  }

  /** Replacing a delimiter run by another, or changing leading or trailing runs, keeps the token list. */
  lemma NoiseInvariance(a: string, d: string, d': string, b: string)
    requires Blank(d) && Blank(d')
    requires (d != "" && d' != "") || Tokens(a) == [] || Tokens(b) == []
    ensures Tokens(a + d + b) == Tokens(a + d' + b)
  {
    TokensAround(a, d, b);
    TokensAround(a, d', b);
  }

  lemma TokensAround(a: string, d: string, b: string)
    requires Blank(d)
    requires d != "" || Tokens(a) == [] || Tokens(b) == []
    ensures Tokens(a + d + b) == Tokens(a) + Tokens(b)
  {
    assert a + d + b == a + (d + b);
    if d != "" {
      TokensSplit(a, d, b);
    } else {
      assert d + b == b;
      var lead, t, rest := FirstToken(a);
      var lead', t', rest' := FirstToken(b);
      if t == "" {
        TokensOfBlank(a);
        TokensBlankPrefix(a, b);
      } else {
        TokensLeadCons(lead, t, rest);
        assert t' == "" by {
          if t' != "" {
            TokensLeadCons(lead', t', rest');
          }
        }
        TokensOfBlank(b);
        TokensTrailing(a, b);
      }
    }
  }

  lemma TokensTrailing(a: string, b: string)
    requires Blank(b)
    ensures Tokens(a + b) == Tokens(a)
  {
    if b == "" {
      assert a + b == a;
    } else {
      assert b + "" == b;
      TokensSplit(a, b, "");
      assert Tokens(a) + Tokens("") == Tokens(a);
    }
  }

  // ---------- Decimal numerals ----------

  function Digit(d: int): (c: char)
    requires 0 <= d < 10
    ensures IsDigit(c) && DigitVal(c) == d
  {
    '0' + d as char
  }

  function DigitVal(c: char): nat
    requires IsDigit(c)
  {
    c as int - '0' as int
  }

  function Abs(v: int): nat {
    if v < 0 then -v else v
  }

  function Decimal(n: nat): (s: string)
    ensures s != "" && forall i :: 0 <= i < |s| ==> IsDigit(s[i])
  {
    if n < 10 then [Digit(n)] else Decimal(n / 10) + [Digit(n % 10)]
  }

  /** What `%d` prints. */
  function Numeral(v: int): (s: string)
    ensures s != "" && (v < 0 ==> |s| > 1 && s[0] == '-')
    ensures forall i :: (if v < 0 then 1 else 0) <= i < |s| ==> IsDigit(s[i])
  {
    if v < 0 then "-" + Decimal(Abs(v)) else Decimal(Abs(v))
  }

  lemma {:induction false} DecimalLength(n: nat, k: nat)
    requires n < Pow10(k) && k > 0
    ensures |Decimal(n)| <= k
  {
    if n >= 10 {
      DecimalLength(n / 10, k - 1);
    }
  }

  function Pow10(k: nat): nat {
    if k == 0 then 1 else 10 * Pow10(k - 1)
  }

  lemma NumeralLength(v: int32)
    ensures |Numeral(v)| <= 11
  {
    assert Pow10(10) == 10_000_000_000 by {
      assert Pow10(5) == 100_000;
      assert Pow10(7) == 10_000_000;
      assert Pow10(9) == 1_000_000_000;
    }
    DecimalLength(Abs(v), 10);
  }

  // ---------- strtol ----------

  function DigitRun(s: string): (n: nat)
    ensures n <= |s| && (forall i :: 0 <= i < n ==> IsDigit(s[i]))
    ensures n < |s| ==> !IsDigit(s[n])
  {
    if s != "" && IsDigit(s[0]) then 1 + DigitRun(s[1..]) else 0
  }

  function DigitsValue(s: string): nat
    requires forall i :: 0 <= i < |s| ==> IsDigit(s[i])
  {
    if s == "" then 0
    else DigitsValue(s[..|s| - 1]) * 10 + DigitVal(s[|s| - 1])
  }

  function SpaceRun(s: string): (n: nat)
    ensures n <= |s|
    ensures s != "" && !IsSpace(s[0]) ==> n == 0
  {
    if s != "" && IsSpace(s[0]) then 1 + SpaceRun(s[1..]) else 0
  }

  /** Saturation of a 32-bit `long`. */
  function Saturate(v: int): int32 {
    if v < -0x8000_0000 then -0x8000_0000 else if v > 0x7FFF_FFFF then 0x7FFF_FFFF else v
  }

  /** The value scanned and the number of characters used; nothing is used when there is no number. */
  datatype Scan = Scan(val: int32, used: nat)

  /** `strtol(s, &end, 10)`; `used` is `end - s`. */
  function Strtol(s: string): (r: Scan)
    ensures r.used <= |s|
  {
    var w := SpaceRun(s);
    var signed := w < |s| && (s[w] == '-' || s[w] == '+');
    var start := if signed then w + 1 else w;
    var n := DigitRun(s[start..]);
    if n == 0 then Scan(0, 0)
    else
      var v: int := DigitsValue(s[start..][..n]);
      Scan(Saturate(if signed && s[w] == '-' then -v else v), start + n)
  }

  /** The number itself when 32 bits hold it, else the end of the range that is nearest. */
  lemma SaturateIsNearest(v: int)
    ensures -2147483648 <= v <= 2147483647 ==> Saturate(v) == v
    ensures v < -2147483648 ==> Saturate(v) == -2147483648
    ensures v > 2147483647 ==> Saturate(v) == 2147483647
  {}

  lemma {:induction false} SpaceRunOf(w: string, s: string)
    requires forall i :: 0 <= i < |w| ==> IsSpace(w[i])
    requires s == "" || !IsSpace(s[0])
    ensures SpaceRun(w + s) == |w|
  {
    if w == "" {
      assert w + s == s;
    } else {
      assert (w + s)[1..] == w[1..] + s;
      SpaceRunOf(w[1..], s);
    }
  }

  lemma StrtolShape(t: string, w: nat, sign: string, d: string, s: string)
    requires SpaceRun(t) == w < |t| && w + |sign| <= |t| && sign in {"", "-", "+"}
    requires if sign == "" then t[w] != '-' && t[w] != '+' else t[w] == sign[0]
    requires t[w + |sign|..] == d + s
    requires d != "" && (forall i :: 0 <= i < |d| ==> IsDigit(d[i])) && (s == "" || !IsDigit(s[0]))
    ensures Strtol(t) ==
      Scan(Saturate(if sign == "-" then -(DigitsValue(d) as int) else DigitsValue(d)), w + |sign| + |d|)
  {
    var rest := t[w + |sign|..];
    DigitRunOf(d, s);
    assert DigitRun(rest) == |d| && rest[..|d|] == d;
  }

  lemma ThreeParts(w: string, sign: string, d: string, s: string)
    requires d != ""
    ensures var t := w + (sign + (d + s));
      && t[|w| + |sign|..] == d + s
      && t[|w|] == if sign == "" then d[0] else sign[0]
  {}

  /** White space, at most one sign, and digits are scanned up to the last digit, leading zeros included; the
      value is that of the digits, with the sign, saturated. */
  lemma StrtolScans(w: string, sign: string, d: string, s: string)
    requires forall i :: 0 <= i < |w| ==> IsSpace(w[i])
    requires sign in {"", "-", "+"}
    requires d != "" && (forall i :: 0 <= i < |d| ==> IsDigit(d[i])) && (s == "" || !IsDigit(s[0]))
    ensures Strtol(w + (sign + (d + s))) ==
      Scan(Saturate(if sign == "-" then -(DigitsValue(d) as int) else DigitsValue(d)), |w| + |sign| + |d|)
  {
    var tail := sign + (d + s);
    ThreeParts(w, sign, d, s);
    assert tail[0] == if sign == "" then d[0] else sign[0];
    assert IsDigit(d[0]) && !IsSpace(tail[0]);
    SpaceRunOf(w, tail);
    StrtolShape(w + tail, |w|, sign, d, s);
  }

  /** Where no digit follows the white space and the sign, nothing is scanned. */
  lemma StrtolRejects(w: string, sign: string, s: string)
    requires forall i :: 0 <= i < |w| ==> IsSpace(w[i])
    requires sign in {"", "-", "+"} && (s == "" || !IsDigit(s[0]))
    requires sign == "" ==> s == "" || (!IsSpace(s[0]) && s[0] != '-' && s[0] != '+')
    ensures Strtol(w + (sign + s)) == Scan(0, 0)
  {
    var t := w + (sign + s);
    SpaceRunOf(w, sign + s);
    var start := |w| + |sign|;
    assert t[start..] == s;
    assert sign != "" ==> t[|w|] == sign[0];
    assert sign == "" && s != "" ==> t[|w|] == s[0];
  }

  /** A digit behind digits is worth one, the digits before it ten times as much. */
  lemma DigitsPlaceValue(d: string, n: nat)
    requires forall i :: 0 <= i < |d| ==> IsDigit(d[i])
    requires n < 10
    ensures DigitsValue("") == 0
    ensures DigitsValue(d + ["0123456789"[n]]) == 10 * DigitsValue(d) + n
  {
    assert (d + ["0123456789"[n]])[..|d|] == d;
  }

  lemma {:induction false} DigitRunOf(t: string, s: string)
    requires forall i :: 0 <= i < |t| ==> IsDigit(t[i])
    requires s == "" || !IsDigit(s[0])
    ensures DigitRun(t + s) == |t|
  {
    if t == "" {
      assert t + s == s;
    } else {
      assert (t + s)[1..] == t[1..] + s;
      DigitRunOf(t[1..], s);
    }
  }

  lemma {:induction false} DecimalValue(n: nat)
    ensures DigitsValue(Decimal(n)) == n
  {
    var s := Decimal(n);
    if n < 10 {
      assert s[..|s| - 1] == "";
    } else {
      assert s[..|s| - 1] == Decimal(n / 10);
      DecimalValue(n / 10);
    }
  }

  /** Scanning a printed number gives the number back and stops right behind it. */
  lemma StrtolNumeral(v: int32, s: string)
    requires s == "" || !IsDigit(s[0])
    ensures Strtol(Numeral(v) + s) == Scan(v, |Numeral(v)|)
  {
    var digits, t := Decimal(Abs(v)), Numeral(v) + s;
    DigitRunOf(digits, s);
    DecimalValue(Abs(v));
    assert (digits + s)[..|digits|] == digits;
    var start := if v < 0 then 1 else 0;
    assert t[start..] == digits + s by {
      if v < 0 {
        Assoc("-", digits, s);
      }
    }
    assert SpaceRun(t) == 0;
  }

  /** The scanner never looks past the end of a token. */
  lemma StrtolLocal(t: string, s: string)
    requires t != "" && Solid(t) && Breaks(s)
    ensures Strtol(t + s) == Strtol(t)
  {
    var start := if t[0] == '-' || t[0] == '+' then 1 else 0;
    assert (t + s)[start..] == t[start..] + s;
    DigitRunLocal(t[start..], s);
    var n := DigitRun(t[start..]);
    assert (t + s)[start..][..n] == t[start..][..n];
  }

  lemma BreakIsNotDigit(s: string)
    requires Breaks(s)
    ensures s == "" || !IsDigit(s[0])
    ensures DigitRun(s) == 0
  {}

  lemma {:induction false} DigitRunLocal(t: string, s: string)
    requires Breaks(s)
    ensures DigitRun(t + s) == DigitRun(t)
  {
    if t == "" {
      assert t + s == s;
      BreakIsNotDigit(s);
    } else {
      assert (t + s)[1..] == t[1..] + s;
      DigitRunLocal(t[1..], s);
    }
  }
}
