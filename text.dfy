/**
 * The JavaScript string and number conversions the application relies on:
 * `trim`, `join`, number-to-decimal-text, the prefix parsers `parseInt` and
 * `parseFloat`, and `encodeURIComponent`.  Strings are sequences of Unicode
 * scalar values.
 */
module Text {

  /** An optional value; `None` stands for JavaScript's `undefined`/`NaN`. */
  datatype Option<T> = None | Some(value: T) {
    /** `value || fallback` for a value that is either present or undefined. */
    function GetOr(fallback: T): T
    {
      if Some? then value else fallback
    }
  }

  /** A JavaScript number as the parsers can produce it. */
  datatype Float = Finite(value: real) | Infinity(negative: bool) | NaN

  // ---------------------------------------------------------------------
  // Whitespace and trimming
  // ---------------------------------------------------------------------

  /** The characters JavaScript's `trim` removes: white space and line terminators. */
  predicate IsWhitespace(c: char)
  {
    c == '\t' || c == '\n' || c == '\U{B}' || c == '\U{C}' || c == '\r' || c == ' '
    || c == '\U{A0}' || c == '\U{1680}' || ('\U{2000}' <= c <= '\U{200A}')
    || c == '\U{2028}' || c == '\U{2029}' || c == '\U{202F}' || c == '\U{205F}'
    || c == '\U{3000}' || c == '\U{FEFF}'
  }

  ghost predicate AllWhitespace(s: string)
  {
    forall i :: 0 <= i < |s| ==> IsWhitespace(s[i])
  }

  /** The number of white-space characters `s` starts with. */
  function LeadingSpace(s: string): (k: nat)
    ensures k <= |s|
    ensures forall i :: 0 <= i < k ==> IsWhitespace(s[i])
    ensures k == |s| || !IsWhitespace(s[k])
  {
    if s != [] && IsWhitespace(s[0]) then
      var k := 1 + LeadingSpace(s[1..]);
      assert forall i :: 1 <= i < k ==> s[i] == s[1..][i - 1];
      k
    else 0
  }

  /** The number of white-space characters `s` ends with. */
  function TrailingSpace(s: string): (k: nat)
    ensures k <= |s|
    ensures forall i :: |s| - k <= i < |s| ==> IsWhitespace(s[i])
    ensures k == |s| || !IsWhitespace(s[|s| - k - 1])
  {
    if s != [] && IsWhitespace(s[|s| - 1]) then
      var k := 1 + TrailingSpace(s[..|s| - 1]);
      assert forall i :: |s| - k <= i < |s| - 1 ==> s[i] == s[..|s| - 1][i];
      k
    else 0
  }

  /** `s.trimStart()`: drops the leading white space and nothing else. */
  function TrimStart(s: string): (r: string)
    ensures |r| <= |s| && r == s[|s| - |r|..]
    ensures r == [] || !IsWhitespace(r[0])
  {
    s[LeadingSpace(s)..]
  }

  /** `s.trimEnd()`: drops the trailing white space and nothing else. */
  function TrimEnd(s: string): (r: string)
    ensures |r| <= |s| && r == s[..|r|]
    ensures r == [] || !IsWhitespace(r[|r| - 1])
  {
    s[..|s| - TrailingSpace(s)]
  }

  /** `s.trim()`. */
  function Trim(s: string): (r: string)
    ensures |r| <= |s|
    ensures r == [] || (!IsWhitespace(r[0]) && !IsWhitespace(r[|r| - 1]))
  {
    TrimEnd(TrimStart(s))
  }

  /** Text that does not start with white space is left alone by `trimStart`. */
  lemma TrimStartNoop(s: string)
    requires s == [] || !IsWhitespace(s[0])
    ensures TrimStart(s) == s
  {
    assert LeadingSpace(s) == 0;
  }

  /** Trimming a trimmed string changes nothing. */
  lemma TrimIdempotent(s: string)
    ensures Trim(Trim(s)) == Trim(s)
  {
    var t := Trim(s);
    assert LeadingSpace(t) == 0;
    assert TrimStart(t) == t;
    assert TrailingSpace(t) == 0;
  }

  /** `trim` keeps the characters between the leading and the trailing white space. */
  lemma TrimBounds(s: string)
    ensures LeadingSpace(s) + |Trim(s)| <= |s|
    ensures Trim(s) == s[LeadingSpace(s)..LeadingSpace(s) + |Trim(s)|]
  {
    var i := LeadingSpace(s);
    var t := s[i..];
    assert TrimStart(s) == t;
  }

  /** The bounds of `trim()`: white space before `i` and from `j` on, and `s[i..j]` kept. */
  lemma TrimSpan(s: string) returns (i: nat, j: nat)
    ensures i <= j <= |s| && Trim(s) == s[i..j]
    ensures forall k :: 0 <= k < i ==> IsWhitespace(s[k])
    ensures forall k :: j <= k < |s| ==> IsWhitespace(s[k])
  {
    i := LeadingSpace(s);
    var t := s[i..];
    var n := TrailingSpace(t);
    j := |s| - n;
    assert Trim(s) == t[..|t| - n];
    assert t[..|t| - n] == s[i..j];
    forall k | j <= k < |s| ensures IsWhitespace(s[k]) {
      assert s[k] == t[k - i];
    }
  }

  /** Trimming removes only white space at the two ends: the result is a slice of `s`. */
  lemma TrimIsSlice(s: string)
    ensures exists i :: (0 <= i <= i + |Trim(s)| <= |s| && Trim(s) == s[i..i + |Trim(s)|]
                         && AllWhitespace(s[..i]) && AllWhitespace(s[i + |Trim(s)|..]))
  {
    TrimBounds(s);
    var i := LeadingSpace(s);
    var t := s[i..];
    var n := TrailingSpace(t);
    assert Trim(s) == t[..|t| - n];
    var w := s[i + |Trim(s)|..];
    forall k | 0 <= k < |w| ensures IsWhitespace(w[k]) {
      assert w[k] == t[|t| - n + k];
    }
    assert AllWhitespace(s[..i]) && AllWhitespace(w);
    assert 0 <= i <= i + |Trim(s)| <= |s| && Trim(s) == s[i..i + |Trim(s)|]
      && AllWhitespace(s[..i]) && AllWhitespace(s[i + |Trim(s)|..]);
  }

  /** `parts.join(sep)`. */
  function Join(parts: seq<string>, sep: string): (r: string)
    ensures |parts| == 1 ==> r == parts[0]
  {
    if parts == [] then ""
    else if |parts| == 1 then parts[0]
    else parts[0] + sep + Join(parts[1..], sep)
  }

  /** A joined list starts with its first part. */
  lemma JoinHead(parts: seq<string>, sep: string)
    requires parts != []
    ensures |Join(parts, sep)| >= |parts[0]| && Join(parts, sep)[..|parts[0]|] == parts[0]
  {
    if |parts| > 1 {
      assert Join(parts, sep) == parts[0] + (sep + Join(parts[1..], sep));
    }
  }

  // ---------------------------------------------------------------------
  // Decimal text of integers
  // ---------------------------------------------------------------------

  predicate IsDigit(c: char) { '0' <= c <= '9' }

  ghost predicate AllDigits(s: string)
  {
    forall i :: 0 <= i < |s| ==> IsDigit(s[i])
  }

  function DigitChar(d: nat): (c: char)
    requires d < 10
    ensures IsDigit(c)
  {
    (48 + d) as char
  }

  function DigitValue(c: char): nat
    requires IsDigit(c)
  {
    c as int - 48
  }

  /** The value of a string of decimal digits, most significant first. */
  function DecimalValue(ds: string): nat
    requires AllDigits(ds)
  {
    if ds == [] then 0 else DecimalValue(ds[..|ds| - 1]) * 10 + DigitValue(ds[|ds| - 1])
  }

  /** The decimal text of a natural number, without leading zeros. */
  function NatToDecimal(n: nat): (r: string)
    ensures |r| >= 1 && AllDigits(r)
  {
    if n < 10 then [DigitChar(n)] else NatToDecimal(n / 10) + [DigitChar(n % 10)]
  }

  /** `String(n)` for an integer `n` (template literals `${n}`). */
  function IntToDecimal(n: int): (r: string)
    ensures |r| >= 1 && (r[0] == '-' <==> n < 0)
  {
    if n < 0 then "-" + NatToDecimal(-n) else NatToDecimal(n)
  }

  /** Reading back the decimal text of `n` gives `n`. */
  lemma {:induction false} DecimalRoundTrip(n: nat)
    ensures DecimalValue(NatToDecimal(n)) == n
  {
    if n >= 10 {
      DecimalRoundTrip(n / 10);
      var r := NatToDecimal(n);
      assert r[..|r| - 1] == NatToDecimal(n / 10);
    }
  }

  /** Distinct integers have distinct decimal texts. */
  lemma IntToDecimalInjective(a: int, b: int)
    requires IntToDecimal(a) == IntToDecimal(b)
    ensures a == b
  {
    ParseIntRoundTrip(a);
    ParseIntRoundTrip(b);
  }

  // ---------------------------------------------------------------------
  // parseInt and parseFloat
  // ---------------------------------------------------------------------

  /** The longest prefix of `s` made of decimal digits. */
  function DigitPrefix(s: string): (r: string)
    ensures |r| <= |s| && r == s[..|r|] && AllDigits(r)
    ensures |r| == |s| || !IsDigit(s[|r|])
  {
    if s != [] && IsDigit(s[0]) then [s[0]] + DigitPrefix(s[1..]) else []
  }

  predicate IsHexDigit(c: char)
  {
    IsDigit(c) || ('a' <= c <= 'f') || ('A' <= c <= 'F')
  }

  function HexDigitValue(c: char): nat
    requires IsHexDigit(c)
  {
    if IsDigit(c) then c as int - 48
    else if 'a' <= c <= 'f' then c as int - 87
    else c as int - 55
  }

  /** The longest prefix of `s` made of hexadecimal digits. */
  function HexPrefix(s: string): (r: string)
    ensures |r| <= |s| && r == s[..|r|]
    ensures forall i :: 0 <= i < |r| ==> IsHexDigit(r[i])
  {
    if s != [] && IsHexDigit(s[0]) then [s[0]] + HexPrefix(s[1..]) else []
  }

  function HexValue(ds: string): nat
    requires forall i :: 0 <= i < |ds| ==> IsHexDigit(ds[i])
  {
    if ds == [] then 0 else HexValue(ds[..|ds| - 1]) * 16 + HexDigitValue(ds[|ds| - 1])
  }

  /** A leading sign: whether it is a minus, and the rest of the text. */
  function SplitSign(t: string): (bool, string)
  {
    if t != [] && t[0] == '-' then (true, t[1..])
    else if t != [] && t[0] == '+' then (false, t[1..])
    else (false, t)
  }

  /**
   * `parseInt(s)` without a radix: leading white space, an optional sign,
   * an optional `0x`/`0X` that selects base 16, then the longest run of
   * digits; `None` (NaN) when there is no digit.
   */
  function ParseInt(s: string): (r: Option<int>)
    ensures var (negative, u) := SplitSign(TrimStart(s));
      && (r.Some? ==> u != [] && IsDigit(u[0]))
      && (u != [] && IsDigit(u[0]) && !(|u| >= 2 && u[0] == '0' && (u[1] == 'x' || u[1] == 'X')) ==> r.Some?)
      && (|u| > 2 && u[0] == '0' && (u[1] == 'x' || u[1] == 'X') && IsHexDigit(u[2]) ==> r.Some?)
      && (r.Some? && r.value < 0 ==> negative)
  {
    var (negative, u) := SplitSign(TrimStart(s));
    match UnsignedInt(u)
    case None => None
    case Some(v) => Some(if negative then -(v as int) else v as int)
  }

  /** The unsigned part of `parseInt`: `0x` and hexadecimal digits, or decimal digits. */
  function UnsignedInt(u: string): Option<nat>
  {
    if |u| >= 2 && u[0] == '0' && (u[1] == 'x' || u[1] == 'X') then
      var ds := HexPrefix(u[2..]);
      if ds == [] then None else Some(HexValue(ds))
    else
      var ds := DigitPrefix(u);
      if ds == [] then None else Some(DecimalValue(ds))
  }

  /** A run of decimal digits, read by `parseInt`, is its decimal value. */
  lemma UnsignedIntOfDigits(d: string)
    requires d != [] && AllDigits(d)
    ensures UnsignedInt(d) == Some(DecimalValue(d))
  {
    DigitPrefixOfDigits(d);
    assert |d| >= 2 ==> IsDigit(d[1]);
  }

  function Pow10(e: nat): (r: nat)
    ensures r >= 1
  {
    if e == 0 then 1 else 10 * Pow10(e - 1)
  }

  /** The scale factor of a decimal exponent. */
  function Scale(e: int): (r: real)
    ensures r > 0.0
  {
    if e >= 0 then Pow10(e) as real else 1.0 / Pow10(-e) as real
  }

  /** An exponent part `e+12`, `E-3`, ...: its value, or 0 when there is none. */
  function ExponentPrefix(s: string): int
  {
    if s != [] && (s[0] == 'e' || s[0] == 'E') then
      var (negative, u) := SplitSign(s[1..]);
      var ds := DigitPrefix(u);
      if ds == [] then 0
      else if negative then -(DecimalValue(ds) as int) else DecimalValue(ds)
    else 0
  }

  /** The exact value of the decimal literal `whole.fraction` times ten to the power `exponent`. */
  function LiteralValue(whole: string, fraction: string, exponent: int): (r: real)
    requires AllDigits(whole) && AllDigits(fraction)
    ensures r >= 0.0
  {
    var digits := DecimalValue(whole) as real + DecimalValue(fraction) as real / Pow10(|fraction|) as real;
    var scale := Scale(exponent);
    assert digits >= 0.0;
    digits * scale
  }

  /** Whether `u` starts with the word `Infinity`. */
  predicate StartsWithInfinity(u: string)
  {
    |u| >= 8 && u[..8] == "Infinity"
  }

  /** The longest decimal literal at the start of `u`: digits, an optional fraction, an optional exponent. */
  function DecimalLiteral(u: string): (r: Float)
    ensures r.Finite? || r.NaN?
    ensures r.Finite? ==> r.value >= 0.0
  {
    var whole := DigitPrefix(u);
    var rest := u[|whole|..];
    var hasPoint := rest != [] && rest[0] == '.';
    var fraction := if hasPoint then DigitPrefix(rest[1..]) else [];
    if whole == [] && fraction == [] then NaN
    else
      var after := if hasPoint then rest[1 + |fraction|..] else rest;
      Finite(LiteralValue(whole, fraction, ExponentPrefix(after)))
  }

  /** The unsigned part of `parseFloat`: `Infinity`, or the longest decimal literal. */
  function UnsignedFloat(u: string): Float
  {
    if StartsWithInfinity(u) then Infinity(false) else DecimalLiteral(u)
  }

  /**
   * `parseFloat(s)`: leading white space, an optional sign, then either
   * `Infinity` or the longest decimal literal (digits, an optional fraction,
   * an optional exponent), evaluated exactly; `NaN` when no digit starts it.
   */
  function ParseFloat(s: string): (r: Float)
    ensures var (negative, u) := SplitSign(TrimStart(s));
      && (r.Infinity? <==> StartsWithInfinity(u))
      && (r.Infinity? ==> r.negative == negative)
      && (r.Finite? ==> u != [] && (IsDigit(u[0]) || u[0] == '.'))
      && (r.Finite? && r.value < 0.0 ==> negative)
  {
    var (negative, u) := SplitSign(TrimStart(s));
    match UnsignedFloat(u)
    case Finite(v) => Finite(if negative then -v else v)
    case Infinity(_) => Infinity(negative)
    case NaN => NaN
  }

  /** The text of an integer, once its sign is split off: its digits. */
  lemma SplitSignOfDecimal(n: int)
    ensures TrimStart(IntToDecimal(n)) == IntToDecimal(n)
    ensures SplitSign(IntToDecimal(n)) == (n < 0, NatToDecimal(if n < 0 then -n else n))
  {
    var m: nat := if n < 0 then -n else n;
    var d := NatToDecimal(m);
    var s := IntToDecimal(n);
    assert IsDigit(d[0]);
    if n < 0 {
      assert s == "-" + d;
      assert s[1..] == d;
    } else {
      assert s == d;
    }
    TrimStartNoop(s);
  }

  /** `parseInt` reads back the decimal text of every integer. */
  lemma ParseIntRoundTrip(n: int)
    ensures ParseInt(IntToDecimal(n)) == Some(n)
  {
    var m: nat := if n < 0 then -n else n;
    SplitSignOfDecimal(n);
    UnsignedIntOfDigits(NatToDecimal(m));
    DecimalRoundTrip(m);
  }

  /** A run of digits followed by a non-digit that is not `x`/`X`: `parseInt` reads the digits. */
  lemma UnsignedIntOfDigitsThen(d: string, rest: string)
    requires d != [] && AllDigits(d)
    requires rest == [] || (!IsDigit(rest[0]) && rest[0] != 'x' && rest[0] != 'X')
    ensures UnsignedInt(d + rest) == Some(DecimalValue(d))
  {
    var u := d + rest;
    assert u[0] == d[0];
    if |u| >= 2 {
      assert u[1] == if |d| >= 2 then d[1] else rest[0];
    }
    DigitPrefixStops(d, rest);
  }

  /** Text that starts with a digit or a minus: nothing to trim, and `-` is the sign. */
  lemma SplitSignOfDigitsThen(negative: bool, d: string, rest: string)
    requires d != [] && AllDigits(d)
    ensures var s := (if negative then "-" else "") + (d + rest);
      TrimStart(s) == s && SplitSign(s) == (negative, d + rest)
  {
    var u := d + rest;
    assert u[0] == d[0] && IsDigit(u[0]);
    var s := (if negative then "-" else "") + u;
    if negative {
      assert s[0] == '-' && s[1..] == u;
    } else {
      assert s == u;
    }
    TrimStartNoop(s);
  }

  /** `parseInt` stops at the first character after the digits: the text of `n`, then such a tail, reads back as `n`. */
  lemma ParseIntOfDecimalThen(n: int, rest: string)
    requires rest == [] || (!IsDigit(rest[0]) && rest[0] != 'x' && rest[0] != 'X')
    ensures ParseInt(IntToDecimal(n) + rest) == Some(n)
  {
    var m: nat := if n < 0 then -n else n;
    var d := NatToDecimal(m);
    var s := IntToDecimal(n) + rest;
    assert SplitSign(TrimStart(s)) == (n < 0, d + rest) by {
      assert s == (if n < 0 then "-" else "") + (d + rest);
      SplitSignOfDigitsThen(n < 0, d, rest);
    }
    assert UnsignedInt(d + rest) == Some(m) by {
      UnsignedIntOfDigitsThen(d, rest);
      DecimalRoundTrip(m);
    }
  }

  /** A whole number without fraction or exponent has its own value. */
  lemma LiteralOfWhole(d: string)
    requires AllDigits(d)
    ensures LiteralValue(d, [], 0) == DecimalValue(d) as real
  {
    assert DecimalValue([]) == 0 && Pow10(0) == 1 && Scale(0) == 1.0;
  }

  /** A run of digits, read as a decimal literal, is its decimal value. */
  lemma DecimalLiteralOfDigits(d: string)
    requires d != [] && AllDigits(d)
    ensures DecimalLiteral(d) == Finite(DecimalValue(d) as real)
  {
    DigitPrefixOfDigits(d);
    assert d[|d|..] == [];
    assert ExponentPrefix([]) == 0;
    LiteralOfWhole(d);
  }

  /** A run of digits, read as a float, is its decimal value. */
  lemma UnsignedFloatOfDigits(d: string)
    requires d != [] && AllDigits(d)
    ensures UnsignedFloat(d) == Finite(DecimalValue(d) as real)
  {
    assert !StartsWithInfinity(d) by {
      if |d| >= 8 {
        assert d[..8][0] == d[0] && IsDigit(d[0]);
      }
    }
    DecimalLiteralOfDigits(d);
  }

  /** `parseFloat` reads back the decimal text of every integer, exactly. */
  lemma ParseFloatRoundTrip(n: int)
    ensures ParseFloat(IntToDecimal(n)) == Finite(n as real)
  {
    var m: nat := if n < 0 then -n else n;
    SplitSignOfDecimal(n);
    UnsignedFloatOfDigits(NatToDecimal(m));
    DecimalRoundTrip(m);
  }

  lemma {:induction false} DigitPrefixOfDigits(s: string)
    requires AllDigits(s)
    ensures DigitPrefix(s) == s
  {
    if s != [] {
      DigitPrefixOfDigits(s[1..]);
    }
  }

  /** The digit run of `d + rest` is `d` when `rest` does not start with a digit. */
  lemma {:induction false} DigitPrefixStops(d: string, rest: string)
    requires AllDigits(d)
    requires rest == [] || !IsDigit(rest[0])
    ensures DigitPrefix(d + rest) == d
  {
    if d == [] {
      assert d + rest == rest;
    } else {
      assert (d + rest)[1..] == d[1..] + rest;
      DigitPrefixStops(d[1..], rest);
    }
  }

  // ---------------------------------------------------------------------
  // encodeURIComponent
  // ---------------------------------------------------------------------

  /** The characters `encodeURIComponent` leaves as they are. */
  predicate IsUnreserved(c: char)
  {
    ('A' <= c <= 'Z') || ('a' <= c <= 'z') || IsDigit(c)
    || c == '-' || c == '_' || c == '.' || c == '!' || c == '~'
    || c == '*' || c == '\'' || c == '(' || c == ')'
  }

  /** The characters an encoded component can contain. */
  predicate IsUrlSafe(c: char)
  {
    IsUnreserved(c) || c == '%'
  }

  function HexChar(d: nat): (c: char)
    requires d < 16
    ensures IsUrlSafe(c)
  {
    if d < 10 then DigitChar(d) else (55 + d) as char
  }

  /** `%XX` with upper-case hexadecimal digits. */
  function PercentByte(b: nat): (r: string)
    requires b < 256
    ensures |r| == 3 && r[0] == '%'
    ensures forall i :: 0 <= i < |r| ==> IsUrlSafe(r[i])
  {
    ['%', HexChar(b / 16), HexChar(b % 16)]
  }

  /** The UTF-8 bytes of one Unicode scalar value. */
  function Utf8(cp: nat): (bytes: seq<nat>)
    requires cp < 0x11_0000
    ensures 1 <= |bytes| <= 4
    ensures forall i :: 0 <= i < |bytes| ==> bytes[i] < 256
  {
    if cp < 0x80 then [cp]
    else if cp < 0x800 then [0xC0 + cp / 64, 0x80 + cp % 64]
    else if cp < 0x1_0000 then [0xE0 + cp / 4096, 0x80 + (cp / 64) % 64, 0x80 + cp % 64]
    else [0xF0 + cp / 262144, 0x80 + (cp / 4096) % 64, 0x80 + (cp / 64) % 64, 0x80 + cp % 64]
  }

  function PercentBytes(bytes: seq<nat>): (r: string)
    requires forall i :: 0 <= i < |bytes| ==> bytes[i] < 256
    ensures |r| == 3 * |bytes|
    ensures forall i :: 0 <= i < |r| ==> IsUrlSafe(r[i])
  {
    if bytes == [] then [] else PercentByte(bytes[0]) + PercentBytes(bytes[1..])
  }

  /** One character of `encodeURIComponent`'s output. */
  function EncodeChar(c: char): (r: string)
    ensures forall i :: 0 <= i < |r| ==> IsUrlSafe(r[i])
    ensures IsUnreserved(c) ==> r == [c]
    ensures !IsUnreserved(c) ==> |r| >= 3 && r[0] == '%'
  {
    if IsUnreserved(c) then [c] else PercentBytes(Utf8(c as int))
  }

  /** `encodeURIComponent(s)`: percent-encodes the UTF-8 bytes of every reserved character. */
  function EncodeUriComponent(s: string): (r: string)
    ensures forall i :: 0 <= i < |r| ==> IsUrlSafe(r[i])
    ensures (forall i :: 0 <= i < |s| ==> IsUnreserved(s[i])) ==> r == s
  {
    if s == [] then [] else EncodeChar(s[0]) + EncodeUriComponent(s[1..])
  }
}
