/** The parts of JavaScript's value semantics that the robots engine depends on:
    numbers that can be NaN, `parseInt` without a radix, the conversion of a number
    to text, and `String.prototype.split` with a one-character separator or with the
    empty string. */
module Js {

  /** A JavaScript number as the engine can produce it: an integer or NaN.
      (The engine only ever creates integers, through `parseInt`, `++` and `--`.) */
  datatype Num = Int(v: int) | NaN

  /** `a === b` (and `a == b`) on numbers: NaN equals nothing, itself included. */
  predicate Eq(a: Num, b: Num) {
    a.Int? && b.Int? && a.v == b.v
  }

  /** `a < b`: false as soon as either side is NaN. */
  predicate Lt(a: Num, b: Num) {
    a.Int? && b.Int? && a.v < b.v
  }

  /** `a <= b`: false as soon as either side is NaN. */
  predicate Le(a: Num, b: Num) {
    a.Int? && b.Int? && a.v <= b.v
  }

  /** `a + d` for a small integer `d` (the effect of `++` and `--`). */
  function Add(a: Num, d: int): (r: Num)
    ensures r.NaN? <==> a.NaN?
    ensures r.Int? ==> r.v == a.v + d
  {
    if a.Int? then Int(a.v + d) else NaN
  }

  // ---------------------------------------------------------------------------
  // parseInt(string) with no radix argument (ECMAScript, section 19.2.5)

  /** The characters that `parseInt` skips before the number: the WhiteSpace and
      LineTerminator productions of ECMAScript. */
  predicate IsWhiteSpace(c: char) {
    c == '\t' || c == '\n' || c == '\U{B}' || c == '\U{C}' || c == '\r' || c == ' '
    || c == '\U{A0}' || c == '\U{1680}' || ('\U{2000}' <= c <= '\U{200A}')
    || c == '\U{2028}' || c == '\U{2029}' || c == '\U{202F}' || c == '\U{205F}'
    || c == '\U{3000}' || c == '\U{FEFF}'
  }

  /** The value of `c` as a digit, or -1 when `c` is not a letter or digit. */
  function DigitValue(c: char): (d: int)
    ensures -1 <= d < 36
  {
    if '0' <= c <= '9' then c as int - '0' as int
    else if 'a' <= c <= 'z' then c as int - 'a' as int + 10
    else if 'A' <= c <= 'Z' then c as int - 'A' as int + 10
    else -1
  }

  predicate IsDigit(c: char, radix: nat) {
    0 <= DigitValue(c) < radix
  }

  /** The length of the longest prefix of `s` made of digits in `radix`. */
  function DigitPrefixLength(s: string, radix: nat): nat
  {
    if s != [] && IsDigit(s[0], radix) then 1 + DigitPrefixLength(s[1..], radix) else 0
  }

  /** The longest digit prefix is a prefix, made of digits, and the character
      after it (if any) is not a digit. */
  lemma {:induction false} DigitPrefixIsDigits(s: string, radix: nat)
    ensures var n := DigitPrefixLength(s, radix);
      n <= |s| && (forall k :: 0 <= k < n ==> IsDigit(s[k], radix)) && (n < |s| ==> !IsDigit(s[n], radix))
  {
    if s != [] && IsDigit(s[0], radix) {
      DigitPrefixIsDigits(s[1..], radix);
    }
  }

  lemma NatProduct(a: nat, b: nat)
    ensures a * b >= 0
  {
  }

  /** The value of a string of digits read in `radix`, most significant first. */
  function DigitsValue(ds: string, radix: nat): nat
    requires forall k :: 0 <= k < |ds| ==> IsDigit(ds[k], radix)
  {
    if ds == [] then 0
    else
      var high: nat := DigitsValue(ds[..|ds| - 1], radix);
      assert IsDigit(ds[|ds| - 1], radix);
      NatProduct(high, radix);
      high * radix + DigitValue(ds[|ds| - 1])
  }

  /** `parseInt(s)`: skip leading white space, read an optional sign, then an
      optional `0x`/`0X` prefix selecting base 16, then the longest run of digits.
      No digit at all gives NaN. A negative zero is folded into 0, from which it
      cannot be told apart by comparison or by conversion to text. */
  function ParseInt(s: string): Num
  {
    if s != [] && IsWhiteSpace(s[0]) then ParseInt(s[1..])
    else if s != [] && s[0] == '-' then Negate(ParseUnsigned(s[1..]))
    else if s != [] && s[0] == '+' then ParseUnsigned(s[1..])
    else ParseUnsigned(s)
  }

  function Negate(n: Num): Num {
    if n.Int? then Int(-n.v) else NaN
  }

  /** The digits after the sign, in base 16 after a `0x` or `0X` prefix and in
      base 10 otherwise. */
  function ParseUnsigned(u: string): Num {
    if |u| >= 2 && u[0] == '0' && (u[1] == 'x' || u[1] == 'X') then ParseDigits(u[2..], 16)
    else ParseDigits(u, 10)
  }

  /** The value of the longest prefix of digits, NaN when there is none. */
  function ParseDigits(body: string, radix: nat): (r: Num)
    ensures r.Int? ==> r.v >= 0
  {
    var n := DigitPrefixLength(body, radix);
    DigitPrefixIsDigits(body, radix);
    if n == 0 then NaN else Int(DigitsValue(body[..n], radix))
  }

  // ---------------------------------------------------------------------------
  // Number to text, as a template literal `${n}` does for integers and NaN

  function DigitChar(d: nat): (c: char)
    requires d < 10
    ensures IsDigit(c, 10) && DigitValue(c) == d
  {
    ('0' as int + d) as char
  }

  function NatToString(n: nat): (s: string)
    ensures s != []
    ensures forall k :: 0 <= k < |s| ==> IsDigit(s[k], 10)
    ensures n != 0 ==> s[0] != '0'
    ensures n == 0 ==> s == "0"
  {
    if n < 10 then [DigitChar(n)] else NatToString(n / 10) + [DigitChar(n % 10)]
  }

  function IntToString(i: int): (s: string)
    ensures s != []
  {
    if i < 0 then "-" + NatToString(-i) else NatToString(i)
  }

  /** `${n}` for a number of the engine. */
  function NumToString(n: Num): (s: string)
    ensures s != []
  {
    if n.NaN? then "NaN" else IntToString(n.v)
  }

  // ---------------------------------------------------------------------------
  // String.prototype.split and Array.prototype.join

  /** `s.split(sep)` for a one-character separator: the pieces between the
      separators, empty pieces kept; the empty string gives `[""]`. */
  function SplitOn(s: string, sep: char): (pieces: seq<string>)
    ensures |pieces| >= 1
  {
    if s == [] then [""]
    else if s[0] == sep then [""] + SplitOn(s[1..], sep)
    else var rest := SplitOn(s[1..], sep); [[s[0]] + rest[0]] + rest[1..]
  }

  /** `s.split('')`: one single-character string per character. */
  function Chars(s: string): (cs: seq<string>)
    ensures |cs| == |s|
    ensures forall k :: 0 <= k < |s| ==> cs[k] == [s[k]]
  {
    seq(|s|, k requires 0 <= k < |s| => [s[k]])
  }

  /** `parts.join("")`. */
  function Concat(parts: seq<string>): string {
    if parts == [] then "" else Concat(parts[..|parts| - 1]) + parts[|parts| - 1]
  }

  /** `parts.join(sep)`. */
  function Join(parts: seq<string>, sep: string): string {
    if parts == [] then ""
    else if |parts| == 1 then parts[0]
    else parts[0] + sep + Join(parts[1..], sep)
  }
}
