/**
 * The JavaScript built-ins the application relies on, with the ECMAScript
 * semantics it depends on: the 32-bit integer conversions behind `<<` and `&`,
 * UTF-16 code units (`charCodeAt`), `startsWith`, `indexOf`, `replace` with a
 * one-character pattern, `trim`, `split`, `||` on optional strings, and the
 * decimal conversions `String(n)` and `Number(digits)`.
 */
module JsBuiltins {

  /** `undefined`/`null` versus a present value. */
  datatype Option<+T> = None | Some(value: T)

  // ---------------------------------------------------------------------------
  // 32-bit integer conversions (ECMAScript ToInt32 / ToUint32 on integral numbers)
  // ---------------------------------------------------------------------------

  const TWO_32: int := 0x1_0000_0000
  const TWO_31: int := 0x8000_0000

  predicate IsInt32(x: int) {
    -TWO_31 <= x < TWO_31
  }

  /** ToUint32: the residue modulo 2^32. */
  function ToUint32(x: int): (u: int)
    ensures 0 <= u < TWO_32
    ensures (x - u) % TWO_32 == 0
  {
    x % TWO_32
  }

  /** ToInt32: the residue modulo 2^32, reinterpreted as a signed 32-bit value. */
  function ToInt32(x: int): (r: int)
    ensures IsInt32(r)
    ensures (x - r) % TWO_32 == 0
    ensures IsInt32(x) ==> r == x
  {
    var u := ToUint32(x);
    if u >= TWO_31 then u - TWO_32 else u
  }

  lemma MultipleOfModulus(k: int)
    ensures (k * TWO_32) % TWO_32 == 0
  {
  }

  /** ToInt32 depends only on the residue modulo 2^32. */
  lemma ToInt32Congruent(a: int, b: int)
    requires (a - b) % TWO_32 == 0
    ensures ToInt32(a) == ToInt32(b)
  {
    var k := (a - b) / TWO_32;
    assert a == b + k * TWO_32;
  }

  /** A signed 32-bit value and its ToInt32 image agree modulo 2^32, also after scaling. */
  lemma ScaledCongruence(x: int, m: int, c: int)
    ensures ToInt32(m * ToInt32(x) + c) == ToInt32(m * x + c)
  {
    var k := (x - ToInt32(x)) / TWO_32;
    assert x - ToInt32(x) == k * TWO_32;
    assert (m * x + c) - (m * ToInt32(x) + c) == (m * k) * TWO_32;
    MultipleOfModulus(m * k);
    ToInt32Congruent(m * ToInt32(x) + c, m * x + c);
  }

  function Pow2(n: nat): (p: nat)
    ensures p >= 1
  {
    if n == 0 then 1 else 2 * Pow2(n - 1)
  }

  lemma {:induction false} Pow2Add(a: nat, b: nat)
    ensures Pow2(a + b) == Pow2(a) * Pow2(b)
  {
    if a > 0 {
      Pow2Add(a - 1, b);
    }
  }

  lemma Pow2ThirtyTwo()
    ensures Pow2(32) == TWO_32
  {
    assert Pow2(8) == 256;
    Pow2Add(8, 8);
    Pow2Add(16, 16);
  }

  /** `x << n`: ToInt32 of the left operand, shifted by ToUint32(n) & 31, wrapped to 32 bits. */
  function ShiftLeft(x: int, n: int): (r: int)
    ensures IsInt32(r)
  {
    ToInt32(ToInt32(x) * Pow2(ToUint32(n) % 32))
  }

  /** The low n bits of the bitwise and of two non-negative numbers, bit by bit. */
  function AndBits(a: nat, b: nat, n: nat): (r: nat)
    ensures r < Pow2(n)
  {
    if n == 0 then 0
    else (if a % 2 == 1 && b % 2 == 1 then 1 else 0) + 2 * AndBits(a / 2, b / 2, n - 1)
  }

  /** `a & b`: bitwise and of the two 32-bit patterns (ToUint32), read back as a signed value. */
  function BitAnd(a: int, b: int): (r: int)
    ensures IsInt32(r)
  {
    ToInt32(AndBits(ToUint32(a), ToUint32(b), 32))
  }

  lemma {:induction false} AndBitsSelf(u: nat, n: nat)
    requires u < Pow2(n)
    ensures AndBits(u, u, n) == u
  {
    if n > 0 {
      AndBitsSelf(u / 2, n - 1);
    }
  }

  /** `x & x` is ToInt32(x): and-ing a number with itself only truncates it to 32 bits. */
  lemma BitAndSelf(x: int)
    ensures BitAnd(x, x) == ToInt32(x)
  {
    Pow2ThirtyTwo();
    AndBitsSelf(ToUint32(x), 32);
    ToInt32Congruent(ToUint32(x), x);
  }

  // ---------------------------------------------------------------------------
  // Strings as UTF-16 code units
  // ---------------------------------------------------------------------------

  predicate IsCodeUnit(u: int) {
    0 <= u < 0x1_0000
  }

  /** The UTF-16 encoding of one character: one code unit, or a surrogate pair above U+FFFF. */
  function Utf16(c: char): (units: seq<int>)
    ensures 1 <= |units| <= 2
    ensures forall k :: 0 <= k < |units| ==> IsCodeUnit(units[k])
    ensures (c as int < 0x1_0000) <==> units == [c as int]
  {
    var v := c as int;
    if v < 0x1_0000 then [v]
    else [0xD800 + (v - 0x1_0000) / 0x400, 0xDC00 + (v - 0x1_0000) % 0x400]
  }

  /** The code units `charCodeAt(0 .. length-1)` reads from a string. */
  function CodeUnits(s: string): (units: seq<int>)
    ensures |units| >= |s|
    ensures forall k :: 0 <= k < |units| ==> IsCodeUnit(units[k])
  {
    if s == [] then [] else Utf16(s[0]) + CodeUnits(s[1..])
  }

  // ---------------------------------------------------------------------------
  // startsWith, indexOf, replace
  // ---------------------------------------------------------------------------

  /** `s.startsWith(prefix)`: the prefix fits and agrees with s character by character. */
  predicate StartsWith(s: string, prefix: string)
    ensures StartsWith(s, prefix) <==>
              |prefix| <= |s| && forall k :: 0 <= k < |prefix| ==> s[k] == prefix[k]
  {
    |prefix| <= |s| && s[..|prefix|] == prefix
  }

  /** `s.indexOf(c)` for a one-character search string: the first position of c, or -1. */
  function IndexOf(s: string, c: char): (k: int)
    ensures -1 <= k < |s|
    ensures k == -1 <==> c !in s
    ensures k >= 0 ==> s[k] == c && c !in s[..k]
  {
    if s == [] then -1
    else if s[0] == c then 0
    else
      var k := IndexOf(s[1..], c);
      if k == -1 then -1 else
        assert s[..k + 1] == [s[0]] + s[1..][..k];
        k + 1
  }

  /** `s.replace(from, to)` with one-character strings: only the first occurrence is replaced. */
  function ReplaceFirst(s: string, from: char, to: char): (r: string)
    ensures |r| == |s|
    ensures from !in s ==> r == s
    ensures from in s ==> r == s[IndexOf(s, from) := to]
  {
    var k := IndexOf(s, from);
    if k < 0 then s else s[k := to]
  }

  /** Replacing the first '+' by a space and then the first space by '+' restores a
    * string without spaces. */
  lemma ReplaceFirstRoundTrip(s: string, from: char, to: char)
    requires from != to
    requires to !in s
    ensures ReplaceFirst(ReplaceFirst(s, from, to), to, from) == s
  {
    if from in s {
      var k := IndexOf(s, from);
      var t := s[k := to];
      assert t[..k] == s[..k];
      assert t[k] == to;
      assert to !in t[..k];
      assert IndexOf(t, to) == k;
      assert t[k := from] == s;
    }
  }

  // ---------------------------------------------------------------------------
  // trim
  // ---------------------------------------------------------------------------

  /** The WhiteSpace and LineTerminator code points that `String.prototype.trim` strips. */
  predicate IsWhiteSpace(c: char) {
    var v := c as int;
    v == 0x09 || v == 0x0A || v == 0x0B || v == 0x0C || v == 0x0D || v == 0x20
    || v == 0xA0 || v == 0x1680 || (0x2000 <= v <= 0x200A) || v == 0x2028
    || v == 0x2029 || v == 0x202F || v == 0x205F || v == 0x3000 || v == 0xFEFF
  }

  predicate IsBlank(s: string) {
    forall k :: 0 <= k < |s| ==> IsWhiteSpace(s[k])
  }

  function TrimStart(s: string): (r: string)
    ensures |r| <= |s|
    ensures r == [] || !IsWhiteSpace(r[0])
    ensures r == [] <==> IsBlank(s)
  {
    if s != [] && IsWhiteSpace(s[0]) then TrimStart(s[1..]) else s
  }

  function TrimEnd(s: string): (r: string)
    ensures |r| <= |s|
    ensures r == [] <==> IsBlank(s)
    ensures r != [] ==> r[0] == s[0] && !IsWhiteSpace(r[|r| - 1])
  {
    if s != [] && IsWhiteSpace(s[|s| - 1]) then TrimEnd(s[..|s| - 1]) else s
  }

  /** `s.trim()`: "" exactly for a blank string; otherwise neither end is white space. */
  function Trim(s: string): (r: string)
    ensures |r| <= |s|
    ensures r == [] <==> IsBlank(s)
    ensures r != [] ==> !IsWhiteSpace(r[0]) && !IsWhiteSpace(r[|r| - 1])
  {
    var t := TrimStart(s);
    assert t != [] ==> !IsBlank(t);
    TrimEnd(t)
  }

  // ---------------------------------------------------------------------------
  // split
  // ---------------------------------------------------------------------------

  /** `s.split(sep)` for a one-character separator: always at least one piece, none holding sep. */
  function Split(s: string, sep: char): (parts: seq<string>)
    ensures |parts| >= 1
    ensures forall i :: 0 <= i < |parts| ==> sep !in parts[i]
    ensures forall i, k :: 0 <= i < |parts| && 0 <= k < |parts[i]| ==> parts[i][k] in s
  {
    if s == [] then [""]
    else
      var rest := Split(s[1..], sep);
      if s[0] == sep then [""] + rest
      else [[s[0]] + rest[0]] + rest[1..]
  }

  /** `parts.join(sep)`. */
  function Join(parts: seq<string>, sep: char): string {
    if |parts| == 0 then ""
    else if |parts| == 1 then parts[0]
    else parts[0] + [sep] + Join(parts[1..], sep)
  }

  /** Splitting and joining back on the same separator gives the original string. */
  lemma {:induction false} JoinSplit(s: string, sep: char)
    ensures Join(Split(s, sep), sep) == s
  {
    if s != [] {
      var rest := Split(s[1..], sep);
      JoinSplit(s[1..], sep);
      if s[0] == sep {
        assert Split(s, sep)[1..] == rest;
      } else {
        var parts := Split(s, sep);
        if |rest| == 1 {
          assert parts == [[s[0]] + rest[0]];
        } else {
          assert parts[1..] == rest[1..];
          assert Join(rest, sep) == rest[0] + [sep] + Join(rest[1..], sep);
        }
      }
    }
  }

  // ---------------------------------------------------------------------------
  // `a || b` on an optional string
  // ---------------------------------------------------------------------------

  /** A string value is truthy when it is defined and non-empty. */
  predicate Truthy(a: Option<string>) {
    a.Some? && a.value != ""
  }

  /** `a || b` where a is a string or undefined: a when it is truthy, else b. */
  function Or(a: Option<string>, b: string): (r: string)
    ensures Truthy(a) ==> r == a.value
    ensures !Truthy(a) ==> r == b
  {
    if a.Some? && a.value != "" then a.value else b
  }

  // ---------------------------------------------------------------------------
  // Decimal digits: String(n) and Number(digits)
  // ---------------------------------------------------------------------------

  predicate IsDigit(c: char) {
    '0' <= c <= '9'
  }

  predicate AllDigits(s: string) {
    forall k :: 0 <= k < |s| ==> IsDigit(s[k])
  }

  function DigitChar(d: nat): (c: char)
    requires d < 10
    ensures IsDigit(c)
  {
    ('0' as int + d) as char
  }

  /** `Number(s)` for a non-empty run of decimal digits. */
  function NumberOfDigits(s: string): (n: nat)
    requires AllDigits(s)
    ensures n == 0 <==> forall k :: 0 <= k < |s| ==> s[k] == '0'
  {
    if s == [] then 0
    else 10 * NumberOfDigits(s[..|s| - 1]) + ((s[|s| - 1] as int) - ('0' as int))
  }

  /** `String(n)` (a template-literal `${n}`) for a non-negative integer. */
  function NatToString(n: nat): (s: string)
    ensures |s| >= 1 && AllDigits(s)
    ensures |s| > 1 ==> s[0] != '0'
  {
    if n < 10 then [DigitChar(n)]
    else NatToString(n / 10) + [DigitChar(n % 10)]
  }

  /** Printing a number and reading it back gives the number. */
  lemma {:induction false} NumberOfNatToString(n: nat)
    ensures NumberOfDigits(NatToString(n)) == n
  {
    if n >= 10 {
      var s := NatToString(n);
      assert s[..|s| - 1] == NatToString(n / 10);
      NumberOfNatToString(n / 10);
    }
  }
}
