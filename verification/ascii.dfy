/** Byte-level ASCII classification, case folding and whitespace trimming. */
module Ascii {

  /** An unsigned 8-bit value, as Rust's `u8`. */
  type byte = b: int | 0 <= b < 256

  const DIGIT_ZERO: byte := '0' as int
  const DIGIT_NINE: byte := '9' as int
  const UPPER_A: byte := 'A' as int
  const UPPER_Z: byte := 'Z' as int
  const LOWER_A: byte := 'a' as int
  const LOWER_Z: byte := 'z' as int

  /** `u8::is_ascii_digit`. */
  predicate IsDigit(b: byte) {
    DIGIT_ZERO <= b <= DIGIT_NINE
  }

  /** `u8::is_ascii_alphabetic() && u8::is_ascii_uppercase()`, that is `A`..`Z`. */
  predicate IsUpper(b: byte) {
    UPPER_A <= b <= UPPER_Z
  }

  predicate IsLower(b: byte) {
    LOWER_A <= b <= LOWER_Z
  }

  /** The byte class allowed in the LOU ID and the Entity ID. */
  predicate IsAlnumUpper(b: byte) {
    IsDigit(b) || IsUpper(b)
  }

  predicate AllAlnumUpper(s: seq<byte>) {
    forall i | 0 <= i < |s| :: IsAlnumUpper(s[i])
  }

  predicate AllDigits(s: seq<byte>) {
    forall i | 0 <= i < |s| :: IsDigit(s[i])
  }

  /** A field is well formed exactly when each of two adjacent sub-fields is. */
  lemma AllAlnumUpperSplit(s: seq<byte>, k: nat)
    requires k <= |s|
    ensures AllAlnumUpper(s) <==> AllAlnumUpper(s[..k]) && AllAlnumUpper(s[k..])
  {
    if AllAlnumUpper(s[..k]) && AllAlnumUpper(s[k..]) {
      forall i | 0 <= i < |s|
        ensures IsAlnumUpper(s[i])
      {
        if i < k {
          assert s[i] == s[..k][i];
        } else {
          assert s[i] == s[k..][i - k];
        }
      }
    }
  }

  function DigitValue(b: byte): (v: nat)
    requires IsDigit(b)
    ensures v < 10
    ensures b == DIGIT_ZERO + v
  {
    b - DIGIT_ZERO
  }

  /** A byte that `str::trim` removes: the code points below 128 with the Unicode
      White_Space property (tab, line feed, vertical tab, form feed, carriage return, space). */
  predicate IsSpace(b: byte) {
    b == ' ' as int || '\t' as int <= b <= '\r' as int
  }

  predicate AllSpace(s: seq<byte>) {
    forall i | 0 <= i < |s| :: IsSpace(s[i])
  }

  /** `u8::to_ascii_uppercase`: only `a`..`z` change. */
  function UpperByte(b: byte): (u: byte)
    ensures !IsLower(u)
    ensures IsLower(b) ==> u == b - (LOWER_A - UPPER_A) && IsUpper(u)
    ensures !IsLower(b) ==> u == b
  {
    if IsLower(b) then b - (LOWER_A - UPPER_A) else b
  }

  /** `str::to_ascii_uppercase`, byte by byte. */
  function ToAsciiUpper(s: seq<byte>): (r: seq<byte>)
    ensures |r| == |s|
    ensures forall i | 0 <= i < |s| :: r[i] == UpperByte(s[i])
  {
    seq(|s|, i requires 0 <= i < |s| => UpperByte(s[i]))
  }

  lemma ToAsciiUpperAppend(a: seq<byte>, b: seq<byte>)
    ensures ToAsciiUpper(a + b) == ToAsciiUpper(a) + ToAsciiUpper(b)
  {
  }

  /** Case folding leaves whitespace where it is and never creates any. */
  lemma ToAsciiUpperSpace(s: seq<byte>)
    ensures AllSpace(ToAsciiUpper(s)) <==> AllSpace(s)
    ensures forall i | 0 <= i < |s| :: IsSpace(ToAsciiUpper(s)[i]) <==> IsSpace(s[i])
  {
  }

  /** Text that already contains no lower-case letter is left unchanged. */
  lemma ToAsciiUpperNoLower(s: seq<byte>)
    requires forall i | 0 <= i < |s| :: !IsLower(s[i])
    ensures ToAsciiUpper(s) == s
  {
  }

  /** `trim_start` over ASCII whitespace. */
  function TrimStart(s: seq<byte>): (r: seq<byte>)
    ensures |r| <= |s|
    ensures r == s[|s| - |r|..]
    ensures AllSpace(s[..|s| - |r|])
    ensures |r| == 0 || !IsSpace(r[0])
  {
    if |s| > 0 && IsSpace(s[0]) then TrimStart(s[1..]) else s
  }

  /** `trim_end` over ASCII whitespace. */
  function TrimEnd(s: seq<byte>): (r: seq<byte>)
    ensures |r| <= |s|
    ensures r == s[..|r|]
    ensures AllSpace(s[|r|..])
    ensures |r| == 0 || !IsSpace(r[|r| - 1])
  {
    if |s| > 0 && IsSpace(s[|s| - 1]) then
      var r := TrimEnd(s[..|s| - 1]);
      assert s[|r|..] == s[..|s| - 1][|r|..] + [s[|s| - 1]];
      r
    else s
  }

  /** `str::trim` restricted to ASCII whitespace. */
  function Trim(s: seq<byte>): (r: seq<byte>)
    ensures |r| == 0 || (!IsSpace(r[0]) && !IsSpace(r[|r| - 1]))
    ensures var k := |s| - |TrimStart(s)|;
              && k + |r| <= |s|
              && r == s[k..k + |r|]
              && AllSpace(s[..k]) && AllSpace(s[k + |r|..])
  {
    TrimEnd(TrimStart(s))
  }

  lemma {:induction false} TrimStartPadded(p: seq<byte>, t: seq<byte>)
    requires AllSpace(p)
    requires |t| == 0 || !IsSpace(t[0])
    ensures TrimStart(p + t) == t
    decreases |p|
  {
    if |p| > 0 {
      assert (p + t)[1..] == p[1..] + t;
      TrimStartPadded(p[1..], t);
    } else {
      assert p + t == t;
    }
  }

  lemma {:induction false} TrimEndPadded(t: seq<byte>, q: seq<byte>)
    requires AllSpace(q)
    requires |t| == 0 || !IsSpace(t[|t| - 1])
    ensures TrimEnd(t + q) == t
    decreases |q|
  {
    if |q| > 0 {
      assert (t + q)[..|t + q| - 1] == t + q[..|q| - 1];
      TrimEndPadded(t, q[..|q| - 1]);
    } else {
      assert t + q == t;
    }
  }

  /** Trimming removes exactly the whitespace padding around a core that neither
      starts nor ends with whitespace. */
  lemma TrimPadded(p: seq<byte>, t: seq<byte>, q: seq<byte>)
    requires AllSpace(p) && AllSpace(q)
    requires |t| > 0 && !IsSpace(t[0]) && !IsSpace(t[|t| - 1])
    ensures Trim(p + t + q) == t
  {
    assert p + t + q == p + (t + q);
    TrimStartPadded(p, t + q);
    TrimEndPadded(t, q);
  }

  /** The bytes of a text whose characters are all below 256, as `str::as_bytes` for ASCII. */
  function Bytes(s: string): (r: seq<byte>)
    requires forall i | 0 <= i < |s| :: s[i] as int < 256
    ensures |r| == |s|
    ensures forall i | 0 <= i < |s| :: r[i] == s[i] as int
  {
    seq(|s|, i requires 0 <= i < |s| => s[i] as int)
  }

  /** The text view of ASCII bytes. */
  function Chars(s: seq<byte>): (r: string)
    ensures |r| == |s|
    ensures forall i | 0 <= i < |s| :: r[i] as int == s[i]
  {
    seq(|s|, i requires 0 <= i < |s| => s[i] as char)
  }

  lemma CharsInjective(a: seq<byte>, b: seq<byte>)
    requires Chars(a) == Chars(b)
    ensures a == b
  {
    assert forall i | 0 <= i < |a| :: a[i] == Chars(a)[i] as int;
  }
}
