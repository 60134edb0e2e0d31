/** `LEIError`: every way parsing or building an LEI can fail, with its user-facing
    (`Display`) and diagnostic (`Debug`) renderings. */
module Errors {
  import opened Ascii
  import opened Decimal

  /** The fixed-width byte arrays the field-content variants carry. */
  type LouIdBytes = s: seq<byte> | |s| == 4 witness [0, 0, 0, 0]
  type EntityIdBytes = s: seq<byte> | |s| == 14 witness [0, 0, 0, 0, 0, 0, 0, 0, 0, 0, 0, 0, 0, 0]
  type CheckDigitBytes = s: seq<byte> | |s| == 2 witness [0, 0]

  /** Equality of errors is structural, over the variant and all its fields. The
      length variants record the observed byte count (`usize`); the format variants
      record a copy of the whole offending field. */
  datatype LEIError =
    | InvalidLength(was: nat)
    | InvalidPayloadLength(was: nat)
    | InvalidLouIdLength(was: nat)
    | InvalidEntityIdLength(was: nat)
    | InvalidLouId(wasLouId: LouIdBytes)
    | InvalidEntityId(wasEntityId: EntityIdBytes)
    | InvalidCheckDigits(wasCheckDigits: CheckDigitBytes)
    | IncorrectCheckDigits(wasCheckDigits: CheckDigitBytes, expected: CheckDigitBytes)
  {
    predicate IsLengthError() {
      InvalidLength? || InvalidPayloadLength? || InvalidLouIdLength? || InvalidEntityIdLength?
    }
  }

  /** A byte that `{:?}` prints as itself inside a quoted string: printable ASCII other
      than the double quote and the backslash, which it escapes. */
  predicate IsPlain(b: byte) {
    ' ' as int <= b <= '~' as int && b != '"' as int && b != '\\' as int
  }

  predicate AllPlain(s: seq<byte>) {
    forall i | 0 <= i < |s| :: IsPlain(s[i])
  }

  /** The errors whose renderings this model covers: those whose byte payloads need no
      escaping. Every check-digit pair that reaches `IncorrectCheckDigits` is digits. */
  predicate Renderable(e: LEIError) {
    match e
    case InvalidLouId(w) => AllPlain(w)
    case InvalidEntityId(w) => AllPlain(w)
    case InvalidCheckDigits(w) => AllPlain(w)
    case IncorrectCheckDigits(w, x) => AllPlain(w) && AllPlain(x)
    case _ => true
  }

  lemma DigitsArePlain(s: seq<byte>)
    requires AllDigits(s)
    ensures AllPlain(s)
  {
  }

  /** `{:?}` of a string made of plain bytes. */
  function Quote(s: seq<byte>): (r: string)
    requires AllPlain(s)
    ensures |r| == |s| + 2 && r[0] == '"' && r[|r| - 1] == '"'
    ensures r[1..|r| - 1] == Chars(s)
  {
    "\"" + Chars(s) + "\""
  }

  /** `impl Display for LEIError`. */
  function Display(e: LEIError): (s: string)
    requires Renderable(e)
    ensures e.InvalidLength? ==> s == "invalid length " + Dec(e.was) + " bytes when expecting 20"
    ensures e.InvalidPayloadLength? ==> s == "invalid Payload length " + Dec(e.was) + " bytes when expecting 18"
    ensures e.InvalidLouIdLength? ==> s == "invalid LOU ID length " + Dec(e.was) + " bytes when expecting 4"
    ensures e.InvalidEntityIdLength? ==> s == "invalid Entity ID length " + Dec(e.was) + " bytes when expecting 14"
    ensures e.IncorrectCheckDigits? ==>
              s == "incorrect check digits " + Quote(e.wasCheckDigits) + " when expecting " + Quote(e.expected)
  {
    match e
    case InvalidLength(n) => "invalid length " + Dec(n) + " bytes when expecting 20"
    case InvalidPayloadLength(n) => "invalid Payload length " + Dec(n) + " bytes when expecting 18"
    case InvalidLouIdLength(n) => "invalid LOU ID length " + Dec(n) + " bytes when expecting 4"
    case InvalidEntityIdLength(n) => "invalid Entity ID length " + Dec(n) + " bytes when expecting 14"
    case InvalidLouId(w) => "prefix " + Quote(w) + " is not 4 uppercase ASCII alphanumeric characters"
    case InvalidEntityId(w) => "basic code " + Quote(w) + " is not 14 uppercase ASCII alphanumeric characters"
    case InvalidCheckDigits(w) => "check digits " + Quote(w) + " is not two ASCII decimal digits"
    case IncorrectCheckDigits(w, x) => "incorrect check digits " + Quote(w) + " when expecting " + Quote(x)
  }

  /** `impl Debug for LEIError`: the variant name, then its fields in braces. */
  function Debug(e: LEIError): (s: string)
    requires Renderable(e)
    ensures e.InvalidLength? ==> s == "InvalidLength { was: " + Dec(e.was) + " }"
    ensures e.InvalidPayloadLength? ==> s == "InvalidPayloadLength { was: " + Dec(e.was) + " }"
    ensures e.InvalidLouIdLength? ==> s == "InvalidLouIdLength { was: " + Dec(e.was) + " }"
    ensures e.InvalidEntityIdLength? ==> s == "InvalidEntityIdLength { was: " + Dec(e.was) + " }"
    ensures e.IncorrectCheckDigits? ==>
              s == "IncorrectCheckDigits { was: " + Quote(e.wasCheckDigits) + ", expected: " + Quote(e.expected) + " }"
  {
    match e
    case InvalidLength(n) => "InvalidLength { was: " + Dec(n) + " }"
    case InvalidPayloadLength(n) => "InvalidPayloadLength { was: " + Dec(n) + " }"
    case InvalidLouIdLength(n) => "InvalidLouIdLength { was: " + Dec(n) + " }"
    case InvalidEntityIdLength(n) => "InvalidEntityIdLength { was: " + Dec(n) + " }"
    case InvalidLouId(w) => "InvalidLouId { was: " + Quote(w) + " }"
    case InvalidEntityId(w) => "InvalidEntityId { was: " + Quote(w) + " }"
    case InvalidCheckDigits(w) => "InvalidCheckDigits { was: " + Quote(w) + " }"
    case IncorrectCheckDigits(w, x) => "IncorrectCheckDigits { was: " + Quote(w) + ", expected: " + Quote(x) + " }"
  }

  /** Two texts that agree around a middle part agree on the middle part. */
  lemma StripFrame(p: string, x: string, y: string, q: string)
    requires p + x + q == p + y + q
    ensures x == y
  {
    var n := |p + x + q|;
    assert |x| == |y|;
    assert x == (p + x + q)[|p|..|p| + |x|];
    assert y == (p + y + q)[|p|..|p| + |y|];
  }

  /** The user-facing message of a length error determines the error: which field, and
      the length that was observed. */
  lemma LengthDisplayInjective(e1: LEIError, e2: LEIError)
    requires e1.IsLengthError() && e2.IsLengthError()
    requires Display(e1) == Display(e2)
    ensures e1 == e2
  {
    assert Display(e1)[8] == Display(e2)[8];
    match e1
    case InvalidLength(_) =>
      StripFrame("invalid length ", Dec(e1.was), Dec(e2.was), " bytes when expecting 20");
      DecInjective(e1.was, e2.was);
    case InvalidPayloadLength(_) =>
      StripFrame("invalid Payload length ", Dec(e1.was), Dec(e2.was), " bytes when expecting 18");
      DecInjective(e1.was, e2.was);
    case InvalidLouIdLength(_) =>
      StripFrame("invalid LOU ID length ", Dec(e1.was), Dec(e2.was), " bytes when expecting 4");
      DecInjective(e1.was, e2.was);
    case InvalidEntityIdLength(_) =>
      StripFrame("invalid Entity ID length ", Dec(e1.was), Dec(e2.was), " bytes when expecting 14");
      DecInjective(e1.was, e2.was);
  }

  /** The same holds of the diagnostic rendering. */
  lemma LengthDebugInjective(e1: LEIError, e2: LEIError)
    requires e1.IsLengthError() && e2.IsLengthError()
    requires Debug(e1) == Debug(e2)
    ensures e1 == e2
  {
    assert Debug(e1)[8] == Debug(e2)[8];
    match e1
    case InvalidLength(_) =>
      StripFrame("InvalidLength { was: ", Dec(e1.was), Dec(e2.was), " }");
      DecInjective(e1.was, e2.was);
    case InvalidPayloadLength(_) =>
      StripFrame("InvalidPayloadLength { was: ", Dec(e1.was), Dec(e2.was), " }");
      DecInjective(e1.was, e2.was);
    case InvalidLouIdLength(_) =>
      StripFrame("InvalidLouIdLength { was: ", Dec(e1.was), Dec(e2.was), " }");
      DecInjective(e1.was, e2.was);
    case InvalidEntityIdLength(_) =>
      StripFrame("InvalidEntityIdLength { was: ", Dec(e1.was), Dec(e2.was), " }");
      DecInjective(e1.was, e2.was);
  }

  /** Two texts with the same fixed parts and equally long first variable parts agree
      on both variable parts. */
  lemma SplitFrame(p: string, a1: string, a2: string, m: string, b1: string, b2: string)
    requires |a1| == |a2|
    requires p + a1 + m + b1 == p + a2 + m + b2
    ensures a1 == a2 && b1 == b2
  {
    var s1 := p + a1 + m + b1;
    var s2 := p + a2 + m + b2;
    assert a1 == s1[|p|..|p| + |a1|] == s2[|p|..|p| + |a2|] == a2;
    assert b1 == s1[|p| + |a1| + |m|..] == s2[|p| + |a2| + |m|..] == b2;
  }

  lemma QuoteInjective(a: seq<byte>, b: seq<byte>)
    requires AllPlain(a) && AllPlain(b)
    requires Quote(a) == Quote(b)
    ensures a == b
  {
    CharsInjective(a, b);
  }

  /** A checksum-mismatch message names both the check digits found and the ones expected. */
  lemma IncorrectCheckDigitsDisplayInjective(w1: CheckDigitBytes, x1: CheckDigitBytes, w2: CheckDigitBytes, x2: CheckDigitBytes)
    requires AllPlain(w1) && AllPlain(x1) && AllPlain(w2) && AllPlain(x2)
    requires Display(IncorrectCheckDigits(w1, x1)) == Display(IncorrectCheckDigits(w2, x2))
    ensures w1 == w2 && x1 == x2
  {
    SplitFrame("incorrect check digits ", Quote(w1), Quote(w2), " when expecting ", Quote(x1), Quote(x2));
    QuoteInjective(w1, w2);
    QuoteInjective(x1, x2);
  }
}
