/** The LEI value type and the five construction entry points: strict and loose parsing,
    building from a payload or from its parts, and boolean validation. An LEI is 20 bytes:
    a 4-byte LOU ID, a 14-byte Entity ID and a 2-digit check pair (ISO 17442-1:2020). */
module Lei {
  import opened Wrappers
  import opened Ascii
  import opened Digits
  import opened Errors

  /** The ISO/IEC 7064 MOD 97-10 checksum engine, applied to a stream of ASCII decimal
      digits. It is an external component, so every operation takes it as a parameter and
      relies only on its range: a remainder below 97. The engine's "no checksum" answer
      cannot reach this model: it is only ever given the expansion of a validated payload. */
  type Engine = f: seq<byte> -> nat | forall ds :: f(ds) < 97 witness (ds: seq<byte>) => 0

  /** Fail-fast scan, as the validators' `for` loops: the position of the first byte that
      `accept` refuses, if there is one. */
  function FirstRejected(s: seq<byte>, accept: byte -> bool): (r: Option<nat>)
    ensures r.None? <==> forall i | 0 <= i < |s| :: accept(s[i])
    ensures r.Some? ==> r.value < |s| && !accept(s[r.value])
    ensures r.Some? ==> forall i | 0 <= i < r.value :: accept(s[i])
  {
    if |s| == 0 then None
    else if !accept(s[0]) then Some(0)
    else match FirstRejected(s[1..], accept)
      case None => None
      case Some(k) => Some(k + 1)
  }

  /** `validate_lou_id_format`; a slice of another width is a panic. */
  function ValidateLouIdFormat(li: seq<byte>): (r: Outcome<LEIError>)
    requires |li| == 4
    ensures r.Pass? <==> AllAlnumUpper(li)
    ensures r.Fail? ==> r.error == InvalidLouId(li)
  {
    if FirstRejected(li, IsAlnumUpper).None? then Pass else Fail(InvalidLouId(li))
  }

  /** `validate_entity_id_format`; a slice of another width is a panic. */
  function ValidateEntityIdFormat(ei: seq<byte>): (r: Outcome<LEIError>)
    requires |ei| == 14
    ensures r.Pass? <==> AllAlnumUpper(ei)
    ensures r.Fail? ==> r.error == InvalidEntityId(ei)
  {
    if FirstRejected(ei, IsAlnumUpper).None? then Pass else Fail(InvalidEntityId(ei))
  }

  /** `validate_check_digits_format`: digits only, letters are refused. */
  function ValidateCheckDigitsFormat(cd: seq<byte>): (r: Outcome<LEIError>)
    requires |cd| == 2
    ensures r.Pass? <==> AllDigits(cd)
    ensures r.Fail? ==> r.error == InvalidCheckDigits(cd)
  {
    if FirstRejected(cd, IsDigit).None? then Pass else Fail(InvalidCheckDigits(cd))
  }

  /** `compute_check_digits`: the engine's checksum of the expansion of `s`, as two ASCII
      digits, tens first and zero-padded. A byte outside 0-9A-Z is a panic. */
  function ComputeCheckDigits(engine: Engine, s: seq<byte>): (r: CheckDigitBytes)
    requires AllAlnumUpper(s)
    ensures AllDigits(r)
    ensures 10 * DigitValue(r[0]) + DigitValue(r[1]) == engine(Expand(s))
  {
    var sum := engine(Expand(s));
    [DIGIT_ZERO + sum / 10, DIGIT_ZERO + sum % 10]
  }

  /** The layout every LEI value has: an uppercase alphanumeric payload of 18 bytes
      followed by two decimal digits. */
  predicate IsLeiFormat(s: seq<byte>) {
    |s| == 20 && AllAlnumUpper(s[..18]) && AllDigits(s[18..])
  }

  /** The check pair is the one the engine computes for the payload. */
  predicate CheckDigitsAgree(engine: Engine, s: seq<byte>)
    requires IsLeiFormat(s)
  {
    s[18..] == ComputeCheckDigits(engine, s[..18])
  }

  /** A complete, valid LEI. */
  predicate IsValidLei(engine: Engine, s: seq<byte>) {
    IsLeiFormat(s) && CheckDigitsAgree(engine, s)
  }

  /** The LEI invariant is exactly what the three field validators and the check
      computation accept: 20 bytes whose fields pass their format checks and whose check
      pair is the computed one. */
  lemma ValidLeiByFields(engine: Engine, s: seq<byte>)
    ensures IsValidLei(engine, s) <==>
              && |s| == 20
              && ValidateLouIdFormat(s[..4]).Pass?
              && ValidateEntityIdFormat(s[4..18]).Pass?
              && ValidateCheckDigitsFormat(s[18..]).Pass?
              && AllAlnumUpper(s[..18])
              && s[18..] == ComputeCheckDigits(engine, s[..18])
  {
    if |s| == 20 {
      AllAlnumUpperSplit(s[..18], 4);
      assert s[..18][..4] == s[..4] && s[..18][4..] == s[4..18];
    }
  }

  /** `struct LEI([u8; 20])`. Only the entry points below produce values, and each
      producer also guarantees `IsValidLei` for the engine it was given. */
  type LEI = s: seq<byte> | IsLeiFormat(s)
    witness [48, 48, 48, 48, 48, 48, 48, 48, 48, 48, 48, 48, 48, 48, 48, 48, 48, 48, 48, 48]

  /** `lou_id`. */
  function LouId(x: LEI): (r: seq<byte>)
    ensures |r| == 4 && AllAlnumUpper(r)
  {
    AllAlnumUpperSplit(x[..18], 4);
    assert x[..18][..4] == x[..4];
    x[..4]
  }

  /** `entity_id`. */
  function EntityId(x: LEI): (r: seq<byte>)
    ensures |r| == 14 && AllAlnumUpper(r)
  {
    AllAlnumUpperSplit(x[..18], 4);
    assert x[..18][4..] == x[4..18];
    x[4..18]
  }

  /** `payload`: everything but the check pair. */
  function Payload(x: LEI): (r: seq<byte>)
    ensures |r| == 18 && AllAlnumUpper(r)
  {
    x[..18]
  }

  /** `check_digits`. */
  function CheckDigits(x: LEI): (r: seq<byte>)
    ensures |r| == 2 && AllDigits(r)
  {
    x[18..]
  }

  /** `impl Display for LEI` (and so `to_string`): the 20 bytes themselves. */
  function ToString(x: LEI): (r: seq<byte>)
    ensures |r| == 20 && IsLeiFormat(r)
  {
    x
  }

  /** `impl Debug for LEI`: the text wrapped in `LEI(...)`. */
  function DebugString(x: LEI): (r: string)
    ensures |r| == 25 && r[..4] == "LEI(" && r[4..24] == Chars(x) && r[24] == ')'
  {
    "LEI(" + Chars(x) + ")"
  }

  /** The LOU ID and Entity ID of a 20-byte input are well formed exactly when its
      payload is. */
  lemma PayloadSplit(value: seq<byte>)
    requires |value| >= 18
    ensures AllAlnumUpper(value[..18]) <==> AllAlnumUpper(value[..4]) && AllAlnumUpper(value[4..18])
  {
    AllAlnumUpperSplit(value[..18], 4);
    assert value[..18][..4] == value[..4];
    assert value[..18][4..] == value[4..18];
  }

  /** `parse`: length, then LOU ID, then Entity ID, then check-digit format, then the
      checksum; the first failing check is the error reported. */
  function Parse(engine: Engine, value: seq<byte>): (r: Result<LEI, LEIError>)
    ensures r.Success? <==> IsValidLei(engine, value)
    ensures r.Success? ==> r.value == value
    ensures r.Failure? && r.error.InvalidLength? <==> |value| != 20
    ensures r.Failure? && r.error.InvalidLouId? <==> |value| == 20 && !AllAlnumUpper(value[..4])
    ensures r.Failure? && r.error.InvalidEntityId? <==>
              |value| == 20 && AllAlnumUpper(value[..4]) && !AllAlnumUpper(value[4..18])
    ensures r.Failure? && r.error.InvalidCheckDigits? <==>
              |value| == 20 && AllAlnumUpper(value[..18]) && !AllDigits(value[18..])
    ensures r.Failure? && r.error.IncorrectCheckDigits? <==>
              IsLeiFormat(value) && !CheckDigitsAgree(engine, value)
    ensures r.Failure? && r.error.InvalidLength? ==> r.error.was == |value|
    ensures r.Failure? && r.error.InvalidLouId? ==> r.error.wasLouId == value[..4]
    ensures r.Failure? && r.error.InvalidEntityId? ==> r.error.wasEntityId == value[4..18]
    ensures r.Failure? && r.error.InvalidCheckDigits? ==> r.error.wasCheckDigits == value[18..]
    ensures r.Failure? && r.error.IncorrectCheckDigits? ==>
              && r.error.wasCheckDigits == value[18..]
              && r.error.expected == ComputeCheckDigits(engine, value[..18])
  {
    if |value| != 20 then Failure(InvalidLength(|value|))
    else
      PayloadSplit(value);
      var checkDigits := value[18..20];
      assert checkDigits == value[18..];
      var lou := ValidateLouIdFormat(value[..4]);
      if lou.Fail? then Failure(lou.error)
      else
        var entity := ValidateEntityIdFormat(value[4..18]);
        if entity.Fail? then Failure(entity.error)
        else
          var format := ValidateCheckDigitsFormat(checkDigits);
          if format.Fail? then Failure(format.error)
          else
            assert IsLeiFormat(value);
            var computed := ComputeCheckDigits(engine, value[..18]);
            if checkDigits != computed then Failure(IncorrectCheckDigits(checkDigits, computed))
            else Success(value)
  }

  /** `validate`: the same checks as `parse`, answering only yes or no, with the check
      pair compared one byte at a time. */
  function Validate(engine: Engine, value: seq<byte>): (ok: bool)
    ensures ok <==> IsValidLei(engine, value)
  {
    if |value| != 20 then false
    else if ValidateLouIdFormat(value[..4]).Fail? then false
    else if ValidateEntityIdFormat(value[4..18]).Fail? then false
    else if ValidateCheckDigitsFormat(value[18..20]).Fail? then false
    else
      PayloadSplit(value);
      var computed := ComputeCheckDigits(engine, value[..18]);
      if value[18] != computed[0] then false
      else if value[19] != computed[1] then false
      else
        assert value[18..] == [value[18], value[19]];
        true
  }

  /** `parse_loose`: upper-case the ASCII letters, trim surrounding whitespace, then
      parse strictly. */
  function ParseLoose(engine: Engine, value: seq<byte>): (r: Result<LEI, LEIError>)
    ensures r.Success? <==> IsValidLei(engine, Trim(ToAsciiUpper(value)))
    ensures r.Success? ==> r.value == Trim(ToAsciiUpper(value))
  {
    var uc := ToAsciiUpper(value);
    var temp := Trim(uc);
    Parse(engine, temp)
  }

  /** A valid LEI is already upper-case and has no surrounding whitespace. */
  lemma CanonicalIsLoose(value: seq<byte>)
    requires IsLeiFormat(value)
    ensures Trim(ToAsciiUpper(value)) == value
  {
    PayloadSplit(value);
    assert forall i | 0 <= i < |value| :: !IsLower(value[i]) && !IsSpace(value[i]) by {
      forall i | 0 <= i < |value|
        ensures !IsLower(value[i]) && !IsSpace(value[i])
      {
        if i < 18 {
          assert value[i] == value[..18][i];
        } else {
          assert value[i] == value[18..][i - 18];
        }
      }
    }
    ToAsciiUpperNoLower(value);
    TrimPadded([], value, []);
    assert [] + value + [] == value;
  }

  /** `impl FromStr for LEI`: loose parsing. */
  function FromStr(engine: Engine, s: seq<byte>): (r: Result<LEI, LEIError>)
    ensures r.Success? <==> IsValidLei(engine, Trim(ToAsciiUpper(s)))
    ensures r.Success? ==> r.value == Trim(ToAsciiUpper(s))
  {
    ParseLoose(engine, s)
  }

  /** `build_from_payload`: the check pair is computed, so no checksum error can occur. */
  function BuildFromPayload(engine: Engine, payload: seq<byte>): (r: Result<LEI, LEIError>)
    ensures r.Success? <==> |payload| == 18 && AllAlnumUpper(payload)
    ensures r.Success? ==> r.value[..18] == payload && IsValidLei(engine, r.value)
    ensures r.Failure? && r.error.InvalidPayloadLength? <==> |payload| != 18
    ensures r.Failure? && r.error.InvalidLouId? <==> |payload| == 18 && !AllAlnumUpper(payload[..4])
    ensures r.Failure? && r.error.InvalidEntityId? <==>
              |payload| == 18 && AllAlnumUpper(payload[..4]) && !AllAlnumUpper(payload[4..])
    ensures r.Failure? && r.error.InvalidPayloadLength? ==> r.error.was == |payload|
    ensures r.Failure? && r.error.InvalidLouId? ==> r.error.wasLouId == payload[..4]
    ensures r.Failure? && r.error.InvalidEntityId? ==> r.error.wasEntityId == payload[4..]
  {
    if |payload| != 18 then Failure(InvalidPayloadLength(|payload|))
    else
      var b := payload[..18];
      var lou := ValidateLouIdFormat(b[..4]);
      if lou.Fail? then Failure(lou.error)
      else
        var entity := ValidateEntityIdFormat(b[4..18]);
        if entity.Fail? then Failure(entity.error)
        else
          PayloadSplit(b);
          assert b[..18] == b;
          var bb := b + ComputeCheckDigits(engine, b);
          assert bb[..18] == b && bb[18..] == ComputeCheckDigits(engine, b);
          Success(bb)
  }

  /** `build_from_parts`: LOU ID length, LOU ID format, Entity ID length, Entity ID format,
      in that order; then the check pair is computed. */
  function BuildFromParts(engine: Engine, louId: seq<byte>, entityId: seq<byte>): (r: Result<LEI, LEIError>)
    ensures r.Success? <==>
              |louId| == 4 && AllAlnumUpper(louId) && |entityId| == 14 && AllAlnumUpper(entityId)
    ensures r.Success? ==>
              r.value[..4] == louId && r.value[4..18] == entityId && IsValidLei(engine, r.value)
    ensures r.Failure? && r.error.InvalidLouIdLength? <==> |louId| != 4
    ensures r.Failure? && r.error.InvalidLouId? <==> |louId| == 4 && !AllAlnumUpper(louId)
    ensures r.Failure? && r.error.InvalidEntityIdLength? <==>
              |louId| == 4 && AllAlnumUpper(louId) && |entityId| != 14
    ensures r.Failure? && r.error.InvalidEntityId? <==>
              |louId| == 4 && AllAlnumUpper(louId) && |entityId| == 14 && !AllAlnumUpper(entityId)
    ensures r.Failure? && r.error.InvalidLouIdLength? ==> r.error.was == |louId|
    ensures r.Failure? && r.error.InvalidLouId? ==> r.error.wasLouId == louId
    ensures r.Failure? && r.error.InvalidEntityIdLength? ==> r.error.was == |entityId|
    ensures r.Failure? && r.error.InvalidEntityId? ==> r.error.wasEntityId == entityId
  {
    if |louId| != 4 then Failure(InvalidLouIdLength(|louId|))
    else
      var lou := ValidateLouIdFormat(louId[..4]);
      if lou.Fail? then Failure(lou.error)
      else if |entityId| != 14 then Failure(InvalidEntityIdLength(|entityId|))
      else
        var entity := ValidateEntityIdFormat(entityId[..14]);
        if entity.Fail? then Failure(entity.error)
        else
          var payload := louId[..4] + entityId[..14];
          AllAlnumUpperSplit(payload, 4);
          assert payload[..4] == louId && payload[4..] == entityId;
          var bb := payload + ComputeCheckDigits(engine, payload);
          assert bb[..18] == payload && bb[18..] == ComputeCheckDigits(engine, payload);
          assert bb[..4] == louId && bb[4..18] == entityId;
          Success(bb)
  }
}
