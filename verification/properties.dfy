/** Properties relating the entry points to each other: round trips, agreement of
    `validate` with `parse`, and the equivalence of the three ways to build an LEI. */
module LeiProperties {
  import opened Wrappers
  import opened Ascii
  import opened Errors
  import opened Lei

  /** `validate(s)` is true exactly when `parse(s)` succeeds. */
  lemma ValidateAgreesWithParse(engine: Engine, s: seq<byte>)
    ensures Validate(engine, s) <==> Parse(engine, s).Success?
  {
  }

  /** A parsed LEI renders as the input, and its fields reassemble it. */
  lemma ParseRoundTrip(engine: Engine, s: seq<byte>)
    requires Parse(engine, s).Success?
    ensures ToString(Parse(engine, s).value) == s
    ensures var x := Parse(engine, s).value;
            && LouId(x) + EntityId(x) + CheckDigits(x) == s
            && Payload(x) + CheckDigits(x) == s
            && LouId(x) + EntityId(x) == Payload(x)
  {
    var x := Parse(engine, s).value;
    assert LouId(x) + EntityId(x) == x[..18];
    assert x[..18] + x[18..] == x;
  }

  /** Every checksum-mismatch error `parse` reports carries two digit pairs, so its
      `Display` and `Debug` renderings are defined. */
  lemma ParseMismatchRenderable(engine: Engine, s: seq<byte>)
    requires Parse(engine, s).Failure? && Parse(engine, s).error.IncorrectCheckDigits?
    ensures Renderable(Parse(engine, s).error)
  {
    var e := Parse(engine, s).error;
    DigitsArePlain(e.wasCheckDigits);
    DigitsArePlain(e.expected);
  }

  /** Every 18-byte payload has at most one check pair that parses. */
  lemma CheckPairUnique(engine: Engine, payload: seq<byte>, c1: seq<byte>, c2: seq<byte>)
    requires |payload| == 18
    requires Parse(engine, payload + c1).Success? && Parse(engine, payload + c2).Success?
    ensures c1 == c2
  {
    var s1 := payload + c1;
    var s2 := payload + c2;
    assert s1[..18] == payload == s2[..18];
    assert c1 == s1[18..] && c2 == s2[18..];
  }

  /** Parsing what `build_from_payload` built gives the same LEI back. */
  lemma BuildFromPayloadThenParse(engine: Engine, payload: seq<byte>)
    requires BuildFromPayload(engine, payload).Success?
    ensures Parse(engine, ToString(BuildFromPayload(engine, payload).value)) == BuildFromPayload(engine, payload)
  {
  }

  /** Building from the payload of a parsed LEI rebuilds that LEI. */
  lemma ParseThenBuildFromPayload(engine: Engine, s: seq<byte>)
    requires Parse(engine, s).Success?
    ensures BuildFromPayload(engine, Payload(Parse(engine, s).value)) == Parse(engine, s)
  {
    var x := Parse(engine, s).value;
    var b := BuildFromPayload(engine, Payload(x));
    assert b.value[..18] == x[..18];
    assert b.value[18..] == x[18..];
    assert b.value == b.value[..18] + b.value[18..];
    assert x == x[..18] + x[18..];
  }

  /** For a 4-byte LOU ID and a 14-byte Entity ID, building from the parts is building from
      their concatenation, failures included. */
  lemma BuildFromPartsIsBuildFromPayload(engine: Engine, louId: seq<byte>, entityId: seq<byte>)
    requires |louId| == 4 && |entityId| == 14
    ensures BuildFromParts(engine, louId, entityId) == BuildFromPayload(engine, louId + entityId)
  {
    var p := louId + entityId;
    assert p[..4] == louId && p[4..] == entityId;
    AllAlnumUpperSplit(p, 4);
    var r1 := BuildFromParts(engine, louId, entityId);
    var r2 := BuildFromPayload(engine, p);
    if r1.Success? {
      assert r1.value == r1.value[..18] + r1.value[18..];
      assert r2.value == r2.value[..18] + r2.value[18..];
      assert r1.value[..18] == r1.value[..4] + r1.value[4..18];
    }
  }

  /** Building from format-valid parts agrees with parsing the parts followed by the
      expected check pair. */
  lemma BuildFromPartsAgreesWithParse(engine: Engine, louId: seq<byte>, entityId: seq<byte>)
    requires |louId| == 4 && AllAlnumUpper(louId)
    requires |entityId| == 14 && AllAlnumUpper(entityId)
    ensures AllAlnumUpper(louId + entityId)
    ensures BuildFromParts(engine, louId, entityId)
         == Parse(engine, louId + entityId + ComputeCheckDigits(engine, louId + entityId))
  {
    var p := louId + entityId;
    AllAlnumUpperSplit(p, 4);
    assert p[..4] == louId && p[4..] == entityId;
    BuildFromPartsIsBuildFromPayload(engine, louId, entityId);
    var x := BuildFromPayload(engine, p).value;
    assert x == x[..18] + x[18..];
  }

  /** `parse_loose` accepts a strictly valid LEI unchanged. */
  lemma ParseLooseAcceptsStrict(engine: Engine, s: seq<byte>)
    requires Parse(engine, s).Success?
    ensures ParseLoose(engine, s) == Parse(engine, s)
  {
    CanonicalIsLoose(s);
  }

  /** `parse_loose` of a core surrounded by whitespace is strict parsing of the upper-cased
      core, whatever the core contains. */
  lemma ParseLoosePadded(engine: Engine, p: seq<byte>, t: seq<byte>, q: seq<byte>)
    requires AllSpace(p) && AllSpace(q)
    requires |t| > 0 && !IsSpace(t[0]) && !IsSpace(t[|t| - 1])
    ensures ParseLoose(engine, p + t + q) == Parse(engine, ToAsciiUpper(t))
  {
    ToAsciiUpperAppend(p + t, q);
    ToAsciiUpperAppend(p, t);
    ToAsciiUpperSpace(p);
    ToAsciiUpperSpace(q);
    ToAsciiUpperSpace(t);
    TrimPadded(ToAsciiUpper(p), ToAsciiUpper(t), ToAsciiUpper(q));
  }
}
