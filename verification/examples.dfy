/** Concrete inputs whose outcome does not depend on the checksum engine. */
module LeiExamples {
  import opened Wrappers
  import opened Ascii
  import opened Errors
  import opened Lei
  import opened LeiProperties

  /** A string of 8 bytes is refused for its length before anything else is looked at. */
  lemma ParseTooShort(engine: Engine)
    ensures Parse(engine, Bytes("TOOSHORT")) == Failure(InvalidLength(8))
  {
  }

  lemma LowercaseExampleFields()
    ensures |Bytes("635400b4jjbon4tchf02")| == 20
    ensures AllAlnumUpper(Bytes("635400b4jjbon4tchf02")[..4])
    ensures Bytes("635400b4jjbon4tchf02")[4..18] == Bytes("00b4jjbon4tchf")
  {
    assert Bytes("635400b4jjbon4tchf02")[..4] == Bytes("6354");
  }

  lemma LowercaseExampleEntityIdRefused()
    ensures !AllAlnumUpper(Bytes("00b4jjbon4tchf"))
  {
    assert !IsAlnumUpper(Bytes("00b4jjbon4tchf")[2]);
  }

  /** Lower-case letters in the Entity ID are refused by strict parsing, and the error
      carries the whole Entity ID. */
  lemma ParseLowercaseEntityId(engine: Engine)
    ensures Parse(engine, Bytes("635400b4jjbon4tchf02")) == Failure(InvalidEntityId(Bytes("00b4jjbon4tchf")))
  {
    LowercaseExampleFields();
    LowercaseExampleEntityIdRefused();
  }

  lemma PaddedExampleSplits()
    ensures Bytes("  yz83gd8l7gg84979j516  ") == Bytes("  ") + Bytes("yz83gd8l7gg84979j516") + Bytes("  ")
  {
  }

  lemma ExampleUpperCases()
    ensures ToAsciiUpper(Bytes("yz83gd8l7gg84979j516")) == Bytes("YZ83GD8L7GG84979J516")
  {
  }

  /** Loose parsing of the example LEI from section A.1 of ISO 17442-1:2020, written in
      lower case and padded with spaces, is strict parsing of its canonical form. */
  lemma ParseLooseExample(engine: Engine)
    ensures ParseLoose(engine, Bytes("  yz83gd8l7gg84979j516  ")) == Parse(engine, Bytes("YZ83GD8L7GG84979J516"))
  {
    var p := Bytes("  ");
    var t := Bytes("yz83gd8l7gg84979j516");
    PaddedExampleSplits();
    ExampleUpperCases();
    assert !IsSpace(t[0]) && !IsSpace(t[|t| - 1]);
    ParseLoosePadded(engine, p, t, p);
  }
}
