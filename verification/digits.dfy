/** The letter-to-decimal expansion that feeds the MOD 97-10 checksum: every digit byte
    passes through, every letter A..Z becomes its value 10..35 written as two digits. */
module Digits {
  import opened Wrappers
  import opened Ascii

  /** The value of an uppercase alphanumeric byte: 0..9 for a digit, 10..35 for A..Z. */
  function Value(b: byte): (v: nat)
    requires IsAlnumUpper(b)
    ensures v < 36
    ensures v < 10 <==> IsDigit(b)
  {
    if IsDigit(b) then b - DIGIT_ZERO else b - UPPER_A + 10
  }

  /** The output of one input byte. */
  function ExpandByte(b: byte): (r: seq<byte>)
    requires IsAlnumUpper(b)
    ensures AllDigits(r)
    ensures IsDigit(b) ==> r == [b]
    ensures IsUpper(b) ==> |r| == 2 && '1' as int <= r[0] <= '3' as int
  {
    var d := Value(b);
    if d < 10 then [d + DIGIT_ZERO] else [d / 10 + DIGIT_ZERO, d % 10 + DIGIT_ZERO]
  }

  /** A letter's two digits read, tens first, as its value 10..35. */
  lemma ExpandLetter(b: byte)
    requires IsUpper(b)
    ensures 10 * DigitValue(ExpandByte(b)[0]) + DigitValue(ExpandByte(b)[1]) == b - UPPER_A + 10
  {
  }

  function CountDigits(s: seq<byte>): nat {
    if |s| == 0 then 0 else (if IsDigit(s[0]) then 1 else 0) + CountDigits(s[1..])
  }

  function CountUpper(s: seq<byte>): nat {
    if |s| == 0 then 0 else (if IsUpper(s[0]) then 1 else 0) + CountUpper(s[1..])
  }

  /** Everything the iterator emits for `s`, in order. */
  function Expand(s: seq<byte>): (r: seq<byte>)
    requires AllAlnumUpper(s)
    ensures AllDigits(r)
    ensures |r| == CountDigits(s) + 2 * CountUpper(s)
  {
    if |s| == 0 then [] else ExpandByte(s[0]) + Expand(s[1..])
  }

  /** Every uppercase alphanumeric byte is counted once, as a digit or as a letter. */
  lemma {:induction false} CountsCover(s: seq<byte>)
    requires AllAlnumUpper(s)
    ensures CountDigits(s) + CountUpper(s) == |s|
  {
    if |s| > 0 {
      CountsCover(s[1..]);
    }
  }

  /** The expansion is at least as long as the input and at most twice as long; in
      particular an 18-byte payload never yields an empty digit stream. */
  lemma ExpandLengthBounds(s: seq<byte>)
    requires AllAlnumUpper(s)
    ensures |s| <= |Expand(s)| <= 2 * |s|
  {
    CountsCover(s);
  }

  /** Bytes are expanded one at a time, independently of their neighbours. */
  lemma {:induction false} ExpandAppend(a: seq<byte>, b: seq<byte>)
    requires AllAlnumUpper(a) && AllAlnumUpper(b)
    ensures AllAlnumUpper(a + b)
    ensures Expand(a + b) == Expand(a) + Expand(b)
    decreases |a|
  {
    if |a| == 0 {
      assert a + b == b;
    } else {
      assert (a + b)[1..] == a[1..] + b;
      ExpandAppend(a[1..], b);
    }
  }

  /** `DigitsIterator`: the unconsumed input and at most one computed-but-unemitted digit. */
  datatype DigitsIterator = DigitsIterator(bytes: seq<byte>, scratch: Option<byte>)

  /** The output the scratch buffer still owes. */
  function Pending(it: DigitsIterator): seq<byte> {
    match it.scratch
    case None => []
    case Some(d) => [d]
  }

  /** What has been emitted, then the scratch digit, then the expansion of the rest,
      together make up the expansion of the original input. */
  ghost predicate Inv(original: seq<byte>, emitted: seq<byte>, it: DigitsIterator) {
    && AllAlnumUpper(original)
    && AllAlnumUpper(it.bytes)
    && (it.scratch.Some? ==> IsDigit(it.scratch.value))
    && emitted + Pending(it) + Expand(it.bytes) == Expand(original)
  }

  /** `DigitsIterator::new`. */
  function New(bytes: seq<byte>): (it: DigitsIterator)
    ensures it.bytes == bytes && it.scratch.None?
    ensures AllAlnumUpper(bytes) ==> Inv(bytes, [], it)
  {
    DigitsIterator(bytes, None)
  }

  /** `Iterator::next` as a pure transition: the next digit (None once exhausted) and the advanced iterator.
      A byte outside 0-9A-Z at the head of the input is the caller's fault (a panic). */
  function Step(it: DigitsIterator): (res: (Option<byte>, DigitsIterator))
    requires it.scratch.Some? || |it.bytes| == 0 || IsAlnumUpper(it.bytes[0])
    ensures res.0.None? <==> it.scratch.None? && |it.bytes| == 0
    ensures res.0.None? ==> res.1 == it
    ensures it.scratch.Some? ==> res.0 == it.scratch && res.1 == DigitsIterator(it.bytes, None)
    ensures it.scratch.None? && |it.bytes| > 0 ==>
              && res.1.bytes == it.bytes[1..]
              && [res.0.value] + Pending(res.1) == ExpandByte(it.bytes[0])
  {
    match it.scratch
    case Some(d) => (Some(d), DigitsIterator(it.bytes, None))
    case None =>
      if |it.bytes| == 0 then (None, it)
      else
        var d := Value(it.bytes[0]);
        if d < 10 then (Some(d + DIGIT_ZERO), DigitsIterator(it.bytes[1..], None))
        else (Some(d / 10 + DIGIT_ZERO), DigitsIterator(it.bytes[1..], Some(d % 10 + DIGIT_ZERO)))
  }

  lemma StepFromScratch(original: seq<byte>, emitted: seq<byte>, it: DigitsIterator)
    requires Inv(original, emitted, it) && it.scratch.Some?
    ensures Inv(original, emitted + [it.scratch.value], DigitsIterator(it.bytes, None))
  {
    assert emitted + [it.scratch.value] + [] == emitted + Pending(it);
  }

  /** The digits a step produces from one input byte are digits. */
  lemma HeadDigits(b: byte, d: byte, scratch: seq<byte>)
    requires IsAlnumUpper(b) && [d] + scratch == ExpandByte(b)
    ensures IsDigit(d) && AllDigits(scratch)
  {
    assert d == ExpandByte(b)[0];
    assert forall i | 0 <= i < |scratch| :: scratch[i] == ExpandByte(b)[i + 1];
  }

  /** The expansion still owed is unchanged by moving one byte's expansion into the
      emitted prefix and the scratch buffer. */
  lemma HeadOwed(emitted: seq<byte>, bytes: seq<byte>, d: byte, scratch: seq<byte>)
    requires |bytes| > 0 && AllAlnumUpper(bytes)
    requires [d] + scratch == ExpandByte(bytes[0])
    ensures emitted + [d] + scratch + Expand(bytes[1..]) == emitted + Expand(bytes)
  {
    var rest := Expand(bytes[1..]);
    assert Expand(bytes) == ExpandByte(bytes[0]) + rest;
    Regroup(emitted, [d], scratch, rest);
  }

  lemma Regroup(a: seq<byte>, b: seq<byte>, c: seq<byte>, d: seq<byte>)
    ensures a + b + c + d == a + ((b + c) + d)
  {
  }

  /** Consuming one input byte whose expansion is the emitted digit followed by the new
      scratch content keeps the invariant. */
  lemma ConsumeHead(original: seq<byte>, emitted: seq<byte>, it: DigitsIterator, d: byte, it': DigitsIterator)
    requires Inv(original, emitted, it) && it.scratch.None? && |it.bytes| > 0
    requires it'.bytes == it.bytes[1..]
    requires [d] + Pending(it') == ExpandByte(it.bytes[0])
    ensures IsDigit(d) && Inv(original, emitted + [d], it')
  {
    HeadDigits(it.bytes[0], d, Pending(it'));
    assert it'.scratch.Some? ==> Pending(it')[0] == it'.scratch.value;
    HeadOwed(emitted, it.bytes, d, Pending(it'));
    assert emitted + Pending(it) + Expand(it.bytes) == emitted + Expand(it.bytes);
  }

  /** Each step keeps the expansion invariant: the digit it returns is the next one owed,
      and None comes only once everything owed has been emitted. */
  lemma StepPreservesInv(original: seq<byte>, emitted: seq<byte>, it: DigitsIterator)
    requires Inv(original, emitted, it)
    ensures Step(it).0.Some? ==> IsDigit(Step(it).0.value) && Inv(original, emitted + [Step(it).0.value], Step(it).1)
    ensures Step(it).0.None? ==> emitted == Expand(original)
  {
    if it.scratch.Some? {
      StepFromScratch(original, emitted, it);
    } else if |it.bytes| > 0 {
      var (d, it') := Step(it);
      ConsumeHead(original, emitted, it, d.value, it');
    } else {
      assert emitted + [] + [] == emitted;
    }
  }

  /** Drives the iterator until it returns None, as the checksum engine consumes it;
      the digits collected are exactly the expansion of the input. */
  method Drain(s: seq<byte>) returns (out: seq<byte>)
    requires AllAlnumUpper(s)
    ensures out == Expand(s)
  {
    var it := New(s);
    out := [];
    var done := false;
    while !done
      invariant Inv(s, out, it)
      invariant done ==> out == Expand(s)
      decreases |Expand(s)| - |out| + (if done then 0 else 1)
    {
      StepPreservesInv(s, out, it);
      var (d, it') := Step(it);
      match d {
        case None =>
          done := true;
        case Some(x) =>
          out := out + [x];
          it := it';
      }
    }
  }

  /** The iterator as a mutable cursor, as the Rust value behind `&mut self`. */
  class DigitsCursor {
    var state: DigitsIterator
    ghost const original: seq<byte>
    ghost var emitted: seq<byte>

    ghost predicate Valid()
      reads this
    {
      Inv(original, emitted, state)
    }

    constructor (bytes: seq<byte>)
      requires AllAlnumUpper(bytes)
      ensures Valid() && original == bytes && emitted == []
      ensures state == New(bytes)
    {
      state := New(bytes);
      original := bytes;
      emitted := [];
    }

    /** A returned digit extends the emitted prefix of `Expand(original)`; None means it is complete. */
    method Next() returns (d: Option<byte>)
      requires Valid()
      modifies this
      ensures Valid()
      ensures d.Some? ==> IsDigit(d.value) && emitted == old(emitted) + [d.value]
      ensures d.None? ==> emitted == old(emitted) == Expand(original)
    {
      StepPreservesInv(original, emitted, state);
      var (r, s') := Step(state);
      d := r;
      if r.Some? {
        emitted := emitted + [r.value];
        state := s';
      }
    }
  }
}
