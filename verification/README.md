# LEI validation and construction, modelled in Dafny

This project models the core of `lei-rs`, a Rust library for Legal Entity Identifiers
(ISO 17442-1:2020). An LEI is 20 ASCII bytes: a 4-byte LOU ID, a 14-byte Entity ID (both
uppercase alphanumeric) and a 2-digit check pair. The check pair is an ISO/IEC 7064 MOD 97-10
checksum computed over a decimal expansion of the first 18 bytes, in which every letter
becomes its value 10..35 written as two digits.

Modules, one per part of the library:

- `Wrappers` (`wrappers.dfy`): `Option`, `Result`, and `Outcome` for Rust's `Result<(), E>`.
- `Ascii` (`ascii.dfy`): the `byte` type (`u8`), byte classes, `to_ascii_uppercase`,
  `trim` over ASCII whitespace, and the text view of bytes.
- `Decimal` (`decimal.dfy`): how a `usize` prints in decimal, with its inverse.
- `Digits` (`digits.dfy`): the digit expansion `Expand`, and `DigitsIterator` as a pure state
  transition `Step` (Rust's `next`). It also has a mutable `DigitsCursor` class and `Drain`,
  which runs the iterator to exhaustion the way the checksum engine consumes it.
- `Errors` (`error.dfy`): the `LEIError` taxonomy and its `Display` and `Debug` renderings.
- `Lei` (`lei.dfy`): the field validators, `compute_check_digits`, the `LEI` type and its
  accessors, and the five entry points `parse`, `parse_loose`, `build_from_payload`,
  `build_from_parts` and `validate`, plus `FromStr`.
- `LeiProperties` (`properties.dfy`): lemmas relating the entry points to each other.
- `LeiExamples` (`examples.dfy`): concrete inputs whose outcome does not depend on the
  checksum engine.

The MOD 97-10 engine comes from another crate, so it is not modelled. Every operation that
needs it takes an `engine` parameter of type `Engine`: any function from digit streams to a
remainder below 97. All results hold for every such engine. Because the engine is a
parameter, the `LEI` subset type carries only the engine-independent layout (`IsLeiFormat`).
Agreement of the check pair with the engine (`IsValidLei`) is instead guaranteed in the
postcondition of every operation that produces an LEI.

Rust `&str` inputs are modelled as their bytes (`seq<byte>`), since `len()` counts bytes. An
LEI's string views are the same bytes. Error messages are `string`s. Panics in the source are
preconditions. Those are: a field validator given a slice of the wrong width, and the digit
expansion given a byte outside `0-9A-Z`.

The field validators scan the bytes directly (src/lib.rs:71-77); only `compute_check_digits`
uses the digit expansion.

## Data types

- `Digits.DigitsIterator` models `struct DigitsIterator` (src/digits.rs:1-4): the bytes still to
  expand and an optional pending second digit. `Digits.New` models `DigitsIterator::new`
  (src/digits.rs:7-12).
- The constructor of the class `Digits.DigitsCursor` also models `DigitsIterator::new`
  (src/digits.rs:7-12). It holds `New(bytes)`, nothing emitted yet, and the cursor invariant
  `Valid()`.
- `Errors.LEIError` models `enum LEIError` (src/error.rs:15-58): one variant per failure, each
  with the observed length or the offending field bytes.
- `Lei.LEI` models `struct LEI([u8; 20])` (src/lib.rs:269-280) as the bytes in LEI layout
  (`IsLeiFormat`).

## Model

| member | source | states |
|---|---|---|
| Digits.Value | src/digits.rs:26-30 | a digit byte has value 0..9 and a letter has value 10..35; the value is below 10 exactly for digit bytes |
| Digits.ExpandByte | src/digits.rs:26-37 | a digit expands to itself alone; a letter expands to exactly two ASCII digits, the first of which is 1..3; every output byte is a digit |
| Digits.ExpandLetter | src/digits.rs:28-36 | a letter's two output digits, read tens first, give its value `b - 'A' + 10` |
| Digits.Expand | src/digits.rs:17-39 | the whole expansion contains only ASCII digits, and its length is (#digit bytes) + 2·(#letter bytes) |
| Digits.CountsCover | src/digits.rs:26-29 | every accepted byte is either a digit or a letter, so the two counts add up to the input length |
| Digits.ExpandLengthBounds | src/digits.rs:17-39 | the expansion is between 1 and 2 times the input length, so a non-empty payload never gives an empty digit stream |
| Digits.ExpandAppend | src/digits.rs:17-39 | bytes are expanded independently: `Expand(a + b) == Expand(a) + Expand(b)` |
| Digits.New | src/digits.rs:7-12 | a fresh iterator has an empty scratch, holds the whole input, and satisfies the expansion invariant with nothing emitted |
| Digits.Step | src/digits.rs:17-40 | `next` returns None exactly when the scratch is empty and the input is exhausted. A pending scratch digit is returned and cleared before any input is consumed. Otherwise one input byte is consumed, and the returned digit followed by the new scratch is that byte's expansion |
| Digits.StepFromScratch | src/digits.rs:18-22 | emitting the scratch digit keeps the expansion invariant |
| Digits.ConsumeHead | src/digits.rs:23-37 | consuming one input byte keeps the expansion invariant, and the digit emitted is an ASCII digit |
| Digits.StepPreservesInv | src/digits.rs:17-39 | each `next` keeps `emitted ++ scratch ++ Expand(remaining) == Expand(original)`. A returned byte is an ASCII digit, and None means everything has been emitted |
| Digits.Drain | src/digits.rs:15-40 | running the iterator until it returns None yields exactly `Expand(input)` |
| Digits.DigitsCursor.Next | src/digits.rs:17-40 | the `&mut self` iterator: each returned digit extends the emitted prefix of the expansion, and None means the prefix is complete |
| Ascii.UpperByte | src/lib.rs:165 | `to_ascii_uppercase` turns a lowercase letter into the matching uppercase letter, leaves every other byte alone, and never yields a lowercase letter |
| Ascii.ToAsciiUpper | src/lib.rs:165 | case folding works byte by byte and keeps the length |
| Ascii.ToAsciiUpperAppend | src/lib.rs:165 | case folding distributes over concatenation |
| Ascii.ToAsciiUpperSpace | src/lib.rs:165-166 | case folding neither creates nor removes whitespace |
| Ascii.ToAsciiUpperNoLower | src/lib.rs:165 | text with no lowercase letter is unchanged by case folding |
| Ascii.TrimStart | src/lib.rs:166 | the result is a suffix of the input, only whitespace was dropped, and it does not start with whitespace |
| Ascii.TrimEnd | src/lib.rs:166 | the result is a prefix of the input, only whitespace was dropped, and it does not end with whitespace |
| Ascii.Trim | src/lib.rs:166 | the trimmed text is the input's contiguous middle: everything before it and everything after it is whitespace, and it neither starts nor ends with whitespace (so an all-whitespace input trims to the empty text) |
| Ascii.TrimPadded | src/lib.rs:166 | trimming `p ++ t ++ q`, with `p` and `q` all whitespace and `t` non-empty without whitespace at its ends, gives exactly `t` |
| Ascii.AllAlnumUpperSplit | src/lib.rs:129-133 | a field is uppercase alphanumeric exactly when both of its sub-fields are |
| Decimal.Dec | src/error.rs:116-131 | a length prints as at least one ASCII digit, with no leading zero unless it is `0` |
| Decimal.ReadDecOfDec | src/error.rs:116-131 | reading the printed digits back gives the length that was printed |
| Decimal.DecInjective | src/error.rs:116-131 | different lengths print differently |
| Errors.DigitsArePlain | src/error.rs:172-181 | ASCII digits are printed by `{:?}` without escaping |
| Errors.Quote | src/error.rs:77 | `{:?}` of a string whose bytes need no escaping is those bytes between double quotes |
| Errors.Display | src/error.rs:113-184 | length variants read `invalid <field> length <n> bytes when expecting <20, 18, 4, 14>`; a checksum mismatch reads `incorrect check digits "<was>" when expecting "<expected>"` |
| Errors.Debug | src/error.rs:60-111 | length variants read `<VariantName> { was: <n> }`; a checksum mismatch reads `IncorrectCheckDigits { was: "<was>", expected: "<expected>" }` |
| Errors.LengthDisplayInjective | src/error.rs:116-131 | the user-facing message of a length error determines both the variant and the observed length |
| Errors.LengthDebugInjective | src/error.rs:63-74 | the diagnostic text of a length error determines both the variant and the observed length |
| Errors.IncorrectCheckDigitsDisplayInjective | src/error.rs:172-181 | a checksum-mismatch message determines both the found and the expected check pairs |
| Lei.FirstRejected | src/lib.rs:71-77 | the fail-fast scan finds no byte exactly when every byte is accepted; otherwise it reports the first refused byte, and all bytes before it were accepted |
| Lei.IsLeiFormat | src/lib.rs:269-280 | the layout every `LEI` value has: 20 bytes, the first 18 uppercase alphanumeric and the last 2 ASCII digits |
| Lei.IsValidLei | src/lib.rs:269-280 | an LEI in confirmed valid format: the layout above, with the check pair equal to the one computed from the payload |
| Lei.ValidLeiByFields | src/lib.rs:66-109 | a byte string is a valid LEI exactly when it has 20 bytes, its LOU ID, Entity ID and check-digit fields pass their format validators, and its check pair is the computed one |
| Lei.ValidateLouIdFormat | src/lib.rs:66-79 | a 4-byte LOU ID passes exactly when every byte is `0-9` or `A-Z`; on failure the error carries the whole field |
| Lei.ValidateEntityIdFormat | src/lib.rs:81-94 | a 14-byte Entity ID passes exactly when every byte is `0-9` or `A-Z`; on failure the error carries the whole field |
| Lei.ValidateCheckDigitsFormat | src/lib.rs:96-109 | a 2-byte check pair passes exactly when both bytes are `0-9`; on failure the error carries both bytes |
| Lei.ComputeCheckDigits | src/lib.rs:50-64 | the result is two ASCII digits, and read tens first they give the engine's checksum of the payload's expansion |
| Lei.LouId | src/lib.rs:310-313 | the LOU ID view is 4 uppercase alphanumeric bytes |
| Lei.EntityId | src/lib.rs:315-318 | the Entity ID view is 14 uppercase alphanumeric bytes |
| Lei.Payload | src/lib.rs:320-323 | the payload view is 18 uppercase alphanumeric bytes |
| Lei.CheckDigits | src/lib.rs:325-328 | the check-digit view is 2 ASCII digits |
| Lei.ToString | src/lib.rs:282-287 | the string view is 20 bytes in LEI layout |
| Lei.DebugString | src/lib.rs:289-294 | the debug text is `LEI(` followed by the 20 characters and `)` |
| Lei.Parse | src/lib.rs:114-159 | success exactly for valid LEIs, returning the input bytes unchanged. The error is decided in a fixed order: wrong length, LOU ID format, Entity ID format, check-digit format, checksum mismatch. Each error carries the offending length or field, and a mismatch carries both the found and the computed pair |
| Lei.Validate | src/lib.rs:222-263 | true exactly for valid LEIs, even though the check pair is compared one byte at a time |
| Lei.ParseLoose | src/lib.rs:164-168 | success exactly when the trimmed, upper-cased input is a valid LEI, and the value is that trimmed, upper-cased text |
| Lei.CanonicalIsLoose | src/lib.rs:164-168 | a text in LEI layout is unchanged by upper-casing and trimming |
| Lei.FromStr | src/lib.rs:296-302 | `FromStr` accepts exactly what loose parsing accepts, with the same value |
| Lei.BuildFromPayload | src/lib.rs:172-191 | success exactly for 18 uppercase alphanumeric bytes, giving a valid LEI whose payload is the input. Otherwise the error is, in this order: payload length, LOU ID format, Entity ID format, each carrying the offending length or field |
| Lei.BuildFromParts | src/lib.rs:195-218 | success exactly for a well-formed 4-byte LOU ID and 14-byte Entity ID, giving a valid LEI made of those fields. Otherwise the error is, in this order: LOU ID length, LOU ID format, Entity ID length, Entity ID format |
| LeiProperties.ValidateAgreesWithParse | src/lib.rs:222-263 | `validate(s)` is true exactly when `parse(s)` is Ok |
| LeiProperties.ParseRoundTrip | src/lib.rs:155-158 | a parsed LEI renders as the input; `lou_id ++ entity_id ++ check_digits` and `payload ++ check_digits` both rebuild it |
| LeiProperties.ParseMismatchRenderable | src/error.rs:172-181 | every checksum-mismatch error that `parse` reports carries two digit pairs, so its `Display` and `Debug` texts are covered by this model |
| LeiProperties.CheckPairUnique | src/lib.rs:141-153 | an 18-byte payload has at most one check pair that parses |
| LeiProperties.BuildFromPayloadThenParse | src/lib.rs:172-191 | parsing what `build_from_payload` produced succeeds with the same value |
| LeiProperties.ParseThenBuildFromPayload | src/lib.rs:172-191 | building from the payload of a parsed LEI gives back the same LEI |
| LeiProperties.BuildFromPartsIsBuildFromPayload | src/lib.rs:195-218 | for a 4-byte LOU ID and a 14-byte Entity ID, `build_from_parts(l, e) == build_from_payload(l ++ e)`, errors included |
| LeiProperties.BuildFromPartsAgreesWithParse | src/lib.rs:195-218 | for well-formed parts, `build_from_parts(l, e)` equals `parse` of `l ++ e` followed by the computed check pair |
| LeiProperties.ParseLooseAcceptsStrict | src/lib.rs:164-168 | loose parsing gives the same result as strict parsing on any input that parses strictly |
| LeiProperties.ParseLoosePadded | src/lib.rs:164-168 | loose parsing of a core padded with whitespace equals strict parsing of the upper-cased core |
| LeiExamples.ParseTooShort | src/lib.rs:117-119 | `parse("TOOSHORT")` fails with `InvalidLength { was: 8 }` |
| LeiExamples.ParseLowercaseEntityId | src/lib.rs:129-133 | strict parsing of `635400b4jjbon4tchf02` fails with `InvalidEntityId`, carrying `00b4jjbon4tchf`, because its LOU ID `6354` is valid |
| LeiExamples.ParseLooseExample | src/lib.rs:164-168 | loose parsing of `"  yz83gd8l7gg84979j516  "` equals strict parsing of `YZ83GD8L7GG84979J516` |

## Left out

- The ISO/IEC 7064 MOD 97-10 checksum engine (`iso_iec_7064` crate) is not part of this
  model. It is the `engine` parameter, and only its range (a remainder below 97) is used.
  Its "no checksum" answer is excluded by that parameter's type, rather than modelled as a
  panic. Concrete vectors such as payload `635400B4JJBON4TCHF` giving `02`, and the GLEIF
  sample tests, depend on the engine and are not stated.
- Check pairs `00`, `01` and `99` are not rejected, because the code accepts them on purpose.
- LEI: the subset type holds only the layout invariant. Agreement of the check pair with the
  checksum depends on the engine parameter, so it appears as `IsValidLei` in the producers'
  postconditions instead. Dafny cannot hide the subset type's constructor, so a value in LEI
  layout can be formed outside the entry points.
- Ascii.Trim: removes only the ASCII White_Space bytes (tab through carriage return, and
  space). Multi-byte Unicode whitespace that `str::trim` also removes is not modelled, and
  inputs are not checked to be valid UTF-8.
- Errors.Display and Errors.Debug: the field-content variants are rendered only when their
  bytes need no `{:?}` escaping (printable ASCII other than `"` and `\`). The invalid-UTF-8
  branches and the escaping of other bytes are not modelled.
- `usize` lengths are modelled as unbounded naturals; a 20-byte-scale input cannot overflow.
- The `unsafe` `to_str_unchecked` calls are modelled as viewing the same bytes as text.
- Derived `Ord`, `PartialOrd` and `Hash` on `LEI`, the README doctest stub, and the
  `examples/parse.rs` demo program, which only prints.
