# SMI object identifiers and base types, in Dafny

This project models the two value primitives of the `smi` package of an SNMP
library written in Go:

- **`ObjectIdentifier`** (`smi/oid.go`): an ASN.1 object identifier as a
  sequence of integer sub-identifiers ("arcs"). The model covers the
  dotted-decimal parser `ParseObjectIdentifier`, the formatter `String`, the
  structural validator `Validate`/`IsValid` (at least two arcs, every arc an
  unsigned 32-bit value as section 7.1.3 of RFC 2578 requires, and a first arc
  of 0, 1 or 2 as ITU-T X.660 requires), and the tree-order predicates
  `Equals`, `IsBefore`, `IsAfter`, `IsPrefixOf` and `IsScalar`.
- **`BaseType`** (`smi/type.go`): the closed enumeration of the twelve SMI base
  types, with `Name`, `Description`, `BaseType` and `String`.

Layout, one module per file:

| file | module | contents |
|---|---|---|
| `wrappers.dfy` | `Wrappers` | the `Option` datatype for the nil-or-value results |
| `decimal.dfy` | `Decimal` | decimal digits: the accumulation `sid*10 + digit`, and `strconv.Itoa` |
| `oid.dfy` | `Oid` | the OID value, validation, comparison, `Format`/`String`, the parse specification `Parse` and the imperative `ParseObjectIdentifier` |
| `oid_validate.dfy` | `OidValidation` | what each error of `Validate` says about the OID |
| `oid_order.dfy` | `OidOrder` | `IsBefore` is lexicographic "before or equal": reflexive, total, antisymmetric, transitive; prefixes; `IsAfter` |
| `oid_text.dfy` | `OidText` | parser edge cases and the round trip `Parse(Format(o)) == o` |
| `base_type.dfy` | `SmiType` | the `BaseType` enumeration |

`ParseObjectIdentifier` and `String` are loops in the source, so they are
Dafny methods. Each is proved equal to a pure specification function
(`Oid.Parse`, `Oid.Format`), and the lemmas are stated about those functions.
The parse specification is declarative. It checks the empty text first. It
then looks for the first offending character in scan order. Otherwise it
splits the text on periods, skips one leading period, and reads each field
as a decimal number. The validators and comparisons are read-only scans, so
they are recursive functions whose contracts state their meaning.

Points where the code's behaviour is kept even though a reader might expect
otherwise:

- `""` parses to the empty OID with no error, although the empty OID is not
  valid (`OidText.ParseEmpty`).
- A single leading period is skipped, so `".1.2"` parses as `"1.2"`
  (`OidText.ParseSkipsLeadingPeriod`).
- The consecutive-period check comes before the trailing-period check, so
  `"1.."` reports consecutive periods and `"."` reports a trailing period.
- When validation fails, the parser still returns the OID alongside the
  error (`OidText.ParseInvalidRootExample`).
- `IsBefore` is not strict: it holds of equal OIDs and when the first OID
  is a prefix of the second (`OidOrder.IsBeforeReflexive`, `OidOrder.PrefixOrder`).
- `Validate` does not enforce the 128-arc limit of RFC 2578
  (`OidValidation.NoArcCountLimit`).

## Model

| member | source | states |
|---|---|---|
| `Decimal.NatDigits` | smi/oid.go:157 | the decimal text of a natural number is a non-empty digit string with no leading zero, "0" exactly for zero |
| `Decimal.DecValueOfNatDigits` | smi/oid.go:40 | reading the digits of n back with the parser's `sid*10 + digit` accumulation gives n |
| `Decimal.Itoa` | smi/oid.go:157 | `strconv.Itoa`: non-empty, never contains a period, starts with a digit exactly for non-negative values; a non-negative value's text is all digits and reads back as the value, a negative value's text is '-' followed by digits that read back as its magnitude |
| `Oid.ArcError` | smi/oid.go:131-139 | the per-arc check passes exactly when the arc is in 0..2^32-1 and, for the first arc, at most 2 |
| `Oid.ValidateFrom` | smi/oid.go:131-142 | the scan of the arcs from index i finds no violation exactly when all those arcs are in range and the first arc is at most 2 |
| `Oid.Validate` | smi/oid.go:126-143 | nil exactly when the OID has at least two arcs, all unsigned 32-bit, with a first arc of 0, 1 or 2; the too-few error exactly when it has fewer than two |
| `Oid.IsValid` | smi/oid.go:120-122 | true exactly when the three structural constraints hold |
| `Oid.AgreeFrom` | smi/oid.go:57-63 | the shared element scan of Equals and IsPrefixOf is true exactly when the arcs from index i agree |
| `Oid.Equals` | smi/oid.go:52-64 | true exactly when the two OIDs are equal sequences |
| `Oid.IsPrefixOf` | smi/oid.go:94-106 | true exactly when a is no longer than b and equals b's leading slice of its own length |
| `Oid.BeforeFrom` | smi/oid.go:67-83 | the scan of IsBefore from index i holds whenever the rest of a from i is a prefix of the rest of b |
| `Oid.IsBefore` | smi/oid.go:67-83 | a prefix of b (b itself included) is before b |
| `Oid.IsAfter` | smi/oid.go:85-91 | a is after each of its prefixes, itself included |
| `Oid.IsScalar` | smi/oid.go:110-116 | true exactly when the OID is non-empty and its last arc is 0 |
| `Oid.Format` | smi/oid.go:146-161 | the text is empty exactly for the empty OID |
| `Oid.FormatPeriodCount` | smi/oid.go:152-157 | the text of a non-empty OID holds exactly one period fewer than the OID has arcs |
| `Oid.FormatPrefix` | smi/oid.go:152-157 | the text of the first n arcs is the text of the first n - 1, a period unless n is 1, and the decimal text of arc n - 1 |
| `Oid.String` | smi/oid.go:146-161 | the builder loop produces the text `Format` specifies |
| `Oid.CharError` | smi/oid.go:26-42 | a position passes exactly when it holds a digit, or a period that neither follows a period nor ends the text; any other character is reported as invalid with its own position and value |
| `Oid.FirstSyntaxError` | smi/oid.go:24-44 | the scan reports no syntax error exactly when every position passes its check |
| `Oid.NoSyntaxErrorIffWellFormed` | smi/oid.go:24-44 | the scan accepts exactly the texts of digits and periods with no two adjacent periods and no trailing period |
| `Oid.FirstSyntaxErrorAt` | smi/oid.go:24-43 | the scan reports the error of the first offending position |
| `Oid.SplitDotsAllDigits` | smi/oid.go:24-44 | the fields between periods of a text made of digits and periods are runs of digits |
| `Oid.FieldsAllDigits` | smi/oid.go:24-44 | the same holds after a leading period is skipped, so every field has a decimal value |
| `Oid.ArcsSnocPeriod` | smi/oid.go:35-38 | a period after the first position appends a 0 arc |
| `Oid.ArcsLeadingPeriod` | smi/oid.go:35 | a period at position 0 leaves the arcs alone |
| `Oid.ArcsSnocDigit` | smi/oid.go:39-40 | a digit turns the last arc v into v*10 + digit and leaves the finished arcs alone |
| `Oid.ScanStep` | smi/oid.go:24-44 | one accepted character takes the scan state (no syntax error so far, finished arcs and current arc equal to the arcs of the prefix) from n - 1 characters to n |
| `Oid.ParseAtSyntaxError` | smi/oid.go:26-42 | when every earlier position passes, an error at position i is the parse result, with no OID |
| `Oid.ParseClean` | smi/oid.go:46-47 | text with no syntax error parses to its arcs with Validate's verdict on them |
| `Oid.Parse` | smi/oid.go:15-48 | a syntax error comes with a nil OID; no error on non-empty text means the OID is valid; a validation error is exactly what Validate reports about the returned OID |
| `Oid.ParseObjectIdentifier` | smi/oid.go:15-48 | the scan with its accumulator returns exactly the OID and error that the declarative parse specification gives |
| `OidValidation.ValidateFromReportsFirst` | smi/oid.go:131-142 | when all arcs before index i pass, an error of the scan from i describes the first violating arc |
| `OidValidation.ValidateReportsFirstViolation` | smi/oid.go:126-143 | each error of Validate describes the first violation: too few arcs; or a 1-based position and value of a negative or too-large arc with every earlier arc clean; or a first arc in 3..2^32-1 |
| `OidValidation.NoArcCountLimit` | smi/oid.go:126-143 | an OID of 129 arcs is valid: the 128-arc limit is not enforced |
| `OidValidation.ValidateExamples` | smi/oid_test.go:97-100 | the table cases `{1,2}`, `{1}`, `{-1,2}`, `{3,2}`, and an arc of 2^32, report the expected errors |
| `OidOrder.IsBeforeIsLexicographic` | smi/oid.go:67-83 | IsBefore holds exactly when a is a prefix of b or the first differing arc is smaller in a |
| `OidOrder.IsBeforeReflexive` | smi/oid.go:82 | every OID is before itself (IsBefore is non-strict) |
| `OidOrder.IsBeforeTotal` | smi/oid.go:67-83 | of any two OIDs one is before the other |
| `OidOrder.IsBeforeAntisymmetric` | smi/oid.go:67-83 | two OIDs each before the other are equal |
| `OidOrder.IsBeforeTransitive` | smi/oid.go:67-83 | IsBefore is transitive |
| `OidOrder.PrefixOrder` | smi/oid.go:67-106 | a prefix is before every extension, and an OID is never before one of its proper prefixes |
| `OidOrder.IsAfterCharacterization` | smi/oid.go:85-91 | IsAfter holds exactly when the OIDs are equal or a is not before b; IsAfter and IsBefore both hold exactly of equal OIDs |
| `OidOrder.ComparisonExamples` | smi/oid_test.go:17-141 | the table cases of Equals, IsBefore, IsAfter, IsPrefixOf and IsScalar |
| `OidText.ParseEmpty` | smi/oid.go:16-18 | the empty text parses to the empty OID with no error, and the empty OID is not valid |
| `OidText.ParseSyntaxErrorIffMalformed` | smi/oid.go:24-47 | a syntax error is reported exactly on text that is not well formed, with no OID; otherwise the result is the arcs of the text with Validate's verdict on them |
| `OidText.FirstSyntaxErrorPosition` | smi/oid.go:24-43 | a reported syntax error is that of a position all of whose predecessors pass |
| `OidText.ParseSyntaxErrorIsFirst` | smi/oid.go:26-42 | an invalid-character error carries the 0-based position and value of the first bad character; consecutive-period and trailing-period errors occur where the text has them, with every earlier character accepted |
| `OidText.ParseSkipsLeadingPeriod` | smi/oid.go:35-38 | a leading period in front of well-formed text that does not itself start with a period changes nothing |
| `OidText.FormatWellFormed` | smi/oid.go:151-158 | the text of an OID of non-negative arcs is well formed and starts with a digit |
| `OidText.SplitDotsAppend` | smi/oid.go:153-157 | appending a period and a period-free field to a text appends that field to its fields |
| `OidText.SplitDotsSingle` | smi/oid.go:157 | a period-free text is one field |
| `OidText.ArcTextsAt` | smi/oid.go:157 | the k-th arc text is the decimal text of the k-th arc |
| `OidText.SplitDotsOfFormat` | smi/oid.go:151-158 | the fields of the text of an OID are the decimal texts of its arcs |
| `OidText.ParseFormat` | smi/oid.go:15-48 | parsing the text of a non-empty OID of non-negative arcs returns that OID with Validate's verdict on it |
| `OidText.ParseFormatRoundTrip` | smi/oid.go:146-161 | every valid OID survives String then ParseObjectIdentifier, with no error |
| `OidText.DotZeroSuffix` | smi/oid.go:153-157 | a period followed by the canonical digits of v ends in ".0" exactly when v is 0 |
| `OidText.ScalarText` | smi/oid.go:110-116 | an OID of two or more non-negative arcs is scalar exactly when its text ends in ".0" |
| `OidText.ParseValidExample` | smi/oid_test.go:160 | `"1.2.3"` parses to `{1,2,3}` with no error |
| `OidText.ParseConsecutivePeriodsExample` | smi/oid.go:27-33 | `"1..3"` and `"1.."` report consecutive periods |
| `OidText.ParseEndsWithPeriodExample` | smi/oid.go:27-33 | `"1.2."` and `"."` report a trailing period |
| `OidText.ParseInvalidCharacterExample` | smi/oid_test.go:163 | `"1.2a.3"` reports the invalid character `a` at position 3 |
| `OidText.ParseLeadingPeriodExample` | smi/oid.go:35-38 | `".1.2"` parses exactly as `"1.2"`, to `{1,2}` with no error |
| `OidText.ParseInvalidRootExample` | smi/oid.go:46-47 | `"7.2"` returns `{7,2}` together with the first-arc error |
| `OidText.FormatExamples` | smi/oid_test.go:120-121 | `{1,2,3}` renders as `"1.2.3"`, the empty OID as `""` |
| `SmiType.BaseType.Ordinal` | smi/type.go:22-35 | each member's value in the int encoding is below 12 |
| `SmiType.BaseType.Name` | smi/type.go:37-66 | every member has a non-empty name |
| `SmiType.BaseType.Description` | smi/type.go:68-240 | every member has a non-empty description |
| `SmiType.BaseType.BaseType` | smi/type.go:242-244 | a base type is its own base type |
| `SmiType.BaseType.String` | smi/type.go:246-248 | the text form of a member is its name |
| `SmiType.FromOrdinal` | smi/type.go:22-35 | exactly the values 0..11 of the int encoding are members, each with that ordinal; the others are the values on which Name and Description panic |
| `SmiType.OrdinalRoundTrip` | smi/type.go:22-35 | the declaration order numbers each member 0..11 uniquely |
| `SmiType.NameInjective` | smi/type.go:39-62 | the twelve names are pairwise distinct |
| `SmiType.DescriptionShared` | smi/type.go:72 | Integer32 and Integer share a description and every other pair of members has distinct descriptions |
| `SmiType.NameExamples` | smi/type.go:51-52 | Counter32's name and text form are "Counter32"; 12 and -1 are not members |

## Left out

- The `Type` interface (smi/type.go:6-17) is not modelled. It only declares four observations, `BaseType` has no `Units` method in this code, so it does not implement the interface, and no derived type is part of this core.
- Oid.ParseObjectIdentifier: the source accumulates each arc in a 64-bit Go `int`, which wraps around once a run of digits exceeds 2^63-1 (that takes at least 19 significant digits). The model's accumulator is an unbounded integer, so its Validate rejects every oversized arc, where the code could instead accept a wrapped value.
- Positions are byte offsets of `for i, c := range s` and `%c` prints a rune. The model reads the text as a sequence of ASCII characters.
- Error message texts are not reproduced. Errors are datatypes carrying the same kind, position and value (`SyntaxError`, `ValidationError`).
- A nil slice and an empty slice are not distinguished. Both are `[]`.
- `strconv.Itoa`, `strings.Builder` and `math.MaxUint32` are replaced by `Decimal.Itoa`, string concatenation and the constant 4294967295.
- SmiType.BaseType.Description: the RFC 2578 paragraphs are represented by the opening sentence of each, with line breaks written as spaces. Byte-for-byte text is not reproduced. Only non-emptiness and which members share a description are proved.
- The panicking `default` branches of `Name` and `Description` cannot be reached with a closed datatype. `SmiType.FromOrdinal` marks the out-of-range int values instead.
