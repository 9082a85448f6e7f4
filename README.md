# Scalar shapes of go-raml, in Dafny

This project models `scalars.go` of go-raml, the RAML 1.0 parser: the scalar type shapes
(integer, number, string, file, boolean, datetime, and the facet-less datetime-only, date-only,
time-only, any and nil shapes), their facets, and the three things each shape does:

- **Inherit** narrows a child shape by an ancestor. It fills the facets the child left unset
  from the ancestor. Where both set a bound or an enum, it checks that the child is at least
  as narrow. It changes the receiver in place and returns it.
- **UnmarshalYAMLNodes** decodes a mapping's flattened key/value node list into the facets,
  two nodes at a time. Unknown keys become custom facets, and the first failure aborts.
  `MakeEnum` and the `fileTypes` branch turn a sequence node into a slice of nodes.
- **Clone** copies a shape under a newly generated id.

Layout, one module per file:

- `wrappers.dfy` (`Wrappers`): `Option`, `Result`, and `Adopt`, which keeps a child's value
  or takes the ancestor's when the child has none.
- `nodes.dfy` (`Nodes`): the YAML node record, 64-bit integer types, the opaque parsed `Node`
  value and compiled `Regexp`, and the `Library` of foreign conversions. It also holds
  `BaseShape` and the `ShapeIds` counter behind `GenerateShapeId`.
- `errors.dfy` (`Errors`, `Outcomes`): a tagged error (type mismatch, facet violation with
  both values, invalid input, wrapped, foreign), and the state-plus-error pair that a
  non-atomic operation leaves behind.
- `decimal.dfy` (`Decimal`): `big.Int.SetString(s, 10)` as a pure parser, with its inverse.
- `facets.dfy` (`Facets`): the facet structs, each variant's fields as a value, enum
  overridability, and the per-struct merge steps of `Inherit`.
- `inheritance.dfy` (`Inheritance`): each variant's `Inherit` as a function on values, with
  lemmas for success, failure order and meet semantics.
- `pairs.dfy` (`Pairs`): the shared decode loop as a function, with its lemmas, and `MakeEnum`
  and the `fileTypes` conversion as array-filling methods.
- `decoders.dfy` (`Decoders`): each variant's handling of one key/value pair, with lemmas
  about whole decodes.
- `scalars.dfy` (`Scalars`): one class per variant, whose `Inherit`, `UnmarshalYAMLNodes`
  and `Clone` methods update fields step by step as the Go methods do. Each is proved equal
  to the value-level definition above. `Shape` is the `Shape` interface, closed over these
  eleven classes.

The foreign conversions are fields of a `Library` value passed to every decoder: `MakeNode`,
`Decode` into `int64`, `uint64`, `float64` and `*string`, and `regexp.Compile`. Each is an
arbitrary total function that may fail. So every property proved here holds for any
behaviour of those functions.

## Model

| member | source | states |
|---|---|---|
| Facets.IsOverridableEnum | scalars.go:93-97 | a child enum is overridable by an ancestor's exactly when every child member equals some ancestor member by value |
| Facets.EnumMergeIsMeet | scalars.go:93-97 | an accepted enum merge admits a value exactly when both the child's and the ancestor's enums admit it (an unset enum admits everything) |
| Facets.MergeIntegerFacets | scalars.go:78-92 | defines the integer-bound step of the integer merge: minimum, then maximum, each adopted when unset and rejected when the child's is wider, then multipleOf adopted only when unset; its outcomes are stated by InheritIntegerSuccess and InheritIntegerFailure |
| Facets.MergeNumberFacets | scalars.go:192-206 | defines the number-bound step: as for integers, except that a set ancestor multipleOf replaces the child's; stated by InheritNumberSuccess and InheritNumberFailure |
| Facets.MergeLengthFacets | scalars.go:292-301 | defines the length step shared by strings and files (the same code at scalars.go:384-393): minLength, then maxLength; stated by InheritStringSuccess, InheritStringFailure and InheritFileOutcome |
| Facets.MergeStringFacets | scalars.go:292-305 | defines the string step: the lengths, then the pattern adopted only when unset; stated by InheritStringSuccess and InheritStringFailure |
| Facets.MergeEnumFacets | scalars.go:93-97 | defines the enum step: an unset child enum takes the ancestor's, a set one must be overridable; its meaning is stated by EnumMergeIsMeet |
| Facets.MergeFormatFacets | scalars.go:99-101 | defines the format step: the child's format, or the ancestor's when unset; stated by the Success lemmas and InheritDateTimeOutcome |
| Facets.MergeFileFacets | scalars.go:395-397 | defines the file-types step: the child's file types, or the ancestor's when unset; stated by InheritFileOutcome |
| Inheritance.InheritInteger | scalars.go:78-102 | defines the integer merge after the type check: the state the receiver is left in and the error, if any; what it promises is stated by InheritIntegerSuccess, InheritIntegerFailure and InheritIntegerIsMeet |
| Inheritance.InheritIntegerSuccess | scalars.go:78-102 | the integer merge succeeds iff neither bound nor the enum widens the ancestor's; then unset facets hold the ancestor's value, set ones (multipleOf and format included) are kept, and the base is untouched |
| Inheritance.InheritIntegerFailure | scalars.go:78-97 | the first failing check in the order minimum, maximum, enum is reported with the ancestor's and the child's values; facets adopted before it stay adopted, later ones are untouched |
| Inheritance.InheritIntegerIsMeet | scalars.go:78-97 | a merged integer shape admits exactly the integers within both shapes' minimum and maximum, and exactly the enum values both shapes admit; multipleOf is outside this meet |
| Inheritance.InheritIntegerMultipleOf | scalars.go:89-92 | after a successful integer merge, the multiples admitted are the child's whenever the child sets multipleOf, else the ancestor's; the two are never combined |
| Inheritance.InheritIntegerMultipleOfNotMeet | scalars.go:89-92 | a child multipleOf 2 under an ancestor multipleOf 3 is kept, so the merged shape admits 4, which the ancestor rejects: with multipleOf the integer merge is not a meet |
| Inheritance.InheritNumber | scalars.go:192-216 | defines the number merge after the type check: the state the receiver is left in and the error, if any; what it promises is stated by InheritNumberSuccess, InheritNumberFailure and InheritNumberIsMeet |
| Inheritance.InheritNumberSuccess | scalars.go:192-216 | as for integers, except that multipleOf ends as the ancestor's value whenever the ancestor sets one |
| Inheritance.InheritNumberFailure | scalars.go:192-211 | the first failing check in the order minimum, maximum, enum is reported with both values; multipleOf is already taken from the ancestor when the enum check fails |
| Inheritance.InheritNumberIsMeet | scalars.go:192-211 | a merged number shape admits exactly the numbers within both shapes' minimum and maximum, and exactly the enum values both shapes admit; multipleOf is outside this meet |
| Inheritance.InheritNumberMultipleOf | scalars.go:203-206 | after a successful number merge, the multiples admitted are the ancestor's whenever the ancestor sets multipleOf, else the child's: the reverse of the integer rule |
| Inheritance.InheritNumberMultipleOfNotMeet | scalars.go:203-206 | a child multipleOf 2.0 under an ancestor multipleOf 3.0 is replaced, so the merged shape admits 3.0, which the child rejects: with multipleOf the number merge is not a meet |
| Inheritance.InheritString | scalars.go:292-311 | defines the string merge after the type check: the state the receiver is left in and the error, if any; what it promises is stated by InheritStringSuccess, InheritStringFailure and InheritStringIsMeet |
| Inheritance.InheritStringSuccess | scalars.go:292-311 | the string merge succeeds iff neither length bound nor the enum widens the ancestor's; then unset facets hold the ancestor's value and set ones, the pattern included, are kept |
| Inheritance.InheritStringFailure | scalars.go:292-310 | the first failing check in the order minLength, maxLength, enum is reported with both values; the lengths and the pattern are already adopted when the enum check fails |
| Inheritance.InheritStringIsMeet | scalars.go:292-310 | a merged string shape admits exactly the lengths and enum values both shapes admit |
| Inheritance.InheritFile | scalars.go:384-398 | defines the file merge after the type check: the state the receiver is left in and the error, if any; what it promises is stated by InheritFileOutcome and InheritFileIsMeet |
| Inheritance.InheritFileOutcome | scalars.go:384-398 | the file merge succeeds iff neither length bound widens the ancestor's, then fills gaps and keeps set file types; a failure reports minLength before maxLength, with minLength adopted when maxLength fails |
| Inheritance.InheritFileIsMeet | scalars.go:384-393 | a merged file shape admits exactly the lengths both shapes admit |
| Inheritance.InheritBoolean | scalars.go:466-471 | defines the boolean merge after the type check: the state the receiver is left in and the error, if any; what it promises is stated by InheritBooleanOutcome |
| Inheritance.InheritBooleanOutcome | scalars.go:466-471 | the boolean merge fails iff both enums are set and some child member is missing from the ancestor's, leaving the receiver as it was; a present but empty child enum is always accepted |
| Inheritance.InheritDateTime | scalars.go:522-526 | defines the date-time merge after the type check: the state the receiver is left in and the error, if any; what it promises is stated by InheritDateTimeOutcome |
| Inheritance.InheritDateTimeOutcome | scalars.go:522-526 | the date-time merge never fails; an unset format takes the ancestor's and a set one is kept |
| Decimal.ParseDigits | scalars.go:118-121 | a digit string parses exactly when it is non-empty and all decimal digits |
| Decimal.ParseDecimal | scalars.go:118-121 | SetString in base 10 succeeds exactly on an optional sign followed by at least one digit, and the sign decides the sign of the result |
| Decimal.ParseFormatDecimal | scalars.go:118-131 | parsing the base-10 rendering of any integer gives that integer back |
| Decimal.ParseDigitsIsPositional | scalars.go:118-121 | a digit string parses to the positional sum of its digits times powers of ten |
| Decimal.ParseDecimalIsPositional | scalars.go:118-121 | an accepted text parses to the positional value of its digits, negated after a leading minus |
| Decimal.LeadingZero | scalars.go:118-121 | a leading zero does not change the value of a digit string |
| Decimal.PlusSign | scalars.go:118-121 | a leading plus sign does not change the parse of any text that does not already start with a sign, accepted or not |
| Pairs.DecodePairs | scalars.go:110-159 | defines the decoders' loop: one pair at a time, left to right, stopping at the first error with the state reached; stated by DecodePairsAppend, DecodeKeeps and LastWriteWins |
| Pairs.DecodePairsAppend | scalars.go:110-159 | decoding a list is decoding its first part and then, unless that failed, the rest from the state reached: pairs run left to right and a failure aborts the rest |
| Pairs.DecodeKeeps | scalars.go:110-159 | what no single pair changes, a whole decode leaves unchanged, whether it succeeds or fails |
| Pairs.LastWriteWins | scalars.go:110-159 | after a successful decode, a field written only by pairs with one key holds what the last such pair wrote, or its initial value |
| Pairs.ConvertAll | scalars.go:19-26 | the elements convert exactly when each one does, and then the result has one entry per element, in order |
| Pairs.FirstFailureDecides | scalars.go:19-24 | when the first failing element is i, the conversion fails with element i's error |
| Pairs.EnumOf | scalars.go:14-27 | defines what MakeEnum returns for a node; stated by EnumOfMembers, and the loop in MakeEnum is proved to return it |
| Pairs.MakeEnum | scalars.go:14-27 | the array-filling loop returns exactly what EnumOf defines |
| Pairs.EnumOfMembers | scalars.go:14-27 | a non-sequence node is an error; otherwise an enum is made iff MakeNode accepts every element, and element i of the enum is MakeNode of content element i |
| Pairs.FileTypesOf | scalars.go:418-433 | defines what the fileTypes branch builds from a node; stated by FileTypesOfMembers, and the loop in MakeFileTypes is proved to return it |
| Pairs.MakeFileTypes | scalars.go:418-433 | the array-filling loop returns exactly what FileTypesOf defines |
| Pairs.FileTypesOfMembers | scalars.go:418-433 | a non-sequence node is an error; otherwise file types are made iff every element is tagged `!!str` and accepted by MakeNode, and element i is MakeNode of content element i |
| Decoders.IntegerFacet | scalars.go:113-157 | defines the integer decoder's handling of one pair, with every branch and error message; stated by IntegerBoundPair, IntegerCustomFacets, IntegerBoundsLastWins and IntegerFacetsLastWins |
| Decoders.NumberFacet | scalars.go:227-255 | defines the number decoder's handling of one pair; stated by NumberCustomFacets, NumberFacetsLastWins and NumberFormatEnumLastWins |
| Decoders.StringFacet | scalars.go:323-353 | defines the string decoder's handling of one pair; stated by StringPatternPair, StringCustomFacets, StringFacetsLastWins and StringEnumLastWins |
| Decoders.FileFacet | scalars.go:410-440 | defines the file decoder's handling of one pair; stated by FileTypesPair, FileCustomFacets, FileLengthsLastWins and FileTypesLastWins |
| Decoders.BooleanFacet | scalars.go:483-495 | defines the boolean decoder's handling of one pair; stated by BooleanCustomFacets and BooleanEnumLastWins |
| Decoders.DateTimeFacet | scalars.go:537-547 | defines the date-time decoder's handling of one pair; stated by DateTimeCustomFacets and DateTimeFormatLastWins |
| Decoders.IntegerCustomFacets | scalars.go:110-159 | the integer decoder never changes id, type name or location; after success an unknown key holds MakeNode of its last value, or what it held before; a key the decoder recognises (minimum, maximum, multipleOf, format, enum) never enters the custom facets, even when the decode fails |
| Decoders.NumberCustomFacets | scalars.go:224-257 | the same for the number decoder and its own keys |
| Decoders.StringCustomFacets | scalars.go:319-355 | the same for the string decoder and its own keys |
| Decoders.FileCustomFacets | scalars.go:406-442 | the same for the file decoder and its own keys |
| Decoders.BooleanCustomFacets | scalars.go:479-498 | the same for the boolean decoder and its own keys |
| Decoders.DateTimeCustomFacets | scalars.go:534-549 | the same for the date-time decoder and its own keys |
| Decoders.IntegerBoundsLastWins | scalars.go:113-132 | after a successful integer decode each bound is the base-10 parse of its last pair, or its previous value |
| Decoders.IntegerFacetsLastWins | scalars.go:133-151 | after a successful integer decode multipleOf, format and enum hold what their last pair produced |
| Decoders.NumberFacetsLastWins | scalars.go:227-249 | after a successful number decode the bounds and multipleOf hold what their last pair decoded to |
| Decoders.NumberFormatEnumLastWins | scalars.go:235-244 | after a successful number decode the format holds what was decoded from its last pair and the enum what MakeEnum made of its last pair |
| Decoders.StringFacetsLastWins | scalars.go:323-340 | after a successful string decode the length bounds and the pattern hold what their last pair produced |
| Decoders.StringEnumLastWins | scalars.go:341-346 | after a successful string decode the enum is what MakeEnum made of its last pair |
| Decoders.FileLengthsLastWins | scalars.go:410-417 | after a successful file decode minLength and maxLength hold what was decoded from their last pair |
| Decoders.FileTypesLastWins | scalars.go:418-433 | after a successful file decode the file types are what was made of their last pair |
| Decoders.BooleanEnumLastWins | scalars.go:483-488 | after a successful boolean decode the enum is what MakeEnum made of its last pair |
| Decoders.DateTimeFormatLastWins | scalars.go:537-540 | after a successful date-time decode the format is what was decoded from its last pair |
| Decoders.IntegerBoundPair | scalars.go:113-132 | a minimum or maximum pair is accepted iff its value is tagged `!!int` and is base-10 text; the bound is then the parsed integer, and a rejected pair changes nothing |
| Decoders.StringPatternPair | scalars.go:331-340 | a pattern pair is accepted iff its value is tagged `!!str` and compiles; an untagged value is the error "pattern must be string" |
| Decoders.FileTypesPair | scalars.go:418-433 | a fileTypes pair is accepted iff its value is a sequence of `!!str` elements all accepted by MakeNode; the file types are then those nodes in order |
| Nodes.ShapeIds.Generate | scalars.go:53 | each generated id is the counter's value, and the counter advances |
| Scalars.Shape.Base | scalars.go:47-49 | defines Base() for every variant (the same accessor recurs at scalars.go:177-179 and after each struct): the base shape embedded in the object behind the interface value |
| Scalars.IntegerShape.Inherit | scalars.go:73-103 | an ancestor of another variant is a type mismatch naming both types, with the receiver unchanged; otherwise the fields end as InheritInteger says, and success returns the receiver itself |
| Scalars.IntegerShape.UnmarshalYAMLNodes | scalars.go:109-160 | the fields and the error end as the pair-by-pair decode with the integer step defines |
| Scalars.IntegerShape.Clone | scalars.go:51-55 | the fresh copy equals the original in every field except the id, which is newly generated |
| Scalars.NumberShape.Inherit | scalars.go:187-217 | as for integers, against InheritNumber |
| Scalars.NumberShape.UnmarshalYAMLNodes | scalars.go:223-258 | the fields and the error end as the decode with the number step defines |
| Scalars.NumberShape.Clone | scalars.go:181-185 | a fresh copy with a new id |
| Scalars.StringShape.Inherit | scalars.go:287-312 | as for integers, against InheritString |
| Scalars.StringShape.UnmarshalYAMLNodes | scalars.go:318-356 | the fields and the error end as the decode with the string step defines |
| Scalars.StringShape.Clone | scalars.go:281-285 | a fresh copy with a new id |
| Scalars.FileShape.Inherit | scalars.go:379-399 | as for integers, against InheritFile |
| Scalars.FileShape.UnmarshalYAMLNodes | scalars.go:405-443 | the fields and the error end as the decode with the file step defines |
| Scalars.FileShape.Clone | scalars.go:373-377 | a fresh copy with a new id |
| Scalars.BooleanShape.Inherit | scalars.go:461-472 | as for integers, against InheritBoolean |
| Scalars.BooleanShape.UnmarshalYAMLNodes | scalars.go:478-499 | the fields and the error end as the decode with the boolean step defines |
| Scalars.BooleanShape.Clone | scalars.go:455-459 | a fresh copy with a new id |
| Scalars.DateTimeShape.Inherit | scalars.go:517-527 | a type mismatch for another variant; otherwise never fails, with the fields as InheritDateTime says |
| Scalars.DateTimeShape.UnmarshalYAMLNodes | scalars.go:533-550 | the fields and the error end as the decode with the date-time step defines |
| Scalars.DateTimeShape.Clone | scalars.go:511-515 | a fresh copy with a new id |
| Scalars.DateTimeOnlyShape.Inherit | scalars.go:566-568 | any ancestor, of any variant, is accepted and the receiver is returned unchanged |
| Scalars.DateTimeOnlyShape.UnmarshalYAMLNodes | scalars.go:574-576 | succeeds and changes nothing, dropping even unknown keys |
| Scalars.DateTimeOnlyShape.Clone | scalars.go:560-564 | a fresh copy of the base with a new id |
| Scalars.DateOnlyShape.Inherit | scalars.go:592-594 | any ancestor is accepted and the receiver is returned unchanged |
| Scalars.DateOnlyShape.UnmarshalYAMLNodes | scalars.go:600-602 | succeeds and changes nothing |
| Scalars.DateOnlyShape.Clone | scalars.go:586-590 | a fresh copy of the base with a new id |
| Scalars.TimeOnlyShape.Inherit | scalars.go:618-620 | any ancestor is accepted and the receiver is returned unchanged |
| Scalars.TimeOnlyShape.UnmarshalYAMLNodes | scalars.go:626-628 | succeeds and changes nothing |
| Scalars.TimeOnlyShape.Clone | scalars.go:612-616 | a fresh copy of the base with a new id |
| Scalars.AnyShape.Inherit | scalars.go:644-646 | any ancestor is accepted and the receiver is returned unchanged |
| Scalars.AnyShape.UnmarshalYAMLNodes | scalars.go:652-654 | succeeds and changes nothing |
| Scalars.AnyShape.Clone | scalars.go:638-642 | a fresh copy of the base with a new id |
| Scalars.NilShape.Inherit | scalars.go:670-672 | any ancestor is accepted and the receiver is returned unchanged |
| Scalars.NilShape.UnmarshalYAMLNodes | scalars.go:678-680 | succeeds and changes nothing |
| Scalars.NilShape.Clone | scalars.go:664-668 | a fresh copy of the base with a new id |

## Left out

- The YAML library's `Decode` into `int64`, `uint64`, `float64` and `*string`, and `MakeNode`, are foreign code. They are arbitrary fallible functions of the `Library` value. A YAML null decodes to an unset facet. A failing `Decode` is modelled as leaving the field unchanged, since the library's partial writes are not visible.
- `regexp.Compile` is an arbitrary fallible function to an opaque `Regexp`; what a pattern matches is not modelled.
- The number bounds and multipleOf are `real`: NaN, infinities and float64 rounding are not modelled.
- `GenerateShapeId` is a counter object passed to `Clone`. The model does not prove that ids are unique across the whole program, only that a clone's id differs from an original whose id was issued earlier.
- Error values keep the kind, the facet, both compared values and the message, but not source positions or locations.
- `Validate` at scalars.go:57-71 is commented out and not modelled.
- `Check` always returns nil and is not modelled.
- `Base()` returns a pointer into the shape. The model reads the base as a value (`Shape.Base`), so writes through that pointer are not modelled.
- `Clone` in Go is a shallow copy that shares with the original the custom-facet map, the enum and file-type slices, and the pointer-valued facets (`*big.Int` integer bounds, `*float64` number bounds, `*int64` and `*float64` multipleOf, `*uint64` lengths, `*string` format and `*regexp.Regexp` pattern). `Inherit`'s adoptions (`s.X = ss.X` at scalars.go:78-101, 192-214, 292-305, 384-397, 466-467 and 523-524) likewise make child and ancestor share those pointers. Here all of them are values, so aliasing between shapes is not modelled: a later write through one shape's pointer is not seen by the other.
- Scalars.IntegerShape.UnmarshalYAMLNodes: requires an even-length list; in Go, an odd-length list panics on `v[i+1]`. The same precondition holds for the other five decoders with facets.
- A nil `CustomShapeFacets` map makes the Go decoders panic on an unknown key; the model's map always exists.
- Inheritance.InheritIntegerIsMeet: the meet covers minimum, maximum and the enum, not multipleOf. The Go merge keeps a set child multipleOf without checking it against the ancestor's (the source marks this `TODO: multipleOf validation`), so the merged shape can admit multiples the ancestor rejects; InheritIntegerMultipleOf and InheritIntegerMultipleOfNotMeet state this.
- Inheritance.InheritNumberIsMeet: the meet covers minimum, maximum and the enum, not multipleOf. The Go number merge lets a set ancestor multipleOf replace the child's, the opposite of the integer rule, so the merged shape can admit numbers the child rejects; InheritNumberMultipleOf and InheritNumberMultipleOfNotMeet state this.
- The file that defines `IsOverridableEnum` is not part of this model. It is modelled as: every child member equals some ancestor member by value.
- Scalars.IntegerShape.Inherit: each `Inherit` reads the ancestor's fields from a snapshot taken on entry. Go reads them live, but each ancestor field is read before the receiver's field of the same name is written, so the two agree even when the ancestor is the receiver.
- The shape graph walk that calls `Inherit` and `Clone`, and the dispatch of `Shape` beyond these eleven variants, are not part of this model.
