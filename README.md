# proto-descriptor, modelled in Dafny

proto-descriptor turns protobuf descriptors into a protobufjs reflection tree.
The input is a serialized `FileDescriptorProto` or `FileDescriptorSet`, as
`protoc` writes it. The output is a `Root` holding namespaces, types, fields,
oneofs, enums, services and methods.

The work happens in three stages:

1. The generated decoders of `descriptor.proto` read the bytes.
2. The builder turns each decoded file into reflection objects and places them
   in the namespace that the file's package names.
3. A set of visitors post-processes the tree.
   - Name resolution runs first.
   - Fields over a `map_entry` type are collapsed into `MapField`s.
   - The synthetic entry types are then removed.

The project models each stage and proves what it promises.

- **Wire layer** (`wire.dfy`, `encode.dfy`): the reader's primitive reads as
  functions of the buffer and the position. These are the varint, `uint32`
  modulo 2^32, two's-complement `int32`, `bool`, length-delimited bytes and
  text, and `skipType`. A `Reader` class has one method per read, each proved
  to agree with its function.
  - The reference encodings come with round-trip lemmas.
- **Decoders** (`descriptors.dfy`, `decode_spec.dfy`, `decoder.dfy`,
  `decode_props.dfy`, `decode_fields.dfy`):
  - There is one record per message of `descriptor.proto`, with the
    prototype defaults of the generated code.
  - Each generated `decode` routine is a spec function, built from three
    parts: the defaults, the `while (reader.pos < end)` loop, and the switch.
  - An imperative method over the `Reader` mirrors the generated code and is
    proved equal to the spec function.
  - Option messages that only go through the generic template share one
    schema-driven decoder.
  - Lemmas cover three kinds of fact:
    - what the wire layout decodes to, with round trips;
    - that repeated fields only grow, in wire order;
    - last-wins for scalars and messages, unknown-field skipping, missing
      required fields, and the loop's tolerance of a value that straddles
      `end`.
- **Conversion tables** (`convert.dfy`): the label and type tables of
  `src/util.ts`, each with its inverse.
- **Reflection tree** (`reflection.dfy`): protobufjs's reflection objects as
  one datatype, with the kind set each variant is an `instanceof`.
  - `Root` and `Namespace`, `Type` and `Service` are namespaces.
  - `MapField` is also a `Field`.
- **Builder** (`builder.dfy`): `createField`, `getOptions`, `createType`,
  `createEnum`, `createMethod`, `createService`, `addTypes`, `addEnums`,
  `addFile` with `Namespace.define`, the two `addFrom*` entry points, the two
  `convert*` entry points, and `resolveAll`.
  - Where the source loops, the model is a method with a loop, proved
    against a specification function.
  - Lemmas state what the built objects carry and how the package path is
    walked. They also show that a file's children land where its package
    names, and that a resolved tree has no map-entry type left and no field
    left to collapse.
- **Visitors** (`visitor.dfy`):
  - `visit` is modelled as the sequence of callback calls it makes.
  - `VisitorWrapper`, `wrapVisitor` and `CompositeVisitor` are modelled too;
    `CompositeVisitor` is a class over a sequence of visitors.
  - The four visitors are modelled:
    - `resolveTypesVisitor`, with idempotence.
    - `resolveMapsVisitor`, as a tree pass.
    - `removeMapEntriesVisitor`, as a tree pass.
    - `sortReservedVisitor`, as an in-place insertion sort on an array. Its
      comparator is proved to be a total order, and the sorted result is
      proved unique.

Two behaviours of the code are easy to miss, and the model follows the code
in both:

- A message or enum field whose `type_name` is empty is not an error. It is
  dropped like a group, because `createField` tests the converted type for
  truthiness (`CreateFieldOmitted`).
- A field whose label was never set reads as `optional`, not as having no
  rule. The generated prototype's default label is 1 (`CreateFieldKeeps`,
  `DefaultFieldIsOptionalDouble`).

A field's `oneof_index` picks from the list of *named* oneof declarations,
as in the code: unnamed ones are skipped before the indexing, so the index
does not pick from the declaration list. Which fields join a oneof at all
does not follow the code. The builder uses the corrected test of the first
row under "## Findings", an index set on the wire, and "## Left out" names the
members this affects.

## Model

| member | source | states |
|---|---|---|
| Wire.VarintFrom | proto/index.js:85 | on success the cursor moves forward and stays inside the buffer |
| Wire.VarintFromStops | proto/index.js:85 | a varint read from `pos` ends at the first byte below 128; it fails, as a truncated input, exactly when no byte from `pos` on is below 128 |
| Wire.Varint | proto/index.js:85 | a varint that reads successfully consumes at least one byte and ends inside the buffer |
| Wire.Uint32 | proto/index.js:85 | `uint32()` returns the varint modulo 2^32, always below 2^32, and moves the cursor as the varint does |
| Wire.ToInt32 | proto/index.js:667 | the two's-complement reading of a 32-bit pattern lies in [-2^31, 2^31) and is congruent to the pattern modulo 2^32 |
| Wire.Int32 | proto/index.js:667 | `int32()` is the two's-complement reading of the varint's low 32 bits |
| Wire.Bool | proto/index.js:2747 | `bool()` is true exactly when the low 32 bits of the varint are not zero |
| Wire.FixedSplit | proto/index.js:2668 | reading `n + k` raw bytes succeeds exactly when reading `n` and then `k` more does, and yields the two runs joined |
| Wire.Bytes | proto/index.js:2671 | `bytes()` is a uint32 length followed by that many bytes; a length past the buffer is an error |
| Wire.LatinInjective | proto/index.js:2744 | two byte strings decode to the same text exactly when they are equal, so decoding loses nothing |
| Wire.LatinAppend | proto/index.js:2744 | text is decoded byte by byte: decoding a concatenation is concatenating the decodings |
| Wire.Str | proto/index.js:2744 | `string()` is a length-delimited payload read as text |
| Wire.Skip | proto/index.js:93 | `skipType` succeeds only for wire types 0, 1, 2 and 5, and moves the cursor forward inside the buffer |
| Wire.WireType | proto/index.js:93 | `tag & 7` is a wire type below 8 |
| Wire.EncodeVarint | proto/index.js:85 | the reference varint encoding of a number is never empty |
| Wire.VarintFromEncoded | proto/index.js:85 | reading the reference encoding of `n` with an accumulator `acc` and scale `scale` gives `acc + scale * n` and stops right after the encoding |
| Wire.VarintRoundTrip | proto/index.js:85 | decoding the reference encoding of `n` gives `n` back and ends right after it |
| Wire.Reader.constructor | proto/index.js:81-82 | a fresh reader is positioned at the start of the buffer it wraps |
| Wire.Reader.ReadVarint | proto/index.js:85 | the reader's varint read returns what `Varint` computes and leaves the cursor where it ends, or fails as it does |
| Wire.Reader.ReadUint32 | proto/index.js:85 | `uint32()` agrees with `Uint32`, value and cursor, or error |
| Wire.Reader.ReadInt32 | proto/index.js:667 | `int32()` agrees with `Int32` |
| Wire.Reader.ReadBool | proto/index.js:2747 | `bool()` agrees with `Bool` |
| Wire.Reader.ReadFixed | proto/index.js:2668 | `double()` read as eight raw bytes agrees with `Fixed` |
| Wire.Reader.ReadBytes | proto/index.js:2671 | `bytes()` agrees with `Bytes` |
| Wire.Reader.ReadString | proto/index.js:2744 | `string()` agrees with `Str` |
| Wire.Reader.SkipType | proto/index.js:93 | `skipType` agrees with `Skip`: the same new position, or the same error |
| Encode.EncodeTag | proto/index.js:85 | a field key is at least one byte long |
| Encode.EncodeInt32 | proto/index.js:667 | an int32 value has a non-empty encoding |
| Encode.EncodeBool | proto/index.js:2747 | a bool is encoded in exactly one byte |
| Encode.EncodeBytes | proto/index.js:2671 | a length-delimited payload is longer than its content |
| Encode.BytesOf | proto/index.js:2744 | text whose characters fit in a byte has a byte form of the same length that decodes back to it |
| Encode.SplitAt | proto/index.js:83-96 | an encoding `a + b` placed at `pos` has `a` at `pos` and `b` right after it |
| Encode.Uint32RoundTrip | proto/index.js:85 | `uint32()` gives back any value below 2^32 from its varint |
| Encode.TagRoundTrip | proto/index.js:85-86 | a key decodes back to `number * 8 + wireType`, and `tag >>> 3` and `tag & 7` recover the number and the wire type |
| Encode.Int32RoundTrip | proto/index.js:667 | `int32()` gives back every 32-bit signed value, negative ones from their ten-byte sign-extended form |
| Encode.BoolRoundTrip | proto/index.js:2747 | `bool()` gives back the encoded bool |
| Encode.BytesRoundTrip | proto/index.js:2671 | `bytes()` gives back the encoded payload |
| Encode.StrRoundTrip | proto/index.js:2744 | `string()` gives back the encoded text |
| Encode.SkipVarint | proto/index.js:93 | `skipType(0)` steps over exactly one varint |
| Encode.SkipBytes | proto/index.js:93 | `skipType(2)` steps over exactly one length-delimited payload |
| Descriptors.KindOf | proto/index.js:1758-1830 | the generic switch knows a field number exactly when the message's schema lists it |
| DecodeSpec.PackedInt32 | proto/index.js:272-276 | a packed run reads int32 values until the cursor reaches `end2`, ending at or past it inside the buffer |
| DecodeSpec.RepeatedInt32 | proto/index.js:269-278 | a repeated int32 field is a packed run for wire type 2 and a single value otherwise; the cursor stays inside the buffer |
| DecodeSpec.NamePartFrom | proto/index.js:2735-2758 | decoding `NamePart` from the prototype defaults ends at or past `end` and inside the buffer; the errors for missing required fields are stated by `NamePartMissingIsExtension` and `NamePartMissingName` |
| DecodeSpec.NamePartLoop | proto/index.js:2735-2758 | the `while (reader.pos < end)` loop of `NamePart` never moves the cursor back and stops at the first position at or past `end` |
| DecodeSpec.NamePartField | proto/index.js:2735-2758 | one case of the `switch (tag >>> 3)` of `NamePart` moves the cursor forward inside the buffer |
| DecodeSpec.UninterpretedFrom | proto/index.js:2646-2682 | decoding `UninterpretedOption` from the prototype defaults ends at or past `end` and inside the buffer; `FieldProps.UninterpretedLoopGrows` and `FieldProps.UninterpretedNameStep` state that name parts are appended in wire order |
| DecodeSpec.UninterpretedLoop | proto/index.js:2646-2682 | the `while (reader.pos < end)` loop of `UninterpretedOption` never moves the cursor back and stops at the first position at or past `end` |
| DecodeSpec.UninterpretedField | proto/index.js:2646-2682 | one case of the `switch (tag >>> 3)` of `UninterpretedOption` moves the cursor forward inside the buffer |
| DecodeSpec.OpaqueFrom | proto/index.js:2175-2193 | decoding an options message read by the generic switch (`OneofOptions` and the other option, extension-range and source-info messages) from the prototype defaults ends at or past `end` and inside the buffer; `FieldProps.OpaqueSkipsUnknown` and `FieldProps.OpaqueKeepsOnlyListed` state that unknown fields are skipped and nothing unlisted is kept |
| DecodeSpec.OpaqueLoop | proto/index.js:2175-2193 | the `while (reader.pos < end)` loop of an options message read by the generic switch (`OneofOptions` and the other option, extension-range and source-info messages) never moves the cursor back and stops at the first position at or past `end` |
| DecodeSpec.OpaqueField | proto/index.js:2175-2193 | one case of the `switch (tag >>> 3)` of an options message read by the generic switch (`OneofOptions` and the other option, extension-range and source-info messages) moves the cursor forward inside the buffer |
| DecodeSpec.MessageOptionsFrom | proto/index.js:1929-1959 | decoding `MessageOptions` from the prototype defaults ends at or past `end` and inside the buffer; `FieldProps.MapEntryLastWins`, `FieldProps.MapEntryDefault` and `FieldProps.MessageOptionsSkipsUnknown` state last-wins, the default and unknown-field skipping |
| DecodeSpec.MessageOptionsLoop | proto/index.js:1929-1959 | the `while (reader.pos < end)` loop of `MessageOptions` never moves the cursor back and stops at the first position at or past `end` |
| DecodeSpec.MessageOptionsField | proto/index.js:1929-1959 | one case of the `switch (tag >>> 3)` of `MessageOptions` moves the cursor forward inside the buffer |
| DecodeSpec.ReservedRangeFrom | proto/index.js:659-678 | decoding `ReservedRange` from the prototype defaults ends at or past `end` and inside the buffer |
| DecodeSpec.ReservedRangeLoop | proto/index.js:659-678 | the `while (reader.pos < end)` loop of `ReservedRange` never moves the cursor back and stops at the first position at or past `end` |
| DecodeSpec.ReservedRangeField | proto/index.js:659-678 | one case of the `switch (tag >>> 3)` of `ReservedRange` moves the cursor forward inside the buffer |
| DecodeSpec.FieldFrom | proto/index.js:875-918 | decoding `FieldDescriptorProto` from the prototype defaults ends at or past `end` and inside the buffer |
| DecodeSpec.FieldLoop | proto/index.js:875-918 | the `while (reader.pos < end)` loop of `FieldDescriptorProto` never moves the cursor back and stops at the first position at or past `end` |
| DecodeSpec.FieldField | proto/index.js:875-918 | one case of the `switch (tag >>> 3)` of `FieldDescriptorProto` moves the cursor forward inside the buffer |
| DecodeSpec.OneofFrom | proto/index.js:1034-1053 | decoding `OneofDescriptorProto` from the prototype defaults ends at or past `end` and inside the buffer; `FieldProps.OneofRoundTrip` states that a `name` on the wire becomes the oneof's name |
| DecodeSpec.OneofLoop | proto/index.js:1034-1053 | the `while (reader.pos < end)` loop of `OneofDescriptorProto` never moves the cursor back and stops at the first position at or past `end` |
| DecodeSpec.OneofField | proto/index.js:1034-1053 | one case of the `switch (tag >>> 3)` of `OneofDescriptorProto` moves the cursor forward inside the buffer |
| DecodeSpec.EnumValueFrom | proto/index.js:1313-1335 | decoding `EnumValueDescriptorProto` from the prototype defaults ends at or past `end` and inside the buffer |
| DecodeSpec.EnumValueLoop | proto/index.js:1313-1335 | the `while (reader.pos < end)` loop of `EnumValueDescriptorProto` never moves the cursor back and stops at the first position at or past `end` |
| DecodeSpec.EnumValueField | proto/index.js:1313-1335 | one case of the `switch (tag >>> 3)` of `EnumValueDescriptorProto` moves the cursor forward inside the buffer |
| DecodeSpec.EnumFrom | proto/index.js:1139-1173 | decoding `EnumDescriptorProto` from the prototype defaults ends at or past `end` and inside the buffer |
| DecodeSpec.EnumLoop | proto/index.js:1139-1173 | the `while (reader.pos < end)` loop of `EnumDescriptorProto` never moves the cursor back and stops at the first position at or past `end` |
| DecodeSpec.EnumField | proto/index.js:1139-1173 | one case of the `switch (tag >>> 3)` of `EnumDescriptorProto` moves the cursor forward inside the buffer |
| DecodeSpec.MethodFrom | proto/index.js:1517-1548 | decoding `MethodDescriptorProto` from the prototype defaults ends at or past `end` and inside the buffer; `FieldProps.MethodReads` states that the name, the input and output types and the streaming flags are read |
| DecodeSpec.MethodLoop | proto/index.js:1517-1548 | the `while (reader.pos < end)` loop of `MethodDescriptorProto` never moves the cursor back and stops at the first position at or past `end` |
| DecodeSpec.MethodField | proto/index.js:1517-1548 | one case of the `switch (tag >>> 3)` of `MethodDescriptorProto` moves the cursor forward inside the buffer |
| DecodeSpec.ServiceFrom | proto/index.js:1401-1425 | decoding `ServiceDescriptorProto` from the prototype defaults ends at or past `end` and inside the buffer |
| DecodeSpec.ServiceLoop | proto/index.js:1401-1425 | the `while (reader.pos < end)` loop of `ServiceDescriptorProto` never moves the cursor back and stops at the first position at or past `end` |
| DecodeSpec.ServiceField | proto/index.js:1401-1425 | one case of the `switch (tag >>> 3)` of `ServiceDescriptorProto` moves the cursor forward inside the buffer |
| DecodeSpec.DescriptorFrom | proto/index.js:460-519 | decoding `DescriptorProto` from the prototype defaults ends at or past `end` and inside the buffer |
| DecodeSpec.DescriptorLoop | proto/index.js:460-519 | the `while (reader.pos < end)` loop of `DescriptorProto` never moves the cursor back and stops at the first position at or past `end` |
| DecodeSpec.DescriptorField | proto/index.js:460-519 | one case of the `switch (tag >>> 3)` of `DescriptorProto` moves the cursor forward inside the buffer |
| DecodeSpec.FileFrom | proto/index.js:251-324 | decoding `FileDescriptorProto` from the prototype defaults ends at or past `end` and inside the buffer |
| DecodeSpec.FileLoop | proto/index.js:251-324 | the `while (reader.pos < end)` loop of `FileDescriptorProto` never moves the cursor back and stops at the first position at or past `end` |
| DecodeSpec.FileField | proto/index.js:251-324 | one case of the `switch (tag >>> 3)` of `FileDescriptorProto` moves the cursor forward inside the buffer |
| DecodeSpec.FileSetFrom | proto/index.js:80-98 | decoding `FileDescriptorSet` from the prototype defaults ends at or past `end` and inside the buffer |
| DecodeSpec.FileSetLoop | proto/index.js:80-98 | the `while (reader.pos < end)` loop of `FileDescriptorSet` never moves the cursor back and stops at the first position at or past `end` |
| DecodeSpec.FileSetField | proto/index.js:80-98 | one case of the `switch (tag >>> 3)` of `FileDescriptorSet` moves the cursor forward inside the buffer |
| Decoder.ReadRepeatedInt32 | proto/index.js:269-278 | the packed-or-single int32 block appends exactly what `RepeatedInt32` reads and leaves the cursor where it ends |
| Decoder.DecodeNamePart | proto/index.js:2735-2758 | the generated `decode` of `NamePart`, run on the reader, returns what `NamePartFrom` computes and leaves the cursor where it ends, or throws what it reports |
| Decoder.DecodeUninterpreted | proto/index.js:2646-2682 | the generated `decode` of `UninterpretedOption`, run on the reader, returns what `UninterpretedFrom` computes and leaves the cursor where it ends, or throws what it reports |
| Decoder.UninterpretedStep | proto/index.js:2646-2682 | one pass through the switch of `UninterpretedOption` agrees with `UninterpretedField` |
| Decoder.DecodeOpaque | proto/index.js:2175-2193 | the generated `decode` of an options message read by the generic switch (`OneofOptions` and the other option, extension-range and source-info messages), run on the reader, returns what `OpaqueFrom` computes and leaves the cursor where it ends, or throws what it reports |
| Decoder.OpaqueStep | proto/index.js:2175-2193 | one pass through the switch of an options message read by the generic switch (`OneofOptions` and the other option, extension-range and source-info messages) agrees with `OpaqueField` |
| Decoder.DecodeMessageOptions | proto/index.js:1929-1959 | the generated `decode` of `MessageOptions`, run on the reader, returns what `MessageOptionsFrom` computes and leaves the cursor where it ends, or throws what it reports |
| Decoder.MessageOptionsStep | proto/index.js:1929-1959 | one pass through the switch of `MessageOptions` agrees with `MessageOptionsField` |
| Decoder.DecodeReservedRange | proto/index.js:659-678 | the generated `decode` of `ReservedRange`, run on the reader, returns what `ReservedRangeFrom` computes and leaves the cursor where it ends, or throws what it reports |
| Decoder.DecodeField | proto/index.js:875-918 | the generated `decode` of `FieldDescriptorProto`, run on the reader, returns what `FieldFrom` computes and leaves the cursor where it ends, or throws what it reports |
| Decoder.FieldStep | proto/index.js:875-918 | one pass through the switch of `FieldDescriptorProto` agrees with `FieldField` |
| Decoder.DecodeOneof | proto/index.js:1034-1053 | the generated `decode` of `OneofDescriptorProto`, run on the reader, returns what `OneofFrom` computes and leaves the cursor where it ends, or throws what it reports |
| Decoder.OneofStep | proto/index.js:1034-1053 | one pass through the switch of `OneofDescriptorProto` agrees with `OneofField` |
| Decoder.DecodeEnumValue | proto/index.js:1313-1335 | the generated `decode` of `EnumValueDescriptorProto`, run on the reader, returns what `EnumValueFrom` computes and leaves the cursor where it ends, or throws what it reports |
| Decoder.EnumValueStep | proto/index.js:1313-1335 | one pass through the switch of `EnumValueDescriptorProto` agrees with `EnumValueField` |
| Decoder.DecodeEnum | proto/index.js:1139-1173 | the generated `decode` of `EnumDescriptorProto`, run on the reader, returns what `EnumFrom` computes and leaves the cursor where it ends, or throws what it reports |
| Decoder.EnumStep | proto/index.js:1139-1173 | one pass through the switch of `EnumDescriptorProto` agrees with `EnumField` |
| Decoder.DecodeMethod | proto/index.js:1517-1548 | the generated `decode` of `MethodDescriptorProto`, run on the reader, returns what `MethodFrom` computes and leaves the cursor where it ends, or throws what it reports |
| Decoder.MethodStep | proto/index.js:1517-1548 | one pass through the switch of `MethodDescriptorProto` agrees with `MethodField` |
| Decoder.DecodeService | proto/index.js:1401-1425 | the generated `decode` of `ServiceDescriptorProto`, run on the reader, returns what `ServiceFrom` computes and leaves the cursor where it ends, or throws what it reports |
| Decoder.ServiceStep | proto/index.js:1401-1425 | one pass through the switch of `ServiceDescriptorProto` agrees with `ServiceField` |
| Decoder.DecodeDescriptor | proto/index.js:460-519 | the generated `decode` of `DescriptorProto`, run on the reader, returns what `DescriptorFrom` computes and leaves the cursor where it ends, or throws what it reports |
| Decoder.DescriptorStep | proto/index.js:460-519 | one pass through the switch of `DescriptorProto` agrees with `DescriptorField` |
| Decoder.DecodeFile | proto/index.js:251-324 | the generated `decode` of `FileDescriptorProto`, run on the reader, returns what `FileFrom` computes and leaves the cursor where it ends, or throws what it reports |
| Decoder.FileStep | proto/index.js:251-324 | one pass through the switch of `FileDescriptorProto` agrees with `FileField` |
| Decoder.DecodeFileSet | proto/index.js:80-98 | the generated `decode` of `FileDescriptorSet`, run on the reader, returns what `FileSetFrom` computes and leaves the cursor where it ends, or throws what it reports |
| Decoder.FileSetStep | proto/index.js:80-98 | one pass through the switch of `FileDescriptorSet` agrees with `FileSetField` |
| Decoder.DescriptorStepFlat | proto/index.js:467-479 | for every field number but 3, the name, field and extension cases of the `DescriptorProto` switch agree with `DescriptorField` |
| Decoder.DescriptorStepRest | proto/index.js:485-494 | for field numbers other than 1, 2, 3 and 6, the enum and extension-range cases agree with `DescriptorField` |
| Decoder.DescriptorStepLast | proto/index.js:495-502 | for field numbers other than 1 to 6, the oneof and options cases agree with `DescriptorField` |
| Decoder.DescriptorStepTail | proto/index.js:503-517 | for field numbers other than 1 to 8, the reserved ranges, the reserved names and the skip of unknown fields agree with `DescriptorField` |
| Decoder.FileStepNested | proto/index.js:289-298 | for field numbers other than 1, 2, 3, 10, 11 and 12, the message type and enum cases of the `FileDescriptorProto` switch agree with `FileField` |
| Decoder.FileStepServices | proto/index.js:299-308 | for field numbers other than 1 to 5 and 10 to 12, the service and extension cases agree with `FileField` |
| Decoder.FileStepRest | proto/index.js:309-322 | for the remaining field numbers, the options, the source code info and the skip of unknown fields agree with `FileField` |
| DecodeProps.DescriptorOptionsStep | proto/index.js:500-502 | after the options field is read, the decoding loop of `DescriptorProto` continues from the message with those options set |
| Decoder.DecodeFileSetBuffer | proto/index.js:80-83 | `FileDescriptorSet.decode(buffer)` on a fresh reader equals `DecodeSpec.DecodeFileSet(buffer)` |
| Decoder.DecodeFileBuffer | proto/index.js:251-254 | `FileDescriptorProto.decode(buffer)` on a fresh reader equals `DecodeSpec.DecodeFile(buffer)` |
| DecodeProps.PackedInt32Appends | proto/index.js:272-276 | a packed run appends to the list it is given: the values already there stay in front, in order |
| DecodeProps.RepeatedInt32Appends | proto/index.js:269-278 | a repeated int32 field, packed or not, appends to the list built so far |
| DecodeProps.DescriptorFieldGrows | proto/index.js:467-517 | no case of the `DescriptorProto` switch drops or reorders an element of a repeated field |
| DecodeProps.DescriptorLoopGrows | proto/index.js:460-519 | decoding a `DescriptorProto` only ever appends to its repeated fields |
| DecodeProps.FileFieldGrows | proto/index.js:258-322 | no case of the `FileDescriptorProto` switch drops or reorders an element of a repeated field |
| DecodeProps.FileLoopGrows | proto/index.js:251-324 | decoding a `FileDescriptorProto` only ever appends to its repeated fields |
| DecodeProps.EnumLoopGrows | proto/index.js:1139-1173 | decoding an `EnumDescriptorProto` keeps values, reserved ranges and reserved names in wire order |
| DecodeProps.ServiceLoopGrows | proto/index.js:1401-1425 | decoding a `ServiceDescriptorProto` keeps its methods in wire order |
| DecodeProps.FileSetLoopGrows | proto/index.js:80-98 | decoding a `FileDescriptorSet` keeps its files in wire order |
| DecodeProps.Split4 | proto/index.js:659-678 | four encodings written one after another are each found at their own offset |
| DecodeProps.ReservedRangeReads | proto/index.js:659-678 | fields 1 and 2 read in turn up to `end` give the range with that start and end |
| DecodeProps.ReservedRangeRoundTrip | proto/index.js:659-678 | a `ReservedRange` written as its two int32 fields decodes back to itself |
| DecodeProps.EnumValueReads | proto/index.js:1313-1335 | a name and a number read in turn give the enum value with no options |
| DecodeProps.EnumValueRoundTrip | proto/index.js:1313-1335 | an enum value written as its name and number decodes back to them |
| DecodeProps.NamePartReads | proto/index.js:2735-2758 | both required fields read in turn give the `NamePart` |
| DecodeProps.NamePartRoundTrip | proto/index.js:2735-2758 | a `NamePart` with both fields on the wire decodes back to itself |
| DecodeProps.NamePartMissingIsExtension | proto/index.js:2754-2755 | a `NamePart` without `is_extension` is rejected as missing `isExtension` |
| DecodeProps.NamePartMissingName | proto/index.js:2752-2753 | a `NamePart` without `name_part` is rejected as missing `namePart`, whatever else it carries |
| DecodeProps.NamePartEmpty | proto/index.js:2752-2753 | with nothing on the wire `namePart` is the field reported missing |
| DecodeProps.EnumValueNameLastWins | proto/index.js:1320-1322 | of two `name` fields the second is kept and the first leaves no trace |
| DecodeProps.DescriptorOptionsLastWins | proto/index.js:500-502 | of two `options` fields the second replaces the first outright, with no merging |
| DecodeProps.DescriptorSkipsUnknown | proto/index.js:511-513 | a field number `DescriptorProto` does not know is skipped by its wire type and changes nothing |
| DecodeProps.DescriptorSkipsUnknownVarint | proto/index.js:511-513 | an unknown varint field is stepped over whole, whatever its number |
| DecodeProps.FieldRejectsGroup | proto/index.js:913-915 | a group wire type in a field nobody reads makes the whole message fail |
| DecodeProps.DescriptorAppendsField | proto/index.js:470-473 | a nested field is decoded over the length that precedes it and appended to `field` |
| DecodeProps.FieldNameOnlyKeepsDefaults | proto/index.js:806-846 | a field that carries only its name keeps every default: label 1, type 1, `oneof_index` 0 and not set, no options |
| DecodeProps.ReservedRangeMayOverrun | proto/index.js:663-664 | the loop only tests `pos < end`: a value straddling `end` is read whole and the cursor ends past `end` |
| FieldProps.OneofReads | proto/index.js:1034-1053 | a `name` field alone, read up to its end, gives the oneof of that name with no options |
| FieldProps.OneofRoundTrip | proto/index.js:1034-1053 | a oneof written as its name decodes back to that name, with no options, ending right after it |
| FieldProps.MethodStringStep | proto/index.js:1524-1531 | a name, input-type or output-type field of a method replaces the value held so far, and decoding goes on after it |
| FieldProps.MethodFlagStep | proto/index.js:1536-1540 | a client- or server-streaming flag of a method replaces the value held so far, and decoding goes on after it |
| FieldProps.MethodNamesRead | proto/index.js:1524-1531 | a name, an input type and an output type, read in turn, set those three fields and nothing else |
| FieldProps.MethodFlagsRead | proto/index.js:1536-1540 | the two streaming flags, read in turn up to the end, set those two fields and end the decode |
| FieldProps.MethodReads | proto/index.js:1517-1548 | a method's five fields read in turn give the method with exactly those values and no options |
| FieldProps.MapEntryStep | proto/index.js:1945-1946 | a `map_entry` field replaces the value held so far, and decoding goes on after it |
| FieldProps.MapEntryLastWins | proto/index.js:1945-1946 | of two `map_entry` fields the second is kept, and the flag the builder reads is the second value |
| FieldProps.MapEntryDefault | proto/index.js:1929-1959 | options with no field at all read `map_entry` as the prototype's `false` |
| FieldProps.MessageOptionsSkipsUnknown | proto/index.js:1953-1955 | a field number `MessageOptions` does not know is skipped by its wire type and changes nothing |
| FieldProps.MessageOptionsLoopGrows | proto/index.js:1948-1951 | decoding `MessageOptions` only appends to its uninterpreted options, in wire order |
| FieldProps.UninterpretedLoopGrows | proto/index.js:2653-2656 | decoding an `UninterpretedOption` only appends to its name parts, in wire order |
| FieldProps.UninterpretedNameStep | proto/index.js:2653-2656 | a `name` part is decoded over its length and appended after the parts already read |
| FieldProps.OpaqueSkipsUnknown | proto/index.js:2187-2189 | a field number the schema does not list is skipped by its wire type and changes nothing |
| FieldProps.OpaqueFieldKeys | proto/index.js:2175-2193 | one case of the shared switch keeps what the message held and adds at most a number the schema lists |
| FieldProps.OpaqueLoopKeys | proto/index.js:2175-2193 | the shared loop only adds properties for numbers the schema lists |
| FieldProps.OpaqueKeepsOnlyListed | proto/index.js:2175-2193 | a message decoded by the shared template from scratch holds a property only for numbers its schema lists |
| Decoder.OpaqueFlat | proto/index.js:2175-2193 | the string, int32, bool, repeated and uninterpreted cases of the shared switch agree with `OpaqueField` |
| Convert.ConvertFieldLabel | src/util.ts:5-14 | labels 1, 2 and 3 give `optional`, `required` and `repeated`, in both directions; every other code gives nothing |
| Convert.LabelTableInverse | src/util.ts:5-14 | the label table and its inverse agree in both directions |
| Convert.ConvertType | src/util.ts:16-53 | there is no type exactly for groups and codes outside 1..18; messages and enums give the field's `type_name`; scalars give their keyword |
| Convert.ScalarTableInverse | src/util.ts:16-53 | each scalar keyword comes from exactly one code and every keyword of the table inverts to its code |
| Convert.ScalarKeywordsDistinct | src/util.ts:16-53 | distinct scalar codes give distinct keywords |
| Reflection.AddNested | src/main.ts:203-208 | `add` of namespace children keeps the object's kind and name and appends the children after those it had |
| Reflection.AddNestedAppend | src/main.ts:237-244 | adding two runs of children one after the other is adding them together |
| Builder.GetOptions | src/main.ts:51-71 | no options object gives nothing; otherwise exactly the allowed names whose camelCase form is an own property, each with that property's value |
| Builder.MapEntryOption | src/main.ts:73-78 | a built Type has `map_entry` set exactly when its descriptor decoded `map_entry` as true |
| Builder.CreateFieldOmitted | src/main.ts:36-49 | a field is dropped exactly for groups, unknown type codes and message or enum fields whose type name is empty |
| Builder.CreateFieldKeeps | src/main.ts:36-49 | a created field has the camelCased name, the field number, the converted type, and rule `optional`/`required`/`repeated` exactly for label codes 1/2/3 |
| Builder.DefaultFieldIsOptionalDouble | src/main.ts:36-49 | a descriptor that only set its name gives an optional double field numbered 0 |
| Builder.NamedOneofsAllNamed | src/main.ts:89-96 | unnamed oneof declarations are dropped; the list is as long as the declarations exactly when all are named, and then holds their camelCased names |
| Builder.MembersAreJoiningFields | src/main.ts:98-116 | under the corrected oneof test, a name belongs to oneof `k` exactly when some created field whose `oneof_index` was set on the wire to `k` gives it |
| Builder.NoIndexNoOneof | src/main.ts:105-113 | a field whose `oneof_index` was never set joins no oneof |
| Builder.PlainFieldJoinsFirstOneof | src/main.ts:105-113 | one named oneof and one plain field `x`: as written `x` joins the oneof, under the corrected rule it does not |
| Builder.MembersAsWrittenAgree | src/main.ts:105-113 | where every field without an index on the wire holds the default 0, the code's `typeof` test and the corrected test give every oneof but the first the same members |
| Builder.NamesOfAppend | src/main.ts:125-137 | the names and the ranges of a reserved list split over a concatenation |
| Builder.NamesOfNames | src/main.ts:127-129 | the entries pushed for reserved names give the names back and no range |
| Builder.RangesOfRanges | src/main.ts:131-135 | the entries pushed for reserved ranges give the ranges back, end made exclusive again, and no name |
| Builder.ReservedRoundTrip | src/main.ts:125-137 | the reserved list loses nothing: its names and its ranges give back the descriptor's, in order |
| Builder.ReservedLayout | src/main.ts:125-137 | the reserved names come first, then one `[start, end - 1]` entry per range |
| Builder.EnumValuesKeys | src/main.ts:142-158 | the keys of an enum's value map are exactly the non-empty value names |
| Builder.EnumValuesLastWins | src/main.ts:142-158 | a value name maps to the number of its last occurrence |
| Builder.CreateEnum | src/main.ts:142-158 | `createEnum`'s loop builds the enum `EnumOf` describes |
| Builder.AddEnums | src/main.ts:212-222 | each enum is appended to the namespace, in order, and the namespace keeps its kind and name |
| Builder.MethodRoundTrip | src/main.ts:160-180 | a Method keeps every field of its descriptor except the options |
| Builder.ServiceMethodsInOrder | src/main.ts:182-195 | the methods of a Service follow its descriptor's, one to one and in order |
| Builder.CreateService | src/main.ts:182-195 | `createService`'s loop builds the service `ServiceOf` describes |
| Builder.AddTypes | src/main.ts:197-210 | each message type is built and appended to the namespace, in order |
| Builder.CreateType | src/main.ts:80-140 | `createType` builds the type `TypeOf` describes |
| Builder.CreateOneofs | src/main.ts:118-120 | one OneOf per collected oneof, in order, with its collected members |
| Builder.CollectOneofs | src/main.ts:89-96 | the collected oneofs are the named declarations, each with no member yet |
| Builder.CollectFields | src/main.ts:98-116 | the fields added are the created fields, and under the corrected oneof test each oneof collects exactly the fields whose `oneof_index` was set on the wire to it |
| Builder.CollectReserved | src/main.ts:125-137 | the reserved list is the names, then `[start, end - 1]` per range |
| Builder.TypeLayout | src/main.ts:80-140 | a Type has the message's name and its created fields, one oneof per named declaration, the nested types then the nested enums, and the reserved list |
| Builder.TypesOfInOrder | src/main.ts:197-210 | one Type per message descriptor, in order |
| Builder.EnumsOfInOrder | src/main.ts:212-222 | one Enum per enum descriptor, in order |
| Builder.IndexOf | src/main.ts:234 | the first occurrence of a character in a string |
| Builder.Split | src/main.ts:234 | splitting on `.` yields at least one part |
| Builder.SplitJoin | src/main.ts:234 | the parts of a split hold no separator and join back to the string |
| Builder.FindChild | src/main.ts:234 | the lookup of a child by name finds the first child with that name, or reports there is none |
| Builder.InsertAt | src/main.ts:233-244 | walking a package path into a namespace keeps the namespace's kind and name |
| Builder.InsertAtTarget | src/main.ts:233-244 | after the walk the namespace the path names exists and holds what it held before followed by the added children |
| Builder.FindChildUpdate | src/main.ts:234 | replacing the first child of a name by another of that name keeps it the first |
| Builder.FindChildAppend | src/main.ts:234 | a child appended under a new name is the first of that name |
| Builder.InsertAtConflict | src/main.ts:234 | a package component that names an object that is no namespace makes the walk fail |
| Builder.FileInto | src/main.ts:224-246 | `addFile` keeps the root a root |
| Builder.ServicesOfInOrder | src/main.ts:240-245 | one Service per service descriptor, in order |
| Builder.FileItemsOrder | src/main.ts:237-245 | a file contributes its message types, then its enums, then its services, each in declaration order |
| Builder.FileIntoPackage | src/main.ts:233-245 | with a package, the file's children land in the namespace the package names, after what it held |
| Builder.LeadingDotRefused | src/main.ts:233-235 | a package with a leading dot is refused |
| Builder.FillNamespace | src/main.ts:237-245 | the namespace gains the types, the enums and the services of the file, in that order, and keeps its kind and name |
| Builder.AddServices | src/main.ts:240-245 | the service loop appends one Service per descriptor, in order |
| Builder.DefineAndFill | src/main.ts:233-245 | the walk over the package followed by the filling equals `InsertAt` |
| Builder.AddFile | src/main.ts:224-246 | `addFile` equals `FileInto` |
| Builder.AddFromFileDescriptor | src/main.ts:272-279 | a buffer that fails to decode throws the decoder's error; otherwise the decoded file is added |
| Builder.AddFiles | src/main.ts:281-291 | adding files keeps the root a root |
| Builder.AddFilesAppend | src/main.ts:287-290 | adding two runs of files is adding the first and then, unless it failed, the second |
| Builder.AddFilesAtRoot | src/main.ts:287-290 | files without a package fill the root directly, in file order, and never fail |
| Builder.AddFromFileDescriptorSet | src/main.ts:281-291 | a set that fails to decode throws the decoder's error and adds nothing; otherwise its files are added in order, stopping at the first that throws |
| Builder.ResolveAllDone | src/main.ts:293-297 | a resolved tree holds no map-entry type and no field that should have become a MapField |
| Builder.ConvertFileDescriptorSet | src/main.ts:248-258 | the tree is a fresh root with every file added and then resolved, and it holds no map-entry type and no collapsible field |
| Builder.ConvertFileDescriptor | src/main.ts:260-270 | the tree is a fresh root with the one file added and then resolved, and it holds no map-entry type and no collapsible field |
| Visitors.Wrap | src/visitor.ts:133-139 | `wrapVisitor` always returns a wrapper |
| Visitors.WrapIdempotent | src/visitor.ts:133-139 | a wrapper is returned unchanged, so wrapping twice is wrapping once |
| Visitors.WrapperForwards | src/visitor.ts:75-131 | a wrapper forwards a callback its visitor has and drops one it lacks |
| Visitors.InvokeAllAppend | src/visitor.ts:38-72 | the visitors of a composite run in the order they were added, one after the other |
| Visitors.SingleComposite | src/visitor.ts:27-73 | a composite of one wrapped visitor makes exactly that visitor's calls |
| Visitors.VisitType | src/visitor.ts:157-182 | a Type gets its namespace callback, its nested objects, its type callback, its fields, then its oneofs |
| Visitors.VisitService | src/visitor.ts:157-177 | a Service gets its namespace callback, its nested objects, its service callback, then its methods |
| Visitors.VisitRoot | src/visitor.ts:157-164 | the root gets its namespace callback, its nested objects, then its root callback |
| Visitors.VisitNamespace | src/visitor.ts:157-160 | a namespace gets its namespace callback, then its nested objects |
| Visitors.VisitLeaf | src/visitor.ts:144-171 | an enum, a method and a oneof each get their one callback |
| Visitors.VisitFieldKinds | src/visitor.ts:148-154 | a MapField gets the field callback then the mapField callback; a plain Field only the first |
| Visitors.VisitReachesEach | src/visitor.ts:142-183 | a visitor with one callback receives one call per object of that kind in the tree |
| Visitors.VisitAllReachesEach | src/visitor.ts:159 | visiting a child list reaches each object of a kind once |
| Visitors.VisitSilent | src/visitor.ts:142-183 | a visitor without callbacks receives no call |
| Visitors.VisitAllSilent | src/visitor.ts:159 | over a child list, a visitor without callbacks receives no call |
| Visitors.SameCallsSameVisit | src/visitor.ts:142-183 | visitors that answer every callback alike produce the same visit |
| Visitors.SameCallsSameVisitAll | src/visitor.ts:159 | over a child list, visitors that answer every callback alike produce the same visit |
| Visitors.SingleCompositeVisit | src/main.ts:25-26 | visiting with a composite holding one visitor is visiting with that visitor |
| Visitors.VisitNode | src/visitor.ts:142-183 | `visit` with a loop over each child list makes the calls `Visit` describes |
| Visitors.VisitChildren | src/visitor.ts:159 | the `forEach` over a child list makes the calls `VisitAll` describes |
| Visitors.CompositeVisitor.constructor | src/visitor.ts:30-32 | a new composite holds no visitor |
| Visitors.CompositeVisitor.Add | src/visitor.ts:34-36 | `add` appends the visitor, wrapped, after those added before |
| Visitors.CompositeVisitor.Callback | src/visitor.ts:38-72 | one callback of the composite makes the calls of its visitors, in order |
| Visitors.ResolveFieldTypesSpec | src/visitor.ts:186-192 | on a type's fields, each field with a resolved type takes its full name, nothing else changes, and fields already resolved are left alone |
| Visitors.ResolveFieldTypesAt | src/visitor.ts:187-191 | the type callback's loop treats each field on its own and keeps their number and order |
| Visitors.ResolveTypesResolves | src/visitor.ts:185-203 | after the pass every field and every method, at any depth, names the types its resolution found |
| Visitors.ResolveTypesAllResolves | src/visitor.ts:185-203 | over a child list, every field and method names the types its resolution found |
| Visitors.ResolveTypesKeepsRest | src/visitor.ts:185-203 | the pass changes only the type names of fields and methods that resolution found a type for; every other part of the tree is kept |
| Visitors.ResolveTypesAllKeepsRest | src/visitor.ts:185-203 | over a child list, only the type names resolution found a type for change |
| Visitors.ResolvedTreeUnchanged | src/visitor.ts:185-203 | a tree whose type names are already resolved is left exactly as it was |
| Visitors.ResolvedAllUnchanged | src/visitor.ts:185-203 | a child list whose type names are already resolved is left exactly as it was |
| Visitors.ResolveTypesFixpoint | src/visitor.ts:185-203 | the pass leaves a tree unchanged exactly when its type names are already resolved |
| Visitors.ResolveTypesInType | src/visitor.ts:186-192 | the type callback's loop resolves each field's type in turn |
| Visitors.ResolveFieldTypesTwice | src/visitor.ts:186-192 | resolving field types twice is resolving them once |
| Visitors.ResolveTypesIdempotent | src/visitor.ts:185-203 | applying the pass to a resolved tree changes nothing |
| Visitors.ResolveTypesAllIdempotent | src/visitor.ts:185-203 | over a child list, applying the pass twice is applying it once |
| Visitors.MapFieldOfShape | src/visitor.ts:259-261 | the MapField that replaces a collapsible field is still a Field to the visitor and now also a MapField, keeps the field's name, and is never collapsed again |
| Visitors.MapFieldAsWrittenAgrees | src/visitor.ts:253-261 | where the entry type has both fields, the code as written and the corrected pass agree, in both directions |
| Visitors.MissingValueFieldFails | src/visitor.ts:253-257 | a map-entry type without field 2 makes the code as written fail before its guard |
| Visitors.IncompleteEntryKept | src/visitor.ts:259-266 | with the guard first, any field that is not collapsible, including one over an entry type lacking field 1 or 2, stays among the type's fields unchanged |
| Visitors.KeptFieldsNotCollapsible | src/visitor.ts:259-266 | the fields kept are not collapsible and come from the type; the fields added are MapFields; one entry per field |
| Visitors.CollapseFieldsDone | src/visitor.ts:247-271 | after the field callback no field of the type is collapsible, and one entry stays per field |
| Visitors.RemoveMapEntriesDone | src/visitor.ts:273-280 | after the pass no map-entry type is left at any depth |
| Visitors.RemoveMapEntriesAllDone | src/visitor.ts:273-280 | over a child list, no map-entry type is left at any depth |
| Visitors.RemoveMapEntriesKeepsOthers | src/visitor.ts:273-280 | a tree without map-entry types is left exactly as it was |
| Visitors.RemoveMapEntriesAllKeepsOthers | src/visitor.ts:273-280 | a child list without map-entry types is left exactly as it was |
| Visitors.ResolveMapsDone | src/visitor.ts:247-271 | after the map pass no field over a complete map-entry type is left at any depth |
| Visitors.ResolveMapsAllDone | src/visitor.ts:247-271 | over a child list, no collapsible field is left |
| Visitors.RemoveMapEntriesKeepsCollapsed | src/main.ts:295-296 | removing map-entry types does not bring a collapsible field back |
| Visitors.RemoveMapEntriesAllKeepsCollapsed | src/main.ts:295-296 | over a child list, removing map-entry types does not bring a collapsible field back |
| Visitors.StrLessIrreflexive | src/visitor.ts:205-215 | no string is below itself |
| Visitors.StrLessAsymmetric | src/visitor.ts:205-215 | of two strings at most one is below the other |
| Visitors.StrLessTransitive | src/visitor.ts:205-215 | string order is transitive |
| Visitors.StrLessTotal | src/visitor.ts:205-215 | of two distinct strings one is below the other |
| Visitors.CompareStrings | src/visitor.ts:205-215 | negative exactly when `a < b`, zero exactly when equal, positive exactly when `b < a` |
| Visitors.CompareTuples | src/visitor.ts:217-223 | negative exactly when the first tuple is lexicographically smaller, zero exactly when equal |
| Visitors.CompareReservedSign | src/visitor.ts:225-245 | the comparator is zero exactly on equal entries and its sign flips with its arguments |
| Visitors.LeTotalOrder | src/visitor.ts:225-245 | names before ranges, names by `<`, ranges by start then end, is a total order |
| Visitors.SortedUnique | src/visitor.ts:225-245 | two sorted arrangements of the same entries are the same list, so the sorted list does not depend on the sorting algorithm |
| Visitors.SortedHeads | src/visitor.ts:225-245 | sorted arrangements of the same entries start with the same entry |
| Visitors.SortedTail | src/visitor.ts:225-245 | the tail of a sorted list is sorted |
| Visitors.SortReserved | src/visitor.ts:228-242 | `reserved.sort` leaves the array sorted by the comparator and a permutation of what it held |
| Visitors.InsertLast | src/visitor.ts:228-242 | one insertion step extends the sorted prefix by one and keeps the entries |
| Visitors.SwapStep | src/visitor.ts:228-242 | swapping the moving entry with a greater predecessor keeps the insertion invariant and the entries |
| Visitors.InsertedSorted | src/visitor.ts:228-242 | where the insertion stops the prefix is sorted |
| Visitors.SortTypeReserved | src/visitor.ts:225-245 | the type callback sorts the reserved list into a permutation of itself and changes nothing else |

## Left out

- Text is decoded byte by byte; UTF-8 sequences of more than one byte are not modelled. Identifiers in descriptors are ASCII, where the two agree.
- Varints have no length limit in the model. A 64-bit value (`uint64`, `int64`) is kept as the varint modulo 2^64, without the `Long` object and its sign. A `double` is kept as its eight raw bytes.
- Groups (wire types 3 and 4) are reported as an unsupported wire type instead of being skipped through to their end group.
- `encode`, `verify`, `fromObject`, `toObject` and `toJSON` of the generated code are not part of this model; the core only decodes.
- `util.camelCase` is the parameter `camel`. Lemmas that need its value on one name say so in their requires (`MapEntryOption`).
- `ConversionOptions` is threaded through the builder but never read; the model leaves it out.
- protobufjs itself is no part of this model. Its own checks (duplicate names, `Field` constructor validation, `OneOf` membership bookkeeping, merging in `Namespace.add`) are not modelled. `add` appends, and `define` reuses the first child of a name.
- `root.resolveAll()` is the parameter `resolveNames`. It either throws or yields the tree with `resolved` filled in for fields and methods. The map pass reads only those fields.
- Builder.FindChild: `nested[name]` is a lookup by name; the model takes the first child of that name, which is the same when names are unique, as protobufjs enforces.
- The reflection tree is a value. Passes that remove and add objects through `parent.remove` and `parent.add` are modelled by the tree they leave behind. They do not capture aliasing, the order of the remove and the add inside a parent's member list, or protobufjs's internal caches.
- Visitors.Visit: the call trace assumes callbacks do not change the shape of the tree while it is walked. The passes that do change it are modelled as tree transformations instead of through the trace.
- Visitors.SortReserved sorts by insertion. JavaScript's `Array.prototype.sort` may sort differently, but `SortedUnique` shows that every correct sort gives the same list. The comparator never returns 0 on distinct entries, so stability makes no difference.
- Visitors.StrLess compares characters by code point, which is JavaScript's UTF-16 order for text in the Basic Multilingual Plane.
- Enum value maps are Dafny maps, so the key order of the JavaScript object is not modelled.
- The MapField carries no type-resolution data of its own.
- `test/main.ts` shells out to `protoc` and compares with protobufjs's own loader; it is I/O and is not modelled.
- Builder.Members: a field joins oneof `k` when its `oneof_index` was set on the wire to `k`, the corrected half of the first finding; the code's `typeof desc.oneofIndex === 'number'` test, true for every field because of the prototype default, is modelled separately by `JoinsAsWritten` and `MembersAsWritten`.
- Builder.MembersAreJoiningFields states the corrected oneof test, not the code's `typeof` test.
- Builder.CollectFields collects oneof members by the corrected oneof test, not the code's `typeof` test.
- Builder.TypeOf builds each OneOf with the members of the corrected oneof test, not those of the code's `typeof` test.
- Builder.CreateType builds the type `TypeOf` describes, so its oneofs follow the corrected oneof test.
- Builder.ConvertFileDescriptorSet and every builder member above it (`AddTypes`, `FileInto`, `AddFile`, `AddFiles`) inherit the corrected oneof test, and the corrected map guard of the second finding.
- Builder.ConvertFileDescriptor inherits the corrected oneof test and the corrected map guard.
- Builder.ResolveAll runs the map pass with its guard first, the corrected half of the second finding: a field over an entry type lacking field 1 or 2 is kept, where the code throws a `TypeError`. The code as written is `MapFieldAsWritten`.
- Visitors.ResolveMaps tests the guard before reading the key and value fields, as the second finding corrects; `ResolveMapsDone` and `CollapseFieldsDone` are about this corrected pass.
- The UMD wrapper of the generated code and its `$Reader.create` dispatch are not modelled. Decoding starts from a fresh reader over the buffer.

## Findings

| source | as written | input that shows it | evidently intended | confidence | as-written member | corrected member |
|---|---|---|---|---|---|---|
| src/main.ts:105-113 | `desc.oneofIndex` is checked with `typeof === 'number'`, but the generated prototype gives every field `oneofIndex = 0` (proto/index.js:846), so every field without an oneof index joins the first named oneof | a message with one named oneof `kind` and a plain string field `x` | only fields whose `oneof_index` was set on the wire (`hasOwnProperty`) join a oneof | not executed | Builder.PlainFieldJoinsFirstOneof | Builder.NoIndexNoOneof |
| src/visitor.ts:253-259 | `keyField.resolvedType` and `valueField.resolvedType` are read before the `keyField && valueField` guard, so an entry type missing field 1 or 2 makes `visit` throw | a field of type `.pkg.TagsEntry` whose `map_entry` type has only field 1 | the guard comes first, and such a field is left as it is | not executed | Visitors.MissingValueFieldFails | Visitors.IncompleteEntryKept |
