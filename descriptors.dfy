/**
 * The records the generated `google.protobuf` decoders produce. Each field
 * holds the value the decoder assigned, or the default its prototype
 * supplies when the field never appeared on the wire; repeated fields are
 * sequences in wire order.
 */
module Descriptors {
  import opened Results
  import opened Wire

  /** `UninterpretedOption.NamePart`: both fields are required by the schema. */
  datatype NamePart = NamePart(namePart: string, isExtension: bool)

  /**
   * A NamePart while it is being decoded: which of its two fields have been
   * assigned (own properties), and with what.
   */
  datatype PartialNamePart = PartialNamePart(namePart: Option<string>, isExtension: Option<bool>)

  /**
   * `UninterpretedOption`. The 64-bit integers are kept as the raw varint
   * values and the double as its eight raw bytes (empty when absent).
   */
  datatype UninterpretedOption = UninterpretedOption(
    name: seq<NamePart>,
    identifierValue: string,
    positiveIntValue: nat,
    negativeIntValue: nat,
    doubleValue: seq<byte>,
    stringValue: seq<byte>,
    aggregateValue: string)

  /**
   * `MessageOptions`. `None` means the flag was never assigned, so it is not
   * an own property and reads as the prototype default `false`.
   */
  datatype MessageOptions = MessageOptions(
    messageSetWireFormat: Option<bool>,
    noStandardDescriptorAccessor: Option<bool>,
    deprecated: Option<bool>,
    mapEntry: Option<bool>,
    uninterpretedOption: seq<UninterpretedOption>)

  /** The shape of a field of a message decoded by the shared generic template. */
  datatype Kind =
    | KString
    | KInt32
    | KBool
    | KStrings
    | KPackedInt32
    | KUninterpreted
    | KMessage(schema: Schema)
    | KMessages(schema: Schema)

  /** The decoder's switch for one message: field number to field shape. */
  datatype Schema = Schema(fields: seq<(nat, Kind)>)

  /** A field value of a generically decoded message. */
  datatype Value =
    | VString(str: string)
    | VInt(num: int)
    | VBool(flag: bool)
    | VStrings(strs: seq<string>)
    | VInts(ints: seq<int>)
    | VOptions(opts: seq<UninterpretedOption>)
    | VMessage(msg: Opaque)
    | VMessages(msgs: seq<Opaque>)

  /**
   * A message the builder never looks into (FileOptions, FieldOptions,
   * SourceCodeInfo, ...): its own properties by field number.
   */
  datatype Opaque = Opaque(props: map<nat, Value>)

  datatype ReservedRange = ReservedRange(start: int, end: int)

  datatype FieldDescriptorProto = FieldDescriptorProto(
    name: string,
    number: int,
    labelCode: int,
    typeCode: int,
    typeName: string,
    extendee: string,
    defaultValue: string,
    oneofIndex: int,
    oneofIndexSet: bool,   // whether `oneofIndex` is an own property
    jsonName: string,
    options: Option<Opaque>)

  datatype OneofDescriptorProto = OneofDescriptorProto(name: string, options: Option<Opaque>)

  datatype EnumValueDescriptorProto = EnumValueDescriptorProto(
    name: string, number: int, options: Option<Opaque>)

  datatype EnumDescriptorProto = EnumDescriptorProto(
    name: string,
    value: seq<EnumValueDescriptorProto>,
    options: Option<Opaque>,
    reservedRange: seq<ReservedRange>,
    reservedName: seq<string>)

  datatype MethodDescriptorProto = MethodDescriptorProto(
    name: string,
    inputType: string,
    outputType: string,
    options: Option<Opaque>,
    clientStreaming: bool,
    serverStreaming: bool)

  datatype ServiceDescriptorProto = ServiceDescriptorProto(
    name: string, methods: seq<MethodDescriptorProto>, options: Option<Opaque>)  // `method` in the schema

  datatype DescriptorProto = DescriptorProto(
    name: string,
    field: seq<FieldDescriptorProto>,
    extension: seq<FieldDescriptorProto>,
    nestedType: seq<DescriptorProto>,
    enumType: seq<EnumDescriptorProto>,
    extensionRange: seq<Opaque>,
    oneofDecl: seq<OneofDescriptorProto>,
    options: Option<MessageOptions>,
    reservedRange: seq<ReservedRange>,
    reservedName: seq<string>)

  datatype FileDescriptorProto = FileDescriptorProto(
    name: string,
    package: string,
    dependency: seq<string>,
    publicDependency: seq<int>,
    weakDependency: seq<int>,
    messageType: seq<DescriptorProto>,
    enumType: seq<EnumDescriptorProto>,
    service: seq<ServiceDescriptorProto>,
    extension: seq<FieldDescriptorProto>,
    options: Option<Opaque>,
    sourceCodeInfo: Option<Opaque>,
    syntax: string)

  datatype FileDescriptorSet = FileDescriptorSet(file: seq<FileDescriptorProto>)

  // The records a freshly constructed message starts from: the prototype defaults.

  const EmptyFileSet := FileDescriptorSet([])
  const EmptyFile := FileDescriptorProto("", "", [], [], [], [], [], [], [], None, None, "")
  const EmptyDescriptor := DescriptorProto("", [], [], [], [], [], [], None, [], [])
  const EmptyReservedRange := ReservedRange(0, 0)
  const EmptyField := FieldDescriptorProto("", 0, 1, 1, "", "", "", 0, false, "", None)
  const EmptyOneof := OneofDescriptorProto("", None)
  const EmptyEnum := EnumDescriptorProto("", [], None, [], [])
  const EmptyEnumValue := EnumValueDescriptorProto("", 0, None)
  const EmptyService := ServiceDescriptorProto("", [], None)
  const EmptyMethod := MethodDescriptorProto("", "", "", None, false, false)
  const EmptyMessageOptions := MessageOptions(None, None, None, None, [])
  const EmptyUninterpreted := UninterpretedOption([], "", 0, 0, [], [], "")
  const EmptyNamePart := PartialNamePart(None, None)
  const EmptyOpaque := Opaque(map[])

  /** The value a MessageOptions flag reads as: its own value, or the prototype's `false`. */
  function Flag(f: Option<bool>): (b: bool)
    ensures b <==> f == Some(true)
  {
    match f
    case Some(v) => v
    case None => false
  }

  /** The shape the generic decoder gives field number `n`, if the schema lists it. */
  function KindOf(s: seq<(nat, Kind)>, n: nat): (k: Option<Kind>)
    ensures k.Some? <==> exists i :: 0 <= i < |s| && s[i].0 == n
  {
    if s == [] then None
    else if s[0].0 == n then Some(s[0].1)
    else KindOf(s[1..], n)
  }

  // The switches of the messages that share the generic template.

  const UninterpretedOnly := [(999 as nat, KUninterpreted)]

  const FileOptionsSchema := Schema([
    (1, KString), (8, KString), (10, KBool), (20, KBool), (27, KBool), (9, KInt32),
    (11, KString), (16, KBool), (17, KBool), (18, KBool), (42, KBool), (23, KBool),
    (31, KBool), (36, KString), (37, KString), (39, KString), (40, KString),
    (41, KString), (999, KUninterpreted)])

  const FieldOptionsSchema := Schema([
    (1, KInt32), (2, KBool), (6, KInt32), (5, KBool), (3, KBool), (10, KBool),
    (999, KUninterpreted)])

  const OneofOptionsSchema := Schema(UninterpretedOnly)
  const EnumOptionsSchema := Schema([(2, KBool), (3, KBool), (999, KUninterpreted)])
  const EnumValueOptionsSchema := Schema([(1, KBool), (999, KUninterpreted)])
  const ServiceOptionsSchema := Schema([(33, KBool), (999, KUninterpreted)])
  const MethodOptionsSchema := Schema([(33, KBool), (34, KInt32), (999, KUninterpreted)])
  const ExtensionRangeOptionsSchema := Schema(UninterpretedOnly)
  const ExtensionRangeSchema := Schema([(1, KInt32), (2, KInt32), (3, KMessage(ExtensionRangeOptionsSchema))])
  const LocationSchema := Schema([
    (1, KPackedInt32), (2, KPackedInt32), (3, KString), (4, KString), (6, KStrings)])
  const SourceCodeInfoSchema := Schema([(1, KMessages(LocationSchema))])
}
