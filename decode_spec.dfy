/**
 * What each generated `decode` routine computes, as functions of the buffer.
 *
 * Every routine has the same three parts:
 *  - `XFrom(buf, pos, end)` starts from the prototype defaults at `pos`;
 *  - `XLoop(buf, end, pos, m)` reads a tag while `pos < end` and stops at
 *    the first position at or past `end` (it never checks that it lands
 *    exactly on `end`);
 *  - `XField(buf, pos, tag, m)` is the `switch (tag >>> 3)`: assign a
 *    scalar, append to a repeated field, decode a length-delimited
 *    sub-message from the current position, or skip by `tag & 7`.
 * Results carry the position after the message. `decreases` uses the
 * bytes left, since every tag and every value read consumes at least one.
 */
module DecodeSpec {
  import opened Results
  import opened Wire
  import opened Descriptors

  const Two64: nat := 0x1_0000_0000_0000_0000

  // ---------------------------------------------------------------- packed int32

  /** Read int32 values until the cursor reaches `end2`, appending them to `acc`. */
  function PackedInt32(buf: seq<byte>, pos: nat, end2: nat, acc: seq<int>): (r: Read<seq<int>>)
    requires pos <= |buf|
    decreases |buf| - pos
    ensures r.Ok? ==> pos <= r.value.1 <= |buf| && r.value.1 >= end2
  {
    if pos >= end2 then Ok((acc, pos))
    else
      var v :- Int32(buf, pos);
      PackedInt32(buf, v.1, end2, acc + [v.0])
  }

  /** A repeated int32 field: a packed run with wire type 2, one value otherwise. */
  function RepeatedInt32(buf: seq<byte>, pos: nat, tag: nat, acc: seq<int>): (r: Read<seq<int>>)
    requires pos <= |buf|
    ensures r.Ok? ==> pos <= r.value.1 <= |buf|
  {
    if WireType(tag) == 2 then
      var len :- Uint32(buf, pos);
      PackedInt32(buf, len.1, len.1 + len.0, acc)
    else
      var v :- Int32(buf, pos);
      Ok((acc + [v.0], v.1))
  }

  // ---------------------------------------------------------------- NamePart

  function NamePartFrom(buf: seq<byte>, pos: nat, end: nat): (r: Read<NamePart>)
    requires pos <= |buf|
    ensures r.Ok? ==> pos <= r.value.1 <= |buf| && r.value.1 >= end
  {
    var p :- NamePartLoop(buf, end, pos, EmptyNamePart);
    if p.0.namePart.None? then Err(MissingRequiredField("namePart"))
    else if p.0.isExtension.None? then Err(MissingRequiredField("isExtension"))
    else Ok((NamePart(p.0.namePart.value, p.0.isExtension.value), p.1))
  }

  function NamePartLoop(buf: seq<byte>, end: nat, pos: nat, m: PartialNamePart): (r: Read<PartialNamePart>)
    requires pos <= |buf|
    decreases |buf| - pos
    ensures r.Ok? ==> pos <= r.value.1 <= |buf| && r.value.1 >= end
  {
    if pos >= end then Ok((m, pos))
    else
      var tag :- Uint32(buf, pos);
      var s :- NamePartField(buf, tag.1, tag.0, m);
      NamePartLoop(buf, end, s.1, s.0)
  }

  function NamePartField(buf: seq<byte>, pos: nat, tag: nat, m: PartialNamePart): (r: Read<PartialNamePart>)
    requires pos <= |buf|
    ensures r.Ok? ==> pos <= r.value.1 <= |buf|
  {
    match FieldNumber(tag)
    case 1 => var v :- Str(buf, pos); Ok((m.(namePart := Some(v.0)), v.1))
    case 2 => var v :- Bool(buf, pos); Ok((m.(isExtension := Some(v.0)), v.1))
    case _ => var p :- Skip(buf, pos, WireType(tag)); Ok((m, p))
  }

  // ---------------------------------------------------------------- UninterpretedOption

  function UninterpretedFrom(buf: seq<byte>, pos: nat, end: nat): (r: Read<UninterpretedOption>)
    requires pos <= |buf|
    ensures r.Ok? ==> pos <= r.value.1 <= |buf| && r.value.1 >= end
  {
    UninterpretedLoop(buf, end, pos, EmptyUninterpreted)
  }

  function UninterpretedLoop(buf: seq<byte>, end: nat, pos: nat, m: UninterpretedOption): (r: Read<UninterpretedOption>)
    requires pos <= |buf|
    decreases |buf| - pos
    ensures r.Ok? ==> pos <= r.value.1 <= |buf| && r.value.1 >= end
  {
    if pos >= end then Ok((m, pos))
    else
      var tag :- Uint32(buf, pos);
      var s :- UninterpretedField(buf, tag.1, tag.0, m);
      UninterpretedLoop(buf, end, s.1, s.0)
  }

  function UninterpretedField(buf: seq<byte>, pos: nat, tag: nat, m: UninterpretedOption): (r: Read<UninterpretedOption>)
    requires pos <= |buf|
    ensures r.Ok? ==> pos <= r.value.1 <= |buf|
  {
    match FieldNumber(tag)
    case 2 =>
      var len :- Uint32(buf, pos);
      var v :- NamePartFrom(buf, len.1, len.1 + len.0);
      Ok((m.(name := m.name + [v.0]), v.1))
    case 3 => var v :- Str(buf, pos); Ok((m.(identifierValue := v.0), v.1))
    case 4 => var v :- Varint(buf, pos); Ok((m.(positiveIntValue := v.0 % Two64), v.1))
    case 5 => var v :- Varint(buf, pos); Ok((m.(negativeIntValue := v.0 % Two64), v.1))
    case 6 => var v :- Fixed(buf, pos, 8); Ok((m.(doubleValue := v.0), v.1))
    case 7 => var v :- Bytes(buf, pos); Ok((m.(stringValue := v.0), v.1))
    case 8 => var v :- Str(buf, pos); Ok((m.(aggregateValue := v.0), v.1))
    case _ => var p :- Skip(buf, pos, WireType(tag)); Ok((m, p))
  }

  // ---------------------------------------------------------------- generic template

  function StringsOf(m: Opaque, n: nat): seq<string>
  {
    if n in m.props && m.props[n].VStrings? then m.props[n].strs else []
  }

  function IntsOf(m: Opaque, n: nat): seq<int>
  {
    if n in m.props && m.props[n].VInts? then m.props[n].ints else []
  }

  function OptionsOf(m: Opaque, n: nat): seq<UninterpretedOption>
  {
    if n in m.props && m.props[n].VOptions? then m.props[n].opts else []
  }

  function MessagesOf(m: Opaque, n: nat): seq<Opaque>
  {
    if n in m.props && m.props[n].VMessages? then m.props[n].msgs else []
  }

  /** A message decoded by the shared template whose switch is `schema`. */
  function OpaqueFrom(schema: Schema, buf: seq<byte>, pos: nat, end: nat): (r: Read<Opaque>)
    requires pos <= |buf|
    decreases |buf| - pos, 2
    ensures r.Ok? ==> pos <= r.value.1 <= |buf| && r.value.1 >= end
  {
    OpaqueLoop(schema, buf, end, pos, EmptyOpaque)
  }

  function OpaqueLoop(schema: Schema, buf: seq<byte>, end: nat, pos: nat, m: Opaque): (r: Read<Opaque>)
    requires pos <= |buf|
    decreases |buf| - pos, 1
    ensures r.Ok? ==> pos <= r.value.1 <= |buf| && r.value.1 >= end
  {
    if pos >= end then Ok((m, pos))
    else
      var tag :- Uint32(buf, pos);
      var s :- OpaqueField(schema, buf, tag.1, tag.0, m);
      OpaqueLoop(schema, buf, end, s.1, s.0)
  }

  function OpaqueField(schema: Schema, buf: seq<byte>, pos: nat, tag: nat, m: Opaque): (r: Read<Opaque>)
    requires pos <= |buf|
    decreases |buf| - pos, 0
    ensures r.Ok? ==> pos <= r.value.1 <= |buf|
  {
    var n := FieldNumber(tag);
    match KindOf(schema.fields, n)
    case None => var p :- Skip(buf, pos, WireType(tag)); Ok((m, p))
    case Some(k) =>
      match k
      case KString => var v :- Str(buf, pos); Ok((Opaque(m.props[n := VString(v.0)]), v.1))
      case KInt32 => var v :- Int32(buf, pos); Ok((Opaque(m.props[n := VInt(v.0)]), v.1))
      case KBool => var v :- Bool(buf, pos); Ok((Opaque(m.props[n := VBool(v.0)]), v.1))
      case KStrings =>
        var v :- Str(buf, pos);
        Ok((Opaque(m.props[n := VStrings(StringsOf(m, n) + [v.0])]), v.1))
      case KPackedInt32 =>
        var v :- RepeatedInt32(buf, pos, tag, IntsOf(m, n));
        Ok((Opaque(m.props[n := VInts(v.0)]), v.1))
      case KUninterpreted =>
        var len :- Uint32(buf, pos);
        var v :- UninterpretedFrom(buf, len.1, len.1 + len.0);
        Ok((Opaque(m.props[n := VOptions(OptionsOf(m, n) + [v.0])]), v.1))
      case KMessage(s) =>
        var len :- Uint32(buf, pos);
        var v :- OpaqueFrom(s, buf, len.1, len.1 + len.0);
        Ok((Opaque(m.props[n := VMessage(v.0)]), v.1))
      case KMessages(s) =>
        var len :- Uint32(buf, pos);
        var v :- OpaqueFrom(s, buf, len.1, len.1 + len.0);
        Ok((Opaque(m.props[n := VMessages(MessagesOf(m, n) + [v.0])]), v.1))
  }

  // ---------------------------------------------------------------- MessageOptions

  function MessageOptionsFrom(buf: seq<byte>, pos: nat, end: nat): (r: Read<MessageOptions>)
    requires pos <= |buf|
    ensures r.Ok? ==> pos <= r.value.1 <= |buf| && r.value.1 >= end
  {
    MessageOptionsLoop(buf, end, pos, EmptyMessageOptions)
  }

  function MessageOptionsLoop(buf: seq<byte>, end: nat, pos: nat, m: MessageOptions): (r: Read<MessageOptions>)
    requires pos <= |buf|
    decreases |buf| - pos
    ensures r.Ok? ==> pos <= r.value.1 <= |buf| && r.value.1 >= end
  {
    if pos >= end then Ok((m, pos))
    else
      var tag :- Uint32(buf, pos);
      var s :- MessageOptionsField(buf, tag.1, tag.0, m);
      MessageOptionsLoop(buf, end, s.1, s.0)
  }

  function MessageOptionsField(buf: seq<byte>, pos: nat, tag: nat, m: MessageOptions): (r: Read<MessageOptions>)
    requires pos <= |buf|
    ensures r.Ok? ==> pos <= r.value.1 <= |buf|
  {
    match FieldNumber(tag)
    case 1 => var v :- Bool(buf, pos); Ok((m.(messageSetWireFormat := Some(v.0)), v.1))
    case 2 => var v :- Bool(buf, pos); Ok((m.(noStandardDescriptorAccessor := Some(v.0)), v.1))
    case 3 => var v :- Bool(buf, pos); Ok((m.(deprecated := Some(v.0)), v.1))
    case 7 => var v :- Bool(buf, pos); Ok((m.(mapEntry := Some(v.0)), v.1))
    case 999 =>
      var len :- Uint32(buf, pos);
      var v :- UninterpretedFrom(buf, len.1, len.1 + len.0);
      Ok((m.(uninterpretedOption := m.uninterpretedOption + [v.0]), v.1))
    case _ => var p :- Skip(buf, pos, WireType(tag)); Ok((m, p))
  }

  // ---------------------------------------------------------------- ReservedRange

  /** `DescriptorProto.ReservedRange`; `EnumDescriptorProto.EnumReservedRange` has the same switch. */
  function ReservedRangeFrom(buf: seq<byte>, pos: nat, end: nat): (r: Read<ReservedRange>)
    requires pos <= |buf|
    ensures r.Ok? ==> pos <= r.value.1 <= |buf| && r.value.1 >= end
  {
    ReservedRangeLoop(buf, end, pos, EmptyReservedRange)
  }

  function ReservedRangeLoop(buf: seq<byte>, end: nat, pos: nat, m: ReservedRange): (r: Read<ReservedRange>)
    requires pos <= |buf|
    decreases |buf| - pos
    ensures r.Ok? ==> pos <= r.value.1 <= |buf| && r.value.1 >= end
  {
    if pos >= end then Ok((m, pos))
    else
      var tag :- Uint32(buf, pos);
      var s :- ReservedRangeField(buf, tag.1, tag.0, m);
      ReservedRangeLoop(buf, end, s.1, s.0)
  }

  function ReservedRangeField(buf: seq<byte>, pos: nat, tag: nat, m: ReservedRange): (r: Read<ReservedRange>)
    requires pos <= |buf|
    ensures r.Ok? ==> pos <= r.value.1 <= |buf|
  {
    match FieldNumber(tag)
    case 1 => var v :- Int32(buf, pos); Ok((m.(start := v.0), v.1))
    case 2 => var v :- Int32(buf, pos); Ok((m.(end := v.0), v.1))
    case _ => var p :- Skip(buf, pos, WireType(tag)); Ok((m, p))
  }

  // ---------------------------------------------------------------- FieldDescriptorProto

  function FieldFrom(buf: seq<byte>, pos: nat, end: nat): (r: Read<FieldDescriptorProto>)
    requires pos <= |buf|
    ensures r.Ok? ==> pos <= r.value.1 <= |buf| && r.value.1 >= end
  {
    FieldLoop(buf, end, pos, EmptyField)
  }

  function FieldLoop(buf: seq<byte>, end: nat, pos: nat, m: FieldDescriptorProto): (r: Read<FieldDescriptorProto>)
    requires pos <= |buf|
    decreases |buf| - pos
    ensures r.Ok? ==> pos <= r.value.1 <= |buf| && r.value.1 >= end
  {
    if pos >= end then Ok((m, pos))
    else
      var tag :- Uint32(buf, pos);
      var s :- FieldField(buf, tag.1, tag.0, m);
      FieldLoop(buf, end, s.1, s.0)
  }

  function FieldField(buf: seq<byte>, pos: nat, tag: nat, m: FieldDescriptorProto): (r: Read<FieldDescriptorProto>)
    requires pos <= |buf|
    ensures r.Ok? ==> pos <= r.value.1 <= |buf|
  {
    match FieldNumber(tag)
    case 1 => var v :- Str(buf, pos); Ok((m.(name := v.0), v.1))
    case 3 => var v :- Int32(buf, pos); Ok((m.(number := v.0), v.1))
    case 4 => var v :- Int32(buf, pos); Ok((m.(labelCode := v.0), v.1))
    case 5 => var v :- Int32(buf, pos); Ok((m.(typeCode := v.0), v.1))
    case 6 => var v :- Str(buf, pos); Ok((m.(typeName := v.0), v.1))
    case 2 => var v :- Str(buf, pos); Ok((m.(extendee := v.0), v.1))
    case 7 => var v :- Str(buf, pos); Ok((m.(defaultValue := v.0), v.1))
    case 9 => var v :- Int32(buf, pos); Ok((m.(oneofIndex := v.0, oneofIndexSet := true), v.1))
    case 10 => var v :- Str(buf, pos); Ok((m.(jsonName := v.0), v.1))
    case 8 =>
      var len :- Uint32(buf, pos);
      var v :- OpaqueFrom(FieldOptionsSchema, buf, len.1, len.1 + len.0);
      Ok((m.(options := Some(v.0)), v.1))
    case _ => var p :- Skip(buf, pos, WireType(tag)); Ok((m, p))
  }

  // ---------------------------------------------------------------- OneofDescriptorProto

  function OneofFrom(buf: seq<byte>, pos: nat, end: nat): (r: Read<OneofDescriptorProto>)
    requires pos <= |buf|
    ensures r.Ok? ==> pos <= r.value.1 <= |buf| && r.value.1 >= end
  {
    OneofLoop(buf, end, pos, EmptyOneof)
  }

  function OneofLoop(buf: seq<byte>, end: nat, pos: nat, m: OneofDescriptorProto): (r: Read<OneofDescriptorProto>)
    requires pos <= |buf|
    decreases |buf| - pos
    ensures r.Ok? ==> pos <= r.value.1 <= |buf| && r.value.1 >= end
  {
    if pos >= end then Ok((m, pos))
    else
      var tag :- Uint32(buf, pos);
      var s :- OneofField(buf, tag.1, tag.0, m);
      OneofLoop(buf, end, s.1, s.0)
  }

  function OneofField(buf: seq<byte>, pos: nat, tag: nat, m: OneofDescriptorProto): (r: Read<OneofDescriptorProto>)
    requires pos <= |buf|
    ensures r.Ok? ==> pos <= r.value.1 <= |buf|
  {
    match FieldNumber(tag)
    case 1 => var v :- Str(buf, pos); Ok((m.(name := v.0), v.1))
    case 2 =>
      var len :- Uint32(buf, pos);
      var v :- OpaqueFrom(OneofOptionsSchema, buf, len.1, len.1 + len.0);
      Ok((m.(options := Some(v.0)), v.1))
    case _ => var p :- Skip(buf, pos, WireType(tag)); Ok((m, p))
  }

  // ---------------------------------------------------------------- EnumValueDescriptorProto

  function EnumValueFrom(buf: seq<byte>, pos: nat, end: nat): (r: Read<EnumValueDescriptorProto>)
    requires pos <= |buf|
    ensures r.Ok? ==> pos <= r.value.1 <= |buf| && r.value.1 >= end
  {
    EnumValueLoop(buf, end, pos, EmptyEnumValue)
  }

  function EnumValueLoop(buf: seq<byte>, end: nat, pos: nat, m: EnumValueDescriptorProto): (r: Read<EnumValueDescriptorProto>)
    requires pos <= |buf|
    decreases |buf| - pos
    ensures r.Ok? ==> pos <= r.value.1 <= |buf| && r.value.1 >= end
  {
    if pos >= end then Ok((m, pos))
    else
      var tag :- Uint32(buf, pos);
      var s :- EnumValueField(buf, tag.1, tag.0, m);
      EnumValueLoop(buf, end, s.1, s.0)
  }

  function EnumValueField(buf: seq<byte>, pos: nat, tag: nat, m: EnumValueDescriptorProto): (r: Read<EnumValueDescriptorProto>)
    requires pos <= |buf|
    ensures r.Ok? ==> pos <= r.value.1 <= |buf|
  {
    match FieldNumber(tag)
    case 1 => var v :- Str(buf, pos); Ok((m.(name := v.0), v.1))
    case 2 => var v :- Int32(buf, pos); Ok((m.(number := v.0), v.1))
    case 3 =>
      var len :- Uint32(buf, pos);
      var v :- OpaqueFrom(EnumValueOptionsSchema, buf, len.1, len.1 + len.0);
      Ok((m.(options := Some(v.0)), v.1))
    case _ => var p :- Skip(buf, pos, WireType(tag)); Ok((m, p))
  }

  // ---------------------------------------------------------------- EnumDescriptorProto

  function EnumFrom(buf: seq<byte>, pos: nat, end: nat): (r: Read<EnumDescriptorProto>)
    requires pos <= |buf|
    ensures r.Ok? ==> pos <= r.value.1 <= |buf| && r.value.1 >= end
  {
    EnumLoop(buf, end, pos, EmptyEnum)
  }

  function EnumLoop(buf: seq<byte>, end: nat, pos: nat, m: EnumDescriptorProto): (r: Read<EnumDescriptorProto>)
    requires pos <= |buf|
    decreases |buf| - pos
    ensures r.Ok? ==> pos <= r.value.1 <= |buf| && r.value.1 >= end
  {
    if pos >= end then Ok((m, pos))
    else
      var tag :- Uint32(buf, pos);
      var s :- EnumField(buf, tag.1, tag.0, m);
      EnumLoop(buf, end, s.1, s.0)
  }

  function EnumField(buf: seq<byte>, pos: nat, tag: nat, m: EnumDescriptorProto): (r: Read<EnumDescriptorProto>)
    requires pos <= |buf|
    ensures r.Ok? ==> pos <= r.value.1 <= |buf|
  {
    match FieldNumber(tag)
    case 1 => var v :- Str(buf, pos); Ok((m.(name := v.0), v.1))
    case 2 =>
      var len :- Uint32(buf, pos);
      var v :- EnumValueFrom(buf, len.1, len.1 + len.0);
      Ok((m.(value := m.value + [v.0]), v.1))
    case 3 =>
      var len :- Uint32(buf, pos);
      var v :- OpaqueFrom(EnumOptionsSchema, buf, len.1, len.1 + len.0);
      Ok((m.(options := Some(v.0)), v.1))
    case 4 =>
      var len :- Uint32(buf, pos);
      var v :- ReservedRangeFrom(buf, len.1, len.1 + len.0);
      Ok((m.(reservedRange := m.reservedRange + [v.0]), v.1))
    case 5 => var v :- Str(buf, pos); Ok((m.(reservedName := m.reservedName + [v.0]), v.1))
    case _ => var p :- Skip(buf, pos, WireType(tag)); Ok((m, p))
  }

  // ---------------------------------------------------------------- MethodDescriptorProto

  function MethodFrom(buf: seq<byte>, pos: nat, end: nat): (r: Read<MethodDescriptorProto>)
    requires pos <= |buf|
    ensures r.Ok? ==> pos <= r.value.1 <= |buf| && r.value.1 >= end
  {
    MethodLoop(buf, end, pos, EmptyMethod)
  }

  function MethodLoop(buf: seq<byte>, end: nat, pos: nat, m: MethodDescriptorProto): (r: Read<MethodDescriptorProto>)
    requires pos <= |buf|
    decreases |buf| - pos
    ensures r.Ok? ==> pos <= r.value.1 <= |buf| && r.value.1 >= end
  {
    if pos >= end then Ok((m, pos))
    else
      var tag :- Uint32(buf, pos);
      var s :- MethodField(buf, tag.1, tag.0, m);
      MethodLoop(buf, end, s.1, s.0)
  }

  function MethodField(buf: seq<byte>, pos: nat, tag: nat, m: MethodDescriptorProto): (r: Read<MethodDescriptorProto>)
    requires pos <= |buf|
    ensures r.Ok? ==> pos <= r.value.1 <= |buf|
  {
    match FieldNumber(tag)
    case 1 => var v :- Str(buf, pos); Ok((m.(name := v.0), v.1))
    case 2 => var v :- Str(buf, pos); Ok((m.(inputType := v.0), v.1))
    case 3 => var v :- Str(buf, pos); Ok((m.(outputType := v.0), v.1))
    case 4 =>
      var len :- Uint32(buf, pos);
      var v :- OpaqueFrom(MethodOptionsSchema, buf, len.1, len.1 + len.0);
      Ok((m.(options := Some(v.0)), v.1))
    case 5 => var v :- Bool(buf, pos); Ok((m.(clientStreaming := v.0), v.1))
    case 6 => var v :- Bool(buf, pos); Ok((m.(serverStreaming := v.0), v.1))
    case _ => var p :- Skip(buf, pos, WireType(tag)); Ok((m, p))
  }

  // ---------------------------------------------------------------- ServiceDescriptorProto

  function ServiceFrom(buf: seq<byte>, pos: nat, end: nat): (r: Read<ServiceDescriptorProto>)
    requires pos <= |buf|
    ensures r.Ok? ==> pos <= r.value.1 <= |buf| && r.value.1 >= end
  {
    ServiceLoop(buf, end, pos, EmptyService)
  }

  function ServiceLoop(buf: seq<byte>, end: nat, pos: nat, m: ServiceDescriptorProto): (r: Read<ServiceDescriptorProto>)
    requires pos <= |buf|
    decreases |buf| - pos
    ensures r.Ok? ==> pos <= r.value.1 <= |buf| && r.value.1 >= end
  {
    if pos >= end then Ok((m, pos))
    else
      var tag :- Uint32(buf, pos);
      var s :- ServiceField(buf, tag.1, tag.0, m);
      ServiceLoop(buf, end, s.1, s.0)
  }

  function ServiceField(buf: seq<byte>, pos: nat, tag: nat, m: ServiceDescriptorProto): (r: Read<ServiceDescriptorProto>)
    requires pos <= |buf|
    ensures r.Ok? ==> pos <= r.value.1 <= |buf|
  {
    match FieldNumber(tag)
    case 1 => var v :- Str(buf, pos); Ok((m.(name := v.0), v.1))
    case 2 =>
      var len :- Uint32(buf, pos);
      var v :- MethodFrom(buf, len.1, len.1 + len.0);
      Ok((m.(methods := m.methods + [v.0]), v.1))
    case 3 =>
      var len :- Uint32(buf, pos);
      var v :- OpaqueFrom(ServiceOptionsSchema, buf, len.1, len.1 + len.0);
      Ok((m.(options := Some(v.0)), v.1))
    case _ => var p :- Skip(buf, pos, WireType(tag)); Ok((m, p))
  }

  // ---------------------------------------------------------------- DescriptorProto

  function DescriptorFrom(buf: seq<byte>, pos: nat, end: nat): (r: Read<DescriptorProto>)
    requires pos <= |buf|
    decreases |buf| - pos, 2
    ensures r.Ok? ==> pos <= r.value.1 <= |buf| && r.value.1 >= end
  {
    DescriptorLoop(buf, end, pos, EmptyDescriptor)
  }

  function DescriptorLoop(buf: seq<byte>, end: nat, pos: nat, m: DescriptorProto): (r: Read<DescriptorProto>)
    requires pos <= |buf|
    decreases |buf| - pos, 1
    ensures r.Ok? ==> pos <= r.value.1 <= |buf| && r.value.1 >= end
  {
    if pos >= end then Ok((m, pos))
    else
      var tag :- Uint32(buf, pos);
      var s :- DescriptorField(buf, tag.1, tag.0, m);
      DescriptorLoop(buf, end, s.1, s.0)
  }

  function DescriptorField(buf: seq<byte>, pos: nat, tag: nat, m: DescriptorProto): (r: Read<DescriptorProto>)
    requires pos <= |buf|
    decreases |buf| - pos, 0
    ensures r.Ok? ==> pos <= r.value.1 <= |buf|
  {
    match FieldNumber(tag)
    case 1 => var v :- Str(buf, pos); Ok((m.(name := v.0), v.1))
    case 2 =>
      var len :- Uint32(buf, pos);
      var v :- FieldFrom(buf, len.1, len.1 + len.0);
      Ok((m.(field := m.field + [v.0]), v.1))
    case 6 =>
      var len :- Uint32(buf, pos);
      var v :- FieldFrom(buf, len.1, len.1 + len.0);
      Ok((m.(extension := m.extension + [v.0]), v.1))
    case 3 =>
      var len :- Uint32(buf, pos);
      var v :- DescriptorFrom(buf, len.1, len.1 + len.0);
      Ok((m.(nestedType := m.nestedType + [v.0]), v.1))
    case 4 =>
      var len :- Uint32(buf, pos);
      var v :- EnumFrom(buf, len.1, len.1 + len.0);
      Ok((m.(enumType := m.enumType + [v.0]), v.1))
    case 5 =>
      var len :- Uint32(buf, pos);
      var v :- OpaqueFrom(ExtensionRangeSchema, buf, len.1, len.1 + len.0);
      Ok((m.(extensionRange := m.extensionRange + [v.0]), v.1))
    case 8 =>
      var len :- Uint32(buf, pos);
      var v :- OneofFrom(buf, len.1, len.1 + len.0);
      Ok((m.(oneofDecl := m.oneofDecl + [v.0]), v.1))
    case 7 =>
      var len :- Uint32(buf, pos);
      var v :- MessageOptionsFrom(buf, len.1, len.1 + len.0);
      Ok((m.(options := Some(v.0)), v.1))
    case 9 =>
      var len :- Uint32(buf, pos);
      var v :- ReservedRangeFrom(buf, len.1, len.1 + len.0);
      Ok((m.(reservedRange := m.reservedRange + [v.0]), v.1))
    case 10 => var v :- Str(buf, pos); Ok((m.(reservedName := m.reservedName + [v.0]), v.1))
    case _ => var p :- Skip(buf, pos, WireType(tag)); Ok((m, p))
  }

  // ---------------------------------------------------------------- FileDescriptorProto

  function FileFrom(buf: seq<byte>, pos: nat, end: nat): (r: Read<FileDescriptorProto>)
    requires pos <= |buf|
    ensures r.Ok? ==> pos <= r.value.1 <= |buf| && r.value.1 >= end
  {
    FileLoop(buf, end, pos, EmptyFile)
  }

  function FileLoop(buf: seq<byte>, end: nat, pos: nat, m: FileDescriptorProto): (r: Read<FileDescriptorProto>)
    requires pos <= |buf|
    decreases |buf| - pos
    ensures r.Ok? ==> pos <= r.value.1 <= |buf| && r.value.1 >= end
  {
    if pos >= end then Ok((m, pos))
    else
      var tag :- Uint32(buf, pos);
      var s :- FileField(buf, tag.1, tag.0, m);
      FileLoop(buf, end, s.1, s.0)
  }

  function FileField(buf: seq<byte>, pos: nat, tag: nat, m: FileDescriptorProto): (r: Read<FileDescriptorProto>)
    requires pos <= |buf|
    ensures r.Ok? ==> pos <= r.value.1 <= |buf|
  {
    match FieldNumber(tag)
    case 1 => var v :- Str(buf, pos); Ok((m.(name := v.0), v.1))
    case 2 => var v :- Str(buf, pos); Ok((m.(package := v.0), v.1))
    case 3 => var v :- Str(buf, pos); Ok((m.(dependency := m.dependency + [v.0]), v.1))
    case 10 =>
      var v :- RepeatedInt32(buf, pos, tag, m.publicDependency);
      Ok((m.(publicDependency := v.0), v.1))
    case 11 =>
      var v :- RepeatedInt32(buf, pos, tag, m.weakDependency);
      Ok((m.(weakDependency := v.0), v.1))
    case 4 =>
      var len :- Uint32(buf, pos);
      var v :- DescriptorFrom(buf, len.1, len.1 + len.0);
      Ok((m.(messageType := m.messageType + [v.0]), v.1))
    case 5 =>
      var len :- Uint32(buf, pos);
      var v :- EnumFrom(buf, len.1, len.1 + len.0);
      Ok((m.(enumType := m.enumType + [v.0]), v.1))
    case 6 =>
      var len :- Uint32(buf, pos);
      var v :- ServiceFrom(buf, len.1, len.1 + len.0);
      Ok((m.(service := m.service + [v.0]), v.1))
    case 7 =>
      var len :- Uint32(buf, pos);
      var v :- FieldFrom(buf, len.1, len.1 + len.0);
      Ok((m.(extension := m.extension + [v.0]), v.1))
    case 8 =>
      var len :- Uint32(buf, pos);
      var v :- OpaqueFrom(FileOptionsSchema, buf, len.1, len.1 + len.0);
      Ok((m.(options := Some(v.0)), v.1))
    case 9 =>
      var len :- Uint32(buf, pos);
      var v :- OpaqueFrom(SourceCodeInfoSchema, buf, len.1, len.1 + len.0);
      Ok((m.(sourceCodeInfo := Some(v.0)), v.1))
    case 12 => var v :- Str(buf, pos); Ok((m.(syntax := v.0), v.1))
    case _ => var p :- Skip(buf, pos, WireType(tag)); Ok((m, p))
  }

  // ---------------------------------------------------------------- FileDescriptorSet

  function FileSetFrom(buf: seq<byte>, pos: nat, end: nat): (r: Read<FileDescriptorSet>)
    requires pos <= |buf|
    ensures r.Ok? ==> pos <= r.value.1 <= |buf| && r.value.1 >= end
  {
    FileSetLoop(buf, end, pos, EmptyFileSet)
  }

  function FileSetLoop(buf: seq<byte>, end: nat, pos: nat, m: FileDescriptorSet): (r: Read<FileDescriptorSet>)
    requires pos <= |buf|
    decreases |buf| - pos
    ensures r.Ok? ==> pos <= r.value.1 <= |buf| && r.value.1 >= end
  {
    if pos >= end then Ok((m, pos))
    else
      var tag :- Uint32(buf, pos);
      var s :- FileSetField(buf, tag.1, tag.0, m);
      FileSetLoop(buf, end, s.1, s.0)
  }

  function FileSetField(buf: seq<byte>, pos: nat, tag: nat, m: FileDescriptorSet): (r: Read<FileDescriptorSet>)
    requires pos <= |buf|
    ensures r.Ok? ==> pos <= r.value.1 <= |buf|
  {
    match FieldNumber(tag)
    case 1 =>
      var len :- Uint32(buf, pos);
      var v :- FileFrom(buf, len.1, len.1 + len.0);
      Ok((m.(file := m.file + [v.0]), v.1))
    case _ => var p :- Skip(buf, pos, WireType(tag)); Ok((m, p))
  }

  /** `decode(buffer)` with no length: the message runs to the end of the buffer. */
  function DecodeFileSet(buf: seq<byte>): Result<FileDescriptorSet, Error>
  {
    var r :- FileSetFrom(buf, 0, |buf|);
    Ok(r.0)
  }

  function DecodeFile(buf: seq<byte>): Result<FileDescriptorProto, Error>
  {
    var r :- FileFrom(buf, 0, |buf|);
    Ok(r.0)
  }
}
