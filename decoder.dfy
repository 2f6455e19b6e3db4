/**
 * The generated `decode` routines as methods over the shared `Reader`:
 * compute `end`, loop while `reader.pos < end`, read a tag and dispatch on
 * `tag >>> 3`. Each method is proved to compute what its function in
 * `DecodeSpec` describes: the same record and final position, or the same
 * error.
 */
module Decoder {
  import opened Results
  import opened Wire
  import opened Descriptors
  import opened DecodeSpec

  /** `length === undefined ? reader.len : reader.pos + length` */
  function EndOf(buf: seq<byte>, pos: nat, length: Option<nat>): nat
  {
    if length.None? then |buf| else pos + length.value
  }

  /** The repeated int32 block: packed when the wire type is 2, otherwise one value. */
  method ReadRepeatedInt32(r: Reader, tag: nat, acc: seq<int>) returns (res: Result<seq<int>, Error>)
    requires r.Valid()
    modifies r
    ensures r.Valid()
    ensures Tracks(res, RepeatedInt32(r.buf, old(r.pos), tag, acc), r.pos)
  {
    var list := acc;
    if WireType(tag) == 2 {
      var len :- r.ReadUint32();
      var end2 := len + r.pos;
      while r.pos < end2
        invariant r.Valid()
        invariant PackedInt32(r.buf, r.pos, end2, list) == RepeatedInt32(r.buf, old(r.pos), tag, acc)
        decreases |r.buf| - r.pos
      {
        var v :- r.ReadInt32();
        list := list + [v];
      }
    } else {
      var v :- r.ReadInt32();
      list := list + [v];
    }
    return Ok(list);
  }

  method DecodeNamePart(r: Reader, length: Option<nat>) returns (res: Result<NamePart, Error>)
    requires r.Valid()
    modifies r
    ensures r.Valid()
    ensures Tracks(res, NamePartFrom(r.buf, old(r.pos), EndOf(r.buf, old(r.pos), length)), r.pos)
  {
    var end := if length.None? then r.Len() else r.pos + length.value;
    var message := EmptyNamePart;
    while r.pos < end
      invariant r.Valid()
      invariant NamePartLoop(r.buf, end, r.pos, message) == NamePartLoop(r.buf, end, old(r.pos), EmptyNamePart)
      decreases |r.buf| - r.pos
    {
      var tag :- r.ReadUint32();
      match FieldNumber(tag) {
        case 1 => var v :- r.ReadString(); message := message.(namePart := Some(v));
        case 2 => var v :- r.ReadBool(); message := message.(isExtension := Some(v));
        case _ => var u :- r.SkipType(WireType(tag));
      }
    }
    if message.namePart.None? {
      return Err(MissingRequiredField("namePart"));
    }
    if message.isExtension.None? {
      return Err(MissingRequiredField("isExtension"));
    }
    return Ok(NamePart(message.namePart.value, message.isExtension.value));
  }

  method DecodeUninterpreted(r: Reader, length: Option<nat>) returns (res: Result<UninterpretedOption, Error>)
    requires r.Valid()
    modifies r
    ensures r.Valid()
    ensures Tracks(res, UninterpretedFrom(r.buf, old(r.pos), EndOf(r.buf, old(r.pos), length)), r.pos)
  {
    var end := if length.None? then r.Len() else r.pos + length.value;
    var message := EmptyUninterpreted;
    while r.pos < end
      invariant r.Valid()
      invariant UninterpretedLoop(r.buf, end, r.pos, message) == UninterpretedFrom(r.buf, old(r.pos), end)
      decreases |r.buf| - r.pos
    {
      var tag :- r.ReadUint32();
      message :- UninterpretedStep(r, tag, message);
    }
    return Ok(message);
  }

  /** The `switch (tag >>> 3)` of `UninterpretedOption.decode`. */
  method UninterpretedStep(r: Reader, tag: nat, m: UninterpretedOption) returns (res: Result<UninterpretedOption, Error>)
    requires r.Valid()
    modifies r
    ensures r.Valid()
    ensures Tracks(res, UninterpretedField(r.buf, old(r.pos), tag, m), r.pos)
  {
    var message := m;
    match FieldNumber(tag) {
      case 2 =>
        var len :- r.ReadUint32();
        var v :- DecodeNamePart(r, Some(len));
        message := message.(name := message.name + [v]);
      case 3 => var v :- r.ReadString(); message := message.(identifierValue := v);
      case 4 => var v :- r.ReadVarint(); message := message.(positiveIntValue := v % Two64);
      case 5 => var v :- r.ReadVarint(); message := message.(negativeIntValue := v % Two64);
      case 6 => var v :- r.ReadFixed(8); message := message.(doubleValue := v);
      case 7 => var v :- r.ReadBytes(); message := message.(stringValue := v);
      case 8 => var v :- r.ReadString(); message := message.(aggregateValue := v);
      case _ => var u :- r.SkipType(WireType(tag));
    }
    return Ok(message);
  }

  method DecodeOpaque(r: Reader, schema: Schema, length: Option<nat>) returns (res: Result<Opaque, Error>)
    requires r.Valid()
    modifies r
    decreases |r.buf| - r.pos, 1
    ensures r.Valid()
    ensures Tracks(res, OpaqueFrom(schema, r.buf, old(r.pos), EndOf(r.buf, old(r.pos), length)), r.pos)
  {
    var end := if length.None? then r.Len() else r.pos + length.value;
    var message := EmptyOpaque;
    while r.pos < end
      invariant r.Valid() && old(r.pos) <= r.pos
      invariant OpaqueLoop(schema, r.buf, end, r.pos, message) == OpaqueFrom(schema, r.buf, old(r.pos), end)
      decreases |r.buf| - r.pos
    {
      var tag :- r.ReadUint32();
      message :- OpaqueStep(r, schema, tag, message);
    }
    return Ok(message);
  }

  /** The switch shared by every message decoded by the generic template. */
  method OpaqueStep(r: Reader, schema: Schema, tag: nat, m: Opaque) returns (res: Result<Opaque, Error>)
    requires r.Valid()
    modifies r
    decreases |r.buf| - r.pos, 0
    ensures r.Valid()
    ensures Tracks(res, OpaqueField(schema, r.buf, old(r.pos), tag, m), r.pos)
  {
    var n := FieldNumber(tag);
    match KindOf(schema.fields, n) {
      case None =>
        var u :- r.SkipType(WireType(tag));
        return Ok(m);
      case Some(k) =>
        match k {
          case KMessage(s) =>
            var len :- r.ReadUint32();
            var v :- DecodeOpaque(r, s, Some(len));
            return Ok(Opaque(m.props[n := VMessage(v)]));
          case KMessages(s) =>
            var len :- r.ReadUint32();
            var v :- DecodeOpaque(r, s, Some(len));
            return Ok(Opaque(m.props[n := VMessages(MessagesOf(m, n) + [v])]));
          case _ =>
            res := OpaqueFlat(r, schema, tag, m);
        }
    }
  }

  /** The options fields that hold a string, an integer, a flag or an uninterpreted option, or a list of them. */
  method OpaqueFlat(r: Reader, schema: Schema, tag: nat, m: Opaque) returns (res: Result<Opaque, Error>)
    requires r.Valid()
    requires KindOf(schema.fields, FieldNumber(tag)).Some?
    requires KindOf(schema.fields, FieldNumber(tag)).value in {KString, KInt32, KBool, KStrings, KPackedInt32, KUninterpreted}
    modifies r
    ensures r.Valid()
    ensures Tracks(res, OpaqueField(schema, r.buf, old(r.pos), tag, m), r.pos)
  {
    var n := FieldNumber(tag);
    match KindOf(schema.fields, n).value {
      case KString =>
        var v :- r.ReadString();
        return Ok(Opaque(m.props[n := VString(v)]));
      case KInt32 =>
        var v :- r.ReadInt32();
        return Ok(Opaque(m.props[n := VInt(v)]));
      case KBool =>
        var v :- r.ReadBool();
        return Ok(Opaque(m.props[n := VBool(v)]));
      case KStrings =>
        var v :- r.ReadString();
        return Ok(Opaque(m.props[n := VStrings(StringsOf(m, n) + [v])]));
      case KPackedInt32 =>
        var v :- ReadRepeatedInt32(r, tag, IntsOf(m, n));
        return Ok(Opaque(m.props[n := VInts(v)]));
      case KUninterpreted =>
        var len :- r.ReadUint32();
        var v :- DecodeUninterpreted(r, Some(len));
        return Ok(Opaque(m.props[n := VOptions(OptionsOf(m, n) + [v])]));
    }
  }

  method DecodeMessageOptions(r: Reader, length: Option<nat>) returns (res: Result<MessageOptions, Error>)
    requires r.Valid()
    modifies r
    ensures r.Valid()
    ensures Tracks(res, MessageOptionsFrom(r.buf, old(r.pos), EndOf(r.buf, old(r.pos), length)), r.pos)
  {
    var end := if length.None? then r.Len() else r.pos + length.value;
    var message := EmptyMessageOptions;
    while r.pos < end
      invariant r.Valid() && old(r.pos) <= r.pos
      invariant MessageOptionsLoop(r.buf, end, r.pos, message) == MessageOptionsFrom(r.buf, old(r.pos), end)
      decreases |r.buf| - r.pos
    {
      var tag :- r.ReadUint32();
      message :- MessageOptionsStep(r, tag, message);
    }
    return Ok(message);
  }

  /** The `switch (tag >>> 3)` of `MessageOptions.decode`. */
  method MessageOptionsStep(r: Reader, tag: nat, m: MessageOptions) returns (res: Result<MessageOptions, Error>)
    requires r.Valid()
    modifies r
    ensures r.Valid()
    ensures Tracks(res, MessageOptionsField(r.buf, old(r.pos), tag, m), r.pos)
  {
    var message := m;
    match FieldNumber(tag) {
      case 1 => var v :- r.ReadBool(); message := message.(messageSetWireFormat := Some(v));
      case 2 => var v :- r.ReadBool(); message := message.(noStandardDescriptorAccessor := Some(v));
      case 3 => var v :- r.ReadBool(); message := message.(deprecated := Some(v));
      case 7 => var v :- r.ReadBool(); message := message.(mapEntry := Some(v));
      case 999 =>
        var len :- r.ReadUint32();
        var v :- DecodeUninterpreted(r, Some(len));
        message := message.(uninterpretedOption := message.uninterpretedOption + [v]);
      case _ => var u :- r.SkipType(WireType(tag));
    }
    return Ok(message);
  }

  method DecodeReservedRange(r: Reader, length: Option<nat>) returns (res: Result<ReservedRange, Error>)
    requires r.Valid()
    modifies r
    ensures r.Valid()
    ensures Tracks(res, ReservedRangeFrom(r.buf, old(r.pos), EndOf(r.buf, old(r.pos), length)), r.pos)
  {
    var end := if length.None? then r.Len() else r.pos + length.value;
    var message := EmptyReservedRange;
    while r.pos < end
      invariant r.Valid() && old(r.pos) <= r.pos
      invariant ReservedRangeLoop(r.buf, end, r.pos, message) == ReservedRangeFrom(r.buf, old(r.pos), end)
      decreases |r.buf| - r.pos
    {
      var tag :- r.ReadUint32();
      match FieldNumber(tag) {
        case 1 => var v :- r.ReadInt32(); message := message.(start := v);
        case 2 => var v :- r.ReadInt32(); message := message.(end := v);
        case _ => var u :- r.SkipType(WireType(tag));
      }
    }
    return Ok(message);
  }

  method DecodeField(r: Reader, length: Option<nat>) returns (res: Result<FieldDescriptorProto, Error>)
    requires r.Valid()
    modifies r
    ensures r.Valid()
    ensures Tracks(res, FieldFrom(r.buf, old(r.pos), EndOf(r.buf, old(r.pos), length)), r.pos)
  {
    var end := if length.None? then r.Len() else r.pos + length.value;
    var message := EmptyField;
    while r.pos < end
      invariant r.Valid() && old(r.pos) <= r.pos
      invariant FieldLoop(r.buf, end, r.pos, message) == FieldFrom(r.buf, old(r.pos), end)
      decreases |r.buf| - r.pos
    {
      var tag :- r.ReadUint32();
      message :- FieldStep(r, tag, message);
    }
    return Ok(message);
  }

  /** The `switch (tag >>> 3)` of `Field.decode`. */
  method FieldStep(r: Reader, tag: nat, m: FieldDescriptorProto) returns (res: Result<FieldDescriptorProto, Error>)
    requires r.Valid()
    modifies r
    ensures r.Valid()
    ensures Tracks(res, FieldField(r.buf, old(r.pos), tag, m), r.pos)
  {
    var message := m;
    match FieldNumber(tag) {
      case 1 => var v :- r.ReadString(); message := message.(name := v);
      case 3 => var v :- r.ReadInt32(); message := message.(number := v);
      case 4 => var v :- r.ReadInt32(); message := message.(labelCode := v);
      case 5 => var v :- r.ReadInt32(); message := message.(typeCode := v);
      case 6 => var v :- r.ReadString(); message := message.(typeName := v);
      case 2 => var v :- r.ReadString(); message := message.(extendee := v);
      case 7 => var v :- r.ReadString(); message := message.(defaultValue := v);
      case 9 => var v :- r.ReadInt32(); message := message.(oneofIndex := v, oneofIndexSet := true);
      case 10 => var v :- r.ReadString(); message := message.(jsonName := v);
      case 8 =>
        var len :- r.ReadUint32();
        var v :- DecodeOpaque(r, FieldOptionsSchema, Some(len));
        message := message.(options := Some(v));
      case _ => var u :- r.SkipType(WireType(tag));
    }
    return Ok(message);
  }

  method DecodeOneof(r: Reader, length: Option<nat>) returns (res: Result<OneofDescriptorProto, Error>)
    requires r.Valid()
    modifies r
    ensures r.Valid()
    ensures Tracks(res, OneofFrom(r.buf, old(r.pos), EndOf(r.buf, old(r.pos), length)), r.pos)
  {
    var end := if length.None? then r.Len() else r.pos + length.value;
    var message := EmptyOneof;
    while r.pos < end
      invariant r.Valid() && old(r.pos) <= r.pos
      invariant OneofLoop(r.buf, end, r.pos, message) == OneofFrom(r.buf, old(r.pos), end)
      decreases |r.buf| - r.pos
    {
      var tag :- r.ReadUint32();
      message :- OneofStep(r, tag, message);
    }
    return Ok(message);
  }

  /** The `switch (tag >>> 3)` of `Oneof.decode`. */
  method OneofStep(r: Reader, tag: nat, m: OneofDescriptorProto) returns (res: Result<OneofDescriptorProto, Error>)
    requires r.Valid()
    modifies r
    ensures r.Valid()
    ensures Tracks(res, OneofField(r.buf, old(r.pos), tag, m), r.pos)
  {
    var message := m;
    match FieldNumber(tag) {
      case 1 => var v :- r.ReadString(); message := message.(name := v);
      case 2 =>
        var len :- r.ReadUint32();
        var v :- DecodeOpaque(r, OneofOptionsSchema, Some(len));
        message := message.(options := Some(v));
      case _ => var u :- r.SkipType(WireType(tag));
    }
    return Ok(message);
  }

  method DecodeEnumValue(r: Reader, length: Option<nat>) returns (res: Result<EnumValueDescriptorProto, Error>)
    requires r.Valid()
    modifies r
    ensures r.Valid()
    ensures Tracks(res, EnumValueFrom(r.buf, old(r.pos), EndOf(r.buf, old(r.pos), length)), r.pos)
  {
    var end := if length.None? then r.Len() else r.pos + length.value;
    var message := EmptyEnumValue;
    while r.pos < end
      invariant r.Valid() && old(r.pos) <= r.pos
      invariant EnumValueLoop(r.buf, end, r.pos, message) == EnumValueFrom(r.buf, old(r.pos), end)
      decreases |r.buf| - r.pos
    {
      var tag :- r.ReadUint32();
      message :- EnumValueStep(r, tag, message);
    }
    return Ok(message);
  }

  /** The `switch (tag >>> 3)` of `EnumValue.decode`. */
  method EnumValueStep(r: Reader, tag: nat, m: EnumValueDescriptorProto) returns (res: Result<EnumValueDescriptorProto, Error>)
    requires r.Valid()
    modifies r
    ensures r.Valid()
    ensures Tracks(res, EnumValueField(r.buf, old(r.pos), tag, m), r.pos)
  {
    var message := m;
    match FieldNumber(tag) {
      case 1 => var v :- r.ReadString(); message := message.(name := v);
      case 2 => var v :- r.ReadInt32(); message := message.(number := v);
      case 3 =>
        var len :- r.ReadUint32();
        var v :- DecodeOpaque(r, EnumValueOptionsSchema, Some(len));
        message := message.(options := Some(v));
      case _ => var u :- r.SkipType(WireType(tag));
    }
    return Ok(message);
  }

  method DecodeEnum(r: Reader, length: Option<nat>) returns (res: Result<EnumDescriptorProto, Error>)
    requires r.Valid()
    modifies r
    ensures r.Valid()
    ensures Tracks(res, EnumFrom(r.buf, old(r.pos), EndOf(r.buf, old(r.pos), length)), r.pos)
  {
    var end := if length.None? then r.Len() else r.pos + length.value;
    var message := EmptyEnum;
    while r.pos < end
      invariant r.Valid() && old(r.pos) <= r.pos
      invariant EnumLoop(r.buf, end, r.pos, message) == EnumFrom(r.buf, old(r.pos), end)
      decreases |r.buf| - r.pos
    {
      var tag :- r.ReadUint32();
      message :- EnumStep(r, tag, message);
    }
    return Ok(message);
  }

  /** The `switch (tag >>> 3)` of `Enum.decode`. */
  method EnumStep(r: Reader, tag: nat, m: EnumDescriptorProto) returns (res: Result<EnumDescriptorProto, Error>)
    requires r.Valid()
    modifies r
    ensures r.Valid()
    ensures Tracks(res, EnumField(r.buf, old(r.pos), tag, m), r.pos)
  {
    var message := m;
    match FieldNumber(tag) {
      case 1 => var v :- r.ReadString(); message := message.(name := v);
      case 2 =>
        var len :- r.ReadUint32();
        var v :- DecodeEnumValue(r, Some(len));
        message := message.(value := message.value + [v]);
      case 3 =>
        var len :- r.ReadUint32();
        var v :- DecodeOpaque(r, EnumOptionsSchema, Some(len));
        message := message.(options := Some(v));
      case 4 =>
        var len :- r.ReadUint32();
        var v :- DecodeReservedRange(r, Some(len));
        message := message.(reservedRange := message.reservedRange + [v]);
      case 5 => var v :- r.ReadString(); message := message.(reservedName := message.reservedName + [v]);
      case _ => var u :- r.SkipType(WireType(tag));
    }
    return Ok(message);
  }

  method DecodeMethod(r: Reader, length: Option<nat>) returns (res: Result<MethodDescriptorProto, Error>)
    requires r.Valid()
    modifies r
    ensures r.Valid()
    ensures Tracks(res, MethodFrom(r.buf, old(r.pos), EndOf(r.buf, old(r.pos), length)), r.pos)
  {
    var end := if length.None? then r.Len() else r.pos + length.value;
    var message := EmptyMethod;
    while r.pos < end
      invariant r.Valid() && old(r.pos) <= r.pos
      invariant MethodLoop(r.buf, end, r.pos, message) == MethodFrom(r.buf, old(r.pos), end)
      decreases |r.buf| - r.pos
    {
      var tag :- r.ReadUint32();
      message :- MethodStep(r, tag, message);
    }
    return Ok(message);
  }

  /** The `switch (tag >>> 3)` of `Method.decode`. */
  method MethodStep(r: Reader, tag: nat, m: MethodDescriptorProto) returns (res: Result<MethodDescriptorProto, Error>)
    requires r.Valid()
    modifies r
    ensures r.Valid()
    ensures Tracks(res, MethodField(r.buf, old(r.pos), tag, m), r.pos)
  {
    var message := m;
    match FieldNumber(tag) {
      case 1 => var v :- r.ReadString(); message := message.(name := v);
      case 2 => var v :- r.ReadString(); message := message.(inputType := v);
      case 3 => var v :- r.ReadString(); message := message.(outputType := v);
      case 4 =>
        var len :- r.ReadUint32();
        var v :- DecodeOpaque(r, MethodOptionsSchema, Some(len));
        message := message.(options := Some(v));
      case 5 => var v :- r.ReadBool(); message := message.(clientStreaming := v);
      case 6 => var v :- r.ReadBool(); message := message.(serverStreaming := v);
      case _ => var u :- r.SkipType(WireType(tag));
    }
    return Ok(message);
  }

  method DecodeService(r: Reader, length: Option<nat>) returns (res: Result<ServiceDescriptorProto, Error>)
    requires r.Valid()
    modifies r
    ensures r.Valid()
    ensures Tracks(res, ServiceFrom(r.buf, old(r.pos), EndOf(r.buf, old(r.pos), length)), r.pos)
  {
    var end := if length.None? then r.Len() else r.pos + length.value;
    var message := EmptyService;
    while r.pos < end
      invariant r.Valid() && old(r.pos) <= r.pos
      invariant ServiceLoop(r.buf, end, r.pos, message) == ServiceFrom(r.buf, old(r.pos), end)
      decreases |r.buf| - r.pos
    {
      var tag :- r.ReadUint32();
      message :- ServiceStep(r, tag, message);
    }
    return Ok(message);
  }

  /** The `switch (tag >>> 3)` of `Service.decode`. */
  method ServiceStep(r: Reader, tag: nat, m: ServiceDescriptorProto) returns (res: Result<ServiceDescriptorProto, Error>)
    requires r.Valid()
    modifies r
    ensures r.Valid()
    ensures Tracks(res, ServiceField(r.buf, old(r.pos), tag, m), r.pos)
  {
    var message := m;
    match FieldNumber(tag) {
      case 1 => var v :- r.ReadString(); message := message.(name := v);
      case 2 =>
        var len :- r.ReadUint32();
        var v :- DecodeMethod(r, Some(len));
        message := message.(methods := message.methods + [v]);
      case 3 =>
        var len :- r.ReadUint32();
        var v :- DecodeOpaque(r, ServiceOptionsSchema, Some(len));
        message := message.(options := Some(v));
      case _ => var u :- r.SkipType(WireType(tag));
    }
    return Ok(message);
  }

  method DecodeDescriptor(r: Reader, length: Option<nat>) returns (res: Result<DescriptorProto, Error>)
    requires r.Valid()
    modifies r
    decreases |r.buf| - r.pos, 1
    ensures r.Valid()
    ensures Tracks(res, DescriptorFrom(r.buf, old(r.pos), EndOf(r.buf, old(r.pos), length)), r.pos)
  {
    var end := if length.None? then r.Len() else r.pos + length.value;
    var message := EmptyDescriptor;
    while r.pos < end
      invariant r.Valid() && old(r.pos) <= r.pos
      invariant DescriptorLoop(r.buf, end, r.pos, message) == DescriptorFrom(r.buf, old(r.pos), end)
      decreases |r.buf| - r.pos
    {
      var tag :- r.ReadUint32();
      message :- DescriptorStep(r, tag, message);
    }
    return Ok(message);
  }

  /** The `switch (tag >>> 3)` of `Descriptor.decode`. */
  method DescriptorStep(r: Reader, tag: nat, m: DescriptorProto) returns (res: Result<DescriptorProto, Error>)
    requires r.Valid()
    modifies r
    decreases |r.buf| - r.pos, 0
    ensures r.Valid()
    ensures Tracks(res, DescriptorField(r.buf, old(r.pos), tag, m), r.pos)
  {
    var message := m;
    match FieldNumber(tag) {
      case 3 =>
        var len :- r.ReadUint32();
        var v :- DecodeDescriptor(r, Some(len));
        message := message.(nestedType := message.nestedType + [v]);
      case _ => message :- DescriptorStepFlat(r, tag, message);
    }
    return Ok(message);
  }

  /** The cases of `Descriptor.decode`'s switch for the name, the fields and the extensions. */
  method DescriptorStepFlat(r: Reader, tag: nat, m: DescriptorProto) returns (res: Result<DescriptorProto, Error>)
    requires r.Valid()
    requires FieldNumber(tag) != 3
    modifies r
    ensures r.Valid()
    ensures Tracks(res, DescriptorField(r.buf, old(r.pos), tag, m), r.pos)
  {
    var message := m;
    match FieldNumber(tag) {
      case 1 => var v :- r.ReadString(); message := message.(name := v);
      case 2 =>
        var len :- r.ReadUint32();
        var v :- DecodeField(r, Some(len));
        message := message.(field := message.field + [v]);
      case 6 =>
        var len :- r.ReadUint32();
        var v :- DecodeField(r, Some(len));
        message := message.(extension := message.extension + [v]);
      case _ => message :- DescriptorStepRest(r, tag, message);
    }
    return Ok(message);
  }

  /** The enums and the extension ranges. */
  method DescriptorStepRest(r: Reader, tag: nat, m: DescriptorProto) returns (res: Result<DescriptorProto, Error>)
    requires r.Valid()
    requires FieldNumber(tag) !in {1, 2, 3, 6}
    modifies r
    ensures r.Valid()
    ensures Tracks(res, DescriptorField(r.buf, old(r.pos), tag, m), r.pos)
  {
    var message := m;
    match FieldNumber(tag) {
      case 4 =>
        var len :- r.ReadUint32();
        var v :- DecodeEnum(r, Some(len));
        message := message.(enumType := message.enumType + [v]);
      case 5 =>
        var len :- r.ReadUint32();
        var v :- DecodeOpaque(r, ExtensionRangeSchema, Some(len));
        message := message.(extensionRange := message.extensionRange + [v]);
      case _ => message :- DescriptorStepLast(r, tag, message);
    }
    return Ok(message);
  }

  /** The oneofs and the options. */
  method DescriptorStepLast(r: Reader, tag: nat, m: DescriptorProto) returns (res: Result<DescriptorProto, Error>)
    requires r.Valid()
    requires FieldNumber(tag) !in {1, 2, 3, 4, 5, 6}
    modifies r
    ensures r.Valid()
    ensures Tracks(res, DescriptorField(r.buf, old(r.pos), tag, m), r.pos)
  {
    var message := m;
    match FieldNumber(tag) {
      case 8 =>
        var len :- r.ReadUint32();
        var v :- DecodeOneof(r, Some(len));
        message := message.(oneofDecl := message.oneofDecl + [v]);
      case 7 =>
        var len :- r.ReadUint32();
        var v :- DecodeMessageOptions(r, Some(len));
        message := message.(options := Some(v));
      case _ => message :- DescriptorStepTail(r, tag, message);
    }
    return Ok(message);
  }

  /** The reserved ranges and names, and unknown fields. */
  method DescriptorStepTail(r: Reader, tag: nat, m: DescriptorProto) returns (res: Result<DescriptorProto, Error>)
    requires r.Valid()
    requires FieldNumber(tag) !in {1, 2, 3, 4, 5, 6, 7, 8}
    modifies r
    ensures r.Valid()
    ensures Tracks(res, DescriptorField(r.buf, old(r.pos), tag, m), r.pos)
  {
    var message := m;
    match FieldNumber(tag) {
      case 9 =>
        var len :- r.ReadUint32();
        var v :- DecodeReservedRange(r, Some(len));
        message := message.(reservedRange := message.reservedRange + [v]);
      case 10 => var v :- r.ReadString(); message := message.(reservedName := message.reservedName + [v]);
      case _ => var u :- r.SkipType(WireType(tag));
    }
    return Ok(message);
  }

  method DecodeFile(r: Reader, length: Option<nat>) returns (res: Result<FileDescriptorProto, Error>)
    requires r.Valid()
    modifies r
    ensures r.Valid()
    ensures Tracks(res, FileFrom(r.buf, old(r.pos), EndOf(r.buf, old(r.pos), length)), r.pos)
  {
    var end := if length.None? then r.Len() else r.pos + length.value;
    var message := EmptyFile;
    while r.pos < end
      invariant r.Valid() && old(r.pos) <= r.pos
      invariant FileLoop(r.buf, end, r.pos, message) == FileFrom(r.buf, old(r.pos), end)
      decreases |r.buf| - r.pos
    {
      var tag :- r.ReadUint32();
      message :- FileStep(r, tag, message);
    }
    return Ok(message);
  }

  /** The `switch (tag >>> 3)` of `File.decode`. */
  method FileStep(r: Reader, tag: nat, m: FileDescriptorProto) returns (res: Result<FileDescriptorProto, Error>)
    requires r.Valid()
    modifies r
    ensures r.Valid()
    ensures Tracks(res, FileField(r.buf, old(r.pos), tag, m), r.pos)
  {
    var message := m;
    match FieldNumber(tag) {
      case 1 => var v :- r.ReadString(); message := message.(name := v);
      case 2 => var v :- r.ReadString(); message := message.(package := v);
      case 3 => var v :- r.ReadString(); message := message.(dependency := message.dependency + [v]);
      case 10 => var v :- ReadRepeatedInt32(r, tag, message.publicDependency); message := message.(publicDependency := v);
      case 11 => var v :- ReadRepeatedInt32(r, tag, message.weakDependency); message := message.(weakDependency := v);
      case 12 => var v :- r.ReadString(); message := message.(syntax := v);
      case _ => message :- FileStepNested(r, tag, message);
    }
    return Ok(message);
  }

  /** The cases of `FileDescriptorProto.decode`'s switch that decode a message type or an enum. */
  method FileStepNested(r: Reader, tag: nat, m: FileDescriptorProto) returns (res: Result<FileDescriptorProto, Error>)
    requires r.Valid()
    requires FieldNumber(tag) !in {1, 2, 3, 10, 11, 12}
    modifies r
    ensures r.Valid()
    ensures Tracks(res, FileField(r.buf, old(r.pos), tag, m), r.pos)
  {
    var message := m;
    match FieldNumber(tag) {
      case 4 =>
        var len :- r.ReadUint32();
        var v :- DecodeDescriptor(r, Some(len));
        message := message.(messageType := message.messageType + [v]);
      case 5 =>
        var len :- r.ReadUint32();
        var v :- DecodeEnum(r, Some(len));
        message := message.(enumType := message.enumType + [v]);
      case _ => message :- FileStepServices(r, tag, message);
    }
    return Ok(message);
  }

  /** The services and the extensions. */
  method FileStepServices(r: Reader, tag: nat, m: FileDescriptorProto) returns (res: Result<FileDescriptorProto, Error>)
    requires r.Valid()
    requires FieldNumber(tag) !in {1, 2, 3, 4, 5, 10, 11, 12}
    modifies r
    ensures r.Valid()
    ensures Tracks(res, FileField(r.buf, old(r.pos), tag, m), r.pos)
  {
    var message := m;
    match FieldNumber(tag) {
      case 6 =>
        var len :- r.ReadUint32();
        var v :- DecodeService(r, Some(len));
        message := message.(service := message.service + [v]);
      case 7 =>
        var len :- r.ReadUint32();
        var v :- DecodeField(r, Some(len));
        message := message.(extension := message.extension + [v]);
      case _ => message :- FileStepRest(r, tag, message);
    }
    return Ok(message);
  }

  /** The remaining cases: options, source code info and unknown fields. */
  method FileStepRest(r: Reader, tag: nat, m: FileDescriptorProto) returns (res: Result<FileDescriptorProto, Error>)
    requires r.Valid()
    requires FieldNumber(tag) !in {1, 2, 3, 4, 5, 6, 7, 10, 11, 12}
    modifies r
    ensures r.Valid()
    ensures Tracks(res, FileField(r.buf, old(r.pos), tag, m), r.pos)
  {
    var message := m;
    match FieldNumber(tag) {
      case 8 =>
        var len :- r.ReadUint32();
        var v :- DecodeOpaque(r, FileOptionsSchema, Some(len));
        message := message.(options := Some(v));
      case 9 =>
        var len :- r.ReadUint32();
        var v :- DecodeOpaque(r, SourceCodeInfoSchema, Some(len));
        message := message.(sourceCodeInfo := Some(v));
      case _ => var u :- r.SkipType(WireType(tag));
    }
    return Ok(message);
  }

  method DecodeFileSet(r: Reader, length: Option<nat>) returns (res: Result<FileDescriptorSet, Error>)
    requires r.Valid()
    modifies r
    ensures r.Valid()
    ensures Tracks(res, FileSetFrom(r.buf, old(r.pos), EndOf(r.buf, old(r.pos), length)), r.pos)
  {
    var end := if length.None? then r.Len() else r.pos + length.value;
    var message := EmptyFileSet;
    while r.pos < end
      invariant r.Valid() && old(r.pos) <= r.pos
      invariant FileSetLoop(r.buf, end, r.pos, message) == FileSetFrom(r.buf, old(r.pos), end)
      decreases |r.buf| - r.pos
    {
      ghost var before, m := r.pos, message;
      var tag :- r.ReadUint32();
      message :- FileSetStep(r, tag, message);
      assert FileSetLoop(r.buf, end, before, m) == FileSetLoop(r.buf, end, r.pos, message);
    }
    return Ok(message);
  }

  /** The `switch (tag >>> 3)` of `FileSet.decode`. */
  method FileSetStep(r: Reader, tag: nat, m: FileDescriptorSet) returns (res: Result<FileDescriptorSet, Error>)
    requires r.Valid()
    modifies r
    ensures r.Valid()
    ensures Tracks(res, FileSetField(r.buf, old(r.pos), tag, m), r.pos)
  {
    var message := m;
    match FieldNumber(tag) {
      case 1 =>
        var len :- r.ReadUint32();
        var v :- DecodeFile(r, Some(len));
        message := message.(file := message.file + [v]);
      case _ => var u :- r.SkipType(WireType(tag));
    }
    return Ok(message);
  }

  /** `FileDescriptorSet.decode(buffer)`: a fresh reader over the whole buffer. */
  method DecodeFileSetBuffer(buf: seq<byte>) returns (res: Result<FileDescriptorSet, Error>)
    ensures res == DecodeSpec.DecodeFileSet(buf)
  {
    var r := new Reader(buf);
    res := DecodeFileSet(r, None);
  }

  /** `FileDescriptorProto.decode(buffer)`. */
  method DecodeFileBuffer(buf: seq<byte>) returns (res: Result<FileDescriptorProto, Error>)
    ensures res == DecodeSpec.DecodeFile(buf)
  {
    var r := new Reader(buf);
    res := DecodeFile(r, None);
  }
}
