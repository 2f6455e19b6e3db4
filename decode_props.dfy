/**
 * Properties of the decode routines: repeated fields only grow, packed
 * int32 runs append, scalar and sub-message fields are replaced (last one
 * wins), unknown fields are stepped over without touching the message,
 * absent fields keep their defaults, `NamePart` rejects a missing required
 * field, and a loop may stop past `end`. Where a property needs concrete
 * wire bytes they are built with the reference encodings of module `Encode`.
 */
module DecodeProps {
  import opened Results
  import opened Wire
  import opened Encode
  import opened Descriptors
  import opened DecodeSpec

  // ---------------------------------------------------------------- packed int32

  /** Put `acc` in front of the list a successful read produced. */
  function Prepend(acc: seq<int>, r: Read<seq<int>>): Read<seq<int>>
  {
    match r
    case Ok(v) => Ok((acc + v.0, v.1))
    case Err(e) => Err(e)
  }

  /** A packed run appends to the list it is given: the values already there stay, in order, in front. */
  lemma {:induction false} PackedInt32Appends(buf: seq<byte>, pos: nat, end2: nat, acc: seq<int>, extra: seq<int>)
    requires pos <= |buf|
    ensures PackedInt32(buf, pos, end2, acc + extra) == Prepend(acc, PackedInt32(buf, pos, end2, extra))
    decreases |buf| - pos
  {
    if pos < end2 {
      match Int32(buf, pos)
      case Err(_) =>
      case Ok(v) =>
        assert (acc + extra) + [v.0] == acc + (extra + [v.0]);
        PackedInt32Appends(buf, v.1, end2, acc, extra + [v.0]);
    }
  }

  /** A repeated int32 field, packed or not, appends to the list built so far. */
  lemma RepeatedInt32Appends(buf: seq<byte>, pos: nat, tag: nat, acc: seq<int>)
    requires pos <= |buf|
    ensures RepeatedInt32(buf, pos, tag, acc) == Prepend(acc, RepeatedInt32(buf, pos, tag, []))
  {
    if WireType(tag) == 2 {
      match Uint32(buf, pos)
      case Err(_) =>
      case Ok(len) =>
        PackedInt32Appends(buf, len.1, len.1 + len.0, acc, []);
        assert acc + [] == acc;
    } else {
      match Int32(buf, pos)
      case Err(_) =>
      case Ok(v) => assert [] + [v.0] == [v.0];
    }
  }

  // ---------------------------------------------------------------- repeated fields only grow

  /** Every repeated field of `m` is a prefix of the same field of `m2`. */
  ghost predicate DescriptorGrows(m: DescriptorProto, m2: DescriptorProto)
  {
    && m.field <= m2.field && m.extension <= m2.extension && m.nestedType <= m2.nestedType
    && m.enumType <= m2.enumType && m.extensionRange <= m2.extensionRange
    && m.oneofDecl <= m2.oneofDecl && m.reservedRange <= m2.reservedRange
    && m.reservedName <= m2.reservedName
  }

  lemma DescriptorFieldGrows(buf: seq<byte>, pos: nat, tag: nat, m: DescriptorProto)
    requires pos <= |buf|
    ensures DescriptorField(buf, pos, tag, m).Ok? ==> DescriptorGrows(m, DescriptorField(buf, pos, tag, m).value.0)
  {
    match FieldNumber(tag)
    case 1 => case 2 => case 3 => case 4 => case 5 =>
    case 6 => case 7 => case 8 => case 9 => case 10 =>
    case _ =>
  }

  /** Decoding a `DescriptorProto` never reorders or drops an element of a repeated field. */
  lemma {:induction false} DescriptorLoopGrows(buf: seq<byte>, end: nat, pos: nat, m: DescriptorProto)
    requires pos <= |buf|
    ensures DescriptorLoop(buf, end, pos, m).Ok? ==> DescriptorGrows(m, DescriptorLoop(buf, end, pos, m).value.0)
    decreases |buf| - pos
  {
    if pos < end {
      match Uint32(buf, pos)
      case Err(_) =>
      case Ok(tag) =>
        match DescriptorField(buf, tag.1, tag.0, m)
        case Err(_) =>
        case Ok(s) =>
          DescriptorFieldGrows(buf, tag.1, tag.0, m);
          DescriptorLoopGrows(buf, end, s.1, s.0);
    }
  }

  ghost predicate FileGrows(m: FileDescriptorProto, m2: FileDescriptorProto)
  {
    && m.dependency <= m2.dependency && m.publicDependency <= m2.publicDependency
    && m.weakDependency <= m2.weakDependency && m.messageType <= m2.messageType
    && m.enumType <= m2.enumType && m.service <= m2.service && m.extension <= m2.extension
  }

  lemma FileFieldGrows(buf: seq<byte>, pos: nat, tag: nat, m: FileDescriptorProto)
    requires pos <= |buf|
    ensures FileField(buf, pos, tag, m).Ok? ==> FileGrows(m, FileField(buf, pos, tag, m).value.0)
  {
    match FieldNumber(tag)
    case 10 => RepeatedInt32Appends(buf, pos, tag, m.publicDependency);
    case 11 => RepeatedInt32Appends(buf, pos, tag, m.weakDependency);
    case 1 => case 2 => case 3 => case 4 => case 5 => case 6 =>
    case 7 => case 8 => case 9 => case 12 =>
    case _ =>
  }

  /** Decoding a `FileDescriptorProto` never reorders or drops an element of a repeated field. */
  lemma {:induction false} FileLoopGrows(buf: seq<byte>, end: nat, pos: nat, m: FileDescriptorProto)
    requires pos <= |buf|
    ensures FileLoop(buf, end, pos, m).Ok? ==> FileGrows(m, FileLoop(buf, end, pos, m).value.0)
    decreases |buf| - pos
  {
    if pos < end {
      match Uint32(buf, pos)
      case Err(_) =>
      case Ok(tag) =>
        match FileField(buf, tag.1, tag.0, m)
        case Err(_) =>
        case Ok(s) =>
          FileFieldGrows(buf, tag.1, tag.0, m);
          FileLoopGrows(buf, end, s.1, s.0);
    }
  }

  ghost predicate EnumGrows(m: EnumDescriptorProto, m2: EnumDescriptorProto)
  {
    m.value <= m2.value && m.reservedRange <= m2.reservedRange && m.reservedName <= m2.reservedName
  }

  /** Decoding an `EnumDescriptorProto` keeps its values, reserved ranges and reserved names in wire order. */
  lemma {:induction false} EnumLoopGrows(buf: seq<byte>, end: nat, pos: nat, m: EnumDescriptorProto)
    requires pos <= |buf|
    ensures EnumLoop(buf, end, pos, m).Ok? ==> EnumGrows(m, EnumLoop(buf, end, pos, m).value.0)
    decreases |buf| - pos
  {
    if pos < end {
      match Uint32(buf, pos)
      case Err(_) =>
      case Ok(tag) =>
        match EnumField(buf, tag.1, tag.0, m)
        case Err(_) =>
        case Ok(s) =>
          EnumLoopGrows(buf, end, s.1, s.0);
    }
  }

  /** Decoding a `ServiceDescriptorProto` keeps its methods in wire order. */
  lemma {:induction false} ServiceLoopGrows(buf: seq<byte>, end: nat, pos: nat, m: ServiceDescriptorProto)
    requires pos <= |buf|
    ensures ServiceLoop(buf, end, pos, m).Ok? ==> m.methods <= ServiceLoop(buf, end, pos, m).value.0.methods
    decreases |buf| - pos
  {
    if pos < end {
      match Uint32(buf, pos)
      case Err(_) =>
      case Ok(tag) =>
        match ServiceField(buf, tag.1, tag.0, m)
        case Err(_) =>
        case Ok(s) =>
          ServiceLoopGrows(buf, end, s.1, s.0);
    }
  }

  /** Decoding a `FileDescriptorSet` keeps its files in wire order. */
  lemma {:induction false} FileSetLoopGrows(buf: seq<byte>, end: nat, pos: nat, m: FileDescriptorSet)
    requires pos <= |buf|
    ensures FileSetLoop(buf, end, pos, m).Ok? ==> m.file <= FileSetLoop(buf, end, pos, m).value.0.file
    decreases |buf| - pos
  {
    if pos < end {
      match Uint32(buf, pos)
      case Err(_) =>
      case Ok(tag) =>
        match FileSetField(buf, tag.1, tag.0, m)
        case Err(_) =>
        case Ok(s) =>
          FileSetLoopGrows(buf, end, s.1, s.0);
    }
  }

  // ---------------------------------------------------------------- round trips

  /** Four encodings written one after another at `pos`, each found at its own offset. */
  lemma Split4(buf: seq<byte>, pos: nat, e1: seq<byte>, e2: seq<byte>, e3: seq<byte>, e4: seq<byte>)
    requires pos + |e1 + e2 + e3 + e4| <= |buf| && buf[pos..pos + |e1 + e2 + e3 + e4|] == e1 + e2 + e3 + e4
    ensures buf[pos..pos + |e1|] == e1
    ensures buf[pos + |e1|..pos + |e1| + |e2|] == e2
    ensures buf[pos + |e1| + |e2|..pos + |e1| + |e2| + |e3|] == e3
    ensures buf[pos + |e1| + |e2| + |e3|..pos + |e1| + |e2| + |e3| + |e4|] == e4
  {
    SplitAt(buf, pos, e1 + e2 + e3, e4);
    SplitAt(buf, pos, e1 + e2, e3);
    SplitAt(buf, pos, e1, e2);
  }

  /** Fields 1 and 2 of a `ReservedRange`, read in turn up to `end`, give the range. */
  lemma ReservedRangeReads(buf: seq<byte>, pos: nat, p1: nat, start: int, p2: nat, p3: nat, end: int, p4: nat)
    requires pos < p2 < p4 <= |buf|
    requires Uint32(buf, pos) == Ok((1 * 8 + 0, p1)) && Int32(buf, p1) == Ok((start, p2))
    requires Uint32(buf, p2) == Ok((2 * 8 + 0, p3)) && Int32(buf, p3) == Ok((end, p4))
    ensures ReservedRangeFrom(buf, pos, p4) == Ok((ReservedRange(start, end), p4))
  {
    var v1 := EmptyReservedRange.(start := start);
    assert ReservedRangeField(buf, p1, 1 * 8 + 0, EmptyReservedRange) == Ok((v1, p2));
    assert ReservedRangeLoop(buf, p4, p2, v1) == Ok((ReservedRange(start, end), p4));
  }

  /** A `ReservedRange` written as its two int32 fields decodes back to itself. */
  lemma ReservedRangeRoundTrip(buf: seq<byte>, pos: nat, start: int, end: int)
    requires -0x8000_0000 <= start < 0x8000_0000 && -0x8000_0000 <= end < 0x8000_0000
    requires var e := EncodeTag(1, 0) + EncodeInt32(start) + EncodeTag(2, 0) + EncodeInt32(end);
      pos + |e| <= |buf| && buf[pos..pos + |e|] == e
    ensures var e := EncodeTag(1, 0) + EncodeInt32(start) + EncodeTag(2, 0) + EncodeInt32(end);
      ReservedRangeFrom(buf, pos, pos + |e|) == Ok((ReservedRange(start, end), pos + |e|))
  {
    var e1, e2, e3, e4 := EncodeTag(1, 0), EncodeInt32(start), EncodeTag(2, 0), EncodeInt32(end);
    Split4(buf, pos, e1, e2, e3, e4);
    var p1 := pos + |e1|;
    var p2 := p1 + |e2|;
    var p3 := p2 + |e3|;
    TagRoundTrip(buf, pos, 1, 0);
    Int32RoundTrip(buf, p1, start);
    TagRoundTrip(buf, p2, 2, 0);
    Int32RoundTrip(buf, p3, end);
    ReservedRangeReads(buf, pos, p1, start, p2, p3, end, p3 + |e4|);
  }

  /** Fields 1 and 2 of an `EnumValueDescriptorProto`, read in turn up to `end`. */
  lemma EnumValueReads(buf: seq<byte>, pos: nat, p1: nat, name: string, p2: nat, p3: nat, number: int, p4: nat)
    requires pos < p2 < p4 <= |buf|
    requires Uint32(buf, pos) == Ok((1 * 8 + 2, p1)) && Str(buf, p1) == Ok((name, p2))
    requires Uint32(buf, p2) == Ok((2 * 8 + 0, p3)) && Int32(buf, p3) == Ok((number, p4))
    ensures EnumValueFrom(buf, pos, p4) == Ok((EnumValueDescriptorProto(name, number, None), p4))
  {
    var v1 := EmptyEnumValue.(name := name);
    assert EnumValueField(buf, p1, 1 * 8 + 2, EmptyEnumValue) == Ok((v1, p2));
    assert EnumValueLoop(buf, p4, p2, v1) == Ok((EnumValueDescriptorProto(name, number, None), p4));
  }

  /** An enum value written as its name and number decodes back to them, with no options. */
  lemma EnumValueRoundTrip(buf: seq<byte>, pos: nat, name: seq<byte>, number: int)
    requires |name| < Two32 && -0x8000_0000 <= number < 0x8000_0000
    requires var e := EncodeTag(1, 2) + EncodeBytes(name) + EncodeTag(2, 0) + EncodeInt32(number);
      pos + |e| <= |buf| && buf[pos..pos + |e|] == e
    ensures var e := EncodeTag(1, 2) + EncodeBytes(name) + EncodeTag(2, 0) + EncodeInt32(number);
      EnumValueFrom(buf, pos, pos + |e|) == Ok((EnumValueDescriptorProto(Latin(name), number, None), pos + |e|))
  {
    var e1, e2, e3, e4 := EncodeTag(1, 2), EncodeBytes(name), EncodeTag(2, 0), EncodeInt32(number);
    var p1 := pos + |e1|;
    var p2 := p1 + |e2|;
    var p3 := p2 + |e3|;
    var p4 := p3 + |e4|;
    Split4(buf, pos, e1, e2, e3, e4);
    TagThenString(buf, pos, 1, name);
    TagThenInt32(buf, p2, 2, number);
    EnumValueReads(buf, pos, p1, Latin(name), p2, p3, number, p4);
  }

  /** A length-delimited tag and the string after it, read back from their encodings. */
  lemma TagThenString(buf: seq<byte>, pos: nat, number: nat, bs: seq<byte>)
    requires 0 < number < 0x1000_0000 && |bs| < Two32
    requires var e1, e2 := EncodeTag(number, 2), EncodeBytes(bs);
      && pos + |e1| + |e2| <= |buf|
      && buf[pos..pos + |e1|] == e1
      && buf[pos + |e1|..pos + |e1| + |e2|] == e2
    ensures var e1, e2 := EncodeTag(number, 2), EncodeBytes(bs);
      && Uint32(buf, pos) == Ok((number * 8 + 2, pos + |e1|))
      && Str(buf, pos + |e1|) == Ok((Latin(bs), pos + |e1| + |e2|))
  {
    TagRoundTrip(buf, pos, number, 2);
    StrRoundTrip(buf, pos + |EncodeTag(number, 2)|, bs);
  }

  /** A varint tag and the `int32` after it, read back from their encodings. */
  lemma TagThenInt32(buf: seq<byte>, pos: nat, number: nat, v: int)
    requires 0 < number < 0x1000_0000 && -0x8000_0000 <= v < 0x8000_0000
    requires var e1, e2 := EncodeTag(number, 0), EncodeInt32(v);
      && pos + |e1| + |e2| <= |buf|
      && buf[pos..pos + |e1|] == e1
      && buf[pos + |e1|..pos + |e1| + |e2|] == e2
    ensures var e1, e2 := EncodeTag(number, 0), EncodeInt32(v);
      && Uint32(buf, pos) == Ok((number * 8 + 0, pos + |e1|))
      && Int32(buf, pos + |e1|) == Ok((v, pos + |e1| + |e2|))
  {
    TagRoundTrip(buf, pos, number, 0);
    Int32RoundTrip(buf, pos + |EncodeTag(number, 0)|, v);
  }

  /** A varint tag and the `bool` after it, read back from their encodings. */
  lemma TagThenBool(buf: seq<byte>, pos: nat, number: nat, b: bool)
    requires 0 < number < 0x1000_0000
    requires var e1, e2 := EncodeTag(number, 0), EncodeBool(b);
      && pos + |e1| + |e2| <= |buf|
      && buf[pos..pos + |e1|] == e1
      && buf[pos + |e1|..pos + |e1| + |e2|] == e2
    ensures var e1, e2 := EncodeTag(number, 0), EncodeBool(b);
      && Uint32(buf, pos) == Ok((number * 8 + 0, pos + |e1|))
      && Bool(buf, pos + |e1|) == Ok((b, pos + |e1| + |e2|))
  {
    TagRoundTrip(buf, pos, number, 0);
    BoolRoundTrip(buf, pos + |EncodeTag(number, 0)|, b);
  }

  /** Both required fields of a `NamePart`, read in turn up to `end`. */
  lemma NamePartReads(buf: seq<byte>, pos: nat, p1: nat, name: string, p2: nat, p3: nat, isExtension: bool, p4: nat)
    requires pos < p2 < p4 <= |buf|
    requires Uint32(buf, pos) == Ok((1 * 8 + 2, p1)) && Str(buf, p1) == Ok((name, p2))
    requires Uint32(buf, p2) == Ok((2 * 8 + 0, p3)) && Bool(buf, p3) == Ok((isExtension, p4))
    ensures NamePartFrom(buf, pos, p4) == Ok((NamePart(name, isExtension), p4))
  {
    var v1 := EmptyNamePart.(namePart := Some(name));
    var v := PartialNamePart(Some(name), Some(isExtension));
    assert NamePartField(buf, p1, 1 * 8 + 2, EmptyNamePart) == Ok((v1, p2));
    assert NamePartLoop(buf, p4, p2, v1) == Ok((v, p4));
  }

  /** A `NamePart` with both required fields on the wire decodes back to them. */
  lemma NamePartRoundTrip(buf: seq<byte>, pos: nat, name: seq<byte>, isExtension: bool)
    requires |name| < Two32
    requires var e := EncodeTag(1, 2) + EncodeBytes(name) + EncodeTag(2, 0) + EncodeBool(isExtension);
      pos + |e| <= |buf| && buf[pos..pos + |e|] == e
    ensures var e := EncodeTag(1, 2) + EncodeBytes(name) + EncodeTag(2, 0) + EncodeBool(isExtension);
      NamePartFrom(buf, pos, pos + |e|) == Ok((NamePart(Latin(name), isExtension), pos + |e|))
  {
    var e1, e2, e3, e4 := EncodeTag(1, 2), EncodeBytes(name), EncodeTag(2, 0), EncodeBool(isExtension);
    var p1 := pos + |e1|;
    var p2 := p1 + |e2|;
    var p3 := p2 + |e3|;
    var p4 := p3 + |e4|;
    Split4(buf, pos, e1, e2, e3, e4);
    TagThenString(buf, pos, 1, name);
    TagThenBool(buf, p2, 2, isExtension);
    NamePartReads(buf, pos, p1, Latin(name), p2, p3, isExtension, p4);
  }

  // ---------------------------------------------------------------- required fields

  /** A `NamePart` whose `is_extension` never arrives is rejected. */
  lemma NamePartMissingIsExtension(buf: seq<byte>, pos: nat, name: seq<byte>)
    requires |name| < Two32
    requires var e := EncodeTag(1, 2) + EncodeBytes(name);
      pos + |e| <= |buf| && buf[pos..pos + |e|] == e
    ensures var e := EncodeTag(1, 2) + EncodeBytes(name);
      NamePartFrom(buf, pos, pos + |e|) == Err(MissingRequiredField("isExtension"))
  {
    var e1, e2 := EncodeTag(1, 2), EncodeBytes(name);
    SplitAt(buf, pos, e1, e2);
    TagRoundTrip(buf, pos, 1, 2);
    StrRoundTrip(buf, pos + |e1|, name);
    var p2 := pos + |e1| + |e2|;
    var v := EmptyNamePart.(namePart := Some(Latin(name)));
    assert NamePartField(buf, pos + |e1|, 1 * 8 + 2, EmptyNamePart) == Ok((v, p2));
    assert NamePartLoop(buf, p2, pos, EmptyNamePart) == Ok((v, p2));
  }

  /** A `NamePart` whose `name_part` never arrives is rejected, whatever else it carries. */
  lemma NamePartMissingName(buf: seq<byte>, pos: nat, isExtension: bool)
    requires var e := EncodeTag(2, 0) + EncodeBool(isExtension);
      pos + |e| <= |buf| && buf[pos..pos + |e|] == e
    ensures var e := EncodeTag(2, 0) + EncodeBool(isExtension);
      NamePartFrom(buf, pos, pos + |e|) == Err(MissingRequiredField("namePart"))
  {
    var e1, e2 := EncodeTag(2, 0), EncodeBool(isExtension);
    SplitAt(buf, pos, e1, e2);
    TagRoundTrip(buf, pos, 2, 0);
    BoolRoundTrip(buf, pos + |e1|, isExtension);
    var p2 := pos + |e1| + |e2|;
    var v := EmptyNamePart.(isExtension := Some(isExtension));
    assert NamePartField(buf, pos + |e1|, 2 * 8 + 0, EmptyNamePart) == Ok((v, p2));
    assert NamePartLoop(buf, p2, pos, EmptyNamePart) == Ok((v, p2));
  }

  /** With nothing on the wire, `name_part` is the first field reported missing. */
  lemma NamePartEmpty(buf: seq<byte>, pos: nat, end: nat)
    requires pos <= |buf| && end <= pos
    ensures NamePartFrom(buf, pos, end) == Err(MissingRequiredField("namePart"))
  {
  }

  // ---------------------------------------------------------------- last one wins

  /**
   * Of two `name` fields the second is kept: a scalar is replaced, not
   * accumulated, and the first value leaves no trace.
   */
  lemma EnumValueNameLastWins(buf: seq<byte>, end: nat, pos: nat, m: EnumValueDescriptorProto,
                              p1: nat, first: string, p2: nat, p3: nat, second: string, p4: nat)
    requires pos < end && pos <= |buf|
    requires Uint32(buf, pos) == Ok((1 * 8 + 2, p1)) && Str(buf, p1) == Ok((first, p2))
    requires p2 < end
    requires Uint32(buf, p2) == Ok((1 * 8 + 2, p3)) && Str(buf, p3) == Ok((second, p4))
    ensures p4 <= |buf|
    ensures EnumValueLoop(buf, end, pos, m) == EnumValueLoop(buf, end, p4, m.(name := second))
  {
    assert EnumValueField(buf, p1, 1 * 8 + 2, m) == Ok((m.(name := first), p2));
    assert EnumValueField(buf, p3, 1 * 8 + 2, m.(name := first)) == Ok((m.(name := second), p4));
  }

  /**
   * Of two `options` fields the second replaces the first outright, with no
   * merging: decoding goes on as if only the second had been on the wire.
   */
  lemma DescriptorOptionsLastWins(buf: seq<byte>, end: nat, pos: nat, m: DescriptorProto,
                                  p1: nat, len1: nat, a1: nat, first: MessageOptions, p2: nat,
                                  p3: nat, len2: nat, a2: nat, second: MessageOptions, p4: nat)
    requires pos < end && pos <= |buf|
    requires Uint32(buf, pos) == Ok((7 * 8 + 2, p1)) && Uint32(buf, p1) == Ok((len1, a1))
    requires MessageOptionsFrom(buf, a1, a1 + len1) == Ok((first, p2))
    requires p2 < end
    requires Uint32(buf, p2) == Ok((7 * 8 + 2, p3)) && Uint32(buf, p3) == Ok((len2, a2))
    requires MessageOptionsFrom(buf, a2, a2 + len2) == Ok((second, p4))
    ensures p4 <= |buf|
    ensures DescriptorLoop(buf, end, pos, m) == DescriptorLoop(buf, end, p4, m.(options := Some(second)))
  {
    DescriptorOptionsStep(buf, end, pos, m, p1, len1, a1, first, p2);
    DescriptorOptionsStep(buf, end, p2, m.(options := Some(first)), p3, len2, a2, second, p4);
    assert m.(options := Some(first)).(options := Some(second)) == m.(options := Some(second));
  }

  /** One `options` record replaces whatever options the message held so far. */
  lemma DescriptorOptionsStep(buf: seq<byte>, end: nat, pos: nat, m: DescriptorProto,
                              p1: nat, len: nat, a: nat, opts: MessageOptions, p2: nat)
    requires pos < end && pos <= |buf|
    requires Uint32(buf, pos) == Ok((7 * 8 + 2, p1)) && Uint32(buf, p1) == Ok((len, a))
    requires MessageOptionsFrom(buf, a, a + len) == Ok((opts, p2))
    ensures p2 <= |buf|
    ensures DescriptorLoop(buf, end, pos, m) == DescriptorLoop(buf, end, p2, m.(options := Some(opts)))
  {
    assert FieldNumber(7 * 8 + 2) == 7;
    assert DescriptorField(buf, p1, 7 * 8 + 2, m) == Ok((m.(options := Some(opts)), p2));
  }

  // ---------------------------------------------------------------- unknown fields

  /** A field whose number `DescriptorProto` does not know is skipped by its wire type; the message is unchanged. */
  lemma DescriptorSkipsUnknown(buf: seq<byte>, end: nat, pos: nat, m: DescriptorProto, tag: nat, p1: nat, p2: nat)
    requires pos < end && pos <= |buf|
    requires Uint32(buf, pos) == Ok((tag, p1)) && !(1 <= FieldNumber(tag) <= 10)
    requires Skip(buf, p1, WireType(tag)) == Ok(p2)
    ensures p2 <= |buf|
    ensures DescriptorLoop(buf, end, pos, m) == DescriptorLoop(buf, end, p2, m)
  {
  }

  /** An unknown varint field on a `DescriptorProto` is stepped over whole, whatever its number. */
  lemma DescriptorSkipsUnknownVarint(buf: seq<byte>, end: nat, pos: nat, m: DescriptorProto, number: nat, v: nat)
    requires !(1 <= number <= 10) && number * 8 < Two32
    requires var e := EncodeTag(number, 0) + EncodeVarint(v);
      pos < end && pos + |e| <= |buf| && buf[pos..pos + |e|] == e
    ensures DescriptorLoop(buf, end, pos, m) == DescriptorLoop(buf, end, pos + |EncodeTag(number, 0) + EncodeVarint(v)|, m)
  {
    var e1, e2 := EncodeTag(number, 0), EncodeVarint(v);
    SplitAt(buf, pos, e1, e2);
    TagRoundTrip(buf, pos, number, 0);
    SkipVarint(buf, pos + |e1|, v);
    DescriptorSkipsUnknown(buf, end, pos, m, number * 8, pos + |e1|, pos + |e1| + |e2|);
  }

  /** A wire type no skip rule covers makes the whole message fail, even in a field nobody reads. */
  lemma FieldRejectsGroup(buf: seq<byte>, end: nat, pos: nat, m: FieldDescriptorProto, tag: nat, p1: nat)
    requires pos < end && pos <= |buf|
    requires Uint32(buf, pos) == Ok((tag, p1)) && !(1 <= FieldNumber(tag) <= 10) && WireType(tag) in {3, 4}
    ensures FieldLoop(buf, end, pos, m) == Err(UnsupportedWireType(WireType(tag)))
  {
  }

  // ---------------------------------------------------------------- sub-messages and defaults

  /**
   * A nested field is decoded from just after its length, over that many
   * bytes, and appended to `field`.
   */
  lemma DescriptorAppendsField(buf: seq<byte>, end: nat, pos: nat, m: DescriptorProto,
                               p1: nat, len: nat, a: nat, f: FieldDescriptorProto, p2: nat)
    requires pos < end && pos <= |buf|
    requires Uint32(buf, pos) == Ok((2 * 8 + 2, p1)) && Uint32(buf, p1) == Ok((len, a))
    requires FieldFrom(buf, a, a + len) == Ok((f, p2))
    ensures p2 <= |buf|
    ensures DescriptorLoop(buf, end, pos, m) == DescriptorLoop(buf, end, p2, m.(field := m.field + [f]))
  {
    assert DescriptorField(buf, p1, 2 * 8 + 2, m) == Ok((m.(field := m.field + [f]), p2));
  }

  /**
   * A field that carries only its name keeps every other default: label and
   * type 1, `oneof_index` 0 and not marked as set, no options.
   */
  lemma FieldNameOnlyKeepsDefaults(buf: seq<byte>, pos: nat, name: seq<byte>)
    requires |name| < Two32
    requires var e := EncodeTag(1, 2) + EncodeBytes(name);
      pos + |e| <= |buf| && buf[pos..pos + |e|] == e
    ensures var e := EncodeTag(1, 2) + EncodeBytes(name);
      && FieldFrom(buf, pos, pos + |e|).Ok?
      && FieldFrom(buf, pos, pos + |e|).value == (EmptyField.(name := Latin(name)), pos + |e|)
      && FieldFrom(buf, pos, pos + |e|).value.0.labelCode == 1
      && FieldFrom(buf, pos, pos + |e|).value.0.typeCode == 1
      && FieldFrom(buf, pos, pos + |e|).value.0.oneofIndex == 0
      && !FieldFrom(buf, pos, pos + |e|).value.0.oneofIndexSet
  {
    var e1, e2 := EncodeTag(1, 2), EncodeBytes(name);
    SplitAt(buf, pos, e1, e2);
    TagRoundTrip(buf, pos, 1, 2);
    StrRoundTrip(buf, pos + |e1|, name);
    var v := EmptyField.(name := Latin(name));
    assert FieldLoop(buf, pos + |e1| + |e2|, pos + |e1| + |e2|, v) == Ok((v, pos + |e1| + |e2|));
  }

  // ---------------------------------------------------------------- the loop bound

  /**
   * The loop only checks `pos < end`: a value that straddles `end` is read
   * whole and decoding reports a position past `end` without complaint.
   */
  lemma ReservedRangeMayOverrun()
    ensures ReservedRangeFrom([8, 5], 0, 1) == Ok((ReservedRange(5, 0), 2))
  {
    var buf: seq<byte> := [8, 5];
    assert Uint32(buf, 0) == Ok((8, 1));
    assert Int32(buf, 1) == Ok((5, 2));
  }
}
