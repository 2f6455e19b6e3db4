/**
 * Properties of the smaller decode routines: a oneof written as its name
 * decodes back to it, a method's fields read in turn give the method with
 * exactly those values, a `MessageOptions` flag
 * takes the last value on the wire and its default `false` otherwise, and
 * unknown fields are stepped over by `MessageOptions` and by the messages
 * the shared template decodes, which keep nothing the schema does not list.
 * An `UninterpretedOption` keeps its name parts in wire order.
 */
module FieldProps {
  import opened Results
  import opened Wire
  import opened Encode
  import opened Descriptors
  import opened DecodeSpec
  import DecodeProps

  // ---------------------------------------------------------------- OneofDescriptorProto

  /** A `name` field alone, read up to its end, gives the oneof of that name with no options. */
  lemma OneofReads(buf: seq<byte>, pos: nat, p1: nat, name: string, p2: nat)
    requires pos < p2 <= |buf|
    requires Uint32(buf, pos) == Ok((1 * 8 + 2, p1)) && Str(buf, p1) == Ok((name, p2))
    ensures OneofFrom(buf, pos, p2) == Ok((OneofDescriptorProto(name, None), p2))
  {
    var m := EmptyOneof.(name := name);
    assert OneofField(buf, p1, 1 * 8 + 2, EmptyOneof) == Ok((m, p2));
    assert OneofLoop(buf, p2, p2, m) == Ok((m, p2));
    assert OneofLoop(buf, p2, pos, EmptyOneof) == OneofLoop(buf, p2, p2, m);
  }

  /** A oneof written as its name decodes back to that name. */
  lemma OneofRoundTrip(buf: seq<byte>, pos: nat, name: seq<byte>)
    requires |name| < Two32
    requires var e := EncodeTag(1, 2) + EncodeBytes(name);
      pos + |e| <= |buf| && buf[pos..pos + |e|] == e
    ensures var e := EncodeTag(1, 2) + EncodeBytes(name);
      OneofFrom(buf, pos, pos + |e|) == Ok((OneofDescriptorProto(Latin(name), None), pos + |e|))
  {
    var e1, e2 := EncodeTag(1, 2), EncodeBytes(name);
    SplitAt(buf, pos, e1, e2);
    DecodeProps.TagThenString(buf, pos, 1, name);
    OneofReads(buf, pos, pos + |e1|, Latin(name), pos + |e1| + |e2|);
  }

  // ---------------------------------------------------------------- MethodDescriptorProto

  /** The string field `number` (1 name, 2 input type, 3 output type) of a method set to `s`. */
  function WithString(m: MethodDescriptorProto, number: nat, s: string): MethodDescriptorProto
    requires number in {1, 2, 3}
  {
    if number == 1 then m.(name := s) else if number == 2 then m.(inputType := s) else m.(outputType := s)
  }

  /** The bool field `number` (5 client streaming, 6 server streaming) of a method set to `b`. */
  function WithFlag(m: MethodDescriptorProto, number: nat, b: bool): MethodDescriptorProto
    requires number in {5, 6}
  {
    if number == 5 then m.(clientStreaming := b) else m.(serverStreaming := b)
  }

  /** A string field of a method replaces the value held so far, and decoding goes on after it. */
  lemma MethodStringStep(buf: seq<byte>, end: nat, pos: nat, m: MethodDescriptorProto, number: nat, p1: nat, s: string, p2: nat)
    requires number in {1, 2, 3} && pos < end && pos <= |buf|
    requires Uint32(buf, pos) == Ok((number * 8 + 2, p1)) && Str(buf, p1) == Ok((s, p2))
    ensures p2 <= |buf|
    ensures MethodLoop(buf, end, pos, m) == MethodLoop(buf, end, p2, WithString(m, number, s))
  {
    assert FieldNumber(number * 8 + 2) == number;
    assert MethodField(buf, p1, number * 8 + 2, m) == Ok((WithString(m, number, s), p2));
  }

  /** A streaming flag of a method replaces the value held so far, and decoding goes on after it. */
  lemma MethodFlagStep(buf: seq<byte>, end: nat, pos: nat, m: MethodDescriptorProto, number: nat, p1: nat, b: bool, p2: nat)
    requires number in {5, 6} && pos < end && pos <= |buf|
    requires Uint32(buf, pos) == Ok((number * 8 + 0, p1)) && Bool(buf, p1) == Ok((b, p2))
    ensures p2 <= |buf|
    ensures MethodLoop(buf, end, pos, m) == MethodLoop(buf, end, p2, WithFlag(m, number, b))
  {
    assert FieldNumber(number * 8 + 0) == number;
    assert MethodField(buf, p1, number * 8 + 0, m) == Ok((WithFlag(m, number, b), p2));
  }

  /** The name, the input type and the output type, read in turn. */
  lemma MethodNamesRead(buf: seq<byte>, end: nat, pos: nat, m: MethodDescriptorProto,
                        p1: nat, name: string, p2: nat, p3: nat, input: string, p4: nat, p5: nat, output: string, p6: nat)
    requires pos < p2 < p4 < end && pos <= |buf|
    requires Uint32(buf, pos) == Ok((1 * 8 + 2, p1)) && Str(buf, p1) == Ok((name, p2))
    requires Uint32(buf, p2) == Ok((2 * 8 + 2, p3)) && Str(buf, p3) == Ok((input, p4))
    requires Uint32(buf, p4) == Ok((3 * 8 + 2, p5)) && Str(buf, p5) == Ok((output, p6))
    ensures p6 <= |buf|
    ensures MethodLoop(buf, end, pos, m) == MethodLoop(buf, end, p6, m.(name := name, inputType := input, outputType := output))
  {
    var m1 := WithString(m, 1, name);
    var m2 := WithString(m1, 2, input);
    MethodStringStep(buf, end, pos, m, 1, p1, name, p2);
    MethodStringStep(buf, end, p2, m1, 2, p3, input, p4);
    MethodStringStep(buf, end, p4, m2, 3, p5, output, p6);
  }

  /** The two streaming flags, read in turn, end the decode at `end`. */
  lemma MethodFlagsRead(buf: seq<byte>, end: nat, pos: nat, m: MethodDescriptorProto,
                        p1: nat, client: bool, p2: nat, p3: nat, server: bool)
    requires pos < p2 < end <= |buf|
    requires Uint32(buf, pos) == Ok((5 * 8 + 0, p1)) && Bool(buf, p1) == Ok((client, p2))
    requires Uint32(buf, p2) == Ok((6 * 8 + 0, p3)) && Bool(buf, p3) == Ok((server, end))
    ensures MethodLoop(buf, end, pos, m) == Ok((m.(clientStreaming := client, serverStreaming := server), end))
  {
    var m1 := WithFlag(m, 5, client);
    var m2 := WithFlag(m1, 6, server);
    MethodFlagStep(buf, end, pos, m, 5, p1, client, p2);
    MethodFlagStep(buf, end, p2, m1, 6, p3, server, end);
    assert MethodLoop(buf, end, end, m2) == Ok((m2, end));
  }

  /**
   * A method's name, input and output types and streaming flags, read in
   * turn up to `end`, give the method with those values and no options.
   */
  lemma MethodReads(buf: seq<byte>, pos: nat, p1: nat, name: string, p2: nat, p3: nat, input: string, p4: nat,
                    p5: nat, output: string, p6: nat, p7: nat, client: bool, p8: nat, p9: nat, server: bool, end: nat)
    requires pos < p2 < p4 < p6 < p8 < end <= |buf|
    requires Uint32(buf, pos) == Ok((1 * 8 + 2, p1)) && Str(buf, p1) == Ok((name, p2))
    requires Uint32(buf, p2) == Ok((2 * 8 + 2, p3)) && Str(buf, p3) == Ok((input, p4))
    requires Uint32(buf, p4) == Ok((3 * 8 + 2, p5)) && Str(buf, p5) == Ok((output, p6))
    requires Uint32(buf, p6) == Ok((5 * 8 + 0, p7)) && Bool(buf, p7) == Ok((client, p8))
    requires Uint32(buf, p8) == Ok((6 * 8 + 0, p9)) && Bool(buf, p9) == Ok((server, end))
    ensures MethodFrom(buf, pos, end) == Ok((MethodDescriptorProto(name, input, output, None, client, server), end))
  {
    var named := EmptyMethod.(name := name, inputType := input, outputType := output);
    MethodNamesRead(buf, end, pos, EmptyMethod, p1, name, p2, p3, input, p4, p5, output, p6);
    MethodFlagsRead(buf, end, p6, named, p7, client, p8, p9, server);
  }

  // ---------------------------------------------------------------- MessageOptions

  /** A `map_entry` field replaces the value held so far, and decoding goes on after it. */
  lemma MapEntryStep(buf: seq<byte>, end: nat, pos: nat, m: MessageOptions, p1: nat, b: bool, p2: nat)
    requires pos < end && pos <= |buf|
    requires Uint32(buf, pos) == Ok((7 * 8 + 0, p1)) && Bool(buf, p1) == Ok((b, p2))
    ensures p2 <= |buf|
    ensures MessageOptionsLoop(buf, end, pos, m) == MessageOptionsLoop(buf, end, p2, m.(mapEntry := Some(b)))
  {
    assert FieldNumber(7 * 8 + 0) == 7;
    assert MessageOptionsField(buf, p1, 7 * 8 + 0, m) == Ok((m.(mapEntry := Some(b)), p2));
  }

  /**
   * Of two `map_entry` fields the second is kept, and when the message ends
   * after them the flag the builder reads is the second value.
   */
  lemma MapEntryLastWins(buf: seq<byte>, end: nat, pos: nat, m: MessageOptions,
                         p1: nat, first: bool, p2: nat, p3: nat, second: bool, p4: nat)
    requires pos < end && pos <= |buf|
    requires Uint32(buf, pos) == Ok((7 * 8 + 0, p1)) && Bool(buf, p1) == Ok((first, p2))
    requires p2 < end
    requires Uint32(buf, p2) == Ok((7 * 8 + 0, p3)) && Bool(buf, p3) == Ok((second, p4))
    ensures p4 <= |buf|
    ensures MessageOptionsLoop(buf, end, pos, m) == MessageOptionsLoop(buf, end, p4, m.(mapEntry := Some(second)))
    ensures p4 >= end ==> MessageOptionsLoop(buf, end, pos, m) == Ok((m.(mapEntry := Some(second)), p4))
    ensures p4 >= end ==> Flag(MessageOptionsLoop(buf, end, pos, m).value.0.mapEntry) == second
  {
    MapEntryStep(buf, end, pos, m, p1, first, p2);
    MapEntryStep(buf, end, p2, m.(mapEntry := Some(first)), p3, second, p4);
    assert m.(mapEntry := Some(first)).(mapEntry := Some(second)) == m.(mapEntry := Some(second));
  }

  /** Options that never carried `map_entry` read it as the prototype's `false`. */
  lemma MapEntryDefault(buf: seq<byte>, pos: nat, end: nat)
    requires pos <= |buf| && pos >= end
    ensures MessageOptionsFrom(buf, pos, end) == Ok((EmptyMessageOptions, pos))
    ensures !Flag(MessageOptionsFrom(buf, pos, end).value.0.mapEntry)
  {
  }

  /** A field whose number `MessageOptions` does not know is skipped by its wire type; the options are unchanged. */
  lemma MessageOptionsSkipsUnknown(buf: seq<byte>, end: nat, pos: nat, m: MessageOptions, tag: nat, p1: nat, p2: nat)
    requires pos < end && pos <= |buf|
    requires Uint32(buf, pos) == Ok((tag, p1)) && FieldNumber(tag) !in {1, 2, 3, 7, 999}
    requires Skip(buf, p1, WireType(tag)) == Ok(p2)
    ensures p2 <= |buf|
    ensures MessageOptionsLoop(buf, end, pos, m) == MessageOptionsLoop(buf, end, p2, m)
  {
    assert MessageOptionsField(buf, p1, tag, m) == Ok((m, p2));
  }

  /** Decoding `MessageOptions` keeps its uninterpreted options in wire order. */
  lemma {:induction false} MessageOptionsLoopGrows(buf: seq<byte>, end: nat, pos: nat, m: MessageOptions)
    requires pos <= |buf|
    ensures MessageOptionsLoop(buf, end, pos, m).Ok? ==>
      m.uninterpretedOption <= MessageOptionsLoop(buf, end, pos, m).value.0.uninterpretedOption
    decreases |buf| - pos
  {
    if pos < end {
      match Uint32(buf, pos)
      case Err(_) =>
      case Ok(tag) =>
        match MessageOptionsField(buf, tag.1, tag.0, m)
        case Err(_) =>
        case Ok(s) =>
          MessageOptionsLoopGrows(buf, end, s.1, s.0);
    }
  }

  // ---------------------------------------------------------------- UninterpretedOption

  /** Decoding an `UninterpretedOption` keeps the name parts read so far, in wire order. */
  lemma {:induction false} UninterpretedLoopGrows(buf: seq<byte>, end: nat, pos: nat, m: UninterpretedOption)
    requires pos <= |buf|
    ensures UninterpretedLoop(buf, end, pos, m).Ok? ==> m.name <= UninterpretedLoop(buf, end, pos, m).value.0.name
    decreases |buf| - pos
  {
    if pos < end {
      match Uint32(buf, pos)
      case Err(_) =>
      case Ok(tag) =>
        match UninterpretedField(buf, tag.1, tag.0, m)
        case Err(_) =>
        case Ok(s) =>
          UninterpretedLoopGrows(buf, end, s.1, s.0);
    }
  }

  /** A `name` part is appended after the parts already read, and decoding goes on after it. */
  lemma UninterpretedNameStep(buf: seq<byte>, end: nat, pos: nat, m: UninterpretedOption,
                              p1: nat, len: nat, a: nat, part: NamePart, p2: nat)
    requires pos < end && pos <= |buf|
    requires Uint32(buf, pos) == Ok((2 * 8 + 2, p1)) && Uint32(buf, p1) == Ok((len, a))
    requires NamePartFrom(buf, a, a + len) == Ok((part, p2))
    ensures p2 <= |buf|
    ensures UninterpretedLoop(buf, end, pos, m) == UninterpretedLoop(buf, end, p2, m.(name := m.name + [part]))
  {
    assert FieldNumber(2 * 8 + 2) == 2;
    assert UninterpretedField(buf, p1, 2 * 8 + 2, m) == Ok((m.(name := m.name + [part]), p2));
  }

  // ---------------------------------------------------------------- the shared template

  /** A field number the schema does not list is skipped by its wire type; the message is unchanged. */
  lemma OpaqueSkipsUnknown(schema: Schema, buf: seq<byte>, end: nat, pos: nat, m: Opaque, tag: nat, p1: nat, p2: nat)
    requires pos < end && pos <= |buf|
    requires Uint32(buf, pos) == Ok((tag, p1)) && KindOf(schema.fields, FieldNumber(tag)).None?
    requires Skip(buf, p1, WireType(tag)) == Ok(p2)
    ensures p2 <= |buf|
    ensures OpaqueLoop(schema, buf, end, pos, m) == OpaqueLoop(schema, buf, end, p2, m)
  {
    assert OpaqueField(schema, buf, p1, tag, m) == Ok((m, p2));
  }

  /** One case of the template keeps what the message held and adds at most a number the schema lists. */
  lemma OpaqueFieldKeys(schema: Schema, buf: seq<byte>, pos: nat, tag: nat, m: Opaque)
    requires pos <= |buf|
    ensures OpaqueField(schema, buf, pos, tag, m).Ok? ==>
      forall n :: n in OpaqueField(schema, buf, pos, tag, m).value.0.props ==> n in m.props || KindOf(schema.fields, n).Some?
  {
  }

  /** A message decoded by the template holds only properties it started with or that its schema lists. */
  lemma {:induction false} OpaqueLoopKeys(schema: Schema, buf: seq<byte>, end: nat, pos: nat, m: Opaque)
    requires pos <= |buf|
    ensures OpaqueLoop(schema, buf, end, pos, m).Ok? ==>
      forall n :: n in OpaqueLoop(schema, buf, end, pos, m).value.0.props ==> n in m.props || KindOf(schema.fields, n).Some?
    decreases |buf| - pos
  {
    if pos < end {
      match Uint32(buf, pos)
      case Err(_) =>
      case Ok(tag) =>
        match OpaqueField(schema, buf, tag.1, tag.0, m)
        case Err(_) =>
        case Ok(s) =>
          OpaqueFieldKeys(schema, buf, tag.1, tag.0, m);
          OpaqueLoopKeys(schema, buf, end, s.1, s.0);
    }
  }

  /** A message decoded by the template from scratch has a property only for numbers its schema lists. */
  lemma OpaqueKeepsOnlyListed(schema: Schema, buf: seq<byte>, pos: nat, end: nat)
    requires pos <= |buf|
    ensures OpaqueFrom(schema, buf, pos, end).Ok? ==>
      forall n :: n in OpaqueFrom(schema, buf, pos, end).value.0.props ==> KindOf(schema.fields, n).Some?
  {
    OpaqueLoopKeys(schema, buf, end, pos, EmptyOpaque);
  }
}
