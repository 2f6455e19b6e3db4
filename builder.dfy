/**
 * The schema builder: decoded descriptor records become a reflection tree.
 *
 * `util.camelCase` belongs to protobufjs and is passed in as `camel`. The
 * reflection objects are values here, so an operation that adds children to
 * a namespace returns the namespace with those children appended.
 */
module Builder {
  import opened Results
  import opened Wire
  import opened Descriptors
  import Convert
  import opened Reflection
  import DecodeSpec
  import Decoder
  import Visitors

  // ---------------------------------------------------------------- options

  /** The option names a Type copies from its MessageOptions, in snake_case. */
  const MessageOptionNames := ["message_set_wire_format", "no_standard_descriptor_accessor", "deprecated", "map_entry"]

  function Put(props: map<string, OptionValue>, key: string, v: Option<bool>): map<string, OptionValue>
  {
    if v.Some? then props[key := OBool(v.value)] else props
  }

  /**
   * The own properties of a decoded MessageOptions object under their
   * JavaScript names: the flags that were assigned, and the list of
   * uninterpreted options the constructor always creates.
   */
  function OwnProperties(mo: MessageOptions): map<string, OptionValue>
  {
    var props := map["uninterpretedOption" := OUninterpreted(mo.uninterpretedOption)];
    var props := Put(props, "messageSetWireFormat", mo.messageSetWireFormat);
    var props := Put(props, "noStandardDescriptorAccessor", mo.noStandardDescriptorAccessor);
    var props := Put(props, "deprecated", mo.deprecated);
    Put(props, "mapEntry", mo.mapEntry)
  }

  /** What `getOptions` returns for `obj` and the allowed names. */
  function OptionsOf(obj: Option<map<string, OptionValue>>, names: seq<string>, camel: string -> string): Options
  {
    match obj
    case None => None
    case Some(props) => Some(map o | o in names && camel(o) in props :: props[camel(o)])
  }

  /**
   * `getOptions`: nothing for absent options; otherwise exactly the allowed
   * names whose camelCase form is an own property, each with that property's value.
   */
  method GetOptions(obj: Option<map<string, OptionValue>>, options: seq<string>, camel: string -> string)
    returns (r: Options)
    ensures r.None? <==> obj.None?
    ensures r.Some? ==> forall o :: o in r.value <==> o in options && camel(o) in obj.value
    ensures r.Some? ==> forall o :: o in r.value ==> r.value[o] == obj.value[camel(o)]
    ensures r == OptionsOf(obj, options, camel)
  {
    if obj.None? {
      return None;
    }
    var props := obj.value;
    var m: map<string, OptionValue> := map[];
    for i := 0 to |options|
      invariant m == map o | o in options[..i] && camel(o) in props :: props[camel(o)]
    {
      var camelCased := camel(options[i]);
      if camelCased in props {
        m := m[options[i] := props[camelCased]];
      }
      assert options[..i + 1] == options[..i] + [options[i]];
    }
    assert options[..|options|] == options;
    r := Some(m);
  }

  /** The options object of the Type built from `d`. */
  function TypeOptions(d: DescriptorProto, camel: string -> string): Options
  {
    OptionsOf(if d.options.Some? then Some(OwnProperties(d.options.value)) else None, MessageOptionNames, camel)
  }

  /**
   * With protobufjs's camelCase of `map_entry`, a built Type is a map entry
   * exactly when its descriptor's options decoded `map_entry` as true.
   */
  lemma MapEntryOption(d: DescriptorProto, camel: string -> string)
    requires camel("map_entry") == "mapEntry"
    ensures IsMapEntry(TypeOptions(d, camel)) <==> d.options.Some? && d.options.value.mapEntry == Some(true)
  {
    if d.options.Some? {
      var props := OwnProperties(d.options.value);
      assert "mapEntry" in props <==> d.options.value.mapEntry.Some?;
      assert d.options.value.mapEntry.Some? ==> props["mapEntry"] == OBool(d.options.value.mapEntry.value);
      assert "map_entry" in MessageOptionNames;
    }
  }

  // ----------------------------------------------------------------- fields

  /** The rule `desc.label && convertFieldLabel(desc.label)` yields. */
  function RuleOf(code: int): Rule
  {
    if code == 0 then Zero
    else match Convert.ConvertFieldLabel(code)
      case Some(k) => Keyword(k)
      case None => Undefined
  }

  /** `createField`: nothing when the type converts to nothing or to the empty string. */
  function CreateField(desc: FieldDescriptorProto, camel: string -> string): Option<Node>
  {
    match Convert.ConvertType(desc.typeCode, desc.typeName)
    case None => None
    case Some(t) =>
      if t == "" then None else Some(Field(camel(desc.name), desc.number, t, RuleOf(desc.labelCode), None))
  }

  /** A field is dropped for groups, unknown type codes, and message or enum fields without a type name. */
  lemma CreateFieldOmitted(desc: FieldDescriptorProto, camel: string -> string)
    ensures CreateField(desc, camel).None? <==>
      desc.typeCode == Convert.TypeGroup || !(1 <= desc.typeCode <= 18) ||
      (desc.typeCode in {Convert.TypeMessage, Convert.TypeEnum} && desc.typeName == "")
  {
    if Convert.IsScalarCode(desc.typeCode) {
      assert Convert.ScalarKeyword(desc.typeCode) != "";
    }
  }

  /** What a created field carries: the camelCased name, the number, the converted type and label. */
  lemma CreateFieldKeeps(desc: FieldDescriptorProto, camel: string -> string)
    requires CreateField(desc, camel).Some?
    ensures CreateField(desc, camel).value.Field?
    ensures CreateField(desc, camel).value.name == camel(desc.name)
    ensures CreateField(desc, camel).value.id == desc.number
    ensures Convert.IsScalarCode(desc.typeCode) ==>
      CreateField(desc, camel).value.fieldType == Convert.ScalarKeyword(desc.typeCode)
    ensures !Convert.IsScalarCode(desc.typeCode) ==> CreateField(desc, camel).value.fieldType == desc.typeName
    ensures CreateField(desc, camel).value.rule == Zero <==> desc.labelCode == 0
    ensures forall k :: CreateField(desc, camel).value.rule == Keyword(k) <==> Convert.LabelCode(k) == Some(desc.labelCode)
  {
    forall k
      ensures CreateField(desc, camel).value.rule == Keyword(k) <==> Convert.LabelCode(k) == Some(desc.labelCode)
    {
      Convert.LabelTableInverse(desc.labelCode, k);
    }
  }

  /** A field record that only set its name reads as an optional double numbered 0. */
  lemma DefaultFieldIsOptionalDouble(name: string, camel: string -> string)
    ensures CreateField(EmptyField.(name := name), camel) == Some(Field(camel(name), 0, "double", Keyword("optional"), None))
  {
  }

  /** The fields `createType` adds, in declaration order. */
  function CreatedFields(fs: seq<FieldDescriptorProto>, camel: string -> string): seq<Node>
  {
    if fs == [] then []
    else
      CreatedFields(fs[..|fs| - 1], camel) +
      match CreateField(fs[|fs| - 1], camel)
      case Some(f) => [f]
      case None => []
  }

  // ----------------------------------------------------------------- oneofs

  /** The camelCased names of the oneof declarations that have a name, in order. */
  function NamedOneofs(decls: seq<OneofDescriptorProto>, camel: string -> string): seq<string>
  {
    if decls == [] then []
    else NamedOneofs(decls[..|decls| - 1], camel) + if decls[|decls| - 1].name != "" then [camel(decls[|decls| - 1].name)] else []
  }

  /** Unnamed declarations are dropped, so the list is as long as the declarations only when every one is named. */
  lemma {:induction false} NamedOneofsAllNamed(decls: seq<OneofDescriptorProto>, camel: string -> string)
    ensures |NamedOneofs(decls, camel)| <= |decls|
    ensures (forall i :: 0 <= i < |decls| ==> decls[i].name != "") ==>
      NamedOneofs(decls, camel) == seq(|decls|, i requires 0 <= i < |decls| => camel(decls[i].name))
    ensures |NamedOneofs(decls, camel)| == |decls| ==> forall i :: 0 <= i < |decls| ==> decls[i].name != ""
  {
    if decls != [] {
      var init := decls[..|decls| - 1];
      NamedOneofsAllNamed(init, camel);
      assert forall i :: 0 <= i < |init| ==> init[i] == decls[i];
    }
  }

  /** Whether a declared field joins the named oneof `k`: it was created and its `oneof_index` was on the wire. */
  predicate Joins(d: FieldDescriptorProto, k: int, camel: string -> string)
  {
    CreateField(d, camel).Some? && d.oneofIndexSet && d.oneofIndex == k
  }

  /** The member names of the named oneof `k`, in field declaration order. */
  function Members(fs: seq<FieldDescriptorProto>, k: int, camel: string -> string): seq<string>
  {
    if fs == [] then []
    else Members(fs[..|fs| - 1], k, camel) + if Joins(fs[|fs| - 1], k, camel) then [camel(camel(fs[|fs| - 1].name))] else []
  }

  /** A name is a member of oneof `k` exactly when some created field with that oneof index gives it. */
  lemma {:induction false} MembersAreJoiningFields(fs: seq<FieldDescriptorProto>, k: int, camel: string -> string, x: string)
    ensures x in Members(fs, k, camel) <==> exists i :: 0 <= i < |fs| && Joins(fs[i], k, camel) && x == camel(camel(fs[i].name))
  {
    if fs != [] {
      var init := fs[..|fs| - 1];
      MembersAreJoiningFields(init, k, camel, x);
      assert forall i :: 0 <= i < |init| ==> init[i] == fs[i];
      if x in Members(fs, k, camel) && x !in Members(init, k, camel) {
        assert Joins(fs[|fs| - 1], k, camel) && x == camel(camel(fs[|fs| - 1].name));
      }
    }
  }

  /** A field whose `oneof_index` was never assigned is a member of no oneof. */
  lemma NoIndexNoOneof(fs: seq<FieldDescriptorProto>, d: FieldDescriptorProto, k: int, camel: string -> string)
    requires !d.oneofIndexSet
    ensures Members(fs + [d], k, camel) == Members(fs, k, camel)
  {
    assert (fs + [d])[..|fs|] == fs;
  }

  /** The `typeof oneofIndex === 'number'` test as written: the prototype's 0 passes it. */
  predicate JoinsAsWritten(d: FieldDescriptorProto, k: int, camel: string -> string)
  {
    CreateField(d, camel).Some? && d.oneofIndex == k
  }

  /** Oneof members as the source collects them. */
  function MembersAsWritten(fs: seq<FieldDescriptorProto>, k: int, camel: string -> string): seq<string>
  {
    if fs == [] then []
    else MembersAsWritten(fs[..|fs| - 1], k, camel) + if JoinsAsWritten(fs[|fs| - 1], k, camel) then [camel(camel(fs[|fs| - 1].name))] else []
  }

  /**
   * A message with one named oneof and one plain string field `x`: as
   * written, `x` becomes a member of the oneof; the corrected rule leaves it out.
   */
  lemma PlainFieldJoinsFirstOneof(camel: string -> string)
    ensures NamedOneofs([EmptyOneof.(name := "kind")], camel) == [camel("kind")]
    ensures MembersAsWritten([EmptyField.(name := "x", typeCode := 9)], 0, camel) == [camel(camel("x"))]
    ensures Members([EmptyField.(name := "x", typeCode := 9)], 0, camel) == []
  {
  }

  /**
   * Where every field without an index on the wire holds the prototype's 0,
   * the rule as written and the corrected one disagree only about oneof 0.
   */
  lemma {:induction false} MembersAsWrittenAgree(fs: seq<FieldDescriptorProto>, k: int, camel: string -> string)
    requires forall i :: 0 <= i < |fs| && !fs[i].oneofIndexSet ==> fs[i].oneofIndex == 0
    requires k != 0
    ensures MembersAsWritten(fs, k, camel) == Members(fs, k, camel)
  {
    if fs != [] {
      MembersAsWrittenAgree(fs[..|fs| - 1], k, camel);
    }
  }

  /** The OneOf objects of a Type: one per named declaration, each with its members. */
  function OneofNodes(d: DescriptorProto, camel: string -> string): seq<Node>
  {
    var names := NamedOneofs(d.oneofDecl, camel);
    seq(|names|, k requires 0 <= k < |names| => OneOf(names[k], Members(d.field, k, camel)))
  }

  // --------------------------------------------------------------- reserved

  /** Each reserved name as an entry of the reserved list. */
  function NameEntries(ns: seq<string>): seq<Reserved>
  {
    if ns == [] then [] else NameEntries(ns[..|ns| - 1]) + [RName(ns[|ns| - 1])]
  }

  /** Each half-open reserved range as an inclusive `[start, end - 1]` entry. */
  function RangeEntries(rs: seq<ReservedRange>): seq<Reserved>
  {
    if rs == [] then [] else RangeEntries(rs[..|rs| - 1]) + [RRange(rs[|rs| - 1].start, rs[|rs| - 1].end - 1)]
  }

  /** The reserved list of a Type: the names, then the ranges. */
  function ReservedOf(d: DescriptorProto): seq<Reserved>
  {
    NameEntries(d.reservedName) + RangeEntries(d.reservedRange)
  }

  /** The reserved names of a reserved list, in order. */
  function NamesOf(rs: seq<Reserved>): seq<string>
  {
    if rs == [] then [] else NamesOf(rs[..|rs| - 1]) + if rs[|rs| - 1].RName? then [rs[|rs| - 1].name] else []
  }

  /** The half-open ranges of a reserved list, in order. */
  function RangesOf(rs: seq<Reserved>): seq<ReservedRange>
  {
    if rs == [] then []
    else RangesOf(rs[..|rs| - 1]) + if rs[|rs| - 1].RRange? then [ReservedRange(rs[|rs| - 1].lo, rs[|rs| - 1].hi + 1)] else []
  }

  lemma {:induction false} NamesOfAppend(a: seq<Reserved>, b: seq<Reserved>)
    ensures NamesOf(a + b) == NamesOf(a) + NamesOf(b)
    ensures RangesOf(a + b) == RangesOf(a) + RangesOf(b)
  {
    if b == [] {
      assert a + b == a;
    } else {
      var init := b[..|b| - 1];
      assert (a + b)[..|a + b| - 1] == a + init;
      NamesOfAppend(a, init);
    }
  }

  lemma {:induction false} NamesOfNames(ns: seq<string>)
    ensures NamesOf(NameEntries(ns)) == ns
    ensures RangesOf(NameEntries(ns)) == []
  {
    if ns != [] {
      var init, last := ns[..|ns| - 1], ns[|ns| - 1];
      NamesOfNames(init);
      var entries := NameEntries(ns);
      assert entries[..|entries| - 1] == NameEntries(init);
      assert entries[|entries| - 1] == RName(last);
      assert init + [last] == ns;
    }
  }

  lemma {:induction false} RangesOfRanges(rs: seq<ReservedRange>)
    ensures NamesOf(RangeEntries(rs)) == []
    ensures RangesOf(RangeEntries(rs)) == rs
  {
    if rs != [] {
      var init, last := rs[..|rs| - 1], rs[|rs| - 1];
      RangesOfRanges(init);
      var entries := RangeEntries(rs);
      assert entries == RangeEntries(init) + [RRange(last.start, last.end - 1)];
      assert entries[..|entries| - 1] == RangeEntries(init);
      assert entries[|entries| - 1] == RRange(last.start, last.end - 1);
      assert NamesOf(entries) == NamesOf(RangeEntries(init));
      assert ReservedRange(last.start, last.end - 1 + 1) == last;
      assert RangesOf(entries) == RangesOf(RangeEntries(init)) + [last];
      assert init + [last] == rs;
    }
  }

  /** The reserved list loses nothing: its names and its ranges give back the descriptor's, in order. */
  lemma ReservedRoundTrip(d: DescriptorProto)
    ensures NamesOf(ReservedOf(d)) == d.reservedName
    ensures RangesOf(ReservedOf(d)) == d.reservedRange
  {
    NamesOfAppend(NameEntries(d.reservedName), RangeEntries(d.reservedRange));
    NamesOfNames(d.reservedName);
    RangesOfRanges(d.reservedRange);
  }

  /** The reserved names come first, then one entry per range, with the range's end made inclusive. */
  lemma {:induction false} ReservedLayout(ns: seq<string>, rs: seq<ReservedRange>)
    ensures |NameEntries(ns)| == |ns| && |RangeEntries(rs)| == |rs|
    ensures forall i :: 0 <= i < |ns| ==> NameEntries(ns)[i] == RName(ns[i])
    ensures forall i :: 0 <= i < |rs| ==> RangeEntries(rs)[i] == RRange(rs[i].start, rs[i].end - 1)
  {
    if ns != [] {
      ReservedLayout(ns[..|ns| - 1], rs);
    }
    if rs != [] {
      ReservedLayout(ns, rs[..|rs| - 1]);
    }
  }

  // ------------------------------------------------------------------ enums

  /** The `values` object of `createEnum`: every named value, a later duplicate overwriting an earlier one. */
  function EnumValues(vals: seq<EnumValueDescriptorProto>): map<string, int>
  {
    if vals == [] then map[]
    else
      var m := EnumValues(vals[..|vals| - 1]);
      var v := vals[|vals| - 1];
      if v.name != "" then m[v.name := v.number] else m
  }

  /** The keys of the enum's map are exactly the non-empty value names. */
  lemma {:induction false} EnumValuesKeys(vals: seq<EnumValueDescriptorProto>, key: string)
    ensures key in EnumValues(vals) <==> key != "" && exists i :: 0 <= i < |vals| && vals[i].name == key
  {
    if vals != [] {
      var init := vals[..|vals| - 1];
      EnumValuesKeys(init, key);
      assert forall i :: 0 <= i < |init| ==> init[i] == vals[i];
    }
  }

  /** A name maps to the number of its last occurrence. */
  lemma {:induction false} EnumValuesLastWins(vals: seq<EnumValueDescriptorProto>, i: nat)
    requires i < |vals| && vals[i].name != ""
    requires forall j :: i < j < |vals| ==> vals[j].name != vals[i].name
    ensures vals[i].name in EnumValues(vals) && EnumValues(vals)[vals[i].name] == vals[i].number
  {
    if i < |vals| - 1 {
      var init := vals[..|vals| - 1];
      assert forall j :: i < j < |init| ==> init[j] == vals[j];
      EnumValuesLastWins(init, i);
    }
  }

  function EnumOf(d: EnumDescriptorProto): Node
  {
    Enum(d.name, EnumValues(d.value))
  }

  /** `createEnum`. */
  method CreateEnum(desc: EnumDescriptorProto) returns (e: Node)
    ensures e == EnumOf(desc)
  {
    var values: map<string, int> := map[];
    for i := 0 to |desc.value|
      invariant values == EnumValues(desc.value[..i])
    {
      var v := desc.value[i];
      if v.name != "" {
        values := values[v.name := v.number];
      }
      assert desc.value[..i + 1][..i] == desc.value[..i];
    }
    assert desc.value[..|desc.value|] == desc.value;
    e := Enum(desc.name, values);
  }

  function EnumsOf(ds: seq<EnumDescriptorProto>): (r: seq<Node>)
    ensures |r| == |ds|
  {
    if ds == [] then [] else EnumsOf(ds[..|ds| - 1]) + [EnumOf(ds[|ds| - 1])]
  }

  /** `addEnums`: each enum appended to the namespace, in order. */
  method AddEnums(descs: seq<EnumDescriptorProto>, namespace: Node) returns (r: Node)
    requires IsNamespace(namespace)
    ensures IsNamespace(r) && Kinds(r) == Kinds(namespace) && NameOf(r) == NameOf(namespace)
    ensures r == AddNested(namespace, EnumsOf(descs))
  {
    r := namespace;
    for i := 0 to |descs|
      invariant IsNamespace(r) && r == AddNested(namespace, EnumsOf(descs[..i]))
    {
      var e := CreateEnum(descs[i]);
      r := AddNested(r, [e]);
      assert descs[..i + 1][..i] == descs[..i];
      assert EnumsOf(descs[..i + 1]) == EnumsOf(descs[..i]) + [e];
      AddNestedAppend(namespace, EnumsOf(descs[..i]), [e]);
    }
    assert descs[..|descs|] == descs;
  }

  // -------------------------------------------------------------- services

  /** `createMethod`: a non-streaming flag stays false. */
  function CreateMethod(desc: MethodDescriptorProto): Node
  {
    Method(desc.name, desc.inputType, desc.outputType, desc.clientStreaming, desc.serverStreaming, None, None)
  }

  /** The descriptor a Method object was made from, less the options it does not keep. */
  function MethodDescriptorOf(m: Node): MethodDescriptorProto
    requires m.Method?
  {
    MethodDescriptorProto(m.name, m.requestType, m.responseType, None, m.requestStream, m.responseStream)
  }

  /** A Method keeps every field of its descriptor except the options. */
  lemma MethodRoundTrip(desc: MethodDescriptorProto)
    ensures CreateMethod(desc).Method?
    ensures MethodDescriptorOf(CreateMethod(desc)) == desc.(options := None)
  {
  }

  function MethodsOf(ms: seq<MethodDescriptorProto>): seq<Node>
  {
    if ms == [] then [] else MethodsOf(ms[..|ms| - 1]) + [CreateMethod(ms[|ms| - 1])]
  }

  function ServiceOf(d: ServiceDescriptorProto): Node
  {
    Service(d.name, MethodsOf(d.methods), [])
  }

  /** The methods of a Service follow its descriptor's, one to one and in order. */
  lemma {:induction false} ServiceMethodsInOrder(ms: seq<MethodDescriptorProto>)
    ensures |MethodsOf(ms)| == |ms|
    ensures forall i :: 0 <= i < |ms| ==> MethodsOf(ms)[i].Method? && MethodDescriptorOf(MethodsOf(ms)[i]) == ms[i].(options := None)
  {
    if ms != [] {
      ServiceMethodsInOrder(ms[..|ms| - 1]);
    }
  }

  /** `createService`. */
  method CreateService(desc: ServiceDescriptorProto) returns (s: Node)
    ensures s == ServiceOf(desc)
  {
    s := Service(desc.name, [], []);
    for i := 0 to |desc.methods|
      invariant s == Service(desc.name, MethodsOf(desc.methods[..i]), [])
    {
      s := s.(methods := s.methods + [CreateMethod(desc.methods[i])]);
      assert desc.methods[..i + 1][..i] == desc.methods[..i];
    }
    assert desc.methods[..|desc.methods|] == desc.methods;
  }

  // ------------------------------------------------------------------ types

  /** The Type `createType` builds from a message descriptor, nested types and enums included. */
  function TypeOf(d: DescriptorProto, camel: string -> string): Node
    decreases d
  {
    Type(d.name, TypeOptions(d, camel), CreatedFields(d.field, camel), OneofNodes(d, camel),
         TypesOf(d.nestedType, camel) + EnumsOf(d.enumType), ReservedOf(d))
  }

  function TypesOf(ds: seq<DescriptorProto>, camel: string -> string): (r: seq<Node>)
    decreases ds
    ensures |r| == |ds|
  {
    if ds == [] then [] else TypesOf(ds[..|ds| - 1], camel) + [TypeOf(ds[|ds| - 1], camel)]
  }

  /** `addTypes`: each message type built and appended to the namespace, in order. */
  method AddTypes(descs: seq<DescriptorProto>, namespace: Node, camel: string -> string) returns (r: Node)
    requires IsNamespace(namespace)
    decreases descs
    ensures IsNamespace(r) && Kinds(r) == Kinds(namespace) && NameOf(r) == NameOf(namespace)
    ensures r == AddNested(namespace, TypesOf(descs, camel))
  {
    r := namespace;
    for i := 0 to |descs|
      invariant IsNamespace(r) && r == AddNested(namespace, TypesOf(descs[..i], camel))
    {
      var t := CreateType(descs[i], camel);
      r := AddNested(r, [t]);
      assert descs[..i + 1][..i] == descs[..i];
      assert TypesOf(descs[..i + 1], camel) == TypesOf(descs[..i], camel) + [t];
      AddNestedAppend(namespace, TypesOf(descs[..i], camel), [t]);
    }
    assert descs[..|descs|] == descs;
  }

  /** `createType`. */
  method CreateType(messageType: DescriptorProto, camel: string -> string) returns (t: Node)
    decreases messageType
    ensures t == TypeOf(messageType, camel)
  {
    var shell := CreateTypeShell(messageType, camel);
    t := AddTypes(messageType.nestedType, shell, camel);
    t := AddEnums(messageType.enumType, t);
    AddNestedAppend(shell, TypesOf(messageType.nestedType, camel), EnumsOf(messageType.enumType));
    assert t == Type(messageType.name, TypeOptions(messageType, camel), CreatedFields(messageType.field, camel),
      OneofNodes(messageType, camel), TypesOf(messageType.nestedType, camel) + EnumsOf(messageType.enumType), []);
    var reserved := CollectReserved(messageType);
    t := t.(reserved := reserved);
  }

  /** The Type `createType` starts from: options, fields and oneofs, before nested objects and the reserved list. */
  method CreateTypeShell(messageType: DescriptorProto, camel: string -> string) returns (t: Node)
    ensures t == Type(messageType.name, TypeOptions(messageType, camel), CreatedFields(messageType.field, camel),
      OneofNodes(messageType, camel), [], [])
  {
    var props := if messageType.options.Some? then Some(OwnProperties(messageType.options.value)) else None;
    var options := GetOptions(props, MessageOptionNames, camel);
    var names, members := CollectOneofs(messageType, camel);
    var fields := CollectFields(messageType.field, camel, names, members);
    var oneofs := CreateOneofs(names, fields.1);
    assert oneofs == OneofNodes(messageType, camel);
    t := Type(messageType.name, options, fields.0, oneofs, [], []);
  }

  /** The loop that adds a OneOf per collected oneof, in order. */
  method CreateOneofs(names: seq<string>, members: seq<seq<string>>) returns (oneofs: seq<Node>)
    requires |members| == |names|
    ensures |oneofs| == |names|
    ensures forall j :: 0 <= j < |names| ==> oneofs[j] == OneOf(names[j], members[j])
  {
    oneofs := [];
    for k := 0 to |names|
      invariant |oneofs| == k
      invariant forall j :: 0 <= j < k ==> oneofs[j] == OneOf(names[j], members[j])
    {
      oneofs := oneofs + [OneOf(names[k], members[k])];
    }
  }

  /** The named oneofs of a message, each starting with no members. */
  method CollectOneofs(messageType: DescriptorProto, camel: string -> string) returns (names: seq<string>, members: seq<seq<string>>)
    ensures names == NamedOneofs(messageType.oneofDecl, camel)
    ensures |members| == |names| && forall k :: 0 <= k < |members| ==> members[k] == []
  {
    names, members := [], [];
    for i := 0 to |messageType.oneofDecl|
      invariant names == NamedOneofs(messageType.oneofDecl[..i], camel)
      invariant |members| == |names| && forall k :: 0 <= k < |members| ==> members[k] == []
    {
      var name := messageType.oneofDecl[i].name;
      if name != "" {
        names, members := names + [camel(name)], members + [[]];
      }
      assert messageType.oneofDecl[..i + 1][..i] == messageType.oneofDecl[..i];
    }
    assert messageType.oneofDecl[..|messageType.oneofDecl|] == messageType.oneofDecl;
  }

  /** The field loop of `createType`: every created field added, and its name pushed onto its oneof. */
  method CollectFields(descs: seq<FieldDescriptorProto>, camel: string -> string, names: seq<string>, members: seq<seq<string>>)
    returns (r: (seq<Node>, seq<seq<string>>))
    requires |members| == |names| && forall k :: 0 <= k < |members| ==> members[k] == []
    ensures r.0 == CreatedFields(descs, camel)
    ensures |r.1| == |names| && forall k :: 0 <= k < |r.1| ==> r.1[k] == Members(descs, k, camel)
  {
    var fields: seq<Node> := [];
    var oneOfs := members;
    for i := 0 to |descs|
      invariant fields == CreatedFields(descs[..i], camel)
      invariant |oneOfs| == |names| && forall k :: 0 <= k < |oneOfs| ==> oneOfs[k] == Members(descs[..i], k, camel)
    {
      var desc := descs[i];
      assert descs[..i + 1][..i] == descs[..i];
      var field := CreateField(desc, camel);
      if field.Some? {
        fields := fields + [field.value];
        if desc.oneofIndexSet && 0 <= desc.oneofIndex < |oneOfs| {
          oneOfs := oneOfs[desc.oneofIndex := oneOfs[desc.oneofIndex] + [camel(field.value.name)]];
        }
      }
    }
    assert descs[..|descs|] == descs;
    r := (fields, oneOfs);
  }

  /** The reserved list of `createType`: the names, then `[start, end - 1]` for each range. */
  method CollectReserved(messageType: DescriptorProto) returns (reserved: seq<Reserved>)
    ensures reserved == ReservedOf(messageType)
  {
    reserved := NameEntries(messageType.reservedName);
    var ranges := messageType.reservedRange;
    for i := 0 to |ranges|
      invariant reserved == NameEntries(messageType.reservedName) + RangeEntries(ranges[..i])
    {
      var start, end := ranges[i].start, ranges[i].end;
      reserved := reserved + [RRange(start, end - 1)];
      assert ranges[..i + 1][..i] == ranges[..i];
    }
    assert ranges[..|ranges|] == ranges;
  }

  /** Within a Type: fields, then oneofs, then nested types followed by nested enums. */
  lemma TypeLayout(d: DescriptorProto, camel: string -> string)
    ensures TypeOf(d, camel).Type? && TypeOf(d, camel).name == d.name
    ensures TypeOf(d, camel).fields == CreatedFields(d.field, camel)
    ensures |TypeOf(d, camel).oneofs| == |NamedOneofs(d.oneofDecl, camel)|
    ensures |TypeOf(d, camel).nested| == |d.nestedType| + |d.enumType|
    ensures forall i :: 0 <= i < |d.nestedType| ==> TypeOf(d, camel).nested[i] == TypeOf(d.nestedType[i], camel)
    ensures forall i :: 0 <= i < |d.enumType| ==> TypeOf(d, camel).nested[|d.nestedType| + i] == EnumOf(d.enumType[i])
  {
    NestedTypesFirst(d, camel);
    NestedEnumsAfter(d, camel);
  }

  lemma NestedTypesFirst(d: DescriptorProto, camel: string -> string)
    ensures TypeOf(d, camel).Type? && |TypeOf(d, camel).nested| == |d.nestedType| + |d.enumType|
    ensures forall i :: 0 <= i < |d.nestedType| ==> TypeOf(d, camel).nested[i] == TypeOf(d.nestedType[i], camel)
  {
    TypesOfInOrder(d.nestedType, camel);
    var a, b := TypesOf(d.nestedType, camel), EnumsOf(d.enumType);
    assert TypeOf(d, camel).nested == a + b;
    forall i | 0 <= i < |d.nestedType| ensures TypeOf(d, camel).nested[i] == TypeOf(d.nestedType[i], camel) {
      assert (a + b)[i] == a[i];
    }
  }

  lemma NestedEnumsAfter(d: DescriptorProto, camel: string -> string)
    ensures TypeOf(d, camel).Type? && |TypeOf(d, camel).nested| == |d.nestedType| + |d.enumType|
    ensures forall i :: 0 <= i < |d.enumType| ==> TypeOf(d, camel).nested[|d.nestedType| + i] == EnumOf(d.enumType[i])
  {
    EnumsOfInOrder(d.enumType);
    var a, b := TypesOf(d.nestedType, camel), EnumsOf(d.enumType);
    assert TypeOf(d, camel).nested == a + b;
    forall i | 0 <= i < |d.enumType| ensures TypeOf(d, camel).nested[|d.nestedType| + i] == EnumOf(d.enumType[i]) {
      assert (a + b)[|a| + i] == b[i];
    }
  }

  lemma {:induction false} TypesOfInOrder(ds: seq<DescriptorProto>, camel: string -> string)
    ensures |TypesOf(ds, camel)| == |ds|
    ensures forall i :: 0 <= i < |ds| ==> TypesOf(ds, camel)[i] == TypeOf(ds[i], camel)
  {
    if ds != [] {
      TypesOfInOrder(ds[..|ds| - 1], camel);
    }
  }

  lemma {:induction false} EnumsOfInOrder(ds: seq<EnumDescriptorProto>)
    ensures |EnumsOf(ds)| == |ds|
    ensures forall i :: 0 <= i < |ds| ==> EnumsOf(ds)[i] == EnumOf(ds[i])
  {
    if ds != [] {
      EnumsOfInOrder(ds[..|ds| - 1]);
    }
  }

  // ------------------------------------------------------------------ files

  /** What makes the builder throw. */
  datatype BuildError =
    | DecodeError(cause: Error)   // a descriptor decoder threw
    | PathMustBeRelative          // `define` of a package that starts with a dot
    | PathConflict                // `define` met an object that is no namespace where a package component goes
    | NameResolution              // protobufjs's `resolveAll` threw

  function IndexOf(s: string, c: char): (i: nat)
    requires c in s
    ensures i < |s| && s[i] == c && c !in s[..i]
  {
    if s[0] == c then 0 else assert c in s[1..]; 1 + IndexOf(s[1..], c)
  }

  /** `String.prototype.split` on a one-character separator. */
  function Split(s: string, sep: char): (parts: seq<string>)
    ensures |parts| >= 1
    decreases |s|
  {
    if sep !in s then [s] else var i := IndexOf(s, sep); [s[..i]] + Split(s[i + 1..], sep)
  }

  function Join(parts: seq<string>, sep: char): string
    requires |parts| >= 1
  {
    if |parts| == 1 then parts[0] else parts[0] + [sep] + Join(parts[1..], sep)
  }

  /** Splitting loses nothing: the parts hold no separator and join back to the string. */
  lemma {:induction false} SplitJoin(s: string, sep: char)
    ensures Join(Split(s, sep), sep) == s
    ensures forall i :: 0 <= i < |Split(s, sep)| ==> sep !in Split(s, sep)[i]
    decreases |s|
  {
    if sep in s {
      var i := IndexOf(s, sep);
      SplitJoin(s[i + 1..], sep);
      assert s == s[..i] + [sep] + s[i + 1..];
      var parts := Split(s, sep);
      assert parts[1..] == Split(s[i + 1..], sep);
    }
  }

  /** The index of the first child named `name` (`nested[name]`), or the number of children. */
  function FindChild(nested: seq<Node>, name: string): (i: nat)
    ensures i <= |nested|
    ensures forall j :: 0 <= j < i ==> NameOf(nested[j]) != name
    ensures i < |nested| ==> NameOf(nested[i]) == name
  {
    if nested == [] then 0 else if NameOf(nested[0]) == name then 0 else 1 + FindChild(nested[1..], name)
  }

  /**
   * `root.define(path)` followed by adding `items` to the namespace it
   * returns: each component reuses the namespace child of that name, or
   * adds a fresh Namespace when there is none, and fails on a child of that
   * name that is not a namespace.
   */
  function InsertAt(ns: Node, path: seq<string>, items: seq<Node>): (r: Result<Node, BuildError>)
    requires IsNamespace(ns)
    ensures r.Ok? ==> IsNamespace(r.value) && Kinds(r.value) == Kinds(ns) && NameOf(r.value) == NameOf(ns)
    decreases |path|
  {
    if path == [] then Ok(AddNested(ns, items))
    else
      var i := FindChild(ns.nested, path[0]);
      if i < |ns.nested| then
        if IsNamespace(ns.nested[i]) then
          var c :- InsertAt(ns.nested[i], path[1..], items);
          Ok(ns.(nested := ns.nested[i := c]))
        else Err(PathConflict)
      else
        var c :- InsertAt(Namespace(path[0], []), path[1..], items);
        Ok(AddNested(ns, [c]))
  }

  /** The object a dotted path names below `n`, following first children of each name. */
  function Lookup(n: Node, path: seq<string>): Option<Node>
    decreases |path|
  {
    if path == [] then Some(n)
    else
      var i := FindChild(Nested(n), path[0]);
      if i < |Nested(n)| then Lookup(Nested(n)[i], path[1..]) else None
  }

  /** The namespace the path names exists afterwards and has gained exactly `items`, after what it held. */
  lemma {:induction false} InsertAtTarget(ns: Node, path: seq<string>, items: seq<Node>)
    requires IsNamespace(ns) && InsertAt(ns, path, items).Ok?
    ensures Lookup(InsertAt(ns, path, items).value, path).Some?
    ensures IsNamespace(Lookup(InsertAt(ns, path, items).value, path).value)
    ensures Nested(Lookup(InsertAt(ns, path, items).value, path).value) ==
      (if Lookup(ns, path).Some? then Nested(Lookup(ns, path).value) else []) + items
    decreases |path|
  {
    if path != [] {
      var r := InsertAt(ns, path, items).value;
      var i := FindChild(ns.nested, path[0]);
      if i < |ns.nested| {
        var c := InsertAt(ns.nested[i], path[1..], items).value;
        InsertAtTarget(ns.nested[i], path[1..], items);
        assert r.nested == ns.nested[i := c];
        FindChildUpdate(ns.nested, path[0], i, c);
        assert Lookup(r, path) == Lookup(c, path[1..]);
        assert Lookup(ns, path) == Lookup(ns.nested[i], path[1..]);
      } else {
        var created := Namespace(path[0], []);
        var c := InsertAt(created, path[1..], items).value;
        InsertAtTarget(created, path[1..], items);
        assert r.nested == ns.nested + [c];
        FindChildAppend(ns.nested, path[0], c);
        assert Lookup(r, path) == Lookup(c, path[1..]);
        assert Lookup(ns, path) == None;
        if path[1..] != [] {
          assert Lookup(created, path[1..]) == None;
        }
      }
    }
  }

  lemma FindChildUpdate(nested: seq<Node>, name: string, i: nat, c: Node)
    requires i == FindChild(nested, name) && i < |nested| && NameOf(c) == name
    ensures FindChild(nested[i := c], name) == i
  {
    assert forall k :: 0 <= k < i ==> nested[i := c][k] == nested[k];
    assert nested[i := c][i] == c;
  }

  lemma FindChildAppend(nested: seq<Node>, name: string, c: Node)
    requires FindChild(nested, name) == |nested| && NameOf(c) == name
    ensures FindChild(nested + [c], name) == |nested|
  {
    assert forall k :: 0 <= k < |nested| ==> (nested + [c])[k] == nested[k];
    assert (nested + [c])[|nested|] == c;
  }

  /** A component that names an object of another kind stops the walk. */
  lemma InsertAtConflict(ns: Node, path: seq<string>, items: seq<Node>)
    requires IsNamespace(ns) && path != []
    requires FindChild(ns.nested, path[0]) < |ns.nested| && !IsNamespace(ns.nested[FindChild(ns.nested, path[0])])
    ensures InsertAt(ns, path, items) == Err(PathConflict)
  {
  }

  function ServicesOf(ds: seq<ServiceDescriptorProto>): (r: seq<Node>)
    ensures |r| == |ds|
  {
    if ds == [] then [] else ServicesOf(ds[..|ds| - 1]) + [ServiceOf(ds[|ds| - 1])]
  }

  /** The children `addFile` adds to its namespace: message types, then enums, then services. */
  function FileItems(file: FileDescriptorProto, camel: string -> string): seq<Node>
  {
    TypesOf(file.messageType, camel) + EnumsOf(file.enumType) + ServicesOf(file.service)
  }

  /** `addFile`: into `root.define(package)` when the package is not empty, into the root otherwise. */
  function FileInto(root: Node, file: FileDescriptorProto, camel: string -> string): (r: Result<Node, BuildError>)
    requires IsNamespace(root)
    ensures r.Ok? ==> IsNamespace(r.value) && Kinds(r.value) == Kinds(root)
  {
    if file.package == "" then Ok(AddNested(root, FileItems(file, camel)))
    else
      var path := Split(file.package, '.');
      if path[0] == "" then Err(PathMustBeRelative) else InsertAt(root, path, FileItems(file, camel))
  }

  lemma {:induction false} ServicesOfInOrder(ds: seq<ServiceDescriptorProto>)
    ensures |ServicesOf(ds)| == |ds|
    ensures forall i :: 0 <= i < |ds| ==> ServicesOf(ds)[i] == ServiceOf(ds[i])
  {
    if ds != [] {
      ServicesOfInOrder(ds[..|ds| - 1]);
    }
  }

  /** A file contributes its message types, then its enums, then its services, each in declaration order. */
  lemma FileItemsOrder(file: FileDescriptorProto, camel: string -> string)
    ensures |FileItems(file, camel)| == |file.messageType| + |file.enumType| + |file.service|
    ensures forall i :: 0 <= i < |file.messageType| ==> FileItems(file, camel)[i] == TypeOf(file.messageType[i], camel)
    ensures forall i :: 0 <= i < |file.enumType| ==>
      FileItems(file, camel)[|file.messageType| + i] == EnumOf(file.enumType[i])
    ensures forall i :: 0 <= i < |file.service| ==>
      FileItems(file, camel)[|file.messageType| + |file.enumType| + i] == ServiceOf(file.service[i])
  {
    FileTypesFirst(file, camel);
    FileEnumsNext(file, camel);
    FileServicesLast(file, camel);
  }

  lemma FileTypesFirst(file: FileDescriptorProto, camel: string -> string)
    ensures |FileItems(file, camel)| == |file.messageType| + |file.enumType| + |file.service|
    ensures forall i :: 0 <= i < |file.messageType| ==> FileItems(file, camel)[i] == TypeOf(file.messageType[i], camel)
  {
    TypesOfInOrder(file.messageType, camel);
    var a, b, c := TypesOf(file.messageType, camel), EnumsOf(file.enumType), ServicesOf(file.service);
    assert FileItems(file, camel) == a + b + c;
    forall i | 0 <= i < |file.messageType| ensures FileItems(file, camel)[i] == TypeOf(file.messageType[i], camel) {
      assert (a + b + c)[i] == a[i];
    }
  }

  lemma FileEnumsNext(file: FileDescriptorProto, camel: string -> string)
    ensures |FileItems(file, camel)| == |file.messageType| + |file.enumType| + |file.service|
    ensures forall i :: 0 <= i < |file.enumType| ==>
      FileItems(file, camel)[|file.messageType| + i] == EnumOf(file.enumType[i])
  {
    EnumsOfInOrder(file.enumType);
    var a, b, c := TypesOf(file.messageType, camel), EnumsOf(file.enumType), ServicesOf(file.service);
    assert FileItems(file, camel) == a + b + c;
    forall i | 0 <= i < |file.enumType| ensures FileItems(file, camel)[|file.messageType| + i] == EnumOf(file.enumType[i]) {
      assert (a + b + c)[|a| + i] == b[i];
    }
  }

  lemma FileServicesLast(file: FileDescriptorProto, camel: string -> string)
    ensures |FileItems(file, camel)| == |file.messageType| + |file.enumType| + |file.service|
    ensures forall i :: 0 <= i < |file.service| ==>
      FileItems(file, camel)[|file.messageType| + |file.enumType| + i] == ServiceOf(file.service[i])
  {
    ServicesOfInOrder(file.service);
    var a, b, c := TypesOf(file.messageType, camel), EnumsOf(file.enumType), ServicesOf(file.service);
    assert FileItems(file, camel) == a + b + c;
    forall i | 0 <= i < |file.service| ensures FileItems(file, camel)[|file.messageType| + |file.enumType| + i] == ServiceOf(file.service[i]) {
      assert (a + b + c)[|a| + |b| + i] == c[i];
    }
  }

  /** With a package, the file's children land in the namespace the package names, after what it held. */
  lemma FileIntoPackage(root: Node, file: FileDescriptorProto, camel: string -> string)
    requires IsNamespace(root) && FileInto(root, file, camel).Ok? && file.package != ""
    ensures Lookup(FileInto(root, file, camel).value, Split(file.package, '.')).Some?
    ensures Nested(Lookup(FileInto(root, file, camel).value, Split(file.package, '.')).value) ==
      (if Lookup(root, Split(file.package, '.')).Some? then Nested(Lookup(root, Split(file.package, '.')).value) else []) +
      FileItems(file, camel)
  {
    InsertAtTarget(root, Split(file.package, '.'), FileItems(file, camel));
  }

  /** A package with a leading dot is refused. */
  lemma LeadingDotRefused(root: Node, file: FileDescriptorProto, camel: string -> string)
    requires IsNamespace(root) && file.package == ".google.protobuf"
    ensures FileInto(root, file, camel) == Err(PathMustBeRelative)
  {
    assert file.package[0] == '.';
    assert IndexOf(file.package, '.') == 0;
  }

  /** The children `addFile` adds once it has its namespace: types, enums, then the service loop. */
  method FillNamespace(file: FileDescriptorProto, namespace: Node, camel: string -> string) returns (r: Node)
    requires IsNamespace(namespace)
    ensures IsNamespace(r) && Kinds(r) == Kinds(namespace) && NameOf(r) == NameOf(namespace)
    ensures r == AddNested(namespace, FileItems(file, camel))
  {
    r := AddTypes(file.messageType, namespace, camel);
    r := AddEnums(file.enumType, r);
    r := AddServices(file.service, r);
    AddNestedAppend(namespace, TypesOf(file.messageType, camel), EnumsOf(file.enumType));
    AddNestedAppend(namespace, TypesOf(file.messageType, camel) + EnumsOf(file.enumType), ServicesOf(file.service));
  }

  /** The service loop of `addFile`. */
  method AddServices(descs: seq<ServiceDescriptorProto>, namespace: Node) returns (r: Node)
    requires IsNamespace(namespace)
    ensures IsNamespace(r) && Kinds(r) == Kinds(namespace) && NameOf(r) == NameOf(namespace)
    ensures r == AddNested(namespace, ServicesOf(descs))
  {
    r := namespace;
    for i := 0 to |descs|
      invariant IsNamespace(r) && r == AddNested(namespace, ServicesOf(descs[..i]))
    {
      var service := CreateService(descs[i]);
      r := AddNested(r, [service]);
      assert descs[..i + 1][..i] == descs[..i];
      assert ServicesOf(descs[..i + 1]) == ServicesOf(descs[..i]) + [service];
      AddNestedAppend(namespace, ServicesOf(descs[..i]), [service]);
    }
    assert descs[..|descs|] == descs;
  }

  /** `define`'s walk, one component per call, with the file's children added where it ends. */
  method DefineAndFill(namespace: Node, path: seq<string>, file: FileDescriptorProto, camel: string -> string)
    returns (r: Result<Node, BuildError>)
    requires IsNamespace(namespace)
    decreases |path|
    ensures r == InsertAt(namespace, path, FileItems(file, camel))
  {
    if path == [] {
      var filled := FillNamespace(file, namespace, camel);
      return Ok(filled);
    }
    var part := path[0];
    var i := FindChild(namespace.nested, part);
    if i < |namespace.nested| {
      var ptr := namespace.nested[i];
      if !IsNamespace(ptr) {
        return Err(PathConflict);
      }
      var c :- DefineAndFill(ptr, path[1..], file, camel);
      r := Ok(namespace.(nested := namespace.nested[i := c]));
    } else {
      var c :- DefineAndFill(Namespace(part, []), path[1..], file, camel);
      r := Ok(AddNested(namespace, [c]));
    }
  }

  /** `addFile`. */
  method AddFile(file: FileDescriptorProto, root: Node, camel: string -> string) returns (r: Result<Node, BuildError>)
    requires IsNamespace(root)
    ensures r == FileInto(root, file, camel)
  {
    var packageName := file.package;
    if packageName != "" {
      var path := Split(packageName, '.');
      if path[0] == "" {
        return Err(PathMustBeRelative);
      }
      r := DefineAndFill(root, path, file, camel);
    } else {
      var namespace := FillNamespace(file, root, camel);
      r := Ok(namespace);
    }
  }

  /** `addFromFileDescriptor`: decode one file, then add it. */
  method AddFromFileDescriptor(root: Node, buffer: seq<byte>, camel: string -> string) returns (r: Result<Node, BuildError>)
    requires IsNamespace(root)
    ensures DecodeSpec.DecodeFile(buffer).Err? ==> r == Err(DecodeError(DecodeSpec.DecodeFile(buffer).error))
    ensures DecodeSpec.DecodeFile(buffer).Ok? ==> r == FileInto(root, DecodeSpec.DecodeFile(buffer).value, camel)
  {
    var msg := Decoder.DecodeFileBuffer(buffer);
    if msg.Err? {
      return Err(DecodeError(msg.error));
    }
    r := AddFile(msg.value, root, camel);
  }

  /** The tree as it stands after a run of `addFile` calls, and the error that stopped it, if any. */
  datatype Outcome = Outcome(root: Node, error: Option<BuildError>)

  /** `addFile` for each file in order, stopping at the first that throws. */
  function AddFiles(root: Node, files: seq<FileDescriptorProto>, camel: string -> string): (o: Outcome)
    requires IsNamespace(root)
    ensures IsNamespace(o.root) && Kinds(o.root) == Kinds(root)
    decreases |files|
  {
    if files == [] then Outcome(root, None)
    else match FileInto(root, files[0], camel)
      case Err(e) => Outcome(root, Some(e))
      case Ok(next) => AddFiles(next, files[1..], camel)
  }

  /** Adding two runs of files is adding the first, then, unless it failed, the second. */
  lemma {:induction false} AddFilesAppend(root: Node, a: seq<FileDescriptorProto>, b: seq<FileDescriptorProto>, camel: string -> string)
    requires IsNamespace(root)
    ensures AddFiles(root, a + b, camel) ==
      if AddFiles(root, a, camel).error.Some? then AddFiles(root, a, camel) else AddFiles(AddFiles(root, a, camel).root, b, camel)
    decreases |a|
  {
    if a == [] {
      assert a + b == b;
    } else {
      assert (a + b)[0] == a[0] && (a + b)[1..] == a[1..] + b;
      match FileInto(root, a[0], camel)
      case Err(_) =>
      case Ok(next) => AddFilesAppend(next, a[1..], b, camel);
    }
  }

  /** Everything the files add, file after file. */
  function ItemsOfAll(files: seq<FileDescriptorProto>, camel: string -> string): seq<Node>
  {
    if files == [] then [] else FileItems(files[0], camel) + ItemsOfAll(files[1..], camel)
  }

  /** Files without a package fill the root directly, in file order, and never fail. */
  lemma {:induction false} AddFilesAtRoot(root: Node, files: seq<FileDescriptorProto>, camel: string -> string)
    requires IsNamespace(root)
    requires forall i :: 0 <= i < |files| ==> files[i].package == ""
    ensures AddFiles(root, files, camel) == Outcome(AddNested(root, ItemsOfAll(files, camel)), None)
    decreases |files|
  {
    if files != [] {
      var items := FileItems(files[0], camel);
      var next := AddNested(root, items);
      assert FileInto(root, files[0], camel) == Ok(next);
      assert forall i :: 0 <= i < |files[1..]| ==> files[1..][i].package == "" by {
        forall i | 0 <= i < |files[1..]| ensures files[1..][i].package == "" {
          assert files[1..][i] == files[i + 1];
        }
      }
      AddFilesAtRoot(next, files[1..], camel);
      AddNestedAppend(root, items, ItemsOfAll(files[1..], camel));
      assert root.nested + items + ItemsOfAll(files[1..], camel) == root.nested + ItemsOfAll(files, camel);
    }
  }

  /** `addFromFileDescriptorSet`: decode the set, then add its files in order. */
  method AddFromFileDescriptorSet(root: Node, buffer: seq<byte>, camel: string -> string) returns (o: Outcome)
    requires IsNamespace(root)
    ensures DecodeSpec.DecodeFileSet(buffer).Err? ==> o == Outcome(root, Some(DecodeError(DecodeSpec.DecodeFileSet(buffer).error)))
    ensures DecodeSpec.DecodeFileSet(buffer).Ok? ==> o == AddFiles(root, DecodeSpec.DecodeFileSet(buffer).value.file, camel)
  {
    var msg := Decoder.DecodeFileSetBuffer(buffer);
    if msg.Err? {
      return Outcome(root, Some(DecodeError(msg.error)));
    }
    var files := msg.value.file;
    var current := root;
    for i := 0 to |files|
      invariant IsNamespace(current) && Kinds(current) == Kinds(root)
      invariant AddFiles(current, files[i..], camel) == AddFiles(root, files, camel)
    {
      assert files[i..][0] == files[i] && files[i..][1..] == files[i + 1..];
      var r := AddFile(files[i], current, camel);
      if r.Err? {
        return Outcome(current, Some(r.error));
      }
      current := r.value;
    }
    o := Outcome(current, None);
  }

  // --------------------------------------------------------------- resolve

  /**
   * `resolveAll`: protobufjs's name resolution (`resolveNames`, `None` when
   * it throws), then the map pass over the whole tree, then the map-entry
   * removal pass over the whole tree.
   */
  function ResolveAll(root: Node, resolveNames: Node -> Option<Node>): Result<Node, BuildError>
  {
    match resolveNames(root)
    case None => Err(NameResolution)
    case Some(resolved) => Ok(Visitors.RemoveMapEntries(Visitors.ResolveMaps(resolved)))
  }

  /** A resolved tree holds no map-entry type and no field that should have become a MapField. */
  lemma ResolveAllDone(root: Node, resolveNames: Node -> Option<Node>)
    requires ResolveAll(root, resolveNames).Ok?
    ensures Visitors.NoMapEntries(ResolveAll(root, resolveNames).value)
    ensures Visitors.NoCollapsible(ResolveAll(root, resolveNames).value)
  {
    var resolved := resolveNames(root).value;
    Visitors.ResolveMapsDone(resolved);
    Visitors.RemoveMapEntriesDone(Visitors.ResolveMaps(resolved));
    Visitors.RemoveMapEntriesKeepsCollapsed(Visitors.ResolveMaps(resolved));
  }

  /** The tree `convertFileDescriptorSet` returns, or what it throws. */
  function ConvertedSet(buffer: seq<byte>, camel: string -> string, resolveNames: Node -> Option<Node>): Result<Node, BuildError>
  {
    match DecodeSpec.DecodeFileSet(buffer)
    case Err(e) => Err(DecodeError(e))
    case Ok(fileSet) =>
      var o := AddFiles(Root([]), fileSet.file, camel);
      if o.error.Some? then Err(o.error.value) else ResolveAll(o.root, resolveNames)
  }

  /** `convertFileDescriptorSet`: a fresh root, every file of the set added, then resolved. */
  method ConvertFileDescriptorSet(buffer: seq<byte>, camel: string -> string, resolveNames: Node -> Option<Node>)
    returns (r: Result<Node, BuildError>)
    ensures r == ConvertedSet(buffer, camel, resolveNames)
    ensures r.Ok? ==> Visitors.NoMapEntries(r.value) && Visitors.NoCollapsible(r.value)
  {
    var root := Root([]);
    var o := AddFromFileDescriptorSet(root, buffer, camel);
    if o.error.Some? {
      return Err(o.error.value);
    }
    r := ResolveAll(o.root, resolveNames);
    if r.Ok? {
      ResolveAllDone(o.root, resolveNames);
    }
  }

  /** The tree `convertFileDescriptor` returns, or what it throws. */
  function ConvertedFile(buffer: seq<byte>, camel: string -> string, resolveNames: Node -> Option<Node>): Result<Node, BuildError>
  {
    match DecodeSpec.DecodeFile(buffer)
    case Err(e) => Err(DecodeError(e))
    case Ok(file) =>
      match FileInto(Root([]), file, camel)
      case Err(e) => Err(e)
      case Ok(root) => ResolveAll(root, resolveNames)
  }

  /** `convertFileDescriptor`: a fresh root, the one file added, then resolved. */
  method ConvertFileDescriptor(buffer: seq<byte>, camel: string -> string, resolveNames: Node -> Option<Node>)
    returns (r: Result<Node, BuildError>)
    ensures r == ConvertedFile(buffer, camel, resolveNames)
    ensures r.Ok? ==> Visitors.NoMapEntries(r.value) && Visitors.NoCollapsible(r.value)
  {
    var root := Root([]);
    var added := AddFromFileDescriptor(root, buffer, camel);
    if added.Err? {
      return Err(added.error);
    }
    r := ResolveAll(added.value, resolveNames);
    if r.Ok? {
      ResolveAllDone(added.value, resolveNames);
    }
  }
}
