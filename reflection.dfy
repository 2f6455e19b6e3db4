/**
 * The reflection tree the builder produces, as values: protobufjs's Root,
 * Namespace, Type, Field, MapField, OneOf, Enum, Service and Method objects.
 *
 * Those classes live in protobufjs, outside this repository. The model
 * assumes the class hierarchy the visitor relies on and states it in
 * `Kinds`: Root, Type and Service are subclasses of Namespace, MapField is a
 * subclass of Field, and the others stand alone. Name resolution is also
 * done by protobufjs; what it leaves on a field or method (`resolvedType`,
 * `resolvedRequestType`, `resolvedResponseType`) is carried as data.
 */
module Reflection {
  import opened Results
  import Descriptors

  /** A value copied into a reflection object's options: an option flag, or the list of uninterpreted options. */
  datatype OptionValue = OBool(flag: bool) | OUninterpreted(list: seq<Descriptors.UninterpretedOption>)

  /** JavaScript truthiness of an option value; an array is truthy even when empty. */
  predicate Truthy(v: OptionValue)
  {
    v.OBool? ==> v.flag
  }

  /** `undefined`, or an object from option names to values. */
  type Options = Option<map<string, OptionValue>>

  /** `getOption(name)` of protobufjs: the entry of the options object, if there is one. */
  function GetOption(opts: Options, name: string): (r: Option<OptionValue>)
    ensures r.Some? <==> opts.Some? && name in opts.value
  {
    if opts.Some? && name in opts.value then Some(opts.value[name]) else None
  }

  /** Whether `getOption('map_entry')` is truthy. */
  predicate IsMapEntry(opts: Options)
  {
    GetOption(opts, "map_entry").Some? && Truthy(GetOption(opts, "map_entry").value)
  }

  /** An element of `Type.reserved`: a reserved name, or an inclusive `[start, end]` pair. */
  datatype Reserved = RName(name: string) | RRange(lo: int, hi: int)

  /** The `rule` argument `createField` passes on: `undefined`, the number 0, or a keyword. */
  datatype Rule = Undefined | Zero | Keyword(keyword: string)

  /** A field of a resolved type, as `resolveMapsVisitor` dereferences it. */
  datatype FieldRef = FieldRef(fieldType: string, resolvedName: Option<string>)

  /** What protobufjs's name resolution attached to a field: a Type or an Enum. */
  datatype Resolved =
    | ResolvedType(fullName: string, options: Options, fieldsById: map<int, FieldRef>)
    | ResolvedEnum(fullName: string)

  datatype Node =
    | Root(nested: seq<Node>)
    | Namespace(name: string, nested: seq<Node>)
    | Type(name: string, options: Options, fields: seq<Node>, oneofs: seq<Node>, nested: seq<Node>, reserved: seq<Reserved>)
    | Field(name: string, id: int, fieldType: string, rule: Rule, resolved: Option<Resolved>)
    | MapField(name: string, id: int, keyType: string, valueType: string)
    | OneOf(name: string, fieldNames: seq<string>)
    | Enum(name: string, values: map<string, int>)
    | Service(name: string, methods: seq<Node>, nested: seq<Node>)
    | Method(name: string, requestType: string, responseType: string, requestStream: bool, responseStream: bool,
             resolvedRequest: Option<string>, resolvedResponse: Option<string>)

  /** The `instanceof` tests of `visit`, in the order it makes them. */
  datatype NodeKind =
    | EnumKind | FieldKind | MapFieldKind | MethodKind | NamespaceKind | RootKind | OneOfKind | ServiceKind | TypeKind

  const CallOrder: seq<NodeKind> :=
    [EnumKind, FieldKind, MapFieldKind, MethodKind, NamespaceKind, RootKind, OneOfKind, ServiceKind, TypeKind]

  /** Every class a node is an instance of, under the assumed protobufjs hierarchy. */
  function Kinds(n: Node): set<NodeKind>
  {
    match n
    case Root(_) => {NamespaceKind, RootKind}
    case Namespace(_, _) => {NamespaceKind}
    case Type(_, _, _, _, _, _) => {NamespaceKind, TypeKind}
    case Field(_, _, _, _, _) => {FieldKind}
    case MapField(_, _, _, _) => {FieldKind, MapFieldKind}
    case OneOf(_, _) => {OneOfKind}
    case Enum(_, _) => {EnumKind}
    case Service(_, _, _) => {NamespaceKind, ServiceKind}
    case Method(_, _, _, _, _, _, _) => {MethodKind}
  }

  predicate IsNamespace(n: Node)
  {
    n.Root? || n.Namespace? || n.Type? || n.Service?
  }

  /** The name of a reflection object; the root's is empty. */
  function NameOf(n: Node): string
  {
    if n.Root? then "" else n.name
  }

  /** `nestedArray`: the children a namespace holds besides fields, oneofs and methods. */
  function Nested(n: Node): (r: seq<Node>)
    ensures !IsNamespace(n) ==> r == []
  {
    if IsNamespace(n) then n.nested else []
  }

  /** `add` on a namespace, for children that go to `nested`: appended after the existing ones. */
  function AddNested(ns: Node, items: seq<Node>): (r: Node)
    requires IsNamespace(ns)
    ensures IsNamespace(r) && Kinds(r) == Kinds(ns) && NameOf(r) == NameOf(ns)
    ensures Nested(r) == Nested(ns) + items
  {
    ns.(nested := ns.nested + items)
  }

  /** Adding two runs of children one after the other is adding them together. */
  lemma AddNestedAppend(ns: Node, a: seq<Node>, b: seq<Node>)
    requires IsNamespace(ns)
    ensures AddNested(AddNested(ns, a), b) == AddNested(ns, a + b)
  {
    assert ns.nested + a + b == ns.nested + (a + b);
  }
}
