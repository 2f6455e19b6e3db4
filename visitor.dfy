/**
 * The visitor framework and the post-processing passes over a reflection tree.
 *
 * A visitor's callbacks are observed through the calls they receive: `Visit`
 * gives, for a tree whose shape the callbacks leave alone, the sequence of
 * callback invocations `visit` makes. The passes that do change the tree are
 * given by the tree they produce.
 */
module Visitors {
  import opened Results
  import opened Reflection

  // ------------------------------------------------------------- visitors

  /** One callback invocation: which plain visitor ran, which callback, on which object. */
  datatype Call = Call(visitor: nat, kind: NodeKind, target: Node)

  /**
   * A visitor object: a plain object carrying some of the nine callbacks
   * (named by `id`), a VisitorWrapper around another visitor, or a
   * CompositeVisitor over a list of visitors.
   */
  datatype Visitor =
    | Plain(id: nat, callbacks: set<NodeKind>)
    | Wrapper(inner: Visitor)
    | Composite(members: seq<Visitor>)

  /** Whether `v` has callback `k`; a wrapper and a composite have all nine. */
  predicate Defines(v: Visitor, k: NodeKind)
  {
    v.Plain? ==> k in v.callbacks
  }

  /** `wrapVisitor`. */
  function Wrap(v: Visitor): (w: Visitor)
    ensures w.Wrapper?
  {
    if v.Wrapper? then v else Wrapper(v)
  }

  /** `wrapVisitor` returns a wrapper unchanged, so wrapping twice is wrapping once. */
  lemma WrapIdempotent(v: Visitor)
    ensures Wrap(Wrap(v)) == Wrap(v)
    ensures v.Wrapper? ==> Wrap(v) == v
  {
  }

  /** The calls made when callback `k` of `v` is invoked on `n`. */
  function Invoke(v: Visitor, k: NodeKind, n: Node): seq<Call>
    requires Defines(v, k)
    decreases v
  {
    match v
    case Plain(id, _) => [Call(id, k, n)]
    case Wrapper(inner) => if Defines(inner, k) then Invoke(inner, k, n) else []
    case Composite(members) => InvokeAll(members, k, n)
  }

  /** A composite's `forEach`: each member's callback in turn. */
  function InvokeAll(ms: seq<Visitor>, k: NodeKind, n: Node): seq<Call>
    decreases ms
  {
    if ms == [] then []
    else InvokeAll(ms[..|ms| - 1], k, n) + if Defines(ms[|ms| - 1], k) then Invoke(ms[|ms| - 1], k, n) else []
  }

  /** A wrapper forwards a callback its visitor has and drops one it lacks. */
  lemma WrapperForwards(id: nat, callbacks: set<NodeKind>, k: NodeKind, n: Node)
    ensures Invoke(Wrap(Plain(id, callbacks)), k, n) == if k in callbacks then [Call(id, k, n)] else []
  {
  }

  /** The members of a composite run in the order they were added, one after the other. */
  lemma {:induction false} InvokeAllAppend(a: seq<Visitor>, b: seq<Visitor>, k: NodeKind, n: Node)
    ensures InvokeAll(a + b, k, n) == InvokeAll(a, k, n) + InvokeAll(b, k, n)
  {
    if b == [] {
      assert a + b == a;
    } else {
      var init := b[..|b| - 1];
      assert (a + b)[..|a + b| - 1] == a + init;
      assert (a + b)[|a + b| - 1] == b[|b| - 1];
      InvokeAllAppend(a, init, k, n);
    }
  }

  /** A composite of one wrapped visitor makes exactly that visitor's calls. */
  lemma SingleComposite(v: Visitor, k: NodeKind, n: Node)
    ensures Invoke(Wrap(Composite([Wrap(v)])), k, n) == Invoke(Wrap(v), k, n)
  {
    var ms := [Wrap(v)];
    assert ms[..0] == [] && ms[0] == Wrap(v);
    assert Invoke(Wrap(Composite(ms)), k, n) == InvokeAll(ms, k, n);
    assert InvokeAll(ms, k, n) == InvokeAll(ms[..0], k, n) + Invoke(Wrap(v), k, n);
  }

  // ---------------------------------------------------------------- visit

  /** The call `visit` makes for kind `k` when the object is of that kind. */
  function CallIf(w: Visitor, k: NodeKind, n: Node): seq<Call>
    requires w.Wrapper?
  {
    if k in Kinds(n) then Invoke(w, k, n) else []
  }

  /** The callbacks `visit` makes before its namespace test: enum, field, mapField, method. */
  function LeafCalls(w: Visitor, n: Node): seq<Call>
    requires w.Wrapper?
  {
    CallIf(w, EnumKind, n) + CallIf(w, FieldKind, n) + CallIf(w, MapFieldKind, n) + CallIf(w, MethodKind, n)
  }

  /**
   * `visit`: the kind tests in their fixed order, with the namespace's
   * children visited right after its namespace callback, a service's methods
   * after its service callback and a type's fields and oneofs after its type
   * callback.
   */
  function Visit(n: Node, v: Visitor): seq<Call>
    decreases n, 2
  {
    LeafCalls(Wrap(v), n) + NamespaceCalls(n, v) + CallIf(Wrap(v), RootKind, n) + CallIf(Wrap(v), OneOfKind, n) +
    ServiceCalls(n, v) + TypeCalls(n, v)
  }

  /** The namespace test (`IsNamespace` is `NamespaceKind in Kinds(n)`): its callback, then every nested object. */
  function NamespaceCalls(n: Node, v: Visitor): seq<Call>
    decreases n, 1
  {
    if IsNamespace(n) then Invoke(Wrap(v), NamespaceKind, n) + VisitAll(n.nested, v) else []
  }

  /** The service test: its callback, then every method. */
  function ServiceCalls(n: Node, v: Visitor): seq<Call>
    decreases n, 1
  {
    if n.Service? then Invoke(Wrap(v), ServiceKind, n) + VisitAll(n.methods, v) else []
  }

  /** The type test: its callback, then every field, then every oneof. */
  function TypeCalls(n: Node, v: Visitor): seq<Call>
    decreases n, 1
  {
    if n.Type? then Invoke(Wrap(v), TypeKind, n) + VisitAll(n.fields, v) + VisitAll(n.oneofs, v) else []
  }

  /** A `forEach` over children: each child visited in turn. */
  function VisitAll(ns: seq<Node>, v: Visitor): seq<Call>
    decreases ns
  {
    if ns == [] then [] else VisitAll(ns[..|ns| - 1], v) + Visit(ns[|ns| - 1], v)
  }

  /** The six parts `visit` concatenates, whatever the object. */
  lemma VisitParts(n: Node, v: Visitor)
    ensures Visit(n, v) == LeafCalls(Wrap(v), n) + NamespaceCalls(n, v) + CallIf(Wrap(v), RootKind, n) +
      CallIf(Wrap(v), OneOfKind, n) + ServiceCalls(n, v) + TypeCalls(n, v)
  {
  }

  /** Empty parts drop out of a six-part concatenation. */
  lemma DropEmpty(a: seq<Call>, b: seq<Call>, c: seq<Call>, d: seq<Call>, e: seq<Call>, f: seq<Call>)
    ensures a == [] && c == [] && d == [] && e == [] ==> a + b + c + d + e + f == b + f
    ensures a == [] && c == [] && d == [] && f == [] ==> a + b + c + d + e + f == b + e
    ensures a == [] && d == [] && e == [] && f == [] ==> a + b + c + d + e + f == b + c
    ensures a == [] && c == [] && d == [] && e == [] && f == [] ==> a + b + c + d + e + f == b
  {
  }

  lemma VisitType(n: Node, v: Visitor)
    requires n.Type?
    ensures Visit(n, v) ==
      Invoke(Wrap(v), NamespaceKind, n) + VisitAll(n.nested, v) +
      Invoke(Wrap(v), TypeKind, n) + VisitAll(n.fields, v) + VisitAll(n.oneofs, v)
  {
    var w := Wrap(v);
    var a, b, c, d, e, f := LeafCalls(w, n), NamespaceCalls(n, v), CallIf(w, RootKind, n), CallIf(w, OneOfKind, n),
      ServiceCalls(n, v), TypeCalls(n, v);
    VisitParts(n, v);
    assert a == [] && c == [] && d == [] && e == [];
    DropEmpty(a, b, c, d, e, f);
  }

  /** A Service gets its namespace callback, its nested objects, its service callback, its methods. */
  lemma VisitService(n: Node, v: Visitor)
    requires n.Service?
    ensures Visit(n, v) ==
      Invoke(Wrap(v), NamespaceKind, n) + VisitAll(n.nested, v) + Invoke(Wrap(v), ServiceKind, n) + VisitAll(n.methods, v)
  {
    var w := Wrap(v);
    var a, b, c, d, e, f := LeafCalls(w, n), NamespaceCalls(n, v), CallIf(w, RootKind, n), CallIf(w, OneOfKind, n),
      ServiceCalls(n, v), TypeCalls(n, v);
    VisitParts(n, v);
    assert a == [] && c == [] && d == [] && f == [];
    DropEmpty(a, b, c, d, e, f);
  }

  /** The root gets its namespace callback, its nested objects, then its root callback. */
  lemma VisitRoot(n: Node, v: Visitor)
    requires n.Root?
    ensures Visit(n, v) == Invoke(Wrap(v), NamespaceKind, n) + VisitAll(n.nested, v) + Invoke(Wrap(v), RootKind, n)
  {
    var w := Wrap(v);
    var a, b, c, d, e, f := LeafCalls(w, n), NamespaceCalls(n, v), CallIf(w, RootKind, n), CallIf(w, OneOfKind, n),
      ServiceCalls(n, v), TypeCalls(n, v);
    VisitParts(n, v);
    assert a == [] && d == [] && e == [] && f == [];
    DropEmpty(a, b, c, d, e, f);
  }

  /** A plain namespace gets its namespace callback, then its nested objects. */
  lemma VisitNamespace(n: Node, v: Visitor)
    requires n.Namespace?
    ensures Visit(n, v) == Invoke(Wrap(v), NamespaceKind, n) + VisitAll(n.nested, v)
  {
    var w := Wrap(v);
    var a, b, c, d, e, f := LeafCalls(w, n), NamespaceCalls(n, v), CallIf(w, RootKind, n), CallIf(w, OneOfKind, n),
      ServiceCalls(n, v), TypeCalls(n, v);
    VisitParts(n, v);
    assert a == [] && c == [] && d == [] && e == [] && f == [];
    DropEmpty(a, b, c, d, e, f);
  }

  /** An enum, a oneof and a method each get their one callback. */
  lemma VisitLeaf(n: Node, v: Visitor)
    requires n.Enum? || n.OneOf? || n.Method?
    ensures n.Enum? ==> Visit(n, v) == Invoke(Wrap(v), EnumKind, n)
    ensures n.OneOf? ==> Visit(n, v) == Invoke(Wrap(v), OneOfKind, n)
    ensures n.Method? ==> Visit(n, v) == Invoke(Wrap(v), MethodKind, n)
  {
  }

  /** A MapField gets the field callback, then the mapField callback; a plain Field only the first. */
  lemma VisitFieldKinds(n: Node, v: Visitor)
    requires n.Field? || n.MapField?
    ensures n.MapField? ==> Visit(n, v) == Invoke(Wrap(v), FieldKind, n) + Invoke(Wrap(v), MapFieldKind, n)
    ensures n.Field? ==> Visit(n, v) == Invoke(Wrap(v), FieldKind, n)
  {
  }

  /** How many objects of kind `k` the tree holds among what `visit` reaches. */
  function CountKind(n: Node, k: NodeKind): nat
    decreases n
  {
    (if k in Kinds(n) then 1 else 0) +
    (if IsNamespace(n) then CountAll(n.nested, k) else 0) +
    (if n.Service? then CountAll(n.methods, k) else 0) +
    (if n.Type? then CountAll(n.fields, k) + CountAll(n.oneofs, k) else 0)
  }

  function CountAll(ns: seq<Node>, k: NodeKind): nat
    decreases ns
  {
    if ns == [] then 0 else CountAll(ns[..|ns| - 1], k) + CountKind(ns[|ns| - 1], k)
  }

  /** Every object is reached once: a visitor with the single callback `k` receives one call per object of kind `k`. */
  lemma {:induction false} VisitReachesEach(n: Node, id: nat, k: NodeKind)
    ensures |Visit(n, Plain(id, {k}))| == CountKind(n, k)
    decreases n, 1
  {
    match n
    case Root(nested) =>
      VisitAllReachesEach(nested, id, k);
      RootReachesEach(n, id, k);
    case Namespace(_, nested) =>
      VisitAllReachesEach(nested, id, k);
      NamespaceReachesEach(n, id, k);
    case Type(_, _, fields, oneofs, nested, _) =>
      VisitAllReachesEach(nested, id, k);
      VisitAllReachesEach(fields, id, k);
      VisitAllReachesEach(oneofs, id, k);
      TypeReachesEach(n, id, k);
    case Service(_, methods, nested) =>
      VisitAllReachesEach(nested, id, k);
      VisitAllReachesEach(methods, id, k);
      ServiceReachesEach(n, id, k);
    case _ => LeafReachesEach(n, id, k);
  }

  lemma RootReachesEach(n: Node, id: nat, k: NodeKind)
    requires n.Root? && |VisitAll(n.nested, Plain(id, {k}))| == CountAll(n.nested, k)
    ensures |Visit(n, Plain(id, {k}))| == CountKind(n, k)
  {
    VisitRoot(n, Plain(id, {k}));
    WrapperForwards(id, {k}, NamespaceKind, n);
    WrapperForwards(id, {k}, RootKind, n);
  }

  lemma NamespaceReachesEach(n: Node, id: nat, k: NodeKind)
    requires n.Namespace? && |VisitAll(n.nested, Plain(id, {k}))| == CountAll(n.nested, k)
    ensures |Visit(n, Plain(id, {k}))| == CountKind(n, k)
  {
    VisitNamespace(n, Plain(id, {k}));
    WrapperForwards(id, {k}, NamespaceKind, n);
  }

  lemma TypeReachesEach(n: Node, id: nat, k: NodeKind)
    requires n.Type? && |VisitAll(n.nested, Plain(id, {k}))| == CountAll(n.nested, k)
    requires |VisitAll(n.fields, Plain(id, {k}))| == CountAll(n.fields, k)
    requires |VisitAll(n.oneofs, Plain(id, {k}))| == CountAll(n.oneofs, k)
    ensures |Visit(n, Plain(id, {k}))| == CountKind(n, k)
  {
    VisitType(n, Plain(id, {k}));
    WrapperForwards(id, {k}, NamespaceKind, n);
    WrapperForwards(id, {k}, TypeKind, n);
  }

  lemma ServiceReachesEach(n: Node, id: nat, k: NodeKind)
    requires n.Service? && |VisitAll(n.nested, Plain(id, {k}))| == CountAll(n.nested, k)
    requires |VisitAll(n.methods, Plain(id, {k}))| == CountAll(n.methods, k)
    ensures |Visit(n, Plain(id, {k}))| == CountKind(n, k)
  {
    VisitService(n, Plain(id, {k}));
    WrapperForwards(id, {k}, NamespaceKind, n);
    WrapperForwards(id, {k}, ServiceKind, n);
  }

  lemma LeafReachesEach(n: Node, id: nat, k: NodeKind)
    requires !IsNamespace(n)
    ensures |Visit(n, Plain(id, {k}))| == CountKind(n, k)
  {
    var one := Plain(id, {k});
    match n
    case Field(_, _, _, _, _) =>
      VisitFieldKinds(n, one);
      WrapperForwards(id, {k}, FieldKind, n);
    case MapField(_, _, _, _) =>
      VisitFieldKinds(n, one);
      WrapperForwards(id, {k}, FieldKind, n);
      WrapperForwards(id, {k}, MapFieldKind, n);
    case Enum(_, _) =>
      VisitLeaf(n, one);
      WrapperForwards(id, {k}, EnumKind, n);
    case OneOf(_, _) =>
      VisitLeaf(n, one);
      WrapperForwards(id, {k}, OneOfKind, n);
    case Method(_, _, _, _, _, _, _) =>
      VisitLeaf(n, one);
      WrapperForwards(id, {k}, MethodKind, n);
  }

  lemma {:induction false} VisitAllReachesEach(ns: seq<Node>, id: nat, k: NodeKind)
    ensures |VisitAll(ns, Plain(id, {k}))| == CountAll(ns, k)
    decreases ns, 0
  {
    if ns != [] {
      VisitAllReachesEach(ns[..|ns| - 1], id, k);
      VisitReachesEach(ns[|ns| - 1], id, k);
    }
  }

  /** A visitor without callbacks receives no call at all. */
  lemma {:induction false} VisitSilent(n: Node, id: nat)
    ensures Visit(n, Plain(id, {})) == []
    decreases n, 1
  {
    var none := Plain(id, {});
    forall k' | true
      ensures Invoke(Wrap(none), k', n) == []
    {
      WrapperForwards(id, {}, k', n);
    }
    if IsNamespace(n) {
      VisitAllSilent(n.nested, id);
    }
    if n.Service? {
      VisitAllSilent(n.methods, id);
    }
    if n.Type? {
      VisitAllSilent(n.fields, id);
      VisitAllSilent(n.oneofs, id);
    }
  }

  lemma {:induction false} VisitAllSilent(ns: seq<Node>, id: nat)
    ensures VisitAll(ns, Plain(id, {})) == []
    decreases ns, 0
  {
    if ns != [] {
      VisitAllSilent(ns[..|ns| - 1], id);
      VisitSilent(ns[|ns| - 1], id);
    }
  }

  /** Visitors that answer every callback alike produce the same visit. */
  lemma {:induction false} SameCallsSameVisit(n: Node, v: Visitor, u: Visitor)
    requires forall k, m :: Invoke(Wrap(v), k, m) == Invoke(Wrap(u), k, m)
    ensures Visit(n, v) == Visit(n, u)
    decreases n, 1
  {
    if IsNamespace(n) {
      SameCallsSameVisitAll(n.nested, v, u);
    }
    if n.Service? {
      SameCallsSameVisitAll(n.methods, v, u);
    }
    if n.Type? {
      SameCallsSameVisitAll(n.fields, v, u);
      SameCallsSameVisitAll(n.oneofs, v, u);
    }
  }

  lemma {:induction false} SameCallsSameVisitAll(ns: seq<Node>, v: Visitor, u: Visitor)
    requires forall k, m :: Invoke(Wrap(v), k, m) == Invoke(Wrap(u), k, m)
    ensures VisitAll(ns, v) == VisitAll(ns, u)
    decreases ns, 0
  {
    if ns != [] {
      SameCallsSameVisitAll(ns[..|ns| - 1], v, u);
      SameCallsSameVisit(ns[|ns| - 1], v, u);
    }
  }

  /** Visiting with a composite of one visitor is visiting with that visitor. */
  lemma SingleCompositeVisit(n: Node, v: Visitor)
    ensures Visit(n, Composite([Wrap(v)])) == Visit(n, v)
  {
    forall k, m
      ensures Invoke(Wrap(Composite([Wrap(v)])), k, m) == Invoke(Wrap(v), k, m)
    {
      SingleComposite(v, k, m);
    }
    SameCallsSameVisit(n, Composite([Wrap(v)]), v);
  }

  /** `visit`, recursing over each child list with a loop. */
  method VisitNode(n: Node, v: Visitor) returns (calls: seq<Call>)
    decreases n
    ensures calls == Visit(n, v)
  {
    var w := Wrap(v);
    var namespace: seq<Call> := [];
    if IsNamespace(n) {
      var nested := VisitChildren(n.nested, v);
      namespace := Invoke(w, NamespaceKind, n) + nested;
    }
    var service: seq<Call> := [];
    if n.Service? {
      var methods := VisitChildren(n.methods, v);
      service := Invoke(w, ServiceKind, n) + methods;
    }
    var typeCalls: seq<Call> := [];
    if n.Type? {
      var fields := VisitChildren(n.fields, v);
      var oneofs := VisitChildren(n.oneofs, v);
      typeCalls := Invoke(w, TypeKind, n) + fields + oneofs;
    }
    calls := LeafCalls(w, n) + namespace + CallIf(w, RootKind, n) + CallIf(w, OneOfKind, n) + service + typeCalls;
  }

  method VisitChildren(ns: seq<Node>, v: Visitor) returns (calls: seq<Call>)
    decreases ns
    ensures calls == VisitAll(ns, v)
  {
    calls := [];
    for i := 0 to |ns|
      invariant calls == VisitAll(ns[..i], v)
    {
      var c := VisitNode(ns[i], v);
      calls := calls + c;
      assert ns[..i + 1][..i] == ns[..i];
    }
    assert ns[..|ns|] == ns;
  }

  /** `CompositeVisitor`: a list of wrapped visitors, each callback fanned out in order. */
  class CompositeVisitor {
    var visitors: seq<Visitor>

    ghost predicate Valid()
      reads this
    {
      forall i :: 0 <= i < |visitors| ==> visitors[i].Wrapper?
    }

    constructor()
      ensures Valid() && visitors == []
    {
      visitors := [];
    }

    /** `add`: the visitor, wrapped, goes after the ones added before. */
    method Add(v: Visitor)
      requires Valid()
      modifies this
      ensures Valid()
      ensures visitors == old(visitors) + [Wrap(v)]
    {
      visitors := visitors + [Wrap(v)];
    }

    /** The composite as a visitor value. */
    function AsVisitor(): Visitor
      reads this
    {
      Composite(visitors)
    }

    /** One callback of the composite: the `forEach` over its visitors. */
    method Callback(k: NodeKind, n: Node) returns (calls: seq<Call>)
      ensures calls == Invoke(Composite(visitors), k, n)
    {
      calls := [];
      for i := 0 to |visitors|
        invariant calls == InvokeAll(visitors[..i], k, n)
      {
        var o := visitors[i];
        if Defines(o, k) {
          calls := calls + Invoke(o, k, n);
        }
        assert visitors[..i + 1][..i] == visitors[..i];
      }
      assert visitors[..|visitors|] == visitors;
    }
  }

  // --------------------------------------------------- resolveTypesVisitor

  /** A field's type after `resolveTypesVisitor`: the resolved full name when resolution found one. */
  function ResolveFieldType(f: Node): (r: Node)
    ensures f.Field? && f.resolved.Some? ==> r == f.(fieldType := f.resolved.value.fullName)
    ensures !(f.Field? && f.resolved.Some?) ==> r == f
  {
    if f.Field? && f.resolved.Some? then f.(fieldType := f.resolved.value.fullName) else f
  }

  /** A method's request and response types after `resolveTypesVisitor`. */
  function ResolveMethodTypes(m: Node): (r: Node)
    requires m.Method?
    ensures r.Method? && r.name == m.name && r.resolvedRequest == m.resolvedRequest && r.resolvedResponse == m.resolvedResponse
    ensures r.requestType == if m.resolvedRequest.Some? then m.resolvedRequest.value else m.requestType
    ensures r.responseType == if m.resolvedResponse.Some? then m.resolvedResponse.value else m.responseType
  {
    m.(requestType := if m.resolvedRequest.Some? then m.resolvedRequest.value else m.requestType,
       responseType := if m.resolvedResponse.Some? then m.resolvedResponse.value else m.responseType)
  }

  function ResolveFieldTypes(fs: seq<Node>): seq<Node>
  {
    if fs == [] then [] else ResolveFieldTypes(fs[..|fs| - 1]) + [ResolveFieldType(fs[|fs| - 1])]
  }

  /** The `type` callback of `resolveTypesVisitor`: the loop over the type's fields. */
  method ResolveTypesInType(fields: seq<Node>) returns (r: seq<Node>)
    ensures r == ResolveFieldTypes(fields)
  {
    r := [];
    for i := 0 to |fields|
      invariant r == ResolveFieldTypes(fields[..i])
    {
      var field := fields[i];
      if field.Field? && field.resolved.Some? {
        field := field.(fieldType := field.resolved.value.fullName);
      }
      r := r + [field];
      assert fields[..i + 1][..i] == fields[..i];
    }
    assert fields[..|fields|] == fields;
  }

  /** The tree after `visit(root, resolveTypesVisitor)`. */
  function ResolveTypes(n: Node): Node
    decreases n
  {
    match n
    case Root(nested) => Root(ResolveTypesAll(nested))
    case Namespace(name, nested) => Namespace(name, ResolveTypesAll(nested))
    case Type(name, options, fields, oneofs, nested, reserved) =>
      Type(name, options, ResolveFieldTypes(fields), oneofs, ResolveTypesAll(nested), reserved)
    case Service(name, methods, nested) => Service(name, ResolveTypesAll(methods), ResolveTypesAll(nested))
    case Method(_, _, _, _, _, _, _) => ResolveMethodTypes(n)
    case _ => n
  }

  function ResolveTypesAll(ns: seq<Node>): seq<Node>
    decreases ns
  {
    if ns == [] then [] else ResolveTypesAll(ns[..|ns| - 1]) + [ResolveTypes(ns[|ns| - 1])]
  }

  lemma {:induction false} ResolveFieldTypesTwice(fs: seq<Node>)
    ensures ResolveFieldTypes(ResolveFieldTypes(fs)) == ResolveFieldTypes(fs)
  {
    if fs != [] {
      var init := fs[..|fs| - 1];
      ResolveFieldTypesTwice(init);
      var once := ResolveFieldTypes(fs);
      assert once[..|once| - 1] == ResolveFieldTypes(init);
    }
  }

  /** Resolving types a second time changes nothing. */
  lemma {:induction false} ResolveTypesIdempotent(n: Node)
    ensures ResolveTypes(ResolveTypes(n)) == ResolveTypes(n)
    decreases n, 1
  {
    match n
    case Root(nested) => ResolveTypesAllIdempotent(nested);
    case Namespace(_, nested) => ResolveTypesAllIdempotent(nested);
    case Type(_, _, fields, _, nested, _) =>
      ResolveFieldTypesTwice(fields);
      ResolveTypesAllIdempotent(nested);
      ResolveTypeNodeTwice(n);
    case Service(_, methods, nested) =>
      ResolveTypesAllIdempotent(methods);
      ResolveTypesAllIdempotent(nested);
      ResolveServiceNodeTwice(n);
    case Method(_, _, _, _, _, _, _) =>
      var once := ResolveMethodTypes(n);
      assert ResolveTypes(once) == ResolveMethodTypes(once) == once;
    case _ =>
  }

  lemma ResolveTypeNodeTwice(n: Node)
    requires n.Type?
    requires ResolveFieldTypes(ResolveFieldTypes(n.fields)) == ResolveFieldTypes(n.fields)
    requires ResolveTypesAll(ResolveTypesAll(n.nested)) == ResolveTypesAll(n.nested)
    ensures ResolveTypes(ResolveTypes(n)) == ResolveTypes(n)
  {
    var once := n.(fields := ResolveFieldTypes(n.fields), nested := ResolveTypesAll(n.nested));
    assert ResolveTypes(n) == once;
    assert ResolveTypes(once) == once.(fields := ResolveFieldTypes(once.fields), nested := ResolveTypesAll(once.nested));
  }

  lemma ResolveServiceNodeTwice(n: Node)
    requires n.Service?
    requires ResolveTypesAll(ResolveTypesAll(n.methods)) == ResolveTypesAll(n.methods)
    requires ResolveTypesAll(ResolveTypesAll(n.nested)) == ResolveTypesAll(n.nested)
    ensures ResolveTypes(ResolveTypes(n)) == ResolveTypes(n)
  {
    var once := n.(methods := ResolveTypesAll(n.methods), nested := ResolveTypesAll(n.nested));
    assert ResolveTypes(n) == once;
    assert ResolveTypes(once) == once.(methods := ResolveTypesAll(once.methods), nested := ResolveTypesAll(once.nested));
  }

  lemma {:induction false} ResolveTypesAllIdempotent(ns: seq<Node>)
    ensures ResolveTypesAll(ResolveTypesAll(ns)) == ResolveTypesAll(ns)
    decreases ns, 0
  {
    if ns != [] {
      var init := ns[..|ns| - 1];
      ResolveTypesAllIdempotent(init);
      ResolveTypesIdempotent(ns[|ns| - 1]);
      var once := ResolveTypesAll(ns);
      assert once[..|once| - 1] == ResolveTypesAll(init);
    }
  }

  /** A field whose resolution found a type carries that type's full name. */
  predicate FieldResolved(f: Node)
  {
    f.Field? && f.resolved.Some? ==> f.fieldType == f.resolved.value.fullName
  }

  predicate FieldsResolved(fs: seq<Node>)
  {
    forall i :: 0 <= i < |fs| ==> FieldResolved(fs[i])
  }

  /** Every field and method of the tree names the types its resolution found. */
  predicate TypesResolved(n: Node)
    decreases n
  {
    match n
    case Root(nested) => TypesResolvedAll(nested)
    case Namespace(_, nested) => TypesResolvedAll(nested)
    case Type(_, _, fields, _, nested, _) => FieldsResolved(fields) && TypesResolvedAll(nested)
    case Service(_, methods, nested) => TypesResolvedAll(methods) && TypesResolvedAll(nested)
    case Method(_, request, response, _, _, resolvedRequest, resolvedResponse) =>
      (resolvedRequest.Some? ==> request == resolvedRequest.value) &&
      (resolvedResponse.Some? ==> response == resolvedResponse.value)
    case _ => true
  }

  predicate TypesResolvedAll(ns: seq<Node>)
    decreases ns
  {
    ns == [] || (TypesResolvedAll(ns[..|ns| - 1]) && TypesResolved(ns[|ns| - 1]))
  }

  /** A field with the type name its resolution would overwrite blanked out. */
  function EraseField(f: Node): Node
  {
    if f.Field? && f.resolved.Some? then f.(fieldType := "") else f
  }

  function EraseFields(fs: seq<Node>): (r: seq<Node>)
    ensures |r| == |fs|
  {
    seq(|fs|, i requires 0 <= i < |fs| => EraseField(fs[i]))
  }

  /** The tree with every type name that resolution would overwrite blanked out, and all else kept. */
  function EraseTypes(n: Node): Node
    decreases n
  {
    match n
    case Root(nested) => Root(EraseTypesAll(nested))
    case Namespace(name, nested) => Namespace(name, EraseTypesAll(nested))
    case Type(name, options, fields, oneofs, nested, reserved) =>
      Type(name, options, EraseFields(fields), oneofs, EraseTypesAll(nested), reserved)
    case Service(name, methods, nested) => Service(name, EraseTypesAll(methods), EraseTypesAll(nested))
    case Method(_, _, _, _, _, resolvedRequest, resolvedResponse) =>
      n.(requestType := if resolvedRequest.Some? then "" else n.requestType,
         responseType := if resolvedResponse.Some? then "" else n.responseType)
    case _ => n
  }

  function EraseTypesAll(ns: seq<Node>): seq<Node>
    decreases ns
  {
    if ns == [] then [] else EraseTypesAll(ns[..|ns| - 1]) + [EraseTypes(ns[|ns| - 1])]
  }

  /** The type callback treats each field on its own. */
  lemma {:induction false} ResolveFieldTypesAt(fs: seq<Node>)
    ensures |ResolveFieldTypes(fs)| == |fs|
    ensures forall i :: 0 <= i < |fs| ==> ResolveFieldTypes(fs)[i] == ResolveFieldType(fs[i])
  {
    if fs != [] {
      ResolveFieldTypesAt(fs[..|fs| - 1]);
    }
  }

  /**
   * On a type's fields the pass resolves every field there is a resolution
   * for, changes nothing else, and leaves fields already resolved alone.
   */
  lemma ResolveFieldTypesSpec(fs: seq<Node>)
    ensures FieldsResolved(ResolveFieldTypes(fs))
    ensures EraseFields(ResolveFieldTypes(fs)) == EraseFields(fs)
    ensures FieldsResolved(fs) ==> ResolveFieldTypes(fs) == fs
  {
    ResolveFieldTypesAt(fs);
    assert forall i :: 0 <= i < |fs| ==> EraseFields(ResolveFieldTypes(fs))[i] == EraseFields(fs)[i];
  }

  /** After the pass every field and method names the type its resolution found. */
  lemma {:induction false} ResolveTypesResolves(n: Node)
    ensures TypesResolved(ResolveTypes(n))
    decreases n, 1
  {
    match n
    case Root(nested) => ResolveTypesAllResolves(nested);
    case Namespace(_, nested) => ResolveTypesAllResolves(nested);
    case Type(_, _, fields, _, nested, _) =>
      ResolveFieldTypesSpec(fields);
      ResolveTypesAllResolves(nested);
    case Service(_, methods, nested) =>
      ResolveTypesAllResolves(methods);
      ResolveTypesAllResolves(nested);
    case _ =>
  }

  lemma {:induction false} ResolveTypesAllResolves(ns: seq<Node>)
    ensures TypesResolvedAll(ResolveTypesAll(ns))
    decreases ns, 0
  {
    if ns != [] {
      var init := ns[..|ns| - 1];
      ResolveTypesAllResolves(init);
      ResolveTypesResolves(ns[|ns| - 1]);
      var once := ResolveTypesAll(ns);
      assert once[..|once| - 1] == ResolveTypesAll(init);
    }
  }

  /** The pass changes type names resolution found, and nothing else in the tree. */
  lemma {:induction false} ResolveTypesKeepsRest(n: Node)
    ensures EraseTypes(ResolveTypes(n)) == EraseTypes(n)
    decreases n, 1
  {
    match n
    case Root(nested) => ResolveTypesAllKeepsRest(nested);
    case Namespace(_, nested) => ResolveTypesAllKeepsRest(nested);
    case Type(_, _, fields, _, nested, _) =>
      ResolveFieldTypesSpec(fields);
      ResolveTypesAllKeepsRest(nested);
    case Service(_, methods, nested) =>
      ResolveTypesAllKeepsRest(methods);
      ResolveTypesAllKeepsRest(nested);
    case _ =>
  }

  lemma {:induction false} ResolveTypesAllKeepsRest(ns: seq<Node>)
    ensures EraseTypesAll(ResolveTypesAll(ns)) == EraseTypesAll(ns)
    decreases ns, 0
  {
    if ns != [] {
      var init := ns[..|ns| - 1];
      ResolveTypesAllKeepsRest(init);
      ResolveTypesKeepsRest(ns[|ns| - 1]);
      var once := ResolveTypesAll(ns);
      assert once[..|once| - 1] == ResolveTypesAll(init);
    }
  }

  /** A tree whose names are already resolved is left exactly as it was. */
  lemma {:induction false} ResolvedTreeUnchanged(n: Node)
    requires TypesResolved(n)
    ensures ResolveTypes(n) == n
    decreases n, 1
  {
    match n
    case Root(nested) => ResolvedAllUnchanged(nested);
    case Namespace(_, nested) => ResolvedAllUnchanged(nested);
    case Type(_, _, fields, _, nested, _) =>
      ResolveFieldTypesSpec(fields);
      ResolvedAllUnchanged(nested);
    case Service(_, methods, nested) =>
      ResolvedAllUnchanged(methods);
      ResolvedAllUnchanged(nested);
    case _ =>
  }

  lemma {:induction false} ResolvedAllUnchanged(ns: seq<Node>)
    requires TypesResolvedAll(ns)
    ensures ResolveTypesAll(ns) == ns
    decreases ns, 0
  {
    if ns != [] {
      var init := ns[..|ns| - 1];
      ResolvedAllUnchanged(init);
      ResolvedTreeUnchanged(ns[|ns| - 1]);
      assert ns == init + [ns[|ns| - 1]];
    }
  }

  /** The pass leaves a tree unchanged exactly when its names are already resolved. */
  lemma ResolveTypesFixpoint(n: Node)
    ensures ResolveTypes(n) == n <==> TypesResolved(n)
  {
    ResolveTypesResolves(n);
    if TypesResolved(n) {
      ResolvedTreeUnchanged(n);
    }
  }

  // ---------------------------------------------------- resolveMapsVisitor

  /** A field whose resolved type is a Type with a truthy `map_entry` option. */
  predicate MapEntryTyped(f: Node)
  {
    f.Field? && f.resolved.Some? && f.resolved.value.ResolvedType? && IsMapEntry(f.resolved.value.options)
  }

  /** A map-entry-typed field whose entry type has both its key (1) and its value (2) field. */
  predicate Collapsible(f: Node)
  {
    MapEntryTyped(f) && 1 in f.resolved.value.fieldsById && 2 in f.resolved.value.fieldsById
  }

  /** The type a MapField takes from an entry field: its resolved full name, else its declared type. */
  function TypeOfRef(r: FieldRef): string
  {
    if r.resolvedName.Some? then r.resolvedName.value else r.fieldType
  }

  function MapFieldOf(f: Node): (m: Node)
    requires Collapsible(f)
    ensures m.MapField? && m.name == f.name && m.id == f.id
    ensures m.keyType == TypeOfRef(f.resolved.value.fieldsById[1])
    ensures m.valueType == TypeOfRef(f.resolved.value.fieldsById[2])
  {
    MapField(f.name, f.id, TypeOfRef(f.resolved.value.fieldsById[1]), TypeOfRef(f.resolved.value.fieldsById[2]))
  }

  /**
   * The MapField that replaces a collapsible field is still a Field to the
   * visitor, now also a MapField, under the same name, and is not collapsed again.
   */
  lemma MapFieldOfShape(f: Node)
    requires Collapsible(f)
    ensures Kinds(MapFieldOf(f)) == Kinds(f) + {MapFieldKind}
    ensures NameOf(MapFieldOf(f)) == NameOf(f)
    ensures !MapEntryTyped(MapFieldOf(f)) && !Collapsible(MapFieldOf(f))
  {
  }

  /** What goes wrong when a property of `undefined` is read. */
  datatype Fault = UndefinedDereference

  /**
   * The `field` callback as written, for a map-entry-typed field: the key and
   * value fields are dereferenced before the guard that tests them.
   */
  function MapFieldAsWritten(f: Node): Result<Node, Fault>
    requires MapEntryTyped(f)
  {
    var byId := f.resolved.value.fieldsById;
    if 1 !in byId then Err(UndefinedDereference)
    else if 2 !in byId then Err(UndefinedDereference)
    else Ok(MapField(f.name, f.id, TypeOfRef(byId[1]), TypeOfRef(byId[2])))
  }

  /** Where the entry type has both fields, the code as written and the corrected pass agree. */
  lemma MapFieldAsWrittenAgrees(f: Node)
    requires MapEntryTyped(f)
    ensures MapFieldAsWritten(f).Ok? <==> Collapsible(f)
    ensures Collapsible(f) ==> MapFieldAsWritten(f) == Ok(MapFieldOf(f))
  {
  }

  /** An entry type without a value field makes the code as written fail instead of skipping the field. */
  lemma MissingValueFieldFails()
    ensures MapEntryTyped(Field("tags", 3, ".pkg.TagsEntry", Keyword("repeated"),
      Some(ResolvedType(".pkg.TagsEntry", Some(map["map_entry" := OBool(true)]), map[1 := FieldRef("string", None)]))))
    ensures MapFieldAsWritten(Field("tags", 3, ".pkg.TagsEntry", Keyword("repeated"),
      Some(ResolvedType(".pkg.TagsEntry", Some(map["map_entry" := OBool(true)]), map[1 := FieldRef("string", None)]))))
      == Err(UndefinedDereference)
    ensures !Collapsible(Field("tags", 3, ".pkg.TagsEntry", Keyword("repeated"),
      Some(ResolvedType(".pkg.TagsEntry", Some(map["map_entry" := OBool(true)]), map[1 := FieldRef("string", None)]))))
  {
  }

  /** The fields a collapsing pass keeps, in their order. */
  function KeptFields(fs: seq<Node>): seq<Node>
  {
    if fs == [] then [] else KeptFields(fs[..|fs| - 1]) + if Collapsible(fs[|fs| - 1]) then [] else [fs[|fs| - 1]]
  }

  /** The MapFields that replace the collapsible fields, in the order they were added. */
  function AddedMapFields(fs: seq<Node>): seq<Node>
  {
    if fs == [] then [] else AddedMapFields(fs[..|fs| - 1]) + if Collapsible(fs[|fs| - 1]) then [MapFieldOf(fs[|fs| - 1])] else []
  }

  /**
   * A type's fields after each collapsible field was removed and its
   * MapField added: the remaining fields, then the new MapFields.
   */
  function CollapseFields(fs: seq<Node>): seq<Node>
  {
    KeptFields(fs) + AddedMapFields(fs)
  }

  lemma {:induction false} KeptFieldsNotCollapsible(fs: seq<Node>)
    ensures forall i :: 0 <= i < |KeptFields(fs)| ==> !Collapsible(KeptFields(fs)[i]) && KeptFields(fs)[i] in fs
    ensures forall i :: 0 <= i < |AddedMapFields(fs)| ==> AddedMapFields(fs)[i].MapField?
    ensures |KeptFields(fs)| + |AddedMapFields(fs)| == |fs|
  {
    if fs != [] {
      KeptFieldsNotCollapsible(fs[..|fs| - 1]);
    }
  }

  /**
   * With the guard first, a field over an entry type that lacks its key or
   * value field stays among the type's fields, unchanged.
   */
  lemma {:induction false} IncompleteEntryKept(fs: seq<Node>, f: Node)
    requires f in fs && !Collapsible(f)
    ensures f in KeptFields(fs) && f in CollapseFields(fs)
  {
    var init := fs[..|fs| - 1];
    assert fs == init + [fs[|fs| - 1]];
    if f != fs[|fs| - 1] {
      assert f in init;
      IncompleteEntryKept(init, f);
    }
  }

  /** After the pass no field of the type is collapsible, and nothing is lost: one entry per field. */
  lemma CollapseFieldsDone(fs: seq<Node>)
    ensures forall i :: 0 <= i < |CollapseFields(fs)| ==> !Collapsible(CollapseFields(fs)[i])
    ensures |CollapseFields(fs)| == |fs|
  {
    KeptFieldsNotCollapsible(fs);
  }

  /** The tree after `visit(root, resolveMapsVisitor)`. */
  function ResolveMaps(n: Node): Node
    decreases n
  {
    match n
    case Root(nested) => Root(ResolveMapsAll(nested))
    case Namespace(name, nested) => Namespace(name, ResolveMapsAll(nested))
    case Type(name, options, fields, oneofs, nested, reserved) =>
      Type(name, options, CollapseFields(fields), oneofs, ResolveMapsAll(nested), reserved)
    case Service(name, methods, nested) => Service(name, methods, ResolveMapsAll(nested))
    case _ => n
  }

  function ResolveMapsAll(ns: seq<Node>): seq<Node>
    decreases ns
  {
    if ns == [] then [] else ResolveMapsAll(ns[..|ns| - 1]) + [ResolveMaps(ns[|ns| - 1])]
  }

  // ---------------------------------------------- removeMapEntriesVisitor

  predicate MapEntryType(n: Node)
  {
    n.Type? && IsMapEntry(n.options)
  }

  /** The tree after `visit(root, removeMapEntriesVisitor)`: every map-entry type dropped from its parent. */
  function RemoveMapEntries(n: Node): Node
    decreases n
  {
    match n
    case Root(nested) => Root(RemoveMapEntriesAll(nested))
    case Namespace(name, nested) => Namespace(name, RemoveMapEntriesAll(nested))
    case Type(name, options, fields, oneofs, nested, reserved) =>
      Type(name, options, fields, oneofs, RemoveMapEntriesAll(nested), reserved)
    case Service(name, methods, nested) => Service(name, methods, RemoveMapEntriesAll(nested))
    case _ => n
  }

  function RemoveMapEntriesAll(ns: seq<Node>): seq<Node>
    decreases ns
  {
    if ns == [] then []
    else RemoveMapEntriesAll(ns[..|ns| - 1]) + if MapEntryType(ns[|ns| - 1]) then [] else [RemoveMapEntries(ns[|ns| - 1])]
  }

  /** No map-entry type anywhere among the namespaces' children. */
  predicate NoMapEntries(n: Node)
    decreases n
  {
    match n
    case Root(nested) => NoMapEntriesAll(nested)
    case Namespace(_, nested) => NoMapEntriesAll(nested)
    case Type(_, _, _, _, nested, _) => NoMapEntriesAll(nested)
    case Service(_, _, nested) => NoMapEntriesAll(nested)
    case _ => true
  }

  predicate NoMapEntriesAll(ns: seq<Node>)
    decreases ns
  {
    ns == [] || (NoMapEntriesAll(ns[..|ns| - 1]) && !MapEntryType(ns[|ns| - 1]) && NoMapEntries(ns[|ns| - 1]))
  }

  /** After the pass no map-entry type is left at any depth. */
  lemma {:induction false} RemoveMapEntriesDone(n: Node)
    ensures NoMapEntries(RemoveMapEntries(n))
    decreases n, 1
  {
    if IsNamespace(n) {
      RemoveMapEntriesAllDone(n.nested);
    }
  }

  lemma {:induction false} RemoveMapEntriesAllDone(ns: seq<Node>)
    ensures NoMapEntriesAll(RemoveMapEntriesAll(ns))
    decreases ns, 0
  {
    if ns != [] {
      var init := ns[..|ns| - 1];
      RemoveMapEntriesAllDone(init);
      var last := ns[|ns| - 1];
      if !MapEntryType(last) {
        RemoveMapEntriesDone(last);
        assert RemoveMapEntriesAll(ns) == RemoveMapEntriesAll(init) + [RemoveMapEntries(last)];
        assert !MapEntryType(RemoveMapEntries(last));
        NoMapEntriesSnoc(RemoveMapEntriesAll(init), RemoveMapEntries(last));
      } else {
        assert RemoveMapEntriesAll(ns) == RemoveMapEntriesAll(init);
      }
    }
  }

  lemma NoMapEntriesSnoc(ns: seq<Node>, n: Node)
    requires NoMapEntriesAll(ns) && !MapEntryType(n) && NoMapEntries(n)
    ensures NoMapEntriesAll(ns + [n])
  {
    assert (ns + [n])[..|ns|] == ns;
  }

  /** A tree without map-entry types is left exactly as it was: other types are untouched. */
  lemma {:induction false} RemoveMapEntriesKeepsOthers(n: Node)
    requires NoMapEntries(n)
    ensures RemoveMapEntries(n) == n
    decreases n, 1
  {
    if IsNamespace(n) {
      RemoveMapEntriesAllKeepsOthers(n.nested);
    }
  }

  lemma {:induction false} RemoveMapEntriesAllKeepsOthers(ns: seq<Node>)
    requires NoMapEntriesAll(ns)
    ensures RemoveMapEntriesAll(ns) == ns
    decreases ns, 0
  {
    if ns != [] {
      RemoveMapEntriesAllKeepsOthers(ns[..|ns| - 1]);
      RemoveMapEntriesKeepsOthers(ns[|ns| - 1]);
      assert !MapEntryType(ns[|ns| - 1]);
      assert RemoveMapEntriesAll(ns) == ns[..|ns| - 1] + [ns[|ns| - 1]];
    }
  }

  /** No field anywhere is left that the map pass would still collapse. */
  predicate NoCollapsible(n: Node)
    decreases n
  {
    match n
    case Root(nested) => NoCollapsibleAll(nested)
    case Namespace(_, nested) => NoCollapsibleAll(nested)
    case Type(_, _, fields, _, nested, _) =>
      (forall i :: 0 <= i < |fields| ==> !Collapsible(fields[i])) && NoCollapsibleAll(nested)
    case Service(_, _, nested) => NoCollapsibleAll(nested)
    case _ => true
  }

  predicate NoCollapsibleAll(ns: seq<Node>)
    decreases ns
  {
    ns == [] || (NoCollapsibleAll(ns[..|ns| - 1]) && NoCollapsible(ns[|ns| - 1]))
  }

  /** After the map pass every map-entry field over a complete entry type has become a MapField. */
  lemma {:induction false} ResolveMapsDone(n: Node)
    ensures NoCollapsible(ResolveMaps(n))
    decreases n, 1
  {
    if IsNamespace(n) {
      ResolveMapsAllDone(n.nested);
    }
    if n.Type? {
      CollapseFieldsDone(n.fields);
    }
  }

  lemma {:induction false} ResolveMapsAllDone(ns: seq<Node>)
    ensures NoCollapsibleAll(ResolveMapsAll(ns))
    decreases ns, 0
  {
    if ns != [] {
      var init := ns[..|ns| - 1];
      ResolveMapsAllDone(init);
      ResolveMapsDone(ns[|ns| - 1]);
      var r := ResolveMapsAll(ns);
      assert r[..|r| - 1] == ResolveMapsAll(init);
    }
  }

  /** Removing map-entry types does not bring a collapsible field back. */
  lemma {:induction false} RemoveMapEntriesKeepsCollapsed(n: Node)
    requires NoCollapsible(n)
    ensures NoCollapsible(RemoveMapEntries(n))
    decreases n, 1
  {
    if IsNamespace(n) {
      RemoveMapEntriesAllKeepsCollapsed(n.nested);
    }
  }

  lemma {:induction false} RemoveMapEntriesAllKeepsCollapsed(ns: seq<Node>)
    requires NoCollapsibleAll(ns)
    ensures NoCollapsibleAll(RemoveMapEntriesAll(ns))
    decreases ns, 0
  {
    if ns != [] {
      var init := ns[..|ns| - 1];
      RemoveMapEntriesAllKeepsCollapsed(init);
      var r := RemoveMapEntriesAll(ns);
      if !MapEntryType(ns[|ns| - 1]) {
        RemoveMapEntriesKeepsCollapsed(ns[|ns| - 1]);
        assert r[..|r| - 1] == RemoveMapEntriesAll(init);
      } else {
        assert r == RemoveMapEntriesAll(init);
      }
    }
  }

  // --------------------------------------------------- sortReservedVisitor

  /** JavaScript's `<` on strings: character by character, a proper prefix first. */
  predicate StrLess(a: string, b: string)
  {
    if a == [] then b != []
    else if b == [] then false
    else if a[0] != b[0] then a[0] < b[0]
    else StrLess(a[1..], b[1..])
  }

  lemma {:induction false} StrLessIrreflexive(a: string)
    ensures !StrLess(a, a)
  {
    if a != [] {
      StrLessIrreflexive(a[1..]);
    }
  }

  lemma {:induction false} StrLessAsymmetric(a: string, b: string)
    ensures StrLess(a, b) ==> !StrLess(b, a)
  {
    if a != [] && b != [] && a[0] == b[0] {
      StrLessAsymmetric(a[1..], b[1..]);
    }
  }

  lemma {:induction false} StrLessTransitive(a: string, b: string, c: string)
    requires StrLess(a, b) && StrLess(b, c)
    ensures StrLess(a, c)
  {
    if a != [] && a[0] == b[0] && b[0] == c[0] {
      StrLessTransitive(a[1..], b[1..], c[1..]);
    }
  }

  lemma {:induction false} StrLessTotal(a: string, b: string)
    ensures a == b || StrLess(a, b) || StrLess(b, a)
  {
    if a != [] && b != [] && a[0] == b[0] {
      StrLessTotal(a[1..], b[1..]);
      if a[1..] == b[1..] {
        assert a == [a[0]] + a[1..] && b == [b[0]] + b[1..];
      }
    }
  }

  /** `compareStrings`. */
  function CompareStrings(a: string, b: string): (c: int)
    ensures c < 0 <==> StrLess(a, b)
    ensures c == 0 <==> a == b
    ensures c > 0 <==> StrLess(b, a)
  {
    StrLessAsymmetric(a, b);
    StrLessTotal(a, b);
    StrLessIrreflexive(a);
    if StrLess(a, b) then -1 else if StrLess(b, a) then 1 else 0
  }

  /** `compareTuples`: by first component, then by second. */
  function CompareTuples(a: (int, int), b: (int, int)): (c: int)
    ensures c < 0 <==> a.0 < b.0 || (a.0 == b.0 && a.1 < b.1)
    ensures c == 0 <==> a == b
  {
    if a.0 == b.0 then a.1 - b.1 else a.0 - b.0
  }

  /** The comparator `sortReservedVisitor` sorts with: names before ranges. */
  function CompareReserved(a: Reserved, b: Reserved): int
  {
    match (a, b)
    case (RName(x), RName(y)) => CompareStrings(x, y)
    case (RName(_), RRange(_, _)) => -1
    case (RRange(_, _), RName(_)) => 1
    case (RRange(x0, x1), RRange(y0, y1)) => CompareTuples((x0, x1), (y0, y1))
  }

  /** `a` may stay before `b` in the sorted list. */
  predicate Le(a: Reserved, b: Reserved)
  {
    CompareReserved(a, b) <= 0
  }

  /** The comparator is consistent: zero exactly on equal entries, and its sign flips with its arguments. */
  lemma CompareReservedSign(a: Reserved, b: Reserved)
    ensures CompareReserved(a, b) == 0 <==> a == b
    ensures CompareReserved(a, b) < 0 <==> CompareReserved(b, a) > 0
  {
  }

  /** `Le` is a total order. */
  lemma LeTotalOrder(a: Reserved, b: Reserved, c: Reserved)
    ensures Le(a, b) || Le(b, a)
    ensures Le(a, b) && Le(b, a) ==> a == b
    ensures Le(a, b) && Le(b, c) ==> Le(a, c)
  {
    CompareReservedSign(a, b);
    if Le(a, b) && Le(b, c) && a != b && b != c {
      match (a, b, c)
      case (RName(x), RName(y), RName(z)) => StrLessTransitive(x, y, z);
      case _ =>
    }
  }

  predicate Sorted(s: seq<Reserved>)
  {
    forall i, j :: 0 <= i < j < |s| ==> Le(s[i], s[j])
  }

  /**
   * The comparator leaves no choice: two sorted arrangements of the same
   * entries are the same list, so the order `sort` leaves does not depend on
   * the algorithm behind it.
   */
  lemma {:induction false} SortedUnique(s: seq<Reserved>, t: seq<Reserved>)
    requires Sorted(s) && Sorted(t) && multiset(s) == multiset(t)
    ensures s == t
  {
    if s != [] {
      assert s[0] in multiset(s);
      SortedHeads(s, t);
      SameTails(s, t);
      SortedTail(s);
      SortedTail(t);
      SortedUnique(s[1..], t[1..]);
    }
  }

  /** Sorted arrangements of the same entries start with the same entry. */
  lemma SameTails(s: seq<Reserved>, t: seq<Reserved>)
    requires s != [] && t != [] && s[0] == t[0] && multiset(s) == multiset(t)
    ensures multiset(s[1..]) == multiset(t[1..])
  {
    assert s == [s[0]] + s[1..] && t == [t[0]] + t[1..];
    assert multiset(s[1..]) == multiset(s) - multiset{s[0]};
    assert multiset(t[1..]) == multiset(t) - multiset{t[0]};
  }

  lemma SortedHeads(s: seq<Reserved>, t: seq<Reserved>)
    requires Sorted(s) && Sorted(t) && multiset(s) == multiset(t) && s != [] && t != []
    ensures s[0] == t[0]
  {
    assert s[0] in multiset(t);
    assert t[0] in multiset(s);
    var k :| 0 <= k < |t| && t[k] == s[0];
    var m :| 0 <= m < |s| && s[m] == t[0];
    assert Le(s[0], t[0]) by {
      if m != 0 {
        assert Le(s[0], s[m]);
      }
    }
    assert Le(t[0], s[0]) by {
      if k != 0 {
        assert Le(t[0], t[k]);
      }
    }
    LeTotalOrder(s[0], t[0], t[0]);
  }

  lemma SortedTail(s: seq<Reserved>)
    requires Sorted(s) && s != []
    ensures Sorted(s[1..])
  {
    forall i, j | 0 <= i < j < |s[1..]|
      ensures Le(s[1..][i], s[1..][j])
    {
      assert s[1..][i] == s[i + 1] && s[1..][j] == s[j + 1];
    }
  }

  /** `reserved.sort(comparator)`, in place: insertion by adjacent swaps. */
  method SortReserved(a: array<Reserved>)
    modifies a
    ensures Sorted(a[..])
    ensures multiset(a[..]) == multiset(old(a[..]))
  {
    if a.Length == 0 {
      return;
    }
    for i := 1 to a.Length
      invariant Sorted(a[..i])
      invariant multiset(a[..]) == multiset(old(a[..]))
    {
      InsertLast(a, i);
    }
    assert a[..a.Length] == a[..];
  }

  /** One insertion step: the entry at `i` moves back into the sorted prefix before it. */
  method InsertLast(a: array<Reserved>, i: nat)
    requires 0 < i < a.Length && Sorted(a[..i])
    modifies a
    ensures Sorted(a[..i + 1])
    ensures multiset(a[..]) == multiset(old(a[..]))
  {
    var j := i;
    InsertingStart(a[..], i);
    while j > 0 && CompareReserved(a[j - 1], a[j]) > 0
      invariant 0 <= j <= i
      invariant multiset(a[..]) == multiset(old(a[..]))
      invariant Inserting(a[..], i, j)
      decreases j
    {
      ghost var s := a[..];
      a[j - 1], a[j] := a[j], a[j - 1];
      assert a[..] == s[j - 1 := s[j]][j := s[j - 1]];
      SwapStep(s, i, j);
      j := j - 1;
    }
    InsertedSorted(a[..], i, j);
  }

  /** Midway through an insertion: sorted up to `i` but for the moving entry at `j`, which is below all after it. */
  predicate Inserting(s: seq<Reserved>, i: nat, j: nat)
    requires j <= i < |s|
  {
    (forall p, q :: 0 <= p < q <= i && p != j && q != j ==> Le(s[p], s[q])) &&
    (forall q :: j < q <= i ==> Le(s[j], s[q]))
  }

  /** Before any swap, everything but the new last element is in order. */
  lemma InsertingStart(s: seq<Reserved>, i: nat)
    requires i < |s| && Sorted(s[..i])
    ensures Inserting(s, i, i)
  {
    forall p, q | 0 <= p < q <= i && p != i && q != i
      ensures Le(s[p], s[q])
    {
      assert s[..i][p] == s[p] && s[..i][q] == s[q];
    }
  }

  /** Swapping the moving entry with a greater predecessor keeps the insertion invariant and the entries. */
  lemma SwapStep(s: seq<Reserved>, i: nat, j: nat)
    requires 0 < j <= i < |s| && Inserting(s, i, j) && CompareReserved(s[j - 1], s[j]) > 0
    ensures Inserting(s[j - 1 := s[j]][j := s[j - 1]], i, j - 1)
    ensures multiset(s[j - 1 := s[j]][j := s[j - 1]]) == multiset(s)
  {
    CompareReservedSign(s[j - 1], s[j]);
  }

  /** Where the insertion stops, the prefix up to `i` is sorted. */
  lemma InsertedSorted(s: seq<Reserved>, i: nat, j: nat)
    requires j <= i < |s| && Inserting(s, i, j)
    requires j > 0 ==> Le(s[j - 1], s[j])
    ensures Sorted(s[..i + 1])
  {
    forall p | 0 <= p < j
      ensures Le(s[p], s[j])
    {
      LeTotalOrder(s[p], s[j - 1], s[j]);
    }
  }

  /** `sortReservedVisitor`'s `type` callback: the type's reserved list, sorted in place, and nothing else changed. */
  method SortTypeReserved(t: Node) returns (r: Node)
    requires t.Type?
    ensures r.Type? && r == t.(reserved := r.reserved)
    ensures Sorted(r.reserved) && multiset(r.reserved) == multiset(t.reserved)
  {
    var reserved := new Reserved[|t.reserved|](i requires 0 <= i < |t.reserved| => t.reserved[i]);
    assert reserved[..] == t.reserved;
    SortReserved(reserved);
    r := t.(reserved := reserved[..]);
  }
}
