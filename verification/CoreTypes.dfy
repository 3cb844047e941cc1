/** Semantic and Core types, and when they match (applicationir/application.go). */
module CoreTypes {
  import opened Outcomes

  datatype Identity = Identity(pkg: string, path: string)

  /** A type reference of the semantic projection; an absent primitive is the empty string. */
  datatype SemType = SemType(primitive: string, identity: Option<Identity>, args: seq<SemType>)

  datatype Numeric = Numeric(representation: string, bits: int, signed: bool)

  datatype CorePair = CorePair(success: CoreType, failure: CoreType)

  datatype CoreType = CoreType(
    kind: string, primitive: string, numeric: Option<Numeric>, result: Option<CorePair>,
    optional: Option<CoreType>, list: Option<CoreType>, identity: Option<Identity>)

  datatype Param<T> = Param(position: int, typ: T)

  datatype Member = Member(identity: Option<Identity>, kind: string, typ: SemType, params: seq<Param<SemType>>)

  datatype Function = Function(identity: Identity, ret: CoreType, params: seq<Param<CoreType>>, body: Body)

  datatype Ordered = Ordered(field: Identity, direction: string)

  /** The operation a Core function consists of, as far as projection looks at it; None where its payload is missing. */
  datatype Body =
    | FilterByText(field: Option<Identity>)
    | FilterContains(field: Option<Identity>)
    | FilterJoined(fields: Option<seq<Identity>>)
    | SortByText(key: Option<Identity>)
    | SortByTexts(keys: Option<seq<Identity>>)
    | SortByDirections(directed: Option<seq<Ordered>>)
    | OtherBody

  const BUILTIN := "pipelang"
  const LIST := "list"
  const OPTIONAL := "optional"
  const RESULT := "result"
  const ARITHMETIC := "arithmetic.error"

  predicate IsInt64(c: CoreType) {
    c.kind == "numeric" && c.numeric == Some(Numeric("integer", 64, true))
  }

  predicate IsFloat64(c: CoreType) {
    c.kind == "numeric" && c.numeric == Some(Numeric("binary_float", 64, false))
  }

  /** semanticTypeMatchesCore. */
  predicate TypeMatches(t: SemType, c: CoreType) {
    if t.primitive != "" then
      if t.primitive == "string" then c.kind == "primitive" && c.primitive == "string"
      else if t.primitive == "bool" then c.kind == "primitive" && c.primitive == "bool"
      else if t.primitive == "int" then IsInt64(c)
      else if t.primitive == "float" then IsFloat64(c)
      else false
    else if t.identity.None? then false
    else if t.identity.value.pkg != BUILTIN then c.kind == "record" && c.identity == t.identity
    else if t.identity.value.path == LIST then
      |t.args| == 1 && c.kind == "list" && c.list.Some? && TypeMatches(t.args[0], c.list.value)
    else if t.identity.value.path == OPTIONAL then
      |t.args| == 1 && c.kind == "optional" && c.optional.Some? && TypeMatches(t.args[0], c.optional.value)
    else if t.identity.value.path == RESULT then
      |t.args| == 2 && c.kind == "result" && c.result.Some?
      && TypeMatches(t.args[0], c.result.value.success) && TypeMatches(t.args[1], c.result.value.failure)
    else t.identity.value.path == ARITHMETIC && c.kind == "arithmetic_error"
  }

  /** semanticCallableMatchesCore. */
  predicate CallableMatches(m: Member, f: Function) {
    && m.identity == Some(f.identity)
    && |m.params| == |f.params|
    && TypeMatches(m.typ, f.ret)
    && forall i :: 0 <= i < |m.params| ==>
         m.params[i].position == i && f.params[i].position == i && TypeMatches(m.params[i].typ, f.params[i].typ)
  }

  // ---------------------------------------------------------------------------------------
  // One common form
  // ---------------------------------------------------------------------------------------

  datatype Shape =
    | Text | Truth | Int64 | Float64 | ArithmeticError
    | Rec(identity: Identity) | ListOf(element: Shape) | OptionalOf(value: Shape) | ResultOf(success: Shape, failure: Shape)

  function OneOf(a: Option<Shape>, wrap: Shape -> Shape): Option<Shape> {
    if a.Some? then Some(wrap(a.value)) else None
  }

  function Both(a: Option<Shape>, b: Option<Shape>): Option<Shape> {
    if a.Some? && b.Some? then Some(ResultOf(a.value, b.value)) else None
  }

  /** The lowering of semantic types. */
  function Lower(t: SemType): Option<Shape> {
    if t.primitive != "" then
      if t.primitive == "string" then Some(Text)
      else if t.primitive == "bool" then Some(Truth)
      else if t.primitive == "int" then Some(Int64)
      else if t.primitive == "float" then Some(Float64)
      else None
    else if t.identity.None? then None
    else if t.identity.value.pkg != BUILTIN then Some(Rec(t.identity.value))
    else if t.identity.value.path == LIST && |t.args| == 1 then OneOf(Lower(t.args[0]), s => ListOf(s))
    else if t.identity.value.path == OPTIONAL && |t.args| == 1 then OneOf(Lower(t.args[0]), s => OptionalOf(s))
    else if t.identity.value.path == RESULT && |t.args| == 2 then Both(Lower(t.args[0]), Lower(t.args[1]))
    else if t.identity.value.path == ARITHMETIC then Some(ArithmeticError)
    else None
  }

  function ShapeOfNumeric(n: Numeric): Option<Shape> {
    if n.bits != 64 then None
    else if n.representation == "integer" && n.signed then Some(Int64)
    else if n.representation == "binary_float" && !n.signed then Some(Float64)
    else None
  }

  /** What a Core type stands for, with the fields that its kind does not use left out. */
  function ShapeOf(c: CoreType): Option<Shape> {
    if c.kind == "primitive" then
      if c.primitive == "string" then Some(Text) else if c.primitive == "bool" then Some(Truth) else None
    else if c.kind == "numeric" && c.numeric.Some? then ShapeOfNumeric(c.numeric.value)
    else if c.kind == "record" && c.identity.Some? && c.identity.value.pkg != BUILTIN then Some(Rec(c.identity.value))
    else if c.kind == "list" && c.list.Some? then OneOf(ShapeOf(c.list.value), s => ListOf(s))
    else if c.kind == "optional" && c.optional.Some? then OneOf(ShapeOf(c.optional.value), s => OptionalOf(s))
    else if c.kind == "result" && c.result.Some? then Both(ShapeOf(c.result.value.success), ShapeOf(c.result.value.failure))
    else if c.kind == "arithmetic_error" then Some(ArithmeticError)
    else None
  }

  /** Types match exactly when the semantic one lowers to what the Core one stands for. */
  lemma {:induction false} MatchesIffLowered(t: SemType, c: CoreType)
    ensures TypeMatches(t, c) <==> Lower(t).Some? && Lower(t) == ShapeOf(c)
    decreases t
  {
    if t.primitive == "" && t.identity.Some? && t.identity.value.pkg == BUILTIN {
      if |t.args| == 1 && c.list.Some? { MatchesIffLowered(t.args[0], c.list.value); }
      if |t.args| == 1 && c.optional.Some? { MatchesIffLowered(t.args[0], c.optional.value); }
      if |t.args| == 2 && c.result.Some? {
        MatchesIffLowered(t.args[0], c.result.value.success);
        MatchesIffLowered(t.args[1], c.result.value.failure);
      }
    }
  }

  predicate Positioned<T>(params: seq<Param<T>>) {
    forall i :: 0 <= i < |params| ==> params[i].position == i
  }

  function LowerAll(params: seq<Param<SemType>>): seq<Option<Shape>> {
    seq(|params|, i requires 0 <= i < |params| => Lower(params[i].typ))
  }

  function ShapeAll(params: seq<Param<CoreType>>): seq<Option<Shape>> {
    seq(|params|, i requires 0 <= i < |params| => ShapeOf(params[i].typ))
  }

  /** Callables match exactly when identity, positions and the whole lowered signature agree. */
  lemma CallableMatchesIffLowered(m: Member, f: Function)
    ensures
      CallableMatches(m, f) <==>
      && m.identity == Some(f.identity) && Positioned(m.params) && Positioned(f.params)
      && Lower(m.typ).Some? && Lower(m.typ) == ShapeOf(f.ret)
      && LowerAll(m.params) == ShapeAll(f.params) && None !in LowerAll(m.params)
  {
    MatchesIffLowered(m.typ, f.ret);
    var a, b := LowerAll(m.params), ShapeAll(f.params);
    assert |a| == |m.params| && |b| == |f.params|;
    if |a| == |b| {
      forall i | 0 <= i < |a|
        ensures TypeMatches(m.params[i].typ, f.params[i].typ) <==> a[i].Some? && a[i] == b[i]
      {
        MatchesIffLowered(m.params[i].typ, f.params[i].typ);
      }
      if CallableMatches(m, f) {
        assert forall i :: 0 <= i < |a| ==> a[i].Some? && a[i] == b[i];
      }
      if a == b && None !in a {
        assert forall i :: 0 <= i < |a| ==> a[i].Some?;
      }
    }
  }
}
