/** The canonical projection of an application (applicationir/application.go). */
module Projection {
  import opened Outcomes
  import opened Ordering
  import opened CoreTypes

  /** An identity together with where the specification names it. */
  datatype Located = Located(id: Identity, source: string)

  datatype Column = Column(field: Located, title: string)

  datatype OrderKey = OrderKey(field: Located, direction: string)

  datatype SectionSpec = SectionSpec(
    identity: Located, resultType: Located, rowType: Located, key: Located,
    columns: seq<Column>, filterFields: seq<Located>, order: seq<OrderKey>,
    filter: Option<Located>, orderBinding: Located)

  datatype Spec = Spec(
    identity: Located, snapshotType: Located, sections: seq<SectionSpec>,
    selection: Option<Located>, details: Option<Located>, logs: Option<Located>)

  datatype PlainColumn = PlainColumn(field: Identity, title: string)

  datatype Section = Section(
    identity: Identity, resultType: Identity, rowType: Identity, key: Identity,
    columns: seq<PlainColumn>, filterFields: seq<Identity>, order: seq<Ordered>,
    filter: Option<Identity>, orderBinding: Identity)

  datatype Metadata = Metadata(semanticSchema: string, language: string, compiler: string, pkg: string)

  datatype Application = Application(
    schema: string, metadata: Metadata, identity: Identity, snapshotType: Identity, sections: seq<Section>,
    selection: Option<Identity>, details: Option<Identity>, logs: Option<Identity>)

  /** The semantic projection, as far as this one reads it. */
  datatype Semantic = Semantic(schema: string, view: string, language: string, compiler: string, pkg: string, modules: seq<SemModule>)

  datatype SemModule = SemModule(identity: Identity, types: seq<TypeDecl>)

  datatype TypeDecl = TypeDecl(identity: Option<Identity>, kind: string, members: seq<Member>)

  /** The Core program; `valid` is what its own validation answers. */
  datatype CoreProgram = CoreProgram(language: string, compiler: string, valid: bool, functions: seq<Function>)

  const SCHEMA := "dockpipe.application.v1"
  const SEMANTIC_SCHEMA := "pipelang.semantic.v1"
  const PUBLIC := "public"

  /** The lookup tables made from the semantic projection and the Core program, all by key. */
  datatype Index = Index(
    known: set<string>, members: map<string, Member>, owners: map<string, string>,
    typeKinds: map<string, string>, functions: map<string, Function>)

  datatype Problem =
    | NoInputs | NotPublic | ContractMismatch | InvalidCore
    | Unknown | BadApplication | BadSnapshot | DuplicateSection | NotItsResult | NotAMethod | RowNotRecord | BadResult | BadKey
    | BadOrderBinding | BadFilterBinding | NoColumns | BadChoice | ForeignField | DuplicateField
    | FilterMismatch | FieldsWithoutFilter | OrderMismatch | NoSections | BadSelection | BadDetails | BadLogs

  function KeyOf(i: Identity): string {
    i.pkg + "\0" + i.path
  }

  // ---------------------------------------------------------------------------------------
  // The tables
  // ---------------------------------------------------------------------------------------

  const EMPTY_INDEX := Index({}, map[], map[], map[], map[])

  /** A member without an identity of its own cannot be looked up. */
  function WithMember(ix: Index, owner: string, m: Member): Index {
    if m.identity.None? then ix
    else
      var k := KeyOf(m.identity.value);
      ix.(known := ix.known + {k}, members := ix.members[k := m], owners := ix.owners[k := owner])
  }

  function WithMembers(ix: Index, owner: string, ms: seq<Member>): Index {
    if ms == [] then ix else WithMember(WithMembers(ix, owner, ms[..|ms| - 1]), owner, ms[|ms| - 1])
  }

  function OwnerKey(t: TypeDecl): string {
    if t.identity.Some? then KeyOf(t.identity.value) else ""
  }

  function WithTypeName(ix: Index, t: TypeDecl): Index {
    if t.identity.None? then ix
    else ix.(known := ix.known + {OwnerKey(t)}, typeKinds := ix.typeKinds[OwnerKey(t) := t.kind])
  }

  function WithType(ix: Index, t: TypeDecl): Index {
    WithMembers(WithTypeName(ix, t), OwnerKey(t), t.members)
  }

  function WithTypes(ix: Index, ts: seq<TypeDecl>): Index {
    if ts == [] then ix else WithType(WithTypes(ix, ts[..|ts| - 1]), ts[|ts| - 1])
  }

  function WithModule(ix: Index, m: SemModule): Index {
    WithTypes(ix.(known := ix.known + {KeyOf(m.identity)}), m.types)
  }

  function WithModules(ix: Index, ms: seq<SemModule>): Index {
    if ms == [] then ix else WithModule(WithModules(ix, ms[..|ms| - 1]), ms[|ms| - 1])
  }

  function FunctionTable(fs: seq<Function>): map<string, Function> {
    if fs == [] then map[] else FunctionTable(fs[..|fs| - 1])[KeyOf(fs[|fs| - 1].identity) := fs[|fs| - 1]]
  }

  function IndexOf(semantic: Semantic, core: CoreProgram): Index {
    WithModules(EMPTY_INDEX, semantic.modules).(functions := FunctionTable(core.functions))
  }

  method BuildIndex(semantic: Semantic, core: CoreProgram) returns (ix: Index)
    ensures ix == IndexOf(semantic, core)
  {
    ix := EMPTY_INDEX;
    var i := 0;
    while i < |semantic.modules|
      invariant 0 <= i <= |semantic.modules| && ix == WithModules(EMPTY_INDEX, semantic.modules[..i])
    {
      assert semantic.modules[..i + 1][..i] == semantic.modules[..i];
      ix := AddTypes(ix.(known := ix.known + {KeyOf(semantic.modules[i].identity)}), semantic.modules[i].types);
      i := i + 1;
    }
    assert semantic.modules[..i] == semantic.modules;
    var functions: map<string, Function> := map[];
    var f := 0;
    while f < |core.functions|
      invariant 0 <= f <= |core.functions| && functions == FunctionTable(core.functions[..f])
    {
      assert core.functions[..f + 1][..f] == core.functions[..f];
      functions := functions[KeyOf(core.functions[f].identity) := core.functions[f]];
      f := f + 1;
    }
    assert core.functions[..f] == core.functions;
    ix := ix.(functions := functions);
  }

  method AddTypes(start: Index, ts: seq<TypeDecl>) returns (ix: Index)
    ensures ix == WithTypes(start, ts)
  {
    ix := start;
    var i := 0;
    while i < |ts|
      invariant 0 <= i <= |ts| && ix == WithTypes(start, ts[..i])
    {
      assert ts[..i + 1][..i] == ts[..i];
      ix := AddMembers(WithTypeName(ix, ts[i]), OwnerKey(ts[i]), ts[i].members);
      i := i + 1;
    }
    assert ts[..i] == ts;
  }

  method AddMembers(start: Index, owner: string, ms: seq<Member>) returns (ix: Index)
    ensures ix == WithMembers(start, owner, ms)
  {
    ix := start;
    var i := 0;
    while i < |ms|
      invariant 0 <= i <= |ms| && ix == WithMembers(start, owner, ms[..i])
    {
      assert ms[..i + 1][..i] == ms[..i];
      ix := WithMember(ix, owner, ms[i]);
      i := i + 1;
    }
    assert ms[..i] == ms;
  }

  // ---------------------------------------------------------------------------------------
  // Lookups
  // ---------------------------------------------------------------------------------------

  predicate IsKnown(ix: Index, i: Identity) {
    i.pkg != "" && i.path != "" && KeyOf(i) in ix.known
  }

  function OwnerOf(ix: Index, i: Identity): string {
    if KeyOf(i) in ix.owners then ix.owners[KeyOf(i)] else ""
  }

  predicate IsMethod(ix: Index, i: Identity) {
    KeyOf(i) in ix.members && ix.members[KeyOf(i)].kind == "method"
  }

  predicate IsRecord(ix: Index, i: Identity) {
    KeyOf(i) in ix.typeKinds && ix.typeKinds[KeyOf(i)] == "record"
  }

  predicate IsText(ix: Index, i: Identity) {
    KeyOf(i) in ix.members && ix.members[KeyOf(i)].typ.primitive == "string"
  }

  /** A member with a Core function whose contract matches it. */
  predicate IsBacked(ix: Index, i: Identity) {
    KeyOf(i) in ix.members && KeyOf(i) in ix.functions && CallableMatches(ix.members[KeyOf(i)], ix.functions[KeyOf(i)])
  }

  // ---------------------------------------------------------------------------------------
  // Types of bindings
  // ---------------------------------------------------------------------------------------

  predicate Builtin(t: SemType, path: string) {
    t.identity == Some(Identity(BUILTIN, path))
  }

  predicate IsListOf(t: SemType, row: Identity) {
    Builtin(t, LIST) && |t.args| == 1 && t.args[0].identity == Some(row)
  }

  /** The list inside a result is recognised by its path alone. */
  predicate IsResultListOf(t: SemType, row: Identity) {
    && Builtin(t, RESULT) && |t.args| == 2
    && t.args[0].identity.Some? && t.args[0].identity.value.path == LIST && |t.args[0].args| == 1
    && t.args[0].args[0].identity == Some(row)
    && t.args[1].primitive == "string"
  }

  predicate IsStringResult(t: SemType) {
    Builtin(t, RESULT) && |t.args| == 2 && t.args[0].primitive == "string" && t.args[1].primitive == "string"
  }

  predicate IsOptionalSectionRecord(t: SemType, sections: seq<Section>) {
    && Builtin(t, OPTIONAL) && |t.args| == 1 && t.args[0].identity.Some?
    && exists s :: s in sections && s.rowType == t.args[0].identity.value
  }

  predicate IsFilterCallable(m: Member, row: Identity) {
    |m.params| == 2 && IsListOf(m.params[0].typ, row) && m.params[1].typ.primitive == "string" && IsListOf(m.typ, row)
  }

  predicate IsOrderCallable(m: Member, row: Identity) {
    |m.params| == 1 && IsListOf(m.params[0].typ, row) && IsListOf(m.typ, row)
  }

  function FilterSelectors(body: Body): Option<seq<Identity>> {
    match body
    case FilterByText(field) => if field.Some? then Some([field.value]) else None
    case FilterContains(field) => if field.Some? then Some([field.value]) else None
    case FilterJoined(fields) => fields
    case _ => None
  }

  function Ascending(fields: seq<Identity>): seq<Ordered> {
    seq(|fields|, i requires 0 <= i < |fields| => Ordered(fields[i], "ascending"))
  }

  function OrderSelectors(body: Body): Option<seq<Ordered>> {
    match body
    case SortByText(key) => if key.Some? then Some(Ascending([key.value])) else None
    case SortByTexts(keys) => if keys.Some? then Some(Ascending(keys.value)) else None
    case SortByDirections(directed) => directed
    case _ => None
  }

  // ---------------------------------------------------------------------------------------
  // Fields of a section
  // ---------------------------------------------------------------------------------------

  /** A field that a section uses; `fine` is whether its title or direction is. */
  datatype Use = Use(id: Identity, fine: bool)

  function ColumnUses(s: SectionSpec): seq<Use> {
    seq(|s.columns|, i requires 0 <= i < |s.columns| => Use(s.columns[i].field.id, s.columns[i].title != ""))
  }

  function FilterUses(s: SectionSpec): seq<Use> {
    seq(|s.filterFields|, i requires 0 <= i < |s.filterFields| => Use(s.filterFields[i].id, true))
  }

  function OrderUses(s: SectionSpec): seq<Use> {
    seq(|s.order|, i requires 0 <= i < |s.order| =>
      Use(s.order[i].field.id, s.order[i].direction == "ascending" || s.order[i].direction == "descending"))
  }

  function UseProblem(ix: Index, row: string, u: Use, text: bool, earlier: set<string>): Option<Problem> {
    if !u.fine then Some(BadChoice)
    else if !IsKnown(ix, u.id) then Some(Unknown)
    else if OwnerOf(ix, u.id) != row || (text && !IsText(ix, u.id)) then Some(ForeignField)
    else if KeyOf(u.id) in earlier then Some(DuplicateField)
    else None
  }

  function UseKeys(us: seq<Use>): set<string> {
    set i | 0 <= i < |us| :: KeyOf(us[i].id)
  }

  /** The first problem with the fields, in order. */
  function UsesProblem(ix: Index, row: string, us: seq<Use>, text: bool): Option<Problem> {
    if us == [] then None
    else
      var init, last := us[..|us| - 1], us[|us| - 1];
      var p := UsesProblem(ix, row, init, text);
      if p.Some? then p else UseProblem(ix, row, last, text, UseKeys(init))
  }

  method CheckUses(ix: Index, row: string, us: seq<Use>, text: bool) returns (p: Option<Problem>)
    ensures p == UsesProblem(ix, row, us, text)
  {
    var seen: set<string> := {};
    var i := 0;
    while i < |us|
      invariant 0 <= i <= |us| && seen == UseKeys(us[..i]) && UsesProblem(ix, row, us[..i], text).None?
    {
      assert us[..i + 1][..i] == us[..i];
      p := UseProblem(ix, row, us[i], text, seen);
      if p.Some? {
        ProblemStays(ix, row, us, text, i + 1);
        return;
      }
      assert UseKeys(us[..i + 1]) == UseKeys(us[..i]) + {KeyOf(us[i].id)};
      seen := seen + {KeyOf(us[i].id)};
      i := i + 1;
    }
    assert us[..i] == us;
    p := None;
  }

  lemma {:induction false} ProblemStays(ix: Index, row: string, us: seq<Use>, text: bool, n: nat)
    requires n <= |us| && UsesProblem(ix, row, us[..n], text).Some?
    ensures UsesProblem(ix, row, us, text) == UsesProblem(ix, row, us[..n], text)
    decreases |us|
  {
    if n == |us| {
      assert us[..n] == us;
    } else {
      assert us[..|us| - 1][..n] == us[..n];
      ProblemStays(ix, row, us[..|us| - 1], text, n);
    }
  }

  /** Each field chosen well, known, a field of the row (a text one where that matters), and used once. */
  ghost predicate AllUsable(ix: Index, row: string, us: seq<Use>, text: bool) {
    && (forall i :: 0 <= i < |us| ==>
         us[i].fine && IsKnown(ix, us[i].id) && OwnerOf(ix, us[i].id) == row && (text ==> IsText(ix, us[i].id)))
    && forall i, j :: 0 <= i < j < |us| ==> KeyOf(us[i].id) != KeyOf(us[j].id)
  }

  lemma {:induction false} NoProblemIffUsable(ix: Index, row: string, us: seq<Use>, text: bool)
    ensures UsesProblem(ix, row, us, text).None? <==> AllUsable(ix, row, us, text)
  {
    if us != [] {
      var init, last := us[..|us| - 1], us[|us| - 1];
      NoProblemIffUsable(ix, row, init, text);
      assert us == init + [last];
      UsableSnoc(ix, row, init, last, text);
    }
  }

  lemma UsableSnoc(ix: Index, row: string, us: seq<Use>, last: Use, text: bool)
    ensures AllUsable(ix, row, us + [last], text) <==>
            AllUsable(ix, row, us, text) && UseProblem(ix, row, last, text, UseKeys(us)).None?
  {
    var all := us + [last];
    assert all[|us|] == last;
    assert forall i :: 0 <= i < |us| ==> all[i] == us[i];
    if AllUsable(ix, row, all, text) {
      forall i | 0 <= i < |us| ensures KeyOf(us[i].id) != KeyOf(last.id) { assert all[i] == us[i]; }
      forall i, j | 0 <= i < j < |us| ensures KeyOf(us[i].id) != KeyOf(us[j].id) { assert all[i] == us[i] && all[j] == us[j]; }
    }
  }

  // ---------------------------------------------------------------------------------------
  // Sections
  // ---------------------------------------------------------------------------------------

  predicate ResultFits(ix: Index, owner: string, s: SectionSpec) {
    var i := s.resultType.id;
    IsMethod(ix, i) && OwnerOf(ix, i) == owner && IsResultListOf(ix.members[KeyOf(i)].typ, s.rowType.id) && IsBacked(ix, i)
  }

  predicate OrderFits(ix: Index, owner: string, s: SectionSpec) {
    var i := s.orderBinding.id;
    KeyOf(i) in ix.members && OwnerOf(ix, i) == owner && IsOrderCallable(ix.members[KeyOf(i)], s.rowType.id) && IsBacked(ix, i)
  }

  predicate FilterFits(ix: Index, owner: string, s: SectionSpec, i: Identity) {
    KeyOf(i) in ix.members && OwnerOf(ix, i) == owner && IsFilterCallable(ix.members[KeyOf(i)], s.rowType.id) && IsBacked(ix, i)
  }

  function BindingProblem(ix: Index, owner: string, s: SectionSpec): Option<Problem> {
    if !IsKnown(ix, s.identity.id) || !IsKnown(ix, s.resultType.id) || !IsKnown(ix, s.rowType.id) || !IsKnown(ix, s.key.id)
    then Some(Unknown)
    else if s.identity.id != s.resultType.id then Some(NotItsResult)
    else if !IsMethod(ix, s.identity.id) || OwnerOf(ix, s.identity.id) != owner then Some(NotAMethod)
    else if !IsRecord(ix, s.rowType.id) then Some(RowNotRecord)
    else if !ResultFits(ix, owner, s) then Some(BadResult)
    else if !IsText(ix, s.key.id) || OwnerOf(ix, s.key.id) != KeyOf(s.rowType.id) then Some(BadKey)
    else if !IsKnown(ix, s.orderBinding.id) then Some(Unknown)
    else if !OrderFits(ix, owner, s) then Some(BadOrderBinding)
    else if s.filter.Some? && !IsKnown(ix, s.filter.value.id) then Some(Unknown)
    else if s.filter.Some? && !FilterFits(ix, owner, s, s.filter.value.id) then Some(BadFilterBinding)
    else if s.columns == [] then Some(NoColumns)
    else None
  }

  predicate FilterAgrees(ix: Index, s: SectionSpec) {
    s.filter.Some? ==>
      KeyOf(s.filter.value.id) in ix.functions
      && FilterSelectors(ix.functions[KeyOf(s.filter.value.id)].body) == Some(Plain(s.filterFields))
  }

  predicate OrderAgrees(ix: Index, s: SectionSpec) {
    KeyOf(s.orderBinding.id) in ix.functions
    && OrderSelectors(ix.functions[KeyOf(s.orderBinding.id)].body) == Some(PlainOrder(s.order))
  }

  function FieldsProblem(ix: Index, s: SectionSpec): Option<Problem> {
    var row := KeyOf(s.rowType.id);
    var columns := UsesProblem(ix, row, ColumnUses(s), false);
    var filters := UsesProblem(ix, row, FilterUses(s), true);
    var orders := UsesProblem(ix, row, OrderUses(s), true);
    if columns.Some? then columns
    else if filters.Some? then filters
    else if orders.Some? then orders
    else if !FilterAgrees(ix, s) then Some(FilterMismatch)
    else if s.filter.None? && s.filterFields != [] then Some(FieldsWithoutFilter)
    else if !OrderAgrees(ix, s) then Some(OrderMismatch)
    else None
  }

  /** What is wrong with a section on its own. */
  function SectionProblem(ix: Index, owner: string, s: SectionSpec): Option<Problem> {
    var p := BindingProblem(ix, owner, s);
    if p.Some? then p else FieldsProblem(ix, s)
  }

  function Plain(fields: seq<Located>): seq<Identity> {
    seq(|fields|, i requires 0 <= i < |fields| => fields[i].id)
  }

  function PlainOrder(order: seq<OrderKey>): seq<Ordered> {
    seq(|order|, i requires 0 <= i < |order| => Ordered(order[i].field.id, order[i].direction))
  }

  function PlainColumns(columns: seq<Column>): seq<PlainColumn> {
    seq(|columns|, i requires 0 <= i < |columns| => PlainColumn(columns[i].field.id, columns[i].title))
  }

  function PlainId(l: Option<Located>): Option<Identity> {
    if l.Some? then Some(l.value.id) else None
  }

  function Projected(s: SectionSpec): Section {
    Section(s.identity.id, s.resultType.id, s.rowType.id, s.key.id, PlainColumns(s.columns), Plain(s.filterFields),
            PlainOrder(s.order), PlainId(s.filter), s.orderBinding.id)
  }

  function SectionKeys(ss: seq<SectionSpec>): set<string> {
    set i | 0 <= i < |ss| :: KeyOf(ss[i].identity.id)
  }

  /** The first problem with the sections, in order. */
  function SectionsProblem(ix: Index, owner: string, ss: seq<SectionSpec>): Option<Problem> {
    if ss == [] then None
    else
      var init, last := ss[..|ss| - 1], ss[|ss| - 1];
      var p := SectionsProblem(ix, owner, init);
      if p.Some? then p
      else if KeyOf(last.identity.id) in SectionKeys(init) then Some(DuplicateSection)
      else SectionProblem(ix, owner, last)
  }

  // ---------------------------------------------------------------------------------------
  // The projection
  // ---------------------------------------------------------------------------------------

  predicate SectionLeq(a: Section, b: Section) {
    StrLeq(KeyOf(a.identity), KeyOf(b.identity))
  }

  function ProjectedAll(ss: seq<SectionSpec>): seq<Section> {
    seq(|ss|, i requires 0 <= i < |ss| => Projected(ss[i]))
  }

  function HeadProblem(ix: Index, spec: Spec): Option<Problem> {
    var app, snapshot := spec.identity.id, spec.snapshotType.id;
    if !IsKnown(ix, app) then Some(Unknown)
    else if !IsMethod(ix, app) || !IsBacked(ix, app) then Some(BadApplication)
    else if !IsKnown(ix, snapshot) then Some(Unknown)
    else if !IsRecord(ix, snapshot) || ix.members[KeyOf(app)].typ.identity != Some(snapshot)
            || ix.functions[KeyOf(app)].ret.identity != Some(snapshot) then Some(BadSnapshot)
    else None
  }

  /** Details and logs: a method of the application that gives a text or an error. */
  function TextProblem(ix: Index, owner: string, l: Option<Located>, bad: Problem): Option<Problem> {
    if l.None? then None
    else if !IsKnown(ix, l.value.id) then Some(Unknown)
    else if IsBacked(ix, l.value.id) && OwnerOf(ix, l.value.id) == owner && IsStringResult(ix.members[KeyOf(l.value.id)].typ) then None
    else Some(bad)
  }

  function SelectionProblem(ix: Index, owner: string, l: Option<Located>, sections: seq<Section>): Option<Problem> {
    if l.None? then None
    else if !IsKnown(ix, l.value.id) then Some(Unknown)
    else if IsBacked(ix, l.value.id) && OwnerOf(ix, l.value.id) == owner
            && IsOptionalSectionRecord(ix.members[KeyOf(l.value.id)].typ, sections) then None
    else Some(BadSelection)
  }

  function TailProblem(ix: Index, owner: string, spec: Spec, sections: seq<Section>): Option<Problem> {
    var selection := SelectionProblem(ix, owner, spec.selection, sections);
    var details := TextProblem(ix, owner, spec.details, BadDetails);
    var logs := TextProblem(ix, owner, spec.logs, BadLogs);
    if sections == [] then Some(NoSections)
    else if selection.Some? then selection
    else if details.Some? then details
    else logs
  }

  function SortedSections(spec: Spec): seq<Section> {
    Sort(SectionLeq, ProjectedAll(spec.sections))
  }

  function FirstProblem(ix: Index, spec: Spec): Option<Problem> {
    var head := HeadProblem(ix, spec);
    var owner := OwnerOf(ix, spec.identity.id);
    var sections := SectionsProblem(ix, owner, spec.sections);
    if head.Some? then head
    else if sections.Some? then sections
    else TailProblem(ix, owner, spec, SortedSections(spec))
  }

  /** The inputs themselves: both there, a public projection of the known schema, one contract, a valid program. */
  function InputProblem(semantic: Option<Semantic>, core: Option<CoreProgram>): Option<Problem> {
    if semantic.None? || core.None? then Some(NoInputs)
    else if semantic.value.schema != SEMANTIC_SCHEMA || semantic.value.view != PUBLIC then Some(NotPublic)
    else if core.value.compiler != semantic.value.compiler || core.value.language != semantic.value.language then Some(ContractMismatch)
    else if !core.value.valid then Some(InvalidCore)
    else None
  }

  function MetadataOf(semantic: Semantic): Metadata {
    Metadata(semantic.schema, semantic.language, semantic.compiler, semantic.pkg)
  }

  function ApplicationOf(metadata: Metadata, spec: Spec): Application {
    Application(SCHEMA, metadata, spec.identity.id, spec.snapshotType.id, SortedSections(spec),
                PlainId(spec.selection), PlainId(spec.details), PlainId(spec.logs))
  }

  /** What projection answers. */
  function Projects(semantic: Option<Semantic>, core: Option<CoreProgram>, spec: Spec): Result<Application, Problem> {
    var inputs := InputProblem(semantic, core);
    if inputs.Some? then Bad(inputs.value)
    else
      var p := FirstProblem(IndexOf(semantic.value, core.value), spec);
      if p.Some? then Bad(p.value) else Ok(ApplicationOf(MetadataOf(semantic.value), spec))
  }

  method Project(semantic: Option<Semantic>, core: Option<CoreProgram>, spec: Spec) returns (r: Result<Application, Problem>)
    ensures r == Projects(semantic, core, spec)
  {
    var inputs := InputProblem(semantic, core);
    if inputs.Some? {
      return Bad(inputs.value);
    }
    var ix := BuildIndex(semantic.value, core.value);
    var head := HeadProblem(ix, spec);
    if head.Some? {
      return Bad(head.value);
    }
    var owner := OwnerOf(ix, spec.identity.id);
    var sections, problem := ProjectSections(ix, owner, spec.sections);
    if problem.Some? {
      return Bad(problem.value);
    }
    sections := Sort(SectionLeq, sections);
    var tail := TailProblem(ix, owner, spec, sections);
    if tail.Some? {
      return Bad(tail.value);
    }
    r := Ok(Application(SCHEMA, MetadataOf(semantic.value), spec.identity.id, spec.snapshotType.id, sections,
                        PlainId(spec.selection), PlainId(spec.details), PlainId(spec.logs)));
  }

  method ProjectSections(ix: Index, owner: string, ss: seq<SectionSpec>) returns (out: seq<Section>, problem: Option<Problem>)
    ensures problem == SectionsProblem(ix, owner, ss)
    ensures problem.None? ==> out == ProjectedAll(ss)
  {
    out, problem := [], None;
    var seen: set<string> := {};
    var i := 0;
    while i < |ss|
      invariant 0 <= i <= |ss| && seen == SectionKeys(ss[..i]) && problem.None?
      invariant out == ProjectedAll(ss[..i]) && SectionsProblem(ix, owner, ss[..i]).None?
    {
      var s := ss[i];
      SectionsSnoc(ix, owner, ss, i);
      if KeyOf(s.identity.id) in seen {
        problem := Some(DuplicateSection);
      } else {
        problem := CheckSection(ix, owner, s);
      }
      if problem.Some? {
        SectionProblemStays(ix, owner, ss, i + 1);
        return;
      }
      seen := seen + {KeyOf(s.identity.id)};
      out := out + [Projected(s)];
      i := i + 1;
    }
    assert ss[..i] == ss;
  }

  lemma SectionsSnoc(ix: Index, owner: string, ss: seq<SectionSpec>, i: nat)
    requires i < |ss|
    ensures
      var p := SectionsProblem(ix, owner, ss[..i]);
      SectionsProblem(ix, owner, ss[..i + 1]) ==
      if p.Some? then p
      else if KeyOf(ss[i].identity.id) in SectionKeys(ss[..i]) then Some(DuplicateSection)
      else SectionProblem(ix, owner, ss[i])
    ensures SectionKeys(ss[..i + 1]) == SectionKeys(ss[..i]) + {KeyOf(ss[i].identity.id)}
    ensures ProjectedAll(ss[..i + 1]) == ProjectedAll(ss[..i]) + [Projected(ss[i])]
  {
    assert ss[..i + 1][..i] == ss[..i];
  }

  method CheckSection(ix: Index, owner: string, s: SectionSpec) returns (p: Option<Problem>)
    ensures p == SectionProblem(ix, owner, s)
  {
    p := BindingProblem(ix, owner, s);
    if p.Some? {
      return;
    }
    var row := KeyOf(s.rowType.id);
    p := CheckUses(ix, row, ColumnUses(s), false);
    if p.Some? {
      return;
    }
    p := CheckUses(ix, row, FilterUses(s), true);
    if p.Some? {
      return;
    }
    p := CheckUses(ix, row, OrderUses(s), true);
    if p.Some? {
      return;
    }
    if !FilterAgrees(ix, s) {
      p := Some(FilterMismatch);
    } else if s.filter.None? && s.filterFields != [] {
      p := Some(FieldsWithoutFilter);
    } else if !OrderAgrees(ix, s) {
      p := Some(OrderMismatch);
    }
  }

  lemma {:induction false} SectionProblemStays(ix: Index, owner: string, ss: seq<SectionSpec>, n: nat)
    requires n <= |ss| && SectionsProblem(ix, owner, ss[..n]).Some?
    ensures SectionsProblem(ix, owner, ss) == SectionsProblem(ix, owner, ss[..n])
    decreases |ss|
  {
    if n == |ss| {
      assert ss[..n] == ss;
    } else {
      assert ss[..|ss| - 1][..n] == ss[..n];
      SectionProblemStays(ix, owner, ss[..|ss| - 1], n);
    }
  }
}
