/** When exactly there is an application, and what it says of the specification. */
module ProjectionMeaning {
  import opened Outcomes
  import opened Ordering
  import opened CoreTypes
  import opened Projection
  import opened ProjectionTheorems

  // ---------------------------------------------------------------------------------------
  // The tables and the declarations
  // ---------------------------------------------------------------------------------------

  /** Type `t` stands in some module. */
  ghost predicate HasType(ms: seq<SemModule>, t: TypeDecl) {
    exists m :: m in ms && t in m.types
  }

  /** Every entry of the tables comes from a declaration; a member's entry and its owner's from the same one. */
  ghost predicate FromDeclarations(ix: Index, ms: seq<SemModule>) {
    && ix.members.Keys == ix.owners.Keys
    && (forall k :: k in ix.members ==> exists t :: HasType(ms, t) && DeclaredBy(ix, t, k))
    && (forall k :: k in ix.typeKinds ==> exists t :: HasType(ms, t) && t.identity.Some? && KeyOf(t.identity.value) == k && t.kind == ix.typeKinds[k])
  }

  predicate DeclaredBy(ix: Index, t: TypeDecl, k: string)
    requires k in ix.members && ix.members.Keys == ix.owners.Keys
  {
    && ix.members[k] in t.members && ix.owners[k] == (if t.identity.Some? then KeyOf(t.identity.value) else "")
    && ix.members[k].identity.Some? && KeyOf(ix.members[k].identity.value) == k
  }

  lemma MoreModules(ix: Index, ms: seq<SemModule>, last: SemModule)
    requires FromDeclarations(ix, ms)
    ensures FromDeclarations(ix, ms + [last])
  {
    forall t | HasType(ms, t) ensures HasType(ms + [last], t) {
      var m :| m in ms && t in m.types;
      assert m in ms + [last];
    }
  }

  lemma MemberFromDeclarations(ix: Index, ms: seq<SemModule>, t: TypeDecl, m: Member)
    requires FromDeclarations(ix, ms) && HasType(ms, t) && m in t.members
    ensures FromDeclarations(WithMember(ix, OwnerKey(t), m), ms)
  {
    var ix' := WithMember(ix, OwnerKey(t), m);
    SameKeys(ix, OwnerKey(t), m);
    forall k | k in ix'.members ensures exists t' :: HasType(ms, t') && DeclaredBy(ix', t', k) {
      if m.identity.Some? && k == KeyOf(m.identity.value) {
        OwnDeclared(ix, t, m, k);
      } else {
        var u :| HasType(ms, u) && DeclaredBy(ix, u, k);
        OtherDeclared(ix, OwnerKey(t), m, u, k);
      }
    }
  }

  lemma SameKeys(ix: Index, owner: string, m: Member)
    requires ix.members.Keys == ix.owners.Keys
    ensures WithMember(ix, owner, m).members.Keys == WithMember(ix, owner, m).owners.Keys
    ensures WithMember(ix, owner, m).typeKinds == ix.typeKinds
  {
  }

  lemma OwnDeclared(ix: Index, t: TypeDecl, m: Member, k: string)
    requires ix.members.Keys == ix.owners.Keys && m in t.members && m.identity.Some? && k == KeyOf(m.identity.value)
    ensures WithMember(ix, OwnerKey(t), m).members.Keys == WithMember(ix, OwnerKey(t), m).owners.Keys
    ensures k in WithMember(ix, OwnerKey(t), m).members && DeclaredBy(WithMember(ix, OwnerKey(t), m), t, k)
  {
  }

  lemma OtherDeclared(ix: Index, owner: string, m: Member, u: TypeDecl, k: string)
    requires ix.members.Keys == ix.owners.Keys && k in ix.members && DeclaredBy(ix, u, k)
    requires !(m.identity.Some? && k == KeyOf(m.identity.value))
    ensures WithMember(ix, owner, m).members.Keys == WithMember(ix, owner, m).owners.Keys
    ensures k in WithMember(ix, owner, m).members && DeclaredBy(WithMember(ix, owner, m), u, k)
  {
  }

  lemma {:induction false} MembersFromDeclarations(ix: Index, ms: seq<SemModule>, t: TypeDecl, members: seq<Member>)
    requires FromDeclarations(ix, ms) && HasType(ms, t) && forall m :: m in members ==> m in t.members
    ensures FromDeclarations(WithMembers(ix, OwnerKey(t), members), ms)
  {
    if members != [] {
      var init := members[..|members| - 1];
      MembersFromDeclarations(ix, ms, t, init);
      MemberFromDeclarations(WithMembers(ix, OwnerKey(t), init), ms, t, members[|members| - 1]);
    }
  }

  lemma TypeFromDeclarations(ix: Index, ms: seq<SemModule>, t: TypeDecl)
    requires FromDeclarations(ix, ms) && HasType(ms, t)
    ensures FromDeclarations(WithType(ix, t), ms)
  {
    var ix1 := WithTypeName(ix, t);
    forall k | k in ix1.members ensures exists t :: HasType(ms, t) && DeclaredBy(ix1, t, k) {
      var u :| HasType(ms, u) && DeclaredBy(ix, u, k);
      assert DeclaredBy(ix1, u, k);
    }
    assert FromDeclarations(ix1, ms);
    MembersFromDeclarations(ix1, ms, t, t.members);
  }

  lemma {:induction false} TypesFromDeclarations(ix: Index, ms: seq<SemModule>, ts: seq<TypeDecl>)
    requires FromDeclarations(ix, ms) && forall t :: t in ts ==> HasType(ms, t)
    ensures FromDeclarations(WithTypes(ix, ts), ms)
  {
    if ts != [] {
      TypesFromDeclarations(ix, ms, ts[..|ts| - 1]);
      TypeFromDeclarations(WithTypes(ix, ts[..|ts| - 1]), ms, ts[|ts| - 1]);
    }
  }

  lemma KnownOnly(ix: Index, ms: seq<SemModule>, known: set<string>)
    requires FromDeclarations(ix, ms)
    ensures FromDeclarations(ix.(known := known), ms)
  {
    var ix' := ix.(known := known);
    forall k | k in ix'.members ensures exists t :: HasType(ms, t) && DeclaredBy(ix', t, k) {
      var u :| HasType(ms, u) && DeclaredBy(ix, u, k);
      assert DeclaredBy(ix', u, k);
    }
  }

  lemma {:induction false} ModulesFromDeclarations(ms: seq<SemModule>)
    ensures FromDeclarations(WithModules(EMPTY_INDEX, ms), ms)
  {
    if ms != [] {
      var init, last := ms[..|ms| - 1], ms[|ms| - 1];
      var before := WithModules(EMPTY_INDEX, init);
      ModulesFromDeclarations(init);
      assert ms == init + [last];
      MoreModules(before, init, last);
      KnownOnly(before, ms, before.known + {KeyOf(last.identity)});
      assert forall t :: t in last.types ==> HasType(ms, t);
      TypesFromDeclarations(before.(known := before.known + {KeyOf(last.identity)}), ms, last.types);
    }
  }

  /** What the lookups answer is declared: members with their types, kinds of types, functions of the Core program. */
  lemma TablesFromDeclarations(semantic: Semantic, core: CoreProgram)
    ensures FromDeclarations(IndexOf(semantic, core), semantic.modules)
    ensures forall k :: k in IndexOf(semantic, core).functions ==>
              var f := IndexOf(semantic, core).functions[k];
              f in core.functions && KeyOf(f.identity) == k
  {
    ModulesFromDeclarations(semantic.modules);
    var before, ix := WithModules(EMPTY_INDEX, semantic.modules), IndexOf(semantic, core);
    forall k | k in ix.members ensures exists t :: HasType(semantic.modules, t) && DeclaredBy(ix, t, k) {
      var u :| HasType(semantic.modules, u) && DeclaredBy(before, u, k);
      assert DeclaredBy(ix, u, k);
    }
    FunctionsFromCore(core.functions);
  }

  lemma {:induction false} FunctionsFromCore(fs: seq<Function>)
    ensures forall k :: k in FunctionTable(fs) ==> FunctionTable(fs)[k] in fs && KeyOf(FunctionTable(fs)[k].identity) == k
    ensures forall f :: f in fs ==> KeyOf(f.identity) in FunctionTable(fs)
  {
    if fs != [] {
      FunctionsFromCore(fs[..|fs| - 1]);
      assert forall f :: f in fs <==> f in fs[..|fs| - 1] || f == fs[|fs| - 1];
    }
  }

  // ---------------------------------------------------------------------------------------
  // What a specification must say
  // ---------------------------------------------------------------------------------------

  predicate Declared(ix: Index, i: Identity) {
    i.pkg != "" && i.path != "" && KeyOf(i) in ix.known
  }

  /** A declared member with a Core function of the same contract. */
  predicate Callable(ix: Index, i: Identity) {
    && Declared(ix, i) && KeyOf(i) in ix.members && KeyOf(i) in ix.functions
    && CallableMatches(ix.members[KeyOf(i)], ix.functions[KeyOf(i)])
  }

  /** ... that belongs to `owner`. */
  predicate Bound(ix: Index, owner: string, i: Identity) {
    Callable(ix, i) && KeyOf(i) in ix.owners && ix.owners[KeyOf(i)] == owner
  }

  predicate DeclaredRecord(ix: Index, i: Identity) {
    Declared(ix, i) && KeyOf(i) in ix.typeKinds && ix.typeKinds[KeyOf(i)] == "record"
  }

  predicate FieldOf(ix: Index, row: Identity, i: Identity) {
    Declared(ix, i) && KeyOf(i) in ix.owners && ix.owners[KeyOf(i)] == KeyOf(row)
  }

  predicate TextFieldOf(ix: Index, row: Identity, i: Identity) {
    FieldOf(ix, row, i) && KeyOf(i) in ix.members && ix.members[KeyOf(i)].typ.primitive == "string"
  }

  predicate Distinct(fields: seq<Identity>) {
    forall i, j :: 0 <= i < j < |fields| ==> KeyOf(fields[i]) != KeyOf(fields[j])
  }

  predicate Applied(t: SemType, path: string, n: nat) {
    t.identity == Some(Identity("pipelang", path)) && |t.args| == n
  }

  predicate ListOfRows(t: SemType, row: Identity) {
    Applied(t, "list", 1) && t.args[0].identity == Some(row)
  }

  predicate ListOrText(t: SemType, row: Identity) {
    && Applied(t, "result", 2) && t.args[1].primitive == "string"
    && t.args[0].identity.Some? && t.args[0].identity.value.path == "list" && |t.args[0].args| == 1 && t.args[0].args[0].identity == Some(row)
  }

  predicate TextOrText(t: SemType) {
    Applied(t, "result", 2) && t.args[0].primitive == "string" && t.args[1].primitive == "string"
  }

  /** The Core operation filters by exactly these fields. */
  ghost predicate FiltersBy(body: Body, fields: seq<Identity>) {
    || (exists f :: body == FilterByText(Some(f)) && fields == [f])
    || (exists f :: body == FilterContains(Some(f)) && fields == [f])
    || body == FilterJoined(Some(fields))
  }

  /** The Core operation sorts by exactly these fields, in these directions. */
  ghost predicate SortsBy(body: Body, order: seq<Ordered>) {
    || (exists f :: body == SortByText(Some(f)) && order == [Ordered(f, "ascending")])
    || (exists fs :: body == SortByTexts(Some(fs)) && |order| == |fs| && forall i :: 0 <= i < |order| ==> order[i] == Ordered(fs[i], "ascending"))
    || body == SortByDirections(Some(order))
  }

  predicate Orders(m: Member, row: Identity) {
    |m.params| == 1 && ListOfRows(m.params[0].typ, row) && ListOfRows(m.typ, row)
  }

  predicate Filters(m: Member, row: Identity) {
    |m.params| == 2 && ListOfRows(m.params[0].typ, row) && m.params[1].typ.primitive == "string" && ListOfRows(m.typ, row)
  }

  /** The operations behind a section: its result, its order, and its filter where it has one. */
  predicate Operates(ix: Index, owner: string, s: SectionSpec) {
    var row := s.rowType.id;
    && s.resultType.id == s.identity.id
    && Bound(ix, owner, s.identity.id)
    && ix.members[KeyOf(s.identity.id)].kind == "method" && ListOrText(ix.members[KeyOf(s.identity.id)].typ, row)
    && Bound(ix, owner, s.orderBinding.id)
    && Orders(ix.members[KeyOf(s.orderBinding.id)], row)
    && (s.filter.Some? ==> Bound(ix, owner, s.filter.value.id) && Filters(ix.members[KeyOf(s.filter.value.id)], row))
  }

  /** The fields of a section: its key, its columns, and those it filters and orders by. */
  predicate Shows(ix: Index, s: SectionSpec) {
    var row := s.rowType.id;
    && DeclaredRecord(ix, row) && TextFieldOf(ix, row, s.key.id)
    && s.columns != [] && Distinct(ColumnFields(s)) && Distinct(Plain(s.filterFields)) && Distinct(OrderFields(s))
    && (forall c :: c in s.columns ==> c.title != "" && FieldOf(ix, row, c.field.id))
    && (forall f :: f in s.filterFields ==> TextFieldOf(ix, row, f.id))
    && (forall o :: o in s.order ==> (o.direction == "ascending" || o.direction == "descending") && TextFieldOf(ix, row, o.field.id))
  }

  function ColumnFields(s: SectionSpec): seq<Identity> {
    seq(|s.columns|, i requires 0 <= i < |s.columns| => s.columns[i].field.id)
  }

  function OrderFields(s: SectionSpec): seq<Identity> {
    seq(|s.order|, i requires 0 <= i < |s.order| => s.order[i].field.id)
  }

  /** The fields that the section names are those that its Core operations use. */
  ghost predicate Agrees(ix: Index, s: SectionSpec)
    requires KeyOf(s.orderBinding.id) in ix.functions && (s.filter.Some? ==> KeyOf(s.filter.value.id) in ix.functions)
  {
    && SortsBy(ix.functions[KeyOf(s.orderBinding.id)].body, PlainOrder(s.order))
    && (s.filter.Some? ==> FiltersBy(ix.functions[KeyOf(s.filter.value.id)].body, Plain(s.filterFields)))
    && (s.filter.None? ==> s.filterFields == [])
  }

  ghost predicate Sound(ix: Index, owner: string, s: SectionSpec) {
    Operates(ix, owner, s) && Shows(ix, s) && Agrees(ix, s)
  }

  /** The application is a method that gives the snapshot. */
  predicate Heads(ix: Index, spec: Spec) {
    var app, snapshot := spec.identity.id, spec.snapshotType.id;
    && Callable(ix, app) && ix.members[KeyOf(app)].kind == "method" && KeyOf(app) in ix.owners
    && DeclaredRecord(ix, snapshot)
    && ix.members[KeyOf(app)].typ.identity == Some(snapshot) && ix.functions[KeyOf(app)].ret.identity == Some(snapshot)
  }

  /** A selection, if there is one, gives an optional row of some section. */
  predicate Selects(ix: Index, owner: string, spec: Spec) {
    spec.selection.Some? ==>
      && Bound(ix, owner, spec.selection.value.id)
      && var t := ix.members[KeyOf(spec.selection.value.id)].typ;
         Applied(t, "optional", 1) && exists s :: s in spec.sections && t.args[0].identity == Some(s.rowType.id)
  }

  /** So do details and logs give a text or a text for the error. */
  predicate Tells(ix: Index, owner: string, l: Option<Located>) {
    l.Some? ==> Bound(ix, owner, l.value.id) && TextOrText(ix.members[KeyOf(l.value.id)].typ)
  }

  predicate Ends(ix: Index, owner: string, spec: Spec) {
    Selects(ix, owner, spec) && Tells(ix, owner, spec.details) && Tells(ix, owner, spec.logs)
  }

  ghost predicate Admissible(ix: Index, spec: Spec) {
    Heads(ix, spec) &&
    var owner := ix.owners[KeyOf(spec.identity.id)];
    && spec.sections != []
    && (forall i, j :: 0 <= i < j < |spec.sections| ==> KeyOf(spec.sections[i].identity.id) != KeyOf(spec.sections[j].identity.id))
    && (forall s :: s in spec.sections ==> Sound(ix, owner, s))
    && Ends(ix, owner, spec)
  }

  ghost predicate Compatible(semantic: Option<Semantic>, core: Option<CoreProgram>) {
    && semantic.Some? && core.Some? && core.value.valid
    && semantic.value.schema == "pipelang.semantic.v1" && semantic.value.view == "public"
    && semantic.value.compiler == core.value.compiler && semantic.value.language == core.value.language
  }

  // ---------------------------------------------------------------------------------------
  // The proof, part by part
  // ---------------------------------------------------------------------------------------

  lemma FilterSelectorsIff(body: Body, fields: seq<Identity>)
    ensures FilterSelectors(body) == Some(fields) <==> FiltersBy(body, fields)
  {
  }

  lemma OrderSelectorsIff(body: Body, order: seq<Ordered>)
    ensures OrderSelectors(body) == Some(order) <==> SortsBy(body, order)
  {
    match body
    case SortByText(key) =>
      if key.Some? { assert Ascending([key.value]) == [Ordered(key.value, "ascending")]; }
    case SortByTexts(keys) =>
      if keys.Some? {
        var all := Ascending(keys.value);
        if |order| == |all| {
          assert order == all <==> forall i :: 0 <= i < |order| ==> order[i] == Ordered(keys.value[i], "ascending");
        }
      }
    case _ =>
  }

  lemma HasSeparator(i: Identity)
    ensures KeyOf(i) != ""
  {
  }

  lemma BindingIff(ix: Index, owner: string, s: SectionSpec)
    requires ix.members.Keys == ix.owners.Keys
    ensures BindingProblem(ix, owner, s).None? <==>
            && Operates(ix, owner, s) && DeclaredRecord(ix, s.rowType.id) && TextFieldOf(ix, s.rowType.id, s.key.id) && s.columns != []
  {
    HasSeparator(s.rowType.id);
  }

  lemma UsableColumns(ix: Index, s: SectionSpec)
    ensures AllUsable(ix, KeyOf(s.rowType.id), ColumnUses(s), false) <==>
            Distinct(ColumnFields(s)) && forall c :: c in s.columns ==> c.title != "" && FieldOf(ix, s.rowType.id, c.field.id)
  {
    HasSeparator(s.rowType.id);
    var us, fields := ColumnUses(s), ColumnFields(s);
    assert forall i :: 0 <= i < |us| ==> us[i].id == fields[i] == s.columns[i].field.id && (us[i].fine <==> s.columns[i].title != "");
    if AllUsable(ix, KeyOf(s.rowType.id), us, false) {
      forall c | c in s.columns ensures c.title != "" && FieldOf(ix, s.rowType.id, c.field.id) {
        var i :| 0 <= i < |us| && s.columns[i] == c;
        assert us[i].fine;
      }
      forall i, j | 0 <= i < j < |fields| ensures KeyOf(fields[i]) != KeyOf(fields[j]) { assert KeyOf(us[i].id) != KeyOf(us[j].id); }
    }
    if Distinct(fields) {
      forall i, j | 0 <= i < j < |us| ensures KeyOf(us[i].id) != KeyOf(us[j].id) { assert KeyOf(fields[i]) != KeyOf(fields[j]); }
    }
  }

  lemma UsableFilters(ix: Index, s: SectionSpec)
    ensures AllUsable(ix, KeyOf(s.rowType.id), FilterUses(s), true) <==>
            Distinct(Plain(s.filterFields)) && forall f :: f in s.filterFields ==> TextFieldOf(ix, s.rowType.id, f.id)
  {
    HasSeparator(s.rowType.id);
    var us, fields := FilterUses(s), Plain(s.filterFields);
    assert forall i :: 0 <= i < |us| ==> us[i].id == fields[i] == s.filterFields[i].id && us[i].fine;
    if AllUsable(ix, KeyOf(s.rowType.id), us, true) {
      forall f | f in s.filterFields ensures TextFieldOf(ix, s.rowType.id, f.id) {
        var i :| 0 <= i < |us| && s.filterFields[i] == f;
        assert us[i].fine;
      }
      forall i, j | 0 <= i < j < |fields| ensures KeyOf(fields[i]) != KeyOf(fields[j]) { assert KeyOf(us[i].id) != KeyOf(us[j].id); }
    }
    if Distinct(fields) {
      forall i, j | 0 <= i < j < |us| ensures KeyOf(us[i].id) != KeyOf(us[j].id) { assert KeyOf(fields[i]) != KeyOf(fields[j]); }
    }
  }

  lemma UsableOrders(ix: Index, s: SectionSpec)
    ensures AllUsable(ix, KeyOf(s.rowType.id), OrderUses(s), true) <==>
            && Distinct(OrderFields(s))
            && forall o :: o in s.order ==>
                 (o.direction == "ascending" || o.direction == "descending") && TextFieldOf(ix, s.rowType.id, o.field.id)
  {
    HasSeparator(s.rowType.id);
    var us, fields := OrderUses(s), OrderFields(s);
    assert forall i :: 0 <= i < |us| ==> us[i].id == fields[i] == s.order[i].field.id;
    assert forall i :: 0 <= i < |us| ==> (us[i].fine <==> s.order[i].direction == "ascending" || s.order[i].direction == "descending");
    if AllUsable(ix, KeyOf(s.rowType.id), us, true) {
      forall o | o in s.order
        ensures (o.direction == "ascending" || o.direction == "descending") && TextFieldOf(ix, s.rowType.id, o.field.id)
      {
        var i :| 0 <= i < |us| && s.order[i] == o;
        assert us[i].fine;
      }
      forall i, j | 0 <= i < j < |fields| ensures KeyOf(fields[i]) != KeyOf(fields[j]) { assert KeyOf(us[i].id) != KeyOf(us[j].id); }
    }
    if Distinct(fields) {
      forall i, j | 0 <= i < j < |us| ensures KeyOf(us[i].id) != KeyOf(us[j].id) { assert KeyOf(fields[i]) != KeyOf(fields[j]); }
    }
  }

  lemma AgreesIff(ix: Index, s: SectionSpec)
    requires KeyOf(s.orderBinding.id) in ix.functions && (s.filter.Some? ==> KeyOf(s.filter.value.id) in ix.functions)
    ensures FilterAgrees(ix, s) && OrderAgrees(ix, s) && (s.filter.None? ==> s.filterFields == []) <==> Agrees(ix, s)
  {
    OrderSelectorsIff(ix.functions[KeyOf(s.orderBinding.id)].body, PlainOrder(s.order));
    if s.filter.Some? { FilterSelectorsIff(ix.functions[KeyOf(s.filter.value.id)].body, Plain(s.filterFields)); }
  }

  lemma ShowsIff(ix: Index, s: SectionSpec)
    requires DeclaredRecord(ix, s.rowType.id) && TextFieldOf(ix, s.rowType.id, s.key.id) && s.columns != []
    ensures
      var row := KeyOf(s.rowType.id);
      AllUsable(ix, row, ColumnUses(s), false) && AllUsable(ix, row, FilterUses(s), true) && AllUsable(ix, row, OrderUses(s), true)
      <==> Shows(ix, s)
  {
    UsableColumns(ix, s);
    UsableFilters(ix, s);
    UsableOrders(ix, s);
  }

  lemma SectionIff(ix: Index, owner: string, s: SectionSpec)
    requires ix.members.Keys == ix.owners.Keys
    ensures SectionProblem(ix, owner, s).None? <==> Sound(ix, owner, s)
  {
    SectionFineIff(ix, owner, s);
    BindingIff(ix, owner, s);
    if BindingProblem(ix, owner, s).None? {
      ShowsIff(ix, s);
      AgreesIff(ix, s);
    }
  }

  lemma HeadIff(ix: Index, spec: Spec)
    requires ix.members.Keys == ix.owners.Keys
    ensures HeadProblem(ix, spec).None? <==> Heads(ix, spec)
  {
  }

  lemma SelectionRows(spec: Spec, i: Identity)
    ensures (exists s :: s in SortedSections(spec) && s.rowType == i) <==> exists s :: s in spec.sections && s.rowType.id == i
  {
    var all := ProjectedAll(spec.sections);
    if s :| s in SortedSections(spec) && s.rowType == i {
      SortSameElements(SectionLeq, all, s);
      var k :| 0 <= k < |all| && all[k] == s;
      assert spec.sections[k] in spec.sections && spec.sections[k].rowType.id == i;
    }
    if s :| s in spec.sections && s.rowType.id == i {
      var k :| 0 <= k < |spec.sections| && spec.sections[k] == s;
      assert all[k] in all && all[k].rowType == i;
      SortSameElements(SectionLeq, all, all[k]);
    }
  }

  lemma SelectionIff(ix: Index, owner: string, spec: Spec)
    requires ix.members.Keys == ix.owners.Keys
    ensures SelectionProblem(ix, owner, spec.selection, SortedSections(spec)).None? <==> Selects(ix, owner, spec)
  {
    if spec.selection.Some? && KeyOf(spec.selection.value.id) in ix.members {
      var t := ix.members[KeyOf(spec.selection.value.id)].typ;
      if |t.args| == 1 && t.args[0].identity.Some? { SelectionRows(spec, t.args[0].identity.value); }
    }
  }

  lemma TextIff(ix: Index, owner: string, l: Option<Located>, bad: Problem)
    requires ix.members.Keys == ix.owners.Keys
    ensures TextProblem(ix, owner, l, bad).None? <==> Tells(ix, owner, l)
  {
  }

  lemma TailIff(ix: Index, owner: string, spec: Spec)
    requires ix.members.Keys == ix.owners.Keys
    ensures TailProblem(ix, owner, spec, SortedSections(spec)).None? <==> spec.sections != [] && Ends(ix, owner, spec)
  {
    SortPermutes(SectionLeq, ProjectedAll(spec.sections));
    assert |multiset(ProjectedAll(spec.sections))| == |spec.sections|;
    SelectionIff(ix, owner, spec);
    TextIff(ix, owner, spec.details, BadDetails);
    TextIff(ix, owner, spec.logs, BadLogs);
  }

  lemma AdmissibleIff(ix: Index, spec: Spec)
    requires ix.members.Keys == ix.owners.Keys
    ensures FirstProblem(ix, spec).None? <==> Admissible(ix, spec)
  {
    var owner := OwnerOf(ix, spec.identity.id);
    HeadIff(ix, spec);
    TailIff(ix, owner, spec);
    SectionsFine(ix, owner, spec.sections);
    forall s | s in spec.sections ensures Fine(ix, owner, s) <==> Sound(ix, owner, s) { SectionIff(ix, owner, s); }
  }

  // ---------------------------------------------------------------------------------------
  // The theorems
  // ---------------------------------------------------------------------------------------

  /** There is an application exactly when the inputs fit together and the specification is admissible over them. */
  lemma ProjectsIff(semantic: Option<Semantic>, core: Option<CoreProgram>, spec: Spec)
    ensures Projects(semantic, core, spec).Ok? <==>
            Compatible(semantic, core) && Admissible(IndexOf(semantic.value, core.value), spec)
  {
    if Compatible(semantic, core) {
      TablesFromDeclarations(semantic.value, core.value);
      AdmissibleIff(IndexOf(semantic.value, core.value), spec);
    }
  }

  /** A section of the application says what a section of the specification says. */
  predicate Mirrors(x: Section, s: SectionSpec) {
    && x.identity == s.identity.id && x.resultType == s.resultType.id && x.rowType == s.rowType.id && x.key == s.key.id
    && |x.columns| == |s.columns| && |x.filterFields| == |s.filterFields| && |x.order| == |s.order|
    && (forall i :: 0 <= i < |x.columns| ==> x.columns[i].field == s.columns[i].field.id && x.columns[i].title == s.columns[i].title)
    && (forall i :: 0 <= i < |x.filterFields| ==> x.filterFields[i] == s.filterFields[i].id)
    && (forall i :: 0 <= i < |x.order| ==> x.order[i].field == s.order[i].field.id && x.order[i].direction == s.order[i].direction)
    && x.orderBinding == s.orderBinding.id && Names(x.filter, s.filter)
  }

  predicate Names(x: Option<Identity>, l: Option<Located>) {
    if l.Some? then x == Some(l.value.id) else x.None?
  }

  lemma ProjectedMirrors(s: SectionSpec)
    ensures Mirrors(Projected(s), s)
  {
  }

  /** The application says of itself, of its inputs and of each section what the specification and the inputs say, once. */
  lemma ApplicationMirrors(semantic: Option<Semantic>, core: Option<CoreProgram>, spec: Spec, app: Application)
    requires Projects(semantic, core, spec) == Ok(app)
    ensures app.schema == "dockpipe.application.v1" && app.identity == spec.identity.id && app.snapshotType == spec.snapshotType.id
    ensures app.metadata == Metadata(semantic.value.schema, core.value.language, core.value.compiler, semantic.value.pkg)
    ensures Names(app.selection, spec.selection) && Names(app.details, spec.details) && Names(app.logs, spec.logs)
    ensures |app.sections| == |spec.sections|
    ensures forall s :: s in spec.sections ==> exists x :: x in app.sections && Mirrors(x, s)
    ensures forall x :: x in app.sections ==> exists s :: s in spec.sections && Mirrors(x, s)
  {
    var all := ProjectedAll(spec.sections);
    SortPermutes(SectionLeq, all);
    assert |multiset(all)| == |spec.sections|;
    forall s | s in spec.sections ensures exists x :: x in app.sections && Mirrors(x, s) {
      SectionsKept(semantic, core, spec, app, s);
      ProjectedMirrors(s);
    }
    forall x | x in app.sections ensures exists s :: s in spec.sections && Mirrors(x, s) {
      SortSameElements(SectionLeq, all, x);
      var i :| 0 <= i < |all| && all[i] == x;
      ProjectedMirrors(spec.sections[i]);
      assert spec.sections[i] in spec.sections;
    }
  }

  // ---------------------------------------------------------------------------------------
  // What the Core operations of an application take and give
  // ---------------------------------------------------------------------------------------

  /** A type is named or primitive, not both, in all its parts. */
  predicate OneWay(t: SemType) {
    (t.primitive == "" || t.identity.None?) && forall i :: 0 <= i < |t.args| ==> OneWay(t.args[i])
  }

  predicate MemberOneWay(m: Member) {
    OneWay(m.typ) && forall i :: 0 <= i < |m.params| ==> OneWay(m.params[i].typ)
  }

  lemma ListShape(t: SemType, row: Identity)
    requires ListOfRows(t, row) && OneWay(t) && row.pkg != BUILTIN
    ensures Lower(t) == Some(ListOf(Rec(row)))
  {
    assert OneWay(t.args[0]);
  }

  lemma TextShape(t: SemType)
    requires t.primitive == "string"
    ensures Lower(t) == Some(Text)
  {
  }

  /**
   In an application the Core operation behind a section gives a list of its rows or a text exactly when the list named
   in the section's type is the built-in one: the check looks at its path alone.
   */
  lemma ResultFitsRows(ix: Index, owner: string, s: SectionSpec)
    requires Operates(ix, owner, s) && s.rowType.id.pkg != BUILTIN && MemberOneWay(ix.members[KeyOf(s.identity.id)])
    ensures
      ShapeOf(ix.functions[KeyOf(s.identity.id)].ret) == Some(ResultOf(ListOf(Rec(s.rowType.id)), Text)) <==>
      ix.members[KeyOf(s.identity.id)].typ.args[0].identity.value.pkg == "pipelang"
  {
    var t := ix.members[KeyOf(s.identity.id)].typ;
    MatchesIffLowered(t, ix.functions[KeyOf(s.identity.id)].ret);
    assert OneWay(t.args[0]) && OneWay(t.args[1]);
    TextShape(t.args[1]);
    if t.args[0].identity.value.pkg == BUILTIN { ListShape(t.args[0], s.rowType.id); }
  }

  /** In an application the order operation takes and gives lists of the section's rows; the filter operation also takes a text. */
  lemma OperationsFit(semantic: Option<Semantic>, core: Option<CoreProgram>, spec: Spec, app: Application, s: SectionSpec)
    requires Projects(semantic, core, spec) == Ok(app) && s in spec.sections && s.rowType.id.pkg != BUILTIN
    requires forall k :: k in IndexOf(semantic.value, core.value).members ==> MemberOneWay(IndexOf(semantic.value, core.value).members[k])
    ensures
      var ix, rows := IndexOf(semantic.value, core.value), Some(ListOf(Rec(s.rowType.id)));
      && KeyOf(s.orderBinding.id) in ix.functions && KeyOf(s.identity.id) in ix.functions
      && (var f := ix.functions[KeyOf(s.orderBinding.id)]; |f.params| == 1 && ShapeOf(f.params[0].typ) == rows && ShapeOf(f.ret) == rows)
      && (s.filter.Some? ==>
            KeyOf(s.filter.value.id) in ix.functions &&
            var f := ix.functions[KeyOf(s.filter.value.id)];
            |f.params| == 2 && ShapeOf(f.params[0].typ) == rows && ShapeOf(f.params[1].typ) == Some(Text) && ShapeOf(f.ret) == rows)
  {
    ProjectsIff(semantic, core, spec);
    var ix := IndexOf(semantic.value, core.value);
    assert Sound(ix, ix.owners[KeyOf(spec.identity.id)], s);
    OrderFitsRows(ix, ix.owners[KeyOf(spec.identity.id)], s);
    if s.filter.Some? { FilterFitsRows(ix, ix.owners[KeyOf(spec.identity.id)], s); }
  }

  lemma OrderFitsRows(ix: Index, owner: string, s: SectionSpec)
    requires Operates(ix, owner, s) && s.rowType.id.pkg != BUILTIN && MemberOneWay(ix.members[KeyOf(s.orderBinding.id)])
    ensures
      var f, rows := ix.functions[KeyOf(s.orderBinding.id)], Some(ListOf(Rec(s.rowType.id)));
      |f.params| == 1 && ShapeOf(f.params[0].typ) == rows && ShapeOf(f.ret) == rows
  {
    var m, f := ix.members[KeyOf(s.orderBinding.id)], ix.functions[KeyOf(s.orderBinding.id)];
    MatchesIffLowered(m.typ, f.ret);
    MatchesIffLowered(m.params[0].typ, f.params[0].typ);
    ListShape(m.typ, s.rowType.id);
    ListShape(m.params[0].typ, s.rowType.id);
  }

  lemma FilterFitsRows(ix: Index, owner: string, s: SectionSpec)
    requires Operates(ix, owner, s) && s.rowType.id.pkg != BUILTIN && s.filter.Some? && MemberOneWay(ix.members[KeyOf(s.filter.value.id)])
    ensures
      var f, rows := ix.functions[KeyOf(s.filter.value.id)], Some(ListOf(Rec(s.rowType.id)));
      |f.params| == 2 && ShapeOf(f.params[0].typ) == rows && ShapeOf(f.params[1].typ) == Some(Text) && ShapeOf(f.ret) == rows
  {
    var m, f := ix.members[KeyOf(s.filter.value.id)], ix.functions[KeyOf(s.filter.value.id)];
    MatchesIffLowered(m.typ, f.ret);
    MatchesIffLowered(m.params[0].typ, f.params[0].typ);
    MatchesIffLowered(m.params[1].typ, f.params[1].typ);
    ListShape(m.typ, s.rowType.id);
    ListShape(m.params[0].typ, s.rowType.id);
    TextShape(m.params[1].typ);
  }
}
