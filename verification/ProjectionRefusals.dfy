/** When projection refuses, the problem it names is one that the specification has. */
module ProjectionRefusals {
  import opened Outcomes
  import opened Ordering
  import opened CoreTypes
  import opened Projection
  import opened ProjectionTheorems
  import opened ProjectionMeaning

  /** The specification names `i` outside its sections. */
  predicate NamedBySpec(spec: Spec, i: Identity) {
    || i == spec.identity.id || i == spec.snapshotType.id
    || Names(Some(i), spec.selection) || Names(Some(i), spec.details) || Names(Some(i), spec.logs)
  }

  predicate NamedBySection(s: SectionSpec, i: Identity) {
    || i in [s.identity.id, s.resultType.id, s.rowType.id, s.key.id, s.orderBinding.id] || Names(Some(i), s.filter)
    || i in ColumnFields(s) || i in Plain(s.filterFields) || i in OrderFields(s)
  }

  /** What a problem says of a section that has it. */
  ghost predicate SectionHas(ix: Index, owner: string, s: SectionSpec, e: Problem) {
    var row := s.rowType.id;
    match e
    case Unknown => exists i :: NamedBySection(s, i) && !Declared(ix, i)
    case NotItsResult => s.identity.id != s.resultType.id
    case NotAMethod => !(Belongs(ix, owner, s.identity.id) && ix.members[KeyOf(s.identity.id)].kind == "method")
    case RowNotRecord => !DeclaredRecord(ix, row)
    case BadResult => !(Bound(ix, owner, s.identity.id) && ListOrText(ix.members[KeyOf(s.identity.id)].typ, row))
    case BadKey => !TextFieldOf(ix, row, s.key.id)
    case BadOrderBinding => !(Bound(ix, owner, s.orderBinding.id) && Orders(ix.members[KeyOf(s.orderBinding.id)], row))
    case BadFilterBinding =>
      s.filter.Some? && !(Bound(ix, owner, s.filter.value.id) && Filters(ix.members[KeyOf(s.filter.value.id)], row))
    case NoColumns => s.columns == []
    case BadChoice =>
      (exists c :: c in s.columns && c.title == "") || (exists o :: o in s.order && o.direction !in {"ascending", "descending"})
    case ForeignField =>
      || (exists i :: i in ColumnFields(s) && !FieldOf(ix, row, i))
      || (exists i :: (i in Plain(s.filterFields) || i in OrderFields(s)) && !TextFieldOf(ix, row, i))
    case DuplicateField => !Distinct(ColumnFields(s)) || !Distinct(Plain(s.filterFields)) || !Distinct(OrderFields(s))
    case FilterMismatch =>
      s.filter.Some? && (KeyOf(s.filter.value.id) in ix.functions ==>
                           !FiltersBy(ix.functions[KeyOf(s.filter.value.id)].body, Plain(s.filterFields)))
    case FieldsWithoutFilter => s.filter.None? && s.filterFields != []
    case OrderMismatch =>
      KeyOf(s.orderBinding.id) in ix.functions ==> !SortsBy(ix.functions[KeyOf(s.orderBinding.id)].body, PlainOrder(s.order))
    case _ => false
  }

  predicate Belongs(ix: Index, owner: string, i: Identity) {
    Declared(ix, i) && KeyOf(i) in ix.members && KeyOf(i) in ix.owners && ix.owners[KeyOf(i)] == owner
  }

  /** What a problem says of a specification that has it. */
  ghost predicate Has(ix: Index, spec: Spec, e: Problem) {
    var owner := OwnerOf(ix, spec.identity.id);
    match e
    case BadApplication => !(Callable(ix, spec.identity.id) && ix.members[KeyOf(spec.identity.id)].kind == "method")
    case BadSnapshot => !Heads(ix, spec)
    case DuplicateSection => !KeysDistinct(spec.sections)
    case NoSections => spec.sections == []
    case BadSelection => !Selects(ix, owner, spec)
    case BadDetails => !Tells(ix, owner, spec.details)
    case BadLogs => !Tells(ix, owner, spec.logs)
    case Unknown =>
      (exists i :: NamedBySpec(spec, i) && !Declared(ix, i)) || (exists s :: s in spec.sections && SectionHas(ix, owner, s, e))
    case _ => exists s :: s in spec.sections && SectionHas(ix, owner, s, e)
  }

  /** The problem with a use of a field, as a problem of the field's list. */
  ghost predicate UseHas(ix: Index, row: string, us: seq<Use>, text: bool, e: Problem) {
    match e
    case BadChoice => exists i :: 0 <= i < |us| && !us[i].fine
    case Unknown => exists i :: 0 <= i < |us| && !IsKnown(ix, us[i].id)
    case ForeignField => exists i :: 0 <= i < |us| && (OwnerOf(ix, us[i].id) != row || (text && !IsText(ix, us[i].id)))
    case DuplicateField => exists i, j :: 0 <= i < j < |us| && KeyOf(us[i].id) == KeyOf(us[j].id)
    case _ => false
  }

  lemma {:induction false} UsesBlame(ix: Index, row: string, us: seq<Use>, text: bool)
    requires UsesProblem(ix, row, us, text).Some?
    ensures UseHas(ix, row, us, text, UsesProblem(ix, row, us, text).value)
  {
    var init, last := us[..|us| - 1], us[|us| - 1];
    if UsesProblem(ix, row, init, text).Some? {
      UsesBlame(ix, row, init, text);
      UseHasMore(ix, row, us, text, UsesProblem(ix, row, init, text).value);
    } else {
      assert us[|us| - 1] == last;
      if KeyOf(last.id) in UseKeys(init) {
        var i :| 0 <= i < |init| && KeyOf(init[i].id) == KeyOf(last.id);
        assert us[i] == init[i];
      }
    }
  }

  lemma UseHasMore(ix: Index, row: string, us: seq<Use>, text: bool, e: Problem)
    requires us != [] && UseHas(ix, row, us[..|us| - 1], text, e)
    ensures UseHas(ix, row, us, text, e)
  {
    var init := us[..|us| - 1];
    assert forall i :: 0 <= i < |init| ==> init[i] == us[i];
    if e.DuplicateField? {
      var i, j :| 0 <= i < j < |init| && KeyOf(init[i].id) == KeyOf(init[j].id);
      assert us[i] == init[i] && us[j] == init[j];
    }
  }

  // ---------------------------------------------------------------------------------------
  // Sections
  // ---------------------------------------------------------------------------------------

  lemma ColumnsBlame(ix: Index, owner: string, s: SectionSpec, e: Problem)
    requires UseHas(ix, KeyOf(s.rowType.id), ColumnUses(s), false, e)
    ensures SectionHas(ix, owner, s, e)
  {
    var us, fields := ColumnUses(s), ColumnFields(s);
    assert |us| == |fields| == |s.columns|;
    match e
    case BadChoice =>
      var i :| 0 <= i < |us| && !us[i].fine;
      assert s.columns[i] in s.columns && s.columns[i].title == "";
    case Unknown =>
      var i :| 0 <= i < |us| && !IsKnown(ix, us[i].id);
      assert fields[i] == us[i].id && NamedBySection(s, fields[i]);
    case ForeignField =>
      HasSeparator(s.rowType.id);
      var i :| 0 <= i < |us| && OwnerOf(ix, us[i].id) != KeyOf(s.rowType.id);
      assert fields[i] == us[i].id && fields[i] in fields;
    case DuplicateField =>
      var i, j :| 0 <= i < j < |us| && KeyOf(us[i].id) == KeyOf(us[j].id);
      assert fields[i] == us[i].id && fields[j] == us[j].id;
  }

  lemma FiltersBlame(ix: Index, owner: string, s: SectionSpec, e: Problem)
    requires UseHas(ix, KeyOf(s.rowType.id), FilterUses(s), true, e)
    ensures SectionHas(ix, owner, s, e)
  {
    var us, fields := FilterUses(s), Plain(s.filterFields);
    assert |us| == |fields| && forall i :: 0 <= i < |us| ==> us[i].fine && us[i].id == fields[i];
    match e
    case Unknown =>
      var i :| 0 <= i < |us| && !IsKnown(ix, us[i].id);
      assert fields[i] == us[i].id && NamedBySection(s, fields[i]);
    case ForeignField =>
      HasSeparator(s.rowType.id);
      var i :| 0 <= i < |us| && (OwnerOf(ix, us[i].id) != KeyOf(s.rowType.id) || !IsText(ix, us[i].id));
      assert fields[i] == us[i].id && fields[i] in fields && !TextFieldOf(ix, s.rowType.id, fields[i]);
    case DuplicateField =>
      var i, j :| 0 <= i < j < |us| && KeyOf(us[i].id) == KeyOf(us[j].id);
      assert fields[i] == us[i].id && fields[j] == us[j].id;
    case BadChoice =>
  }

  lemma OrdersBlame(ix: Index, owner: string, s: SectionSpec, e: Problem)
    requires UseHas(ix, KeyOf(s.rowType.id), OrderUses(s), true, e)
    ensures SectionHas(ix, owner, s, e)
  {
    var us, fields := OrderUses(s), OrderFields(s);
    assert |us| == |fields| == |s.order| && forall i :: 0 <= i < |us| ==> us[i].id == fields[i];
    match e
    case BadChoice =>
      var i :| 0 <= i < |us| && !us[i].fine;
      assert s.order[i] in s.order && s.order[i].direction !in {"ascending", "descending"};
    case Unknown =>
      var i :| 0 <= i < |us| && !IsKnown(ix, us[i].id);
      assert fields[i] == us[i].id && NamedBySection(s, fields[i]);
    case ForeignField =>
      HasSeparator(s.rowType.id);
      var i :| 0 <= i < |us| && (OwnerOf(ix, us[i].id) != KeyOf(s.rowType.id) || !IsText(ix, us[i].id));
      assert fields[i] == us[i].id && fields[i] in fields && !TextFieldOf(ix, s.rowType.id, fields[i]);
    case DuplicateField =>
      var i, j :| 0 <= i < j < |us| && KeyOf(us[i].id) == KeyOf(us[j].id);
      assert fields[i] == us[i].id && fields[j] == us[j].id;
  }

  lemma FieldsBlame(ix: Index, owner: string, s: SectionSpec)
    requires FieldsProblem(ix, s).Some?
    ensures SectionHas(ix, owner, s, FieldsProblem(ix, s).value)
  {
    var row := KeyOf(s.rowType.id);
    if UsesProblem(ix, row, ColumnUses(s), false).Some? {
      UsesBlame(ix, row, ColumnUses(s), false);
      ColumnsBlame(ix, owner, s, FieldsProblem(ix, s).value);
    } else if UsesProblem(ix, row, FilterUses(s), true).Some? {
      UsesBlame(ix, row, FilterUses(s), true);
      FiltersBlame(ix, owner, s, FieldsProblem(ix, s).value);
    } else if UsesProblem(ix, row, OrderUses(s), true).Some? {
      UsesBlame(ix, row, OrderUses(s), true);
      OrdersBlame(ix, owner, s, FieldsProblem(ix, s).value);
    } else {
      AgreementBlame(ix, owner, s);
    }
  }

  lemma AgreementBlame(ix: Index, owner: string, s: SectionSpec)
    ensures !FilterAgrees(ix, s) ==> SectionHas(ix, owner, s, FilterMismatch)
    ensures s.filter.None? && s.filterFields != [] ==> SectionHas(ix, owner, s, FieldsWithoutFilter)
    ensures !OrderAgrees(ix, s) ==> SectionHas(ix, owner, s, OrderMismatch)
  {
    if s.filter.Some? && KeyOf(s.filter.value.id) in ix.functions {
      FilterSelectorsIff(ix.functions[KeyOf(s.filter.value.id)].body, Plain(s.filterFields));
    }
    if KeyOf(s.orderBinding.id) in ix.functions {
      OrderSelectorsIff(ix.functions[KeyOf(s.orderBinding.id)].body, PlainOrder(s.order));
    }
  }

  lemma NamesOfSection(s: SectionSpec)
    ensures NamedBySection(s, s.identity.id) && NamedBySection(s, s.resultType.id) && NamedBySection(s, s.rowType.id)
    ensures NamedBySection(s, s.key.id) && NamedBySection(s, s.orderBinding.id)
    ensures s.filter.Some? ==> NamedBySection(s, s.filter.value.id)
  {
  }

  lemma BindingBlame(ix: Index, owner: string, s: SectionSpec)
    requires BindingProblem(ix, owner, s).Some?
    ensures SectionHas(ix, owner, s, BindingProblem(ix, owner, s).value)
  {
    if BindingProblem(ix, owner, s).value.Unknown? { UnknownBlame(ix, owner, s); } else { MisfitBlame(ix, owner, s); }
  }

  lemma UnknownBlame(ix: Index, owner: string, s: SectionSpec)
    requires BindingProblem(ix, owner, s) == Some(Unknown)
    ensures exists i :: NamedBySection(s, i) && !Declared(ix, i)
  {
    NamesOfSection(s);
  }

  lemma MisfitBlame(ix: Index, owner: string, s: SectionSpec)
    requires BindingProblem(ix, owner, s).Some? && !BindingProblem(ix, owner, s).value.Unknown?
    ensures SectionHas(ix, owner, s, BindingProblem(ix, owner, s).value)
  {
    HasSeparator(s.rowType.id);
  }

  lemma {:induction false} SectionsBlame(ix: Index, owner: string, ss: seq<SectionSpec>)
    requires SectionsProblem(ix, owner, ss).Some?
    ensures
      var e := SectionsProblem(ix, owner, ss).value;
      (e.DuplicateSection? && !KeysDistinct(ss)) || exists s :: s in ss && SectionHas(ix, owner, s, e)
  {
    var init, last := ss[..|ss| - 1], ss[|ss| - 1];
    assert ss == init + [last];
    if SectionsProblem(ix, owner, init).Some? {
      SectionsBlame(ix, owner, init);
      KeysSnoc(init, last);
    } else if KeyOf(last.identity.id) in SectionKeys(init) {
      KeysSnoc(init, last);
    } else if BindingProblem(ix, owner, last).Some? {
      BindingBlame(ix, owner, last);
    } else {
      FieldsBlame(ix, owner, last);
    }
  }

  // ---------------------------------------------------------------------------------------
  // The whole specification
  // ---------------------------------------------------------------------------------------

  lemma HeadBlame(ix: Index, spec: Spec)
    requires ix.members.Keys == ix.owners.Keys && HeadProblem(ix, spec).Some?
    ensures Has(ix, spec, HeadProblem(ix, spec).value)
  {
    assert NamedBySpec(spec, spec.identity.id) && NamedBySpec(spec, spec.snapshotType.id);
  }

  lemma SelectionBlame(ix: Index, spec: Spec)
    requires ix.members.Keys == ix.owners.Keys
    ensures
      var p := SelectionProblem(ix, OwnerOf(ix, spec.identity.id), spec.selection, SortedSections(spec));
      p.Some? ==> Has(ix, spec, p.value)
  {
    SelectionIff(ix, OwnerOf(ix, spec.identity.id), spec);
    NamesOfSpec(spec);
  }

  lemma TextBlame(ix: Index, spec: Spec, l: Option<Located>, bad: Problem)
    requires ix.members.Keys == ix.owners.Keys
    requires (l == spec.details && bad == BadDetails) || (l == spec.logs && bad == BadLogs)
    ensures
      var p := TextProblem(ix, OwnerOf(ix, spec.identity.id), l, bad);
      p.Some? ==> Has(ix, spec, p.value)
  {
    TextIff(ix, OwnerOf(ix, spec.identity.id), l, bad);
    NamesOfSpec(spec);
  }

  lemma TailBlame(ix: Index, spec: Spec)
    requires ix.members.Keys == ix.owners.Keys
    requires TailProblem(ix, OwnerOf(ix, spec.identity.id), spec, SortedSections(spec)).Some?
    ensures Has(ix, spec, TailProblem(ix, OwnerOf(ix, spec.identity.id), spec, SortedSections(spec)).value)
  {
    SelectionBlame(ix, spec);
    TextBlame(ix, spec, spec.details, BadDetails);
    TextBlame(ix, spec, spec.logs, BadLogs);
    NoSectionsIff(spec);
  }

  lemma NamesOfSpec(spec: Spec)
    ensures spec.selection.Some? ==> NamedBySpec(spec, spec.selection.value.id)
    ensures spec.details.Some? ==> NamedBySpec(spec, spec.details.value.id)
    ensures spec.logs.Some? ==> NamedBySpec(spec, spec.logs.value.id)
  {
  }

  lemma NoSectionsIff(spec: Spec)
    ensures SortedSections(spec) == [] <==> spec.sections == []
  {
    SortPermutes(SectionLeq, ProjectedAll(spec.sections));
    assert |multiset(ProjectedAll(spec.sections))| == |spec.sections|;
  }

  /** Of inputs that do not fit together, which way they do not. */
  ghost predicate InputsHave(semantic: Option<Semantic>, core: Option<CoreProgram>, e: Problem) {
    match e
    case NoInputs => semantic.None? || core.None?
    case NotPublic => semantic.Some? && (semantic.value.schema != "pipelang.semantic.v1" || semantic.value.view != "public")
    case ContractMismatch =>
      semantic.Some? && core.Some? && (semantic.value.compiler != core.value.compiler || semantic.value.language != core.value.language)
    case InvalidCore => core.Some? && !core.value.valid
    case _ => false
  }

  /** Whatever problem projection reports, the inputs or the specification do have it. */
  lemma RefusalIsTrue(semantic: Option<Semantic>, core: Option<CoreProgram>, spec: Spec, e: Problem)
    requires Projects(semantic, core, spec) == Bad(e)
    ensures InputsHave(semantic, core, e) || (Compatible(semantic, core) && Has(IndexOf(semantic.value, core.value), spec, e))
  {
    if InputProblem(semantic, core).None? {
      var ix := IndexOf(semantic.value, core.value);
      TablesFromDeclarations(semantic.value, core.value);
      FirstBlame(ix, spec);
    }
  }

  lemma FirstBlame(ix: Index, spec: Spec)
    requires ix.members.Keys == ix.owners.Keys && FirstProblem(ix, spec).Some?
    ensures Has(ix, spec, FirstProblem(ix, spec).value)
  {
    var owner := OwnerOf(ix, spec.identity.id);
    if HeadProblem(ix, spec).Some? {
      HeadBlame(ix, spec);
    } else if SectionsProblem(ix, owner, spec.sections).Some? {
      SectionsBlame(ix, owner, spec.sections);
    } else {
      TailBlame(ix, spec);
    }
  }
}
