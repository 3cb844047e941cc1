/** The projection is canonical: it does not depend on the order in which the sections are given. */
module ProjectionTheorems {
  import opened Outcomes
  import opened Ordering
  import opened CoreTypes
  import opened Projection

  // ---------------------------------------------------------------------------------------
  // When it succeeds
  // ---------------------------------------------------------------------------------------

  ghost predicate KeysDistinct(ss: seq<SectionSpec>) {
    forall i, j :: 0 <= i < j < |ss| ==> KeyOf(ss[i].identity.id) != KeyOf(ss[j].identity.id)
  }

  ghost predicate EachFine(ix: Index, owner: string, ss: seq<SectionSpec>) {
    forall s :: s in ss ==> Fine(ix, owner, s)
  }

  lemma KeysSnoc(ss: seq<SectionSpec>, last: SectionSpec)
    ensures KeysDistinct(ss + [last]) <==> KeysDistinct(ss) && KeyOf(last.identity.id) !in SectionKeys(ss)
  {
    var all := ss + [last];
    if KeysDistinct(all) {
      forall i, j | 0 <= i < j < |ss| ensures KeyOf(ss[i].identity.id) != KeyOf(ss[j].identity.id) {
        assert all[i] == ss[i] && all[j] == ss[j];
      }
      forall i | 0 <= i < |ss| ensures KeyOf(ss[i].identity.id) != KeyOf(last.identity.id) {
        assert all[i] == ss[i] && all[|ss|] == last;
      }
    }
  }

  ghost predicate Fine(ix: Index, owner: string, s: SectionSpec) {
    SectionProblem(ix, owner, s).None?
  }

  lemma EachSnoc(ix: Index, owner: string, ss: seq<SectionSpec>, last: SectionSpec)
    ensures EachFine(ix, owner, ss + [last]) <==> EachFine(ix, owner, ss) && Fine(ix, owner, last)
  {
    assert forall s :: s in ss + [last] <==> s in ss || s == last;
  }

  lemma ProblemSnoc(ix: Index, owner: string, ss: seq<SectionSpec>, last: SectionSpec)
    ensures SectionsProblem(ix, owner, ss + [last]).None? <==>
            SectionsProblem(ix, owner, ss).None? && KeyOf(last.identity.id) !in SectionKeys(ss) && Fine(ix, owner, last)
  {
    var all := ss + [last];
    SectionsSnoc(ix, owner, all, |ss|);
    assert all[..|ss| + 1] == all && all[..|ss|] == ss;
  }

  lemma {:induction false} SectionsFine(ix: Index, owner: string, ss: seq<SectionSpec>)
    ensures SectionsProblem(ix, owner, ss).None? <==> KeysDistinct(ss) && EachFine(ix, owner, ss)
  {
    if ss != [] {
      var init, last := ss[..|ss| - 1], ss[|ss| - 1];
      assert ss == init + [last];
      SectionsFine(ix, owner, init);
      KeysSnoc(init, last);
      EachSnoc(ix, owner, init, last);
      ProblemSnoc(ix, owner, init, last);
    }
  }

  /** A section is fine exactly when its bindings are, its fields can be used, and both agree with the Core operations. */
  lemma SectionFineIff(ix: Index, owner: string, s: SectionSpec)
    ensures
      var row := KeyOf(s.rowType.id);
      SectionProblem(ix, owner, s).None? <==>
      && BindingProblem(ix, owner, s).None?
      && AllUsable(ix, row, ColumnUses(s), false) && AllUsable(ix, row, FilterUses(s), true) && AllUsable(ix, row, OrderUses(s), true)
      && FilterAgrees(ix, s) && OrderAgrees(ix, s) && (s.filter.None? ==> s.filterFields == [])
  {
    var row := KeyOf(s.rowType.id);
    NoProblemIffUsable(ix, row, ColumnUses(s), false);
    NoProblemIffUsable(ix, row, FilterUses(s), true);
    NoProblemIffUsable(ix, row, OrderUses(s), true);
  }

  // ---------------------------------------------------------------------------------------
  // Rearranging
  // ---------------------------------------------------------------------------------------

  lemma SameElements<T>(xs: seq<T>, ys: seq<T>)
    requires multiset(xs) == multiset(ys)
    ensures forall x :: x in xs <==> x in ys
  {
    assert forall x :: x in xs <==> x in multiset(xs);
    assert forall x :: x in ys <==> x in multiset(ys);
  }

  lemma TwoPlaces<T>(xs: seq<T>, i: nat, j: nat)
    requires i < j < |xs| && xs[i] == xs[j]
    ensures multiset(xs)[xs[i]] >= 2
  {
    assert xs == xs[..j] + xs[j..];
    assert xs[i] in xs[..j] && xs[j] in xs[j..];
    assert multiset(xs) == multiset(xs[..j]) + multiset(xs[j..]);
  }

  lemma {:induction false} OnePlace(ss: seq<SectionSpec>, s: SectionSpec)
    requires KeysDistinct(ss)
    ensures multiset(ss)[s] <= 1
  {
    if ss != [] {
      var init, last := ss[..|ss| - 1], ss[|ss| - 1];
      assert ss == init + [last];
      assert KeysDistinct(init);
      OnePlace(init, s);
      assert forall i :: 0 <= i < |init| ==> init[i] != last;
      assert last !in multiset(init);
    }
  }

  lemma DistinctAnyOrder(xs: seq<SectionSpec>, ys: seq<SectionSpec>)
    requires multiset(xs) == multiset(ys) && KeysDistinct(xs)
    ensures KeysDistinct(ys)
  {
    SameElements(xs, ys);
    forall i, j | 0 <= i < j < |ys| ensures KeyOf(ys[i].identity.id) != KeyOf(ys[j].identity.id) {
      assert ys[i] in xs && ys[j] in xs;
      if ys[i] == ys[j] {
        TwoPlaces(ys, i, j);
        OnePlace(xs, ys[i]);
        assert false;
      } else {
        var a :| 0 <= a < |xs| && xs[a] == ys[i];
        var b :| 0 <= b < |xs| && xs[b] == ys[j];
        assert a < b || b < a;
      }
    }
  }

  function Without(ss: seq<SectionSpec>, j: nat): seq<SectionSpec>
    requires j < |ss|
  {
    ss[..j] + ss[j + 1..]
  }

  lemma WithoutOne(ss: seq<SectionSpec>, j: nat)
    requires j < |ss|
    ensures multiset(ss) == multiset(Without(ss, j)) + multiset{ss[j]}
    ensures multiset(ProjectedAll(ss)) == multiset(ProjectedAll(Without(ss, j))) + multiset{Projected(ss[j])}
  {
    assert ss == ss[..j] + ([ss[j]] + ss[j + 1..]);
    assert ProjectedAll(ss) == ProjectedAll(ss[..j]) + ([Projected(ss[j])] + ProjectedAll(ss[j + 1..]));
    assert ProjectedAll(Without(ss, j)) == ProjectedAll(ss[..j]) + ProjectedAll(ss[j + 1..]);
  }

  lemma {:induction false} ProjectedAnyOrder(xs: seq<SectionSpec>, ys: seq<SectionSpec>)
    requires multiset(xs) == multiset(ys)
    ensures multiset(ProjectedAll(xs)) == multiset(ProjectedAll(ys))
    decreases |xs|
  {
    if xs == [] {
      assert |multiset(ys)| == 0;
    } else {
      SameElements(xs, ys);
      assert xs[0] in ys;
      var j :| 0 <= j < |ys| && ys[j] == xs[0];
      WithoutOne(xs, 0);
      WithoutOne(ys, j);
      assert multiset(Without(xs, 0)) == multiset(xs) - multiset{xs[0]};
      assert multiset(Without(ys, j)) == multiset(ys) - multiset{xs[0]};
      ProjectedAnyOrder(Without(xs, 0), Without(ys, j));
    }
  }

  lemma SectionLeqTotal()
    ensures TotalPreorder(SectionLeq)
  {
    forall x, y ensures SectionLeq(x, y) || SectionLeq(y, x) { StrTotal(KeyOf(x.identity), KeyOf(y.identity)); }
    forall x, y, z | SectionLeq(x, y) && SectionLeq(y, z) ensures SectionLeq(x, z) {
      StrTransitive(KeyOf(x.identity), KeyOf(y.identity), KeyOf(z.identity));
    }
  }

  /** Sections that tie in the order are one section. */
  lemma TiesAreEqual(ss: seq<SectionSpec>, x: Section, y: Section)
    requires KeysDistinct(ss) && x in ProjectedAll(ss) && y in ProjectedAll(ss) && SectionLeq(x, y) && SectionLeq(y, x)
    ensures x == y
  {
    StrAntisymmetric(KeyOf(x.identity), KeyOf(y.identity));
    var i :| 0 <= i < |ss| && Projected(ss[i]) == x;
    var j :| 0 <= j < |ss| && Projected(ss[j]) == y;
    assert !(i < j) && !(j < i);
  }

  lemma SortedAnyOrder(xs: seq<SectionSpec>, ys: seq<SectionSpec>)
    requires multiset(xs) == multiset(ys) && KeysDistinct(xs)
    ensures Sort(SectionLeq, ProjectedAll(xs)) == Sort(SectionLeq, ProjectedAll(ys))
  {
    var a, b := Sort(SectionLeq, ProjectedAll(xs)), Sort(SectionLeq, ProjectedAll(ys));
    SectionLeqTotal();
    ProjectedAnyOrder(xs, ys);
    SortPermutes(SectionLeq, ProjectedAll(xs));
    SortPermutes(SectionLeq, ProjectedAll(ys));
    SortSorts(SectionLeq, ProjectedAll(xs));
    SortSorts(SectionLeq, ProjectedAll(ys));
    forall x, y | x in a && y in a && SectionLeq(x, y) && SectionLeq(y, x) ensures x == y {
      SortSameElements(SectionLeq, ProjectedAll(xs), x);
      SortSameElements(SectionLeq, ProjectedAll(xs), y);
      TiesAreEqual(xs, x, y);
    }
    SortedUnique(SectionLeq, a, b);
  }

  // ---------------------------------------------------------------------------------------
  // The theorems
  // ---------------------------------------------------------------------------------------

  lemma ProblemsAnyOrder(ix: Index, spec: Spec, sections: seq<SectionSpec>)
    requires multiset(sections) == multiset(spec.sections)
    ensures FirstProblem(ix, spec).None? <==> FirstProblem(ix, spec.(sections := sections)).None?
    ensures FirstProblem(ix, spec).None? ==> SortedSections(spec) == SortedSections(spec.(sections := sections))
  {
    var owner := OwnerOf(ix, spec.identity.id);
    SectionsAnyOrder(ix, owner, spec.sections, sections);
    HeadSame(ix, spec, sections);
    if SectionsProblem(ix, owner, spec.sections).None? {
      TailSame(ix, owner, spec, sections);
    }
  }

  /** Rearranging the sections changes neither whether there is an application nor which. */
  lemma SectionOrderIrrelevant(semantic: Option<Semantic>, core: Option<CoreProgram>, spec: Spec, sections: seq<SectionSpec>)
    requires multiset(sections) == multiset(spec.sections)
    ensures
      var r, r' := Projects(semantic, core, spec), Projects(semantic, core, spec.(sections := sections));
      (r.Ok? <==> r'.Ok?) && (r.Ok? ==> r == r')
  {
    if InputProblem(semantic, core).None? {
      ProblemsAnyOrder(IndexOf(semantic.value, core.value), spec, sections);
    }
  }

  lemma SectionsAnyOrder(ix: Index, owner: string, xs: seq<SectionSpec>, ys: seq<SectionSpec>)
    requires multiset(ys) == multiset(xs)
    ensures SectionsProblem(ix, owner, xs).None? <==> SectionsProblem(ix, owner, ys).None?
    ensures SectionsProblem(ix, owner, xs).None? ==> Sort(SectionLeq, ProjectedAll(xs)) == Sort(SectionLeq, ProjectedAll(ys))
  {
    SectionsFine(ix, owner, xs);
    SectionsFine(ix, owner, ys);
    SameElements(xs, ys);
    if KeysDistinct(xs) {
      DistinctAnyOrder(xs, ys);
      SortedAnyOrder(xs, ys);
    }
    if KeysDistinct(ys) { DistinctAnyOrder(ys, xs); }
  }

  lemma HeadSame(ix: Index, spec: Spec, sections: seq<SectionSpec>)
    ensures HeadProblem(ix, spec) == HeadProblem(ix, spec.(sections := sections))
  {
  }

  lemma TailSame(ix: Index, owner: string, spec: Spec, sections: seq<SectionSpec>)
    requires SortedSections(spec) == SortedSections(spec.(sections := sections))
    ensures TailProblem(ix, owner, spec, SortedSections(spec)) ==
            TailProblem(ix, owner, spec.(sections := sections), SortedSections(spec.(sections := sections)))
  {
  }

  /** In an application the sections come in strictly increasing order of their keys. */
  lemma SectionsIncrease(semantic: Option<Semantic>, core: Option<CoreProgram>, spec: Spec, app: Application, i: nat, j: nat)
    requires Projects(semantic, core, spec) == Ok(app) && i < j < |app.sections|
    ensures SectionLeq(app.sections[i], app.sections[j]) && KeyOf(app.sections[i].identity) != KeyOf(app.sections[j].identity)
  {
    var ix := IndexOf(semantic.value, core.value);
    SectionsFine(ix, OwnerOf(ix, spec.identity.id), spec.sections);
    SortedIncrease(spec.sections, i, j);
  }

  lemma SortedIncrease(ss: seq<SectionSpec>, i: nat, j: nat)
    requires KeysDistinct(ss) && i < j < |Sort(SectionLeq, ProjectedAll(ss))|
    ensures
      var sections := Sort(SectionLeq, ProjectedAll(ss));
      SectionLeq(sections[i], sections[j]) && KeyOf(sections[i].identity) != KeyOf(sections[j].identity)
  {
    SectionLeqTotal();
    SortSorts(SectionLeq, ProjectedAll(ss));
    SortPermutes(SectionLeq, ProjectedAll(ss));
    SameKeyOnce(ss, Sort(SectionLeq, ProjectedAll(ss)), i, j);
  }

  lemma SameKeyOnce(ss: seq<SectionSpec>, sections: seq<Section>, i: nat, j: nat)
    requires KeysDistinct(ss) && multiset(sections) == multiset(ProjectedAll(ss)) && i < j < |sections|
    ensures KeyOf(sections[i].identity) != KeyOf(sections[j].identity)
  {
    var all := ProjectedAll(ss);
    SameElements(sections, all);
    assert sections[i] in all && sections[j] in all;
    var a :| 0 <= a < |ss| && all[a] == sections[i];
    var b :| 0 <= b < |ss| && all[b] == sections[j];
    if a == b {
      TwoPlaces(sections, i, j);
      OneProjectedPlace(ss, sections[i]);
    }
  }

  lemma {:induction false} OneProjectedPlace(ss: seq<SectionSpec>, s: Section)
    requires KeysDistinct(ss)
    ensures multiset(ProjectedAll(ss))[s] <= 1
  {
    if ss != [] {
      var init, last := ss[..|ss| - 1], ss[|ss| - 1];
      assert ProjectedAll(ss) == ProjectedAll(init) + [Projected(last)];
      assert KeysDistinct(init);
      OneProjectedPlace(init, s);
      forall i | 0 <= i < |init| ensures ProjectedAll(init)[i] != Projected(last) {
        assert KeyOf(init[i].identity.id) != KeyOf(last.identity.id);
      }
      assert Projected(last) !in multiset(ProjectedAll(init));
    }
  }

  /** The projection keeps each section once, with its columns, filter fields and order keys in the order given. */
  lemma SectionsKept(semantic: Option<Semantic>, core: Option<CoreProgram>, spec: Spec, app: Application, s: SectionSpec)
    requires Projects(semantic, core, spec) == Ok(app) && s in spec.sections
    ensures Projected(s) in app.sections && |app.sections| == |spec.sections|
  {
    var all := ProjectedAll(spec.sections);
    var i :| 0 <= i < |spec.sections| && spec.sections[i] == s;
    assert all[i] == Projected(s);
    SortSameElements(SectionLeq, all, Projected(s));
    SortPermutes(SectionLeq, all);
  }

  // ---------------------------------------------------------------------------------------
  // The tables
  // ---------------------------------------------------------------------------------------

  /** `k` is the key of a module, of a type with an identity, or of a member with one. */
  ghost predicate Declares(m: SemModule, k: string) {
    || k == KeyOf(m.identity)
    || TypesDeclare(m.types, k)
  }

  ghost predicate TypesDeclare(ts: seq<TypeDecl>, k: string) {
    exists t :: t in ts && TypeDeclares(t, k)
  }

  lemma TypesDeclareSnoc(ts: seq<TypeDecl>, last: TypeDecl, k: string)
    ensures TypesDeclare(ts + [last], k) <==> TypesDeclare(ts, k) || TypeDeclares(last, k)
  {
    if t :| t in ts && TypeDeclares(t, k) { assert t in ts + [last]; }
    if TypeDeclares(last, k) { assert last in ts + [last]; }
  }

  ghost predicate ModulesDeclare(ms: seq<SemModule>, k: string) {
    exists m :: m in ms && Declares(m, k)
  }

  lemma ModulesDeclareSnoc(ms: seq<SemModule>, last: SemModule, k: string)
    ensures ModulesDeclare(ms + [last], k) <==> ModulesDeclare(ms, k) || Declares(last, k)
  {
    if m :| m in ms && Declares(m, k) { assert m in ms + [last]; }
    if Declares(last, k) { assert last in ms + [last]; }
  }

  ghost predicate TypeDeclares(t: TypeDecl, k: string) {
    (t.identity.Some? && k == KeyOf(t.identity.value)) || MembersDeclare(t.members, k)
  }

  ghost predicate MembersDeclare(ms: seq<Member>, k: string) {
    exists m :: m in ms && m.identity.Some? && k == KeyOf(m.identity.value)
  }

  lemma {:induction false} MembersKnown(ix: Index, owner: string, ms: seq<Member>, k: string)
    ensures k in WithMembers(ix, owner, ms).known <==> k in ix.known || MembersDeclare(ms, k)
  {
    if ms != [] {
      MembersKnown(ix, owner, ms[..|ms| - 1], k);
      assert forall m :: m in ms <==> m in ms[..|ms| - 1] || m == ms[|ms| - 1];
    }
  }

  lemma {:induction false} TypesKnown(ix: Index, ts: seq<TypeDecl>, k: string)
    ensures k in WithTypes(ix, ts).known <==> k in ix.known || TypesDeclare(ts, k)
  {
    if ts != [] {
      var init, last := ts[..|ts| - 1], ts[|ts| - 1];
      TypesKnown(ix, init, k);
      MembersKnown(WithTypeName(WithTypes(ix, init), last), OwnerKey(last), last.members, k);
      assert ts == init + [last];
      TypesDeclareSnoc(init, last, k);
    }
  }

  /** What counts as known is exactly what some module, type or member declares. */
  lemma {:induction false} KnownIffDeclared(ix: Index, ms: seq<SemModule>, k: string)
    ensures k in WithModules(ix, ms).known <==> k in ix.known || ModulesDeclare(ms, k)
  {
    if ms != [] {
      var init, last := ms[..|ms| - 1], ms[|ms| - 1];
      KnownIffDeclared(ix, init, k);
      var before := WithModules(ix, init);
      TypesKnown(before.(known := before.known + {KeyOf(last.identity)}), last.types, k);
      assert ms == init + [last];
      ModulesDeclareSnoc(init, last, k);
    }
  }
}
