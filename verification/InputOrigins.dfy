/** From which declared fields the record tree and its flat form come (catalog_inputs.go, workflow_inputs.go). */
module InputOrigins {
  import opened Outcomes
  import opened Text
  import opened TypedInputs
  import opened InputBindings

  // ---------------------------------------------------------------------------------------
  // Chains of fields
  // ---------------------------------------------------------------------------------------

  /** The fields of the type that `f`, or an element of `f`, has. */
  function PartsOf(p: Program, f: Field): Option<seq<Field>> {
    match f.kind
    case ListOf(name) => p.shape(name)
    case Named(name) => p.shape(name)
    case _ => None
  }

  predicate IsLeaf(f: Field) {
    f.kind.Primitive? || f.kind.PrimitiveList?
  }

  /** A list whose element type nobody declares. */
  predicate IsUnknownList(p: Program, f: Field) {
    f.kind.ListOf? && p.shape(f.kind.name).None?
  }

  /** The first field stands in `fields`, and each further one in the type of the one before. */
  predicate IsChain(p: Program, fields: seq<Field>, fs: seq<Field>) {
    && fs != [] && fs[0] in fields
    && forall i :: 0 < i < |fs| ==> Linked(p, fs, i)
  }

  predicate Linked(p: Program, fs: seq<Field>, i: nat)
    requires 0 < i < |fs|
  {
    PartsOf(p, fs[i - 1]).Some? && fs[i] in PartsOf(p, fs[i - 1]).value
  }

  /** What a field is called below `prefix`: as annotated, or by its inferred name behind the prefix. */
  function Spelled(p: Program, f: Field, prefix: string): Option<string> {
    if f.explicit != "" then Some(Upper(TrimSpace(f.explicit)))
    else if p.envOf(f.name) != "" then Some(Upper(TrimSpace(TrimSpace(prefix) + p.envOf(f.name))))
    else None
  }

  /** What the last field of a chain is called: every field before it that has a name lends it as a prefix. */
  function Called(p: Program, fs: seq<Field>, prefix: string): Option<string>
    requires fs != []
  {
    var own := Spelled(p, fs[0], prefix);
    if |fs| == 1 then own else Called(p, fs[1..], if own.Some? then own.value + "_" else prefix)
  }

  /** The defaults that the last field of a chain looks into: those of the class it stands in; the elements of a list have none. */
  function DefaultsAt(p: Program, fs: seq<Field>, defaults: map<string, string>): map<string, string>
    requires fs != []
  {
    if |fs| == 1 then defaults else DefaultsAt(p, fs[1..], if fs[0].kind.Named? then p.defaults(fs[0].kind.name) else map[])
  }

  /** A variable of that name decides the value, then the default of the field. */
  predicate HasValue(value: string, key: string, name: string, defaults: map<string, string>, vars: map<string, string>) {
    && (key in vars ==> value == vars[key])
    && (key !in vars && name in defaults ==> value == defaults[name])
    && (key !in vars && name !in defaults ==> value == "")
  }

  // ---------------------------------------------------------------------------------------
  // Places in the record tree
  // ---------------------------------------------------------------------------------------

  /** The first record stands in `rs`, and each further one among the children of the one before. */
  predicate Stands(rs: seq<Record>, path: seq<Record>) {
    && path != [] && path[0] in rs
    && forall i :: 0 < i < |path| ==> path[i] in path[i - 1].children
  }

  function NamesOf(path: seq<Record>): seq<string> {
    seq(|path|, i requires 0 <= i < |path| => TrimSpace(path[i].name))
  }

  function FieldNames(fs: seq<Field>): seq<string> {
    seq(|fs|, i requires 0 <= i < |fs| => TrimSpace(fs[i].name))
  }

  lemma StandsTail(path: seq<Record>)
    requires |path| > 1 && forall i :: 0 < i < |path| ==> path[i] in path[i - 1].children
    ensures path[0].children != [] && Stands(path[0].children, path[1..])
  {
  }

  /** `path` ends in a record that `fs` accounts for. */
  ghost predicate Accounts(
      p: Program, fs: seq<Field>, path: seq<Record>, prefix: string, defaults: map<string, string>, vars: map<string, string>)
    requires fs != [] && path != []
  {
    var f, r := fs[|fs| - 1], path[|path| - 1];
    && |fs| == |path|
    && (forall i :: 0 <= i < |fs| ==> path[i].name == fs[i].name)
    && (IsLeaf(f) ==> Called(p, fs, prefix) == Some(r.env) && HasValue(r.value, r.env, f.name, DefaultsAt(p, fs, defaults), vars) && r.children == [])
    && (!IsLeaf(f) ==> r.env == "" && r.value == "")
    && (!IsLeaf(f) && r.children == [] ==> IsUnknownList(p, f))
  }

  /** Where a record of a field list comes from. */
  lemma {:induction false} OneOfTheFields(
      p: Program, fields: seq<Field>, prefix: string, defaults: map<string, string>, vars: map<string, string>,
      seen: set<string>, depth: nat, r: Record) returns (f: Field, before: set<string>)
    requires r in BuildAll(p, fields, prefix, defaults, vars, seen, depth).0
    ensures f in fields && Build(p, f, prefix, defaults, vars, before, depth).0 == Some(r)
    decreases |fields|
  {
    var init := BuildAll(p, fields[..|fields| - 1], prefix, defaults, vars, seen, depth);
    f, before := fields[|fields| - 1], init.1;
    var last := Build(p, f, prefix, defaults, vars, before, depth);
    if last.0 != Some(r) {
      assert r in init.0;
      f, before := OneOfTheFields(p, fields[..|fields| - 1], prefix, defaults, vars, seen, depth, r);
    }
  }

  lemma RecordOfField(
      p: Program, f: Field, prefix: string, defaults: map<string, string>, vars: map<string, string>, seen: set<string>, depth: nat, r: Record)
    requires Build(p, f, prefix, defaults, vars, seen, depth).0 == Some(r)
    ensures depth <= 8 && Accounts(p, [f], [r], prefix, defaults, vars)
  {
  }

  lemma ChildrenOfField(
      p: Program, f: Field, prefix: string, defaults: map<string, string>, vars: map<string, string>, seen: set<string>, depth: nat, r: Record)
    requires Build(p, f, prefix, defaults, vars, seen, depth).0 == Some(r) && r.children != []
    ensures r.name == f.name && PartsOf(p, f).Some?
    ensures r.children == BuildAll(p, PartsOf(p, f).value, Below(p, f, prefix), OwnDefaults(p, f), vars, seen, depth + 1).0
  {
  }

  function Below(p: Program, f: Field, prefix: string): string {
    var own := Spelled(p, f, prefix);
    if own.Some? then own.value + "_" else prefix
  }

  function OwnDefaults(p: Program, f: Field): map<string, string> {
    if f.kind.Named? then p.defaults(f.kind.name) else map[]
  }

  lemma AccountsLonger(
      p: Program, f: Field, fs: seq<Field>, path: seq<Record>, prefix: string, defaults: map<string, string>, vars: map<string, string>)
    requires fs != [] && |path| > 1 && Accounts(p, fs, path[1..], Below(p, f, prefix), OwnDefaults(p, f), vars) && path[0].name == f.name
    ensures Accounts(p, [f] + fs, path, prefix, defaults, vars)
  {
    var all := [f] + fs;
    assert all[1..] == fs;
    forall i | 0 <= i < |all| ensures path[i].name == all[i].name {
      if i > 0 { assert path[i] == path[1..][i - 1]; }
    }
  }

  lemma ChainLonger(p: Program, fields: seq<Field>, f: Field, fs: seq<Field>)
    requires f in fields && PartsOf(p, f).Some? && IsChain(p, PartsOf(p, f).value, fs)
    ensures IsChain(p, fields, [f] + fs)
  {
    var all := [f] + fs;
    forall i | 0 < i < |all| ensures Linked(p, all, i) {
      if i > 1 { assert Linked(p, fs, i - 1); }
    }
  }

  lemma ChainShorter(p: Program, fields: seq<Field>, fs: seq<Field>)
    requires |fs| > 1 && IsChain(p, fields, fs)
    ensures PartsOf(p, fs[0]).Some? && IsChain(p, PartsOf(p, fs[0]).value, fs[1..])
  {
    assert Linked(p, fs, 1);
    forall i | 0 < i < |fs[1..]| ensures Linked(p, fs[1..], i) { assert Linked(p, fs, i + 1); }
  }

  /** Every record stands where a chain of declared fields leads, at most nine long, under that chain's name and with its value. */
  lemma {:induction false} RecordsComeFromFields(
      p: Program, fields: seq<Field>, prefix: string, defaults: map<string, string>, vars: map<string, string>,
      seen: set<string>, depth: nat, path: seq<Record>) returns (fs: seq<Field>)
    requires Stands(BuildAll(p, fields, prefix, defaults, vars, seen, depth).0, path)
    ensures IsChain(p, fields, fs) && depth + |fs| <= 9
    ensures Accounts(p, fs, path, prefix, defaults, vars)
    decreases |path|
  {
    var f, before := OneOfTheFields(p, fields, prefix, defaults, vars, seen, depth, path[0]);
    if |path| == 1 {
      RecordOfField(p, f, prefix, defaults, vars, before, depth, path[0]);
      assert path == [path[0]];
      fs := [f];
    } else {
      StandsTail(path);
      ChildrenOfField(p, f, prefix, defaults, vars, before, depth, path[0]);
      var rest := RecordsComeFromFields(
        p, PartsOf(p, f).value, Below(p, f, prefix), OwnDefaults(p, f), vars, before, depth + 1, path[1..]);
      ChainLonger(p, fields, f, rest);
      AccountsLonger(p, f, rest, path, prefix, defaults, vars);
      fs := [f] + rest;
    }
  }

  // ---------------------------------------------------------------------------------------
  // Every name that a field asks for is in the tree
  // ---------------------------------------------------------------------------------------

  /** A name that was taken before a field list, or by one of its fields, is taken after it. */
  lemma {:induction false} TakenStays(
      p: Program, fields: seq<Field>, prefix: string, defaults: map<string, string>, vars: map<string, string>,
      seen: set<string>, depth: nat, f: Field, k: string)
    requires f in fields && k != ""
    requires forall before: set<string> :: k in Build(p, f, prefix, defaults, vars, before, depth).1
    ensures k in BuildAll(p, fields, prefix, defaults, vars, seen, depth).1
    decreases |fields|
  {
    var init, last := fields[..|fields| - 1], fields[|fields| - 1];
    var built := BuildAll(p, init, prefix, defaults, vars, seen, depth);
    if f != last {
      assert f in init;
      TakenStays(p, init, prefix, defaults, vars, seen, depth, f, k);
      BuildTakes(p, last, prefix, defaults, vars, built.1, depth);
    }
  }

  lemma LeafTaken(
      p: Program, f: Field, prefix: string, defaults: map<string, string>, vars: map<string, string>, seen: set<string>, depth: nat, k: string)
    requires IsLeaf(f) && Spelled(p, f, prefix) == Some(k) && depth <= 8
    ensures k in Build(p, f, prefix, defaults, vars, seen, depth).1
  {
  }

  /** Whatever a field within the depth limit asks for is taken, by it or by an earlier field. */
  lemma {:induction false} EveryFieldIsNamed(
      p: Program, fields: seq<Field>, prefix: string, defaults: map<string, string>, vars: map<string, string>,
      seen: set<string>, depth: nat, fs: seq<Field>, k: string)
    requires IsChain(p, fields, fs) && IsLeaf(fs[|fs| - 1]) && depth + |fs| <= 9
    requires Called(p, fs, prefix) == Some(k) && k != ""
    ensures k in BuildAll(p, fields, prefix, defaults, vars, seen, depth).1
    decreases |fs|
  {
    var f := fs[0];
    forall before: set<string> ensures k in Build(p, f, prefix, defaults, vars, before, depth).1 {
      if |fs| == 1 {
        LeafTaken(p, f, prefix, defaults, vars, before, depth, k);
      } else {
        ChainShorter(p, fields, fs);
        EveryFieldIsNamed(p, PartsOf(p, f).value, Below(p, f, prefix), OwnDefaults(p, f), vars, before, depth + 1, fs[1..], k);
        PartsAreBuilt(p, f, prefix, defaults, vars, before, depth);
      }
    }
    TakenStays(p, fields, prefix, defaults, vars, seen, depth, f, k);
  }

  lemma PartsAreBuilt(
      p: Program, f: Field, prefix: string, defaults: map<string, string>, vars: map<string, string>, seen: set<string>, depth: nat)
    requires depth <= 8 && PartsOf(p, f).Some?
    ensures
      var parts := BuildAll(p, PartsOf(p, f).value, Below(p, f, prefix), OwnDefaults(p, f), vars, seen, depth + 1);
      Build(p, f, prefix, defaults, vars, seen, depth) == (if parts.0 == [] then None else Some(Record(f.name, "", "", parts.0)), parts.1)
  {
  }

  /** What a field of a list yields is among the records of the list. */
  lemma {:induction false} FieldBuilt(
      p: Program, fields: seq<Field>, prefix: string, defaults: map<string, string>, vars: map<string, string>,
      seen: set<string>, depth: nat, f: Field) returns (before: set<string>)
    requires f in fields
    ensures forall r :: r in Kept(Build(p, f, prefix, defaults, vars, before, depth).0) ==>
              r in BuildAll(p, fields, prefix, defaults, vars, seen, depth).0
    decreases |fields|
  {
    var init, last := fields[..|fields| - 1], fields[|fields| - 1];
    before := BuildAll(p, init, prefix, defaults, vars, seen, depth).1;
    if f != last {
      assert f in init;
      before := FieldBuilt(p, init, prefix, defaults, vars, seen, depth, f);
    }
  }

  /** Within the depth limit, a list whose element type nobody declares keeps its place in the tree. */
  lemma {:induction false} UnknownListStands(
      p: Program, fields: seq<Field>, prefix: string, defaults: map<string, string>, vars: map<string, string>,
      seen: set<string>, depth: nat, fs: seq<Field>) returns (path: seq<Record>)
    requires IsChain(p, fields, fs) && IsUnknownList(p, fs[|fs| - 1]) && depth + |fs| <= 9
    ensures Stands(BuildAll(p, fields, prefix, defaults, vars, seen, depth).0, path)
    ensures |path| == |fs| && path[|path| - 1] == Record(fs[|fs| - 1].name, "", "", [])
    decreases |fs|
  {
    var f := fs[0];
    var before := FieldBuilt(p, fields, prefix, defaults, vars, seen, depth, f);
    if |fs| == 1 {
      path := [Record(f.name, "", "", [])];
      assert path[0] in Kept(Build(p, f, prefix, defaults, vars, before, depth).0);
    } else {
      ChainShorter(p, fields, fs);
      var rest := UnknownListStands(
        p, PartsOf(p, f).value, Below(p, f, prefix), OwnDefaults(p, f), vars, before, depth + 1, fs[1..]);
      PartsAreBuilt(p, f, prefix, defaults, vars, before, depth);
      var r := Record(f.name, "", "", BuildAll(p, PartsOf(p, f).value, Below(p, f, prefix), OwnDefaults(p, f), vars, before, depth + 1).0);
      assert r in Kept(Build(p, f, prefix, defaults, vars, before, depth).0);
      path := [r] + rest;
      StandsLonger(BuildAll(p, fields, prefix, defaults, vars, seen, depth).0, r, rest);
    }
  }

  lemma StandsLonger(rs: seq<Record>, r: Record, rest: seq<Record>)
    requires r in rs && Stands(r.children, rest)
    ensures Stands(rs, [r] + rest)
  {
    var path := [r] + rest;
    forall i | 0 < i < |path| ensures path[i] in path[i - 1].children {
      if i > 1 { assert path[i - 1] == rest[i - 2] && path[i] == rest[i - 1]; }
    }
  }

  // ---------------------------------------------------------------------------------------
  // Earlier fields come first
  // ---------------------------------------------------------------------------------------

  /** Fields are built in the order of their declaration: what the earlier ones take, the later ones do not get. */
  lemma {:induction false} EarlierFirst(
      p: Program, a: seq<Field>, b: seq<Field>, prefix: string, defaults: map<string, string>, vars: map<string, string>,
      seen: set<string>, depth: nat)
    ensures
      var first := BuildAll(p, a, prefix, defaults, vars, seen, depth);
      var then' := BuildAll(p, b, prefix, defaults, vars, first.1, depth);
      BuildAll(p, a + b, prefix, defaults, vars, seen, depth) == (first.0 + then'.0, then'.1)
    decreases |b|
  {
    var first := BuildAll(p, a, prefix, defaults, vars, seen, depth);
    if b == [] {
      assert a + b == a && first.0 + [] == first.0;
    } else {
      var init, last := b[..|b| - 1], b[|b| - 1];
      assert (a + b)[..|a + b| - 1] == a + init && (a + b)[|a + b| - 1] == last;
      EarlierFirst(p, a, init, prefix, defaults, vars, seen, depth);
      var mid := BuildAll(p, init, prefix, defaults, vars, first.1, depth);
      Regrouped(first.0, mid.0, Kept(Build(p, last, prefix, defaults, vars, mid.1, depth).0));
    }
  }

  lemma Regrouped(a: seq<Record>, b: seq<Record>, c: seq<Record>)
    ensures a + b + c == a + (b + c)
  {
  }

  // ---------------------------------------------------------------------------------------
  // The flat form
  // ---------------------------------------------------------------------------------------

  predicate AllNamed(names: seq<string>) {
    forall i :: 0 <= i < |names| ==> names[i] != ""
  }

  /** `path` ends in a record with an environment name, under the dotted path `at`. */
  predicate LeadsTo(rs: seq<Record>, path: seq<Record>, prefix: string, at: string) {
    && Stands(rs, path) && AllNamed(NamesOf(path)) && !Blank(path[|path| - 1].env)
    && at == PathOf(prefix, JoinWith(NamesOf(path), '.'))
  }

  function SlotOf(path: seq<Record>): Slot
    requires path != []
  {
    Slot(TrimSpace(path[|path| - 1].env), path[|path| - 1].value)
  }

  lemma LeadsFurther(rs: seq<Record>, r: Record, path: seq<Record>, prefix: string, at: string)
    requires r in rs && TrimSpace(r.name) != "" && path != []
    ensures LeadsTo(r.children, path, PathOf(prefix, TrimSpace(r.name)), at) <==> Stands(r.children, path) && LeadsTo(rs, [r] + path, prefix, at)
  {
    var name, all := TrimSpace(r.name), [r] + path;
    assert all[1..] == path;
    assert NamesOf(all) == [name] + NamesOf(path);
    assert NamesOf(all)[1..] == NamesOf(path);
    if Stands(r.children, path) { StandsLonger(rs, r, path); }
    assert AllNamed(NamesOf(all)) <==> AllNamed(NamesOf(path)) by {
      if AllNamed(NamesOf(all)) {
        forall i | 0 <= i < |path| ensures NamesOf(path)[i] != "" { assert NamesOf(path)[i] == NamesOf(all)[i + 1]; }
      }
    }
    var rest := JoinWith(NamesOf(path), '.');
    assert JoinWith(NamesOf(all), '.') == name + "." + rest;
    assert prefix != "" ==> prefix + "." + (name + "." + rest) == prefix + "." + name + "." + rest;
  }

  lemma StandsInMore(rs: seq<Record>, path: seq<Record>)
    requires rs != [] && Stands(rs[..|rs| - 1], path)
    ensures Stands(rs, path)
  {
  }

  /** Every entry of the flat form was there before, or some record with an environment name stands under its path. */
  lemma {:induction false} FlatComesFromTree(prefix: string, rs: seq<Record>, out: Slots, at: string) returns (path: seq<Record>)
    requires at in Flatten(prefix, rs, out)
    ensures path == [] ==> at in out && Flatten(prefix, rs, out)[at] == out[at]
    ensures path != [] ==> LeadsTo(rs, path, prefix, at) && Flatten(prefix, rs, out)[at] == SlotOf(path)
    decreases rs, 0
  {
    path := [];
    if rs != [] {
      var init, last := rs[..|rs| - 1], rs[|rs| - 1];
      var before := Flatten(prefix, init, out);
      path := FlatOneComesFromTree(prefix, rs, last, before, at);
      if path == [] {
        path := FlatComesFromTree(prefix, init, out, at);
        if path != [] { StandsInMore(rs, path); }
      }
    }
  }

  lemma {:induction false} FlatOneComesFromTree(prefix: string, rs: seq<Record>, r: Record, out: Slots, at: string)
    returns (path: seq<Record>)
    requires r in rs && at in FlattenOne(prefix, r, out)
    ensures path == [] ==> at in out && FlattenOne(prefix, r, out)[at] == out[at]
    ensures path != [] ==> LeadsTo(rs, path, prefix, at) && FlattenOne(prefix, r, out)[at] == SlotOf(path)
    decreases r, 1
  {
    path := [];
    var name := TrimSpace(r.name);
    if name != "" {
      var here, env := PathOf(prefix, name), TrimSpace(r.env);
      var out1 := if env != "" then out[here := Slot(env, r.value)] else out;
      var rest := FlatComesFromTree(here, r.children, out1, at);
      if rest != [] {
        LeadsFurther(rs, r, rest, prefix, at);
        path := [r] + rest;
      } else if env != "" && at == here {
        path := [r];
        assert NamesOf(path) == [name];
      }
    }
  }

  lemma {:induction false} FlatKeeps(prefix: string, rs: seq<Record>, out: Slots)
    ensures out.Keys <= Flatten(prefix, rs, out).Keys
    decreases rs, 0
  {
    if rs != [] {
      var init, last := rs[..|rs| - 1], rs[|rs| - 1];
      FlatKeeps(prefix, init, out);
      FlatOneKeeps(prefix, last, Flatten(prefix, init, out));
    }
  }

  lemma {:induction false} FlatOneKeeps(prefix: string, r: Record, out: Slots)
    ensures out.Keys <= FlattenOne(prefix, r, out).Keys
    decreases r, 1
  {
    var name := TrimSpace(r.name);
    if name != "" {
      var here, env := PathOf(prefix, name), TrimSpace(r.env);
      FlatKeeps(here, r.children, if env != "" then out[here := Slot(env, r.value)] else out);
    }
  }

  /** Every record with an environment name and no blank name above it has its dotted path in the flat form. */
  lemma {:induction false} TreeReachesFlat(prefix: string, rs: seq<Record>, out: Slots, path: seq<Record>, at: string)
    requires LeadsTo(rs, path, prefix, at)
    ensures at in Flatten(prefix, rs, out)
    decreases rs, 0
  {
    var init, last := rs[..|rs| - 1], rs[|rs| - 1];
    var before := Flatten(prefix, init, out);
    if path[0] == last {
      OneReachesFlat(prefix, rs, last, before, path, at);
    } else {
      assert path[0] in init;
      TreeReachesFlat(prefix, init, out, path, at);
      FlatOneKeeps(prefix, last, before);
    }
  }

  lemma {:induction false} OneReachesFlat(prefix: string, rs: seq<Record>, r: Record, out: Slots, path: seq<Record>, at: string)
    requires LeadsTo(rs, path, prefix, at) && path[0] == r
    ensures at in FlattenOne(prefix, r, out)
    decreases r, 1
  {
    var name := TrimSpace(r.name);
    assert NamesOf(path)[0] == name;
    var here, env := PathOf(prefix, name), TrimSpace(r.env);
    var out1 := if env != "" then out[here := Slot(env, r.value)] else out;
    if |path| == 1 {
      assert NamesOf(path) == [name];
      FlatKeeps(here, r.children, out1);
    } else {
      assert path == [r] + path[1..];
      assert path[1] in path[0].children;
      assert Stands(r.children, path[1..]);
      LeadsFurther(rs, r, path[1..], prefix, at);
      TreeReachesFlat(here, r.children, out1, path[1..], at);
    }
  }

  // ---------------------------------------------------------------------------------------
  // From the declared fields to the flat form
  // ---------------------------------------------------------------------------------------

  /** A chain of the fields of entry `e`, at most nine long and down to a field with a value, that is called `k`. */
  predicate Asks(e: TypeEntry, fs: seq<Field>, k: string) {
    IsChain(e.program, e.fields, fs) && IsLeaf(fs[|fs| - 1]) && |fs| <= 9 && Called(e.program, fs, e.prefix) == Some(k)
  }

  lemma {:induction false} RecordOfEntries(entries: seq<TypeEntry>, vars: map<string, string>, path: seq<Record>)
    returns (e: TypeEntry, fs: seq<Field>)
    requires Stands(BuildEntries(entries, vars).0, path)
    ensures e in entries && IsChain(e.program, e.fields, fs) && |fs| <= 9
    ensures Accounts(e.program, fs, path, e.prefix, e.defaults, vars)
  {
    var before := BuildEntries(entries[..|entries| - 1], vars);
    e := entries[|entries| - 1];
    if path[0] in before.0 {
      e, fs := RecordOfEntries(entries[..|entries| - 1], vars, path);
    } else {
      fs := RecordsComeFromFields(e.program, e.fields, e.prefix, e.defaults, vars, before.1, 0, path);
    }
  }

  /** Every entry of the flat form is asked for by a chain of declared fields with that dotted path, and has the value of its last field. */
  lemma FlatFormComesFromFields(entries: seq<TypeEntry>, vars: map<string, string>, at: string) returns (e: TypeEntry, fs: seq<Field>)
    requires at in Flatten("", BuildEntries(entries, vars).0, map[])
    ensures
      var slot := Flatten("", BuildEntries(entries, vars).0, map[])[at];
      && e in entries && Asks(e, fs, slot.env) && at == JoinWith(FieldNames(fs), '.')
      && HasValue(slot.value, slot.env, fs[|fs| - 1].name, DefaultsAt(e.program, fs, e.defaults), vars)
  {
    var rs := BuildEntries(entries, vars).0;
    var path := FlatComesFromTree("", rs, map[], at);
    e, fs := RecordOfEntries(entries, vars, path);
    var last := path[|path| - 1];
    assert !Blank(last.env);
    BlankIsBlank();
    CalledTrimmed(e.program, fs, e.prefix);
    assert NamesOf(path) == FieldNames(fs);
  }

  lemma BlankIsBlank()
    ensures Blank("")
  {
  }

  lemma {:induction false} CalledTrimmed(p: Program, fs: seq<Field>, prefix: string)
    requires fs != []
    ensures Called(p, fs, prefix).Some? ==> TrimSpace(Called(p, fs, prefix).value) == Called(p, fs, prefix).value
  {
    if |fs| == 1 {
      UpperTrimmed(fs[0].explicit);
      UpperTrimmed(TrimSpace(prefix) + p.envOf(fs[0].name));
    } else {
      CalledTrimmed(p, fs[1..], Below(p, fs[0], prefix));
    }
  }

  lemma {:induction false} AskedIsTaken(entries: seq<TypeEntry>, vars: map<string, string>, e: TypeEntry, fs: seq<Field>, k: string)
    requires e in entries && Asks(e, fs, k) && k != ""
    ensures k in BuildEntries(entries, vars).1
  {
    var init, last := entries[..|entries| - 1], entries[|entries| - 1];
    var before := BuildEntries(init, vars);
    if e == last {
      EveryFieldIsNamed(e.program, e.fields, e.prefix, e.defaults, vars, before.1, 0, fs, k);
    } else {
      AskedIsTaken(init, vars, e, fs, k);
      BuildAllTakes(last.program, last.fields, last.prefix, last.defaults, vars, before.1, 0);
    }
  }

  /** A name of the tree stands on some record. */
  lemma {:induction false} NameStands(rs: seq<Record>, k: string) returns (path: seq<Record>)
    requires k in Envs(rs)
    ensures Stands(rs, path) && path[|path| - 1].env == k
    decreases rs, 0
  {
    var init, last := rs[..|rs| - 1], rs[|rs| - 1];
    if k in Envs(init) {
      path := NameStands(init, k);
      StandsInMore(rs, path);
    } else if last.env == k {
      path := [last];
    } else {
      var rest := NameStands(last.children, k);
      path := [last] + rest;
      StandsLonger(rs, last, rest);
    }
  }

  /** The environment names in the tree are exactly those that chains of declared fields ask for. */
  lemma NamesAreAskedFor(entries: seq<TypeEntry>, vars: map<string, string>, k: string)
    requires k != ""
    ensures k in Envs(BuildEntries(entries, vars).0) <==> exists e, fs :: e in entries && Asks(e, fs, k)
  {
    EveryNameOnce(entries, vars);
    if k in Envs(BuildEntries(entries, vars).0) {
      var path := NameStands(BuildEntries(entries, vars).0, k);
      var e, fs := RecordOfEntries(entries, vars, path);
      assert Asks(e, fs, k);
    }
    if e, fs :| e in entries && Asks(e, fs, k) {
      AskedIsTaken(entries, vars, e, fs, k);
    }
  }
}
