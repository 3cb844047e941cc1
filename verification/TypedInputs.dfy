/** Typed workflow inputs: the record tree, its flat form, and the resolution of bindings (catalog_inputs.go, workflow_inputs.go). */
module TypedInputs {
  import opened Outcomes
  import opened Text
  import opened Sequences

  /** What the type of a field is to the builder. `Other` is neither primitive, list, nor a known name. */
  datatype Kind = Primitive | PrimitiveList | ListOf(name: string) | Named(name: string) | Other

  /** `explicit` is the trimmed envname annotation, empty when there is none. */
  datatype Field = Field(name: string, explicit: string, kind: Kind)

  /** The declared types, which may refer to each other and to themselves. */
  datatype Program = Program(
    shape: string -> Option<seq<Field>>,
    defaults: string -> map<string, string>,
    envOf: string -> string)

  datatype Record = Record(name: string, env: string, value: string, children: seq<Record>)

  /** One resolved type entry of a workflow. */
  datatype TypeEntry = TypeEntry(program: Program, fields: seq<Field>, prefix: string, defaults: map<string, string>)

  const MAX_DEPTH := 8

  // ---------------------------------------------------------------------------------------
  // Names and values
  // ---------------------------------------------------------------------------------------

  function EnvName(p: Program, f: Field, prefix: string): string {
    if f.explicit != "" then f.explicit
    else
      var base := p.envOf(f.name);
      if base == "" then "" else TrimSpace(prefix) + base
  }

  function KeyOf(envName: string): string {
    Upper(TrimSpace(envName))
  }

  function ChildPrefix(p: Program, f: Field, prefix: string): string {
    var base := EnvName(p, f, prefix);
    if base == "" then prefix else KeyOf(base) + "_"
  }

  function DefaultOf(key: string, name: string, defaults: map<string, string>, vars: map<string, string>): string {
    if key in vars then vars[key] else if name in defaults then defaults[name] else ""
  }

  // ---------------------------------------------------------------------------------------
  // The record tree
  // ---------------------------------------------------------------------------------------

  function Left(depth: nat): nat {
    if depth > MAX_DEPTH then 0 else MAX_DEPTH + 1 - depth
  }

  /** A field of its own: refused without a name or with one that is taken. */
  function Claim(p: Program, f: Field, prefix: string, defaults: map<string, string>, vars: map<string, string>, seen: set<string>)
    : (Option<Record>, set<string>)
  {
    var env := EnvName(p, f, prefix);
    var key := KeyOf(env);
    if env == "" || key in seen then (None, seen)
    else (Some(Record(f.name, key, DefaultOf(key, f.name, defaults, vars), [])), seen + {key})
  }

  /** A field made of others: dropped when none of them is left. */
  function Nest(f: Field, built: (seq<Record>, set<string>)): (Option<Record>, set<string>) {
    (if built.0 == [] then None else Some(Record(f.name, "", "", built.0)), built.1)
  }

  function Build(
      p: Program, f: Field, prefix: string, defaults: map<string, string>, vars: map<string, string>, seen: set<string>, depth: nat)
    : (Option<Record>, set<string>)
    decreases Left(depth), 0
  {
    if depth > MAX_DEPTH then (None, seen)
    else
      match f.kind
      case Primitive => Claim(p, f, prefix, defaults, vars, seen)
      case PrimitiveList => Claim(p, f, prefix, defaults, vars, seen)
      case ListOf(name) =>
        var shape := p.shape(name);
        if shape.None? then (Some(Record(f.name, "", "", [])), seen)
        else Nest(f, BuildAll(p, shape.value, ChildPrefix(p, f, prefix), map[], vars, seen, depth + 1))
      case Named(name) =>
        var shape := p.shape(name);
        if shape.None? then (None, seen)
        else Nest(f, BuildAll(p, shape.value, ChildPrefix(p, f, prefix), p.defaults(name), vars, seen, depth + 1))
      case Other => (None, seen)
  }

  function Kept(r: Option<Record>): seq<Record> {
    if r.Some? then [r.value] else []
  }

  function BuildAll(
      p: Program, fields: seq<Field>, prefix: string, defaults: map<string, string>, vars: map<string, string>,
      seen: set<string>, depth: nat)
    : (seq<Record>, set<string>)
    decreases Left(depth), |fields|
  {
    if fields == [] then ([], seen)
    else
      var init := BuildAll(p, fields[..|fields| - 1], prefix, defaults, vars, seen, depth);
      var last := Build(p, fields[|fields| - 1], prefix, defaults, vars, init.1, depth);
      (init.0 + Kept(last.0), last.1)
  }

  function BuildEntries(entries: seq<TypeEntry>, vars: map<string, string>): (seq<Record>, set<string>) {
    if entries == [] then ([], {})
    else
      var init := BuildEntries(entries[..|entries| - 1], vars);
      var e := entries[|entries| - 1];
      var last := BuildAll(e.program, e.fields, e.prefix, e.defaults, vars, init.1, 0);
      (init.0 + last.0, last.1)
  }

  /** The names taken so far, shared by the whole recursion. */
  class Registry {
    var seen: set<string>

    constructor ()
      ensures seen == {}
    {
      seen := {};
    }

    method ClaimField(p: Program, f: Field, prefix: string, defaults: map<string, string>, vars: map<string, string>)
      returns (r: Option<Record>)
      modifies this
      ensures (r, seen) == Claim(p, f, prefix, defaults, vars, old(seen))
    {
      var env := EnvName(p, f, prefix);
      if env == "" {
        return None;
      }
      var key := KeyOf(env);
      if key in seen {
        return None;
      }
      seen := seen + {key};
      r := Some(Record(f.name, key, DefaultOf(key, f.name, defaults, vars), []));
    }

    method BuildRecord(p: Program, f: Field, prefix: string, defaults: map<string, string>, vars: map<string, string>, depth: nat)
      returns (r: Option<Record>)
      modifies this
      ensures (r, seen) == Build(p, f, prefix, defaults, vars, old(seen), depth)
      decreases Left(depth), 0
    {
      if depth > MAX_DEPTH {
        return None;
      }
      match f.kind {
        case Primitive =>
          r := ClaimField(p, f, prefix, defaults, vars);
        case PrimitiveList =>
          r := ClaimField(p, f, prefix, defaults, vars);
        case ListOf(name) =>
          var shape := p.shape(name);
          if shape.None? {
            return Some(Record(f.name, "", "", []));
          }
          var children := BuildChildren(p, shape.value, ChildPrefix(p, f, prefix), map[], vars, depth + 1);
          r := if |children| == 0 then None else Some(Record(f.name, "", "", children));
        case Named(name) =>
          var shape := p.shape(name);
          if shape.None? {
            return None;
          }
          var children := BuildChildren(p, shape.value, ChildPrefix(p, f, prefix), p.defaults(name), vars, depth + 1);
          r := if |children| == 0 then None else Some(Record(f.name, "", "", children));
        case Other =>
          r := None;
      }
    }

    method BuildChildren(
        p: Program, fields: seq<Field>, prefix: string, defaults: map<string, string>, vars: map<string, string>, depth: nat)
      returns (out: seq<Record>)
      modifies this
      ensures (out, seen) == BuildAll(p, fields, prefix, defaults, vars, old(seen), depth)
      decreases Left(depth), 1
    {
      out := [];
      var i := 0;
      while i < |fields|
        invariant 0 <= i <= |fields|
        invariant (out, seen) == BuildAll(p, fields[..i], prefix, defaults, vars, old(seen), depth)
      {
        var record := BuildRecord(p, fields[i], prefix, defaults, vars, depth);
        assert fields[..i + 1][..i] == fields[..i];
        out := out + Kept(record);
        i := i + 1;
      }
      assert fields[..i] == fields;
    }

    method BuildInputs(entries: seq<TypeEntry>, vars: map<string, string>) returns (out: seq<Record>)
      requires seen == {}
      modifies this
      ensures (out, seen) == BuildEntries(entries, vars)
    {
      out := [];
      var i := 0;
      while i < |entries|
        invariant 0 <= i <= |entries|
        invariant (out, seen) == BuildEntries(entries[..i], vars)
      {
        var e := entries[i];
        var records := BuildChildren(e.program, e.fields, e.prefix, e.defaults, vars, 0);
        assert entries[..i + 1][..i] == entries[..i];
        out := out + records;
        i := i + 1;
      }
      assert entries[..i] == entries;
    }
  }

  // ---------------------------------------------------------------------------------------
  // Every name once
  // ---------------------------------------------------------------------------------------

  /** The non-empty environment names of a forest, in order. */
  function Envs(rs: seq<Record>): seq<string> {
    if rs == [] then [] else Envs(rs[..|rs| - 1]) + EnvsOf(rs[|rs| - 1])
  }

  function EnvsOf(r: Record): seq<string> {
    (if r.env != "" then [r.env] else []) + Envs(r.children)
  }

  predicate Trimmed(names: seq<string>) {
    forall n :: n in names ==> TrimSpace(n) == n
  }

  /** `names` were all free in `seen`, each is taken once, and they are all that was taken. */
  ghost predicate Takes(seen: set<string>, names: seq<string>, seen': set<string>) {
    && NoRepeats(names) && Trimmed(names)
    && (forall n :: n in names ==> n !in seen)
    && forall n :: n != "" ==> (n in seen' <==> n in seen || n in names)
  }

  lemma TakesAppend(s0: set<string>, a: seq<string>, s1: set<string>, b: seq<string>, s2: set<string>)
    requires Takes(s0, a, s1) && Takes(s1, b, s2) && "" !in a && "" !in b
    ensures Takes(s0, a + b, s2)
  {
    var names := a + b;
    forall i, j | 0 <= i < j < |names| ensures names[i] != names[j] {
      if i < |a| <= j { assert names[i] in a && names[j] in b; }
    }
  }

  lemma {:induction false} EnvsNonEmpty(rs: seq<Record>)
    ensures "" !in Envs(rs)
    decreases rs, 0
  {
    if rs != [] {
      EnvsNonEmpty(rs[..|rs| - 1]);
      EnvsNonEmpty(rs[|rs| - 1].children);
    }
  }

  lemma EnvsAppend(a: seq<Record>, r: Option<Record>)
    ensures Envs(a + Kept(r)) == Envs(a) + Envs(Kept(r))
  {
    if r.Some? {
      assert (a + [r.value])[..|a|] == a && [r.value][..0] == [];
      assert Envs([r.value]) == EnvsOf(r.value);
    } else {
      assert a + [] == a;
    }
  }

  lemma KeptOne(r: Record)
    ensures Envs(Kept(Some(r))) == EnvsOf(r)
  {
    assert [r][..0] == [];
  }

  /** A field that yields no record has taken no name. */
  lemma {:induction false} BuildTakes(
      p: Program, f: Field, prefix: string, defaults: map<string, string>, vars: map<string, string>, seen: set<string>, depth: nat)
    ensures
      var (r, seen') := Build(p, f, prefix, defaults, vars, seen, depth);
      Takes(seen, Envs(Kept(r)), seen') && (r.None? ==> seen' == seen)
    decreases Left(depth), 0
  {
    NothingKept(seen);
    if depth <= MAX_DEPTH {
      match f.kind
      case Primitive => ClaimTakes(p, f, prefix, defaults, vars, seen);
      case PrimitiveList => ClaimTakes(p, f, prefix, defaults, vars, seen);
      case ListOf(name) =>
        if p.shape(name).Some? {
          BuildNestTakes(p, f, p.shape(name).value, ChildPrefix(p, f, prefix), map[], vars, seen, depth);
        } else {
          KeptOne(Record(f.name, "", "", []));
        }
      case Named(name) =>
        if p.shape(name).Some? {
          BuildNestTakes(p, f, p.shape(name).value, ChildPrefix(p, f, prefix), p.defaults(name), vars, seen, depth);
        }
      case Other =>
    }
  }

  lemma {:induction false} BuildNestTakes(
      p: Program, f: Field, fields: seq<Field>, prefix: string, defaults: map<string, string>, vars: map<string, string>,
      seen: set<string>, depth: nat)
    requires depth <= MAX_DEPTH
    ensures
      var (r, seen') := Nest(f, BuildAll(p, fields, prefix, defaults, vars, seen, depth + 1));
      Takes(seen, Envs(Kept(r)), seen') && (r.None? ==> seen' == seen)
    decreases Left(depth + 1), |fields| + 1
  {
    BuildAllTakes(p, fields, prefix, defaults, vars, seen, depth + 1);
    NestTakes(f, seen, BuildAll(p, fields, prefix, defaults, vars, seen, depth + 1));
  }

  lemma NothingKept(seen: set<string>)
    ensures Takes(seen, Envs(Kept(None)), seen)
  {
  }

  lemma ClaimTakes(p: Program, f: Field, prefix: string, defaults: map<string, string>, vars: map<string, string>, seen: set<string>)
    ensures
      var (r, seen') := Claim(p, f, prefix, defaults, vars, seen);
      Takes(seen, Envs(Kept(r)), seen') && (r.None? ==> seen' == seen)
  {
    var r := Claim(p, f, prefix, defaults, vars, seen).0;
    UpperTrimmed(EnvName(p, f, prefix));
    if r.Some? { KeptOne(r.value); }
  }

  lemma NestTakes(f: Field, seen: set<string>, built: (seq<Record>, set<string>))
    requires Takes(seen, Envs(built.0), built.1) && (built.0 == [] ==> built.1 == seen)
    ensures
      var (r, seen') := Nest(f, built);
      Takes(seen, Envs(Kept(r)), seen') && (r.None? ==> seen' == seen)
  {
    if built.0 != [] { KeptOne(Record(f.name, "", "", built.0)); }
  }

  lemma {:induction false} BuildAllTakes(
      p: Program, fields: seq<Field>, prefix: string, defaults: map<string, string>, vars: map<string, string>,
      seen: set<string>, depth: nat)
    ensures
      var (rs, seen') := BuildAll(p, fields, prefix, defaults, vars, seen, depth);
      Takes(seen, Envs(rs), seen') && (rs == [] ==> seen' == seen)
    decreases Left(depth), |fields|
  {
    if fields != [] {
      var init := BuildAll(p, fields[..|fields| - 1], prefix, defaults, vars, seen, depth);
      var last := Build(p, fields[|fields| - 1], prefix, defaults, vars, init.1, depth);
      BuildAllTakes(p, fields[..|fields| - 1], prefix, defaults, vars, seen, depth);
      BuildTakes(p, fields[|fields| - 1], prefix, defaults, vars, init.1, depth);
      EnvsAppend(init.0, last.0);
      EnvsNonEmpty(init.0);
      EnvsNonEmpty(Kept(last.0));
      TakesAppend(seen, Envs(init.0), init.1, Envs(Kept(last.0)), last.1);
    }
  }

  lemma {:induction false} EnvsConcat(a: seq<Record>, b: seq<Record>)
    ensures Envs(a + b) == Envs(a) + Envs(b)
    decreases |b|
  {
    if b == [] {
      assert a + b == a;
    } else {
      assert (a + b)[..|a + b| - 1] == a + b[..|b| - 1] && (a + b)[|a + b| - 1] == b[|b| - 1];
      EnvsConcat(a, b[..|b| - 1]);
      Regroup(Envs(a), Envs(b[..|b| - 1]), EnvsOf(b[|b| - 1]));
    }
  }

  lemma Regroup(a: seq<string>, b: seq<string>, c: seq<string>)
    ensures a + (b + c) == a + b + c
  {
  }

  /** Over all type entries together, every non-empty name stands in the tree at most once, and exactly the taken ones stand there. */
  lemma {:induction false} EveryNameOnce(entries: seq<TypeEntry>, vars: map<string, string>)
    ensures Takes({}, Envs(BuildEntries(entries, vars).0), BuildEntries(entries, vars).1)
  {
    if entries != [] {
      var init := BuildEntries(entries[..|entries| - 1], vars);
      var e := entries[|entries| - 1];
      var last := BuildAll(e.program, e.fields, e.prefix, e.defaults, vars, init.1, 0);
      EveryNameOnce(entries[..|entries| - 1], vars);
      BuildAllTakes(e.program, e.fields, e.prefix, e.defaults, vars, init.1, 0);
      EnvsConcat(init.0, last.0);
      EnvsNonEmpty(init.0);
      EnvsNonEmpty(last.0);
      TakesAppend({}, Envs(init.0), init.1, Envs(last.0), last.1);
    }
  }
}
