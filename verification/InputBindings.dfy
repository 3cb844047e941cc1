/** The flat form of the record tree, and the resolution of input bindings against it (workflow_inputs.go). */
module InputBindings {
  import opened Outcomes
  import opened Text
  import opened Sequences
  import opened TypedInputs

  datatype Slot = Slot(env: string, value: string)

  type Slots = map<string, Slot>

  // ---------------------------------------------------------------------------------------
  // Flattening
  // ---------------------------------------------------------------------------------------

  function PathOf(prefix: string, name: string): string {
    if prefix == "" then name else prefix + "." + name
  }

  function FlattenOne(prefix: string, r: Record, out: Slots): Slots
    decreases r, 1
  {
    var name := TrimSpace(r.name);
    if name == "" then out
    else
      var path := PathOf(prefix, name);
      var env := TrimSpace(r.env);
      var out1 := if env != "" then out[path := Slot(env, r.value)] else out;
      Flatten(path, r.children, out1)
  }

  function Flatten(prefix: string, rs: seq<Record>, out: Slots): Slots
    decreases rs, 0
  {
    if rs == [] then out else FlattenOne(prefix, rs[|rs| - 1], Flatten(prefix, rs[..|rs| - 1], out))
  }

  /** The map that flattening fills. */
  class Table {
    var slots: Slots

    constructor ()
      ensures slots == map[]
    {
      slots := map[];
    }

    method FlattenRecords(prefix: string, rs: seq<Record>)
      modifies this
      ensures slots == Flatten(prefix, rs, old(slots))
      decreases rs
    {
      var i := 0;
      while i < |rs|
        invariant 0 <= i <= |rs| && slots == Flatten(prefix, rs[..i], old(slots))
      {
        assert rs[..i + 1][..i] == rs[..i];
        var r := rs[i];
        i := i + 1;
        var name := TrimSpace(r.name);
        if name == "" {
          continue;
        }
        var path := PathOf(prefix, name);
        var env := TrimSpace(r.env);
        if env != "" {
          slots := slots[path := Slot(env, r.value)];
        }
        FlattenRecords(path, r.children);
      }
      assert rs[..i] == rs;
    }
  }

  /** Different paths never share an environment name. */
  ghost predicate Injective(slots: Slots) {
    forall p, q :: p in slots && q in slots && slots[p].env == slots[q].env ==> p == q
  }

  /** `slots'` has only names of `slots` and of `names`, which `slots` does not have. */
  ghost predicate AddsOnly(slots: Slots, names: seq<string>, slots': Slots) {
    && (forall p :: p in slots' ==> slots'[p].env in names || HasEnv(slots, slots'[p].env))
    && Injective(slots')
  }

  ghost predicate HasEnv(slots: Slots, env: string) {
    exists p :: p in slots && slots[p].env == env
  }

  ghost predicate Free(slots: Slots, names: seq<string>) {
    forall n :: n in names ==> !HasEnv(slots, n)
  }

  lemma NoRepeatsParts(a: seq<string>, b: seq<string>)
    requires NoRepeats(a + b)
    ensures NoRepeats(a) && NoRepeats(b) && forall n :: n in a ==> n !in b
  {
    forall i, j | 0 <= i < j < |a| ensures a[i] != a[j] { assert (a + b)[i] == a[i] && (a + b)[j] == a[j]; }
    forall i, j | 0 <= i < j < |b| ensures b[i] != b[j] { assert (a + b)[|a| + i] == b[i] && (a + b)[|a| + j] == b[j]; }
    forall n | n in a ensures n !in b {
      var i :| 0 <= i < |a| && a[i] == n;
      forall j | 0 <= j < |b| ensures b[j] != n { assert (a + b)[i] == n && (a + b)[|a| + j] == b[j]; }
    }
  }

  lemma AddsThenFree(slots: Slots, a: seq<string>, slots': Slots, b: seq<string>)
    requires AddsOnly(slots, a, slots') && Free(slots, b) && forall n :: n in a ==> n !in b
    ensures Free(slots', b)
  {
  }

  lemma AddsTwice(s0: Slots, a: seq<string>, s1: Slots, b: seq<string>, s2: Slots)
    requires AddsOnly(s0, a, s1) && AddsOnly(s1, b, s2)
    ensures AddsOnly(s0, a + b, s2)
  {
  }

  lemma PutAdds(slots: Slots, path: string, slot: Slot)
    requires Injective(slots) && !HasEnv(slots, slot.env)
    ensures AddsOnly(slots, [slot.env], slots[path := slot])
  {
  }

  lemma {:induction false} FlattenAdds(prefix: string, rs: seq<Record>, out: Slots)
    requires Injective(out) && NoRepeats(Envs(rs)) && Trimmed(Envs(rs)) && Free(out, Envs(rs))
    ensures AddsOnly(out, Envs(rs), Flatten(prefix, rs, out))
    decreases rs, 0
  {
    if rs != [] {
      var init, last := rs[..|rs| - 1], rs[|rs| - 1];
      NoRepeatsParts(Envs(init), EnvsOf(last));
      FlattenAdds(prefix, init, out);
      AddsThenFree(out, Envs(init), Flatten(prefix, init, out), EnvsOf(last));
      FlattenOneAdds(prefix, last, Flatten(prefix, init, out));
      AddsTwice(out, Envs(init), Flatten(prefix, init, out), EnvsOf(last), Flatten(prefix, rs, out));
    }
  }

  lemma {:induction false} FlattenOneAdds(prefix: string, r: Record, out: Slots)
    requires Injective(out) && NoRepeats(EnvsOf(r)) && Trimmed(EnvsOf(r)) && Free(out, EnvsOf(r))
    ensures AddsOnly(out, EnvsOf(r), FlattenOne(prefix, r, out))
    decreases r, 1
  {
    var name := TrimSpace(r.name);
    var own := if r.env != "" then [r.env] else [];
    NoRepeatsParts(own, Envs(r.children));
    if name != "" {
      var path := PathOf(prefix, name);
      var out1 := OwnSlot(path, r, out);
      AddsThenFree(out, own, out1, Envs(r.children));
      FlattenAdds(path, r.children, out1);
      AddsTwice(out, own, out1, Envs(r.children), FlattenOne(prefix, r, out));
    }
  }

  lemma OwnSlot(path: string, r: Record, out: Slots) returns (out1: Slots)
    requires Injective(out) && Trimmed(EnvsOf(r)) && Free(out, EnvsOf(r))
    ensures out1 == if TrimSpace(r.env) != "" then out[path := Slot(TrimSpace(r.env), r.value)] else out
    ensures AddsOnly(out, if r.env != "" then [r.env] else [], out1)
  {
    out1 := out;
    if r.env != "" {
      assert r.env in EnvsOf(r);
      PutAdds(out, path, Slot(r.env, r.value));
      out1 := out[path := Slot(r.env, r.value)];
    }
  }

  /** In the flat form of what the builder makes, different paths have different environment names, all of them taken ones. */
  lemma FlatFormInjective(entries: seq<TypeEntry>, vars: map<string, string>)
    ensures
      var (rs, seen) := BuildEntries(entries, vars);
      var slots := Flatten("", rs, map[]);
      Injective(slots) && forall p :: p in slots ==> slots[p].env in seen && slots[p].env in Envs(rs)
  {
    var (rs, seen) := BuildEntries(entries, vars);
    EveryNameOnce(entries, vars);
    EnvsNonEmpty(rs);
    FlattenAdds("", rs, map[]);
  }

  // ---------------------------------------------------------------------------------------
  // Bindings
  // ---------------------------------------------------------------------------------------

  datatype Binding = Binding(from: string, value: string)

  function ResolveBinding(b: Binding, env: map<string, string>, fallback: string): string {
    var from := TrimSpace(b.from);
    if from != "" && from in env && !Blank(env[from]) then env[from]
    else if !Blank(b.value) then b.value
    else fallback
  }

  type Bindings = map<string, Binding>

  predicate Known(slots: Slots, key: string) {
    TrimSpace(key) in slots
  }

  function EnvFor(slots: Slots, key: string): string
    requires Known(slots, key)
  {
    slots[TrimSpace(key)].env
  }

  function ValueFor(slots: Slots, bindings: Bindings, env: map<string, string>, key: string): string
    requires key in bindings && Known(slots, key)
  {
    ResolveBinding(bindings[key], env, slots[TrimSpace(key)].value)
  }

  ghost predicate AllKnown(slots: Slots, keys: seq<string>) {
    forall k :: k in keys ==> Known(slots, k)
  }

  /** The map after visiting `keys` in this order. */
  function ResolveIn(slots: Slots, bindings: Bindings, env: map<string, string>, keys: seq<string>): map<string, string>
    requires forall k :: k in keys ==> k in bindings && Known(slots, k)
  {
    if keys == [] then map[]
    else
      var last := keys[|keys| - 1];
      ResolveIn(slots, bindings, env, keys[..|keys| - 1])[EnvFor(slots, last) := ValueFor(slots, bindings, env, last)]
  }

  /** An order in which a loop may visit `keys`. */
  ghost predicate IsOrder(order: seq<string>, keys: set<string>) {
    NoRepeats(order) && forall k :: k in keys <==> k in order
  }

  /** The keys are visited in an unspecified order; the first unknown one met is reported. */
  method ResolveBindings(slots: Slots, bindings: Bindings, env: map<string, string>) returns (r: Result<map<string, string>, string>)
    ensures r.Ok? <==> forall k :: k in bindings ==> Known(slots, k)
    ensures r.Bad? ==> r.error in bindings && !Known(slots, r.error)
    ensures r.Ok? ==> exists order :: IsOrder(order, bindings.Keys) && r.value == ResolveIn(slots, bindings, env, order)
  {
    var out: map<string, string> := map[];
    var rest := bindings.Keys;
    ghost var order: seq<string> := [];
    while rest != {}
      invariant rest <= bindings.Keys && IsOrder(order, bindings.Keys - rest) && AllKnown(slots, order)
      invariant out == ResolveIn(slots, bindings, env, order)
    {
      var key :| key in rest;
      if TrimSpace(key) !in slots {
        return Bad(key);
      }
      var slot := slots[TrimSpace(key)];
      out := out[slot.env := ResolveBinding(bindings[key], env, slot.value)];
      assert (order + [key])[..|order|] == order;
      order := order + [key];
      rest := rest - {key};
    }
    assert IsOrder(order, bindings.Keys);
    r := Ok(out);
  }

  /** Two bindings for one environment entry with different values. */
  ghost predicate Clash(slots: Slots, bindings: Bindings, env: map<string, string>, k: string, k': string) {
    && k in bindings && k' in bindings && Known(slots, k) && Known(slots, k')
    && EnvFor(slots, k) == EnvFor(slots, k') && ValueFor(slots, bindings, env, k) != ValueFor(slots, bindings, env, k')
  }

  ghost predicate AllResolvable(slots: Slots, bindings: Bindings) {
    forall k :: k in bindings ==> Known(slots, k)
  }

  /** Every entry comes from a visited key, and every visited key has an entry; the last visit decides. */
  lemma {:induction false} ResolvedEntry(slots: Slots, bindings: Bindings, env: map<string, string>, order: seq<string>, e: string)
    requires forall k :: k in order ==> k in bindings && Known(slots, k)
    ensures e in ResolveIn(slots, bindings, env, order) <==> exists k :: k in order && EnvFor(slots, k) == e
    ensures e in ResolveIn(slots, bindings, env, order) ==>
              exists k :: k in order && EnvFor(slots, k) == e && ResolveIn(slots, bindings, env, order)[e] == ValueFor(slots, bindings, env, k)
    decreases |order|
  {
    if order != [] {
      var init, last := order[..|order| - 1], order[|order| - 1];
      ResolvedEntry(slots, bindings, env, init, e);
      assert last in order;
      assert forall k :: k in order <==> k in init || k == last;
    }
  }

  lemma SameWithoutClash(slots: Slots, bindings: Bindings, env: map<string, string>, x: seq<string>, y: seq<string>)
    requires AllResolvable(slots, bindings) && IsOrder(x, bindings.Keys) && IsOrder(y, bindings.Keys)
    requires forall k, k' :: !Clash(slots, bindings, env, k, k')
    ensures ResolveIn(slots, bindings, env, x) == ResolveIn(slots, bindings, env, y)
  {
    var a, b := ResolveIn(slots, bindings, env, x), ResolveIn(slots, bindings, env, y);
    forall e ensures (e in a <==> e in b) && (e in a ==> a[e] == b[e]) {
      ResolvedEntry(slots, bindings, env, x, e);
      ResolvedEntry(slots, bindings, env, y, e);
      if e in a && e in b {
        var k :| k in x && EnvFor(slots, k) == e && a[e] == ValueFor(slots, bindings, env, k);
        var k' :| k' in y && EnvFor(slots, k') == e && b[e] == ValueFor(slots, bindings, env, k');
        assert !Clash(slots, bindings, env, k, k');
      }
    }
  }

  lemma {:induction false} SomeOrder(keys: set<string>) returns (order: seq<string>)
    ensures IsOrder(order, keys)
    decreases |keys|
  {
    order := [];
    if keys != {} {
      var k :| k in keys;
      var rest := SomeOrder(keys - {k});
      order := rest + [k];
    }
  }

  /** An order that ends with `k`. */
  lemma OrderEnding(keys: set<string>, k: string) returns (order: seq<string>)
    requires k in keys
    ensures IsOrder(order, keys) && order[|order| - 1] == k
  {
    var rest := SomeOrder(keys - {k});
    order := rest + [k];
  }

  lemma DifferentWithClash(slots: Slots, bindings: Bindings, env: map<string, string>, k: string, k': string)
    returns (x: seq<string>, y: seq<string>)
    requires AllResolvable(slots, bindings) && Clash(slots, bindings, env, k, k')
    ensures IsOrder(x, bindings.Keys) && IsOrder(y, bindings.Keys)
    ensures ResolveIn(slots, bindings, env, x) != ResolveIn(slots, bindings, env, y)
  {
    x := OrderEnding(bindings.Keys, k);
    y := OrderEnding(bindings.Keys, k');
    var e := EnvFor(slots, k);
    assert ResolveIn(slots, bindings, env, x)[e] == ValueFor(slots, bindings, env, k);
    assert ResolveIn(slots, bindings, env, y)[e] == ValueFor(slots, bindings, env, k');
  }

  ghost predicate OrderIrrelevant(slots: Slots, bindings: Bindings, env: map<string, string>)
    requires AllResolvable(slots, bindings)
  {
    forall x, y :: IsOrder(x, bindings.Keys) && IsOrder(y, bindings.Keys) ==>
      ResolveIn(slots, bindings, env, x) == ResolveIn(slots, bindings, env, y)
  }

  /**
   Against the flat form of a built tree, the result is independent of the order of the bindings exactly when
   no two keys that trim to one path resolve to different values; in particular when trimmed keys differ.
   */
  lemma OrderIrrelevantIffNoClash(
      entries: seq<TypeEntry>, vars: map<string, string>, slots: Slots, bindings: Bindings, env: map<string, string>)
    requires slots == Flatten("", BuildEntries(entries, vars).0, map[]) && AllResolvable(slots, bindings)
    ensures OrderIrrelevant(slots, bindings, env) <==>
            forall k, k' :: k in bindings && k' in bindings && TrimSpace(k) == TrimSpace(k') ==>
              ValueFor(slots, bindings, env, k) == ValueFor(slots, bindings, env, k')
  {
    FlatFormInjective(entries, vars);
    if k, k' :| Clash(slots, bindings, env, k, k') {
      var x, y := DifferentWithClash(slots, bindings, env, k, k');
      assert TrimSpace(k) == TrimSpace(k');
    } else {
      forall x, y | IsOrder(x, bindings.Keys) && IsOrder(y, bindings.Keys)
        ensures ResolveIn(slots, bindings, env, x) == ResolveIn(slots, bindings, env, y)
      {
        SameWithoutClash(slots, bindings, env, x, y);
      }
      forall k, k' | k in bindings && k' in bindings && TrimSpace(k) == TrimSpace(k')
        ensures ValueFor(slots, bindings, env, k) == ValueFor(slots, bindings, env, k')
      {
        assert !Clash(slots, bindings, env, k, k');
      }
    }
  }

  /** The variable that a binding names, when it is set to something. */
  predicate Supplies(b: Binding, env: map<string, string>, v: string) {
    TrimSpace(b.from) != "" && TrimSpace(b.from) in env && env[TrimSpace(b.from)] == v && !Blank(v)
  }

  /**
   With distinct trimmed keys, every binding has its own entry and decides it: by the variable it names, else by its own
   value, else by the default of the field.
   */
  lemma EachBindingItsOwnEntry(
      entries: seq<TypeEntry>, vars: map<string, string>, slots: Slots, bindings: Bindings, env: map<string, string>,
      order: seq<string>, k: string)
    requires slots == Flatten("", BuildEntries(entries, vars).0, map[]) && AllResolvable(slots, bindings)
    requires forall k, k' :: k in bindings && k' in bindings && TrimSpace(k) == TrimSpace(k') ==> k == k'
    requires IsOrder(order, bindings.Keys) && k in bindings
    ensures
      var out := ResolveIn(slots, bindings, env, order);
      var slot := slots[TrimSpace(k)];
      && slot.env in out
      && (forall v :: Supplies(bindings[k], env, v) ==> out[slot.env] == v)
      && ((forall v :: !Supplies(bindings[k], env, v)) ==>
            out[slot.env] == if Blank(bindings[k].value) then slot.value else bindings[k].value)
  {
    FlatFormInjective(entries, vars);
    OwnEntry(slots, bindings, env, order, k);
    Precedence(bindings[k], env, slots[TrimSpace(k)].value);
  }

  lemma OwnEntry(slots: Slots, bindings: Bindings, env: map<string, string>, order: seq<string>, k: string)
    requires Injective(slots) && AllResolvable(slots, bindings) && IsOrder(order, bindings.Keys) && k in bindings
    requires forall k, k' :: k in bindings && k' in bindings && TrimSpace(k) == TrimSpace(k') ==> k == k'
    ensures
      var out := ResolveIn(slots, bindings, env, order);
      EnvFor(slots, k) in out && out[EnvFor(slots, k)] == ValueFor(slots, bindings, env, k)
  {
    ResolvedEntry(slots, bindings, env, order, EnvFor(slots, k));
  }

  lemma Precedence(b: Binding, env: map<string, string>, fallback: string)
    ensures forall v :: Supplies(b, env, v) ==> ResolveBinding(b, env, fallback) == v
    ensures (forall v :: !Supplies(b, env, v)) ==> ResolveBinding(b, env, fallback) == if Blank(b.value) then fallback else b.value
  {
    var from := TrimSpace(b.from);
    if from in env { assert Supplies(b, env, env[from]) <==> from != "" && !Blank(env[from]); }
  }

  // ---------------------------------------------------------------------------------------
  // A type with one field, and two keys for it
  // ---------------------------------------------------------------------------------------

  const FIELD := Field("a", "", Primitive)

  const ENTRY := TypeEntry(Program(name => None, name => map[], name => "A"), [FIELD], "", map[])

  const RECORD := Record("a", "A", "", [])

  lemma ExampleTree()
    ensures BuildEntries([ENTRY], map[]).0 == [RECORD]
  {
    var p := ENTRY.program;
    assert TrimSpace("A") == "A" && Upper("A") == "A" && TrimSpace("") + "A" == "A";
    assert p.envOf(FIELD.name) == "A" && FIELD.explicit == "" && |"A"| == 1;
    assert EnvName(p, FIELD, "") == TrimSpace("") + "A";
    assert KeyOf("A") == "A" && DefaultOf("A", "a", map[], map[]) == "";
    var none: set<string> := {};
    assert none + {"A"} == {"A"};
    assert Claim(p, FIELD, "", map[], map[], none) == (Some(RECORD), {"A"});
    assert [FIELD][..0] == [] && [ENTRY][..0] == [];
    assert BuildAll(p, [], "", map[], map[], {}, 0) == ([], {});
    assert [] + Kept(Some(RECORD)) == [RECORD];
    assert BuildAll(p, [FIELD], "", map[], map[], {}, 0) == ([RECORD], {"A"});
    assert [] + [RECORD] == [RECORD];
  }

  lemma ExampleSlots()
    ensures Flatten("", [RECORD], map[]) == map["a" := Slot("A", "")]
  {
    assert TrimSpace("a") == "a" && TrimSpace("A") == "A";
    assert [RECORD][..0] == [];
  }

  /** The keys "a" and " a" name that field both; which of their values it gets depends on the order of the visit. */
  lemma ExampleClash() returns (x: seq<string>, y: seq<string>)
    ensures
      var slots := Flatten("", BuildEntries([ENTRY], map[]).0, map[]);
      var bindings: Bindings := map["a" := Binding("", "1"), " a" := Binding("", "2")];
      && AllResolvable(slots, bindings)
      && IsOrder(x, bindings.Keys) && IsOrder(y, bindings.Keys)
      && ResolveIn(slots, bindings, map[], x) != ResolveIn(slots, bindings, map[], y)
  {
    ExampleTree();
    ExampleSlots();
    var slots: Slots := map["a" := Slot("A", "")];
    var bindings: Bindings := map["a" := Binding("", "1"), " a" := Binding("", "2")];
    KeysMeet();
    assert ValueFor(slots, bindings, map[], "a") == "1" && ValueFor(slots, bindings, map[], " a") == "2";
    x, y := DifferentWithClash(slots, bindings, map[], "a", " a");
  }

  lemma KeysMeet()
    ensures TrimSpace("a") == "a" && TrimSpace(" a") == "a" && "a" != " a"
    ensures TrimSpace("") == "" && !Blank("1") && !Blank("2")
  {
    assert " a"[1..] == "a";
    assert |"a"| != |" a"|;
  }
}
