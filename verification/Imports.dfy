/** Import resolution of workflow files (workflow_imports.go). */
module Imports {
  import opened Outcomes
  import opened Text
  import opened Schedule

  /** The fields of a workflow file that resolution reads. */
  datatype File = File(
    vars: map<string, string>, inputs: map<string, string>,
    platforms: seq<string>, hosts: seq<string>, inject: seq<string>,
    steps: seq<Item>, fin: seq<Item>, imports: seq<string>)

  /** A file as YAML gives it: the entries of its two step lists have yet to meet the shape rules. */
  datatype RawFile = RawFile(rest: File, steps: seq<Entry>, fin: seq<Entry>)

  datatype ImportError = TooDeep | Circular(path: string) | NoReader | Failed(what: string) | Shape(error: ShapeError)

  /** The helpers that resolution is given; `canRead` is whether there is a reader at all. */
  datatype Disk = Disk(
    canRead: bool,
    read: string -> Result<string, ImportError>,
    decode: string -> Result<RawFile, ImportError>,
    abs: string -> Result<string, ImportError>,
    join: (string, string) -> string,
    dir: string -> string)

  const MAX_DEPTH := 32

  /** A file about to be parsed: its text, where its imports start from, and the chain of absolute paths that led to it. */
  datatype Node = Node(data: string, base: string, stack: seq<string>)

  function DecodeAll(entries: seq<Entry>): Result<seq<Item>, ShapeError> {
    if entries == [] then Ok([])
    else
      var first, rest := DecodeEntry(entries[0]), DecodeAll(entries[1..]);
      if first.Bad? then Bad(first.error) else if rest.Bad? then rest else Ok([first.value] + rest.value)
  }

  /** The file that `data` holds, or what is wrong with it. */
  function Decoded(d: Disk, data: string): Result<File, ImportError> {
    var raw := d.decode(data);
    if raw.Bad? then Bad(raw.error)
    else
      var steps, fin := DecodeAll(raw.value.steps), DecodeAll(raw.value.fin);
      if steps.Bad? then Bad(Shape(steps.error))
      else if fin.Bad? then Bad(Shape(fin.error))
      else Ok(raw.value.rest.(steps := steps.value, fin := fin.value))
  }

  predicate Skipped(imp: string) {
    TrimSpace(imp) == ""
  }

  /** The file that `imp` names in `n`. */
  function Child(d: Disk, n: Node, imp: string): (r: Result<Node, ImportError>)
    ensures r.Ok? ==> |r.value.stack| == |n.stack| + 1
  {
    var base := if TrimSpace(n.base) == "" then "." else TrimSpace(n.base);
    var path := d.join(base, TrimSpace(imp));
    var abs := d.abs(path);
    if abs.Bad? then Bad(abs.error)
    else if abs.value in n.stack then Bad(Circular(abs.value))
    else
      var data := d.read(path);
      if data.Bad? then Bad(data.error) else Ok(Node(data.value, d.dir(path), n.stack + [abs.value]))
  }

  // ---------------------------------------------------------------------------------------
  // The import tree
  // ---------------------------------------------------------------------------------------

  datatype Tree = Tree(file: File, children: seq<Tree>)

  /** The tree of files that `n` unfolds to, or the first error on the way. */
  function Unfold(d: Disk, n: Node): Result<Tree, ImportError>
    decreases MAX_DEPTH + 1 - |n.stack|, 1, 0
  {
    if |n.stack| > MAX_DEPTH then Bad(TooDeep)
    else
      var f := Decoded(d, n.data);
      if f.Bad? then Bad(f.error)
      else if f.value.imports == [] then Ok(Tree(f.value, []))
      else if !d.canRead then Bad(NoReader)
      else
        var children := UnfoldAll(d, n, f.value.imports);
        if children.Bad? then Bad(children.error) else Ok(Tree(f.value, children.value))
  }

  function UnfoldAll(d: Disk, n: Node, imports: seq<string>): Result<seq<Tree>, ImportError>
    requires |n.stack| <= MAX_DEPTH
    decreases MAX_DEPTH + 1 - |n.stack|, 0, |imports| + 1
  {
    if imports == [] then Ok([])
    else if Skipped(imports[0]) then UnfoldAll(d, n, imports[1..])
    else
      var first := UnfoldOne(d, n, imports[0]);
      if first.Bad? then Bad(first.error) else Before(first.value, UnfoldAll(d, n, imports[1..]))
  }

  /** The tree of one import that is not skipped. */
  function UnfoldOne(d: Disk, n: Node, imp: string): Result<Tree, ImportError>
    requires |n.stack| <= MAX_DEPTH
    decreases MAX_DEPTH + 1 - |n.stack|, 0, 0
  {
    var child := Child(d, n, imp);
    if child.Bad? then Bad(child.error) else Unfold(d, child.value)
  }

  function Before(first: Tree, rest: Result<seq<Tree>, ImportError>): Result<seq<Tree>, ImportError> {
    if rest.Bad? then rest else Ok([first] + rest.value)
  }

  // ---------------------------------------------------------------------------------------
  // Traversals
  // ---------------------------------------------------------------------------------------

  /** Imports before their importer. */
  function Post(t: Tree): seq<File> {
    PostAll(t.children) + [t.file]
  }

  function PostAll(ts: seq<Tree>): seq<File> {
    if ts == [] then [] else PostAll(ts[..|ts| - 1]) + Post(ts[|ts| - 1])
  }

  /** An importer before its imports. */
  function Pre(t: Tree): seq<File> {
    [t.file] + PreAll(t.children)
  }

  function PreAll(ts: seq<Tree>): seq<File> {
    if ts == [] then [] else PreAll(ts[..|ts| - 1]) + Pre(ts[|ts| - 1])
  }

  /** One list field of the files, end to end. */
  function Concat<T>(fs: seq<File>, field: File -> seq<T>): seq<T>
    decreases |fs|
  {
    if fs == [] then [] else Concat(fs[..|fs| - 1], field) + field(fs[|fs| - 1])
  }

  /** One map field of the files, later files over earlier ones. */
  function Override(fs: seq<File>, field: File -> map<string, string>): map<string, string>
    decreases |fs|
  {
    if fs == [] then map[] else Override(fs[..|fs| - 1], field) + field(fs[|fs| - 1])
  }

  function Vars(f: File): map<string, string> { f.vars }
  function Inputs(f: File): map<string, string> { f.inputs }
  function Platforms(f: File): seq<string> { f.platforms }
  function Hosts(f: File): seq<string> { f.hosts }
  function Inject(f: File): seq<string> { f.inject }
  function Steps(f: File): seq<Item> { f.steps }
  function Fin(f: File): seq<Item> { f.fin }

  /** The file that stands for a whole import tree. */
  predicate Summarises(f: File, post: seq<File>, pre: seq<File>) {
    && f.vars == Override(post, Vars) && f.inputs == Override(post, Inputs)
    && f.platforms == Concat(post, Platforms) && f.hosts == Concat(post, Hosts) && f.inject == Concat(post, Inject)
    && f.steps == Concat(post, Steps)
    && f.fin == Concat(pre, Fin)
  }

  lemma {:induction false} ConcatAppend<T>(a: seq<File>, b: seq<File>, field: File -> seq<T>)
    ensures Concat(a + b, field) == Concat(a, field) + Concat(b, field)
    decreases |b|
  {
    if b == [] {
      assert a + b == a;
    } else {
      assert (a + b)[..|a + b| - 1] == a + b[..|b| - 1];
      ConcatAppend(a, b[..|b| - 1], field);
    }
  }

  lemma {:induction false} OverrideAppend(a: seq<File>, b: seq<File>, field: File -> map<string, string>)
    ensures Override(a + b, field) == Override(a, field) + Override(b, field)
    decreases |b|
  {
    if b == [] {
      assert a + b == a;
    } else {
      assert (a + b)[..|a + b| - 1] == a + b[..|b| - 1];
      OverrideAppend(a, b[..|b| - 1], field);
    }
  }

  lemma SummaryAppend(f: File, post: seq<File>, pre: seq<File>, g: File, post': seq<File>, pre': seq<File>)
    requires Summarises(f, post, pre) && Summarises(g, post', pre')
    ensures Summarises(Plus(f, g), post + post', pre + pre')
  {
    OverrideAppend(post, post', Vars);
    OverrideAppend(post, post', Inputs);
    ConcatAppend(post, post', Platforms);
    ConcatAppend(post, post', Hosts);
    ConcatAppend(post, post', Inject);
    ConcatAppend(post, post', Steps);
    ConcatAppend(pre, pre', Fin);
  }

  /** Field by field, `f` and then `g`. */
  function Plus(f: File, g: File): File {
    File(f.vars + g.vars, f.inputs + g.inputs, f.platforms + g.platforms, f.hosts + g.hosts, f.inject + g.inject,
         f.steps + g.steps, f.fin + g.fin, [])
  }

  lemma SummaryOne(f: File)
    ensures Summarises(f, [f], [f])
  {
    assert [f][..0] == [];
  }

  /** The files imported so far summarised in `m`, their importer's own fields go last, and its finally steps first. */
  lemma SummaryImporter(m: File, ts: seq<Tree>, f: File, out: File)
    requires Summarises(m, PostAll(ts), PreAll(ts))
    requires out == f.(vars := m.vars + f.vars, inputs := m.inputs + f.inputs, platforms := m.platforms + f.platforms,
                       hosts := m.hosts + f.hosts, inject := m.inject + f.inject, steps := m.steps + f.steps,
                       fin := f.fin + m.fin, imports := [])
    ensures Summarises(out, Post(Tree(f, ts)), Pre(Tree(f, ts)))
  {
    SummaryOne(f);
    SummaryAppend(m, PostAll(ts), PreAll(ts), f, [f], [f]);
    ConcatAppend([f], PreAll(ts), Fin);
  }

  // ---------------------------------------------------------------------------------------
  // Resolution
  // ---------------------------------------------------------------------------------------

  /** What parsing `n` answers. */
  predicate Parses(d: Disk, n: Node, r: Result<File, ImportError>) {
    var tree := Unfold(d, n);
    if tree.Bad? then r == Bad(tree.error)
    else r.Ok? && r.value.imports == [] && Summarises(r.value, Post(tree.value), Pre(tree.value))
  }

  method ParseRecursive(d: Disk, data: string, base: string, stack: seq<string>, depth: nat) returns (r: Result<File, ImportError>)
    requires depth == |stack|
    ensures Parses(d, Node(data, base, stack), r)
    decreases MAX_DEPTH + 1 - depth, 2
  {
    if depth > MAX_DEPTH {
      return Bad(TooDeep);
    }
    var decoded := Decoded(d, data);
    if decoded.Bad? {
      return Bad(decoded.error);
    }
    var f := decoded.value;
    if |f.imports| == 0 {
      SummaryOne(f);
      return Ok(f);
    }
    if !d.canRead {
      return Bad(NoReader);
    }
    var merged, ts := MergeImports(d, f.imports, Node(data, base, stack), stack, depth);
    if merged.Bad? {
      return merged;
    }
    var m := merged.value;
    var out := f.(vars := m.vars + f.vars, inputs := m.inputs + f.inputs, platforms := m.platforms + f.platforms,
                  hosts := m.hosts + f.hosts, inject := m.inject + f.inject, steps := m.steps + f.steps,
                  fin := f.fin + m.fin, imports := []);
    SummaryImporter(m, ts, f, out);
    r := Ok(out);
  }

  /** The imports of one file, one after the other, put together field by field. */
  method MergeImports(d: Disk, imports: seq<string>, n: Node, stack: seq<string>, depth: nat)
    returns (r: Result<File, ImportError>, ghost ts: seq<Tree>)
    requires n.stack == stack && depth == |stack| <= MAX_DEPTH
    ensures
      var trees := UnfoldAll(d, n, imports);
      if trees.Bad? then r == Bad(trees.error)
      else r.Ok? && ts == trees.value && Summarises(r.value, PostAll(ts), PreAll(ts))
    decreases MAX_DEPTH + 1 - depth, 1
  {
    var m := File(map[], map[], [], [], [], [], [], []);
    ts := [];
    var i := 0;
    AfterNothing(UnfoldAll(d, n, imports));
    assert imports[0..] == imports;
    while i < |imports|
      invariant 0 <= i <= |imports|
      invariant UnfoldAll(d, n, imports) == After(ts, UnfoldAll(d, n, imports[i..]))
      invariant Summarises(m, PostAll(ts), PreAll(ts))
    {
      assert imports[i..][0] == imports[i] && imports[i..][1..] == imports[i + 1..];
      UnfoldFirst(d, n, imports[i..], ts);
      var imp := imports[i];
      i := i + 1;
      if TrimSpace(imp) == "" {
        continue;
      }
      var sub, t := ImportOne(d, imp, n, stack, depth);
      if sub.Bad? {
        return sub, ts;
      }
      SummarySnoc(m, ts, sub.value, t);
      ts := ts + [t];
      m := Plus(m, sub.value);
    }
    assert imports[i..] == [] && ts + [] == ts;
    r := Ok(m);
  }

  method ImportOne(d: Disk, imp: string, n: Node, stack: seq<string>, depth: nat)
    returns (r: Result<File, ImportError>, ghost t: Tree)
    requires n.stack == stack && depth == |stack| <= MAX_DEPTH
    ensures
      var tree := UnfoldOne(d, n, imp);
      if tree.Bad? then r == Bad(tree.error)
      else r.Ok? && t == tree.value && Summarises(r.value, Post(t), Pre(t))
    decreases MAX_DEPTH + 1 - depth, 0
  {
    t := Tree(File(map[], map[], [], [], [], [], [], []), []);
    var child := Locate(d, n, imp, stack);
    if child.Bad? {
      return Bad(child.error), t;
    }
    r := ParseRecursive(d, child.value.data, child.value.base, child.value.stack, depth + 1);
    if r.Ok? {
      t := Unfold(d, child.value).value;
    }
  }

  /** Joins, makes absolute, looks for the path on the chain, and reads. */
  method Locate(d: Disk, n: Node, imp: string, stack: seq<string>) returns (r: Result<Node, ImportError>)
    requires n.stack == stack
    ensures r == Child(d, n, imp)
  {
    var start := TrimSpace(n.base);
    if start == "" {
      start := ".";
    }
    var path := d.join(start, TrimSpace(imp));
    var abs := d.abs(path);
    if abs.Bad? {
      return Bad(abs.error);
    }
    var i := 0;
    while i < |stack|
      invariant 0 <= i <= |stack| && abs.value !in stack[..i]
    {
      if stack[i] == abs.value {
        return Bad(Circular(abs.value));
      }
      i := i + 1;
    }
    var text := d.read(path);
    if text.Bad? {
      return Bad(text.error);
    }
    r := Ok(Node(text.value, d.dir(path), stack + [abs.value]));
  }

  ghost function After(front: seq<Tree>, rest: Result<seq<Tree>, ImportError>): Result<seq<Tree>, ImportError> {
    if rest.Bad? then rest else Ok(front + rest.value)
  }

  /** What the first import does to the trees found so far. */
  lemma UnfoldFirst(d: Disk, n: Node, imports: seq<string>, front: seq<Tree>)
    requires |n.stack| <= MAX_DEPTH && imports != []
    ensures
      After(front, UnfoldAll(d, n, imports)) ==
      if Skipped(imports[0]) then After(front, UnfoldAll(d, n, imports[1..]))
      else
        var tree := UnfoldOne(d, n, imports[0]);
        if tree.Bad? then Bad(tree.error) else After(front + [tree.value], UnfoldAll(d, n, imports[1..]))
  {
    if !Skipped(imports[0]) && UnfoldOne(d, n, imports[0]).Ok? {
      AfterBefore(front, UnfoldOne(d, n, imports[0]).value, UnfoldAll(d, n, imports[1..]));
    }
  }

  lemma SummarySnoc(m: File, ts: seq<Tree>, f: File, t: Tree)
    requires Summarises(m, PostAll(ts), PreAll(ts)) && Summarises(f, Post(t), Pre(t))
    ensures Summarises(Plus(m, f), PostAll(ts + [t]), PreAll(ts + [t]))
  {
    SummaryAppend(m, PostAll(ts), PreAll(ts), f, Post(t), Pre(t));
    AllSnoc(ts, t);
  }

  lemma AfterNothing(rest: Result<seq<Tree>, ImportError>)
    ensures After([], rest) == rest
  {
    if rest.Ok? { assert [] + rest.value == rest.value; }
  }

  lemma AfterBefore(front: seq<Tree>, t: Tree, rest: Result<seq<Tree>, ImportError>)
    ensures After(front, Before(t, rest)) == After(front + [t], rest)
  {
    if rest.Ok? { assert front + ([t] + rest.value) == front + [t] + rest.value; }
  }

  lemma AllSnoc(ts: seq<Tree>, t: Tree)
    ensures PostAll(ts + [t]) == PostAll(ts) + Post(t) && PreAll(ts + [t]) == PreAll(ts) + Pre(t)
  {
    assert (ts + [t])[..|ts|] == ts;
  }

  /** Resolution and flattening of a whole workflow. */
  method ParseWorkflow(d: Disk, data: string, base: string) returns (r: Result<(File, Workflow), ImportError>)
    ensures
      var tree := Unfold(d, Node(data, base, []));
      if tree.Bad? then r == Bad(tree.error)
      else
        var steps, fin := Concat(Post(tree.value), Steps), Concat(Pre(tree.value), Fin);
        if FlatError(steps).Some? then r == Bad(Shape(FlatError(steps).value))
        else if FlatError(fin).Some? then r == Bad(Shape(FlatError(fin).value))
        else r.Ok? && Summarises(r.value.0, Post(tree.value), Pre(tree.value)) && r.value.1 == Workflow(Flat(steps), Flat(fin))
  {
    var file := ParseRecursive(d, data, base, [], 0);
    if file.Bad? {
      return Bad(file.error);
    }
    var steps := FlattenSteps(file.value.steps);
    if steps.Bad? {
      return Bad(Shape(steps.error));
    }
    var fin := FlattenSteps(file.value.fin);
    if fin.Bad? {
      return Bad(Shape(fin.error));
    }
    r := Ok((file.value, Workflow(steps.value, fin.value)));
  }
}
