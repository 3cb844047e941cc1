/** When import resolution succeeds, and what its result is made of. */
module ImportsTheorems {
  import opened Outcomes
  import opened Text
  import opened Sequences
  import opened Schedule
  import opened ScheduleTheorems
  import opened Imports

  // ---------------------------------------------------------------------------------------
  // Chains
  // ---------------------------------------------------------------------------------------

  /** `n` is a file that can be parsed and that names `imp`. */
  predicate Names(d: Disk, n: Node, imp: string) {
    Decoded(d, n.data).Ok? && imp in Decoded(d, n.data).value.imports && !Skipped(imp)
  }

  /** From `n`, each of `imps` is an import of the file before it, and can be located and read. */
  predicate IsChain(d: Disk, n: Node, imps: seq<string>)
    decreases |imps|
  {
    imps == [] || (Names(d, n, imps[0]) && Child(d, n, imps[0]).Ok? && IsChain(d, Child(d, n, imps[0]).value, imps[1..]))
  }

  function End(d: Disk, n: Node, imps: seq<string>): (end: Node)
    requires IsChain(d, n, imps)
    ensures |end.stack| == |n.stack| + |imps|
    decreases |imps|
  {
    if imps == [] then n else End(d, Child(d, n, imps[0]).value, imps[1..])
  }

  function StartDir(n: Node): string {
    if TrimSpace(n.base) == "" then "." else TrimSpace(n.base)
  }

  /** The import cannot be located or read, or is already on the chain. */
  predicate Stuck(d: Disk, n: Node, imp: string) {
    var path := d.join(StartDir(n), TrimSpace(imp));
    d.abs(path).Bad? || d.abs(path).value in n.stack || d.read(path).Bad?
  }

  lemma StuckIff(d: Disk, n: Node, imp: string)
    ensures Child(d, n, imp).Bad? <==> Stuck(d, n, imp)
  {
  }

  /**
   What is wrong with a file on its own: it lies too deep, cannot be parsed, has imports but no reader, or
   has an import that cannot be located or read or that is already on the chain.
   */
  ghost predicate Trouble(d: Disk, n: Node) {
    || |n.stack| > 32
    || Decoded(d, n.data).Bad?
    || (Decoded(d, n.data).value.imports != [] && !d.canRead)
    || exists imp :: Names(d, n, imp) && Stuck(d, n, imp)
  }

  ghost predicate LeadsToTrouble(d: Disk, n: Node, imps: seq<string>) {
    IsChain(d, n, imps) && Trouble(d, End(d, n, imps))
  }

  /** Resolution fails exactly when some chain of imports leads to a file with something wrong. */
  lemma {:induction false} FailsIffTrouble(d: Disk, n: Node)
    ensures Unfold(d, n).Bad? <==> exists imps :: LeadsToTrouble(d, n, imps)
    decreases MAX_DEPTH + 1 - |n.stack|, 1, 0
  {
    if Unfold(d, n).Bad? {
      if Trouble(d, n) {
        assert LeadsToTrouble(d, n, []);
      } else {
        var imps := FindTrouble(d, n, Decoded(d, n.data).value.imports);
      }
    } else if imps :| LeadsToTrouble(d, n, imps) {
      NoTrouble(d, n);
      FailsIffTrouble(d, Child(d, n, imps[0]).value);
      assert LeadsToTrouble(d, Child(d, n, imps[0]).value, imps[1..]);
      ChildUnfolds(d, n, Decoded(d, n.data).value.imports, imps[0]);
      assert false;
    }
  }

  lemma {:induction false} FindTrouble(d: Disk, n: Node, imports: seq<string>) returns (imps: seq<string>)
    requires !Trouble(d, n) && forall imp :: imp in imports ==> imp in Decoded(d, n.data).value.imports
    requires UnfoldAll(d, n, imports).Bad?
    ensures LeadsToTrouble(d, n, imps)
    decreases MAX_DEPTH + 1 - |n.stack|, 0, |imports|
  {
    if !Skipped(imports[0]) && Child(d, n, imports[0]).Ok? && Unfold(d, Child(d, n, imports[0]).value).Bad? {
      var child := Child(d, n, imports[0]).value;
      FailsIffTrouble(d, child);
      var rest :| LeadsToTrouble(d, child, rest);
      imps := [imports[0]] + rest;
      assert imps[1..] == rest && imports[0] in imports;
    } else {
      assert Skipped(imports[0]) || Names(d, n, imports[0]) by { assert imports[0] in imports; }
      StuckIff(d, n, imports[0]);
      imps := FindTrouble(d, n, imports[1..]);
    }
  }

  /** A file that unfolds has nothing wrong with it. */
  lemma NoTrouble(d: Disk, n: Node)
    requires Unfold(d, n).Ok?
    ensures !Trouble(d, n)
  {
    forall imp | Names(d, n, imp) ensures !Stuck(d, n, imp) {
      ChildUnfolds(d, n, Decoded(d, n.data).value.imports, imp);
      StuckIff(d, n, imp);
    }
  }

  lemma {:induction false} ChildUnfolds(d: Disk, n: Node, imports: seq<string>, imp: string)
    requires |n.stack| <= MAX_DEPTH && UnfoldAll(d, n, imports).Ok? && imp in imports && !Skipped(imp)
    ensures Child(d, n, imp).Ok? && Unfold(d, Child(d, n, imp).value).Ok?
    decreases |imports|
  {
    if imp != imports[0] {
      assert imp in imports[1..];
      ChildUnfolds(d, n, imports[1..], imp);
    }
  }

  lemma {:induction false} ChainDistinct(d: Disk, n: Node, imps: seq<string>)
    requires IsChain(d, n, imps) && NoRepeats(n.stack)
    ensures NoRepeats(End(d, n, imps).stack)
    decreases |imps|
  {
    if imps != [] {
      ChainDistinct(d, Child(d, n, imps[0]).value, imps[1..]);
    }
  }

  /** When resolution succeeds, every chain of imports has at most 32 links, all of them different files. */
  lemma ChainsAreShort(d: Disk, data: string, base: string, imps: seq<string>)
    requires Unfold(d, Node(data, base, [])).Ok? && IsChain(d, Node(data, base, []), imps)
    ensures |imps| <= 32 && NoRepeats(End(d, Node(data, base, []), imps).stack)
    ensures |End(d, Node(data, base, []), imps).stack| == |imps|
  {
    var n := Node(data, base, []);
    FailsIffTrouble(d, n);
    ChainDistinct(d, n, imps);
    assert !LeadsToTrouble(d, n, imps);
  }

  // ---------------------------------------------------------------------------------------
  // The result
  // ---------------------------------------------------------------------------------------

  /** A key has the value of the last file, imports before importers, that sets it. */
  lemma {:induction false} LastFileWins(fs: seq<File>, field: File -> map<string, string>, k: string)
    ensures k in Override(fs, field) <==> exists i :: 0 <= i < |fs| && k in field(fs[i])
    ensures forall i :: 0 <= i < |fs| && k in field(fs[i]) && (forall j :: i < j < |fs| ==> k !in field(fs[j])) ==>
              Override(fs, field)[k] == field(fs[i])[k]
    decreases |fs|
  {
    if fs != [] {
      var init := fs[..|fs| - 1];
      LastFileWins(init, field, k);
      if k !in field(fs[|fs| - 1]) {
        forall i | 0 <= i < |fs| && k in field(fs[i]) ensures i < |init| && init[i] == fs[i] {}
      }
    }
  }

  /** The importer's own value always wins. */
  lemma OwnValueWins(t: Tree, field: File -> map<string, string>, k: string)
    requires k in field(t.file)
    ensures k in Override(Post(t), field) && Override(Post(t), field)[k] == field(t.file)[k]
  {
    var fs := Post(t);
    LastFileWins(fs, field, k);
    assert fs[|fs| - 1] == t.file;
  }

  /** Both traversals visit the same files equally often. */
  lemma {:induction false} TraversalsAgree(t: Tree)
    ensures multiset(Post(t)) == multiset(Pre(t))
    decreases t, 1
  {
    TraversalsAgreeAll(t.children);
    assert Post(t) == PostAll(t.children) + [t.file] && Pre(t) == [t.file] + PreAll(t.children);
  }

  lemma {:induction false} TraversalsAgreeAll(ts: seq<Tree>)
    ensures multiset(PostAll(ts)) == multiset(PreAll(ts))
    decreases ts, 0
  {
    if ts != [] {
      TraversalsAgreeAll(ts[..|ts| - 1]);
      TraversalsAgree(ts[|ts| - 1]);
    }
  }

  lemma {:induction false} FlatAppend(a: seq<Item>, b: seq<Item>)
    ensures Flat(a + b) == Flat(a) + Flat(b)
    decreases |b|
  {
    if b == [] {
      assert a + b == a;
    } else {
      assert (a + b)[..|a + b| - 1] == a + b[..|b| - 1];
      FlatAppend(a, b[..|b| - 1]);
    }
  }

  function FlatAll(parts: seq<seq<Item>>): seq<Task> {
    if parts == [] then [] else FlatAll(parts[..|parts| - 1]) + Flat(parts[|parts| - 1])
  }

  function Parts(fs: seq<File>, field: File -> seq<Item>): seq<seq<Item>> {
    seq(|fs|, i requires 0 <= i < |fs| => field(fs[i]))
  }

  /** Flattening the merged entries is flattening each file's entries, one file after the other. */
  lemma {:induction false} FlattenAfterMerge(fs: seq<File>, field: File -> seq<Item>)
    ensures Flat(Concat(fs, field)) == FlatAll(Parts(fs, field))
    decreases |fs|
  {
    if fs != [] {
      var init := fs[..|fs| - 1];
      FlattenAfterMerge(init, field);
      FlatAppend(Concat(init, field), field(fs[|fs| - 1]));
      assert Parts(fs, field)[..|fs| - 1] == Parts(init, field);
    }
  }

  // ---------------------------------------------------------------------------------------
  // Links
  // ---------------------------------------------------------------------------------------

  /**
   An import whose path can be made absolute and read continues the chain exactly when that path is not on it
   yet: then the chain grows by it and is still free of repetitions, and otherwise the circle is reported.
   */
  lemma LinkExtendsChain(d: Disk, n: Node, imp: string, abs: string)
    requires NoRepeats(n.stack)
    requires
      var path := d.join(if TrimSpace(n.base) == "" then "." else TrimSpace(n.base), TrimSpace(imp));
      d.abs(path) == Ok(abs) && d.read(path).Ok?
    ensures Child(d, n, imp).Ok? <==> NoRepeats(n.stack + [abs])
    ensures Child(d, n, imp).Ok? ==> Child(d, n, imp).value.stack == n.stack + [abs]
    ensures Child(d, n, imp).Bad? ==> Child(d, n, imp).error == Circular(abs) && abs in n.stack
  {
    var all := n.stack + [abs];
    if i :| 0 <= i < |n.stack| && n.stack[i] == abs {
      assert all[i] == all[|n.stack|];
    }
  }

  // ---------------------------------------------------------------------------------------
  // From a file to its units
  // ---------------------------------------------------------------------------------------

  ghost predicate AllWellShaped(items: seq<Item>) {
    forall p :: 0 <= p < |items| ==> WellShaped(items[p])
  }

  lemma {:induction false} DecodeAllShaped(entries: seq<Entry>)
    requires DecodeAll(entries).Ok?
    ensures AllWellShaped(DecodeAll(entries).value)
  {
    if entries != [] {
      DecodedIsShaped(entries[0]);
      DecodeAllShaped(entries[1..]);
    }
  }

  lemma DecodedFileShaped(d: Disk, data: string)
    requires Decoded(d, data).Ok?
    ensures AllWellShaped(Decoded(d, data).value.steps) && AllWellShaped(Decoded(d, data).value.fin)
  {
    DecodeAllShaped(d.decode(data).value.steps);
    DecodeAllShaped(d.decode(data).value.fin);
  }

  ghost predicate FilesShaped(fs: seq<File>) {
    forall i :: 0 <= i < |fs| ==> AllWellShaped(fs[i].steps) && AllWellShaped(fs[i].fin)
  }

  /** Every file of an unfolded tree has met the shape rules. */
  lemma {:induction false} TreeShaped(d: Disk, n: Node)
    requires Unfold(d, n).Ok?
    ensures FilesShaped(Post(Unfold(d, n).value))
    decreases MAX_DEPTH + 1 - |n.stack|, 1, 0
  {
    DecodedFileShaped(d, n.data);
    var f := Decoded(d, n.data).value;
    if f.imports != [] {
      TreesShaped(d, n, f.imports);
    }
  }

  lemma {:induction false} TreesShaped(d: Disk, n: Node, imports: seq<string>)
    requires |n.stack| <= MAX_DEPTH && UnfoldAll(d, n, imports).Ok?
    ensures FilesShaped(PostAll(UnfoldAll(d, n, imports).value))
    decreases MAX_DEPTH + 1 - |n.stack|, 0, |imports|
  {
    if imports != [] {
      TreesShaped(d, n, imports[1..]);
      if !Skipped(imports[0]) {
        TreeShaped(d, Child(d, n, imports[0]).value);
        PostAllFirst(UnfoldOne(d, n, imports[0]).value, UnfoldAll(d, n, imports[1..]).value);
      }
    }
  }

  lemma {:induction false} PostAllFirst(t: Tree, ts: seq<Tree>)
    ensures PostAll([t] + ts) == Post(t) + PostAll(ts)
    decreases |ts|
  {
    if ts == [] {
      assert [t] + ts == [t] && [t][..0] == [];
    } else {
      var init, last := ts[..|ts| - 1], ts[|ts| - 1];
      PostAllFirst(t, init);
      AllSnoc([t] + init, last);
      assert [t] + init + [last] == [t] + ts;
      assert Post(t) + PostAll(init) + Post(last) == Post(t) + (PostAll(init) + Post(last));
    }
  }

  lemma {:induction false} ConcatShaped(fs: seq<File>)
    requires FilesShaped(fs)
    ensures AllWellShaped(Concat(fs, Steps))
    decreases |fs|
  {
    if fs != [] {
      ConcatShaped(fs[..|fs| - 1]);
      assert AllWellShaped(fs[|fs| - 1].steps);
    }
  }

  lemma {:induction false} FlattenedHasNoEmpty(items: seq<Item>, p: nat)
    requires FlatError(items).None? && p < |items|
    ensures !items[p].EmptyItem?
  {
    if p > 0 { FlattenedHasNoEmpty(items[1..], p - 1); }
  }

  /**
   From a file on disk to its run: when resolution and flattening succeed, the batches of the resulting
   workflow are exactly the maximal runs of adjacent groups in the merged entries, across file borders too,
   and its barriers exactly the plain steps.
   */
  lemma FileToUnits(d: Disk, data: string, base: string, u: Unit)
    requires Unfold(d, Node(data, base, [])).Ok?
    requires FlatError(Concat(Post(Unfold(d, Node(data, base, [])).value), Steps)).None?
    ensures
      var items := Concat(Post(Unfold(d, Node(data, base, [])).value), Steps);
      && (u in Units(Flat(items), 0) && IsBatch(Flat(items), u) <==>
          exists p, q :: GroupRun(items, p, q) && u == Unit(Offset(items, p), Offset(items, q)))
      && (u in Units(Flat(items), 0) && IsBarrier(Flat(items), u) <==>
          exists p :: PlainAt(items, p) && u == Unit(Offset(items, p), Offset(items, p) + 1))
  {
    var items := MergedItemsShaped(d, Node(data, base, []));
    UnitsMirrorEntries(items, u);
  }

  lemma MergedItemsShaped(d: Disk, n: Node) returns (items: seq<Item>)
    requires Unfold(d, n).Ok? && FlatError(Concat(Post(Unfold(d, n).value), Steps)).None?
    ensures items == Concat(Post(Unfold(d, n).value), Steps) && AllShaped(items)
  {
    items := Concat(Post(Unfold(d, n).value), Steps);
    TreeShaped(d, n);
    ConcatShaped(Post(Unfold(d, n).value));
    forall p | 0 <= p < |items| ensures !items[p].EmptyItem? && WellShaped(items[p]) { FlattenedHasNoEmpty(items, p); }
  }

  // ---------------------------------------------------------------------------------------
  // Where imports are looked up
  // ---------------------------------------------------------------------------------------

  /**
   `imp` in `n` leads to `next`: the text at the path that joins `n`'s directory and `imp`, whose own imports
   start from that path's directory, on a chain that is longer by that path and did not have it.
   */
  predicate LinksTo(d: Disk, n: Node, imp: string, next: Node) {
    var path := d.join(StartDir(n), TrimSpace(imp));
    && d.abs(path).Ok? && d.abs(path).value !in n.stack && d.read(path) == Ok(next.data)
    && next.base == d.dir(path) && next.stack == n.stack + [d.abs(path).value]
  }

  lemma ChildIff(d: Disk, n: Node, imp: string, next: Node)
    ensures Child(d, n, imp) == Ok(next) <==> LinksTo(d, n, imp, next)
  {
  }

  /** Every file at the end of a chain was read next to its importer, and looks for its own imports next to itself. */
  lemma {:induction false} ChainLinks(d: Disk, n: Node, imps: seq<string>)
    requires IsChain(d, n, imps) && imps != []
    ensures
      var init, last := imps[..|imps| - 1], imps[|imps| - 1];
      && IsChain(d, n, init) && Names(d, End(d, n, init), last)
      && LinksTo(d, End(d, n, init), last, End(d, n, imps))
    decreases |imps|
  {
    var next := Child(d, n, imps[0]).value;
    ChildIff(d, n, imps[0], next);
    if |imps| == 1 {
      assert imps[..0] == [] && imps[1..] == [];
    } else {
      ChainLinks(d, next, imps[1..]);
      assert imps[..|imps| - 1][1..] == imps[1..][..|imps| - 2];
    }
  }

  // ---------------------------------------------------------------------------------------
  // The tree itself
  // ---------------------------------------------------------------------------------------

  /** The imports of a file that are not blank, in order. */
  function Wanted(imports: seq<string>): seq<string> {
    if imports == [] then []
    else (if TrimSpace(imports[0]) == "" then [] else [imports[0]]) + Wanted(imports[1..])
  }

  /** `t` is the tree of `n`: its file, and for each import in order the tree of the file that it links to. */
  ghost predicate TreeOf(d: Disk, n: Node, t: Tree)
    decreases t, 1
  {
    Decoded(d, n.data) == Ok(t.file) && TreesOf(d, n, Wanted(t.file.imports), t.children)
  }

  ghost predicate TreesOf(d: Disk, n: Node, imps: seq<string>, ts: seq<Tree>)
    decreases ts, 0
  {
    |ts| == |imps| && forall i :: 0 <= i < |ts| ==> LinkedTree(d, n, imps[i], ts[i])
  }

  ghost predicate LinkedTree(d: Disk, n: Node, imp: string, t: Tree)
    decreases t, 2
  {
    exists next :: LinksTo(d, n, imp, next) && TreeOf(d, next, t)
  }

  /** What a file unfolds to is its import tree. */
  lemma {:induction false} UnfoldsToTree(d: Disk, n: Node)
    requires Unfold(d, n).Ok?
    ensures TreeOf(d, n, Unfold(d, n).value)
    decreases MAX_DEPTH + 1 - |n.stack|, 1, 0
  {
    var f := Decoded(d, n.data).value;
    if f.imports != [] { UnfoldsToTrees(d, n, f.imports); }
  }

  lemma {:induction false} UnfoldsToTrees(d: Disk, n: Node, imports: seq<string>)
    requires |n.stack| <= MAX_DEPTH && UnfoldAll(d, n, imports).Ok?
    ensures TreesOf(d, n, Wanted(imports), UnfoldAll(d, n, imports).value)
    decreases MAX_DEPTH + 1 - |n.stack|, 0, |imports|
  {
    if imports != [] {
      UnfoldsToTrees(d, n, imports[1..]);
      if TrimSpace(imports[0]) != "" {
        var next := Child(d, n, imports[0]).value;
        ChildIff(d, n, imports[0], next);
        UnfoldsToTree(d, next);
        assert LinkedTree(d, n, imports[0], Unfold(d, next).value);
      }
    }
  }

  // ---------------------------------------------------------------------------------------
  // Decoded files
  // ---------------------------------------------------------------------------------------

  /** Decoding keeps every entry in place, and fails exactly when one of them does. */
  lemma {:induction false} DecodesEachEntry(entries: seq<Entry>)
    ensures DecodeAll(entries).Ok? <==> forall i :: 0 <= i < |entries| ==> DecodeEntry(entries[i]).Ok?
    ensures DecodeAll(entries).Ok? ==>
      && |DecodeAll(entries).value| == |entries|
      && forall i :: 0 <= i < |entries| ==> DecodeEntry(entries[i]) == Ok(DecodeAll(entries).value[i])
  {
    if entries != [] {
      DecodesEachEntry(entries[1..]);
      assert forall i :: 0 < i < |entries| ==> entries[i] == entries[1..][i - 1];
    }
  }

  /** A file's steps are its decoded entries under steps:, its finally steps those under finally:. */
  lemma DecodedFile(d: Disk, data: string, f: File)
    requires Decoded(d, data) == Ok(f)
    ensures d.decode(data).Ok?
    ensures
      var raw := d.decode(data).value;
      && |f.steps| == |raw.steps| && |f.fin| == |raw.fin|
      && (forall i :: 0 <= i < |raw.steps| ==> DecodeEntry(raw.steps[i]) == Ok(f.steps[i]))
      && (forall i :: 0 <= i < |raw.fin| ==> DecodeEntry(raw.fin[i]) == Ok(f.fin[i]))
      && f.imports == raw.rest.imports && f.vars == raw.rest.vars && f.inputs == raw.rest.inputs
  {
    DecodesEachEntry(d.decode(data).value.steps);
    DecodesEachEntry(d.decode(data).value.fin);
  }
}
