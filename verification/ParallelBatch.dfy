/** A parallel batch: workers on cloned environments, then the merge in declaration order (run_steps_parallel.go). */
module ParallelBatch {
  import opened Outcomes
  import opened Sequences
  import opened StepPaths
  import opened StepEnv

  /** Why a worker failed: an exit code, or an error with a message. */
  datatype Failure = ExitCode(code: int) | Message(text: string)

  datatype Verdict = Passed | Failed(failure: Failure)

  /** A worker's own environments, and its verdict once it has returned. */
  datatype Local = Local(env: Env, docker: Env, verdict: Option<Verdict>)

  /** What a worker does next, given its own state and its own outputs file. */
  datatype Act = Compute(env: Env, docker: Env) | Write(content: Outputs) | Erase | Return(verdict: Verdict)

  /** `own[i]` is the file that task `i` was told to write; `next` is what the tasks' programs do. */
  datatype Batch = Batch(own: seq<FilePath>, next: (nat, Local, Option<Outputs>) -> Act)

  /** `err` is the first failure that reached the shared variable. */
  datatype World = World(files: Files, locals: seq<Local>, err: Option<(nat, Failure)>)

  function Lookup(files: Files, path: FilePath): Option<Outputs> {
    if path in files then Some(files[path]) else None
  }

  function WithFile(files: Files, path: FilePath, content: Option<Outputs>): Files {
    if content.Some? then files[path := content.value] else files - {path}
  }

  /** One action on a worker's own state; a worker that has returned does nothing. */
  function Perform(b: Batch, i: nat, local: Local, file: Option<Outputs>): (Local, Option<Outputs>) {
    if local.verdict.Some? then (local, file)
    else
      match b.next(i, local, file)
      case Compute(env, docker) => (Local(env, docker, None), file)
      case Write(content) => (local, Some(content))
      case Erase => (local, None)
      case Return(v) => (local.(verdict := Some(v)), file)
  }

  /** The first failure stays. */
  function FirstError(err: Option<(nat, Failure)>, i: nat, before: Local, after: Local): Option<(nat, Failure)> {
    if err.None? && before.verdict.None? && after.verdict.Some? && after.verdict.value.Failed?
    then Some((i, after.verdict.value.failure))
    else err
  }

  function Step(b: Batch, w: World, i: nat): World
    requires |w.locals| == |b.own|
  {
    if i >= |b.own| then w
    else
      var (local, file) := Perform(b, i, w.locals[i], Lookup(w.files, b.own[i]));
      World(WithFile(w.files, b.own[i], file), w.locals[i := local], FirstError(w.err, i, w.locals[i], local))
  }

  /** Every worker starts from a clone of the shared environments. */
  function Start(b: Batch, s: Shared): World {
    World(s.files, seq(|b.own|, i => Local(s.env, s.docker, None)), None)
  }

  /** The world after the workers acted in the order `schedule`. */
  function Run(b: Batch, w: World, schedule: seq<nat>): (w': World)
    requires |w.locals| == |b.own|
    ensures |w'.locals| == |b.own|
    decreases |schedule|
  {
    if schedule == [] then w else Step(b, Run(b, w, schedule[..|schedule| - 1]), schedule[|schedule| - 1])
  }

  predicate Complete(w: World) {
    forall i :: 0 <= i < |w.locals| ==> w.locals[i].verdict.Some?
  }

  /** The end of the batch once every worker has returned. */
  function Finish(c: Config, s: Shared, w: World, outs: seq<string>, locked: set<string>): Result<Shared, Failure> {
    if w.err.Some? then Bad(w.err.value.1) else Ok(Merged(c, s.(files := w.files), outs, locked))
  }

  // ---------------------------------------------------------------------------------------
  // A worker on its own
  // ---------------------------------------------------------------------------------------

  /** Worker `i` after `n` of its actions, with nobody else around. */
  function Solo(b: Batch, s: Shared, i: nat, n: nat): (Local, Option<Outputs>)
    requires i < |b.own|
  {
    if n == 0 then (Local(s.env, s.docker, None), Lookup(s.files, b.own[i]))
    else
      var (local, file) := Solo(b, s, i, n - 1);
      Perform(b, i, local, file)
  }

  function Turns(schedule: seq<nat>, i: nat): nat {
    if schedule == [] then 0
    else Turns(schedule[..|schedule| - 1], i) + if schedule[|schedule| - 1] == i then 1 else 0
  }

  /** In any interleaving a worker is where it would be alone after as many turns. */
  lemma {:induction false} RunIsSolo(b: Batch, s: Shared, schedule: seq<nat>, i: nat)
    requires NoRepeats(b.own) && i < |b.own|
    ensures
      var w := Run(b, Start(b, s), schedule);
      (w.locals[i], Lookup(w.files, b.own[i])) == Solo(b, s, i, Turns(schedule, i))
    decreases |schedule|
  {
    if schedule != [] {
      var init, j := schedule[..|schedule| - 1], schedule[|schedule| - 1];
      RunIsSolo(b, s, init, i);
      StepElsewhere(b, Run(b, Start(b, s), init), i, j);
    }
  }

  lemma StepElsewhere(b: Batch, w: World, i: nat, j: nat)
    requires NoRepeats(b.own) && i < |b.own| == |w.locals|
    ensures
      var w' := Step(b, w, j);
      (w'.locals[i], Lookup(w'.files, b.own[i])) ==
      if i == j then Perform(b, i, w.locals[i], Lookup(w.files, b.own[i])) else (w.locals[i], Lookup(w.files, b.own[i]))
  {
  }

  lemma {:induction false} OtherFilesStay(b: Batch, s: Shared, schedule: seq<nat>, path: FilePath)
    requires path !in b.own
    ensures Lookup(Run(b, Start(b, s), schedule).files, path) == Lookup(s.files, path)
    decreases |schedule|
  {
    if schedule != [] {
      OtherFilesStay(b, s, schedule[..|schedule| - 1], path);
    }
  }

  /** A worker that has returned stays as it is. */
  lemma {:induction false} SoloStays(b: Batch, s: Shared, i: nat, n: nat, m: nat)
    requires i < |b.own| && n <= m && Solo(b, s, i, n).0.verdict.Some?
    ensures Solo(b, s, i, m) == Solo(b, s, i, n)
    decreases m
  {
    if n < m {
      SoloStays(b, s, i, n, m - 1);
    }
  }

  lemma SoloEnds(b: Batch, s: Shared, i: nat, n: nat, m: nat)
    requires i < |b.own| && Solo(b, s, i, n).0.verdict.Some? && Solo(b, s, i, m).0.verdict.Some?
    ensures Solo(b, s, i, n) == Solo(b, s, i, m)
  {
    if n <= m { SoloStays(b, s, i, n, m); } else { SoloStays(b, s, i, m, n); }
  }

  // ---------------------------------------------------------------------------------------
  // What one action does to the world
  // ---------------------------------------------------------------------------------------

  /** `w'` is `w` but for the state and the file of worker `i`. */
  ghost predicate OnlyOwn(b: Batch, w: World, w': World, i: nat)
    requires i < |b.own| == |w.locals| == |w'.locals|
  {
    && (forall j :: 0 <= j < |w.locals| && j != i ==> w'.locals[j] == w.locals[j])
    && (forall path: FilePath :: path != b.own[i] ==> Lookup(w'.files, path) == Lookup(w.files, path))
  }

  /** An action changes nothing but its own worker's environments, verdict or file, as the program of the task says. */
  lemma ActTouchesOwn(b: Batch, w: World, i: nat)
    requires i < |b.own| == |w.locals| && w.locals[i].verdict.None?
    ensures
      var w', file := Step(b, w, i), Lookup(w.files, b.own[i]);
      && OnlyOwn(b, w, w', i)
      && match b.next(i, w.locals[i], file) {
           case Compute(env, docker) => w'.locals[i] == Local(env, docker, None) && w'.files == w.files && w'.err == w.err
           case Write(content) => w'.locals == w.locals && b.own[i] in w'.files && w'.files[b.own[i]] == content && w'.err == w.err
           case Erase => w'.locals == w.locals && b.own[i] !in w'.files && w'.err == w.err
           case Return(v) =>
             && w'.locals[i] == Local(w.locals[i].env, w.locals[i].docker, Some(v)) && w'.files == w.files
             && (v.Passed? || w.err.Some? ==> w'.err == w.err)
             && (v.Failed? && w.err.None? ==> w'.err == Some((i, v.failure)))
         }
  {
    assert w.locals[i := w.locals[i]] == w.locals;
    if b.own[i] in w.files { assert w.files[b.own[i] := w.files[b.own[i]]] == w.files; } else { assert w.files - {b.own[i]} == w.files; }
  }

  /** Each worker starts from the shared environments, and with every file as it was. */
  lemma StartsFromShared(b: Batch, s: Shared, i: nat)
    requires i < |b.own|
    ensures
      var w := Start(b, s);
      && |w.locals| == |b.own| && w.locals[i].env == s.env && w.locals[i].docker == s.docker && w.locals[i].verdict.None?
      && w.files == s.files && w.err.None?
  {
  }

  // ---------------------------------------------------------------------------------------
  // Confluence of the workers
  // ---------------------------------------------------------------------------------------

  /** Every interleaving that lets all workers return ends in the same files and the same local states. */
  lemma WorkersConfluent(b: Batch, s: Shared, x: seq<nat>, y: seq<nat>)
    requires NoRepeats(b.own) && Complete(Run(b, Start(b, s), x)) && Complete(Run(b, Start(b, s), y))
    ensures Run(b, Start(b, s), x).locals == Run(b, Start(b, s), y).locals
    ensures Run(b, Start(b, s), x).files == Run(b, Start(b, s), y).files
  {
    var v, w := Run(b, Start(b, s), x), Run(b, Start(b, s), y);
    forall i | 0 <= i < |b.own| ensures v.locals[i] == w.locals[i] && Lookup(v.files, b.own[i]) == Lookup(w.files, b.own[i]) {
      RunIsSolo(b, s, x, i);
      RunIsSolo(b, s, y, i);
      SoloEnds(b, s, i, Turns(x, i), Turns(y, i));
    }
    forall path: FilePath ensures Lookup(v.files, path) == Lookup(w.files, path) {
      if path !in b.own {
        OtherFilesStay(b, s, x, path);
        OtherFilesStay(b, s, y, path);
      }
    }
    LookupDecides(v.files, w.files);
  }

  lemma LookupDecides(f: Files, g: Files)
    requires forall path: FilePath :: Lookup(f, path) == Lookup(g, path)
    ensures f == g
  {
    assert forall path :: path in f <==> Lookup(f, path).Some?;
    assert forall path :: path in g <==> Lookup(g, path).Some?;
    assert forall path :: path in f ==> f[path] == Lookup(f, path).value;
    assert forall path :: path in g ==> g[path] == Lookup(g, path).value;
  }

  /** Giving every worker at least as many turns as in a complete interleaving completes it too. */
  lemma EnoughTurnsComplete(b: Batch, s: Shared, x: seq<nat>, y: seq<nat>)
    requires NoRepeats(b.own) && Complete(Run(b, Start(b, s), x))
    requires forall i :: 0 <= i < |b.own| ==> Turns(x, i) <= Turns(y, i)
    ensures Complete(Run(b, Start(b, s), y))
  {
    forall i | 0 <= i < |b.own| ensures Run(b, Start(b, s), y).locals[i].verdict.Some? {
      RunIsSolo(b, s, x, i);
      RunIsSolo(b, s, y, i);
      SoloStays(b, s, i, Turns(x, i), Turns(y, i));
    }
  }

  // ---------------------------------------------------------------------------------------
  // The error of the batch
  // ---------------------------------------------------------------------------------------

  ghost predicate FailedAs(w: World, i: nat, f: Failure) {
    i < |w.locals| && w.locals[i].verdict == Some(Failed(f))
  }

  /** The shared error is set exactly when some worker has failed, and then it is one of their failures. */
  ghost predicate ErrorOk(w: World) {
    && (w.err.Some? ==> FailedAs(w, w.err.value.0, w.err.value.1))
    && (w.err.None? ==> forall i, f :: !FailedAs(w, i, f))
  }

  lemma {:induction false} ErrorIsAFailure(b: Batch, s: Shared, schedule: seq<nat>)
    ensures ErrorOk(Run(b, Start(b, s), schedule))
    decreases |schedule|
  {
    if schedule != [] {
      var init, j := schedule[..|schedule| - 1], schedule[|schedule| - 1];
      ErrorIsAFailure(b, s, init);
      ErrorStep(b, Run(b, Start(b, s), init), j);
    }
  }

  lemma ErrorStep(b: Batch, w: World, j: nat)
    requires ErrorOk(w) && |w.locals| == |b.own|
    ensures ErrorOk(Step(b, w, j))
  {
    var w' := Step(b, w, j);
    if w'.err.None? {
      forall i: nat, f ensures !FailedAs(w', i, f) {
        assert !FailedAs(w, i, f);
      }
    } else if w.err.Some? {
      assert FailedAs(w', w.err.value.0, w.err.value.1);
    }
  }

  /** The error of the batch is the failure that came first: at some moment nobody had failed, and the next action was that failure. */
  lemma {:induction false} FirstFailureStays(b: Batch, s: Shared, schedule: seq<nat>) returns (n: nat)
    requires Run(b, Start(b, s), schedule).err.Some?
    ensures
      var (i, f) := Run(b, Start(b, s), schedule).err.value;
      && n < |schedule| && schedule[n] == i
      && (forall j, g :: !FailedAs(Run(b, Start(b, s), schedule[..n]), j, g))
      && FailedAs(Run(b, Start(b, s), schedule[..n + 1]), i, f)
    decreases |schedule|
  {
    var init := schedule[..|schedule| - 1];
    var before := Run(b, Start(b, s), init);
    if before.err.Some? {
      n := FirstFailureStays(b, s, init);
      assert init[..n] == schedule[..n] && init[..n + 1] == schedule[..n + 1];
    } else {
      n := |schedule| - 1;
      ErrorIsAFailure(b, s, init);
      ErrorIsAFailure(b, s, schedule);
      assert schedule[..n] == init && schedule[..n + 1] == schedule;
    }
  }

  // ---------------------------------------------------------------------------------------
  // Confluence of the batch
  // ---------------------------------------------------------------------------------------

  /**
   Any two interleavings of a batch agree: both fail, or both succeed with the same shared state. A failure
   is always that of some worker, and it leaves no merge behind.
   */
  lemma BatchConfluent(c: Config, b: Batch, s: Shared, outs: seq<string>, locked: set<string>, x: seq<nat>, y: seq<nat>)
    requires NoRepeats(b.own) && Complete(Run(b, Start(b, s), x)) && Complete(Run(b, Start(b, s), y))
    ensures
      var v, w := Run(b, Start(b, s), x), Run(b, Start(b, s), y);
      var p, q := Finish(c, s, v, outs, locked), Finish(c, s, w, outs, locked);
      && (p.Ok? <==> q.Ok?) && (p.Ok? ==> p == q)
      && (p.Ok? <==> forall i, f :: !FailedAs(v, i, f))
      && (p.Bad? ==> exists i :: FailedAs(w, i, p.error))
  {
    var v, w := Run(b, Start(b, s), x), Run(b, Start(b, s), y);
    WorkersConfluent(b, s, x, y);
    ErrorIsAFailure(b, s, x);
    ErrorIsAFailure(b, s, y);
    if v.err.Some? {
      assert FailedAs(w, v.err.value.0, v.err.value.1);
    }
    if w.err.Some? {
      assert FailedAs(v, w.err.value.0, w.err.value.1);
    }
  }
}
