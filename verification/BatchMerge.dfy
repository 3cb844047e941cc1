/** What a successful batch leaves behind: the merge, the fold of the solo runs, and where the two part. */
module BatchMerge {
  import opened Outcomes
  import opened Text
  import opened Sequences
  import opened StepPaths
  import opened StepEnv
  import opened StepRoots
  import opened ParallelBatch

  // ---------------------------------------------------------------------------------------
  // The fold
  // ---------------------------------------------------------------------------------------

  /** The environment with the outputs laid over it in declaration order. */
  function Fold(env: Env, ms: seq<Env>, locked: set<string>): Env
    decreases |ms|
  {
    if ms == [] then env
    else
      var before := Fold(env, ms[..|ms| - 1], locked);
      Overlay(before, before, ms[|ms| - 1], locked)
  }

  /** The docker environment beside it: what the merge takes over is decided by the step environment. */
  function FoldDocker(docker: Env, env: Env, ms: seq<Env>, locked: set<string>): Env
    decreases |ms|
  {
    if ms == [] then docker
    else
      var init := ms[..|ms| - 1];
      Overlay(FoldDocker(docker, env, init, locked), Fold(env, init, locked), ms[|ms| - 1], locked)
  }

  lemma {:induction false} FoldFirst(env: Env, ms: seq<Env>, locked: set<string>)
    requires ms != []
    ensures Fold(env, ms, locked) == Fold(Overlay(env, env, ms[0], locked), ms[1..], locked)
    decreases |ms|
  {
    var init := ms[..|ms| - 1];
    if |ms| == 1 {
      assert ms[1..] == [] && init == [];
    } else {
      FoldFirst(env, init, locked);
      assert init[1..] == ms[1..][..|ms| - 2];
    }
  }

  lemma {:induction false} FoldDockerFirst(docker: Env, env: Env, ms: seq<Env>, locked: set<string>)
    requires ms != []
    ensures FoldDocker(docker, env, ms, locked) ==
            FoldDocker(Overlay(docker, env, ms[0], locked), Overlay(env, env, ms[0], locked), ms[1..], locked)
    decreases |ms|
  {
    var init := ms[..|ms| - 1];
    if |ms| == 1 {
      assert ms[1..] == [] && init == [];
    } else {
      FoldFirst(env, init, locked);
      FoldDockerFirst(docker, env, init, locked);
      assert init[1..] == ms[1..][..|ms| - 2];
    }
  }

  /** In the fold, a key takes the value of the last task that sets it, unless it is locked or a blank would wipe a secret. */
  lemma {:induction false} LastTaskWins(env: Env, ms: seq<Env>, locked: set<string>, i: nat, k: string)
    requires i < |ms| && k in ms[i] && k !in locked && (IsSecretKey(k) ==> !Blank(ms[i][k]))
    requires forall j :: i < j < |ms| ==> k !in ms[j] || (IsSecretKey(k) && !Blank(ms[i][k]) && Blank(ms[j][k]))
    ensures k in Fold(env, ms, locked) && Fold(env, ms, locked)[k] == ms[i][k]
    decreases |ms|
  {
    if i < |ms| - 1 {
      LastTaskWins(env, ms[..|ms| - 1], locked, i, k);
    }
  }

  /** So it does in the docker environment. */
  lemma {:induction false} LastTaskWinsInDocker(docker: Env, env: Env, ms: seq<Env>, locked: set<string>, i: nat, k: string)
    requires i < |ms| && k in ms[i] && k !in locked && (IsSecretKey(k) ==> !Blank(ms[i][k]))
    requires forall j :: i < j < |ms| ==> k !in ms[j] || (IsSecretKey(k) && !Blank(ms[i][k]) && Blank(ms[j][k]))
    ensures k in FoldDocker(docker, env, ms, locked) && FoldDocker(docker, env, ms, locked)[k] == ms[i][k]
    decreases |ms|
  {
    if i < |ms| - 1 {
      LastTaskWins(env, ms[..|ms| - 1], locked, i, k);
      LastTaskWinsInDocker(docker, env, ms[..|ms| - 1], locked, i, k);
    }
  }

  /** A blank is taken over too, for a secret as well, as long as nothing was there to be wiped. */
  lemma {:induction false} BlankTakenWhereNothingWas(docker: Env, env: Env, ms: seq<Env>, locked: set<string>, i: nat, k: string)
    requires i < |ms| && k in ms[i] && k !in locked && Blank(Get(env, k))
    requires forall j :: 0 <= j <= i && k in ms[j] ==> Blank(ms[j][k])
    requires forall j :: i < j < |ms| ==> k !in ms[j]
    ensures k in Fold(env, ms, locked) && Fold(env, ms, locked)[k] == ms[i][k]
    ensures k in FoldDocker(docker, env, ms, locked) && FoldDocker(docker, env, ms, locked)[k] == ms[i][k]
    decreases |ms|
  {
    var init := ms[..|ms| - 1];
    if i < |ms| - 1 {
      BlankTakenWhereNothingWas(docker, env, init, locked, i, k);
    } else {
      BlankStays(env, init, locked, k);
    }
  }

  lemma {:induction false} BlankStays(env: Env, ms: seq<Env>, locked: set<string>, k: string)
    requires Blank(Get(env, k)) && forall j :: 0 <= j < |ms| && k in ms[j] ==> Blank(ms[j][k])
    ensures Blank(Get(Fold(env, ms, locked), k))
    decreases |ms|
  {
    if ms != [] { BlankStays(env, ms[..|ms| - 1], locked, k); }
  }

  predicate SameAt(a: Env, b: Env, k: string) {
    (k in a <==> k in b) && (k in a ==> a[k] == b[k])
  }

  /** A key that is locked, or that no task sets except to a blank where a secret has a value, stays as it was in both environments. */
  lemma {:induction false} UntouchedKeyStays(docker: Env, env: Env, ms: seq<Env>, locked: set<string>, k: string)
    requires k in locked || forall j :: 0 <= j < |ms| ==> k !in ms[j] || WipesSecret(env, k, ms[j][k])
    ensures SameAt(Fold(env, ms, locked), env, k) && SameAt(FoldDocker(docker, env, ms, locked), docker, k)
    decreases |ms|
  {
    if ms != [] {
      UntouchedKeyStays(docker, env, ms[..|ms| - 1], locked, k);
    }
  }

  // ---------------------------------------------------------------------------------------
  // The merge
  // ---------------------------------------------------------------------------------------

  function ConsumedAll(files: Files, own: seq<FilePath>): seq<Env> {
    seq(|own|, i requires 0 <= i < |own| => Consumed(files, own[i]))
  }

  /**
   The merge finds `own[i]` when its turn comes: the place of each file is read from the environment as the
   lines `ms` of the files before it have left it.
   */
  ghost predicate MergesAlong(c: Config, env: Env, outs: seq<string>, own: seq<FilePath>, ms: seq<Env>, locked: set<string>) {
    && |own| == |outs| == |ms|
    && forall i :: 0 <= i < |outs| ==> FoundAt(c, env, outs, own, ms, locked, i)
  }

  predicate FoundAt(c: Config, env: Env, outs: seq<string>, own: seq<FilePath>, ms: seq<Env>, locked: set<string>, i: nat)
    requires i < |outs| == |own| == |ms|
  {
    OutputsFile(c, outs[i], Fold(env, ms[..i], locked)) == own[i]
  }

  lemma AlongRest(c: Config, env: Env, outs: seq<string>, own: seq<FilePath>, ms: seq<Env>, locked: set<string>)
    requires outs != [] && MergesAlong(c, env, outs, own, ms, locked)
    ensures OutputsFile(c, outs[0], env) == own[0]
    ensures MergesAlong(c, Overlay(env, env, ms[0], locked), outs[1..], own[1..], ms[1..], locked)
  {
    assert FoundAt(c, env, outs, own, ms, locked, 0) && ms[..0] == [];
    var env' := Overlay(env, env, ms[0], locked);
    forall i | 0 <= i < |outs| - 1 ensures FoundAt(c, env', outs[1..], own[1..], ms[1..], locked, i) {
      assert FoundAt(c, env, outs, own, ms, locked, i + 1);
      FoldFirst(env, ms[..i + 1], locked);
      assert ms[..i + 1][1..] == ms[1..][..i] && ms[..i + 1][0] == ms[0];
    }
  }

  lemma AppliedIsOverlay(s: Shared, path: FilePath, locked: set<string>)
    ensures
      var m := Consumed(s.files, path);
      && Applied(s, path, locked).env == Overlay(s.env, s.env, m, locked)
      && Applied(s, path, locked).docker == Overlay(s.docker, s.env, m, locked)
  {
  }

  lemma AppliedKeepsOthers(s: Shared, path: FilePath, locked: set<string>, other: FilePath)
    requires other != path
    ensures Consumed(Applied(s, path, locked).files, other) == Consumed(s.files, other)
  {
  }

  /** The merge, file by file, is the fold of what the files held at its start, in both environments. */
  lemma {:induction false} MergedIsFold(c: Config, s: Shared, outs: seq<string>, own: seq<FilePath>, locked: set<string>)
    requires NoRepeats(own) && MergesAlong(c, s.env, outs, own, ConsumedAll(s.files, own), locked)
    ensures Merged(c, s, outs, locked).env == Fold(s.env, ConsumedAll(s.files, own), locked)
    ensures Merged(c, s, outs, locked).docker == FoldDocker(s.docker, s.env, ConsumedAll(s.files, own), locked)
    decreases |outs|
  {
    if outs != [] {
      var ms := ConsumedAll(s.files, own);
      var s' := Applied(s, own[0], locked);
      AlongRest(c, s.env, outs, own, ms, locked);
      AppliedIsOverlay(s, own[0], locked);
      RestConsumed(s, own, locked);
      MergedIsFold(c, s', outs[1..], own[1..], locked);
      FoldFirst(s.env, ms, locked);
      FoldDockerFirst(s.docker, s.env, ms, locked);
    }
  }

  /** The merge removes exactly the files from which it took lines. */
  lemma {:induction false} MergedConsumes(c: Config, s: Shared, outs: seq<string>, own: seq<FilePath>, locked: set<string>, path: FilePath)
    requires NoRepeats(own) && MergesAlong(c, s.env, outs, own, ConsumedAll(s.files, own), locked)
    ensures
      var files := Merged(c, s, outs, locked).files;
      && (path in files <==> path in s.files && !(path in own && Consumed(s.files, path) != map[]))
      && (path in files ==> files[path] == s.files[path])
    decreases |outs|
  {
    if outs != [] {
      AlongRest(c, s.env, outs, own, ConsumedAll(s.files, own), locked);
      AppliedIsOverlay(s, own[0], locked);
      RestConsumed(s, own, locked);
      MergedConsumes(c, Applied(s, own[0], locked), outs[1..], own[1..], locked, path);
      OneConsumed(s, own, locked, path);
    }
  }

  lemma OneConsumed(s: Shared, own: seq<FilePath>, locked: set<string>, path: FilePath)
    requires own != [] && NoRepeats(own)
    ensures
      var s' := Applied(s, own[0], locked);
      && (path in s'.files <==> path in s.files && !(path == own[0] && Consumed(s.files, path) != map[]))
      && (path in s'.files ==> s'.files[path] == s.files[path])
      && (path in own[1..] ==> Consumed(s'.files, path) == Consumed(s.files, path) && path != own[0])
      && (path in own <==> path == own[0] || path in own[1..])
  {
    if path in own[1..] {
      var i :| 1 <= i < |own| && own[i] == path;
    }
    assert own == [own[0]] + own[1..];
  }

  lemma RestConsumed(s: Shared, own: seq<FilePath>, locked: set<string>)
    requires own != [] && NoRepeats(own)
    ensures ConsumedAll(Applied(s, own[0], locked).files, own[1..]) == ConsumedAll(s.files, own)[1..]
    ensures NoRepeats(own[1..])
  {
    forall i | 1 <= i < |own| ensures Consumed(Applied(s, own[0], locked).files, own[i]) == Consumed(s.files, own[i]) {
      AppliedKeepsOthers(s, own[0], locked, own[i]);
    }
  }

  // ---------------------------------------------------------------------------------------
  // The batch
  // ---------------------------------------------------------------------------------------

  /** The lines that worker `i`, run alone for long enough, leaves in its file. */
  function LinesOf(b: Batch, s: Shared, i: nat, n: nat): Env
    requires i < |b.own|
  {
    var file := Solo(b, s, i, n).1;
    if file.Some? && file.value.Lines? then file.value.vars else map[]
  }

  function LinesOfAll(b: Batch, s: Shared, turns: seq<nat>): seq<Env>
    requires |turns| == |b.own|
  {
    seq(|turns|, i requires 0 <= i < |turns| => LinesOf(b, s, i, turns[i]))
  }

  /** `turns[i]` actions are enough for worker `i`, alone, to return. */
  ghost predicate Settles(b: Batch, s: Shared, turns: seq<nat>) {
    && |turns| == |b.own|
    && forall i :: 0 <= i < |turns| ==> Solo(b, s, i, turns[i]).0.verdict.Some?
  }

  /** Both environments at the end of the batch are the fold of `ms`. */
  ghost predicate EndsInFold(
      c: Config, b: Batch, s: Shared, outs: seq<string>, locked: set<string>, schedule: seq<nat>, ms: seq<Env>)
  {
    var r := Finish(c, s, Run(b, Start(b, s), schedule), outs, locked);
    r.Ok? ==> r.value.env == Fold(s.env, ms, locked) && r.value.docker == FoldDocker(s.docker, s.env, ms, locked)
  }

  /**
   For every interleaving, whatever the tasks write: when the workers write distinct files and the merge finds
   each of them in its turn, success leaves the fold, in declaration order, of what each worker writes when it
   runs alone, in both environments.
   */
  lemma BatchIsFoldOfSoloRuns(
      c: Config, b: Batch, s: Shared, outs: seq<string>, locked: set<string>, schedule: seq<nat>, turns: seq<nat>)
    requires NoRepeats(b.own) && Complete(Run(b, Start(b, s), schedule)) && Settles(b, s, turns)
    requires MergesAlong(c, s.env, outs, b.own, LinesOfAll(b, s, turns), locked)
    ensures EndsInFold(c, b, s, outs, locked, schedule, LinesOfAll(b, s, turns))
  {
    var w := Run(b, Start(b, s), schedule);
    forall i | 0 <= i < |b.own| ensures Consumed(w.files, b.own[i]) == LinesOf(b, s, i, turns[i]) {
      RunIsSolo(b, s, schedule, i);
      SoloEnds(b, s, i, Turns(schedule, i), turns[i]);
    }
    assert ConsumedAll(w.files, b.own) == LinesOfAll(b, s, turns);
    MergedIsFold(c, s.(files := w.files), outs, b.own, locked);
  }

  /** The end of the batch on the shared objects: after a failure both environments are as they were. */
  method JoinBatch(c: Config, session: Session, w: World, outs: seq<string>) returns (err: Option<Failure>)
    modifies session
    ensures
      var was := old(session.State());
      match Finish(c, was, w, outs, session.locked)
      case Bad(e) => err == Some(e) && session.State() == was.(files := w.files)
      case Ok(end) => err.None? && session.State() == end
  {
    session.files := w.files;
    if w.err.Some? {
      return Some(w.err.value.1);
    }
    session.MergeOutputs(c, outs);
    err := None;
  }

  // ---------------------------------------------------------------------------------------
  // When the merge finds every file
  // ---------------------------------------------------------------------------------------

  ghost predicate MergesFrom(c: Config, env: Env, outs: seq<string>, own: seq<FilePath>) {
    |own| == |outs| && forall i :: 0 <= i < |outs| ==> OutputsFile(c, outs[i], env) == own[i]
  }

  /** By its turn, outputs path `p` leads from the base of the merge to where it led at the start. */
  predicate Unmoved(c: Config, env: Env, now: Env, p: string) {
    IsAbs(p) || SameAbove(Clean(OutputsBase(c, now)), Clean(OutputsBase(c, env)), Ups(Clean(p).parts))
  }

  /** When the merge would find every file at its start, it does find them all exactly when no file is moved by the lines before it. */
  lemma FoundIffUnmoved(c: Config, env: Env, outs: seq<string>, own: seq<FilePath>, ms: seq<Env>, locked: set<string>)
    requires MergesFrom(c, env, outs, own) && |ms| == |outs|
    ensures MergesAlong(c, env, outs, own, ms, locked) <==>
            forall i :: 0 <= i < |outs| ==> Unmoved(c, env, Fold(env, ms[..i], locked), OutputsPath(outs[i]))
  {
    forall i | 0 <= i < |outs|
      ensures FoundAt(c, env, outs, own, ms, locked, i) <==> Unmoved(c, env, Fold(env, ms[..i], locked), OutputsPath(outs[i]))
    {
      SameFileAcrossBases(OutputsBase(c, Fold(env, ms[..i], locked)), OutputsBase(c, env), OutputsPath(outs[i]));
    }
  }

  predicate NoRootIn(m: Env, locked: set<string>) {
    forall k :: k in PATH_KEYS ==> k !in m || k in locked
  }

  lemma {:induction false} FoldKeepsPlaces(env: Env, ms: seq<Env>, locked: set<string>)
    requires forall i :: 0 <= i < |ms| ==> NoRootIn(ms[i], locked)
    ensures SamePathKeys(env, Fold(env, ms, locked))
    decreases |ms|
  {
    if ms != [] {
      FoldKeepsPlaces(env, ms[..|ms| - 1], locked);
      assert NoRootIn(ms[|ms| - 1], locked);
    }
  }

  /** Lines that set no unlocked key that places files move nothing. */
  lemma UnmovedWithoutRoots(c: Config, env: Env, outs: seq<string>, own: seq<FilePath>, ms: seq<Env>, locked: set<string>)
    requires MergesFrom(c, env, outs, own) && |ms| == |outs| && forall i :: 0 <= i < |ms| ==> NoRootIn(ms[i], locked)
    ensures MergesAlong(c, env, outs, own, ms, locked)
  {
    forall i | 0 <= i < |outs| ensures FoundAt(c, env, outs, own, ms, locked, i) {
      FoldKeepsPlaces(env, ms[..i], locked);
      SameKeysSameFile(c, outs[i], env, Fold(env, ms[..i], locked));
    }
  }

  lemma {:induction false} FoldKeepsLocked(env: Env, ms: seq<Env>, locked: set<string>, k: string)
    requires k in locked
    ensures Get(Fold(env, ms, locked), k) == Get(env, k)
    decreases |ms|
  {
    if ms != [] { FoldKeepsLocked(env, ms[..|ms| - 1], locked, k); }
  }

  /** Neither do any lines at all, when --var has fixed the output root. */
  lemma UnmovedWhenLocked(c: Config, env: Env, outs: seq<string>, own: seq<FilePath>, ms: seq<Env>, locked: set<string>)
    requires MergesFrom(c, env, outs, own) && |ms| == |outs| && OUTPUT_ROOT in locked && !Blank(Get(env, OUTPUT_ROOT))
    ensures MergesAlong(c, env, outs, own, ms, locked)
  {
    forall i | 0 <= i < |outs| ensures FoundAt(c, env, outs, own, ms, locked, i) {
      FoldKeepsLocked(env, ms[..i], locked, OUTPUT_ROOT);
    }
  }

  // ---------------------------------------------------------------------------------------
  // Batches of any tasks
  // ---------------------------------------------------------------------------------------

  /** A task of a batch: where it writes, and the scopes and variables of its step. */
  datatype Task = Task(outputs: string, scopes: Scopes, extra: Env)

  function OutputsOf(tasks: seq<Task>): seq<string> {
    seq(|tasks|, i requires 0 <= i < |tasks| => tasks[i].outputs)
  }

  /** Each task is told to write the file that its own environment places. */
  ghost predicate ToldByStep(c: Config, env: Env, tasks: seq<Task>, locked: set<string>, own: seq<FilePath>) {
    && |own| == |tasks|
    && forall i :: 0 <= i < |tasks| ==>
         var worker := StepOverrides(c, env, tasks[i].scopes, tasks[i].extra, locked);
         worker.Some? && own[i] == OutputsFile(c, tasks[i].outputs, worker.value)
  }

  /** The directory task `t` starts from. */
  function RootOf(c: Config, env: Env, rooted: Env, locked: set<string>, t: Task): string {
    WorkerRoot(c, env, rooted, t.scopes, t.extra, locked)
  }

  /** When the environment is `now`, the merge reads what task `t` was told to write. */
  predicate Reached(c: Config, env: Env, rooted: Env, locked: set<string>, t: Task, now: Env) {
    || IsAbs(OutputsPath(t.outputs))
    || SameAbove(Clean(RootOf(c, env, rooted, locked, t)), Clean(OutputsBase(c, now)), Ups(Clean(OutputsPath(t.outputs)).parts))
  }

  predicate AllReached(c: Config, env: Env, rooted: Env, tasks: seq<Task>, locked: set<string>, ms: seq<Env>)
    requires |ms| == |tasks|
  {
    forall i :: 0 <= i < |tasks| ==> Reached(c, env, rooted, locked, tasks[i], Fold(env, ms[..i], locked))
  }

  /** The places the tasks were told to write, read off the clean forms of root and outputs path, differ pairwise. */
  predicate ToldApart(c: Config, env: Env, rooted: Env, tasks: seq<Task>, locked: set<string>) {
    forall i, j :: 0 <= i < j < |tasks| ==>
      Placed(Clean(RootOf(c, env, rooted, locked, tasks[i])), Clean(OutputsPath(tasks[i].outputs))) !=
      Placed(Clean(RootOf(c, env, rooted, locked, tasks[j])), Clean(OutputsPath(tasks[j].outputs)))
  }

  lemma ToldFile(c: Config, env: Env, rooted: Env, tasks: seq<Task>, locked: set<string>, own: seq<FilePath>, i: nat)
    requires Rooted(c, env) == Some(rooted) && ToldByStep(c, env, tasks, locked, own) && i < |tasks|
    ensures own[i] == FileBelow(RootOf(c, env, rooted, locked, tasks[i]), OutputsPath(tasks[i].outputs))
  {
    var t := tasks[i];
    WorkerBase(c, env, rooted, t.scopes, t.extra, locked, StepOverrides(c, env, t.scopes, t.extra, locked).value);
  }

  /** For any scopes, variables, locked keys and outputs paths: the merge finds every file exactly when each task is reached in its turn. */
  lemma FoundIffReached(c: Config, env: Env, rooted: Env, tasks: seq<Task>, locked: set<string>, own: seq<FilePath>, ms: seq<Env>)
    requires Rooted(c, env) == Some(rooted) && ToldByStep(c, env, tasks, locked, own) && |ms| == |tasks|
    ensures MergesAlong(c, env, OutputsOf(tasks), own, ms, locked) <==> AllReached(c, env, rooted, tasks, locked, ms)
  {
    var outs := OutputsOf(tasks);
    forall i | 0 <= i < |tasks|
      ensures FoundAt(c, env, outs, own, ms, locked, i) <==> Reached(c, env, rooted, locked, tasks[i], Fold(env, ms[..i], locked))
    {
      ToldFile(c, env, rooted, tasks, locked, own, i);
      SameFileAcrossBases(RootOf(c, env, rooted, locked, tasks[i]), OutputsBase(c, Fold(env, ms[..i], locked)), OutputsPath(outs[i]));
    }
  }

  lemma DistinctIffToldApart(c: Config, env: Env, rooted: Env, tasks: seq<Task>, locked: set<string>, own: seq<FilePath>)
    requires Rooted(c, env) == Some(rooted) && ToldByStep(c, env, tasks, locked, own)
    ensures NoRepeats(own) <==> ToldApart(c, env, rooted, tasks, locked)
  {
    forall i | 0 <= i < |tasks|
      ensures own[i] == Placed(Clean(RootOf(c, env, rooted, locked, tasks[i])), Clean(OutputsPath(tasks[i].outputs)))
    {
      ToldFile(c, env, rooted, tasks, locked, own, i);
      FileIsPlaced(RootOf(c, env, rooted, locked, tasks[i]), OutputsPath(tasks[i].outputs));
    }
  }

  /**
   The batch of any tasks: when they were told to write different places and each is reached in its turn, every
   successful interleaving leaves the fold of the solo runs in both environments.
   */
  lemma TasksBatchIsFold(
      c: Config, b: Batch, s: Shared, rooted: Env, tasks: seq<Task>, locked: set<string>, schedule: seq<nat>, turns: seq<nat>)
    requires Rooted(c, s.env) == Some(rooted) && ToldByStep(c, s.env, tasks, locked, b.own)
    requires Complete(Run(b, Start(b, s), schedule)) && Settles(b, s, turns)
    requires ToldApart(c, s.env, rooted, tasks, locked) && AllReached(c, s.env, rooted, tasks, locked, LinesOfAll(b, s, turns))
    ensures EndsInFold(c, b, s, OutputsOf(tasks), locked, schedule, LinesOfAll(b, s, turns))
  {
    DistinctIffToldApart(c, s.env, rooted, tasks, locked, b.own);
    FoundIffReached(c, s.env, rooted, tasks, locked, b.own, LinesOfAll(b, s, turns));
    BatchIsFoldOfSoloRuns(c, b, s, OutputsOf(tasks), locked, schedule, turns);
  }

  // ---------------------------------------------------------------------------------------
  // Batches of plain tasks
  // ---------------------------------------------------------------------------------------

  /** The default artifacts scope, and no root named. */
  predicate PlainTask(t: Task) {
    t.scopes.artifacts == Artifacts && NamesNoRoot(t.extra)
  }

  /** Where the roots agree, the merge starts where plain tasks write, whatever their outputs paths; these are distinct files exactly when no two paths coincide. */
  lemma PlainTasksAreFound(c: Config, env: Env, tasks: seq<Task>, locked: set<string>, own: seq<FilePath>)
    requires RootsAgree(env) && RootsFree(locked) && !Blank(SourceCandidate(c, env))
    requires ToldByStep(c, env, tasks, locked, own) && forall i :: 0 <= i < |tasks| ==> PlainTask(tasks[i])
    ensures MergesFrom(c, env, OutputsOf(tasks), own)
    ensures NoRepeats(own) <==> NoneCoincide(c, env, OutputsOf(tasks))
  {
    var outs := OutputsOf(tasks);
    forall i | 0 <= i < |outs| ensures OutputsFile(c, outs[i], env) == own[i] {
      PlainRoot(c, env, tasks[i], locked);
      ToldFile(c, env, env, tasks, locked, own, i);
    }
    DistinctFilesIff(c, env, outs);
  }

  lemma PlainRoot(c: Config, env: Env, t: Task, locked: set<string>)
    requires RootsAgree(env) && RootsFree(locked) && !Blank(SourceCandidate(c, env)) && PlainTask(t)
    requires StepOverrides(c, env, t.scopes, t.extra, locked).Some?
    ensures Rooted(c, env) == Some(env) && RootOf(c, env, env, locked, t) == OutputsBase(c, env)
  {
    EstablishedIsRooted(c, env, Rooted(c, env).value);
    MergeBase(c, env);
    assert OUTPUT_ROOT in ROOTS;
  }

  /**
   A batch of plain tasks in a run whose roots agree and are not locked: when no two outputs paths coincide and
   no task outputs a key that places files, every successful interleaving leaves the fold of the solo runs.
   */
  lemma PlainBatchIsFold(
      c: Config, b: Batch, s: Shared, tasks: seq<Task>, locked: set<string>, schedule: seq<nat>, turns: seq<nat>)
    requires RootsAgree(s.env) && RootsFree(locked) && !Blank(SourceCandidate(c, s.env))
    requires ToldByStep(c, s.env, tasks, locked, b.own) && forall i :: 0 <= i < |tasks| ==> PlainTask(tasks[i])
    requires NoneCoincide(c, s.env, OutputsOf(tasks))
    requires Complete(Run(b, Start(b, s), schedule)) && Settles(b, s, turns)
    requires forall i :: 0 <= i < |turns| ==> NoRootIn(LinesOf(b, s, i, turns[i]), locked)
    ensures EndsInFold(c, b, s, OutputsOf(tasks), locked, schedule, LinesOfAll(b, s, turns))
  {
    PlainTasksAreFound(c, s.env, tasks, locked, b.own);
    UnmovedWithoutRoots(c, s.env, OutputsOf(tasks), b.own, LinesOfAll(b, s, turns), locked);
    BatchIsFoldOfSoloRuns(c, b, s, OutputsOf(tasks), locked, schedule, turns);
  }

  // ---------------------------------------------------------------------------------------
  // A batch that loses outputs
  // ---------------------------------------------------------------------------------------

  const MOVED: Env := map[OUTPUT_ROOT := "/x"]

  const KEPT: Env := map["K" := "v"]

  const OWN_O := FilePath(true, ["b", "o"])

  const OWN_P := FilePath(true, ["b", "p"])

  lemma ExampleFile(root: string, name: string)
    requires IsName(root) && IsName(name)
    ensures OutputsPath(name) == name && FileBelow("/" + root, name) == FilePath(true, [root, name])
  {
    CleanOne(root);
    CleanOne(name);
    FileIsPlaced("/" + root, name);
  }

  lemma BaseOfOutputRoot(c: Config, env: Env)
    requires !Blank(Get(env, OUTPUT_ROOT))
    ensures OutputsBase(c, env) == Get(env, OUTPUT_ROOT)
  {
  }

  /** The first task's file moves the output root to /x. */
  lemma ExampleMove(env: Env)
    requires env == Overlay(EXAMPLE_ENV, EXAMPLE_ENV, MOVED, {})
    ensures "K" !in env && OutputsBase(EXAMPLE, env) == "/x"
  {
    assert OUTPUT_ROOT in MOVED && !Blank("/x") && |"K"| < |OUTPUT_ROOT| && |"K"| < |SOURCE_ROOT| && |"K"| < |ARTIFACT_ROOT|;
    assert !WipesSecret(EXAMPLE_ENV, OUTPUT_ROOT, "/x");
    assert Takes(EXAMPLE_ENV, MOVED, {}, OUTPUT_ROOT);
    BaseOfOutputRoot(EXAMPLE, env);
  }

  /** A second file that is not where the merge now looks stays unread. */
  lemma SecondIsLost(c: Config, s: Shared, p: string, q: string, locked: set<string>)
    requires
      var s1 := Applied(s, OutputsFile(c, p, s.env), locked);
      OutputsFile(c, q, s1.env) !in s1.files
    ensures Merged(c, s, [p, q], locked) == Applied(s, OutputsFile(c, p, s.env), locked)
  {
    var s1 := Applied(s, OutputsFile(c, p, s.env), locked);
    var lost := OutputsFile(c, q, s1.env);
    assert [p, q][1..] == [q] && [q][1..] == [];
    assert Applied(s1, lost, locked) == s1;
    assert Merged(c, s1, [q], locked) == Merged(c, s1, [], locked) == s1;
  }

  lemma SecondNotFound(c: Config, env: Env, p: string, q: string, own: seq<FilePath>, m: Env, k: Env, locked: set<string>)
    requires |own| == 2 && OutputsFile(c, q, Overlay(env, env, m, locked)) != own[1]
    ensures !MergesAlong(c, env, [p, q], own, [m, k], locked)
  {
    assert [m, k][..1] == [m] && [m][..0] == [];
    assert Fold(env, [m], locked) == Overlay(env, env, m, locked);
    assert !FoundAt(c, env, [p, q], own, [m, k], locked, 1);
  }

  /** Where the example's merge looks, at its start and once the root is moved. */
  lemma ExamplePlaces(env: Env)
    requires OutputsBase(EXAMPLE, env) == "/x"
    ensures OWN_O != OWN_P && OutputsFile(EXAMPLE, "o", EXAMPLE_ENV) == OWN_O && OutputsFile(EXAMPLE, "p", EXAMPLE_ENV) == OWN_P
    ensures OutputsFile(EXAMPLE, "p", env) !in {OWN_O, OWN_P}
  {
    ExampleBase();
    ExampleFile("b", "o");
    ExampleFile("b", "p");
    ExampleFile("x", "p");
    assert "/" + "b" == "/b" && "/" + "x" == "/x";
    assert OWN_O.parts[1] != OWN_P.parts[1];
    assert OutputsFile(EXAMPLE, "p", env).parts[0] != OWN_O.parts[0];
  }

  /**
   Two plain tasks with distinct local outputs, nothing locked, and both files where the merge would look at its
   start: the first one's lines move the output root, and the second one's output is lost.
   */
  lemma MovedRootLosesOutputs(s: Shared)
    requires s == Shared(EXAMPLE_ENV, map[], map[OWN_O := Lines(MOVED), OWN_P := Lines(KEPT)])
    ensures OWN_O != OWN_P && MergesFrom(EXAMPLE, s.env, ["o", "p"], [OWN_O, OWN_P])
    ensures "K" !in Merged(EXAMPLE, s, ["o", "p"], {}).env
    ensures "K" in Fold(s.env, [MOVED, KEPT], {})
    ensures !MergesAlong(EXAMPLE, s.env, ["o", "p"], [OWN_O, OWN_P], [MOVED, KEPT], {})
  {
    var env := Overlay(EXAMPLE_ENV, EXAMPLE_ENV, MOVED, {});
    ExampleMove(env);
    ExamplePlaces(env);
    FirstConsumed(s);
    SecondIsLost(EXAMPLE, s, "o", "p", {});
    SecondNotFound(EXAMPLE, s.env, "o", "p", [OWN_O, OWN_P], MOVED, KEPT, {});
    KeptInFold(s.env);
  }

  lemma FirstConsumed(s: Shared)
    requires s == Shared(EXAMPLE_ENV, map[], map[OWN_O := Lines(MOVED), OWN_P := Lines(KEPT)]) && OWN_O != OWN_P
    ensures Applied(s, OWN_O, {}).env == Overlay(EXAMPLE_ENV, EXAMPLE_ENV, MOVED, {})
    ensures Applied(s, OWN_O, {}).files.Keys <= {OWN_O, OWN_P}
  {
    assert OUTPUT_ROOT in MOVED;
    assert Consumed(s.files, OWN_O) == MOVED;
    AppliedIsOverlay(s, OWN_O, {});
  }

  lemma KeptInFold(env: Env)
    ensures "K" in Fold(env, [MOVED, KEPT], {})
  {
    assert "K" in KEPT && KEPT["K"] == "v" && !Blank("v");
    LastTaskWins(env, [MOVED, KEPT], {}, 1, "K");
  }
}
