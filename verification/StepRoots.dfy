/** When a group task and the merge after it mean the same outputs file. */
module StepRoots {
  import opened Outcomes
  import opened Text
  import opened StepPaths
  import opened StepEnv

  // ---------------------------------------------------------------------------------------
  // The environment of a step
  // ---------------------------------------------------------------------------------------

  /** applyStepEnvOverrides: the roots, and then, over them, the step's inputs and variables. */
  function StepOverrides(c: Config, env: Env, scopes: Scopes, extra: Env, locked: set<string>): Option<Env> {
    var rooted := StepCwdEnv(c, env, scopes, locked);
    if rooted.None? then None else Some(WithUnlocked(rooted.value, extra, locked))
  }

  function WithUnlocked(env: Env, extra: Env, locked: set<string>): Env {
    map k | k in env.Keys + extra.Keys && (k in env || k !in locked) :: if k in extra && k !in locked then extra[k] else env[k]
  }

  /** The environment in which a step's scopes are read. */
  function Rooted(c: Config, env: Env): Option<Env> {
    var workdir := SourceCandidate(c, env);
    if Blank(workdir) then Some(env)
    else WorkflowArtifactEnv(c, env, workdir, FirstNonBlank([Get(env, WORKFLOW_NAME), c.scopeHint]))
  }

  /** What the scopes of a step would make of key `k`. */
  function Planned(c: Config, env: Env, rooted: Env, scopes: Scopes, k: string): string {
    var source, artifacts := Get(rooted, SOURCE_ROOT), Get(rooted, ARTIFACT_ROOT);
    if Blank(SourceCandidate(c, env)) then Get(rooted, k)
    else if k == OUTPUT_ROOT || k == ARTIFACT_ROOT then ScopeRoot(scopes.artifacts, source, artifacts)
    else if k == SOURCE_ROOT then ScopeRoot(scopes.source, source, artifacts)
    else if k == STEP_CWD then ScopeRoot(scopes.cwd, source, artifacts)
    else Get(rooted, k)
  }

  /** A locked key stays; otherwise what the step names itself goes before what its scopes say. */
  function Effective(c: Config, env: Env, rooted: Env, scopes: Scopes, extra: Env, locked: set<string>, k: string): string {
    if k in locked then Get(rooted, k)
    else if k in extra then extra[k]
    else Planned(c, env, rooted, scopes, k)
  }

  lemma StepSets(c: Config, env: Env, rooted: Env, scopes: Scopes, extra: Env, locked: set<string>, env': Env, k: string)
    requires Rooted(c, env) == Some(rooted) && StepOverrides(c, env, scopes, extra, locked) == Some(env')
    ensures Get(env', k) == Effective(c, env, rooted, scopes, extra, locked, k)
  {
    RootKeysDiffer();
    if !Blank(SourceCandidate(c, env)) {
      var source, artifacts := Get(rooted, SOURCE_ROOT), Get(rooted, ARTIFACT_ROOT);
      WithRootsSets(rooted, ScopeRoot(scopes.source, source, artifacts), ScopeRoot(scopes.artifacts, source, artifacts),
                    ScopeRoot(scopes.cwd, source, artifacts), locked, k);
    }
    WithUnlockedSets(StepCwdEnv(c, env, scopes, locked).value, extra, locked, k);
  }

  lemma WithRootsSets(env: Env, source: string, artifacts: string, cwd: string, locked: set<string>, k: string)
    ensures
      Get(WithRoots(env, source, artifacts, cwd, locked), k) ==
      if k in locked then Get(env, k)
      else if k == OUTPUT_ROOT || k == ARTIFACT_ROOT then artifacts
      else if k == SOURCE_ROOT then source
      else if k == STEP_CWD then cwd
      else Get(env, k)
  {
    RootKeysDiffer();
  }

  lemma WithUnlockedSets(env: Env, extra: Env, locked: set<string>, k: string)
    ensures Get(WithUnlocked(env, extra, locked), k) == if k in extra && k !in locked then extra[k] else Get(env, k)
  {
  }

  lemma RootKeysDiffer()
    ensures OUTPUT_ROOT != ARTIFACT_ROOT && OUTPUT_ROOT != SOURCE_ROOT && OUTPUT_ROOT != STEP_CWD
    ensures ARTIFACT_ROOT != SOURCE_ROOT && ARTIFACT_ROOT != STEP_CWD && SOURCE_ROOT != STEP_CWD
  {
  }

  /**
   Naming the roots fails exactly when a helper it needs fails. A root that is named stays; a missing source root
   becomes the working directory, a missing artifact root its artifact directory; no other key changes.
   */
  lemma RootsNamed(c: Config, env: Env, workdir: string, name: string, k: string)
    requires !Blank(workdir)
    ensures
      var source, env' := c.abs(TrimSpace(workdir)), WorkflowArtifactEnv(c, env, workdir, name);
      && (env'.None? <==> source.None? || (Blank(Get(env, ARTIFACT_ROOT)) && c.artifactRoot(source.value, name).None?))
      && (env'.Some? ==>
            && Get(env'.value, SOURCE_ROOT) == (if Blank(Get(env, SOURCE_ROOT)) then source.value else Get(env, SOURCE_ROOT))
            && Get(env'.value, ARTIFACT_ROOT) ==
               (if Blank(Get(env, ARTIFACT_ROOT)) then c.artifactRoot(source.value, name).value else Get(env, ARTIFACT_ROOT))
            && (k != SOURCE_ROOT && k != ARTIFACT_ROOT ==> Get(env'.value, k) == Get(env, k)))
  {
    RootKeysDiffer();
  }

  /** The working directory of a step: the first that is set of the variable, the option, the project, the repository and the current one. */
  ghost predicate WorksIn(c: Config, env: Env, workdir: string) {
    exists i :: IsFirst([Get(env, WORKDIR), c.workdir, c.projectRoot, c.repoRoot, c.cwd], i, workdir)
  }

  /** The name that its artifact directory is asked for: that of the workflow, else the given hint, else none. */
  predicate GoesBy(c: Config, env: Env, name: string) {
    if !Blank(Get(env, WORKFLOW_NAME)) then name == Get(env, WORKFLOW_NAME)
    else if !Blank(c.scopeHint) then name == c.scopeHint
    else name == ""
  }

  /**
   A step's environment cannot be made exactly when its working directory cannot be made absolute, a missing
   artifact directory cannot be found for its name, or the artifact directory it is to run in cannot be made;
   otherwise its scopes are read with the roots of that working directory and name.
   */
  lemma StepFailsIff(
      c: Config, env: Env, scopes: Scopes, extra: Env, locked: set<string>, workdir: string, name: string)
    requires WorksIn(c, env, workdir) && GoesBy(c, env, name)
    ensures Rooted(c, env) == WorkflowArtifactEnv(c, env, workdir, name)
    ensures
      var source, found := c.abs(TrimSpace(workdir)), !Blank(Get(env, ARTIFACT_ROOT));
      StepOverrides(c, env, scopes, extra, locked).None? <==>
      || source.None?
      || (!found && c.artifactRoot(source.value, name).None?)
      || (scopes.cwd == Artifacts && !c.canMake(if found then Get(env, ARTIFACT_ROOT) else c.artifactRoot(source.value, name).value))
  {
    WorkdirAndName(c, env, workdir, name);
    RootsNamed(c, env, workdir, name, "");
  }

  lemma WorkdirAndName(c: Config, env: Env, workdir: string, name: string)
    requires WorksIn(c, env, workdir) && GoesBy(c, env, name)
    ensures SourceCandidate(c, env) == workdir && !Blank(workdir)
    ensures FirstNonBlank([Get(env, WORKFLOW_NAME), c.scopeHint]) == name
  {
    var dirs := [Get(env, WORKDIR), c.workdir, c.projectRoot, c.repoRoot, c.cwd];
    var i :| IsFirst(dirs, i, workdir);
    FirstNonBlankIs(dirs, i, workdir);
    NameIsFirst(Get(env, WORKFLOW_NAME), c.scopeHint, name);
  }

  lemma NameIsFirst(own: string, hint: string, name: string)
    requires if !Blank(own) then name == own else if !Blank(hint) then name == hint else name == ""
    ensures FirstNonBlank([own, hint]) == name
  {
    var names := [own, hint];
    if !Blank(own) {
      FirstNonBlankIs(names, 0, name);
    } else if !Blank(hint) {
      FirstNonBlankIs(names, 1, name);
    } else {
      AllBlank(names);
    }
  }

  /** Where no working directory is set at all, a step's scopes set nothing. */
  lemma NowhereToWork(c: Config, env: Env, scopes: Scopes, extra: Env, locked: set<string>)
    requires Blank(Get(env, WORKDIR)) && Blank(c.workdir) && Blank(c.projectRoot) && Blank(c.repoRoot) && Blank(c.cwd)
    ensures StepOverrides(c, env, scopes, extra, locked) == Some(WithUnlocked(env, extra, locked))
  {
    AllBlank([Get(env, WORKDIR), c.workdir, c.projectRoot, c.repoRoot, c.cwd]);
    assert Blank("");
  }

  // ---------------------------------------------------------------------------------------
  // The file of a group task and the file of the merge
  // ---------------------------------------------------------------------------------------

  /** The directory that a task's relative outputs path starts from. */
  function WorkerRoot(c: Config, env: Env, rooted: Env, scopes: Scopes, extra: Env, locked: set<string>): string {
    var root := FirstNonBlank([
      Effective(c, env, rooted, scopes, extra, locked, OUTPUT_ROOT),
      Effective(c, env, rooted, scopes, extra, locked, ARTIFACT_ROOT),
      Effective(c, env, rooted, scopes, extra, locked, STEP_CWD),
      Effective(c, env, rooted, scopes, extra, locked, WORKDIR),
      c.workdir]);
    if root == "" then c.cwd else root
  }

  lemma WorkerBase(c: Config, env: Env, rooted: Env, scopes: Scopes, extra: Env, locked: set<string>, worker: Env)
    requires Rooted(c, env) == Some(rooted) && StepOverrides(c, env, scopes, extra, locked) == Some(worker)
    ensures OutputsBase(c, worker) == WorkerRoot(c, env, rooted, scopes, extra, locked)
  {
    StepSets(c, env, rooted, scopes, extra, locked, worker, OUTPUT_ROOT);
    StepSets(c, env, rooted, scopes, extra, locked, worker, ARTIFACT_ROOT);
    StepSets(c, env, rooted, scopes, extra, locked, worker, STEP_CWD);
    StepSets(c, env, rooted, scopes, extra, locked, worker, WORKDIR);
  }

  /** Two bases that a path with `k` leading ".." cannot tell apart. */
  predicate SameAbove(a: FilePath, b: FilePath, k: nat) {
    a.rooted == b.rooted && Climb(a.parts, k, a.rooted) == Climb(b.parts, k, b.rooted)
  }

  lemma SameFileAcrossBases(a: string, b: string, p: string)
    ensures FileBelow(a, p) == FileBelow(b, p) <==> IsAbs(p) || SameAbove(Clean(a), Clean(b), Ups(Clean(p).parts))
  {
    FileIsPlaced(a, p);
    FileIsPlaced(b, p);
    if !IsAbs(p) {
      var k, rest := Ups(Clean(p).parts), Rest(Clean(p).parts);
      SuffixCancels(Climb(Clean(a).parts, k, IsAbs(a)), Climb(Clean(b).parts, k, IsAbs(b)), rest);
    }
  }

  lemma SuffixCancels(a: seq<string>, b: seq<string>, c: seq<string>)
    ensures a + c == b + c <==> a == b
  {
    if a + c == b + c {
      assert |a| == |b|;
      assert a == (a + c)[..|a|] && b == (b + c)[..|b|];
    }
  }

  /**
   For every environment, scopes, step variables, locked keys and outputs path: the merge reads the file that
   a group task was told to write exactly when the path is absolute, or the directory the task starts from
   and the one the merge starts from agree as far up as the path climbs.
   */
  lemma MergeFindsWorkerFile(
      c: Config, env: Env, rooted: Env, scopes: Scopes, extra: Env, locked: set<string>, worker: Env, outputs: string)
    requires Rooted(c, env) == Some(rooted) && StepOverrides(c, env, scopes, extra, locked) == Some(worker)
    ensures
      OutputsFile(c, outputs, worker) == OutputsFile(c, outputs, env) <==>
      IsAbs(OutputsPath(outputs))
      || SameAbove(Clean(WorkerRoot(c, env, rooted, scopes, extra, locked)), Clean(OutputsBase(c, env)), Ups(Clean(OutputsPath(outputs)).parts))
  {
    WorkerBase(c, env, rooted, scopes, extra, locked, worker);
    SameFileAcrossBases(OutputsBase(c, worker), OutputsBase(c, env), OutputsPath(outputs));
  }

  // ---------------------------------------------------------------------------------------
  // The cases
  // ---------------------------------------------------------------------------------------

  /** Both roots are named. */
  predicate Established(env: Env) {
    !Blank(Get(env, ARTIFACT_ROOT)) && !Blank(Get(env, SOURCE_ROOT))
  }

  /** The output root, once some step has set it, is the artifact root. */
  predicate RootsAgree(env: Env) {
    Established(env) && (Blank(Get(env, OUTPUT_ROOT)) || Get(env, OUTPUT_ROOT) == Get(env, ARTIFACT_ROOT))
  }

  /** No --var names the output or the artifact root. */
  predicate RootsFree(locked: set<string>) {
    OUTPUT_ROOT !in locked && ARTIFACT_ROOT !in locked
  }

  const ROOTS: set<string> := {OUTPUT_ROOT, ARTIFACT_ROOT, SOURCE_ROOT}

  predicate NamesNoRoot(extra: Env) {
    forall k :: k in ROOTS ==> k !in extra
  }

  lemma EstablishedIsRooted(c: Config, env: Env, rooted: Env)
    requires Established(env) && Rooted(c, env) == Some(rooted)
    ensures rooted == env
  {
  }

  lemma MergeBase(c: Config, env: Env)
    requires RootsAgree(env)
    ensures OutputsBase(c, env) == Get(env, ARTIFACT_ROOT)
  {
    var values := [Get(env, OUTPUT_ROOT), Get(env, ARTIFACT_ROOT), Get(env, STEP_CWD), Get(env, WORKDIR), c.workdir];
    assert FirstNonBlank(values[1..]) == Get(env, ARTIFACT_ROOT);
  }

  /** A task that names no root itself: found if its artifacts scope is the default one, or both roots are one directory. */
  lemma UnnamedRootFound(c: Config, env: Env, scopes: Scopes, extra: Env, locked: set<string>, worker: Env, outputs: string)
    requires RootsAgree(env) && RootsFree(locked) && NamesNoRoot(extra) && !Blank(SourceCandidate(c, env))
    requires StepOverrides(c, env, scopes, extra, locked) == Some(worker) && IsLocal(OutputsPath(outputs))
    ensures
      OutputsFile(c, outputs, worker) == OutputsFile(c, outputs, env) <==>
      scopes.artifacts == Artifacts || Clean(Get(env, SOURCE_ROOT)) == Clean(Get(env, ARTIFACT_ROOT))
  {
    EstablishedIsRooted(c, env, Rooted(c, env).value);
    MergeFindsWorkerFile(c, env, env, scopes, extra, locked, worker, outputs);
    MergeBase(c, env);
    assert OUTPUT_ROOT in ROOTS;
  }

  /** With the output root fixed by --var, the merge finds the file whatever the task's scopes and variables. */
  lemma LockedRootFound(c: Config, env: Env, scopes: Scopes, extra: Env, locked: set<string>, worker: Env, outputs: string)
    requires OUTPUT_ROOT in locked && !Blank(Get(env, OUTPUT_ROOT))
    requires StepOverrides(c, env, scopes, extra, locked) == Some(worker)
    ensures OutputsFile(c, outputs, worker) == OutputsFile(c, outputs, env)
  {
    var rooted := Rooted(c, env).value;
    RootedKeepsOutput(c, env, rooted);
    WorkerBase(c, env, rooted, scopes, extra, locked, worker);
    SameFileAcrossBases(OutputsBase(c, worker), OutputsBase(c, env), OutputsPath(outputs));
  }

  lemma RootedKeepsOutput(c: Config, env: Env, rooted: Env)
    requires Rooted(c, env) == Some(rooted)
    ensures Get(rooted, OUTPUT_ROOT) == Get(env, OUTPUT_ROOT)
  {
    RootKeysDiffer();
  }

  /** A task that names the output root itself: found exactly when that is the directory the merge starts from. */
  lemma NamedRootFound(c: Config, env: Env, scopes: Scopes, extra: Env, locked: set<string>, worker: Env, outputs: string)
    requires OUTPUT_ROOT !in locked && OUTPUT_ROOT in extra && !Blank(extra[OUTPUT_ROOT])
    requires StepOverrides(c, env, scopes, extra, locked) == Some(worker) && IsLocal(OutputsPath(outputs))
    ensures OutputsFile(c, outputs, worker) == OutputsFile(c, outputs, env) <==> Clean(extra[OUTPUT_ROOT]) == Clean(OutputsBase(c, env))
  {
    MergeFindsWorkerFile(c, env, Rooted(c, env).value, scopes, extra, locked, worker, outputs);
  }

  // ---------------------------------------------------------------------------------------
  // Inputs that part merge and task
  // ---------------------------------------------------------------------------------------

  const EXAMPLE := Config("/s", "", "", "", "", p => Some(p), (p, n) => Some("/b"), p => true)

  const EXAMPLE_ENV: Env := map[SOURCE_ROOT := "/s", ARTIFACT_ROOT := "/b"]

  lemma CleanOne(name: string)
    requires IsName(name)
    ensures Clean("/" + name) == FilePath(true, [name])
    ensures Clean(name) == FilePath(false, [name])
  {
    SplitOne(name, '/');
    assert "/" + name == "" + ['/'] + name;
    SplitFirst("", '/', name);
    assert Split("/" + name, '/') == ["", name];
    assert ["", name][..1] == [""] && [""][..0] == [] && [name][..0] == [];
    assert Resolve([], [""], true) == [] && Resolve([], [name], false) == [name];
    assert name[0] in name;
  }

  lemma RootsApart(a: string, b: string)
    requires IsName(a) && IsName(b) && a != b
    ensures Clean("/" + a) != Clean("/" + b)
  {
    CleanOne(a);
    CleanOne(b);
    assert [a][0] != [b][0];
  }

  lemma ExampleLocal()
    ensures IsLocal(OutputsPath("o"))
  {
    CleanOne("o");
  }

  lemma ExampleOverrides(scopes: Scopes, extra: Env) returns (worker: Env)
    requires scopes.cwd == Source
    ensures StepOverrides(EXAMPLE, EXAMPLE_ENV, scopes, extra, {}) == Some(worker)
  {
    ExampleBase();
    worker := StepOverrides(EXAMPLE, EXAMPLE_ENV, scopes, extra, {}).value;
  }

  lemma ExampleBase()
    ensures RootsAgree(EXAMPLE_ENV) && Rooted(EXAMPLE, EXAMPLE_ENV) == Some(EXAMPLE_ENV) && !Blank(SourceCandidate(EXAMPLE, EXAMPLE_ENV))
    ensures OutputsBase(EXAMPLE, EXAMPLE_ENV) == "/b" && Get(EXAMPLE_ENV, SOURCE_ROOT) == "/s" && Get(EXAMPLE_ENV, ARTIFACT_ROOT) == "/b"
  {
    RootKeysDiffer();
    MergeBase(EXAMPLE, EXAMPLE_ENV);
    var values := [Get(EXAMPLE_ENV, WORKDIR), "/s", "", "", ""];
    assert FirstNonBlank(values[1..]) == "/s";
  }

  predicate IsName(name: string) {
    name != "" && name != "." && name != ".." && '/' !in name
  }

  lemma SourceScopeMissesIn(c: Config, env: Env, scopes: Scopes, extra: Env, worker: Env, outputs: string, a: string, b: string)
    requires RootsAgree(env) && !Blank(SourceCandidate(c, env)) && scopes.artifacts == Source && NamesNoRoot(extra)
    requires StepOverrides(c, env, scopes, extra, {}) == Some(worker) && IsLocal(OutputsPath(outputs))
    requires IsName(a) && IsName(b) && a != b && Get(env, SOURCE_ROOT) == "/" + a && Get(env, ARTIFACT_ROOT) == "/" + b
    ensures OutputsFile(c, outputs, worker) != OutputsFile(c, outputs, env)
  {
    UnnamedRootFound(c, env, scopes, extra, {}, worker, outputs);
    RootsApart(a, b);
  }

  /** A task with `scopes.artifacts: source` writes below the source root; the merge looks below the artifact root. */
  lemma SourceScopeMisses(scopes: Scopes) returns (worker: Env)
    requires scopes == Scopes(Source, Source, Source)
    ensures StepOverrides(EXAMPLE, EXAMPLE_ENV, scopes, map[], {}) == Some(worker)
    ensures OutputsFile(EXAMPLE, "o", worker) != OutputsFile(EXAMPLE, "o", EXAMPLE_ENV)
  {
    ExampleBase();
    ExampleLocal();
    worker := ExampleOverrides(scopes, map[]);
    assert "/" + "s" == "/s" && "/" + "b" == "/b";
    SourceScopeMissesIn(EXAMPLE, EXAMPLE_ENV, scopes, map[], worker, "o", "s", "b");
  }

  lemma NamedRootMissesIn(c: Config, env: Env, scopes: Scopes, vars: Env, worker: Env, outputs: string, a: string, b: string)
    requires StepOverrides(c, env, scopes, vars, {}) == Some(worker) && IsLocal(OutputsPath(outputs))
    requires OUTPUT_ROOT in vars && vars[OUTPUT_ROOT] == "/" + a && !Blank("/" + a) && OutputsBase(c, env) == "/" + b
    requires IsName(a) && IsName(b) && a != b
    ensures OutputsFile(c, outputs, worker) != OutputsFile(c, outputs, env)
  {
    NamedRootFound(c, env, scopes, vars, {}, worker, outputs);
    RootsApart(a, b);
  }

  /** A task with the default scopes whose own variables name another output root is missed as well. */
  lemma NamedRootMisses(vars: Env) returns (worker: Env)
    requires OUTPUT_ROOT in vars && vars[OUTPUT_ROOT] == "/x"
    ensures StepOverrides(EXAMPLE, EXAMPLE_ENV, DEFAULT_SCOPES, vars, {}) == Some(worker)
    ensures OutputsFile(EXAMPLE, "o", worker) != OutputsFile(EXAMPLE, "o", EXAMPLE_ENV)
  {
    ExampleBase();
    ExampleLocal();
    worker := ExampleOverrides(DEFAULT_SCOPES, vars);
    assert "/" + "x" == "/x" && "/" + "b" == "/b" && !Blank("/x");
    NamedRootMissesIn(EXAMPLE, EXAMPLE_ENV, DEFAULT_SCOPES, vars, worker, "o", "x", "b");
  }

  // ---------------------------------------------------------------------------------------
  // From the start of a run to a batch
  // ---------------------------------------------------------------------------------------

  /** The file-system helpers never answer with a blank path. */
  ghost predicate HelpersAnswer(c: Config) {
    && (forall w :: c.abs(w).Some? ==> !Blank(c.abs(w).value))
    && (forall w, n :: c.artifactRoot(w, n).Some? ==> !Blank(c.artifactRoot(w, n).value))
  }

  /** A run names both roots before its first step. */
  lemma StartAgrees(c: Config, env: Env, workdir: string, name: string, env': Env)
    requires HelpersAnswer(c) && !Blank(workdir) && WorkflowArtifactEnv(c, env, workdir, name) == Some(env')
    requires Blank(Get(env, OUTPUT_ROOT))
    ensures RootsAgree(env')
  {
    RootKeysDiffer();
  }

  /**
   After a step the roots agree exactly when the values that locks, variables and scopes leave do: for a step that
   neither names a root nor meets a locked one, always.
   */
  lemma StepKeepsRoots(c: Config, env: Env, scopes: Scopes, extra: Env, locked: set<string>, env': Env)
    requires RootsAgree(env) && StepOverrides(c, env, scopes, extra, locked) == Some(env')
    ensures
      RootsAgree(env') <==>
      var out := Effective(c, env, env, scopes, extra, locked, OUTPUT_ROOT);
      var artifacts := Effective(c, env, env, scopes, extra, locked, ARTIFACT_ROOT);
      !Blank(artifacts) && !Blank(Effective(c, env, env, scopes, extra, locked, SOURCE_ROOT)) && (Blank(out) || out == artifacts)
    ensures RootsFree(locked) && NamesNoRoot(extra) ==> RootsAgree(env')
  {
    EstablishedIsRooted(c, env, Rooted(c, env).value);
    StepSets(c, env, env, scopes, extra, locked, env', OUTPUT_ROOT);
    StepSets(c, env, env, scopes, extra, locked, env', ARTIFACT_ROOT);
    StepSets(c, env, env, scopes, extra, locked, env', SOURCE_ROOT);
    RootKeysDiffer();
    assert OUTPUT_ROOT in ROOTS && ARTIFACT_ROOT in ROOTS && SOURCE_ROOT in ROOTS;
  }

  /** What happens to the shared environment: a step's overrides, or the merge of one outputs file. */
  datatype Turn = Overrides(scopes: Scopes, extra: Env) | Merge(lines: Env)

  function AfterTurn(c: Config, env: Env, turn: Turn, locked: set<string>): Option<Env> {
    match turn
    case Overrides(scopes, extra) => StepOverrides(c, env, scopes, extra, locked)
    case Merge(lines) => Some(Overlay(env, env, lines, locked))
  }

  function AfterTurns(c: Config, env: Env, turns: seq<Turn>, locked: set<string>): Option<Env>
    decreases |turns|
  {
    if turns == [] then Some(env)
    else
      var before := AfterTurns(c, env, turns[..|turns| - 1], locked);
      if before.None? then None else AfterTurn(c, before.value, turns[|turns| - 1], locked)
  }

  predicate TurnNamesNoRoot(turn: Turn) {
    match turn
    case Overrides(_, extra) => NamesNoRoot(extra)
    case Merge(lines) => NamesNoRoot(lines)
  }

  /** From the start of a run on, as long as no step or outputs file names a root, the roots agree at every batch. */
  lemma {:induction false} RootsAgreeThroughout(
      c: Config, env: Env, workdir: string, name: string, start: Env, turns: seq<Turn>, locked: set<string>, env': Env)
    requires HelpersAnswer(c) && !Blank(workdir) && WorkflowArtifactEnv(c, env, workdir, name) == Some(start)
    requires Blank(Get(env, OUTPUT_ROOT)) && RootsFree(locked)
    requires forall i :: 0 <= i < |turns| ==> TurnNamesNoRoot(turns[i])
    requires AfterTurns(c, start, turns, locked) == Some(env')
    ensures RootsAgree(env')
    decreases |turns|
  {
    if turns == [] {
      StartAgrees(c, env, workdir, name, start);
    } else {
      var before, last := AfterTurns(c, start, turns[..|turns| - 1], locked).value, turns[|turns| - 1];
      RootsAgreeThroughout(c, env, workdir, name, start, turns[..|turns| - 1], locked, before);
      assert TurnNamesNoRoot(last);
      match last
      case Overrides(scopes, extra) => StepKeepsRoots(c, before, scopes, extra, locked, env');
      case Merge(lines) => MergeKeepsRoots(before, lines, locked);
    }
  }

  lemma MergeKeepsRoots(env: Env, lines: Env, locked: set<string>)
    requires RootsAgree(env) && NamesNoRoot(lines)
    ensures RootsAgree(Overlay(env, env, lines, locked))
  {
    assert OUTPUT_ROOT in ROOTS && ARTIFACT_ROOT in ROOTS && SOURCE_ROOT in ROOTS;
  }

  // ---------------------------------------------------------------------------------------
  // The check on outputs paths
  // ---------------------------------------------------------------------------------------

  /** The batch's check on raw outputs strings. */
  method CheckOutputPaths(outs: seq<string>) returns (clash: Option<nat>)
    ensures clash.None? <==> forall i, j :: 0 <= i < j < |outs| ==> OutputsPath(outs[i]) != OutputsPath(outs[j])
    ensures clash.Some? ==> clash.value < |outs| && exists i :: 0 <= i < clash.value && OutputsPath(outs[i]) == OutputsPath(outs[clash.value])
  {
    var seen: set<string> := {};
    for j := 0 to |outs|
      invariant forall p :: p in seen <==> exists i :: 0 <= i < j && OutputsPath(outs[i]) == p
      invariant forall i, k :: 0 <= i < k < j ==> OutputsPath(outs[i]) != OutputsPath(outs[k])
    {
      if OutputsPath(outs[j]) in seen {
        return Some(j);
      }
      seen := seen + {OutputsPath(outs[j])};
    }
    clash := None;
  }

  /** No two outputs paths coincide below the base of the merge. */
  predicate NoneCoincide(c: Config, env: Env, outs: seq<string>) {
    forall i, j :: 0 <= i < j < |outs| ==>
      !Coincide(Clean(OutputsBase(c, env)), Clean(OutputsPath(outs[i])), Clean(OutputsPath(outs[j])))
  }

  /** For any outputs paths, absolute and climbing ones included: the files are distinct exactly when no two paths coincide. */
  lemma DistinctFilesIff(c: Config, env: Env, outs: seq<string>)
    ensures (forall i, j :: 0 <= i < j < |outs| ==> OutputsFile(c, outs[i], env) != OutputsFile(c, outs[j], env)) <==> NoneCoincide(c, env, outs)
  {
    forall i, j | 0 <= i < j < |outs|
      ensures OutputsFile(c, outs[i], env) == OutputsFile(c, outs[j], env) <==>
              Coincide(Clean(OutputsBase(c, env)), Clean(OutputsPath(outs[i])), Clean(OutputsPath(outs[j])))
    {
      SameFileIff(OutputsBase(c, env), OutputsPath(outs[i]), OutputsPath(outs[j]));
    }
  }

  /** Two local outputs strings can pass the check and name one file below any base. */
  lemma DistinctStringsOneFile(base: string)
    ensures OutputsPath("a") != OutputsPath("./a") && FileBelow(base, "a") == FileBelow(base, "./a")
  {
    CleanOne("a");
    CleanDotted("a");
    assert "." + "/" + "a" == "./a" && |"a"| != |"./a"|;
    FileIsPlaced(base, "a");
    FileIsPlaced(base, "./a");
  }

  lemma CleanDotted(name: string)
    requires IsName(name)
    ensures Clean("." + "/" + name) == FilePath(false, [name])
  {
    var p := "." + "/" + name;
    assert p == "." + ['/'] + name;
    SplitOne(name, '/');
    SplitFirst(".", '/', name);
    assert Split(p, '/') == [".", name];
    assert [".", name][..1] == ["."] && ["."][..0] == [];
    assert Resolve([], ["."], false) == [];
  }

  /** So can an absolute one and a local one, with different clean forms. */
  lemma AbsoluteMeetsLocal()
    ensures OutputsPath("/b/a") != OutputsPath("a") && Clean("/b/a") != Clean("a") && FileBelow("/b", "/b/a") == FileBelow("/b", "a")
  {
    assert "/" + "b" + "/" + "a" == "/b/a" && "/" + "b" == "/b" && |"a"| != |"/b/a"|;
    MeetsBelow("b", "a");
  }

  lemma MeetsBelow(root: string, name: string)
    requires IsName(root) && IsName(name)
    ensures
      var base := "/" + root;
      Clean(base + "/" + name) != Clean(name) && FileBelow(base, base + "/" + name) == FileBelow(base, name)
  {
    assert name[0] in name;
    JoinIsClean("/" + root, name);
  }

  lemma JoinIsClean(base: string, p: string)
    requires base != "" && p != "" && !IsAbs(p)
    ensures FileBelow(base, p) == Clean(base + "/" + p)
  {
  }
}
