/** Roots and outputs paths of steps (run_steps.go, state_env.go). */
module StepPaths {
  import opened Outcomes
  import opened Text

  type Env = map<string, string>

  function Get(env: Env, k: string): string {
    if k in env then env[k] else ""
  }

  function FirstNonBlank(values: seq<string>): string {
    if values == [] then "" else if !Blank(values[0]) then values[0] else FirstNonBlank(values[1..])
  }

  /** `v` is the first of the values that is not blank. */
  predicate IsFirst(values: seq<string>, i: nat, v: string) {
    i < |values| && values[i] == v && !Blank(v) && forall j :: 0 <= j < i ==> Blank(values[j])
  }

  lemma {:induction false} FirstNonBlankIs(values: seq<string>, i: nat, v: string)
    requires IsFirst(values, i, v)
    ensures FirstNonBlank(values) == v
  {
    if i > 0 {
      assert Blank(values[0]);
      FirstNonBlankIs(values[1..], i - 1, v);
    }
  }

  lemma {:induction false} AllBlank(values: seq<string>)
    requires forall i :: 0 <= i < |values| ==> Blank(values[i])
    ensures FirstNonBlank(values) == ""
  {
    if values != [] { AllBlank(values[1..]); }
  }

  // ---------------------------------------------------------------------------------------
  // Clean paths
  // ---------------------------------------------------------------------------------------

  /** A path in clean form: its parts hold no "" and no ".", and ".." only at the front of a relative one. */
  datatype FilePath = FilePath(rooted: bool, parts: seq<string>)

  /** What one more part does to a clean path. */
  function Enter(stack: seq<string>, part: string, rooted: bool): seq<string> {
    if part == "" || part == "." then stack
    else if part != ".." then stack + [part]
    else if stack != [] && stack[|stack| - 1] != ".." then stack[..|stack| - 1]
    else if rooted then stack
    else stack + [".."]
  }

  function Resolve(stack: seq<string>, parts: seq<string>, rooted: bool): seq<string>
    decreases |parts|
  {
    if parts == [] then stack
    else Enter(Resolve(stack, parts[..|parts| - 1], rooted), parts[|parts| - 1], rooted)
  }

  predicate IsAbs(p: string) {
    p != "" && p[0] == '/'
  }

  function Clean(p: string): FilePath {
    FilePath(IsAbs(p), Resolve([], Split(p, '/'), IsAbs(p)))
  }

  function Join(base: string, p: string): FilePath {
    if base == "" then Clean(p) else if p == "" then Clean(base) else Clean(base + "/" + p)
  }

  lemma {:induction false} SplitJoined(a: string, b: string, c: char)
    ensures Split(a + [c] + b, c) == Split(a, c) + Split(b, c)
    decreases |a|
  {
    var at := IndexOf(a, c);
    if at.None? {
      SplitFirst(a, c, b);
    } else {
      var pre, post := a[..at.value], a[at.value + 1..];
      assert a + [c] + b == pre + [c] + (post + [c] + b);
      SplitFirst(pre, c, post + [c] + b);
      SplitJoined(post, b, c);
    }
  }

  lemma {:induction false} ResolveAppend(stack: seq<string>, a: seq<string>, b: seq<string>, rooted: bool)
    ensures Resolve(stack, a + b, rooted) == Resolve(Resolve(stack, a, rooted), b, rooted)
    decreases |b|
  {
    if b == [] {
      assert a + b == a;
    } else {
      assert (a + b)[..|a + b| - 1] == a + b[..|b| - 1];
      ResolveAppend(stack, a, b[..|b| - 1], rooted);
    }
  }

  // ---------------------------------------------------------------------------------------
  // Paths below a base
  // ---------------------------------------------------------------------------------------

  /** `k` times the parent. */
  function Climb(stack: seq<string>, k: nat, rooted: bool): seq<string> {
    if k == 0 then stack else Enter(Climb(stack, k - 1, rooted), "..", rooted)
  }

  /** How many ".." a path starts with. */
  function Ups(parts: seq<string>): (k: nat)
    ensures k <= |parts|
  {
    if parts != [] && parts[0] == ".." then 1 + Ups(parts[1..]) else 0
  }

  function Rest(parts: seq<string>): seq<string> {
    parts[Ups(parts)..]
  }

  /** Where the clean path `p` leads from the clean path `base`. */
  function Placed(base: FilePath, p: FilePath): FilePath {
    if p.rooted then p
    else FilePath(base.rooted, Climb(base.parts, Ups(p.parts), base.rooted) + Rest(p.parts))
  }

  /** `k` times "..", and then `rest`, in which there is none. */
  predicate IsSplit(parts: seq<string>, k: nat, rest: seq<string>) {
    && |parts| == k + |rest| && parts[k..] == rest
    && (forall i :: 0 <= i < k ==> parts[i] == "..")
    && (forall i :: 0 <= i < |rest| ==> rest[i] != "..")
  }

  lemma {:induction false} SplitIsUps(parts: seq<string>, k: nat, rest: seq<string>)
    requires IsSplit(parts, k, rest)
    ensures Ups(parts) == k && Rest(parts) == rest
    decreases k
  {
    if k > 0 {
      SplitIsUps(parts[1..], k - 1, rest);
    } else if parts != [] {
      assert parts[0] == rest[0];
    }
  }

  /** From anywhere, a relative path climbs by its leading ".." and adds the rest of its clean parts. */
  lemma {:induction false} ResolveRelative(stack: seq<string>, parts: seq<string>, rooted: bool) returns (k: nat, rest: seq<string>)
    ensures IsSplit(Resolve([], parts, false), k, rest)
    ensures Resolve(stack, parts, rooted) == Climb(stack, k, rooted) + rest
    decreases |parts|
  {
    k, rest := 0, [];
    if parts != [] {
      var init := parts[..|parts| - 1];
      k, rest := ResolveRelative(stack, init, rooted);
      k, rest := EnterSplit(stack, Resolve([], init, false), k, rest, parts[|parts| - 1], rooted);
    }
  }

  /** One more part, seen from nowhere and from `stack`. */
  lemma EnterSplit(stack: seq<string>, r: seq<string>, k: nat, rest: seq<string>, part: string, rooted: bool)
    returns (k': nat, rest': seq<string>)
    requires IsSplit(r, k, rest)
    ensures IsSplit(Enter(r, part, false), k', rest')
    ensures Enter(Climb(stack, k, rooted) + rest, part, rooted) == Climb(stack, k', rooted) + rest'
  {
    var base := Climb(stack, k, rooted);
    k', rest' := k, rest;
    if part == "" || part == "." {
    } else if part != ".." {
      rest' := rest + [part];
      assert base + rest + [part] == base + rest';
    } else if rest != [] {
      rest' := LeaveOne(r, k, rest);
      LeaveAfter(base, rest, rooted);
    } else {
      assert base + [] == base && Climb(stack, k + 1, rooted) == Enter(base, "..", rooted);
      k' := k + 1;
    }
  }

  lemma LeaveAfter(base: seq<string>, rest: seq<string>, rooted: bool)
    requires rest != [] && rest[|rest| - 1] != ".."
    ensures Enter(base + rest, "..", rooted) == base + rest[..|rest| - 1]
  {
    var all := base + rest;
    assert all[|all| - 1] == rest[|rest| - 1];
    assert all[..|all| - 1] == base + rest[..|rest| - 1];
  }

  lemma LeaveOne(r: seq<string>, k: nat, rest: seq<string>) returns (rest': seq<string>)
    requires IsSplit(r, k, rest) && rest != []
    ensures rest' == rest[..|rest| - 1] && Enter(r, "..", false) == r[..|r| - 1] && IsSplit(r[..|r| - 1], k, rest')
  {
    rest' := rest[..|rest| - 1];
    assert r[|r| - 1] == rest[|rest| - 1];
  }

  lemma CleanSplit(p: string)
    requires !IsAbs(p)
    ensures IsSplit(Clean(p).parts, Ups(Clean(p).parts), Rest(Clean(p).parts))
  {
    var k, rest := ResolveRelative([], Split(p, '/'), false);
    SplitIsUps(Clean(p).parts, k, rest);
  }

  /** The file that an outputs path names below a base: an absolute one is itself. */
  function FileBelow(base: string, p: string): FilePath {
    if IsAbs(p) then Clean(p) else Join(base, p)
  }

  /** The place of a file depends on the clean forms of base and path alone. */
  lemma FileIsPlaced(base: string, p: string)
    ensures FileBelow(base, p) == Placed(Clean(base), Clean(p))
  {
    if !IsAbs(p) {
      var rooted := IsAbs(base);
      var stack := Clean(base).parts;
      var k, rest := ResolveRelative(stack, Split(p, '/'), rooted);
      SplitIsUps(Clean(p).parts, k, rest);
      EmptyIsNowhere();
      if base != "" && p != "" {
        SplitJoined(base, p, '/');
        assert base + "/" + p == base + ['/'] + p;
        ResolveAppend([], Split(base, '/'), Split(p, '/'), rooted);
      }
    }
  }

  lemma EmptyIsNowhere()
    ensures Split("", '/') == [""] && Clean("") == FilePath(false, [])
    ensures forall stack, rooted :: Resolve(stack, Split("", '/'), rooted) == stack
  {
    assert [""][..0] == [];
  }

  // ---------------------------------------------------------------------------------------
  // When two outputs paths name one file
  // ---------------------------------------------------------------------------------------

  /** `q` climbs out of the base further than `p`, and comes back down the same way to where `p` leads. */
  predicate Reenters(base: FilePath, p: FilePath, q: FilePath) {
    var high, low := Climb(base.parts, Ups(p.parts), base.rooted), Climb(base.parts, Ups(q.parts), base.rooted);
    low <= high && Rest(q.parts) == high[|low|..] + Rest(p.parts)
  }

  /**
   Two clean paths meet below a base: when they are equal; when one is absolute and spells out the base, less
   what the other climbs, and the rest of the other; or when one leaves the base and re-enters it.
   */
  predicate Coincide(base: FilePath, p: FilePath, q: FilePath) {
    if p.rooted && q.rooted then p == q
    else if p.rooted then base.rooted && p.parts == Climb(base.parts, Ups(q.parts), true) + Rest(q.parts)
    else if q.rooted then base.rooted && q.parts == Climb(base.parts, Ups(p.parts), true) + Rest(p.parts)
    else if Ups(p.parts) == Ups(q.parts) then p == q
    else if Ups(p.parts) < Ups(q.parts) then Reenters(base, p, q)
    else Reenters(base, q, p)
  }

  /** Below any base, two outputs paths name one file exactly when their clean forms coincide there. */
  lemma SameFileIff(base: string, p: string, q: string)
    ensures FileBelow(base, p) == FileBelow(base, q) <==> Coincide(Clean(base), Clean(p), Clean(q))
  {
    FileIsPlaced(base, p);
    FileIsPlaced(base, q);
    if !IsAbs(p) && !IsAbs(q) {
      CleanSplit(p);
      CleanSplit(q);
      RelativeMeet(Clean(base), Clean(p), Clean(q));
    }
  }

  lemma RelativeMeet(base: FilePath, p: FilePath, q: FilePath)
    requires !p.rooted && !q.rooted
    requires IsSplit(p.parts, Ups(p.parts), Rest(p.parts)) && IsSplit(q.parts, Ups(q.parts), Rest(q.parts))
    ensures Placed(base, p) == Placed(base, q) <==> Coincide(base, p, q)
  {
    if Ups(p.parts) == Ups(q.parts) {
      EvenMeet(base, p, q);
    } else if Ups(p.parts) < Ups(q.parts) {
      UnevenMeet(base, p, q);
    } else {
      UnevenMeet(base, q, p);
    }
  }

  lemma EvenMeet(base: FilePath, p: FilePath, q: FilePath)
    requires !p.rooted && !q.rooted && Ups(p.parts) == Ups(q.parts)
    requires IsSplit(p.parts, Ups(p.parts), Rest(p.parts)) && IsSplit(q.parts, Ups(q.parts), Rest(q.parts))
    ensures Placed(base, p) == Placed(base, q) <==> p == q
  {
    SuffixDecides(Climb(base.parts, Ups(p.parts), base.rooted), Rest(p.parts), Rest(q.parts));
    if Rest(p.parts) == Rest(q.parts) { SplitDecides(p.parts, q.parts, Ups(p.parts), Rest(p.parts)); }
  }

  lemma UnevenMeet(base: FilePath, p: FilePath, q: FilePath)
    requires !p.rooted && !q.rooted && Ups(p.parts) < Ups(q.parts)
    requires IsSplit(p.parts, Ups(p.parts), Rest(p.parts))
    ensures Placed(base, p) == Placed(base, q) <==> Reenters(base, p, q)
  {
    var k, m := Ups(p.parts), Ups(q.parts) - Ups(p.parts);
    ClimbTwice(base.parts, k, m, base.rooted);
    HigherMeets(Climb(base.parts, k, base.rooted), m, base.rooted, Rest(p.parts), Rest(q.parts));
  }

  lemma SuffixDecides(stack: seq<string>, a: seq<string>, b: seq<string>)
    ensures stack + a == stack + b <==> a == b
  {
    assert (stack + a)[|stack|..] == a && (stack + b)[|stack|..] == b;
  }

  lemma SplitDecides(a: seq<string>, b: seq<string>, k: nat, rest: seq<string>)
    requires IsSplit(a, k, rest) && IsSplit(b, k, rest)
    ensures a == b
  {
    assert a[..k] == b[..k];
    assert a == a[..k] + a[k..] && b == b[..k] + b[k..];
  }

  lemma {:induction false} ClimbTwice(stack: seq<string>, k: nat, m: nat, rooted: bool)
    ensures Climb(stack, k + m, rooted) == Climb(Climb(stack, k, rooted), m, rooted)
    decreases m
  {
    if m > 0 { ClimbTwice(stack, k, m - 1, rooted); }
  }

  /** Whatever climbing puts above a path is "..". */
  lemma {:induction false} ClimbAbove(stack: seq<string>, m: nat, rooted: bool)
    ensures forall i :: |stack| <= i < |Climb(stack, m, rooted)| ==> Climb(stack, m, rooted)[i] == ".."
    decreases m
  {
    if m > 0 { ClimbAbove(stack, m - 1, rooted); }
  }

  lemma HigherMeets(high: seq<string>, m: nat, rooted: bool, a: seq<string>, b: seq<string>)
    requires forall i :: 0 <= i < |a| ==> a[i] != ".."
    ensures
      var low := Climb(high, m, rooted);
      high + a == low + b <==> low <= high && b == high[|low|..] + a
  {
    var low := Climb(high, m, rooted);
    ClimbAbove(high, m, rooted);
    if |low| <= |high| {
      Overlap(high, low, a, b);
    } else if a != [] {
      assert (high + a)[|high|] == a[0] && (low + b)[|high|] == low[|high|];
    }
  }

  lemma Overlap(high: seq<string>, low: seq<string>, a: seq<string>, b: seq<string>)
    requires |low| <= |high|
    ensures high + a == low + b <==> low <= high && b == high[|low|..] + a
  {
    assert (high + a)[..|low|] == high[..|low|] && (low + b)[..|low|] == low;
    assert (high + a)[|low|..] == high[|low|..] + a && (low + b)[|low|..] == b;
    assert high + a == (high + a)[..|low|] + (high + a)[|low|..];
    assert low + b == (low + b)[..|low|] + (low + b)[|low|..];
  }

  /** Below an absolute base, k leading ".." drop k parts of the base. */
  lemma {:induction false} ClimbRooted(parts: seq<string>, k: nat)
    requires forall i :: 0 <= i < |parts| ==> parts[i] != ".."
    ensures Climb(parts, k, true) == parts[..if k <= |parts| then |parts| - k else 0]
    decreases k
  {
    if k > 0 {
      ClimbRooted(parts, k - 1);
      assert k - 1 >= |parts| ==> Climb(parts, k - 1, true) == [];
    }
  }

  /** Relative, and never above where it starts. */
  predicate IsLocal(p: string) {
    !IsAbs(p) && Ups(Clean(p).parts) == 0
  }

  /** Local paths name one file exactly when their clean forms agree. */
  lemma LocalMeetIffSameClean(base: string, p: string, q: string)
    requires IsLocal(p) && IsLocal(q)
    ensures FileBelow(base, p) == FileBelow(base, q) <==> Clean(p) == Clean(q)
  {
    SameFileIff(base, p, q);
  }

  // ---------------------------------------------------------------------------------------
  // Roots
  // ---------------------------------------------------------------------------------------

  const WORKDIR := "DOCKPIPE_WORKDIR"
  const WORKFLOW_NAME := "DOCKPIPE_WORKFLOW_NAME"
  const SOURCE_ROOT := "DOCKPIPE_SOURCE_ROOT"
  const ARTIFACT_ROOT := "DOCKPIPE_ARTIFACT_ROOT"
  const OUTPUT_ROOT := "DOCKPIPE_OUTPUT_ROOT"
  const STEP_CWD := "DOCKPIPE_STEP_CWD"
  const DEFAULT_OUTPUTS := "outputs.env"

  /** What a run is given; `abs`, `artifactRoot` and `canMake` stand for the file-system helpers. */
  datatype Config = Config(
    workdir: string, projectRoot: string, repoRoot: string, cwd: string, scopeHint: string,
    abs: string -> Option<string>, artifactRoot: (string, string) -> Option<string>, canMake: string -> bool)

  datatype Scope = Source | Artifacts

  datatype Scopes = Scopes(source: Scope, artifacts: Scope, cwd: Scope)

  const DEFAULT_SCOPES := Scopes(Source, Artifacts, Source)

  function SetIfBlank(env: Env, k: string, v: string): Env {
    if Blank(Get(env, k)) then env[k := v] else env
  }

  /** applyWorkflowArtifactEnv, without the names of the event files. */
  function WorkflowArtifactEnv(c: Config, env: Env, workdir: string, name: string): Option<Env> {
    if Blank(workdir) then Some(env)
    else
      var source := c.abs(TrimSpace(workdir));
      if source.None? then None
      else if !Blank(Get(env, ARTIFACT_ROOT)) then
        Some(SetIfBlank(env, SOURCE_ROOT, source.value))
      else
        var root := c.artifactRoot(source.value, name);
        if root.None? then None
        else Some(SetIfBlank(env[ARTIFACT_ROOT := root.value], SOURCE_ROOT, source.value))
  }

  function ScopeRoot(scope: Scope, source: string, artifacts: string): string {
    if scope == Artifacts then artifacts else source
  }

  function SetUnlocked(env: Env, k: string, v: string, locked: set<string>): Env {
    if k in locked then env else env[k := v]
  }

  function SourceCandidate(c: Config, env: Env): string {
    FirstNonBlank([Get(env, WORKDIR), c.workdir, c.projectRoot, c.repoRoot, c.cwd])
  }

  /** applyStepCWDEnv; None when a helper fails. */
  function StepCwdEnv(c: Config, env: Env, scopes: Scopes, locked: set<string>): Option<Env> {
    var workdir := SourceCandidate(c, env);
    if Blank(workdir) then Some(env)
    else
      var env1 := WorkflowArtifactEnv(c, env, workdir, FirstNonBlank([Get(env, WORKFLOW_NAME), c.scopeHint]));
      if env1.None? then None
      else
        var source, artifacts := Get(env1.value, SOURCE_ROOT), Get(env1.value, ARTIFACT_ROOT);
        var cwd := ScopeRoot(scopes.cwd, source, artifacts);
        if scopes.cwd == Artifacts && !c.canMake(cwd) then None
        else Some(WithRoots(env1.value, ScopeRoot(scopes.source, source, artifacts), ScopeRoot(scopes.artifacts, source, artifacts), cwd, locked))
  }

  function WithRoots(env: Env, source: string, artifacts: string, cwd: string, locked: set<string>): Env {
    SetUnlocked(SetUnlocked(SetUnlocked(SetUnlocked(env, SOURCE_ROOT, source, locked),
      ARTIFACT_ROOT, artifacts, locked), OUTPUT_ROOT, artifacts, locked), STEP_CWD, cwd, locked)
  }

  function OutputsBase(c: Config, env: Env): string {
    var base := FirstNonBlank([Get(env, OUTPUT_ROOT), Get(env, ARTIFACT_ROOT), Get(env, STEP_CWD), Get(env, WORKDIR), c.workdir]);
    if base == "" then c.cwd else base
  }

  function OutputsPath(outputs: string): string {
    if outputs != "" then outputs else DEFAULT_OUTPUTS
  }

  function OutputsFile(c: Config, outputs: string, env: Env): FilePath {
    FileBelow(OutputsBase(c, env), OutputsPath(outputs))
  }

  const PATH_KEYS: set<string> := {OUTPUT_ROOT, ARTIFACT_ROOT, STEP_CWD, WORKDIR}

  /** The environments agree on every key that the place of an outputs file depends on. */
  predicate SamePathKeys(env: Env, env': Env) {
    forall k :: k in PATH_KEYS ==> Get(env, k) == Get(env', k)
  }

  lemma SameKeysSameFile(c: Config, outputs: string, env: Env, env': Env)
    requires SamePathKeys(env, env')
    ensures OutputsFile(c, outputs, env) == OutputsFile(c, outputs, env')
  {
    assert OUTPUT_ROOT in PATH_KEYS && ARTIFACT_ROOT in PATH_KEYS && STEP_CWD in PATH_KEYS && WORKDIR in PATH_KEYS;
  }
}
