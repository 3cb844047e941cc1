/** Step environments and the merge of a step's outputs file (workflow_env.go). */
module StepEnv {
  import opened Text
  import opened StepPaths

  // ---------------------------------------------------------------------------------------
  // Keys named with --var
  // ---------------------------------------------------------------------------------------

  function KeyOf(line: string): string {
    var at := IndexOf(line, '=');
    TrimSpace(if at.None? then line else line[..at.value])
  }

  function ValueOf(line: string): string {
    var at := IndexOf(line, '=');
    TrimSpace(if at.None? then "" else line[at.value + 1..])
  }

  /** The environment after the --var overrides, in order. */
  function WithOverrides(env: Env, lines: seq<string>): Env {
    if lines == [] then env else WithOverrides(env, lines[..|lines| - 1])[KeyOf(lines[|lines| - 1]) := ValueOf(lines[|lines| - 1])]
  }

  /** A line is cut at its first '='; without one it is all key. */
  lemma LineParts(k: string, v: string)
    requires '=' !in k
    ensures KeyOf(k + "=" + v) == TrimSpace(k) && ValueOf(k + "=" + v) == TrimSpace(v)
    ensures KeyOf(k) == TrimSpace(k) && ValueOf(k) == ""
  {
    IndexOfFirst(k, '=', v);
    var line := k + "=" + v;
    assert line[..|k|] == k && line[|k| + 1..] == v;
  }

  method LockedKeys(lines: seq<string>) returns (locked: set<string>)
    ensures forall k :: k in locked <==> exists i :: 0 <= i < |lines| && KeyOf(lines[i]) == k
  {
    locked := {};
    for i := 0 to |lines|
      invariant forall k :: k in locked <==> exists j :: 0 <= j < i && KeyOf(lines[j]) == k
    {
      locked := locked + {KeyOf(lines[i])};
    }
  }

  // ---------------------------------------------------------------------------------------
  // Secrets
  // ---------------------------------------------------------------------------------------

  predicate HasSuffix(s: string, suffix: string) {
    |suffix| <= |s| && s[|s| - |suffix|..] == suffix
  }

  predicate IsSecretKey(k: string) {
    var u := Upper(TrimSpace(k));
    HasSuffix(u, "_API_KEY") || HasSuffix(u, "_TOKEN") || u in {"GIT_PAT", "GITHUB_TOKEN", "GITHUB_PAT", "GITLAB_TOKEN"}
  }

  /** Writing `v` would wipe a secret that has a value. */
  predicate WipesSecret(env: Env, k: string, v: string) {
    Blank(v) && !Blank(Get(env, k)) && IsSecretKey(k)
  }

  lemma FoldsToUpper(s: string, u: string)
    requires forall i :: 0 <= i < |u| ==> !('a' <= u[i] <= 'z')
    ensures EqualFold(s, u) <==> Upper(s) == u
  {
    if |s| == |u| {
      forall i | 0 <= i < |s| ensures Lower(s[i]) == Lower(u[i]) <==> Upper(s)[i] == u[i] {}
    }
  }

  /** `s` ends in `tail`, in whatever case. */
  predicate EndsIn(s: string, tail: string) {
    |tail| <= |s| && EqualFold(s[|s| - |tail|..], tail)
  }

  lemma SuffixIff(s: string, tail: string)
    requires forall i :: 0 <= i < |tail| ==> !('a' <= tail[i] <= 'z')
    ensures HasSuffix(Upper(s), tail) <==> EndsIn(s, tail)
  {
    if |tail| <= |s| {
      FoldsToUpper(s[|s| - |tail|..], tail);
      assert Upper(s)[|s| - |tail|..] == Upper(s[|s| - |tail|..]);
    }
  }

  lemma SecretNames()
    ensures forall i :: 0 <= i < |"_API_KEY"| ==> !('a' <= "_API_KEY"[i] <= 'z')
    ensures forall i :: 0 <= i < |"_TOKEN"| ==> !('a' <= "_TOKEN"[i] <= 'z')
    ensures forall i :: 0 <= i < |"GIT_PAT"| ==> !('a' <= "GIT_PAT"[i] <= 'z')
    ensures forall i :: 0 <= i < |"GITHUB_PAT"| ==> !('a' <= "GITHUB_PAT"[i] <= 'z')
  {
  }

  /** Which keys count as secrets, in whatever case and with whatever blanks around them. */
  lemma SecretIff(k: string)
    ensures IsSecretKey(k) <==>
            var name := TrimSpace(k);
            EndsIn(name, "_API_KEY") || EndsIn(name, "_TOKEN") || EqualFold(name, "GIT_PAT") || EqualFold(name, "GITHUB_PAT")
  {
    var name := TrimSpace(k);
    SecretNames();
    SuffixIff(name, "_API_KEY");
    SuffixIff(name, "_TOKEN");
    FoldsToUpper(name, "GIT_PAT");
    FoldsToUpper(name, "GITHUB_PAT");
    TokensEndInToken();
  }

  lemma TokensEndInToken()
    ensures HasSuffix("GITHUB_TOKEN", "_TOKEN") && HasSuffix("GITLAB_TOKEN", "_TOKEN")
  {
    assert "GITHUB_TOKEN"[6..] == "_TOKEN" && "GITLAB_TOKEN"[6..] == "_TOKEN";
  }

  // ---------------------------------------------------------------------------------------
  // Merging one outputs file
  // ---------------------------------------------------------------------------------------

  /** Whether the merge takes key `k` of `m` over. */
  predicate Takes(env: Env, m: Env, locked: set<string>, k: string) {
    k in m && k !in locked && !WipesSecret(env, k, m[k])
  }

  /** `target` with every key of `m` that the merge into `env` takes over. */
  function Overlay(target: Env, env: Env, m: Env, locked: set<string>): Env {
    map k | k in target.Keys + m.Keys && (k in target || Takes(env, m, locked, k)) ::
      if Takes(env, m, locked, k) then m[k] else target[k]
  }

  /** What parsing a file gives. */
  datatype Outputs = Unreadable | Lines(vars: Env)

  type Files = map<FilePath, Outputs>

  datatype Shared = Shared(env: Env, docker: Env, files: Files)

  /** The lines that a merge of `path` consumes: none when the file is missing, unreadable or empty. */
  function Consumed(files: Files, path: FilePath): Env {
    if path in files && files[path].Lines? then files[path].vars else map[]
  }

  function Applied(s: Shared, path: FilePath, locked: set<string>): Shared {
    var m := Consumed(s.files, path);
    if m == map[] then s
    else Shared(Overlay(s.env, s.env, m, locked), Overlay(s.docker, s.env, m, locked), s.files - {path})
  }

  /** The merge of a batch: one file after the other, each found through the environment as it is by then. */
  function Merged(c: Config, s: Shared, outs: seq<string>, locked: set<string>): Shared
    decreases outs
  {
    if outs == [] then s else Merged(c, Applied(s, OutputsFile(c, outs[0], s.env), locked), outs[1..], locked)
  }

  /** The environment maps and the files that the steps of a workflow share. */
  class Session {
    var env: Env
    var docker: Env
    var files: Files
    const locked: set<string>

    constructor (env: Env, docker: Env, files: Files, locked: set<string>)
      ensures State() == Shared(env, docker, files) && this.locked == locked
    {
      this.env, this.docker, this.files, this.locked := env, docker, files, locked;
    }

    function State(): Shared
      reads this
    {
      Shared(env, docker, files)
    }

    /** The keys of the file are visited in any order. */
    method ApplyOutputsFile(path: FilePath)
      modifies this
      ensures State() == Applied(old(State()), path, locked)
    {
      if path !in files || files[path].Unreadable? {
        return;
      }
      var m := files[path].vars;
      if |m| == 0 {
        return;
      }
      var rest := m.Keys;
      while rest != {}
        invariant rest <= m.Keys && files == old(files)
        invariant Transferred(env, old(env), old(env), m, rest, locked)
        invariant Transferred(docker, old(docker), old(env), m, rest, locked)
      {
        var k :| k in rest;
        TransferredStep(env, old(env), old(env), m, rest, locked, k);
        TransferredStep(docker, old(docker), old(env), m, rest, locked, k);
        assert WipesSecret(env, k, m[k]) == WipesSecret(old(env), k, m[k]);
        if k !in locked && !WipesSecret(env, k, m[k]) {
          env := env[k := m[k]];
          docker := docker[k := m[k]];
        }
        rest := rest - {k};
      }
      TransferredAll(env, old(env), old(env), m, locked);
      TransferredAll(docker, old(docker), old(env), m, locked);
      files := files - {path};
    }

    method MergeOutputs(c: Config, outs: seq<string>)
      modifies this
      ensures State() == Merged(c, old(State()), outs, locked)
    {
      var i := 0;
      while i < |outs|
        invariant 0 <= i <= |outs|
        invariant Merged(c, State(), outs[i..], locked) == Merged(c, old(State()), outs, locked)
      {
        assert outs[i..][0] == outs[i] && outs[i..][1..] == outs[i + 1..];
        ApplyOutputsFile(OutputsFile(c, outs[i], env));
        i := i + 1;
      }
    }
  }

  /** `now` is `target` with the keys of `m` outside `rest` merged in. */
  ghost predicate Transferred(now: Env, target: Env, env: Env, m: Env, rest: set<string>, locked: set<string>) {
    forall k :: if k !in rest && Takes(env, m, locked, k) then k in now && now[k] == m[k]
                else (k in now <==> k in target) && (k in target ==> now[k] == target[k])
  }

  lemma TransferredStep(now: Env, target: Env, env: Env, m: Env, rest: set<string>, locked: set<string>, k: string)
    requires Transferred(now, target, env, m, rest, locked) && k in rest && k in m
    ensures Transferred(if Takes(env, m, locked, k) then now[k := m[k]] else now, target, env, m, rest - {k}, locked)
  {
  }

  lemma TransferredAll(now: Env, target: Env, env: Env, m: Env, locked: set<string>)
    requires Transferred(now, target, env, m, {}, locked)
    ensures now == Overlay(target, env, m, locked)
  {
    assert forall k :: k in now <==> k in Overlay(target, env, m, locked);
  }

  // ---------------------------------------------------------------------------------------
  // What merges never do
  // ---------------------------------------------------------------------------------------

  lemma {:induction false} MergeKeepsLocked(c: Config, s: Shared, outs: seq<string>, locked: set<string>, k: string)
    requires k in locked
    ensures k in Merged(c, s, outs, locked).env <==> k in s.env
    ensures k in s.env ==> Merged(c, s, outs, locked).env[k] == s.env[k]
    decreases outs
  {
    if outs != [] {
      MergeKeepsLocked(c, Applied(s, OutputsFile(c, outs[0], s.env), locked), outs[1..], locked, k);
    }
  }

  lemma {:induction false} MergeKeepsSecrets(c: Config, s: Shared, outs: seq<string>, locked: set<string>, k: string)
    requires IsSecretKey(k) && !Blank(Get(s.env, k))
    ensures !Blank(Get(Merged(c, s, outs, locked).env, k))
    decreases outs
  {
    if outs != [] {
      MergeKeepsSecrets(c, Applied(s, OutputsFile(c, outs[0], s.env), locked), outs[1..], locked, k);
    }
  }

  lemma {:induction false} OverrideIsLast(env: Env, lines: seq<string>, i: nat)
    requires i < |lines| && forall j :: i < j < |lines| ==> KeyOf(lines[j]) != KeyOf(lines[i])
    ensures KeyOf(lines[i]) in WithOverrides(env, lines) && WithOverrides(env, lines)[KeyOf(lines[i])] == ValueOf(lines[i])
  {
    if i < |lines| - 1 {
      var init := lines[..|lines| - 1];
      assert forall j :: i < j < |init| ==> KeyOf(init[j]) != KeyOf(init[i]);
      OverrideIsLast(env, init, i);
    }
  }

  /** The last --var for a key decides its value, whatever any batch outputs: `--var K=V` leaves V, both trimmed. */
  lemma VarLineSurvives(
      c: Config, env: Env, docker: Env, files: Files, lines: seq<string>, locked: set<string>, i: nat, k: string, v: string, outs: seq<string>)
    requires forall k :: k in locked <==> exists j :: 0 <= j < |lines| && KeyOf(lines[j]) == k
    requires i < |lines| && lines[i] == k + "=" + v && '=' !in k
    requires forall j :: i < j < |lines| ==> KeyOf(lines[j]) != TrimSpace(k)
    ensures
      var final := Merged(c, Shared(WithOverrides(env, lines), docker, files), outs, locked).env;
      TrimSpace(k) in final && final[TrimSpace(k)] == TrimSpace(v)
  {
    LineParts(k, v);
    VarSurvivesMerge(c, env, docker, files, lines, locked, i, outs);
  }

  /** The last --var for a key decides its value, whatever any batch outputs. */
  lemma VarSurvivesMerge(c: Config, env: Env, docker: Env, files: Files, lines: seq<string>, locked: set<string>, i: nat, outs: seq<string>)
    requires forall k :: k in locked <==> exists j :: 0 <= j < |lines| && KeyOf(lines[j]) == k
    requires i < |lines| && forall j :: i < j < |lines| ==> KeyOf(lines[j]) != KeyOf(lines[i])
    ensures
      var final := Merged(c, Shared(WithOverrides(env, lines), docker, files), outs, locked).env;
      KeyOf(lines[i]) in final && final[KeyOf(lines[i])] == ValueOf(lines[i])
  {
    OverrideIsLast(env, lines, i);
    MergeKeepsLocked(c, Shared(WithOverrides(env, lines), docker, files), outs, locked, KeyOf(lines[i]));
  }
}
