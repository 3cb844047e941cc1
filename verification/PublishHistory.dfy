/** The version checks of publication over whole histories, together with version selection. */
module PublishHistory {
  import opened Outcomes
  import opened Text
  import opened Ordering
  import opened ReleaseVersion
  import opened Publish
  import opened PublishTheorems
  import opened ReleaseNames

  // ---------------------------------------------------------------------------------------
  // A selected version passes the store checks
  // ---------------------------------------------------------------------------------------

  lemma FormatRanks(v: Triple)
    ensures Rank(Format(v)) == Some(v)
  {
    FormatParses(v);
  }

  lemma {:induction false} SplitCovers(s: string, c: char, d: char)
    requires d in s && d != c
    ensures exists i :: 0 <= i < |Split(s, c)| && d in Split(s, c)[i]
    decreases |s|
  {
    var at := IndexOf(s, c);
    if at.None? {
      assert d in Split(s, c)[0];
    } else {
      var rest := s[at.value + 1..];
      assert s == s[..at.value] + [c] + rest;
      if d in s[..at.value] {
        assert d in Split(s, c)[0];
      } else {
        SplitCovers(rest, c, d);
        var i :| 0 <= i < |Split(rest, c)| && d in Split(rest, c)[i];
        assert Split(s, c)[i + 1] == Split(rest, c)[i];
      }
    }
  }

  lemma RankedHasNoDash(version: string)
    requires Rank(version).Some?
    ensures '-' !in version
  {
    if '-' in version {
      SplitCovers(version, '.', '-');
      assert forall i :: 0 <= i < 3 ==> IsNumeral(Split(version, '.')[i]);
    }
  }

  lemma CandidateVersion(candidate: string, v: string, w: string)
    requires Rank(v).Some? && Rank(w).Some? && CandidateOf(candidate, v) && CandidateOf(candidate, w)
    ensures v == w
  {
    DashPlace(candidate, v);
    DashPlace(candidate, w);
  }

  lemma DashPlace(candidate: string, v: string)
    requires Rank(v).Some? && CandidateOf(candidate, v)
    ensures IndexOf(candidate, '-') == Some(|v|) && candidate[..|v|] == v
  {
    RankedHasNoDash(v);
    var rest := candidate[|v| + 1..];
    assert candidate == candidate[..|v| + 1] + rest == v + ['-'] + rest;
    IndexOfFirst(v, '-', rest);
  }

  /** Admissible releases with one version prefix have one version. */
  lemma PrefixFixesVersion(prefix: Key, r: Release, r0: Release)
    requires InputCheck(prefix, r).None? && InputCheck(prefix, r0).None? && VersionPrefix(prefix, r) == VersionPrefix(prefix, r0)
    ensures r.version == r0.version
  {
    var v, v0 := VersionPrefix(prefix, r), VersionPrefix(prefix, r0);
    assert v[|prefix|] == Directory(r) && v0[|prefix|] == Directory(r0);
    assert v[|prefix| + 1] == Identity(r) && v0[|prefix| + 1] == Identity(r0);
    assert "releases"[0] == 'r' && "candidates"[0] == 'c';
    if r.candidate != "" { CandidateVersion(r.candidate, r.version, r0.version); }
  }

  /** Every version that a run was made for is among the tags. */
  ghost predicate AllTagged(w: World, tags: seq<string>) {
    forall j :: 0 <= j < |w.begun| ==> TaggedAs(tags, w.begun[j].version)
  }

  ghost predicate TaggedAs(tags: seq<string>, version: string) {
    exists t :: t in tags && Released(t).Some? && Released(t) == Rank(version)
  }

  lemma TaggedIsBelow(base: string, tags: seq<string>, v: Triple, version: string)
    requires Answers(base, tags, Ok(v)) && TaggedAs(tags, version)
    ensures Rank(version).Some? && Less(Rank(version).value, v)
  {
    var t :| t in tags && Released(t).Some? && Released(t) == Rank(version);
    ExceedsEveryTag(base, tags, v, t);
  }

  /** The forward check passes whenever the version it reads from the store is tagged. */
  lemma SelectedPassesForward(store: Store, prefix: Key, r: Release, base: string, tags: seq<string>, v: Triple)
    requires Answers(base, tags, Ok(v)) && r.version == Format(v)
    requires CheckedKey(prefix) in store ==> store[CheckedKey(prefix)].Pointer? && TaggedAs(tags, store[CheckedKey(prefix)].version)
    ensures Rank(r.version) == Some(v)
    ensures StoreCheck(store, prefix, r) == if ManifestKey(prefix, r) in store then Some(AlreadyPublished) else None
  {
    FormatRanks(v);
    if CheckedKey(prefix) in store { TaggedIsBelow(base, tags, v, store[CheckedKey(prefix)].version); }
  }

  /**
   After any history whose versions are all tagged, a release of the selected version is refused only for
   its own inputs: its manifest is not there yet, and the pointer, if any, lies below it.
   */
  lemma SelectedIsAdmitted(
      prefix: Key, ws: seq<World>, xs: seq<Step>, n: nat, r: Release, base: string, tags: seq<string>, v: Triple)
    requires PrefixClear(prefix) && IsHistory(prefix, ws, xs) && n < |ws| && AllTagged(ws[n], tags)
    requires Answers(base, tags, Ok(v)) && r.version == Format(v)
    ensures Check(ws[n].store, prefix, r) == InputCheck(prefix, r)
  {
    CheckedIsTagged(prefix, ws, xs, n, tags);
    SelectedPassesForward(ws[n].store, prefix, r, base, tags, v);
    if InputCheck(prefix, r).None? && ManifestKey(prefix, r) in ws[n].store {
      NotYetPublished(prefix, ws, xs, n, r, base, tags, v);
    }
  }

  lemma CheckedIsTagged(prefix: Key, ws: seq<World>, xs: seq<Step>, n: nat, tags: seq<string>)
    requires PrefixClear(prefix) && IsHistory(prefix, ws, xs) && n < |ws| && AllTagged(ws[n], tags)
    ensures
      var k, store := CheckedKey(prefix), ws[n].store;
      k in store ==> store[k].Pointer? && TaggedAs(tags, store[k].version)
  {
    if prefix == [] {
      NeverChecked(ws, xs, n);
    } else if LatestKey(prefix) in ws[n].store {
      PointerNamesAManifest(prefix, ws, xs, n);
      var p := ws[n].store[LatestKey(prefix)];
      var j: nat :| NamesRun(prefix, ws[n], p.version, p.manifest, j);
      assert TaggedAs(tags, ws[n].begun[j].version);
    }
  }

  lemma NotYetPublished(
      prefix: Key, ws: seq<World>, xs: seq<Step>, n: nat, r: Release, base: string, tags: seq<string>, v: Triple)
    requires PrefixClear(prefix) && IsHistory(prefix, ws, xs) && n < |ws| && AllTagged(ws[n], tags)
    requires Answers(base, tags, Ok(v)) && r.version == Format(v) && InputCheck(prefix, r).None?
    ensures ManifestKey(prefix, r) !in ws[n].store
  {
    if ManifestKey(prefix, r) in ws[n].store {
      var j := PublishedBy(prefix, ws, xs, n, r);
      PrefixFixesVersion(prefix, ws[n].begun[j], r);
      TaggedIsBelow(base, tags, v, r.version);
      FormatRanks(v);
      assert false;
    }
  }

  lemma PublishedBy(prefix: Key, ws: seq<World>, xs: seq<Step>, n: nat, r: Release) returns (j: nat)
    requires PrefixClear(prefix) && IsHistory(prefix, ws, xs) && n < |ws| && ManifestKey(prefix, r) in ws[n].store
    ensures j < |ws[n].begun| && InputCheck(prefix, ws[n].begun[j]).None?
    ensures VersionPrefix(prefix, ws[n].begun[j]) == VersionPrefix(prefix, r)
  {
    HistoryInv(prefix, ws, xs, n);
    j :| CompletedBy(prefix, ws[n], r, j);
  }

  // ---------------------------------------------------------------------------------------
  // The empty prefix
  // ---------------------------------------------------------------------------------------

  lemma NotCheckedKey(r: Release, i: nat)
    requires Listing(r.artifacts) && Listing(r.apt) && i < |Plan([], r)|
    ensures Plan([], r)[i].key != CheckedKey([])
  {
    PlanKeys([], r, i);
    var k := Plan([], r)[i].key;
    assert CheckedKey([])[0] == "" && LatestKey([])[0] == LATEST;
    assert VersionPrefix([], r)[0] == Directory(r) && ManifestKey([], r)[0] == Directory(r);
    if Under(k, VersionPrefix([], r)) { assert k[..|VersionPrefix([], r)|][0] == k[0]; }
  }

  /** With an empty prefix no run ever writes the key that the forward check reads. */
  lemma {:induction false} NeverChecked(ws: seq<World>, xs: seq<Step>, n: nat)
    requires IsHistory([], ws, xs) && n < |ws|
    ensures CheckedKey([]) !in ws[n].store
  {
    if n > 0 {
      NeverChecked(ws, xs, n - 1);
      NeverCheckedStep(ws, xs, n - 1);
    }
  }

  lemma NeverCheckedStep(ws: seq<World>, xs: seq<Step>, n: nat)
    requires IsHistory([], ws, xs) && n < |xs| && CheckedKey([]) !in ws[n].store
    ensures CheckedKey([]) !in ws[n + 1].store
  {
    HistoryInv([], ws, xs, n);
    if xs[n].Send? { NotCheckedKey(Last(ws[n]), ws[n].sent); }
  }

  /** The store of `w` after the first `n` uploads of a run of `r`. */
  function Partway(prefix: Key, w: World, r: Release, n: nat): World
    requires n <= |Plan(prefix, r)|
  {
    World(PutAll(w.store, Plan(prefix, r)[..n]), w.begun + [r], n, true)
  }

  lemma PartwayStep(prefix: Key, w: World, r: Release, n: nat)
    requires n < |Plan(prefix, r)|
    ensures Enabled(prefix, Partway(prefix, w, r, n), Send)
    ensures Apply(prefix, Partway(prefix, w, r, n), Send) == Partway(prefix, w, r, n + 1)
  {
    PutAllNext(w.store, Plan(prefix, r), n);
  }

  lemma Extend(prefix: Key, ws: seq<World>, xs: seq<Step>, x: Step, w: World) returns (ws': seq<World>, xs': seq<Step>)
    requires IsHistory(prefix, ws, xs) && Enabled(prefix, ws[|xs|], x) && Apply(prefix, ws[|xs|], x) == w
    ensures IsHistory(prefix, ws', xs') && Continues(ws, ws') && ws'[|ws'| - 1] == w && |ws| < |ws'|
  {
    ws', xs' := ws + [w], xs + [x];
    forall n | 0 <= n < |xs'| ensures Enabled(prefix, ws'[n], xs'[n]) && ws'[n + 1] == Apply(prefix, ws'[n], xs'[n]) {
      if n < |xs| { assert ws'[n] == ws[n] && ws'[n + 1] == ws[n + 1] && xs'[n] == xs[n]; }
    }
  }

  predicate Continues(ws: seq<World>, ws': seq<World>) {
    |ws| <= |ws'| && ws'[..|ws|] == ws
  }

  lemma ContinuesTransitive(a: seq<World>, b: seq<World>, c: seq<World>)
    requires Continues(a, b) && Continues(b, c)
    ensures Continues(a, c)
  {
    assert c[..|a|] == c[..|b|][..|a|];
  }

  lemma {:induction false} SendUpTo(prefix: Key, ws: seq<World>, xs: seq<Step>, w: World, r: Release, n: nat)
    returns (ws': seq<World>, xs': seq<Step>)
    requires IsHistory(prefix, ws, xs) && n <= |Plan(prefix, r)| && ws[|ws| - 1] == Partway(prefix, w, r, 0)
    ensures IsHistory(prefix, ws', xs') && Continues(ws, ws') && ws'[|ws'| - 1] == Partway(prefix, w, r, n)
    decreases n
  {
    if n == 0 {
      ws', xs' := ws, xs;
    } else {
      ws', xs' := SendUpTo(prefix, ws, xs, w, r, n - 1);
      ws', xs' := SendOne(prefix, ws, ws', xs', w, r, n - 1);
    }
  }

  lemma SendOne(prefix: Key, base: seq<World>, ws: seq<World>, xs: seq<Step>, w: World, r: Release, n: nat)
    returns (ws': seq<World>, xs': seq<Step>)
    requires IsHistory(prefix, ws, xs) && n < |Plan(prefix, r)| && ws[|ws| - 1] == Partway(prefix, w, r, n) && Continues(base, ws)
    ensures IsHistory(prefix, ws', xs') && Continues(base, ws') && ws'[|ws'| - 1] == Partway(prefix, w, r, n + 1)
  {
    PartwayStep(prefix, w, r, n);
    ws', xs' := Extend(prefix, ws, xs, Send, Partway(prefix, w, r, n + 1));
    ContinuesTransitive(base, ws, ws');
  }

  /** The world after a run that went through. */
  function Finished(prefix: Key, w: World, r: Release): World {
    Partway(prefix, w, r, |Plan(prefix, r)|).(live := false)
  }

  /** An admitted run can go through to its end. */
  lemma RunThrough(prefix: Key, ws: seq<World>, xs: seq<Step>, r: Release) returns (ws': seq<World>, xs': seq<Step>)
    requires IsHistory(prefix, ws, xs) && Enabled(prefix, ws[|ws| - 1], Begin(r))
    ensures IsHistory(prefix, ws', xs') && Continues(ws, ws') && ws'[|ws'| - 1] == Finished(prefix, ws[|ws| - 1], r)
  {
    var ws1, xs1 := BeginRun(prefix, ws, xs, r);
    ws', xs' := RestOfRun(prefix, ws1, xs1, ws[|ws| - 1], r);
    ContinuesTransitive(ws, ws1, ws');
  }

  lemma BeginRun(prefix: Key, ws: seq<World>, xs: seq<Step>, r: Release) returns (ws': seq<World>, xs': seq<Step>)
    requires IsHistory(prefix, ws, xs) && Enabled(prefix, ws[|ws| - 1], Begin(r))
    ensures IsHistory(prefix, ws', xs') && Continues(ws, ws') && ws'[|ws'| - 1] == Partway(prefix, ws[|ws| - 1], r, 0)
  {
    assert Plan(prefix, r)[..0] == [];
    ws', xs' := Extend(prefix, ws, xs, Begin(r), Partway(prefix, ws[|ws| - 1], r, 0));
  }

  lemma RestOfRun(prefix: Key, ws: seq<World>, xs: seq<Step>, w: World, r: Release) returns (ws': seq<World>, xs': seq<Step>)
    requires IsHistory(prefix, ws, xs) && ws[|ws| - 1] == Partway(prefix, w, r, 0)
    ensures IsHistory(prefix, ws', xs') && Continues(ws, ws') && ws'[|ws'| - 1] == Finished(prefix, w, r)
  {
    var ws1, xs1 := SendUpTo(prefix, ws, xs, w, r, |Plan(prefix, r)|);
    ws', xs' := Extend(prefix, ws1, xs1, Stop, Finished(prefix, w, r));
    ContinuesTransitive(ws, ws1, ws');
  }

  lemma {:induction false} UntouchedByAll(store: Store, us: seq<Upload>, k: Key)
    requires forall i :: 0 <= i < |us| ==> us[i].key != k
    ensures k in PutAll(store, us) <==> k in store
    decreases us
  {
    if us != [] { UntouchedByAll(Put(store, us[0]), us[1..], k); }
  }

  /** A finished run leaves its own pointer, and no manifest that was not there but its own. */
  lemma FinishedRun(prefix: Key, w: World, r: Release, r0: Release)
    requires PrefixClear(prefix) && Listing(r.artifacts) && Listing(r.apt)
    ensures
      var store := Finished(prefix, w, r).store;
      && LatestKey(prefix) in store && store[LatestKey(prefix)] == LatestUpload(prefix, r).body
      && (ManifestKey(prefix, r0) != ManifestKey(prefix, r) && ManifestKey(prefix, r0) !in w.store ==>
          ManifestKey(prefix, r0) !in store)
  {
    var plan := Plan(prefix, r);
    var n := |plan| - 1;
    assert plan[..|plan|] == plan == plan[..n] + [plan[n]];
    PutAllSnoc(w.store, plan[..n], plan[n]);
    PlanKeys(prefix, r, n);
    if ManifestKey(prefix, r0) != ManifestKey(prefix, r) {
      forall i | 0 <= i < |plan| ensures plan[i].key != ManifestKey(prefix, r0) { NoOtherManifest(prefix, r, r0, i); }
      UntouchedByAll(w.store, plan, ManifestKey(prefix, r0));
    }
  }

  lemma NoOtherManifest(prefix: Key, r: Release, r0: Release, i: nat)
    requires PrefixClear(prefix) && Listing(r.artifacts) && Listing(r.apt) && i < |Plan(prefix, r)|
    requires ManifestKey(prefix, r0) != ManifestKey(prefix, r)
    ensures Plan(prefix, r)[i].key != ManifestKey(prefix, r0)
  {
    PlanKeys(prefix, r, i);
    var k := Plan(prefix, r)[i].key;
    if AptKey(k) {
      AptNotUnder(prefix, k, r0);
      ManifestUnder(prefix, r0);
    }
    assert |LatestKey(prefix)| < |ManifestKey(prefix, r0)|;
  }

  /** Without a prefix, any two admissible releases of different identity can be published in either order. */
  lemma EmptyPrefixTakesAnyOrder(r1: Release, r2: Release) returns (ws: seq<World>, xs: seq<Step>, m: nat)
    requires InputCheck([], r1).None? && Listing(r1.artifacts) && Listing(r1.apt)
    requires InputCheck([], r2).None? && Listing(r2.artifacts) && Listing(r2.apt)
    requires ManifestKey([], r1) != ManifestKey([], r2)
    ensures IsHistory([], ws, xs) && m < |ws|
    ensures Current([], ws[m]) == Some(LatestUpload([], r1).body)
    ensures Current([], ws[|ws| - 1]) == Some(LatestUpload([], r2).body)
  {
    var ws0, xs0 := [World(map[], [], 0, false)], [];
    assert IsHistory([], ws0, xs0);
    var ws1, xs1 := RunThrough([], ws0, xs0, r1);
    FinishedRun([], ws0[0], r1, r2);
    NeverChecked(ws1, xs1, |ws1| - 1);
    m := |ws1| - 1;
    ws, xs := RunThrough([], ws1, xs1, r2);
    FinishedRun([], ws1[m], r2, r1);
    assert ws[m] == ws[..|ws1|][m] == ws1[m];
  }

  // ---------------------------------------------------------------------------------------
  // Exactly when the pointer only advances
  // ---------------------------------------------------------------------------------------

  ghost predicate OnlyAdvances(prefix: Key) {
    forall ws, xs, i, j :: IsHistory(prefix, ws, xs) && 0 <= i <= j < |ws| ==> NotBack(prefix, ws[i], ws[j])
  }

  predicate NotBack(prefix: Key, w: World, w': World) {
    Current(prefix, w).Some? ==> Current(prefix, w').Some? && Advances(Current(prefix, w).value, Current(prefix, w').value)
  }

  /** The least release of a version that passes every check of its inputs. */
  function Smallest(v: Triple): Release {
    Release(Format(v), "", "stable", [File([MANIFEST], "", false)], [File(["dists", "stable", "InRelease"], "", false)], true)
  }

  lemma SmallestPasses(v: Triple)
    ensures InputCheck([], Smallest(v)).None? && Listing(Smallest(v).artifacts) && Listing(Smallest(v).apt)
  {
    FormatRanks(v);
    FindOnly(Smallest(v).artifacts[0]);
    FindOnly(Smallest(v).apt[0]);
  }

  lemma FindOnly(f: File)
    ensures HasFile([f], f.path)
  {
  }

  /** In every history the pointer only moves to later versions if and only if the prefix is not empty. */
  lemma ForwardOnlyWithPrefix(prefix: Key)
    requires PrefixClear(prefix)
    ensures OnlyAdvances(prefix) <==> prefix != []
  {
    if prefix == [] {
      var ws, xs, m := BackwardHistory(Triple(2, 0, 0), Triple(1, 0, 0));
      assert !NotBack(prefix, ws[m], ws[|ws| - 1]);
    } else {
      forall ws, xs, i, j | IsHistory(prefix, ws, xs) && 0 <= i <= j < |ws| ensures NotBack(prefix, ws[i], ws[j]) {
        if Current(prefix, ws[i]).Some? { PointerAdvances(prefix, ws, xs, i, j); }
      }
    }
  }

  /** Without a prefix, an earlier version can follow a later one. */
  lemma BackwardHistory(v: Triple, w: Triple) returns (ws: seq<World>, xs: seq<Step>, m: nat)
    requires Less(w, v)
    ensures IsHistory([], ws, xs) && m < |ws| && !NotBack([], ws[m], ws[|ws| - 1])
  {
    SmallestPasses(v);
    SmallestPasses(w);
    SmallestApart(v, w);
    ws, xs, m := EmptyPrefixTakesAnyOrder(Smallest(v), Smallest(w));
    PointerFallsBack(v, w, ws[m], ws[|ws| - 1]);
  }

  lemma SmallestApart(v: Triple, w: Triple)
    requires Less(w, v)
    ensures ManifestKey([], Smallest(v)) != ManifestKey([], Smallest(w))
  {
    FormatRanks(v);
    FormatRanks(w);
    assert ManifestKey([], Smallest(v))[1] == Format(v) && ManifestKey([], Smallest(w))[1] == Format(w);
  }

  lemma PointerFallsBack(v: Triple, w: Triple, a: World, b: World)
    requires Less(w, v)
    requires Current([], a) == Some(LatestUpload([], Smallest(v)).body) && Current([], b) == Some(LatestUpload([], Smallest(w)).body)
    ensures !NotBack([], a, b)
  {
    FormatRanks(v);
    FormatRanks(w);
  }

  // ---------------------------------------------------------------------------------------
  // The APT index
  // ---------------------------------------------------------------------------------------

  /** Position `start` of the plan begins a pass over the APT files that writes below `base`. */
  predicate PassAt(prefix: Key, r: Release, start: nat, base: Key) {
    || (start == |ArtifactUploads(prefix, r)| && base == AptBase(prefix, r))
    || (start == |Payload(prefix, r)| + 1 && base == ["apt"] && r.candidate != "")
  }

  lemma PassUploads(prefix: Key, r: Release, start: nat, base: Key, i: nat)
    requires PassAt(prefix, r, start, base) && i < |AptSorted(r)|
    ensures start + i < |Plan(prefix, r)|
    ensures Plan(prefix, r)[start + i] == Upload(base + AptSorted(r)[i].path, Blob(AptSorted(r)[i].content))
  {
    var apt := UploadsUnder(base, AptSorted(r));
    var before, after := PlanAround(prefix, r, start, base);
    SecondPart(before, apt, after, i);
  }

  /** The plan is what comes before the pass, the pass, and what comes after. */
  lemma PlanAround(prefix: Key, r: Release, start: nat, base: Key) returns (before: seq<Upload>, after: seq<Upload>)
    requires PassAt(prefix, r, start, base)
    ensures |before| == start && Plan(prefix, r) == before + UploadsUnder(base, AptSorted(r)) + after
  {
    if start == |ArtifactUploads(prefix, r)| && base == AptBase(prefix, r) {
      before, after := ArtifactUploads(prefix, r), [Commit(prefix, r)] + Followup(prefix, r);
      Regroup(before, UploadsUnder(base, AptSorted(r)), [Commit(prefix, r)], Followup(prefix, r));
    } else {
      before, after := Payload(prefix, r) + [Commit(prefix, r)], [LatestUpload(prefix, r)];
      PlanParts(prefix, r);
    }
  }

  lemma Regroup(a: seq<Upload>, b: seq<Upload>, c: seq<Upload>, d: seq<Upload>)
    ensures a + b + c + d == a + b + (c + d)
  {
  }

  /**
   In any history, when a run is about to write an InRelease below an APT base, every APT file of another
   name is in the store below that base, with this run's content.
   */
  lemma InReleaseSeesItsFiles(
      prefix: Key, ws: seq<World>, xs: seq<Step>, n: nat, start: nat, base: Key, i: nat, g: File)
    requires PrefixClear(prefix) && IsHistory(prefix, ws, xs) && n < |ws| && ws[n].live && ws[n].begun != []
    requires PassAt(prefix, Last(ws[n]), start, base) && i < |AptSorted(Last(ws[n]))| && ws[n].sent == start + i
    requires Name(AptSorted(Last(ws[n]))[i]) == "InRelease"
    requires g in Last(ws[n]).apt && Name(g) != "InRelease"
    ensures base + g.path in ws[n].store && ws[n].store[base + g.path] == Blob(g.content)
  {
    var r, us := LiveRun(prefix, ws, xs, n);
    var j := SentBefore(r, i, g);
    PassLeaves(prefix, r, us, start, base, i, j);
  }

  /** Halfway through a pass, each file sent so far is the last thing written to its key. */
  lemma PassLeaves(prefix: Key, r: Release, us: seq<Upload>, start: nat, base: Key, i: nat, j: nat)
    requires PassAt(prefix, r, start, base) && Listing(r.apt) && j < i <= |AptSorted(r)|
    requires start + i <= |Plan(prefix, r)| && us == Plan(prefix, r)[..start + i]
    ensures LastWrite(us, base + AptSorted(r)[j].path) == Some(Blob(AptSorted(r)[j].content))
  {
    var g := AptSorted(r)[j];
    SortSameElements(AptLeq, r.apt, g);
    forall m | j <= m < i && (base + AptSorted(r)[m].path) == base + g.path ensures AptSorted(r)[m] == g {
      assert (base + g.path)[|base|..] == g.path && (base + AptSorted(r)[m].path)[|base|..] == AptSorted(r)[m].path;
      SortSameElements(AptLeq, r.apt, AptSorted(r)[m]);
      OnePathOneFile(r.apt, AptSorted(r)[m], g);
    }
    PassUploads(prefix, r, start, base, j);
    forall m | start + j <= m < |us| && us[m].key == us[start + j].key ensures us[m].body == Blob(g.content) {
      PassUploads(prefix, r, start, base, m - start);
    }
    LastWriteIs(us, start + j, Blob(g.content));
  }

  lemma LiveRun(prefix: Key, ws: seq<World>, xs: seq<Step>, n: nat) returns (r: Release, us: seq<Upload>)
    requires PrefixClear(prefix) && IsHistory(prefix, ws, xs) && n < |ws| && ws[n].live && ws[n].begun != []
    ensures r == Last(ws[n]) && Listing(r.apt)
    ensures ws[n].sent <= |Plan(prefix, r)| && us == Plan(prefix, r)[..ws[n].sent] && Holds(ws[n].store, us)
  {
    HistoryInv(prefix, ws, xs, n);
    r := Last(ws[n]);
    us := Plan(prefix, r)[..ws[n].sent];
  }

  /** A file of another name comes before an InRelease in a pass. */
  lemma SentBefore(r: Release, i: nat, g: File) returns (j: nat)
    requires i < |AptSorted(r)| && Name(AptSorted(r)[i]) == "InRelease" && g in r.apt && Name(g) != "InRelease"
    ensures j < i && AptSorted(r)[j] == g
  {
    SortSameElements(AptLeq, r.apt, g);
    AptPassIsPermutation(r);
    j :| 0 <= j < |AptSorted(r)| && AptSorted(r)[j] == g;
    if i < j { InReleaseGoesLast(r, i, j); }
  }

  // ---------------------------------------------------------------------------------------
  // What a visible manifest holds
  // ---------------------------------------------------------------------------------------

  /** The catalog of the release, as it was given. */
  predicate IsCatalog(r: Release, f: File) {
    f in r.artifacts && f.path == ["release-manifest.json"]
  }

  lemma CommitHoldsCatalog(prefix: Key, store: Store, r: Release) returns (f: File)
    requires InputCheck(prefix, r).None? && Complete(store, prefix, r)
    ensures IsCatalog(r, f) && ManifestKey(prefix, r) in store && store[ManifestKey(prefix, r)] == Blob(f.content)
  {
    FindIff(r.artifacts, [MANIFEST]);
    f := FindFile(r.artifacts, [MANIFEST]).value;
    var us := Payload(prefix, r) + [Commit(prefix, r)];
    assert us[|us| - 1] == Commit(prefix, r);
    ManifestUnder(prefix, r);
    assert LastWrite(us, ManifestKey(prefix, r)) == Some(Blob(f.content));
  }

  /**
   In every history, a visible manifest is the catalog of a run that was made under that identity and has
   everything it wrote under its version prefix in the store.
   */
  lemma ManifestIsTheCatalog(prefix: Key, ws: seq<World>, xs: seq<Step>, n: nat, r0: Release) returns (j: nat, f: File)
    requires PrefixClear(prefix) && IsHistory(prefix, ws, xs) && n < |ws| && ManifestKey(prefix, r0) in ws[n].store
    ensures CompletedBy(prefix, ws[n], r0, j) && IsCatalog(ws[n].begun[j], f)
    ensures ws[n].store[ManifestKey(prefix, r0)] == Blob(f.content)
  {
    j := CompletedRun(prefix, ws, xs, n, r0);
    f := CommitHoldsCatalog(prefix, ws[n].store, ws[n].begun[j]);
  }

  lemma CompletedRun(prefix: Key, ws: seq<World>, xs: seq<Step>, n: nat, r0: Release) returns (j: nat)
    requires PrefixClear(prefix) && IsHistory(prefix, ws, xs) && n < |ws| && ManifestKey(prefix, r0) in ws[n].store
    ensures CompletedBy(prefix, ws[n], r0, j) && InputCheck(prefix, ws[n].begun[j]).None?
  {
    HistoryInv(prefix, ws, xs, n);
    j :| CompletedBy(prefix, ws[n], r0, j);
  }

  /** A complete candidate has every file of its own APT tree under its version prefix. */
  lemma CompleteHasApt(prefix: Key, store: Store, r: Release, g: File)
    requires Listing(r.apt) && Complete(store, prefix, r) && r.candidate != "" && g in r.apt
    ensures VersionPrefix(prefix, r) + (["apt"] + g.path) in store
    ensures store[VersionPrefix(prefix, r) + (["apt"] + g.path)] == Blob(g.content)
  {
    var us := Payload(prefix, r) + [Commit(prefix, r)];
    var j := AptPlace(prefix, r, g);
    forall m | j <= m < |us| && us[m].key == us[j].key ensures us[m].body == Blob(g.content) {
      SameKeySameApt(prefix, r, g, m);
    }
    LastWriteIs(us, j, Blob(g.content));
    UnderAppend(VersionPrefix(prefix, r), ["apt"] + g.path);
  }

  /** In each APT pass the signed index goes last: after all other names come Release, then Release.gpg, then InRelease. */
  lemma IndexFilesGoLast(r: Release, i: nat, j: nat)
    requires i < j < |AptSorted(r)|
    ensures Name(AptSorted(r)[i]) == "InRelease" ==> Name(AptSorted(r)[j]) == "InRelease"
    ensures Name(AptSorted(r)[i]) == "Release.gpg" ==> Name(AptSorted(r)[j]) in {"Release.gpg", "InRelease"}
    ensures Name(AptSorted(r)[i]) == "Release" ==> Name(AptSorted(r)[j]) in {"Release", "Release.gpg", "InRelease"}
  {
    AptLeqTotal();
    SortSorts(AptLeq, r.apt);
    assert AptLeq(AptSorted(r)[i], AptSorted(r)[j]);
  }
}
