/** Crash consistency of publication over any sequence of runs. */
module PublishTheorems {
  import opened Outcomes
  import opened Ordering
  import opened ReleaseVersion
  import opened Publish

  /** The configured prefix does not lead into the shared APT tree. */
  predicate PrefixClear(prefix: Key) {
    prefix == [] || prefix[0] != "apt"
  }

  predicate Under(k: Key, base: Key) {
    |base| <= |k| && k[..|base|] == base
  }

  predicate AptKey(k: Key) {
    k != [] && k[0] == "apt"
  }

  // ---------------------------------------------------------------------------------------
  // Keys
  // ---------------------------------------------------------------------------------------

  lemma UnderAppend(base: Key, path: Key)
    ensures Under(base + path, base)
  {
  }

  lemma UnderOne(prefix: Key, k: Key, r: Release, r0: Release)
    requires Under(k, VersionPrefix(prefix, r)) && Under(k, VersionPrefix(prefix, r0))
    ensures VersionPrefix(prefix, r) == VersionPrefix(prefix, r0)
  {
  }

  lemma AptNotUnder(prefix: Key, k: Key, r: Release)
    requires PrefixClear(prefix) && AptKey(k)
    ensures !Under(k, VersionPrefix(prefix, r)) && k != LatestKey(prefix)
  {
    var v := VersionPrefix(prefix, r);
    assert v[0] == if prefix == [] then Directory(r) else prefix[0];
    assert |v| <= |k| ==> k[..|v|][0] == k[0];
  }

  lemma LatestNotUnder(prefix: Key, r: Release)
    ensures !Under(LatestKey(prefix), VersionPrefix(prefix, r)) && |LatestKey(prefix)| < |VersionPrefix(prefix, r)|
  {
  }

  lemma ManifestUnder(prefix: Key, r: Release)
    ensures Under(ManifestKey(prefix, r), VersionPrefix(prefix, r))
  {
  }

  lemma {:induction false} WithoutManifestDrops(files: seq<File>)
    ensures forall f :: f in WithoutManifest(files) <==> f in files && f.path != [MANIFEST]
  {
    if files != [] {
      WithoutManifestDrops(files[1..]);
      assert files == [files[0]] + files[1..];
    }
  }

  lemma ListingElements(files: seq<File>, f: File)
    requires Listing(files) && f in files
    ensures f.path != []
  {
    var i :| 0 <= i < |files| && files[i] == f;
  }

  /** Before the commit marker a run writes under its own version prefix or to the APT tree, never a manifest. */
  lemma PayloadKeys(prefix: Key, r: Release, i: nat)
    requires PrefixClear(prefix) && Listing(r.artifacts) && Listing(r.apt) && i < |Payload(prefix, r)|
    ensures Under(Payload(prefix, r)[i].key, VersionPrefix(prefix, r)) || AptKey(Payload(prefix, r)[i].key)
    ensures forall r0 :: Payload(prefix, r)[i].key != ManifestKey(prefix, r0)
  {
    if i < |ArtifactUploads(prefix, r)| {
      ArtifactKeys(prefix, r, i);
    } else {
      assert Payload(prefix, r)[i] == UploadsUnder(AptBase(prefix, r), AptSorted(r))[i - |ArtifactUploads(prefix, r)|];
      AptKeys(prefix, r, i - |ArtifactUploads(prefix, r)|);
    }
  }

  lemma ArtifactKeys(prefix: Key, r: Release, i: nat)
    requires i < |ArtifactUploads(prefix, r)|
    ensures Under(ArtifactUploads(prefix, r)[i].key, VersionPrefix(prefix, r))
    ensures forall r0 :: ArtifactUploads(prefix, r)[i].key != ManifestKey(prefix, r0)
  {
    var v := VersionPrefix(prefix, r);
    var files := WithoutManifest(Sort(PathLeq, r.artifacts));
    UnderAppend(v, files[i].path);
    WithoutManifestDrops(Sort(PathLeq, r.artifacts));
    assert files[i] in files;
    SuffixNotManifest(prefix, r, files[i].path);
  }

  lemma AptKeys(prefix: Key, r: Release, i: nat)
    requires PrefixClear(prefix) && Listing(r.apt) && i < |AptSorted(r)|
    ensures
      var k := AptBase(prefix, r) + AptSorted(r)[i].path;
      (Under(k, VersionPrefix(prefix, r)) || AptKey(k)) && forall r0 :: k != ManifestKey(prefix, r0)
  {
    var v := VersionPrefix(prefix, r);
    var f := AptSorted(r)[i];
    var k := AptBase(prefix, r) + f.path;
    assert f in AptSorted(r);
    SortSameElements(AptLeq, r.apt, f);
    ListingElements(r.apt, f);
    if r.candidate != "" {
      assert k == v + (["apt"] + f.path);
      UnderAppend(v, ["apt"] + f.path);
      SuffixNotManifest(prefix, r, ["apt"] + f.path);
    } else {
      assert AptKey(k);
      forall r0 ensures k != ManifestKey(prefix, r0) { AptNotUnder(prefix, k, r0); ManifestUnder(prefix, r0); }
    }
  }

  lemma SuffixNotManifest(prefix: Key, r: Release, path: Key)
    requires path != [MANIFEST]
    ensures forall r0 :: VersionPrefix(prefix, r) + path != ManifestKey(prefix, r0)
  {
    var k := VersionPrefix(prefix, r) + path;
    assert k[|prefix| + 2..] == path;
    forall r0 ensures k != ManifestKey(prefix, r0) {
      assert ManifestKey(prefix, r0)[|prefix| + 2..] == [MANIFEST];
    }
  }

  /** After the commit marker a run writes to the APT tree and, last of all, the pointer. */
  lemma FollowupKeys(prefix: Key, r: Release, i: nat)
    requires i < |Followup(prefix, r)|
    ensures if i == |Followup(prefix, r)| - 1 then Followup(prefix, r)[i] == LatestUpload(prefix, r)
            else AptKey(Followup(prefix, r)[i].key)
  {
  }

  /** Where position `i` of the plan lies. */
  lemma PlanAt(prefix: Key, r: Release, i: nat)
    requires i < |Plan(prefix, r)|
    ensures
      var n := |Payload(prefix, r)|;
      && (i < n ==> Plan(prefix, r)[i] == Payload(prefix, r)[i])
      && (i == n ==> Plan(prefix, r)[i] == Commit(prefix, r))
      && (i > n ==> i - n - 1 < |Followup(prefix, r)| && Plan(prefix, r)[i] == Followup(prefix, r)[i - n - 1])
      && |Plan(prefix, r)| == n + 1 + |Followup(prefix, r)|
  {
  }

  /** The keys of the plan, by position. */
  lemma PlanKeys(prefix: Key, r: Release, i: nat)
    requires PrefixClear(prefix) && Listing(r.artifacts) && Listing(r.apt) && i < |Plan(prefix, r)|
    ensures
      var k, n := Plan(prefix, r)[i].key, |Payload(prefix, r)|;
      && (i < n ==> (Under(k, VersionPrefix(prefix, r)) || AptKey(k)) && forall r0 :: k != ManifestKey(prefix, r0))
      && (i == n ==> k == ManifestKey(prefix, r))
      && (n < i < |Plan(prefix, r)| - 1 ==> AptKey(k))
      && (i == |Plan(prefix, r)| - 1 ==> Plan(prefix, r)[i] == LatestUpload(prefix, r))
      && (i < |Plan(prefix, r)| - 1 ==> k != LatestKey(prefix))
  {
    PlanAt(prefix, r, i);
    var k, n := Plan(prefix, r)[i].key, |Payload(prefix, r)|;
    if i < n {
      PayloadKeys(prefix, r, i);
      if AptKey(k) { AptNotUnder(prefix, k, r); } else { LatestNotUnder(prefix, r); }
    } else if i > n {
      FollowupKeys(prefix, r, i - n - 1);
      if AptKey(k) { AptNotUnder(prefix, k, r); }
    }
  }

  // ---------------------------------------------------------------------------------------
  // The invariant
  // ---------------------------------------------------------------------------------------

  /** The last object that `us` writes to `k`. */
  function LastWrite(us: seq<Upload>, k: Key): Option<Object> {
    if us == [] then None
    else if us[|us| - 1].key == k then Some(us[|us| - 1].body)
    else LastWrite(us[..|us| - 1], k)
  }

  /** The store holds what `us` left at every key of `us`. */
  ghost predicate Holds(store: Store, us: seq<Upload>) {
    forall k :: LastWrite(us, k).Some? ==> k in store && store[k] == LastWrite(us, k).value
  }

  /** Everything release `r` put under its version prefix up to the commit marker is in the store. */
  ghost predicate Complete(store: Store, prefix: Key, r: Release) {
    var us := Payload(prefix, r) + [Commit(prefix, r)];
    forall k :: Under(k, VersionPrefix(prefix, r)) && LastWrite(us, k).Some? ==> k in store && store[k] == LastWrite(us, k).value
  }

  ghost predicate CompletedBy(prefix: Key, w: World, r0: Release, j: nat) {
    j < |w.begun| && VersionPrefix(prefix, w.begun[j]) == VersionPrefix(prefix, r0) && Complete(w.store, prefix, w.begun[j])
  }

  ghost predicate ManifestsComplete(prefix: Key, w: World) {
    forall r0 :: ManifestKey(prefix, r0) in w.store ==> exists j :: CompletedBy(prefix, w, r0, j)
  }

  /** Nothing the live run has still to write lies under a version prefix with a visible manifest. */
  ghost predicate RestIsElsewhere(prefix: Key, w: World) {
    w.live && w.begun != [] ==>
      forall r0, i :: ManifestKey(prefix, r0) in w.store && w.sent <= i < |Plan(prefix, Last(w))| ==>
        !Under(Plan(prefix, Last(w))[i].key, VersionPrefix(prefix, r0))
  }

  ghost predicate NamesRun(prefix: Key, w: World, version: string, manifest: Key, j: nat) {
    j < |w.begun| && w.begun[j].version == version && manifest == ManifestKey(prefix, w.begun[j])
  }

  ghost predicate PointerOk(prefix: Key, w: World) {
    LatestKey(prefix) in w.store ==>
      var p := w.store[LatestKey(prefix)];
      && p.Pointer? && Rank(p.version).Some? && p.manifest in w.store
      && exists j :: NamesRun(prefix, w, p.version, p.manifest, j)
  }

  /** With a non-empty prefix, the live run's version lies above the pointer it has yet to replace. */
  ghost predicate WillAdvance(prefix: Key, w: World) {
    prefix != [] && w.live && w.begun != [] && w.sent < |Plan(prefix, Last(w))| && LatestKey(prefix) in w.store ==>
      var p := w.store[LatestKey(prefix)];
      p.Pointer? && Rank(p.version).Some? && Rank(Last(w).version).Some? && Less(Rank(p.version).value, Rank(Last(w).version).value)
  }

  ghost predicate BegunOk(prefix: Key, begun: seq<Release>) {
    forall j :: 0 <= j < |begun| ==> InputCheck(prefix, begun[j]).None? && Listing(begun[j].artifacts) && Listing(begun[j].apt)
  }

  ghost predicate SentOk(prefix: Key, w: World) {
    w.live ==> w.begun != [] && w.sent <= |Plan(prefix, Last(w))| && Holds(w.store, Plan(prefix, Last(w))[..w.sent])
  }

  ghost predicate RunsOk(prefix: Key, w: World) {
    BegunOk(prefix, w.begun) && SentOk(prefix, w)
  }

  ghost predicate Inv(prefix: Key, w: World) {
    && RunsOk(prefix, w)
    && ManifestsComplete(prefix, w)
    && RestIsElsewhere(prefix, w)
    && PointerOk(prefix, w)
    && WillAdvance(prefix, w)
  }

  // ---------------------------------------------------------------------------------------
  // Starting and ending a run
  // ---------------------------------------------------------------------------------------

  lemma BeginKeeps(prefix: Key, w: World, r: Release)
    requires PrefixClear(prefix) && Inv(prefix, w) && Enabled(prefix, w, Begin(r))
    ensures Inv(prefix, Apply(prefix, w, Begin(r)))
  {
    BeginKeepsRuns(prefix, w, r);
    BeginKeepsManifests(prefix, w, r);
    BeginKeepsRest(prefix, w, r);
    BeginKeepsPointer(prefix, w, r);
  }

  lemma BeginKeepsRuns(prefix: Key, w: World, r: Release)
    requires RunsOk(prefix, w) && Enabled(prefix, w, Begin(r))
    ensures RunsOk(prefix, Apply(prefix, w, Begin(r)))
  {
    assert Plan(prefix, r)[..0] == [];
  }

  lemma BeginKeepsRest(prefix: Key, w: World, r: Release)
    requires PrefixClear(prefix) && Enabled(prefix, w, Begin(r))
    ensures RestIsElsewhere(prefix, Apply(prefix, w, Begin(r)))
  {
    forall r0, i | ManifestKey(prefix, r0) in w.store && 0 <= i < |Plan(prefix, r)|
      ensures !Under(Plan(prefix, r)[i].key, VersionPrefix(prefix, r0))
    {
      NewPlanElsewhere(prefix, w, r, r0, i);
    }
  }

  lemma BeginKeepsPointer(prefix: Key, w: World, r: Release)
    requires PointerOk(prefix, w) && Enabled(prefix, w, Begin(r))
    ensures PointerOk(prefix, Apply(prefix, w, Begin(r))) && WillAdvance(prefix, Apply(prefix, w, Begin(r)))
  {
    if LatestKey(prefix) in w.store {
      var p := w.store[LatestKey(prefix)];
      var j :| NamesRun(prefix, w, p.version, p.manifest, j);
      assert NamesRun(prefix, Apply(prefix, w, Begin(r)), p.version, p.manifest, j);
    }
  }

  lemma BeginKeepsManifests(prefix: Key, w: World, r: Release)
    requires ManifestsComplete(prefix, w) && Enabled(prefix, w, Begin(r))
    ensures ManifestsComplete(prefix, Apply(prefix, w, Begin(r)))
  {
    var w' := Apply(prefix, w, Begin(r));
    forall r0 | ManifestKey(prefix, r0) in w'.store ensures exists j :: CompletedBy(prefix, w', r0, j) {
      var j :| CompletedBy(prefix, w, r0, j);
      assert CompletedBy(prefix, w', r0, j);
    }
  }

  lemma NewPlanElsewhere(prefix: Key, w: World, r: Release, r0: Release, i: nat)
    requires PrefixClear(prefix) && Enabled(prefix, w, Begin(r)) && ManifestKey(prefix, r0) in w.store && i < |Plan(prefix, r)|
    ensures !Under(Plan(prefix, r)[i].key, VersionPrefix(prefix, r0))
  {
    PlanKeys(prefix, r, i);
    var k := Plan(prefix, r)[i].key;
    if AptKey(k) {
      AptNotUnder(prefix, k, r0);
    } else if k == LatestKey(prefix) {
      LatestNotUnder(prefix, r0);
    } else if Under(k, VersionPrefix(prefix, r0)) {
      ManifestUnder(prefix, r);
      UnderOne(prefix, k, r, r0);
    }
  }

  lemma StopKeeps(prefix: Key, w: World)
    requires Inv(prefix, w) && Enabled(prefix, w, Stop)
    ensures Inv(prefix, Apply(prefix, w, Stop))
  {
    var w' := Apply(prefix, w, Stop);
    forall r0 | ManifestKey(prefix, r0) in w'.store ensures exists j :: CompletedBy(prefix, w', r0, j) {
      var j :| CompletedBy(prefix, w, r0, j);
      assert CompletedBy(prefix, w', r0, j);
    }
    if LatestKey(prefix) in w.store {
      var p := w.store[LatestKey(prefix)];
      var j :| NamesRun(prefix, w, p.version, p.manifest, j);
      assert NamesRun(prefix, w', p.version, p.manifest, j);
    }
  }

  // ---------------------------------------------------------------------------------------
  // One upload
  // ---------------------------------------------------------------------------------------

  lemma HoldsSnoc(store: Store, us: seq<Upload>, u: Upload)
    requires Holds(store, us)
    ensures Holds(Put(store, u), us + [u])
  {
    assert (us + [u])[..|us|] == us;
  }

  lemma HoldsNext(store: Store, us: seq<Upload>, n: nat)
    requires n < |us| && Holds(store, us[..n])
    ensures Holds(Put(store, us[n]), us[..n + 1])
  {
    HoldsSnoc(store, us[..n], us[n]);
    assert us[..n + 1] == us[..n] + [us[n]];
  }

  lemma SendKeepsSent(prefix: Key, w: World)
    requires SentOk(prefix, w) && Enabled(prefix, w, Send)
    ensures SentOk(prefix, Apply(prefix, w, Send))
    ensures Apply(prefix, w, Send).begun == w.begun
  {
    HoldsNext(w.store, Plan(prefix, Last(w)), w.sent);
  }

  lemma SendKeepsRuns(prefix: Key, w: World)
    requires RunsOk(prefix, w) && Enabled(prefix, w, Send)
    ensures RunsOk(prefix, Apply(prefix, w, Send))
  {
    SendKeepsSent(prefix, w);
  }

  /** Once the commit marker is written, the run's own part of the store is complete. */
  lemma CommitCompletes(prefix: Key, w: World)
    requires SentOk(prefix, w) && w.live && w.begun != [] && w.sent == |Payload(prefix, Last(w))| + 1
    ensures Complete(w.store, prefix, Last(w))
  {
    var r := Last(w);
    assert Plan(prefix, r)[..w.sent] == Payload(prefix, r) + [Commit(prefix, r)];
  }

  lemma SendKeepsManifests(prefix: Key, w: World)
    requires PrefixClear(prefix) && Inv(prefix, w) && Enabled(prefix, w, Send)
    ensures ManifestsComplete(prefix, Apply(prefix, w, Send))
  {
    var w' := Apply(prefix, w, Send);
    var r := Last(w);
    var u := Plan(prefix, r)[w.sent];
    PlanKeys(prefix, r, w.sent);
    forall r0 | ManifestKey(prefix, r0) in w'.store ensures exists j :: CompletedBy(prefix, w', r0, j) {
      if ManifestKey(prefix, r0) in w.store {
        var j :| CompletedBy(prefix, w, r0, j);
        StillComplete(prefix, w, r0, j);
      } else {
        NewManifest(prefix, w, r0);
      }
    }
  }

  lemma StillComplete(prefix: Key, w: World, r0: Release, j: nat)
    requires Inv(prefix, w) && Enabled(prefix, w, Send) && ManifestKey(prefix, r0) in w.store && CompletedBy(prefix, w, r0, j)
    ensures CompletedBy(prefix, Apply(prefix, w, Send), r0, j)
  {
    assert !Under(Plan(prefix, Last(w))[w.sent].key, VersionPrefix(prefix, r0));
  }

  lemma NewManifest(prefix: Key, w: World, r0: Release)
    requires PrefixClear(prefix) && SentOk(prefix, w) && Enabled(prefix, w, Send)
    requires Listing(Last(w).artifacts) && Listing(Last(w).apt)
    requires ManifestKey(prefix, r0) in Apply(prefix, w, Send).store && ManifestKey(prefix, r0) !in w.store
    ensures CompletedBy(prefix, Apply(prefix, w, Send), r0, |w.begun| - 1)
  {
    CommitSent(prefix, w, r0);
    SendKeepsSent(prefix, w);
    CommitCompletes(prefix, Apply(prefix, w, Send));
    CompletedByLast(prefix, Apply(prefix, w, Send), r0);
  }

  lemma CommitSent(prefix: Key, w: World, r0: Release)
    requires PrefixClear(prefix) && Enabled(prefix, w, Send) && Listing(Last(w).artifacts) && Listing(Last(w).apt)
    requires ManifestKey(prefix, r0) in Apply(prefix, w, Send).store && ManifestKey(prefix, r0) !in w.store
    ensures w.sent == |Payload(prefix, Last(w))| && VersionPrefix(prefix, Last(w)) == VersionPrefix(prefix, r0)
  {
    assert Plan(prefix, Last(w))[w.sent].key == ManifestKey(prefix, r0);
    OnlyCommitIsManifest(prefix, Last(w), w.sent, r0);
  }

  lemma CompletedByLast(prefix: Key, w: World, r0: Release)
    requires w.begun != [] && VersionPrefix(prefix, Last(w)) == VersionPrefix(prefix, r0) && Complete(w.store, prefix, Last(w))
    ensures CompletedBy(prefix, w, r0, |w.begun| - 1)
  {
  }

  /** The one upload of a run to a manifest's key is its commit marker. */
  lemma OnlyCommitIsManifest(prefix: Key, r: Release, i: nat, r0: Release)
    requires PrefixClear(prefix) && Listing(r.artifacts) && Listing(r.apt) && i < |Plan(prefix, r)|
    requires Plan(prefix, r)[i].key == ManifestKey(prefix, r0)
    ensures i == |Payload(prefix, r)| && VersionPrefix(prefix, r) == VersionPrefix(prefix, r0)
  {
    var k := Plan(prefix, r)[i].key;
    PlanKeys(prefix, r, i);
    ManifestUnder(prefix, r0);
    if AptKey(k) { AptNotUnder(prefix, k, r0); }
    LatestNotUnder(prefix, r0);
    ManifestUnder(prefix, r);
    UnderOne(prefix, k, r, r0);
  }

  lemma SendKeepsRest(prefix: Key, w: World)
    requires PrefixClear(prefix) && Inv(prefix, w) && Enabled(prefix, w, Send)
    ensures RestIsElsewhere(prefix, Apply(prefix, w, Send))
  {
    var w' := Apply(prefix, w, Send);
    var r := Last(w);
    forall r0, i | ManifestKey(prefix, r0) in w'.store && w'.sent <= i < |Plan(prefix, r)|
      ensures !Under(Plan(prefix, r)[i].key, VersionPrefix(prefix, r0))
    {
      if ManifestKey(prefix, r0) !in w.store {
        RestAfterCommit(prefix, w, r0, i);
      }
    }
  }

  lemma RestAfterCommit(prefix: Key, w: World, r0: Release, i: nat)
    requires PrefixClear(prefix) && Inv(prefix, w) && Enabled(prefix, w, Send) && w.sent < i < |Plan(prefix, Last(w))|
    requires ManifestKey(prefix, r0) in Apply(prefix, w, Send).store && ManifestKey(prefix, r0) !in w.store
    ensures !Under(Plan(prefix, Last(w))[i].key, VersionPrefix(prefix, r0))
  {
    var r := Last(w);
    PlanKeys(prefix, r, w.sent);
    PlanKeys(prefix, r, i);
    ManifestUnder(prefix, r0);
    if AptKey(Plan(prefix, r)[w.sent].key) { AptNotUnder(prefix, Plan(prefix, r)[w.sent].key, r0); }
    LatestNotUnder(prefix, r0);
    if AptKey(Plan(prefix, r)[i].key) { AptNotUnder(prefix, Plan(prefix, r)[i].key, r0); }
  }

  lemma {:induction false} LastWriteFound(us: seq<Upload>, i: nat)
    requires i < |us|
    ensures LastWrite(us, us[i].key).Some?
  {
    if us[|us| - 1].key != us[i].key {
      LastWriteFound(us[..|us| - 1], i);
      assert us[..|us| - 1][i] == us[i];
    }
  }

  lemma SendKeepsPointer(prefix: Key, w: World)
    requires PrefixClear(prefix) && Inv(prefix, w) && Enabled(prefix, w, Send)
    ensures PointerOk(prefix, Apply(prefix, w, Send)) && WillAdvance(prefix, Apply(prefix, w, Send))
  {
    var w' := Apply(prefix, w, Send);
    var r := Last(w);
    var plan, n := Plan(prefix, r), |Payload(prefix, r)|;
    PlanAt(prefix, r, w.sent);
    PlanKeys(prefix, r, w.sent);
    if w.sent == |plan| - 1 {
      PlanAt(prefix, r, n);
      LastWriteFound(plan[..w.sent], n);
      assert ManifestKey(prefix, r) in w.store;
      assert NamesRun(prefix, w', r.version, ManifestKey(prefix, r), |w.begun| - 1);
    } else if LatestKey(prefix) in w.store {
      var p := w.store[LatestKey(prefix)];
      var j :| NamesRun(prefix, w, p.version, p.manifest, j);
      assert NamesRun(prefix, w', p.version, p.manifest, j);
    }
  }

  lemma InvStep(prefix: Key, w: World, x: Step)
    requires PrefixClear(prefix) && Inv(prefix, w) && Enabled(prefix, w, x)
    ensures Inv(prefix, Apply(prefix, w, x))
  {
    match x
    case Begin(r) => BeginKeeps(prefix, w, r);
    case Send =>
      SendKeepsRuns(prefix, w);
      SendKeepsManifests(prefix, w);
      SendKeepsRest(prefix, w);
      SendKeepsPointer(prefix, w);
    case Stop => StopKeeps(prefix, w);
  }

  lemma {:induction false} HistoryInv(prefix: Key, ws: seq<World>, xs: seq<Step>, n: nat)
    requires PrefixClear(prefix) && IsHistory(prefix, ws, xs) && n < |ws|
    ensures Inv(prefix, ws[n])
  {
    if n > 0 {
      HistoryInv(prefix, ws, xs, n - 1);
      InvStep(prefix, ws[n - 1], xs[n - 1]);
    }
  }

  // ---------------------------------------------------------------------------------------
  // Theorems
  // ---------------------------------------------------------------------------------------

  /**
   After any sequence of runs and crashes, a visible manifest is the mark of a complete release: some run
   made under that identity has everything it wrote under its version prefix in the store.
   */
  lemma VisibleManifestIsComplete(prefix: Key, ws: seq<World>, xs: seq<Step>, n: nat, r0: Release)
    requires PrefixClear(prefix) && IsHistory(prefix, ws, xs) && n < |ws| && ManifestKey(prefix, r0) in ws[n].store
    ensures exists j :: CompletedBy(prefix, ws[n], r0, j)
  {
    HistoryInv(prefix, ws, xs, n);
  }

  lemma {:induction false} LastWriteIs(us: seq<Upload>, i: nat, body: Object)
    requires i < |us|
    requires forall m :: i <= m < |us| && us[m].key == us[i].key ==> us[m].body == body
    ensures LastWrite(us, us[i].key) == Some(body)
  {
    if us[|us| - 1].key != us[i].key {
      assert us[..|us| - 1][i] == us[i];
      LastWriteIs(us[..|us| - 1], i, body);
    }
  }

  /** Files of one listing with one path are one file. */
  lemma OnePathOneFile(files: seq<File>, f: File, g: File)
    requires Listing(files) && f in files && g in files && f.path == g.path
    ensures f == g
  {
    var i :| 0 <= i < |files| && files[i] == f;
    var j :| 0 <= j < |files| && files[j] == g;
  }

  /** A candidate's own APT tree has a file at the artifact's path. */
  predicate Overlays(r: Release, g: File, f: File) {
    r.candidate != "" && g in r.apt && f.path == ["apt"] + g.path
  }

  /** Every artifact of a complete release is there, with its own content exactly when no APT file of the candidate has its path and another content. */
  lemma CompleteHasArtifacts(prefix: Key, store: Store, r: Release, f: File)
    requires PrefixClear(prefix) && Listing(r.artifacts) && Listing(r.apt) && Complete(store, prefix, r)
    requires f in r.artifacts && f.path != [MANIFEST]
    ensures VersionPrefix(prefix, r) + f.path in store
    ensures
      store[VersionPrefix(prefix, r) + f.path] == Blob(f.content) <==>
      forall g :: Overlays(r, g, f) ==> g.content == f.content
  {
    var us := Payload(prefix, r) + [Commit(prefix, r)];
    if g :| Overlays(r, g, f) {
      var j := AptPlace(prefix, r, g);
      forall m | j <= m < |us| && us[m].key == us[j].key ensures us[m].body == Blob(g.content) {
        SameKeySameApt(prefix, r, g, m);
      }
      assert VersionPrefix(prefix, r) + f.path == us[j].key;
      LastWriteIs(us, j, Blob(g.content));
      forall g' | Overlays(r, g', f) ensures g' == g { SameAptFile(r, f, g, g'); }
    } else {
      var i := ArtifactPlace(prefix, r, f);
      forall m | i <= m < |us| && us[m].key == us[i].key ensures us[m].body == Blob(f.content) {
        SameKeySameContent(prefix, r, f, m);
      }
      LastWriteIs(us, i, Blob(f.content));
    }
    UnderAppend(VersionPrefix(prefix, r), f.path);
  }

  lemma SameAptFile(r: Release, f: File, g: File, g': File)
    requires Listing(r.apt) && Overlays(r, g, f) && Overlays(r, g', f)
    ensures g' == g
  {
    assert (["apt"] + g.path)[1..] == g.path && (["apt"] + g'.path)[1..] == g'.path;
    OnePathOneFile(r.apt, g, g');
  }

  lemma ArtifactPlace(prefix: Key, r: Release, f: File) returns (i: nat)
    requires f in r.artifacts && f.path != [MANIFEST]
    ensures i < |Payload(prefix, r)| && (Payload(prefix, r) + [Commit(prefix, r)])[i] == Upload(VersionPrefix(prefix, r) + f.path, Blob(f.content))
  {
    SortSameElements(PathLeq, r.artifacts, f);
    WithoutManifestDrops(Sort(PathLeq, r.artifacts));
    var files := WithoutManifest(Sort(PathLeq, r.artifacts));
    i :| 0 <= i < |files| && files[i] == f;
    assert ArtifactUploads(prefix, r)[i] == Upload(VersionPrefix(prefix, r) + f.path, Blob(f.content));
  }

  lemma AptPlace(prefix: Key, r: Release, g: File) returns (j: nat)
    requires r.candidate != "" && g in r.apt
    ensures |ArtifactUploads(prefix, r)| <= j < |Payload(prefix, r)|
    ensures (Payload(prefix, r) + [Commit(prefix, r)])[j] == Upload(VersionPrefix(prefix, r) + (["apt"] + g.path), Blob(g.content))
  {
    SortSameElements(AptLeq, r.apt, g);
    var k :| 0 <= k < |AptSorted(r)| && AptSorted(r)[k] == g;
    j := |ArtifactUploads(prefix, r)| + k;
    var apt := UploadsUnder(AptBase(prefix, r), AptSorted(r));
    assert AptBase(prefix, r) + g.path == VersionPrefix(prefix, r) + (["apt"] + g.path);
    SecondPart(ArtifactUploads(prefix, r), apt, [Commit(prefix, r)], k);
  }

  lemma SecondPart(a: seq<Upload>, b: seq<Upload>, c: seq<Upload>, k: nat)
    requires k < |b|
    ensures (a + b + c)[|a| + k] == b[k]
  {
  }

  /** After the artifacts, only the APT file itself, or nothing, writes the key of a candidate's APT file. */
  lemma SameKeySameApt(prefix: Key, r: Release, g: File, m: nat)
    requires Listing(r.apt) && r.candidate != "" && g in r.apt && |ArtifactUploads(prefix, r)| <= m <= |Payload(prefix, r)|
    requires (Payload(prefix, r) + [Commit(prefix, r)])[m].key == VersionPrefix(prefix, r) + (["apt"] + g.path)
    ensures (Payload(prefix, r) + [Commit(prefix, r)])[m].body == Blob(g.content)
  {
    var v := VersionPrefix(prefix, r);
    var k := v + (["apt"] + g.path);
    assert k[|v|] == "apt" && k[|v| + 1..] == g.path && ManifestKey(prefix, r)[|v|] == MANIFEST;
    if m < |Payload(prefix, r)| {
      var h := AptSorted(r)[m - |ArtifactUploads(prefix, r)|];
      assert Payload(prefix, r)[m] == UploadsUnder(AptBase(prefix, r), AptSorted(r))[m - |ArtifactUploads(prefix, r)|];
      SortSameElements(AptLeq, r.apt, h);
      assert (v + ["apt"] + h.path)[|v| + 1..] == h.path;
      OnePathOneFile(r.apt, g, h);
    }
  }

  lemma SameKeySameContent(prefix: Key, r: Release, f: File, m: nat)
    requires PrefixClear(prefix) && Listing(r.artifacts) && m <= |Payload(prefix, r)|
    requires f in r.artifacts && f.path != [MANIFEST] && forall g :: !Overlays(r, g, f)
    requires (Payload(prefix, r) + [Commit(prefix, r)])[m].key == VersionPrefix(prefix, r) + f.path
    ensures (Payload(prefix, r) + [Commit(prefix, r)])[m].body == Blob(f.content)
  {
    var v := VersionPrefix(prefix, r);
    assert (v + f.path)[|v|..] == f.path && ManifestKey(prefix, r)[|v|..] == [MANIFEST];
    UnderAppend(v, f.path);
    if m < |ArtifactUploads(prefix, r)| {
      var g := WithoutManifest(Sort(PathLeq, r.artifacts))[m];
      WithoutManifestDrops(Sort(PathLeq, r.artifacts));
      SortSameElements(PathLeq, r.artifacts, g);
      assert (v + g.path)[|v|..] == g.path;
      OnePathOneFile(r.artifacts, f, g);
    } else if m < |Payload(prefix, r)| {
      var g := AptSorted(r)[m - |ArtifactUploads(prefix, r)|];
      SortSameElements(AptLeq, r.apt, g);
      AptSuffix(v, g.path);
      assert !Overlays(r, g, f);
      if r.candidate == "" { AptNotUnder(prefix, ["apt"] + g.path, r); }
    }
  }

  lemma AptSuffix(base: Key, path: Key)
    ensures (base + ["apt"] + path)[|base|..] == ["apt"] + path
  {
  }

  /** The manifest of `r0` is still there, and so is what the store had, or lacked, at `k`. */
  ghost predicate Frozen(prefix: Key, s: Store, s': Store, r0: Release, k: Key) {
    && ManifestKey(prefix, r0) in s'
    && (k in s' <==> k in s)
    && (k in s ==> s'[k] == s[k])
  }

  lemma FrozenStep(prefix: Key, ws: seq<World>, xs: seq<Step>, n: nat, r0: Release, k: Key)
    requires PrefixClear(prefix) && IsHistory(prefix, ws, xs) && n < |xs|
    requires ManifestKey(prefix, r0) in ws[n].store && Under(k, VersionPrefix(prefix, r0))
    ensures Frozen(prefix, ws[n].store, ws[n + 1].store, r0, k)
  {
    HistoryInv(prefix, ws, xs, n);
    var w := ws[n];
    if xs[n].Send? {
      assert !Under(Plan(prefix, Last(w))[w.sent].key, VersionPrefix(prefix, r0));
    }
  }

  lemma FrozenTransitive(prefix: Key, a: Store, b: Store, c: Store, r0: Release, k: Key)
    requires Frozen(prefix, a, b, r0, k) && Frozen(prefix, b, c, r0, k)
    ensures Frozen(prefix, a, c, r0, k)
  {
  }

  /** Once a manifest is visible, nothing under its version prefix is ever written again. */
  lemma {:induction false} PublishedIsFrozen(prefix: Key, ws: seq<World>, xs: seq<Step>, i: nat, j: nat, r0: Release, k: Key)
    requires PrefixClear(prefix) && IsHistory(prefix, ws, xs) && i <= j < |ws|
    requires ManifestKey(prefix, r0) in ws[i].store && Under(k, VersionPrefix(prefix, r0))
    ensures Frozen(prefix, ws[i].store, ws[j].store, r0, k)
    decreases j
  {
    if i < j {
      PublishedIsFrozen(prefix, ws, xs, i, j - 1, r0, k);
      FrozenStep(prefix, ws, xs, j - 1, r0, k);
      FrozenTransitive(prefix, ws[i].store, ws[j - 1].store, ws[j].store, r0, k);
    }
  }

  function Current(prefix: Key, w: World): Option<Object> {
    if LatestKey(prefix) in w.store then Some(w.store[LatestKey(prefix)]) else None
  }

  /** A pointer with a readable version: what a forward check can compare. */
  predicate Readable(p: Object) {
    p.Pointer? && Rank(p.version).Some?
  }

  /** `q` is the pointer `p`, or names a later version. */
  predicate Advances(p: Object, q: Object) {
    q == p || (Readable(p) && Readable(q) && Less(Rank(p.version).value, Rank(q.version).value))
  }

  lemma AdvancesTransitive(p: Object, q: Object, r: Object)
    requires Advances(p, q) && Advances(q, r)
    ensures Advances(p, r)
  {
  }

  /** The pointer, once there, always has a readable version and names a visible manifest of a run with that version. */
  lemma PointerNamesAManifest(prefix: Key, ws: seq<World>, xs: seq<Step>, n: nat)
    requires PrefixClear(prefix) && IsHistory(prefix, ws, xs) && n < |ws| && Current(prefix, ws[n]).Some?
    ensures
      var p := Current(prefix, ws[n]).value;
      Readable(p) && p.manifest in ws[n].store && exists j :: NamesRun(prefix, ws[n], p.version, p.manifest, j)
  {
    HistoryInv(prefix, ws, xs, n);
  }

  /** With a non-empty prefix the pointer stays, and only ever moves to a later version. */
  lemma {:induction false} PointerAdvances(prefix: Key, ws: seq<World>, xs: seq<Step>, i: nat, j: nat)
    requires PrefixClear(prefix) && prefix != [] && IsHistory(prefix, ws, xs) && i <= j < |ws|
    requires Current(prefix, ws[i]).Some?
    ensures Current(prefix, ws[j]).Some? && Advances(Current(prefix, ws[i]).value, Current(prefix, ws[j]).value)
    decreases j
  {
    if i < j {
      PointerAdvances(prefix, ws, xs, i, j - 1);
      PointerStep(prefix, ws, xs, j - 1);
      AdvancesTransitive(Current(prefix, ws[i]).value, Current(prefix, ws[j - 1]).value, Current(prefix, ws[j]).value);
    }
  }

  lemma PointerStep(prefix: Key, ws: seq<World>, xs: seq<Step>, n: nat)
    requires PrefixClear(prefix) && prefix != [] && IsHistory(prefix, ws, xs) && n < |xs|
    requires Current(prefix, ws[n]).Some?
    ensures Current(prefix, ws[n + 1]).Some? && Advances(Current(prefix, ws[n]).value, Current(prefix, ws[n + 1]).value)
  {
    HistoryInv(prefix, ws, xs, n);
    if xs[n].Send? {
      PlanKeys(prefix, Last(ws[n]), ws[n].sent);
    }
  }

  /** In each APT pass, an InRelease file goes out only after every file of another name. */
  lemma InReleaseGoesLast(r: Release, i: nat, j: nat)
    requires i < j < |r.apt| && |AptSorted(r)| == |r.apt| && Name(AptSorted(r)[i]) == "InRelease"
    ensures Name(AptSorted(r)[j]) == "InRelease"
  {
    AptLeqTotal();
    SortSorts(AptLeq, r.apt);
    assert AptLeq(AptSorted(r)[i], AptSorted(r)[j]);
  }

  lemma AptLeqTotal()
    ensures TotalPreorder(AptLeq)
  {
    forall x, y ensures AptLeq(x, y) || AptLeq(y, x) { StrTotal(Joined(x.path), Joined(y.path)); }
    forall x, y, z | AptLeq(x, y) && AptLeq(y, z) ensures AptLeq(x, z) {
      if AptOrder(x) == AptOrder(y) == AptOrder(z) { StrTransitive(Joined(x.path), Joined(y.path), Joined(z.path)); }
    }
  }

  /** The passes send each APT file exactly once. */
  lemma AptPassIsPermutation(r: Release)
    ensures multiset(AptSorted(r)) == multiset(r.apt) && |AptSorted(r)| == |r.apt|
  {
    SortPermutes(AptLeq, r.apt);
  }
}
