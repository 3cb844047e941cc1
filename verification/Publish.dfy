/**
Publication of a release to the remote store (publish-r2.py).

A key is the list of its parts between slashes. A run inspects its inputs and the store, and then uploads
objects one by one; it may die after any of them. Runs do not overlap.
*/
module Publish {
  import opened Outcomes
  import opened Decimal
  import opened Text
  import opened Ordering
  import opened ReleaseVersion

  type Key = seq<string>

  /** A pointer is what latest.json holds; every other object is a blob. */
  datatype Object = Blob(content: string) | Pointer(version: string, manifest: Key)

  type Store = map<Key, Object>

  datatype Upload = Upload(key: Key, body: Object)

  /** A file below the artifact or APT directory: its path relative to it, as parts. */
  datatype File = File(path: Key, content: string, symlink: bool)

  /** What a publication is given. `candidate` is empty for a stable release. */
  datatype Release = Release(
    version: string, candidate: string, channel: string,
    artifacts: seq<File>, apt: seq<File>, catalogMatches: bool)

  datatype Refusal =
    | BadVersion | WrongChannel | BadCandidate | BadPrefix | MissingApt | MissingCatalog
    | CatalogMismatch | Symlink | AlreadyPublished | InvalidPointer | NotForward

  const MANIFEST := "release-manifest.json"
  const LATEST := "latest.json"

  // ---------------------------------------------------------------------------------------
  // Versions and identities
  // ---------------------------------------------------------------------------------------

  /** The publisher's pattern: three runs of digits, leading zeroes allowed. */
  function Rank(version: string): Option<Triple> {
    var parts := Split(version, '.');
    if |parts| == 3 && IsNumeral(parts[0]) && IsNumeral(parts[1]) && IsNumeral(parts[2])
    then Some(Triple(Value(parts[0]), Value(parts[1]), Value(parts[2])))
    else None
  }

  predicate IsNumeral(s: string) {
    s != "" && AllDigits(s)
  }

  /** version + "-staging.N.N.hhhhhhhhhhhh". */
  predicate CandidateOf(candidate: string, version: string) {
    && IsPrefixed(candidate, version + "-")
    && var parts := Split(candidate[|version| + 1..], '.');
    && |parts| == 4 && parts[0] == "staging" && IsNumeral(parts[1]) && IsNumeral(parts[2])
    && |parts[3]| == 12 && forall i :: 0 <= i < 12 ==> IsHex(parts[3][i])
  }

  function Identity(r: Release): string {
    if r.candidate != "" then r.candidate else r.version
  }

  function Directory(r: Release): string {
    if r.candidate != "" then "candidates" else "releases"
  }

  function VersionPrefix(prefix: Key, r: Release): Key {
    prefix + [Directory(r), Identity(r)]
  }

  function ManifestKey(prefix: Key, r: Release): Key {
    VersionPrefix(prefix, r) + [MANIFEST]
  }

  /** The key the final upload writes: empty parts are left out. */
  function LatestKey(prefix: Key): Key {
    prefix + [LATEST]
  }

  /** The key the forward check reads: the prefix, a slash, and the name. */
  function CheckedKey(prefix: Key): Key {
    if prefix == [] then ["", LATEST] else prefix + [LATEST]
  }

  // ---------------------------------------------------------------------------------------
  // The upload sequence
  // ---------------------------------------------------------------------------------------

  function Name(f: File): string {
    if f.path == [] then "" else f.path[|f.path| - 1]
  }

  function AptOrder(f: File): nat {
    if Name(f) == "Release" then 1
    else if Name(f) == "Release.gpg" then 2
    else if Name(f) == "InRelease" then 3
    else 0
  }

  function Joined(path: Key): string {
    if path == [] then "" else if |path| == 1 then path[0] else path[0] + "/" + Joined(path[1..])
  }

  predicate AptLeq(a: File, b: File) {
    AptOrder(a) < AptOrder(b) || (AptOrder(a) == AptOrder(b) && StrLeq(Joined(a.path), Joined(b.path)))
  }

  predicate PartsLeq(a: Key, b: Key) {
    a == [] || (b != [] && if a[0] == b[0] then PartsLeq(a[1..], b[1..]) else StrLeq(a[0], b[0]))
  }

  predicate PathLeq(a: File, b: File) {
    PartsLeq(a.path, b.path)
  }

  function UploadsUnder(base: Key, files: seq<File>): seq<Upload> {
    seq(|files|, i requires 0 <= i < |files| => Upload(base + files[i].path, Blob(files[i].content)))
  }

  function WithoutManifest(files: seq<File>): seq<File> {
    if files == [] then []
    else (if files[0].path == [MANIFEST] then [] else [files[0]]) + WithoutManifest(files[1..])
  }

  function FindFile(files: seq<File>, path: Key): Option<File> {
    if files == [] then None else if files[0].path == path then Some(files[0]) else FindFile(files[1..], path)
  }

  function CatalogContent(r: Release): string {
    var f := FindFile(r.artifacts, [MANIFEST]);
    if f.Some? then f.value.content else ""
  }

  function AptSorted(r: Release): seq<File> {
    Sort(AptLeq, r.apt)
  }

  function ArtifactUploads(prefix: Key, r: Release): seq<Upload> {
    UploadsUnder(VersionPrefix(prefix, r), WithoutManifest(Sort(PathLeq, r.artifacts)))
  }

  function AptBase(prefix: Key, r: Release): Key {
    if r.candidate != "" then VersionPrefix(prefix, r) + ["apt"] else ["apt"]
  }

  /** Everything that goes out before the commit marker. */
  function Payload(prefix: Key, r: Release): seq<Upload> {
    ArtifactUploads(prefix, r) + UploadsUnder(AptBase(prefix, r), AptSorted(r))
  }

  function Commit(prefix: Key, r: Release): Upload {
    Upload(ManifestKey(prefix, r), Blob(CatalogContent(r)))
  }

  function LatestUpload(prefix: Key, r: Release): Upload {
    Upload(LatestKey(prefix), Pointer(r.version, ManifestKey(prefix, r)))
  }

  /** What goes out after it. */
  function Followup(prefix: Key, r: Release): seq<Upload> {
    (if r.candidate != "" then UploadsUnder(["apt"], AptSorted(r)) else []) + [LatestUpload(prefix, r)]
  }

  function Plan(prefix: Key, r: Release): seq<Upload> {
    Payload(prefix, r) + [Commit(prefix, r)] + Followup(prefix, r)
  }

  function Put(store: Store, u: Upload): Store {
    store[u.key := u.body]
  }

  function PutAll(store: Store, us: seq<Upload>): Store
    decreases us
  {
    if us == [] then store else PutAll(Put(store, us[0]), us[1..])
  }

  // ---------------------------------------------------------------------------------------
  // The checks before the first write
  // ---------------------------------------------------------------------------------------

  predicate HasFile(files: seq<File>, path: Key) {
    FindFile(files, path).Some?
  }

  predicate HasSymlink(files: seq<File>) {
    exists i :: 0 <= i < |files| && files[i].symlink
  }

  /** The checks on the inputs alone. */
  function InputCheck(prefix: Key, r: Release): Option<Refusal> {
    var suite := if r.candidate != "" then "staging" else "stable";
    if Rank(r.version).None? then Some(BadVersion)
    else if r.channel != suite then Some(WrongChannel)
    else if r.candidate != "" && !CandidateOf(r.candidate, r.version) then Some(BadCandidate)
    else if r.candidate != "" && prefix != ["packages"] then Some(BadPrefix)
    else if !HasFile(r.apt, ["dists", suite, "InRelease"]) then Some(MissingApt)
    else if !HasFile(r.artifacts, [MANIFEST]) then Some(MissingCatalog)
    else if r.candidate != "" && !r.catalogMatches then Some(CatalogMismatch)
    else if HasSymlink(r.artifacts) || HasSymlink(r.apt) then Some(Symlink)
    else None
  }

  /** require_unpublished and require_forward_version. */
  function StoreCheck(store: Store, prefix: Key, r: Release): Option<Refusal>
    requires Rank(r.version).Some?
  {
    if ManifestKey(prefix, r) in store then Some(AlreadyPublished)
    else if CheckedKey(prefix) !in store then None
    else
      var current := store[CheckedKey(prefix)];
      if !current.Pointer? || Rank(current.version).None? then Some(InvalidPointer)
      else if !Less(Rank(current.version).value, Rank(r.version).value) then Some(NotForward)
      else None
  }

  function Check(store: Store, prefix: Key, r: Release): Option<Refusal> {
    var refusal := InputCheck(prefix, r);
    if refusal.Some? then refusal else StoreCheck(store, prefix, r)
  }

  /** The remote store, and the run of the publisher against it. */
  class Remote {
    var objects: Store

    constructor ()
      ensures objects == map[]
    {
      objects := map[];
    }

    method PutObject(u: Upload)
      modifies this
      ensures objects == Put(old(objects), u)
    {
      objects := objects[u.key := u.body];
    }

    /** Uploads in order, until `budget` uploads have been made. */
    method SendAll(us: seq<Upload>, budget: nat) returns (left: nat)
      modifies this
      ensures objects == PutAll(old(objects), Take(us, budget)) && left == budget - |Take(us, budget)|
    {
      left := budget;
      var n := 0;
      while n < |us| && left > 0
        invariant 0 <= n <= |us| && left == budget - n
        invariant objects == PutAll(old(objects), us[..n])
      {
        PutAllSnoc(old(objects), us[..n], us[n]);
        assert us[..n + 1] == us[..n] + [us[n]];
        PutObject(us[n]);
        n, left := n + 1, left - 1;
      }
      assert us[..n] == Take(us, budget);
    }

    /** One publication that dies after at most `budget` uploads. */
    method Publish(prefix: Key, r: Release, dryRun: bool, budget: nat) returns (refused: Option<Refusal>)
      modifies this
      ensures refused == if dryRun then InputCheck(prefix, r) else Check(old(objects), prefix, r)
      ensures objects ==
        if dryRun || refused.Some? then old(objects) else PutAll(old(objects), Take(Plan(prefix, r), budget))
    {
      refused := InputCheck(prefix, r);
      if refused.Some? || dryRun {
        return;
      }
      refused := StoreCheck(objects, prefix, r);
      if refused.Some? {
        return;
      }
      SendPlan(prefix, r, budget);
    }

    /** Artifacts, APT files, the catalog, for a candidate the APT files again, and the pointer. */
    method SendPlan(prefix: Key, r: Release, budget: nat)
      modifies this
      ensures objects == PutAll(old(objects), Take(Plan(prefix, r), budget))
    {
      ghost var start := objects;
      PlanParts(prefix, r);
      var left := SendPayload(ArtifactUploads(prefix, r), UploadsUnder(AptBase(prefix, r), AptSorted(r)), Commit(prefix, r), budget);
      var again := if r.candidate != "" then UploadsUnder(["apt"], AptSorted(r)) else [];
      ghost var done := Payload(prefix, r) + [Commit(prefix, r)];
      left := SendNext(start, done, again, left, budget);
      left := SendNext(start, done + again, [LatestUpload(prefix, r)], left, budget);
    }

    /** The files that a release consists of, and its commit marker. */
    method SendPayload(artifacts: seq<Upload>, apt: seq<Upload>, commit: Upload, budget: nat) returns (left: nat)
      modifies this
      ensures objects == PutAll(old(objects), Take(artifacts + apt + [commit], budget))
      ensures left == budget - |Take(artifacts + apt + [commit], budget)|
    {
      ghost var start := objects;
      left := SendAll(artifacts, budget);
      left := SendNext(start, artifacts, apt, left, budget);
      left := SendNext(start, artifacts + apt, [commit], left, budget);
    }

    /** Goes on with `us` after `done`, under a budget of `budget` uploads for both. */
    method SendNext(ghost start: Store, ghost done: seq<Upload>, us: seq<Upload>, left: nat, ghost budget: nat) returns (left': nat)
      requires objects == PutAll(start, Take(done, budget)) && left == budget - |Take(done, budget)|
      modifies this
      ensures objects == PutAll(start, Take(done + us, budget)) && left' == budget - |Take(done + us, budget)|
    {
      TakeAppend(start, done, us, budget);
      left' := SendAll(us, left);
    }
  }

  function Take(us: seq<Upload>, n: nat): seq<Upload> {
    if n <= |us| then us[..n] else us
  }

  lemma PlanParts(prefix: Key, r: Release)
    ensures
      var again := if r.candidate != "" then UploadsUnder(["apt"], AptSorted(r)) else [];
      Plan(prefix, r) == Payload(prefix, r) + [Commit(prefix, r)] + again + [LatestUpload(prefix, r)]
  {
  }

  lemma {:induction false} PutAllAppend(store: Store, a: seq<Upload>, b: seq<Upload>)
    ensures PutAll(store, a + b) == PutAll(PutAll(store, a), b)
    decreases a
  {
    if a == [] {
      assert a + b == b;
    } else {
      PutAllAppend(Put(store, a[0]), a[1..], b);
      assert (a + b)[1..] == a[1..] + b;
    }
  }

  /** Sending two lists one after the other under one budget is sending their concatenation. */
  lemma TakeAppend(store: Store, a: seq<Upload>, b: seq<Upload>, n: nat)
    ensures |Take(a, n)| <= n
    ensures |Take(a + b, n)| == |Take(a, n)| + |Take(b, n - |Take(a, n)|)|
    ensures PutAll(PutAll(store, Take(a, n)), Take(b, n - |Take(a, n)|)) == PutAll(store, Take(a + b, n))
  {
    assert Take(a + b, n) == Take(a, n) + Take(b, n - |Take(a, n)|);
    PutAllAppend(store, Take(a, n), Take(b, n - |Take(a, n)|));
  }

  lemma {:induction false} PutAllSnoc(store: Store, us: seq<Upload>, u: Upload)
    ensures PutAll(store, us + [u]) == Put(PutAll(store, us), u)
    decreases us
  {
    if us == [] {
      assert [u][1..] == [];
    } else {
      PutAllSnoc(Put(store, us[0]), us[1..], u);
      assert (us + [u])[1..] == us[1..] + [u];
    }
  }

  lemma PutAllNext(store: Store, us: seq<Upload>, n: nat)
    requires n < |us|
    ensures PutAll(store, us[..n + 1]) == Put(PutAll(store, us[..n]), us[n])
  {
    assert us[..n + 1] == us[..n] + [us[n]];
    PutAllSnoc(store, us[..n], us[n]);
  }

  // ---------------------------------------------------------------------------------------
  // Any sequence of runs
  // ---------------------------------------------------------------------------------------

  /** `begun` lists the admitted runs; `sent` counts the uploads of the last one, `live` while it has not ended. */
  datatype World = World(store: Store, begun: seq<Release>, sent: nat, live: bool)

  datatype Step = Begin(r: Release) | Send | Stop

  /** What listing a directory gives: files with distinct, non-empty relative paths. */
  predicate Listing(files: seq<File>) {
    && (forall i :: 0 <= i < |files| ==> files[i].path != [])
    && (forall i, j :: 0 <= i < j < |files| ==> files[i].path != files[j].path)
  }

  predicate Enabled(prefix: Key, w: World, x: Step) {
    match x
    case Begin(r) => !w.live && Listing(r.artifacts) && Listing(r.apt) && Check(w.store, prefix, r).None?
    case Send => w.live && w.begun != [] && w.sent < |Plan(prefix, Last(w))|
    case Stop => w.live
  }

  function Last(w: World): Release
    requires w.begun != []
  {
    w.begun[|w.begun| - 1]
  }

  /** `Stop` is the end of a run, after its last upload or by a crash before it. */
  function Apply(prefix: Key, w: World, x: Step): World
    requires Enabled(prefix, w, x)
  {
    match x
    case Begin(r) => w.(begun := w.begun + [r], sent := 0, live := true)
    case Send => w.(store := Put(w.store, Plan(prefix, Last(w))[w.sent]), sent := w.sent + 1)
    case Stop => w.(live := false)
  }

  ghost predicate IsHistory(prefix: Key, ws: seq<World>, xs: seq<Step>) {
    && |ws| == |xs| + 1 && ws[0] == World(map[], [], 0, false)
    && forall n :: 0 <= n < |xs| ==> Enabled(prefix, ws[n], xs[n]) && ws[n + 1] == Apply(prefix, ws[n], xs[n])
  }
}
