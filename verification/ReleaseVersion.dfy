/** Selecting the next installer version from the release history (release-version.py). */
module ReleaseVersion {
  import opened Outcomes
  import opened Decimal
  import opened Text

  datatype Triple = Triple(major: nat, minor: nat, patch: nat)

  predicate LineLess(a: Triple, b: Triple) {
    a.major < b.major || (a.major == b.major && a.minor < b.minor)
  }

  predicate SameLine(a: Triple, b: Triple) {
    a.major == b.major && a.minor == b.minor
  }

  /** The lexicographic order of version triples. */
  predicate Less(a: Triple, b: Triple) {
    LineLess(a, b) || (SameLine(a, b) && a.patch < b.patch)
  }

  datatype VersionError = BadBaseline | OlderLine | ExceedsLimits

  /** The pattern X.Y.Z without leading zeroes. */
  function ParseVersion(s: string): Option<Triple> {
    var parts := Split(s, '.');
    if |parts| == 3 && Canonical(parts[0]) && Canonical(parts[1]) && Canonical(parts[2])
    then Some(Triple(Value(parts[0]), Value(parts[1]), Value(parts[2])))
    else None
  }

  function Format(v: Triple): string {
    Print(v.major) + "." + Print(v.minor) + "." + Print(v.patch)
  }

  predicate IsHex(c: char) {
    IsDigit(c) || 'a' <= c <= 'f'
  }

  predicate Positive(s: string) {
    Canonical(s) && s[0] != '0'
  }

  /** The pattern staging.N.N.hhhhhhhhhhhh. */
  predicate StagingSuffix(s: string) {
    var parts := Split(s, '.');
    && |parts| == 4 && parts[0] == "staging" && Positive(parts[1]) && Positive(parts[2])
    && |parts[3]| == 12 && forall i :: 0 <= i < 12 ==> IsHex(parts[3][i])
  }

  /** RELEASE_TAG on a stripped tag. */
  function ParseTag(tag: string): Option<Triple> {
    if tag == "" || tag[0] != 'v' then None
    else
      var body := tag[1..];
      var dash := IndexOf(body, '-');
      if dash.None? then ParseVersion(body)
      else if StagingSuffix(body[dash.value + 1..]) then ParseVersion(body[..dash.value])
      else None
  }

  function Released(tag: string): Option<Triple> {
    ParseTag(TrimSpace(tag))
  }

  const MAX_FIELD := 255
  const MAX_PATCH := 65535

  predicate WithinLimits(v: Triple) {
    v.major <= 255 && v.minor <= 255 && v.patch <= 65535
  }

  /** `tag` is a release of a line later than `v`'s. */
  predicate LaterLine(tag: string, v: Triple) {
    Released(tag).Some? && LineLess(v, Released(tag).value)
  }

  predicate InLine(tag: string, v: Triple) {
    Released(tag).Some? && SameLine(Released(tag).value, v)
  }

  /** The least version of the baseline's line that is at or above the baseline and above every release of that line. */
  ghost predicate IsNext(base: Triple, tags: seq<string>, v: Triple) {
    && SameLine(v, base) && base.patch <= v.patch
    && (forall t :: t in tags && InLine(t, base) ==> Released(t).value.patch < v.patch)
    && (v.patch == base.patch || exists t :: t in tags && InLine(t, base) && Released(t).value.patch + 1 == v.patch)
  }

  /** What next_version answers, read as a requirement. */
  ghost predicate Answers(base: string, tags: seq<string>, outcome: Result<Triple, VersionError>) {
    var b := ParseVersion(base);
    if b.None? then outcome == Bad(BadBaseline)
    else if exists t :: t in tags && LaterLine(t, b.value) then outcome == Bad(OlderLine)
    else exists v :: IsNext(b.value, tags, v) && outcome == if WithinLimits(v) then Ok(v) else Bad(ExceedsLimits)
  }

  method NextVersion(base: string, tags: seq<string>) returns (outcome: Result<Triple, VersionError>)
    ensures Answers(base, tags, outcome)
  {
    var parsed := ParseVersion(base);
    if parsed.None? {
      return Bad(BadBaseline);
    }
    var b := parsed.value;
    var patch: nat := b.patch;
    for i := 0 to |tags|
      invariant forall t :: t in tags[..i] ==> !LaterLine(t, b)
      invariant IsNext(b, tags[..i], Triple(b.major, b.minor, patch))
    {
      assert tags[..i + 1] == tags[..i] + [tags[i]];
      var release := Released(tags[i]);
      if release.None? {
        continue;
      }
      if LineLess(b, release.value) {
        assert tags[i] in tags && LaterLine(tags[i], b);
        return Bad(OlderLine);
      }
      if SameLine(release.value, b) {
        assert InLine(tags[i], b) && tags[i] in tags[..i + 1];
        patch := if patch >= release.value.patch + 1 then patch else release.value.patch + 1;
      }
    }
    assert tags[..|tags|] == tags;
    var v := Triple(b.major, b.minor, patch);
    if b.major > MAX_FIELD || b.minor > MAX_FIELD || patch > MAX_PATCH {
      outcome := Bad(ExceedsLimits);
    } else {
      outcome := Ok(v);
    }
    assert IsNext(b, tags, v);
  }

  // ---------------------------------------------------------------------------------------
  // What follows from the answer
  // ---------------------------------------------------------------------------------------

  /** The answer depends only on which tags there are: not on their order, nor on repetitions. */
  lemma OrderIndependent(base: string, tags: seq<string>, tags': seq<string>, x: Result<Triple, VersionError>, y: Result<Triple, VersionError>)
    requires forall t :: t in tags <==> t in tags'
    requires Answers(base, tags, x) && Answers(base, tags', y)
    ensures x == y
  {
    var b := ParseVersion(base);
    if b.Some? {
      if !exists t :: t in tags && LaterLine(t, b.value) {
        var v :| IsNext(b.value, tags, v) && x == if WithinLimits(v) then Ok(v) else Bad(ExceedsLimits);
        var w :| IsNext(b.value, tags', w) && y == if WithinLimits(w) then Ok(w) else Bad(ExceedsLimits);
        NextUnique(b.value, tags, v, tags', w);
      }
    }
  }

  lemma NextUnique(b: Triple, tags: seq<string>, v: Triple, tags': seq<string>, w: Triple)
    requires forall t :: t in tags <==> t in tags'
    requires IsNext(b, tags, v) && IsNext(b, tags', w)
    ensures v == w
  {
  }

  /** No smaller patch of the line would do. */
  lemma NextIsLeast(base: Triple, tags: seq<string>, v: Triple, patch: nat)
    requires IsNext(base, tags, v) && base.patch <= patch < v.patch
    ensures exists t :: t in tags && InLine(t, base) && patch <= Released(t).value.patch
  {
    var t :| t in tags && InLine(t, base) && Released(t).value.patch + 1 == v.patch;
    assert patch <= Released(t).value.patch;
  }

  /** The selected version lies above every accepted tag. */
  lemma ExceedsEveryTag(base: string, tags: seq<string>, v: Triple, t: string)
    requires Answers(base, tags, Ok(v)) && t in tags && Released(t).Some?
    ensures Less(Released(t).value, v)
  {
    var b := ParseVersion(base).value;
    assert !LaterLine(t, b);
    assert IsNext(b, tags, v);
    if SameLine(Released(t).value, b) { assert InLine(t, b); }
  }

  // ---------------------------------------------------------------------------------------
  // Tags made from selected versions
  // ---------------------------------------------------------------------------------------

  /** `metadata`: the tag of a release, or of a staging candidate when a suffix is given. */
  function TagOf(v: Triple, suffix: string): string {
    "v" + Format(v) + (if suffix == "" then "" else "-" + suffix)
  }

  lemma PrintPlain(n: nat)
    ensures Canonical(Print(n)) && Value(Print(n)) == n
    ensures '.' !in Print(n) && '-' !in Print(n)
  {
    PrintThenRead(n);
  }

  lemma FormatParses(v: Triple)
    ensures ParseVersion(Format(v)) == Some(v) && '-' !in Format(v)
  {
    PrintPlain(v.major);
    PrintPlain(v.minor);
    PrintPlain(v.patch);
    var a, b, c := Print(v.major), Print(v.minor), Print(v.patch);
    assert Format(v) == a + ['.'] + (b + ['.'] + c);
    SplitFirst(a, '.', b + ['.'] + c);
    SplitFirst(b, '.', c);
    SplitOne(c, '.');
  }

  lemma TagParses(v: Triple, suffix: string)
    requires suffix == "" || StagingSuffix(suffix)
    ensures ParseTag(TagOf(v, suffix)) == Some(v)
  {
    FormatParses(v);
    var tag := TagOf(v, suffix);
    if suffix == "" {
      assert tag[1..] == Format(v);
    } else {
      assert tag[1..] == Format(v) + ['-'] + suffix;
      IndexOfFirst(Format(v), '-', suffix);
      assert tag[1..][..|Format(v)|] == Format(v);
      assert tag[1..][|Format(v)| + 1..] == suffix;
    }
  }

  predicate NoEdgeSpace(s: string) {
    s != "" && !IsSpace(s[0]) && !IsSpace(s[|s| - 1])
  }

  lemma {:induction false} SplitLast(s: string, c: char)
    requires s != "" && Split(s, c)[|Split(s, c)| - 1] != ""
    ensures s[|s| - 1] == Split(s, c)[|Split(s, c)| - 1][|Split(s, c)[|Split(s, c)| - 1]| - 1]
    decreases |s|
  {
    var i := IndexOf(s, c);
    if i.Some? {
      var rest := s[i.value + 1..];
      if rest != "" {
        var parts := Split(rest, c);
        assert Split(s, c) == [s[..i.value]] + parts;
        assert Split(s, c)[|Split(s, c)| - 1] == parts[|parts| - 1];
        SplitLast(rest, c);
      }
    }
  }

  lemma TagTrimmed(v: Triple, suffix: string)
    requires suffix == "" || StagingSuffix(suffix)
    ensures TrimSpace(TagOf(v, suffix)) == TagOf(v, suffix)
  {
    var tag := TagOf(v, suffix);
    PrintPlain(v.patch);
    if suffix == "" {
      var p := Print(v.patch);
      assert tag[|tag| - 1] == p[|p| - 1];
    } else {
      SplitLast(suffix, '.');
      assert tag[|tag| - 1] == suffix[|suffix| - 1];
    }
    assert tag[0] == 'v';
    assert NoEdgeSpace(tag);
  }

  /** Once the selected version is tagged, stable or staging, the next selection is exactly one patch later, or beyond the limits. */
  lemma RepeatedReleaseAdvances(base: string, tags: seq<string>, v: Triple, suffix: string, outcome: Result<Triple, VersionError>)
    requires suffix == "" || StagingSuffix(suffix)
    requires Answers(base, tags, Ok(v)) && Answers(base, tags + [TagOf(v, suffix)], outcome)
    ensures outcome == if v.patch + 1 <= 65535 then Ok(v.(patch := v.patch + 1)) else Bad(ExceedsLimits)
  {
    var b := ParseVersion(base).value;
    var tag := TagOf(v, suffix);
    var tags' := tags + [tag];
    TagParses(v, suffix);
    TagTrimmed(v, suffix);
    assert Released(tag) == Some(v);
    assert IsNext(b, tags, v);
    assert InLine(tag, b) && tag in tags';
    assert !exists t :: t in tags' && LaterLine(t, b);
    var w := v.(patch := v.patch + 1);
    assert IsNext(b, tags', w);
    assert Answers(base, tags', if WithinLimits(w) then Ok(w) else Bad(ExceedsLimits));
    OrderIndependent(base, tags', tags', outcome, if WithinLimits(w) then Ok(w) else Bad(ExceedsLimits));
  }
}
