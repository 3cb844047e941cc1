/** Which version, tag and candidate names are accepted: exactly those of the stated form. */
module ReleaseNames {
  import opened Outcomes
  import opened Decimal
  import opened Text
  import opened ReleaseVersion
  import opened Publish

  lemma Three(a: string, b: string, c: string)
    ensures JoinWith([a, b, c], '.') == a + "." + b + "." + c
  {
    assert [a, b, c][1..] == [b, c] && [b, c][1..] == [c];
    assert JoinWith([c], '.') == c && JoinWith([b, c], '.') == b + ['.'] + c;
    assert a + "." + (b + "." + c) == a + "." + b + "." + c;
  }

  lemma Four(a: string, b: string, c: string, d: string)
    ensures JoinWith([a, b, c, d], '.') == a + "." + b + "." + c + "." + d
  {
    assert [a, b, c, d][1..] == [b, c, d];
    Three(b, c, d);
  }

  lemma DigitsHaveNoDot(s: string)
    requires AllDigits(s)
    ensures '.' !in s && '-' !in s
  {
  }

  /** A version is accepted exactly when it is three numerals without leading zeroes between dots, and then as their values. */
  lemma VersionIff(s: string, v: Triple)
    ensures ParseVersion(s) == Some(v) <==> s == Format(v)
  {
    if ParseVersion(s) == Some(v) {
      var p := Split(s, '.');
      SplitJoins(s, '.');
      assert p == [p[0], p[1], p[2]];
      Three(p[0], p[1], p[2]);
      ReadThenPrint(p[0]);
      ReadThenPrint(p[1]);
      ReadThenPrint(p[2]);
    }
    if s == Format(v) { FormatParses(v); }
  }

  /** staging, two positive numerals, and twelve hexadecimal digits. */
  ghost predicate IsStaging(suffix: string) {
    exists a, b, h :: StagingParts(suffix, a, b, h)
  }

  predicate StagingParts(suffix: string, a: string, b: string, h: string) {
    && suffix == "staging" + "." + a + "." + b + "." + h
    && Canonical(a) && a != "0" && Canonical(b) && b != "0"
    && |h| == 12 && forall i :: 0 <= i < 12 ==> IsDigit(h[i]) || 'a' <= h[i] <= 'f'
  }

  lemma PositiveIff(s: string)
    ensures Positive(s) <==> Canonical(s) && s != "0"
  {
    if Canonical(s) && s[0] == '0' { assert s == "0"; }
  }

  lemma StagingIff(suffix: string)
    ensures StagingSuffix(suffix) <==> IsStaging(suffix)
  {
    if StagingSuffix(suffix) {
      var p := Split(suffix, '.');
      SplitJoins(suffix, '.');
      assert p == [p[0], p[1], p[2], p[3]];
      Four(p[0], p[1], p[2], p[3]);
      PositiveIff(p[1]);
      PositiveIff(p[2]);
      assert StagingParts(suffix, p[1], p[2], p[3]);
    }
    if a, b, h :| StagingParts(suffix, a, b, h) {
      PositiveIff(a);
      PositiveIff(b);
      Four("staging", a, b, h);
      assert Without(["staging", a, b, h], '.');
      JoinSplits(["staging", a, b, h], '.');
    }
  }

  /** A tag is accepted as version `v` exactly when it is the stable tag of `v` or one of its staging tags. */
  lemma TagIff(tag: string, v: Triple)
    ensures ParseTag(tag) == Some(v) <==>
            tag == TagOf(v, "") || exists suffix :: IsStaging(suffix) && tag == TagOf(v, suffix)
  {
    if ParseTag(tag) == Some(v) { TagForm(tag, v); }
    if tag == TagOf(v, "") { TagParses(v, ""); }
    if suffix :| IsStaging(suffix) && tag == TagOf(v, suffix) {
      StagingIff(suffix);
      TagParses(v, suffix);
    }
  }

  lemma TagForm(tag: string, v: Triple)
    requires ParseTag(tag) == Some(v)
    ensures tag == TagOf(v, "") || exists suffix :: IsStaging(suffix) && tag == TagOf(v, suffix)
  {
    var body := tag[1..];
    var dash := IndexOf(body, '-');
    assert tag == "v" + body;
    if dash.None? {
      VersionIff(body, v);
    } else {
      var suffix := body[dash.value + 1..];
      VersionIff(body[..dash.value], v);
      StagingIff(suffix);
      StagingNotEmpty(suffix);
      Reassemble(body, dash.value);
      assert tag == TagOf(v, suffix);
    }
  }

  lemma Reassemble(body: string, at: nat)
    requires at < |body| && body[at] == '-'
    ensures "v" + body == "v" + body[..at] + ("-" + body[at + 1..])
  {
  }

  lemma StagingNotEmpty(suffix: string)
    requires StagingSuffix(suffix)
    ensures suffix != ""
  {
  }

  // ---------------------------------------------------------------------------------------
  // What the publisher admits
  // ---------------------------------------------------------------------------------------

  predicate RankParts(version: string, t: Triple, a: string, b: string, c: string) {
    && version == a + "." + b + "." + c && IsNumeral(a) && IsNumeral(b) && IsNumeral(c)
    && t == Triple(Value(a), Value(b), Value(c))
  }

  /** The publisher reads a version exactly when it is three numerals between dots, as their values. */
  lemma RankIff(version: string, t: Triple)
    ensures Rank(version) == Some(t) <==> exists a, b, c :: RankParts(version, t, a, b, c)
  {
    if Rank(version) == Some(t) {
      var p := Split(version, '.');
      SplitJoins(version, '.');
      assert p == [p[0], p[1], p[2]];
      Three(p[0], p[1], p[2]);
      assert RankParts(version, t, p[0], p[1], p[2]);
    }
    if a, b, c :| RankParts(version, t, a, b, c) {
      Three(a, b, c);
      assert Without([a, b, c], '.');
      JoinSplits([a, b, c], '.');
    }
  }

  predicate CandidateParts(candidate: string, version: string, a: string, b: string, h: string) {
    && candidate == version + "-" + ("staging" + "." + a + "." + b + "." + h) && IsNumeral(a) && IsNumeral(b)
    && |h| == 12 && forall i :: 0 <= i < 12 ==> IsDigit(h[i]) || 'a' <= h[i] <= 'f'
  }

  /** A candidate belongs to a version exactly when it is the version, a dash, staging, two numerals and twelve hexadecimal digits. */
  lemma CandidateIff(candidate: string, version: string)
    ensures CandidateOf(candidate, version) <==> exists a, b, h :: CandidateParts(candidate, version, a, b, h)
  {
    if CandidateOf(candidate, version) { CandidateHasParts(candidate, version); }
    if a, b, h :| CandidateParts(candidate, version, a, b, h) { PartsMakeCandidate(candidate, version, a, b, h); }
  }

  lemma CandidateHasParts(candidate: string, version: string)
    requires CandidateOf(candidate, version)
    ensures exists a, b, h :: CandidateParts(candidate, version, a, b, h)
  {
    var rest := candidate[|version| + 1..];
    var p := Split(rest, '.');
    SplitJoins(rest, '.');
    assert p == [p[0], p[1], p[2], p[3]];
    Four(p[0], p[1], p[2], p[3]);
    assert candidate == candidate[..|version| + 1] + rest;
    assert CandidateParts(candidate, version, p[1], p[2], p[3]);
  }

  lemma PartsMakeCandidate(candidate: string, version: string, a: string, b: string, h: string)
    requires CandidateParts(candidate, version, a, b, h)
    ensures CandidateOf(candidate, version)
  {
    var rest := "staging" + "." + a + "." + b + "." + h;
    Four("staging", a, b, h);
    assert Without(["staging", a, b, h], '.');
    JoinSplits(["staging", a, b, h], '.');
    Suffix(version + "-", rest);
  }

  lemma Suffix(head: string, rest: string)
    ensures (head + rest)[|head|..] == rest && (head + rest)[..|head|] == head
  {
  }

  lemma {:induction false} FindIff(files: seq<File>, path: Key)
    ensures HasFile(files, path) <==> exists f :: f in files && f.path == path
    ensures HasFile(files, path) ==> FindFile(files, path).value in files && FindFile(files, path).value.path == path
  {
    if files != [] {
      FindIff(files[1..], path);
      assert forall f :: f in files <==> f == files[0] || f in files[1..];
    }
  }

  ghost predicate Admissible(prefix: Key, r: Release) {
    var suite := if r.candidate == "" then "stable" else "staging";
    && (exists t, a, b, c :: RankParts(r.version, t, a, b, c))
    && r.channel == suite
    && (exists f :: f in r.apt && f.path == ["dists", suite, "InRelease"])
    && (exists f :: f in r.artifacts && f.path == ["release-manifest.json"])
    && (forall f :: f in r.artifacts || f in r.apt ==> !f.symlink)
    && (r.candidate != "" ==>
         && prefix == ["packages"] && r.catalogMatches
         && exists a, b, h :: CandidateParts(r.candidate, r.version, a, b, h))
  }

  lemma NoSymlinkIff(files: seq<File>)
    ensures HasSymlink(files) <==> exists f :: f in files && f.symlink
  {
    if f :| f in files && f.symlink {
      var i :| 0 <= i < |files| && files[i] == f;
    }
  }

  /**
   A release passes the checks of its inputs exactly when its version is three numerals, its channel is that of
   its kind, the signed index of its suite and the catalog are there, nothing is a link, and a candidate has a
   candidate's name, the packages prefix and a matching catalog.
   */
  lemma AdmittedIff(prefix: Key, r: Release)
    ensures InputCheck(prefix, r).None? <==> Admissible(prefix, r)
  {
    var suite := if r.candidate == "" then "stable" else "staging";
    FindIff(r.apt, ["dists", suite, "InRelease"]);
    FindIff(r.artifacts, [MANIFEST]);
    NoSymlinkIff(r.artifacts);
    NoSymlinkIff(r.apt);
    CandidateIff(r.candidate, r.version);
    RankedIff(r.version);
  }

  lemma RankedIff(version: string)
    ensures Rank(version).Some? <==> exists t, a, b, c :: RankParts(version, t, a, b, c)
  {
    if Rank(version).Some? { RankIff(version, Rank(version).value); }
    if t, a, b, c :| RankParts(version, t, a, b, c) { RankIff(version, t); }
  }

  // ---------------------------------------------------------------------------------------
  // The checks against the store
  // ---------------------------------------------------------------------------------------

  /** The object is a pointer to version `t`. */
  predicate ReadsAs(o: Object, t: Triple) {
    o.Pointer? && Rank(o.version) == Some(t)
  }

  /**
   An admissible release is refused as published exactly when its manifest is there, then for a pointer that cannot be
   read, then for one that is not below its version; otherwise it is let through.
   */
  lemma StoreCheckIff(store: Store, prefix: Key, r: Release, t: Triple)
    requires Rank(r.version) == Some(t)
    ensures
      var published, checked := ManifestKey(prefix, r) in store, CheckedKey(prefix) in store;
      var outcome := StoreCheck(store, prefix, r);
      && (outcome == Some(AlreadyPublished) <==> published)
      && (outcome == Some(InvalidPointer) <==> !published && checked && forall c :: !ReadsAs(store[CheckedKey(prefix)], c))
      && (outcome == Some(NotForward) <==> !published && checked && exists c :: ReadsAs(store[CheckedKey(prefix)], c) && !Less(c, t))
      && (outcome.None? <==> !published && (checked ==> exists c :: ReadsAs(store[CheckedKey(prefix)], c) && Less(c, t)))
  {
    if CheckedKey(prefix) in store && store[CheckedKey(prefix)].Pointer? && Rank(store[CheckedKey(prefix)].version).Some? {
      assert ReadsAs(store[CheckedKey(prefix)], Rank(store[CheckedKey(prefix)].version).value);
    }
  }
}
