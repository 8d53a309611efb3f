/** No path is returned twice by `glob`'s expansion (`src/glob.rs`). */
module GlobDistinct {
  import opened GlobPattern
  import opened GlobLiteral
  import opened GlobPath
  import opened GlobExpand

  /** Directory entries are non-empty and hold no separator. */
  ghost predicate CleanListings(fs: FileSystem) {
    forall dir, name :: fs.read(dir).Success? && name in fs.read(dir).value ==> IsSegment(name)
  }

  lemma {:induction false} UnescapedIsSegment(p: string, i: nat, noEscape: bool)
    requires '/' !in p
    ensures '/' !in Unescaped(p, i, noEscape) && (i < |p| ==> Unescaped(p, i, noEscape) != [])
    decreases |p| - i
  {
    if i < |p| {
      UnescapedIsSegment(p, i + 1, noEscape);
      UnescapedIsSegment(p, i + 2, noEscape);
    }
  }

  lemma ChosenIsSegment(q: Query, i: nat, dir: string, name: string)
    requires QueryOk(q) && CleanListings(q.fs) && i < |q.parsed.segments| && Chosen(q, i, dir, name)
    ensures IsSegment(name)
  {
    hide Matches, HasMeta, Visible;
    if !HasMeta(SegmentTokens(q, i)) {
      assert IsSegment(q.parsed.segments[i]);
      FastPathAgrees(q.parsed.segments[i], name, q.noEscape);
      UnescapedIsSegment(q.parsed.segments[i], 0, q.noEscape);
    }
  }

  lemma ReachedNamesAreSegments(q: Query, v: seq<string>)
    requires QueryOk(q) && CleanListings(q.fs) && Reaches(q, v)
    ensures forall j :: 0 <= j < |v| ==> IsSegment(v[j])
  {
    hide Chosen, IsSegment, CandidateOf, CleanListings;
    forall j | 0 <= j < |v| ensures IsSegment(v[j]) {
      ChosenIsSegment(q, j, CandidateOf(q, v[..j]).fsPath, v[j]);
    }
  }

  lemma {:induction false} JoinedOfPrefix(v: seq<string>, before: seq<nat>, k: nat, n: nat)
    requires n <= k <= |v| && n <= |before|
    ensures Joined(v[..k], before, n) == Joined(v, before, n)
  {
    if n > 0 {
      JoinedOfPrefix(v, before, k, n - 1);
    }
  }

  /** The path a match shows is its names joined with the pattern's separators. */
  lemma {:induction false} PathIsJoined(q: Query, v: seq<string>)
    requires QueryOk(q) && |v| <= |q.parsed.segments|
    ensures CandidateOf(q, v).resultPath == q.base.resultPath + Joined(v, q.parsed.before, |v|)
    decreases |v|
  {
    if v == [] {
      assert q.base.resultPath + [] == q.base.resultPath;
    } else {
      var n := |v| - 1;
      PathIsJoined(q, v[..n]);
      JoinedOfPrefix(v, q.parsed.before, n, n);
      assert Joined(v, q.parsed.before, |v|) == Joined(v, q.parsed.before, n) + Slashes(q.parsed.before[n]) + v[n];
    }
  }

  /** A complete match as split parts of its own. */
  function PartsOf(q: Query, v: seq<string>): Parsed {
    Parsed(|q.base.resultPath|, v, q.parsed.before, if 0 < q.parsed.trailing then 1 else 0)
  }

  predicate Complete(q: Query, v: seq<string>) {
    |v| == |q.parsed.segments| && forall j :: 0 <= j < |v| ==> IsSegment(v[j])
  }

  lemma ResultIsAssembled(q: Query, v: seq<string>)
    requires QueryOk(q) && q.base == BaseOf(q.parsed) && Complete(q, v)
    ensures WellFormed(PartsOf(q, v)) && ResultOf(q, v) == Assemble(PartsOf(q, v))
  {
    PathIsJoined(q, v);
    hide CandidateOf, Joined;
    assert q.base.resultPath == Slashes(|q.base.resultPath|);
    assert (if 0 < q.parsed.trailing then "/" else "") == Slashes(if 0 < q.parsed.trailing then 1 else 0);
  }

  /** Different matches show different paths. */
  lemma ResultsDiffer(q: Query, v: seq<string>, w: seq<string>)
    requires QueryOk(q) && q.base == BaseOf(q.parsed) && Complete(q, v) && Complete(q, w)
    requires ResultOf(q, v) == ResultOf(q, w)
    ensures v == w
  {
    ResultIsAssembled(q, v);
    ResultIsAssembled(q, w);
    AssembleInjective(PartsOf(q, v), PartsOf(q, w));
  }

  lemma {:induction false} DistinctResults(q: Query, vectors: seq<seq<string>>)
    requires QueryOk(q) && q.base == BaseOf(q.parsed) && OfLength(vectors, |q.parsed.segments|)
    requires Distinct(vectors) && forall k :: 0 <= k < |vectors| ==> Complete(q, vectors[k])
    ensures Distinct(Results(q, vectors))
    decreases |vectors|
  {
    hide Complete, ResultOf, Final, BaseOf, WellFormed;
    if vectors != [] {
      var n := |vectors| - 1;
      DistinctResults(q, vectors[..n]);
      var path := ResultOf(q, vectors[n]);
      ResultsMembers(q, vectors[..n], path);
      if v :| v in vectors[..n] && Final(q, v) && ResultOf(q, v) == path {
        ResultsDiffer(q, v, vectors[n]);
      }
      DistinctConcat(Results(q, vectors[..n]), if Final(q, vectors[n]) then [path] else []);
    }
  }

  /** The expansion returns no path twice, when directories list every name once. */
  lemma NoPathTwice(q: Query)
    requires QueryOk(q) && q.base == BaseOf(q.parsed) && DistinctListings(q.fs) && CleanListings(q.fs)
    ensures Distinct(Results(q, Level(q, |q.parsed.segments|)))
  {
    var n := |q.parsed.segments|;
    var vectors := Level(q, n);
    LevelDistinct(q, n);
    hide Level, Results, BaseOf, WellFormed, CleanListings, DistinctListings;
    forall k | 0 <= k < |vectors| ensures Complete(q, vectors[k]) {
      LevelExact(q, n, vectors[k]);
      ReachedNamesAreSegments(q, vectors[k]);
    }
    DistinctResults(q, vectors);
  }
}
