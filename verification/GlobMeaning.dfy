/** What a pattern names, in terms of plain paths of the file system (`src/glob.rs`). */
module GlobMeaning {
  import opened Wrappers
  import opened GlobPattern
  import opened GlobLiteral
  import opened GlobPath
  import opened GlobExpand
  import opened GlobDistinct

  // ---- Paths ----

  /** The names, each after exactly one separator. */
  function Descent(names: seq<string>): string {
    if names == [] then "" else Descent(names[..|names| - 1]) + "/" + names[|names| - 1]
  }

  /** The path that these names lead to from the root or from the current directory. */
  function PathText(absolute: bool, names: seq<string>): string {
    if !absolute then "." + Descent(names) else if names == [] then "/" else Descent(names)
  }

  predicate AreSegments(names: seq<string>) {
    forall j :: 0 <= j < |names| ==> IsSegment(names[j])
  }

  lemma DescentEnds(names: seq<string>)
    requires AreSegments(names) && names != []
    ensures var d := Descent(names); d != [] && d[|d| - 1] != '/'
  {
    var last := names[|names| - 1];
    assert IsSegment(last) && last[|last| - 1] in last;
    assert Descent(names) == Descent(names[..|names| - 1]) + "/" + last;
  }

  lemma JoinAddsOne(absolute: bool, names: seq<string>, name: string)
    requires AreSegments(names) && IsSegment(name)
    ensures JoinFs(PathText(absolute, names), name) == PathText(absolute, names + [name])
  {
    assert (names + [name])[..|names|] == names;
    var d := Descent(names);
    assert Descent(names + [name]) == d + "/" + name;
    assert name[0] in name;
    if names != [] {
      DescentEnds(names);
      assert ("." + d)[|d|] == d[|d| - 1];
      assert "." + d + "/" + name == "." + (d + "/" + name);
    }
    hide AreSegments, Descent;
  }

  /** Where the names of a match lead in the file system: from `/` if the pattern starts with a separator, else from
      the current directory, with exactly one separator before each name. */
  lemma {:induction false} CandidatePath(q: Query, v: seq<string>)
    requires QueryOk(q) && q.base == BaseOf(q.parsed) && |v| <= |q.parsed.segments| && AreSegments(v)
    ensures CandidateOf(q, v).fsPath == PathText(q.parsed.leading > 0, v)
    decreases |v|
  {
    hide JoinFs, PathText, IsSegment, WellFormed;
    if v == [] {
      StartText(q.parsed);
    } else {
      var n := |v| - 1;
      CandidatePath(q, v[..n]);
      JoinAddsOne(q.parsed.leading > 0, v[..n], v[n]);
      assert v[..n] + [v[n]] == v;
    }
  }

  lemma StartText(x: Parsed)
    ensures BaseOf(x).fsPath == PathText(x.leading > 0, [])
  {
  }

  // ---- What a pattern names ----

  function TokensAt(x: Parsed, noEscape: bool, i: nat): seq<Token>
    requires i < |x.segments|
  {
    Tokens(x.segments[i], 0, noEscape)
  }

  /** A name with a leading dot is taken by a first token that is no wildcard and no negated bracket. */
  predicate DotIsExplicit(tokens: seq<Token>, name: string) {
    name != [] && name[0] == '.' ==> tokens != [] && match tokens[0]
      case Literal(_) => true
      case Class(negated, _) => !negated
      case _ => false
  }

  lemma VisibleExact(tokens: seq<Token>, name: string)
    requires Matches(tokens, name)
    ensures Visible(tokens, name) <==> DotIsExplicit(tokens, name)
  {
    hide Covers;
  }

  /** The name for segment `j` matches it and is listed, not hidden, in the directory of the names before it; for a
      segment without metacharacters, its path exists. */
  predicate NameFits(x: Parsed, noEscape: bool, fs: FileSystem, v: seq<string>, j: nat)
    requires j < |v| <= |x.segments|
  {
    var tokens := TokensAt(x, noEscape, j);
    && Matches(tokens, v[j])
    && if HasMeta(tokens) then
         var listing := fs.read(PathText(x.leading > 0, v[..j]));
         listing.Success? && v[j] in listing.value && DotIsExplicit(tokens, v[j])
       else fs.present(PathText(x.leading > 0, v[..j + 1]))
  }

  predicate NamesFit(x: Parsed, noEscape: bool, fs: FileSystem, v: seq<string>) {
    |v| <= |x.segments| && forall j :: 0 <= j < |v| ==> NameFits(x, noEscape, fs, v, j)
  }

  /** The path as the caller sees it: the names with the pattern's own separators; a pattern of one segment after
      two separators shows only one of them. */
  function ShownDirectory(x: Parsed, v: seq<string>): string
    requires |v| <= |x.before|
  {
    Slashes(if x.leading == 2 && |x.segments| == 1 then 1 else x.leading) + Joined(v, x.before, |v|)
  }

  /** A complete match and the path shown for it. */
  predicate Names(x: Parsed, noEscape: bool, fs: FileSystem, v: seq<string>, path: string)
    requires WellFormed(x)
  {
    && |v| == |x.segments| && NamesFit(x, noEscape, fs, v)
    && (0 < x.trailing ==> fs.isDir(PathText(x.leading > 0, v)))
    && path == ShownDirectory(x, v) + if 0 < x.trailing then "/" else ""
  }

  ghost predicate NamedBy(x: Parsed, noEscape: bool, fs: FileSystem, path: string)
    requires WellFormed(x)
  {
    exists v :: Names(x, noEscape, fs, v, path)
  }

  /** The directory of these names is to be listed but cannot be, and the caller's policy stops there. */
  predicate StopsAt(x: Parsed, noEscape: bool, policy: Policy, fs: FileSystem, v: seq<string>, errno: int)
    requires WellFormed(x)
  {
    && |v| < |x.segments| && NamesFit(x, noEscape, fs, v) && HasMeta(TokensAt(x, noEscape, |v|))
    && fs.read(PathText(x.leading > 0, v)) == Failure(errno)
    && var shown := if x.leading == 0 && v == [] then "." else ShownDirectory(x, v);
       policy.stopOnError || (policy.callback.Some? && policy.callback.value(shown, errno))
  }

  ghost predicate StopsSomewhere(x: Parsed, noEscape: bool, policy: Policy, fs: FileSystem)
    requires WellFormed(x)
  {
    exists v, errno :: StopsAt(x, noEscape, policy, fs, v, errno)
  }

  ghost predicate StopsWith(x: Parsed, noEscape: bool, policy: Policy, fs: FileSystem, errno: int)
    requires WellFormed(x)
  {
    exists v :: StopsAt(x, noEscape, policy, fs, v, errno)
  }

  // ---- The expansion and what the pattern names ----

  lemma FittingIsSegment(x: Parsed, noEscape: bool, fs: FileSystem, v: seq<string>, j: nat)
    requires WellFormed(x) && CleanListings(fs) && j < |v| <= |x.segments| && NameFits(x, noEscape, fs, v, j)
    ensures IsSegment(v[j])
  {
    hide Matches, HasMeta, DotIsExplicit;
    if !HasMeta(TokensAt(x, noEscape, j)) {
      assert IsSegment(x.segments[j]);
      FastPathAgrees(x.segments[j], v[j], noEscape);
      UnescapedIsSegment(x.segments[j], 0, noEscape);
    }
  }

  lemma FittingAreSegments(x: Parsed, noEscape: bool, fs: FileSystem, v: seq<string>)
    requires WellFormed(x) && CleanListings(fs) && NamesFit(x, noEscape, fs, v)
    ensures AreSegments(v)
  {
    hide NameFits, IsSegment, WellFormed, CleanListings;
    forall j | 0 <= j < |v| ensures IsSegment(v[j]) {
      FittingIsSegment(x, noEscape, fs, v, j);
    }
  }

  lemma FitsByPaths(q: Query, v: seq<string>, j: nat, dir: string)
    requires QueryOk(q) && j < |v| <= |q.parsed.segments|
    requires dir == PathText(q.parsed.leading > 0, v[..j])
    requires JoinFs(dir, v[j]) == PathText(q.parsed.leading > 0, v[..j + 1])
    ensures Chosen(q, j, dir, v[j]) <==> NameFits(q.parsed, q.noEscape, q.fs, v, j)
  {
    assert SegmentTokens(q, j) == TokensAt(q.parsed, q.noEscape, j);
    var tokens := SegmentTokens(q, j);
    if Matches(tokens, v[j]) { VisibleExact(tokens, v[j]); }
    hide JoinFs, PathText, Matches, HasMeta, Visible, DotIsExplicit, WellFormed, SegmentTokens, TokensAt;
  }

  lemma PathsOfPrefix(q: Query, v: seq<string>, j: nat)
    requires QueryOk(q) && q.base == BaseOf(q.parsed) && j < |v| <= |q.parsed.segments| && AreSegments(v)
    ensures CandidateOf(q, v[..j]).fsPath == PathText(q.parsed.leading > 0, v[..j])
    ensures JoinFs(PathText(q.parsed.leading > 0, v[..j]), v[j]) == PathText(q.parsed.leading > 0, v[..j + 1])
  {
    hide CandidateOf, JoinFs, PathText, IsSegment, WellFormed, BaseOf;
    var w := v[..j];
    assert AreSegments(w) && w + [v[j]] == v[..j + 1];
    CandidatePath(q, w);
    JoinAddsOne(q.parsed.leading > 0, w, v[j]);
  }

  lemma ChosenIsFitting(q: Query, v: seq<string>, j: nat)
    requires QueryOk(q) && q.base == BaseOf(q.parsed) && j < |v| <= |q.parsed.segments| && AreSegments(v)
    ensures Chosen(q, j, CandidateOf(q, v[..j]).fsPath, v[j]) <==> NameFits(q.parsed, q.noEscape, q.fs, v, j)
  {
    hide CandidateOf, JoinFs, PathText, Chosen, NameFits, AreSegments, WellFormed, BaseOf;
    PathsOfPrefix(q, v, j);
    FitsByPaths(q, v, j, CandidateOf(q, v[..j]).fsPath);
  }

  lemma ReachesIsFitting(q: Query, v: seq<string>)
    requires QueryOk(q) && q.base == BaseOf(q.parsed) && CleanListings(q.fs)
    ensures Reaches(q, v) <==> NamesFit(q.parsed, q.noEscape, q.fs, v)
    ensures Reaches(q, v) ==> AreSegments(v)
  {
    if Reaches(q, v) { ReachedNamesAreSegments(q, v); }
    if NamesFit(q.parsed, q.noEscape, q.fs, v) { FittingAreSegments(q.parsed, q.noEscape, q.fs, v); }
    hide Chosen, NameFits, CandidateOf, IsSegment, CleanListings, WellFormed, BaseOf;
    if |v| <= |q.parsed.segments| && AreSegments(v) {
      forall j | 0 <= j < |v|
        ensures Chosen(q, j, CandidateOf(q, v[..j]).fsPath, v[j]) <==> NameFits(q.parsed, q.noEscape, q.fs, v, j)
      {
        ChosenIsFitting(q, v, j);
      }
    }
  }

  lemma ShownIsResult(q: Query, v: seq<string>)
    requires QueryOk(q) && q.base == BaseOf(q.parsed) && |v| <= |q.parsed.segments| && AreSegments(v)
    ensures CandidateOf(q, v).resultPath == ShownDirectory(q.parsed, v)
    ensures CallbackPath(CandidateOf(q, v))
         == if q.parsed.leading == 0 && v == [] then "." else ShownDirectory(q.parsed, v)
  {
    PathIsJoined(q, v);
    ShownIsEmptyIff(q.parsed, v);
    hide CandidateOf, Joined, WellFormed;
    assert q.base.resultPath == Slashes(|q.base.resultPath|);
  }

  lemma ShownIsEmptyIff(x: Parsed, v: seq<string>)
    requires |v| <= |x.before| && AreSegments(v)
    ensures ShownDirectory(x, v) == [] <==> x.leading == 0 && v == []
  {
    if v != [] {
      var n := |v| - 1;
      assert IsSegment(v[n]);
      assert Joined(v, x.before, |v|) == Joined(v, x.before, n) + Slashes(x.before[n]) + v[n];
    }
  }

  /** One complete match of the expansion is one complete match of the pattern. */
  lemma CompleteIsNamed(q: Query, v: seq<string>, path: string)
    requires QueryOk(q) && q.base == BaseOf(q.parsed) && CleanListings(q.fs)
    ensures (|v| == |q.parsed.segments| && Reaches(q, v) && Final(q, v) && ResultOf(q, v) == path)
       <==> Names(q.parsed, q.noEscape, q.fs, v, path)
  {
    ReachesIsFitting(q, v);
    if |v| == |q.parsed.segments| && AreSegments(v) {
      CandidatePath(q, v);
      ShownIsResult(q, v);
    }
    hide Reaches, NamesFit, CandidateOf, ShownDirectory, PathText, AreSegments, WellFormed, CleanListings, BaseOf;
  }

  /** The results are exactly the paths that the pattern names. */
  lemma MatchesExact(q: Query, path: string)
    requires QueryOk(q) && q.base == BaseOf(q.parsed) && CleanListings(q.fs)
    ensures path in Results(q, Level(q, |q.parsed.segments|)) <==> NamedBy(q.parsed, q.noEscape, q.fs, path)
  {
    ExpansionExact(q, path);
    hide Results, Level, Reaches, Final, ResultOf, Names, WellFormed, CleanListings, BaseOf;
    if v :| |v| == |q.parsed.segments| && Reaches(q, v) && Final(q, v) && ResultOf(q, v) == path {
      CompleteIsNamed(q, v, path);
    }
    if v :| Names(q.parsed, q.noEscape, q.fs, v, path) {
      CompleteIsNamed(q, v, path);
    }
  }

  lemma StoppedByIsStopsAt(q: Query, policy: Policy, v: seq<string>, errno: int)
    requires QueryOk(q) && q.base == BaseOf(q.parsed) && CleanListings(q.fs) && |v| < |q.parsed.segments|
    ensures Reaches(q, v) && StoppedBy(q, policy, |v|, v, errno)
       <==> StopsAt(q.parsed, q.noEscape, policy, q.fs, v, errno)
  {
    ReachesIsFitting(q, v);
    if AreSegments(v) {
      CandidatePath(q, v);
      ShownIsResult(q, v);
    }
    hide Reaches, NamesFit, CandidateOf, ShownDirectory, PathText, AreSegments, WellFormed, CleanListings, BaseOf;
    hide HasMeta, CallbackPath;
  }

  /** Nothing stops the traversal exactly when no directory that is to be listed stops it. */
  lemma UnblockedExact(q: Query, policy: Policy)
    requires QueryOk(q) && q.base == BaseOf(q.parsed) && CleanListings(q.fs)
    ensures Unblocked(q, policy, |q.parsed.segments|) <==> !StopsSomewhere(q.parsed, q.noEscape, policy, q.fs)
  {
    var n := |q.parsed.segments|;
    hide Level, Reaches, StopsAt, WellFormed, CleanListings, BaseOf;
    if v, errno :| StopsAt(q.parsed, q.noEscape, policy, q.fs, v, errno) {
      StopsBelow(q.parsed, q.noEscape, policy, q.fs, v, errno);
      StoppedByIsStopsAt(q, policy, v, errno);
      LevelExact(q, |v|, v);
      BlocksLevel(q, policy, v, errno);
    }
    if !Unblocked(q, policy, n) {
      var i, k :| 0 <= i < n && 0 <= k < |Level(q, i)| && Blocked(q, policy, i, Level(q, i)[k]);
      var v := Level(q, i)[k];
      LevelExact(q, i, v);
      BlockedWith(q, policy, v);
      var errno :| StoppedBy(q, policy, |v|, v, errno);
      StoppedByIsStopsAt(q, policy, v, errno);
    }
  }

  lemma StopsBelow(x: Parsed, noEscape: bool, policy: Policy, fs: FileSystem, v: seq<string>, errno: int)
    requires WellFormed(x) && StopsAt(x, noEscape, policy, fs, v, errno)
    ensures |v| < |x.segments|
  {
  }

  lemma BlocksLevel(q: Query, policy: Policy, v: seq<string>, errno: int)
    requires QueryOk(q) && |v| < |q.parsed.segments| && v in Level(q, |v|) && StoppedBy(q, policy, |v|, v, errno)
    ensures !Unblocked(q, policy, |q.parsed.segments|)
  {
    hide Level, CandidateOf, WellFormed, HasMeta, Stops;
    assert !UnblockedAt(q, policy, |v|);
  }

  lemma BlockedWith(q: Query, policy: Policy, v: seq<string>)
    requires QueryOk(q) && |v| < |q.parsed.segments| && Blocked(q, policy, |v|, v)
    ensures exists errno :: StoppedBy(q, policy, |v|, v, errno)
  {
    hide CandidateOf, WellFormed, HasMeta, Stops;
    assert StoppedBy(q, policy, |v|, v, q.fs.read(CandidateOf(q, v).fsPath).error);
  }
}
