/** The expansion loops of `glob` (`src/glob.rs`). */
module GlobCollect {
  import opened Wrappers
  import opened GlobPattern
  import opened GlobLiteral
  import opened GlobPath
  import opened GlobExpand
  import opened GlobDistinct
  import opened GlobMeaning

  function Mapped(q: Query, vectors: seq<seq<string>>): (r: seq<Candidate>)
    requires QueryOk(q) && forall k :: 0 <= k < |vectors| ==> |vectors[k]| <= |q.parsed.segments|
    ensures |r| == |vectors| && forall k :: 0 <= k < |r| ==> r[k] == CandidateOf(q, vectors[k])
  {
    seq(|vectors|, k requires 0 <= k < |vectors| => CandidateOf(q, vectors[k]))
  }

  /** The entries of one directory that match the segment and are not hidden from it. */
  method SelectEntries(q: Query, i: nat, entries: seq<string>, includeHidden: bool) returns (names: seq<string>)
    requires QueryOk(q) && i < |q.parsed.segments| && (includeHidden <==> AsksForDot(SegmentTokens(q, i)))
    ensures names == Selected(SegmentTokens(q, i), entries)
  {
    names := [];
    var j := 0;
    while j < |entries|
      invariant 0 <= j <= |entries| && names == Selected(SegmentTokens(q, i), entries[..j])
    {
      assert entries[..j + 1][..j] == entries[..j];
      if entries[j] != [] && entries[j][0] == '.' && !includeHidden {
        j := j + 1;
        continue;
      }
      var matches := PatternMatches(q.parsed.segments[i], entries[j], q.noEscape);
      if matches {
        names := names + [entries[j]];
      }
      j := j + 1;
    }
    assert entries[..j] == entries;
  }

  /** The names one candidate offers for a segment, or the error number when the traversal stops there. */
  method ChooseNames(q: Query, policy: Policy, i: nat, ghost v: seq<string>, c: Candidate,
                     hasMeta: bool, includeHidden: bool)
    returns (r: Result<seq<string>, int>)
    requires QueryOk(q) && i < |q.parsed.segments| && |v| == i && c == CandidateOf(q, v)
    requires (hasMeta <==> HasMeta(SegmentTokens(q, i))) && (includeHidden <==> AsksForDot(SegmentTokens(q, i)))
    ensures r.Failure? <==> Blocked(q, policy, i, v)
    ensures match r
      case Success(names) => names == ChoiceList(q, i, c.fsPath)
      case Failure(errno) => q.fs.read(c.fsPath) == Failure(errno)
  {
    hide HasMeta, Selected, AsksForDot, CandidateOf, Stops;
    if hasMeta {
      match q.fs.read(c.fsPath) {
        case Failure(errno) =>
          if Stops(policy, c, errno) {
            return Failure(errno);
          }
          return Success([]);
        case Success(entries) =>
          var names := SelectEntries(q, i, entries, includeHidden);
          return Success(names);
      }
    }
    var literalSegment := UnescapeSegment(q.parsed.segments[i], q.noEscape);
    r := Success(if q.fs.present(JoinFs(c.fsPath, literalSegment)) then [literalSegment] else []);
  }

  /** One candidate of a path segment, after the candidates before it. */
  method ExpandCandidate(q: Query, policy: Policy, i: nat, ghost vectors: seq<seq<string>>, ghost k: nat, c: Candidate,
                         hasMeta: bool, includeHidden: bool, before: seq<Candidate>)
    returns (r: Result<seq<Candidate>, int>)
    requires QueryOk(q) && i < |q.parsed.segments| && OfLength(vectors, i)
    requires k < |vectors| && c == CandidateOf(q, vectors[k])
    requires (hasMeta <==> HasMeta(SegmentTokens(q, i))) && (includeHidden <==> AsksForDot(SegmentTokens(q, i)))
    requires before == Mapped(q, NextLevel(q, i, vectors[..k]))
    ensures r.Failure? <==> Blocked(q, policy, i, vectors[k])
    ensures r.Failure? ==> StoppedBy(q, policy, i, vectors[k], r.error)
    ensures r.Success? ==> r.value == Mapped(q, NextLevel(q, i, vectors[..k + 1]))
  {
    hide Blocked, CandidateOf, ChoiceList, HasMeta, AsksForDot, NextLevel, Mapped;
    var chosen := ChooseNames(q, policy, i, vectors[k], c, hasMeta, includeHidden);
    if chosen.Failure? {
      return Failure(chosen.error);
    }
    NextLevelStep(q, i, vectors, k);
    var more := ExtendAll(q, i, vectors[k], c, chosen.value);
    r := Success(before + more);
  }

  /** The first of these candidates whose directory stops the traversal, and its error number. */
  predicate FirstIn(q: Query, policy: Policy, i: nat, vectors: seq<seq<string>>, k: int, errno: int)
    requires QueryOk(q) && i < |q.parsed.segments| && OfLength(vectors, i)
  {
    && 0 <= k < |vectors| && StoppedBy(q, policy, i, vectors[k], errno)
    && forall j :: 0 <= j < k ==> !Blocked(q, policy, i, vectors[j])
  }

  /** One path segment: every candidate in turn. */
  method ExpandSegment(q: Query, policy: Policy, i: nat, candidates: seq<Candidate>, ghost vectors: seq<seq<string>>)
    returns (r: Result<seq<Candidate>, int>)
    requires QueryOk(q) && i < |q.parsed.segments| && OfLength(vectors, i) && candidates == Mapped(q, vectors)
    ensures match r
      case Success(next) =>
        && next == Mapped(q, NextLevel(q, i, vectors))
        && forall k :: 0 <= k < |vectors| ==> !Blocked(q, policy, i, vectors[k])
      case Failure(errno) => exists k :: FirstIn(q, policy, i, vectors, k, errno)
  {
    hide Blocked, StoppedBy, CandidateOf, ChoiceList, HasMeta, AsksForDot, NextLevel, Mapped, SegmentTokens;
    var hasMeta := SegmentHasPatternMeta(q.parsed.segments[i], q.noEscape);
    var includeHidden := ShouldMatchHiddenName(q.parsed.segments[i], q.noEscape);
    TokensOfSegment(q, i);
    var next: seq<Candidate> := [];
    var k := 0;
    NextLevelEmpty(q, i);
    while k < |candidates|
      invariant 0 <= k <= |candidates|
      invariant next == Mapped(q, NextLevel(q, i, vectors[..k]))
      invariant forall j :: 0 <= j < k ==> !Blocked(q, policy, i, vectors[j])
    {
      var expanded := ExpandCandidate(q, policy, i, vectors, k, candidates[k], hasMeta, includeHidden, next);
      if expanded.Failure? {
        assert FirstIn(q, policy, i, vectors, k, expanded.error);
        return Failure(expanded.error);
      }
      next := expanded.value;
      k := k + 1;
    }
    assert vectors[..k] == vectors;
    r := Success(next);
  }

  lemma TokensOfSegment(q: Query, i: nat)
    requires QueryOk(q) && i < |q.parsed.segments|
    ensures SegmentTokens(q, i) == Tokens(q.parsed.segments[i], 0, q.noEscape)
  {
  }

  lemma NextLevelEmpty(q: Query, i: nat)
    requires QueryOk(q) && i < |q.parsed.segments|
    ensures NextLevel(q, i, []) == [] && Mapped(q, []) == []
  {
  }

  lemma NextLevelStep(q: Query, i: nat, vectors: seq<seq<string>>, k: nat)
    requires QueryOk(q) && i < |q.parsed.segments| && OfLength(vectors, i) && k < |vectors|
    ensures var choices := ChoiceList(q, i, CandidateOf(q, vectors[k]).fsPath);
      && NextLevel(q, i, vectors[..k + 1]) == NextLevel(q, i, vectors[..k]) + Appended(vectors[k], choices)
      && Mapped(q, NextLevel(q, i, vectors[..k + 1]))
         == Mapped(q, NextLevel(q, i, vectors[..k])) + Mapped(q, Appended(vectors[k], choices))
  {
    hide ChoiceList, CandidateOf;
    var some := vectors[..k + 1];
    var choices := ChoiceList(q, i, CandidateOf(q, vectors[k]).fsPath);
    assert some[..|some| - 1] == vectors[..k] && some[|some| - 1] == vectors[k];
    assert NextLevel(q, i, some) == NextLevel(q, i, vectors[..k]) + Appended(vectors[k], choices);
    hide NextLevel, Appended;
    MappedConcat(q, NextLevel(q, i, vectors[..k]), Appended(vectors[k], choices));
  }

  lemma MappedConcat(q: Query, a: seq<seq<string>>, b: seq<seq<string>>)
    requires QueryOk(q) && forall k :: 0 <= k < |a| ==> |a[k]| <= |q.parsed.segments|
    requires forall k :: 0 <= k < |b| ==> |b[k]| <= |q.parsed.segments|
    ensures Mapped(q, a + b) == Mapped(q, a) + Mapped(q, b)
  {
    hide CandidateOf, WellFormed;
  }

  method ExtendAll(q: Query, i: nat, ghost v: seq<string>, c: Candidate, names: seq<string>)
    returns (more: seq<Candidate>)
    requires QueryOk(q) && i < |q.parsed.segments| && |v| == i && c == CandidateOf(q, v)
    ensures more == Mapped(q, Appended(v, names))
  {
    more := [];
    for j := 0 to |names|
      invariant |more| == j && forall l :: 0 <= l < j ==> more[l] == CandidateOf(q, v + [names[l]])
    {
      assert (v + [names[j]])[..i] == v;
      more := more + [Extended(c, if i == 0 then 0 else q.parsed.before[i], names[j])];
    }
  }

  lemma {:induction false} EmptyStaysEmpty(q: Query, i: nat, n: nat)
    requires QueryOk(q) && i <= n <= |q.parsed.segments| && Level(q, i) == []
    ensures Level(q, n) == []
    decreases n - i
  {
    hide Level, NextLevel;
    if i < n {
      LevelUnfold(q, i);
      NextLevelEmpty(q, i);
      EmptyStaysEmpty(q, i + 1, n);
    }
  }

  lemma StartLevel(q: Query)
    requires QueryOk(q)
    ensures [q.base] == Mapped(q, Level(q, 0))
  {
  }

  lemma UnblockedStep(q: Query, policy: Policy, i: nat)
    requires QueryOk(q) && i < |q.parsed.segments| && Unblocked(q, policy, i)
    requires forall k :: 0 <= k < |Level(q, i)| ==> !Blocked(q, policy, i, Level(q, i)[k])
    ensures Unblocked(q, policy, i + 1)
  {
    hide Blocked, Level;
    assert UnblockedAt(q, policy, i);
    hide UnblockedAt;
  }

  /** The reachable directory that stops the traversal first, level by level and in order within a level,
      reported this error number. */
  ghost predicate StoppedFirst(q: Query, policy: Policy, errno: int)
    requires QueryOk(q)
  {
    exists i, k ::
      0 <= i < |q.parsed.segments| && Unblocked(q, policy, i) && FirstIn(q, policy, i, Level(q, i), k, errno)
  }

  /** There is only one such error number. */
  lemma StoppedFirstUnique(q: Query, policy: Policy, e1: int, e2: int)
    requires QueryOk(q) && StoppedFirst(q, policy, e1) && StoppedFirst(q, policy, e2)
    ensures e1 == e2
  {
    hide Level, Blocked, CandidateOf, WellFormed, Unblocked, UnblockedAt;
    var i1, k1 :| 0 <= i1 < |q.parsed.segments| && Unblocked(q, policy, i1)
      && FirstIn(q, policy, i1, Level(q, i1), k1, e1);
    var i2, k2 :| 0 <= i2 < |q.parsed.segments| && Unblocked(q, policy, i2)
      && FirstIn(q, policy, i2, Level(q, i2), k2, e2);
    FirstInBlocks(q, policy, i1, k1, e1);
    FirstInBlocks(q, policy, i2, k2, e2);
    if i1 < i2 {
      UnblockedBefore(q, policy, i2, i1);
    }
    if i2 < i1 {
      UnblockedBefore(q, policy, i1, i2);
    }
  }

  lemma FirstInBlocks(q: Query, policy: Policy, i: nat, k: int, errno: int)
    requires QueryOk(q) && i < |q.parsed.segments| && FirstIn(q, policy, i, Level(q, i), k, errno)
    ensures !UnblockedAt(q, policy, i)
  {
    hide Level, Blocked, CandidateOf, WellFormed;
    assert Blocked(q, policy, i, Level(q, i)[k]);
  }

  /** Without unreadable directories nothing stops the traversal, whatever the policy. */
  lemma NoErrorsUnblocked(q: Query, policy: Policy)
    requires QueryOk(q) && forall dir :: q.fs.read(dir).Success?
    ensures Unblocked(q, policy, |q.parsed.segments|)
  {
    hide Level, CandidateOf;
  }

  lemma UnblockedAtStart(q: Query, policy: Policy)
    requires QueryOk(q)
    ensures Unblocked(q, policy, 0)
  {
  }

  lemma BlockedSomewhere(q: Query, policy: Policy, i: nat, k: int, errno: int)
    requires QueryOk(q) && i < |q.parsed.segments| && Unblocked(q, policy, i)
    requires FirstIn(q, policy, i, Level(q, i), k, errno)
    ensures StoppedFirst(q, policy, errno) && !Unblocked(q, policy, |q.parsed.segments|)
  {
    hide UnblockedAt, FirstIn, Level, WellFormed;
    FirstInBlocks(q, policy, i, k, errno);
  }

  lemma UnblockedToEnd(q: Query, policy: Policy, i: nat)
    requires QueryOk(q) && i <= |q.parsed.segments| && Unblocked(q, policy, i) && Level(q, i) == []
    ensures Unblocked(q, policy, |q.parsed.segments|) && Level(q, |q.parsed.segments|) == []
  {
    hide Unblocked, UnblockedAt, Level, WellFormed;
    LevelsEmpty(q, i);
    forall j | 0 <= j < |q.parsed.segments| ensures UnblockedAt(q, policy, j) {
      if j < i {
        UnblockedBefore(q, policy, i, j);
      } else {
        UnblockedWhenEmpty(q, policy, j);
      }
    }
    UnblockedAll(q, policy);
  }

  lemma UnblockedBefore(q: Query, policy: Policy, i: nat, j: nat)
    requires QueryOk(q) && j < i <= |q.parsed.segments| && Unblocked(q, policy, i)
    ensures UnblockedAt(q, policy, j)
  {
    hide UnblockedAt;
  }

  lemma UnblockedWhenEmpty(q: Query, policy: Policy, j: nat)
    requires QueryOk(q) && j < |q.parsed.segments| && Level(q, j) == []
    ensures UnblockedAt(q, policy, j)
  {
    hide Blocked, Level;
  }

  lemma UnblockedAll(q: Query, policy: Policy)
    requires QueryOk(q) && forall j :: 0 <= j < |q.parsed.segments| ==> UnblockedAt(q, policy, j)
    ensures Unblocked(q, policy, |q.parsed.segments|)
  {
    hide UnblockedAt;
  }

  lemma LevelsEmpty(q: Query, i: nat)
    requires QueryOk(q) && i <= |q.parsed.segments| && Level(q, i) == []
    ensures forall j :: i <= j <= |q.parsed.segments| ==> Level(q, j) == []
  {
    hide Level, NextLevel, WellFormed;
    forall j | i <= j <= |q.parsed.segments| ensures Level(q, j) == [] {
      EmptyStaysEmpty(q, i, j);
    }
  }

  /** Keeping the directories under a trailing separator, and the paths the caller sees. */
  method FinishResults(q: Query, candidates: seq<Candidate>, ghost vectors: seq<seq<string>>)
    returns (paths: seq<string>)
    requires QueryOk(q) && OfLength(vectors, |q.parsed.segments|) && candidates == Mapped(q, vectors)
    ensures paths == Results(q, vectors)
  {
    hide CandidateOf, Mapped;
    paths := [];
    var k := 0;
    while k < |candidates|
      invariant 0 <= k <= |candidates| && paths == Results(q, vectors[..k])
    {
      assert vectors[..k + 1][..k] == vectors[..k];
      if q.parsed.trailing == 0 {
        paths := paths + [candidates[k].resultPath + ""];
      } else if q.fs.isDir(candidates[k].fsPath) {
        paths := paths + [candidates[k].resultPath + "/"];
      }
      k := k + 1;
    }
    assert vectors[..k] == vectors;
  }

  lemma LevelUnfold(q: Query, i: nat)
    requires QueryOk(q) && i < |q.parsed.segments|
    ensures Level(q, i + 1) == NextLevel(q, i, Level(q, i))
  {
    hide NextLevel;
  }

  /** The loop over all segments, then the trailing-separator filter. */
  method ExpandParsed(q: Query, policy: Policy) returns (r: Result<seq<string>, int>)
    requires QueryOk(q)
    ensures r.Success? <==> Unblocked(q, policy, |q.parsed.segments|)
    ensures r.Failure? ==> StoppedFirst(q, policy, r.error)
    ensures r.Success? ==> r.value == Results(q, Level(q, |q.parsed.segments|))
  {
    hide Blocked, StoppedBy, StoppedFirst, FirstIn, CandidateOf, NextLevel, Results, Mapped, Level, Unblocked;
    ghost var n := |q.parsed.segments|;
    var candidates := [q.base];
    StartLevel(q);
    var i := 0;
    assert Unblocked(q, policy, 0) by { UnblockedAtStart(q, policy); }
    while i < |q.parsed.segments|
      invariant 0 <= i <= n && candidates == Mapped(q, Level(q, i)) && Unblocked(q, policy, i)
    {
      var next := ExpandSegment(q, policy, i, candidates, Level(q, i));
      if next.Failure? {
        ghost var k :| FirstIn(q, policy, i, Level(q, i), k, next.error);
        BlockedSomewhere(q, policy, i, k, next.error);
        return Failure(next.error);
      }
      UnblockedStep(q, policy, i);
      LevelUnfold(q, i);
      candidates := next.value;
      i := i + 1;
      if |candidates| == 0 {
        UnblockedToEnd(q, policy, i);
        StartEmpty(q);
        break;
      }
    }
    var paths := FinishResults(q, candidates, Level(q, n));
    r := Success(paths);
  }

  lemma StartEmpty(q: Query)
    requires QueryOk(q)
    ensures Mapped(q, []) == []
  {
  }

  // ---- From the pattern to the query ----

  /** Some separator of the pattern's leading run is written with a backslash. */
  function LeadingEscaped(p: string): bool {
    if p == [] then false
    else if p[0] == '/' then LeadingEscaped(p[1..])
    else p[0] == '\\' && |p| > 1 && p[1] == '/'
  }

  /** `leading_separators_include_escaped` */
  method LeadingSeparatorsIncludeEscaped(pattern: string, noEscape: bool) returns (r: bool)
    ensures r <==> !noEscape && LeadingEscaped(pattern)
  {
    if noEscape {
      return false;
    }
    var index := 0;
    var found := false;
    assert pattern[0..] == pattern;
    while index < |pattern|
      invariant 0 <= index <= |pattern|
      invariant LeadingEscaped(pattern) <==> found || LeadingEscaped(pattern[index..])
    {
      assert pattern[index..][1..] == pattern[index + 1..];
      if pattern[index] == '/' {
        index := index + 1;
        continue;
      }
      if pattern[index] == '\\' && index + 1 < |pattern| && pattern[index + 1] == '/' {
        found := true;
        index := index + 2;
        continue;
      }
      break;
    }
    r := found;
  }

  function RootOnlyPath(leading: nat, leadingHasEscaped: bool): string {
    Slashes(if leading >= 3 || (leading == 2 && leadingHasEscaped) then 2 else 1)
  }

  /** The text that is split: escaped separators are plain ones unless escapes are off. */
  function SplitText(pattern: string, noEscape: bool): string {
    if noEscape then pattern else Normalized(pattern)
  }

  lemma {:induction false} NothingToNormalize(p: string)
    requires forall k :: 0 <= k < |p| - 1 ==> !(p[k] == '\\' && p[k + 1] == '/')
    ensures Normalized(p) == p
  {
    if p != [] {
      NothingToNormalize(p[1..]);
    }
  }

  method TextToSplit(pattern: string, noEscape: bool) returns (r: string)
    ensures r == SplitText(pattern, noEscape)
  {
    if !noEscape && (exists k :: 0 <= k < |pattern| - 1 && pattern[k] == '\\' && pattern[k + 1] == '/') {
      r := NormalizeEscapedSeparators(pattern);
    } else {
      r := pattern;
      if !noEscape {
        NothingToNormalize(pattern);
      }
    }
  }

  lemma FirstInStops(q: Query, policy: Policy, i: nat, vectors: seq<seq<string>>, k: int, errno: int)
    requires QueryOk(q) && i < |q.parsed.segments| && OfLength(vectors, i) && FirstIn(q, policy, i, vectors, k, errno)
    ensures 0 <= k < |vectors| && StoppedBy(q, policy, i, vectors[k], errno)
  {
    hide StoppedBy;
  }

  lemma StoppedFirstNames(q: Query, policy: Policy, errno: int)
    requires QueryOk(q) && q.base == BaseOf(q.parsed) && CleanListings(q.fs) && StoppedFirst(q, policy, errno)
    ensures StopsWith(q.parsed, q.noEscape, policy, q.fs, errno)
  {
    hide Level, FirstIn, StoppedBy, Reaches, StopsAt, WellFormed, CleanListings, BaseOf, Unblocked, Blocked;
    var i, k :| 0 <= i < |q.parsed.segments| && Unblocked(q, policy, i)
      && FirstIn(q, policy, i, Level(q, i), k, errno);
    FirstInStops(q, policy, i, Level(q, i), k, errno);
    var v := Level(q, i)[k];
    LevelExact(q, i, v);
    StoppedByIsStopsAt(q, policy, v, errno);
  }

  /** What the call returns, in terms of plain paths: it fails exactly when some directory that is to be listed stops
      the traversal, with that directory's error number, and otherwise returns exactly the paths the pattern names. */
  ghost predicate MeansWhatItNames(x: Parsed, noEscape: bool, policy: Policy, fs: FileSystem,
                                   r: Result<seq<string>, int>)
    requires WellFormed(x)
  {
    && (r.Failure? <==> StopsSomewhere(x, noEscape, policy, fs))
    && (r.Failure? ==> StopsWith(x, noEscape, policy, fs, r.error))
    && (r.Success? ==> forall path :: path in r.value <==> NamedBy(x, noEscape, fs, path))
  }

  lemma ExpansionMeaning(q: Query, policy: Policy, r: Result<seq<string>, int>)
    requires QueryOk(q) && q.base == BaseOf(q.parsed) && CleanListings(q.fs)
    requires r.Success? <==> Unblocked(q, policy, |q.parsed.segments|)
    requires r.Failure? ==> StoppedFirst(q, policy, r.error)
    requires r.Success? ==> r.value == Results(q, Level(q, |q.parsed.segments|))
    ensures MeansWhatItNames(q.parsed, q.noEscape, policy, q.fs, r)
  {
    hide Unblocked, StoppedFirst, Results, Level, NamedBy, StopsSomewhere, StopsWith, CleanListings, BaseOf, WellFormed;
    UnblockedExact(q, policy);
    match r {
      case Failure(errno) => StoppedFirstNames(q, policy, errno);
      case Success(paths) =>
        forall path ensures path in paths <==> NamedBy(q.parsed, q.noEscape, q.fs, path) {
          MatchesExact(q, path);
        }
    }
  }

  lemma RootPaths()
    ensures Slashes(1) == "/" && Slashes(2) == "//"
  {
  }

  /** `collect_matches`: the one split of the pattern decides. A traversal error fails the whole call exactly
      when some reachable directory stops it, with the error number of the first that does; otherwise the
      complete matches come back in order. */
  method CollectMatches(pattern: string, noEscape: bool, policy: Policy, fs: FileSystem)
    returns (r: Result<seq<string>, int>)
    ensures exists x :: WellFormed(x) && Assemble(x) == SplitText(pattern, noEscape)
    ensures forall x | WellFormed(x) && Assemble(x) == SplitText(pattern, noEscape) ::
      var q := Query(x, noEscape, BaseOf(x), fs);
      var n := |x.segments|;
      if n == 0 then
        var both := x.leading >= 3 || (x.leading == 2 && !noEscape && LeadingEscaped(pattern));
        r == Success(if x.leading == 0 then [] else if both then ["//"] else ["/"])
      else
        && (r.Success? <==> Unblocked(q, policy, n))
        && (r.Failure? ==> StoppedFirst(q, policy, r.error))
        && (r.Success? ==> r.value == Results(q, Level(q, n)))
        && (CleanListings(fs) ==> MeansWhatItNames(x, noEscape, policy, fs, r))
  {
    hide MeansWhatItNames, CleanListings, BaseOf;
    hide Assemble, SplitText, LeadingEscaped, Unblocked, StoppedFirst, Results, Level;
    var leadingHasEscaped := LeadingSeparatorsIncludeEscaped(pattern, noEscape);
    var text := TextToSplit(pattern, noEscape);
    var parsed := ParseSegmentsWithSeparators(text);
    forall x | WellFormed(x) && Assemble(x) == SplitText(pattern, noEscape) ensures x == parsed {
      AssembleInjective(x, parsed);
    }
    RootPaths();
    if parsed.leading > 0 && parsed.segments == [] {
      return Success([RootOnlyPath(parsed.leading, leadingHasEscaped)]);
    }
    if parsed.segments == [] {
      return Success([]);
    }
    var q := Query(parsed, noEscape, BaseOf(parsed), fs);
    r := ExpandParsed(q, policy);
    if CleanListings(fs) { ExpansionMeaning(q, policy, r); }
  }
}
