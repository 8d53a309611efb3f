/** Which paths a glob pattern names in a directory tree (`src/glob.rs`). */
module GlobExpand {
  import opened Wrappers
  import opened GlobPattern
  import opened GlobLiteral
  import opened GlobPath

  /** The file system as the calls see it: directory listings or an error number, existence, and being a directory. */
  datatype FileSystem = FileSystem(
    read: string -> Result<seq<string>, int>, present: string -> bool, isDir: string -> bool)

  /** A partial match: where it is, and how the caller sees it. */
  datatype Candidate = Candidate(fsPath: string, resultPath: string)

  /** `Path::join` */
  function JoinFs(path: string, name: string): string {
    if name != [] && name[0] == '/' then name
    else if path == [] || path[|path| - 1] == '/' then path + name
    else path + "/" + name
  }

  /** `join_result_path`, together with the file-system path. */
  function Extended(c: Candidate, separators: nat, name: string): Candidate {
    Candidate(JoinFs(c.fsPath, name), c.resultPath + Slashes(separators) + name)
  }

  /** What a call expands: the parsed pattern, the escape flag, the starting point and the file system. */
  datatype Query = Query(parsed: Parsed, noEscape: bool, base: Candidate, fs: FileSystem)

  /** Where the expansion of a parsed pattern starts: the root with its separators, or the current directory. */
  function BaseOf(x: Parsed): Candidate {
    if x.leading > 0 then Candidate("/", Slashes(if x.leading == 2 && |x.segments| == 1 then 1 else x.leading))
    else Candidate(".", "")
  }

  predicate QueryOk(q: Query) {
    WellFormed(q.parsed)
  }

  function SegmentTokens(q: Query, i: nat): seq<Token>
    requires QueryOk(q) && i < |q.parsed.segments|
  {
    Tokens(q.parsed.segments[i], 0, q.noEscape)
  }

  /** The candidate that one name for each of the first segments leads to. */
  function CandidateOf(q: Query, names: seq<string>): Candidate
    requires QueryOk(q) && |names| <= |q.parsed.segments|
  {
    if names == [] then q.base
    else
      var n := |names| - 1;
      Extended(CandidateOf(q, names[..n]), q.parsed.before[n], names[n])
  }

  predicate Visible(tokens: seq<Token>, name: string) {
    name != [] && name[0] == '.' ==> AsksForDot(tokens)
  }

  /** The declarative rule for one path component: the name matches the segment, and it is listed and
      not hidden, or (for a segment without metacharacters) it exists. */
  predicate Chosen(q: Query, i: nat, dir: string, name: string)
    requires QueryOk(q) && i < |q.parsed.segments|
  {
    var tokens := SegmentTokens(q, i);
    && Matches(tokens, name)
    && if HasMeta(tokens) then
         var listing := q.fs.read(dir);
         listing.Success? && name in listing.value && Visible(tokens, name)
       else q.fs.present(JoinFs(dir, name))
  }

  /** Every name is a choice in the directory the earlier names lead to. */
  predicate Reaches(q: Query, names: seq<string>)
    requires QueryOk(q)
  {
    && |names| <= |q.parsed.segments|
    && forall j :: 0 <= j < |names| ==> Chosen(q, j, CandidateOf(q, names[..j]).fsPath, names[j])
  }

  // ---- The expansion, level by level ----

  function Selected(tokens: seq<Token>, entries: seq<string>): seq<string> {
    if entries == [] then []
    else
      var n := |entries| - 1;
      Selected(tokens, entries[..n])
      + if Visible(tokens, entries[n]) && Matches(tokens, entries[n]) then [entries[n]] else []
  }

  function ChoiceList(q: Query, i: nat, dir: string): seq<string>
    requires QueryOk(q) && i < |q.parsed.segments|
  {
    var tokens := SegmentTokens(q, i);
    if HasMeta(tokens) then
      match q.fs.read(dir)
      case Failure(_) => []
      case Success(entries) => Selected(tokens, entries)
    else
      var name := Unescaped(q.parsed.segments[i], 0, q.noEscape);
      if q.fs.present(JoinFs(dir, name)) then [name] else []
  }

  function Appended(names: seq<string>, choices: seq<string>): (r: seq<seq<string>>)
    ensures |r| == |choices| && forall k :: 0 <= k < |r| ==> r[k] == names + [choices[k]]
  {
    seq(|choices|, k requires 0 <= k < |choices| => names + [choices[k]])
  }

  predicate OfLength(vectors: seq<seq<string>>, n: nat) {
    forall k :: 0 <= k < |vectors| ==> |vectors[k]| == n
  }

  function NextLevel(q: Query, i: nat, vectors: seq<seq<string>>): (r: seq<seq<string>>)
    requires QueryOk(q) && i < |q.parsed.segments| && OfLength(vectors, i)
    ensures OfLength(r, i + 1)
  {
    if vectors == [] then []
    else
      var n := |vectors| - 1;
      NextLevel(q, i, vectors[..n]) + Appended(vectors[n], ChoiceList(q, i, CandidateOf(q, vectors[n]).fsPath))
  }

  function Level(q: Query, i: nat): (r: seq<seq<string>>)
    requires QueryOk(q) && i <= |q.parsed.segments|
    ensures OfLength(r, i)
  {
    if i == 0 then [[]] else NextLevel(q, i - 1, Level(q, i - 1))
  }

  // ---- The expansion is exact ----

  lemma {:induction false} SelectedExact(tokens: seq<Token>, entries: seq<string>, name: string)
    ensures name in Selected(tokens, entries) <==> name in entries && Visible(tokens, name) && Matches(tokens, name)
  {
    hide Matches, Visible;
    if entries != [] {
      SelectedExact(tokens, entries[..|entries| - 1], name);
      assert entries == entries[..|entries| - 1] + [entries[|entries| - 1]];
    }
  }

  lemma ChoiceListExact(q: Query, i: nat, dir: string, name: string)
    requires QueryOk(q) && i < |q.parsed.segments|
    ensures name in ChoiceList(q, i, dir) <==> Chosen(q, i, dir, name)
  {
    hide Matches, Visible, HasMeta, Unescaped, Selected;
    var tokens := SegmentTokens(q, i);
    if HasMeta(tokens) {
      if q.fs.read(dir).Success? {
        SelectedExact(tokens, q.fs.read(dir).value, name);
      }
    } else {
      FastPathAgrees(q.parsed.segments[i], name, q.noEscape);
    }
  }

  lemma {:induction false} NextLevelExact(q: Query, i: nat, vectors: seq<seq<string>>, v: seq<string>)
    requires QueryOk(q) && i < |q.parsed.segments| && OfLength(vectors, i)
    ensures v in NextLevel(q, i, vectors)
       <==> |v| == i + 1 && v[..i] in vectors && v[i] in ChoiceList(q, i, CandidateOf(q, v[..i]).fsPath)
    decreases |vectors|
  {
    hide ChoiceList, CandidateOf;
    if vectors != [] {
      var n := |vectors| - 1;
      NextLevelExact(q, i, vectors[..n], v);
      assert vectors == vectors[..n] + [vectors[n]];
      AppendedExact(vectors[n], ChoiceList(q, i, CandidateOf(q, vectors[n]).fsPath), v);
    }
  }

  lemma AppendedExact(names: seq<string>, choices: seq<string>, v: seq<string>)
    ensures v in Appended(names, choices) <==> |v| == |names| + 1 && v[..|names|] == names && v[|names|] in choices
  {
    if |v| == |names| + 1 && v[..|names|] == names && v[|names|] in choices {
      var k :| 0 <= k < |choices| && choices[k] == v[|names|];
      assert Appended(names, choices)[k] == v;
    }
  }

  /** Level by level, none missing and none extra. */
  lemma {:induction false} LevelExact(q: Query, i: nat, v: seq<string>)
    requires QueryOk(q) && i <= |q.parsed.segments|
    ensures v in Level(q, i) <==> |v| == i && Reaches(q, v)
  {
    hide Chosen, CandidateOf, ChoiceList, NextLevel;
    if i > 0 {
      NextLevelExact(q, i - 1, Level(q, i - 1), v);
      if |v| == i {
        var w := v[..i - 1];
        LevelExact(q, i - 1, w);
        ChoiceListExact(q, i - 1, CandidateOf(q, w).fsPath, v[i - 1]);
        assert forall j :: 0 <= j < i - 1 ==> w[..j] == v[..j] && w[j] == v[j];
      }
    }
  }

  // ---- No path twice ----

  predicate Distinct<T(==)>(s: seq<T>) {
    forall i, j :: 0 <= i < j < |s| ==> s[i] != s[j]
  }

  ghost predicate DistinctListings(fs: FileSystem) {
    forall dir :: fs.read(dir).Success? ==> Distinct(fs.read(dir).value)
  }

  lemma DistinctConcat<T>(a: seq<T>, b: seq<T>)
    requires Distinct(a) && Distinct(b) && forall x :: x in a ==> x !in b
    ensures Distinct(a + b)
  {
    forall i, j | 0 <= i < j < |a + b| ensures (a + b)[i] != (a + b)[j] {
      if i < |a| <= j {
        assert (a + b)[i] in a && (a + b)[j] in b;
      }
    }
  }

  lemma {:induction false} SelectedDistinct(tokens: seq<Token>, entries: seq<string>)
    requires Distinct(entries)
    ensures Distinct(Selected(tokens, entries))
  {
    hide Matches, Visible;
    if entries != [] {
      var n := |entries| - 1;
      SelectedDistinct(tokens, entries[..n]);
      SelectedExact(tokens, entries[..n], entries[n]);
      assert entries[n] !in entries[..n];
      var last := if Visible(tokens, entries[n]) && Matches(tokens, entries[n]) then [entries[n]] else [];
      DistinctConcat(Selected(tokens, entries[..n]), last);
    }
  }

  lemma ChoiceListDistinct(q: Query, i: nat, dir: string)
    requires QueryOk(q) && i < |q.parsed.segments| && DistinctListings(q.fs)
    ensures Distinct(ChoiceList(q, i, dir))
  {
    hide HasMeta, Selected, Unescaped;
    if HasMeta(SegmentTokens(q, i)) && q.fs.read(dir).Success? {
      SelectedDistinct(SegmentTokens(q, i), q.fs.read(dir).value);
    }
  }

  lemma AppendedDistinct(names: seq<string>, choices: seq<string>)
    requires Distinct(choices)
    ensures Distinct(Appended(names, choices))
  {
    var r := Appended(names, choices);
    forall i, j | 0 <= i < j < |r| ensures r[i] != r[j] {
      assert r[i][|names|] == choices[i] && r[j][|names|] == choices[j];
    }
  }

  lemma {:induction false} NextLevelDistinct(q: Query, i: nat, vectors: seq<seq<string>>)
    requires QueryOk(q) && i < |q.parsed.segments| && OfLength(vectors, i)
    requires DistinctListings(q.fs) && Distinct(vectors)
    ensures Distinct(NextLevel(q, i, vectors))
    decreases |vectors|
  {
    if vectors != [] {
      var n := |vectors| - 1;
      var dir := CandidateOf(q, vectors[n]).fsPath;
      ChoiceListDistinct(q, i, dir);
      AppendedDistinct(vectors[n], ChoiceList(q, i, dir));
      hide ChoiceList, CandidateOf, DistinctListings;
      NextLevelDistinct(q, i, vectors[..n]);
      var before, last := NextLevel(q, i, vectors[..n]), Appended(vectors[n], ChoiceList(q, i, dir));
      forall v | v in before ensures v !in last {
        NextLevelExact(q, i, vectors[..n], v);
        AppendedExact(vectors[n], ChoiceList(q, i, dir), v);
        assert vectors[n] !in vectors[..n];
      }
      DistinctConcat(before, last);
    }
  }

  /** Directories that list every name once lead to every match once. */
  lemma {:induction false} LevelDistinct(q: Query, i: nat)
    requires QueryOk(q) && i <= |q.parsed.segments| && DistinctListings(q.fs)
    ensures Distinct(Level(q, i))
  {
    hide NextLevel, DistinctListings;
    if i > 0 {
      LevelDistinct(q, i - 1);
      NextLevelDistinct(q, i - 1, Level(q, i - 1));
    }
  }

  // ---- Errors and the final paths ----

  /** The caller's error policy: what the callback answers, if there is one, and `GLOB_ERR`. */
  datatype Policy = Policy(callback: Option<(string, int) -> bool>, stopOnError: bool)

  function CallbackPath(c: Candidate): string {
    if c.resultPath == [] then "." else c.resultPath
  }

  /** `process_directory_error` stops the traversal. */
  predicate Stops(policy: Policy, c: Candidate, errno: int) {
    (policy.callback.Some? && policy.callback.value(CallbackPath(c), errno)) || policy.stopOnError
  }

  /** Expanding segment `i` below these names meets an unreadable directory that stops the traversal. */
  predicate Blocked(q: Query, policy: Policy, i: nat, names: seq<string>)
    requires QueryOk(q) && i < |q.parsed.segments| && |names| == i
  {
    var c := CandidateOf(q, names);
    var listing := q.fs.read(c.fsPath);
    HasMeta(SegmentTokens(q, i)) && listing.Failure? && Stops(policy, c, listing.error)
  }

  /** This directory stops the traversal, with this error number. */
  predicate StoppedBy(q: Query, policy: Policy, i: nat, names: seq<string>, errno: int)
    requires QueryOk(q) && i < |q.parsed.segments| && |names| == i
  {
    Blocked(q, policy, i, names) && q.fs.read(CandidateOf(q, names).fsPath) == Failure(errno)
  }

  /** No directory reached after `i` names stops the traversal. */
  predicate UnblockedAt(q: Query, policy: Policy, i: nat)
    requires QueryOk(q) && i < |q.parsed.segments|
  {
    forall k :: 0 <= k < |Level(q, i)| ==> !Blocked(q, policy, i, Level(q, i)[k])
  }

  /** No reachable directory stops the traversal before segment `n`. */
  predicate Unblocked(q: Query, policy: Policy, n: nat)
    requires QueryOk(q) && n <= |q.parsed.segments|
  {
    forall i :: 0 <= i < n ==> UnblockedAt(q, policy, i)
  }

  /** After trailing separators only directories remain, with one separator. */
  predicate Final(q: Query, names: seq<string>)
    requires QueryOk(q) && |names| <= |q.parsed.segments|
  {
    0 < q.parsed.trailing ==> q.fs.isDir(CandidateOf(q, names).fsPath)
  }

  function ResultOf(q: Query, names: seq<string>): string
    requires QueryOk(q) && |names| <= |q.parsed.segments|
  {
    CandidateOf(q, names).resultPath + if 0 < q.parsed.trailing then "/" else ""
  }

  /** The results of a list of complete matches, in order. */
  function Results(q: Query, vectors: seq<seq<string>>): seq<string>
    requires QueryOk(q) && OfLength(vectors, |q.parsed.segments|)
  {
    if vectors == [] then []
    else
      var n := |vectors| - 1;
      Results(q, vectors[..n]) + if Final(q, vectors[n]) then [ResultOf(q, vectors[n])] else []
  }

  lemma {:induction false} ResultsMembers(q: Query, vectors: seq<seq<string>>, path: string)
    requires QueryOk(q) && OfLength(vectors, |q.parsed.segments|)
    ensures path in Results(q, vectors) <==> exists v :: v in vectors && Final(q, v) && ResultOf(q, v) == path
    decreases |vectors|
  {
    hide Final, ResultOf, QueryOk;
    if vectors != [] {
      var n := |vectors| - 1;
      ResultsMembers(q, vectors[..n], path);
      assert vectors == vectors[..n] + [vectors[n]];
    }
  }

  /** The expansion returns exactly the paths of complete matches: a name for every segment, each listed
      and visible (or existing) where the earlier ones lead, and a directory under a trailing separator. */
  lemma ExpansionExact(q: Query, path: string)
    requires QueryOk(q)
    ensures path in Results(q, Level(q, |q.parsed.segments|))
       <==> exists v :: |v| == |q.parsed.segments| && Reaches(q, v) && Final(q, v) && ResultOf(q, v) == path
  {
    hide Final, ResultOf, Reaches, Level, Results;
    var n := |q.parsed.segments|;
    ResultsMembers(q, Level(q, n), path);
    if v :| v in Level(q, n) && Final(q, v) && ResultOf(q, v) == path {
      LevelExact(q, n, v);
    }
    if v :| |v| == n && Reaches(q, v) && Final(q, v) && ResultOf(q, v) == path {
      LevelExact(q, n, v);
    }
  }
}
