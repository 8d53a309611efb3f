/** Splitting a glob pattern into path segments (`src/glob.rs`). */
module GlobPath {
  // ---- The splitter and its inverse ----

  /** Leading separators, the segments, the separators before each of them, and the trailing ones. */
  datatype Parsed = Parsed(leading: nat, segments: seq<string>, before: seq<nat>, trailing: nat)

  function Slashes(n: nat): (s: string)
    ensures |s| == n && forall i :: 0 <= i < n ==> s[i] == '/'
  {
    seq(n, _ => '/')
  }

  predicate IsSegment(s: string) {
    s != [] && '/' !in s
  }

  predicate WellFormed(x: Parsed) {
    && |x.before| == |x.segments|
    && (forall i :: 0 <= i < |x.segments| ==> IsSegment(x.segments[i]))
    && (forall i :: 0 <= i < |x.before| ==> if i == 0 then x.before[i] == 0 else x.before[i] > 0)
    && (x.segments == [] ==> x.trailing == 0)
  }

  /** The first `n` segments, each after its separators. */
  function Joined(segments: seq<string>, before: seq<nat>, n: nat): string
    requires n <= |segments| && n <= |before|
  {
    if n == 0 then [] else Joined(segments, before, n - 1) + Slashes(before[n - 1]) + segments[n - 1]
  }

  function Assemble(x: Parsed): string
    requires |x.before| == |x.segments|
  {
    Slashes(x.leading) + Joined(x.segments, x.before, |x.segments|) + Slashes(x.trailing)
  }

  method CountSlashes(pattern: string, start: nat) returns (end: nat)
    requires start <= |pattern|
    ensures start <= end <= |pattern| && pattern[start..end] == Slashes(end - start)
    ensures end < |pattern| ==> pattern[end] != '/'
  {
    end := start;
    while end < |pattern| && pattern[end] == '/'
      invariant start <= end <= |pattern| && pattern[start..end] == Slashes(end - start)
    {
      assert pattern[start..end + 1] == pattern[start..end] + ['/'] == Slashes(end + 1 - start);
      end := end + 1;
    }
  }

  method SkipSegment(pattern: string, start: nat) returns (end: nat)
    requires start <= |pattern|
    ensures start <= end <= |pattern| && '/' !in pattern[start..end]
    ensures end < |pattern| ==> pattern[end] == '/'
    ensures start < |pattern| && pattern[start] != '/' ==> start < end
  {
    end := start;
    while end < |pattern| && pattern[end] != '/'
      invariant start <= end <= |pattern| && '/' !in pattern[start..end]
    {
      end := end + 1;
    }
  }

  lemma JoinedGrows(segments: seq<string>, before: seq<nat>, s: string, b: nat)
    requires |segments| == |before|
    ensures Joined(segments + [s], before + [b], |segments| + 1)
         == Joined(segments, before, |segments|) + Slashes(b) + s
  {
    JoinedPrefix(segments, before, s, b, |segments|);
  }

  lemma {:induction false} JoinedPrefix(segments: seq<string>, before: seq<nat>, s: string, b: nat, n: nat)
    requires |segments| == |before| && n <= |segments|
    ensures Joined(segments + [s], before + [b], n) == Joined(segments, before, n)
  {
    if n > 0 {
      JoinedPrefix(segments, before, s, b, n - 1);
    }
  }

  /** Another segment after the pending separators, and the separators after it. */
  lemma AddSegment(leading: nat, segments: seq<string>, before: seq<nat>, pending: nat, s: string, after: nat)
    requires WellFormed(Parsed(leading, segments, before, pending))
    requires IsSegment(s) && (segments != [] ==> pending > 0)
    ensures var was := Parsed(leading, segments, before, pending);
      var now := Parsed(leading, segments + [s], before + [pending], after);
      WellFormed(now) && Assemble(now) == Assemble(was) + s + Slashes(after)
  {
    JoinedGrows(segments, before, s, pending);
    hide Joined;
  }

  /** `parse_segments_with_separators`: the well-formed parts that join back to the pattern. */
  method ParseSegmentsWithSeparators(pattern: string) returns (r: Parsed)
    ensures WellFormed(r) && Assemble(r) == pattern
  {
    var leading := CountSlashes(pattern, 0);
    var segments: seq<string>, before: seq<nat> := [], [];
    var pending: nat := 0;
    var index := leading;
    assert Assemble(Parsed(leading, segments, before, pending)) == pattern[..index];
    hide WellFormed, Joined, Assemble, Slashes;
    while index < |pattern|
      invariant leading <= index <= |pattern|
      invariant WellFormed(Parsed(leading, segments, before, pending))
      invariant Assemble(Parsed(leading, segments, before, pending)) == pattern[..index]
      invariant index < |pattern| ==> pattern[index] != '/'
      invariant index < |pattern| && segments != [] ==> pending > 0
    {
      var start := index;
      index := SkipSegment(pattern, start);
      var segment := pattern[start..index];
      var afterSlashes := CountSlashes(pattern, index);
      AddSegment(leading, segments, before, pending, segment, afterSlashes - index);
      segments, before, pending := segments + [segment], before + [pending], afterSlashes - index;
      assert pattern[..afterSlashes] == pattern[..start] + segment + Slashes(pending);
      index := afterSlashes;
    }
    r := Parsed(leading, segments, before, pending);
  }

  // ---- The parts are determined by the text ----

  lemma LastSlashes(a: string, s: string, t: nat, b: string, u: string, v: nat)
    requires a + s + Slashes(t) == b + u + Slashes(v) && IsSegment(s) && IsSegment(u)
    ensures t == v && a + s == b + u
  {
    var x, y := a + s, b + u;
    var whole := x + Slashes(t);
    assert whole[|x| - 1] == s[|s| - 1] && whole[|y| - 1] == u[|u| - 1];
    assert forall i :: |x| <= i < |whole| ==> whole[i] == '/';
    assert forall i :: |y| <= i < |whole| ==> whole[i] == '/';
    assert whole[..|x|] == x && whole[..|y|] == y;
  }

  lemma LastSegment(a: string, s: string, b: string, u: string)
    requires a + s == b + u && IsSegment(s) && IsSegment(u)
    requires (a == [] || a[|a| - 1] == '/') && (b == [] || b[|b| - 1] == '/')
    ensures a == b && s == u
  {
    CutAtSlash(a, s);
    CutAtSlash(b, u);
    var x := a + s;
    assert |a| == |b|;
    assert x[..|a|] == a && x[|a|..] == s;
  }

  /** A slash-free end starts right after the last slash. */
  lemma CutAtSlash(a: string, s: string)
    requires IsSegment(s) && (a == [] || a[|a| - 1] == '/')
    ensures forall i :: |a| <= i < |a + s| ==> (a + s)[i] != '/'
    ensures a != [] ==> (a + s)[|a| - 1] == '/'
  {
    forall i | |a| <= i < |a + s| ensures (a + s)[i] != '/' {
      assert (a + s)[i] == s[i - |a|] && s[i - |a|] in s;
    }
  }

  /** Everything before the last segment, as parts of its own. */
  function Shorter(x: Parsed): Parsed
    requires |x.before| == |x.segments| > 0
  {
    var n := |x.segments| - 1;
    Parsed(x.leading, x.segments[..n], x.before[..n], x.before[n])
  }

  lemma {:induction false} JoinedTake(segments: seq<string>, before: seq<nat>, k: nat, n: nat)
    requires n <= k <= |segments| && k <= |before|
    ensures Joined(segments[..k], before[..k], n) == Joined(segments, before, n)
  {
    if n > 0 {
      JoinedTake(segments, before, k, n - 1);
    }
  }

  lemma ShorterAssembles(x: Parsed)
    requires WellFormed(x) && x.segments != []
    ensures var s := Shorter(x);
      && WellFormed(s) && Assemble(x) == Assemble(s) + x.segments[|x.segments| - 1] + Slashes(x.trailing)
      && (Assemble(s) == [] || Assemble(s)[|Assemble(s)| - 1] == '/')
  {
    var n := |x.segments| - 1;
    JoinedTake(x.segments, x.before, n, n);
    assert n > 0 ==> x.before[n] > 0;
    assert Joined(x.segments, x.before, |x.segments|)
        == Joined(x.segments, x.before, n) + Slashes(x.before[n]) + x.segments[n];
    if n == 0 {
      assert Joined(Shorter(x).segments, Shorter(x).before, 0) == [];
    }
  }

  lemma OnlySlashes(x: Parsed)
    requires WellFormed(x)
    ensures x.segments == [] <==> forall c :: c in Assemble(x) ==> c == '/'
    ensures x.segments == [] ==> |Assemble(x)| == x.leading
  {
    if x.segments != [] {
      ShorterAssembles(x);
      var s := x.segments[|x.segments| - 1];
      assert IsSegment(s) && s[0] in s;
      hide Assemble;
      assert s[0] in Assemble(x) && s[0] != '/';
    }
  }

  lemma SplitLast(x: Parsed, y: Parsed)
    requires WellFormed(x) && WellFormed(y) && Assemble(x) == Assemble(y) && x.segments != [] && y.segments != []
    ensures Assemble(Shorter(x)) == Assemble(Shorter(y)) && x.trailing == y.trailing
    ensures x.segments[|x.segments| - 1] == y.segments[|y.segments| - 1]
  {
    ShorterAssembles(x);
    ShorterAssembles(y);
    var s, u := x.segments[|x.segments| - 1], y.segments[|y.segments| - 1];
    assert IsSegment(s) && IsSegment(u);
    hide Assemble, WellFormed, IsSegment;
    LastSlashes(Assemble(Shorter(x)), s, x.trailing, Assemble(Shorter(y)), u, y.trailing);
    LastSegment(Assemble(Shorter(x)), s, Assemble(Shorter(y)), u);
  }

  lemma ShorterInjective(x: Parsed, y: Parsed)
    requires |x.before| == |x.segments| > 0 && |y.before| == |y.segments| > 0
    requires Shorter(x) == Shorter(y) && x.trailing == y.trailing
    requires x.segments[|x.segments| - 1] == y.segments[|y.segments| - 1]
    ensures x == y
  {
    assert x.segments == Shorter(x).segments + [x.segments[|x.segments| - 1]];
    assert y.segments == Shorter(y).segments + [y.segments[|y.segments| - 1]];
    assert x.before == Shorter(x).before + [Shorter(x).trailing];
    assert y.before == Shorter(y).before + [Shorter(y).trailing];
  }

  /** Splitting loses nothing and is the only way to cut the text: the parts are determined by their join. */
  lemma {:induction false} AssembleInjective(x: Parsed, y: Parsed)
    requires WellFormed(x) && WellFormed(y) && Assemble(x) == Assemble(y)
    ensures x == y
    decreases |x.segments|
  {
    OnlySlashes(x);
    OnlySlashes(y);
    if x.segments != [] {
      SplitLast(x, y);
      ShorterAssembles(x);
      ShorterAssembles(y);
      hide Assemble, WellFormed;
      AssembleInjective(Shorter(x), Shorter(y));
      ShorterInjective(x, y);
    }
  }

  // ---- Escaped separators ----

  /** A pattern read with its escapes: an escaped or plain separator, an escaped character, a plain one. */
  datatype Unit = Sep | Esc(c: char) | Raw(c: char)

  /** The caller's reading: a backslash escapes whatever follows; a final one stands for itself. */
  function PathUnits(p: string): seq<Unit> {
    if p == [] then []
    else if p[0] == '/' then [Sep] + PathUnits(p[1..])
    else if p[0] != '\\' then [Raw(p[0])] + PathUnits(p[1..])
    else if |p| == 1 then [Esc('\\')]
    else [if p[1] == '/' then Sep else Esc(p[1])] + PathUnits(p[2..])
  }

  /** Two characters for an escape that does not end its segment, else one. */
  function UnitLength(p: string): (n: nat)
    requires p != []
    ensures 1 <= n <= |p|
  {
    if p[0] == '\\' && |p| > 1 && p[1] != '/' then 2 else 1
  }

  function HeadUnit(p: string): Unit
    requires p != []
  {
    if p[0] == '/' then Sep
    else if p[0] != '\\' then Raw(p[0])
    else if UnitLength(p) == 2 then Esc(p[1])
    else Esc('\\')
  }

  /** The reading after every separator has cut the text: a backslash at the end of a segment stands for itself. */
  function SplitUnits(p: string): seq<Unit> {
    if p == [] then [] else [HeadUnit(p)] + SplitUnits(p[UnitLength(p)..])
  }

  function Normalized(p: string): string {
    if p == [] then []
    else if p[0] == '\\' && |p| > 1 && p[1] == '/' then ['/'] + Normalized(p[2..])
    else [p[0]] + Normalized(p[1..])
  }

  /** `normalize_escaped_separators` */
  method NormalizeEscapedSeparators(pattern: string) returns (normalized: string)
    ensures normalized == Normalized(pattern)
  {
    hide Normalized;
    normalized := [];
    var index := 0;
    assert pattern[0..] == pattern;
    while index < |pattern|
      invariant 0 <= index <= |pattern|
      invariant normalized + Normalized(pattern[index..]) == Normalized(pattern)
    {
      NormalizedAt(pattern, index);
      if pattern[index] == '\\' && index + 1 < |pattern| && pattern[index + 1] == '/' {
        TextAssociative(normalized, ['/'], Normalized(pattern[index + 2..]));
        normalized := normalized + ['/'];
        index := index + 2;
        continue;
      }
      TextAssociative(normalized, [pattern[index]], Normalized(pattern[index + 1..]));
      normalized := normalized + [pattern[index]];
      index := index + 1;
    }
    NormalizedNothing(pattern);
  }

  lemma TextAssociative(a: string, b: string, c: string)
    ensures (a + b) + c == a + (b + c)
  {
  }

  lemma NormalizedNothing(p: string)
    ensures Normalized(p[|p|..]) == []
  {
  }

  /** One step of the normalisation at position `i`. */
  lemma NormalizedAt(p: string, i: nat)
    requires i < |p|
    ensures Normalized(p[i..])
         == if p[i] == '\\' && i + 1 < |p| && p[i + 1] == '/' then ['/'] + Normalized(p[i + 2..])
            else [p[i]] + Normalized(p[i + 1..])
  {
    var rest := p[i..];
    assert rest[1..] == p[i + 1..];
    assert |rest| > 1 ==> rest[2..] == p[i + 2..];
  }

  /** Dropping one backslash before a separator keeps the meaning, however long the run of backslashes is. */
  lemma {:induction false} NormalizeKeepsMeaning(p: string)
    ensures SplitUnits(Normalized(p)) == PathUnits(p)
    decreases |p|
  {
    if p != [] {
      NormalizeKeepsMeaning(p[1..]);
      var n := Normalized(p);
      if p[0] != '\\' {
        assert n[1..] == Normalized(p[1..]);
      } else if |p| > 1 {
        NormalizeKeepsMeaning(p[2..]);
        NormalizeBackslash(p);
      }
    }
  }

  lemma NormalizeBackslash(p: string)
    requires |p| > 1 && p[0] == '\\'
    requires SplitUnits(Normalized(p[1..])) == PathUnits(p[1..]) && SplitUnits(Normalized(p[2..])) == PathUnits(p[2..])
    ensures SplitUnits(Normalized(p)) == PathUnits(p)
  {
    var n, m := Normalized(p), Normalized(p[1..]);
    if p[1] == '/' {
      assert n[1..] == Normalized(p[2..]);
    } else {
      assert n[1..] == m;
      assert p[1..][1..] == p[2..];
      if p[1] == '\\' && |p| > 2 && p[2] == '/' {
        assert m[0] == '/';
        assert p[1..][2..] == p[2..][1..];
        assert PathUnits(p[1..]) == PathUnits(p[2..]);
      } else {
        assert m == [p[1]] + Normalized(p[2..]);
        assert n[2..] == Normalized(p[2..]);
      }
    }
  }
}
