/** The kernel's CPU range lists, such as `0-3,8` (`src/system.rs`). */
module CpuRanges {
  import opened Wrappers
  import opened AbiText
  import opened DecimalText

  datatype Range = Range(lo: nat, hi: nat)

  // ---- The text ----

  /** `parse_cpu_index`: ASCII digits only, and the number fits. */
  function ParseCpuIndex(token: string): Option<nat> {
    if token == [] || !(forall k :: 0 <= k < |token| ==> '0' <= token[k] <= '9') then None
    else
      DigitsArePositive(token);
      if Value(token) <= USIZE_MAX then Some(Value(token)) else None
  }

  lemma {:induction false} DigitsArePositive(s: string)
    requires forall k :: 0 <= k < |s| ==> '0' <= s[k] <= '9'
    ensures 0 <= Value(s)
  {
    if s != [] {
      DigitsArePositive(s[..|s| - 1]);
    }
  }

  /** The position of the first `c`, or the length. */
  function IndexOf(s: string, c: char): (i: nat)
    ensures i <= |s| && c !in s[..i] && (i < |s| ==> s[i] == c)
  {
    if s == [] || s[0] == c then 0
    else
      var i := 1 + IndexOf(s[1..], c);
      assert s[..i] == [s[0]] + s[1..][..i - 1];
      i
  }

  /** One token: an index, or two indices around the first hyphen, in order. */
  function RangeOf(token: string): Option<Range> {
    var dash := IndexOf(token, '-');
    if dash == |token| then
      match ParseCpuIndex(token)
      case None => None
      case Some(cpu) => Some(Range(cpu, cpu))
    else
      match (ParseCpuIndex(token[..dash]), ParseCpuIndex(token[dash + 1..]))
      case (Some(lo), Some(hi)) => if lo <= hi then Some(Range(lo, hi)) else None
      case _ => None
  }

  /** `split(',')`: never empty, an empty text is one empty piece. */
  function Pieces(s: string): (r: seq<string>)
    ensures r != []
    decreases |s|
  {
    var i := IndexOf(s, ',');
    if i == |s| then [s] else [s[..i]] + Pieces(s[i + 1..])
  }

  function JoinPieces(pieces: seq<string>): string {
    if pieces == [] then [] else if |pieces| == 1 then pieces[0] else pieces[0] + "," + JoinPieces(pieces[1..])
  }

  /** The pieces are the comma-free parts of the text. */
  lemma {:induction false} PiecesJoin(s: string)
    ensures JoinPieces(Pieces(s)) == s && forall k :: 0 <= k < |Pieces(s)| ==> ',' !in Pieces(s)[k]
    decreases |s|
  {
    var i := IndexOf(s, ',');
    PiecesUnfold(s);
    hide Pieces;
    if i < |s| {
      var rest := Pieces(s[i + 1..]);
      PiecesJoin(s[i + 1..]);
      assert JoinPieces([s[..i]] + rest) == s[..i] + "," + JoinPieces(rest) by { JoinCons(s[..i], rest); }
      hide JoinPieces;
      assert s == s[..i] + "," + s[i + 1..];
      assert forall k :: 0 < k <= |rest| ==> ([s[..i]] + rest)[k] == rest[k - 1];
    } else {
      assert s[..i] == s;
    }
  }

  lemma PiecesUnfold(s: string)
    ensures var i := IndexOf(s, ','); Pieces(s) == if i == |s| then [s] else [s[..i]] + Pieces(s[i + 1..])
  {
    hide IndexOf;
  }

  lemma JoinCons(piece: string, rest: seq<string>)
    requires rest != []
    ensures JoinPieces([piece] + rest) == piece + "," + JoinPieces(rest)
  {
    assert ([piece] + rest)[1..] == rest;
  }

  // ---- What the text denotes ----

  predicate AllRanges(pieces: seq<string>) {
    forall k :: 0 <= k < |pieces| ==> RangeOf(Trim(pieces[k])).Some?
  }

  function Ranges(pieces: seq<string>): (r: seq<Range>)
    requires AllRanges(pieces)
    ensures |r| == |pieces| && forall k :: 0 <= k < |r| ==> r[k] == RangeOf(Trim(pieces[k])).value
  {
    seq(|pieces|, k requires 0 <= k < |pieces| => RangeOf(Trim(pieces[k])).value)
  }

  /** Each range lies above the one before it. */
  predicate Ordered(rs: seq<Range>) {
    forall k :: 0 < k < |rs| ==> rs[k - 1].hi < rs[k].lo
  }

  function Total(rs: seq<Range>): int {
    if rs == [] then 0 else Total(rs[..|rs| - 1]) + rs[|rs| - 1].hi - rs[|rs| - 1].lo + 1
  }

  /** A well-formed list: ranges in ascending order, disjoint, whose CPUs can be counted. */
  predicate Accepts(input: string) {
    AcceptsPieces(Pieces(Trim(input)))
  }

  predicate Proper(rs: seq<Range>) {
    forall k :: 0 <= k < |rs| ==> rs[k].lo <= rs[k].hi <= USIZE_MAX
  }

  lemma RangesAreProper(pieces: seq<string>)
    requires AllRanges(pieces)
    ensures Proper(Ranges(pieces))
  {
    hide Trim, Value;
  }

  lemma {:induction false} TotalGrows(rs: seq<Range>, k: nat)
    requires Proper(rs) && k <= |rs|
    ensures Total(rs[..k]) <= Total(rs)
    decreases |rs|
  {
    if k < |rs| {
      var n := |rs| - 1;
      TotalGrows(rs[..n], k);
      assert rs[..n][..k] == rs[..k];
    } else {
      assert rs[..k] == rs;
    }
  }

  /** The ranges of the first pieces. */
  predicate IsPrefix(pieces: seq<string>, done: seq<Range>) {
    |done| <= |pieces| && forall k :: 0 <= k < |done| ==> RangeOf(Trim(pieces[k])) == Some(done[k])
  }

  predicate Counted(done: seq<Range>, total: int) {
    Proper(done) && Ordered(done) && total == Total(done) && total <= USIZE_MAX
  }

  lemma RangeIsProper(token: string)
    requires RangeOf(token).Some?
    ensures RangeOf(token).value.lo <= RangeOf(token).value.hi <= USIZE_MAX
  {
    hide Value;
  }

  /** One more range, above the last one. */
  lemma CountOneMore(pieces: seq<string>, done: seq<Range>, total: int, r: Range)
    requires IsPrefix(pieces, done) && |done| < |pieces| && RangeOf(Trim(pieces[|done|])) == Some(r)
    requires Counted(done, total) && (done != [] ==> done[|done| - 1].hi < r.lo)
    ensures IsPrefix(pieces, done + [r]) && Total(done + [r]) == total + (r.hi - r.lo + 1)
    ensures total + (r.hi - r.lo + 1) <= USIZE_MAX ==> Counted(done + [r], total + (r.hi - r.lo + 1))
  {
    hide RangeOf, Trim, Counted, Total, Proper, Ordered;
    RangeIsProper(Trim(pieces[|done|]));
    PrefixSnoc(pieces, done, r);
    hide IsPrefix;
    AppendCounted(done, total, r);
  }

  lemma PrefixSnoc(pieces: seq<string>, done: seq<Range>, r: Range)
    requires IsPrefix(pieces, done) && |done| < |pieces| && RangeOf(Trim(pieces[|done|])) == Some(r)
    ensures IsPrefix(pieces, done + [r])
  {
    hide RangeOf, Trim;
  }

  lemma AppendCounted(done: seq<Range>, total: int, r: Range)
    requires Counted(done, total) && r.lo <= r.hi <= USIZE_MAX && (done != [] ==> done[|done| - 1].hi < r.lo)
    ensures Total(done + [r]) == total + (r.hi - r.lo + 1)
    ensures total + (r.hi - r.lo + 1) <= USIZE_MAX ==> Counted(done + [r], total + (r.hi - r.lo + 1))
  {
    AppendTotal(done, r);
    hide Total, Proper, Ordered;
    AppendOrdered(done, r);
  }

  lemma AppendTotal(done: seq<Range>, r: Range)
    ensures Total(done + [r]) == Total(done) + (r.hi - r.lo + 1)
  {
    assert (done + [r])[..|done|] == done;
  }

  lemma AppendOrdered(done: seq<Range>, r: Range)
    requires Proper(done) && Ordered(done)
    requires r.lo <= r.hi <= USIZE_MAX && (done != [] ==> done[|done| - 1].hi < r.lo)
    ensures Proper(done + [r]) && Ordered(done + [r])
  {
  }

  predicate AcceptsPieces(pieces: seq<string>) {
    AllRanges(pieces) && Ordered(Ranges(pieces)) && Total(Ranges(pieces)) <= USIZE_MAX
  }

  /** What acceptance of the whole says about the pieces read so far. */
  lemma AcceptedPrefix(pieces: seq<string>, done: seq<Range>)
    requires AcceptsPieces(pieces) && IsPrefix(pieces, done)
    ensures Total(done) <= USIZE_MAX
    ensures |done| < |pieces| ==> var next := RangeOf(Trim(pieces[|done|]));
      next.Some? && next.value.lo <= USIZE_MAX && (done != [] ==> done[|done| - 1].hi < next.value.lo)
  {
    var rs := Ranges(pieces);
    RangesAreProper(pieces);
    hide RangeOf, Trim;
    assert rs[..|done|] == done;
    TotalGrows(rs, |done|);
  }

  /** Everything read and counted. */
  lemma AllRead(pieces: seq<string>, done: seq<Range>, total: int)
    requires IsPrefix(pieces, done) && |done| == |pieces| && Counted(done, total)
    ensures AcceptsPieces(pieces) && Total(Ranges(pieces)) == total
  {
    hide RangeOf, Trim;
    assert Ranges(pieces) == done;
  }

  lemma NotRange(pieces: seq<string>, k: nat)
    requires k < |pieces| && RangeOf(Trim(pieces[k])).None?
    ensures !AcceptsPieces(pieces)
  {
    hide RangeOf, Trim;
  }

  /** `parse_cpu_range_list`: accepts exactly the well-formed lists, and counts them. */
  method ParseCpuRangeList(input: string) returns (r: Option<nat>)
    ensures r.Some? <==> Accepts(input)
    ensures r.Some? ==> r.value == Total(Ranges(Pieces(Trim(input))))
  {
    hide Trim, Pieces;
    r := CountPieces(Pieces(Trim(input)));
  }

  method CountPieces(tokens: seq<string>) returns (r: Option<nat>)
    ensures r.Some? <==> AcceptsPieces(tokens)
    ensures r.Some? ==> r.value == Total(Ranges(tokens))
  {
    hide Trim, RangeOf, AcceptsPieces, IsPrefix, Counted, Total;
    var total, nextMinCpu, parsedAny := 0, 0, false;
    ghost var done: seq<Range> := [];
    NothingRead(tokens);
    var i := 0;
    while i < |tokens|
      invariant 0 <= i <= |tokens| && |done| == i && (parsedAny <==> i > 0)
      invariant IsPrefix(tokens, done) && Counted(done, total)
      invariant 0 < i < |tokens| ==> nextMinCpu == done[i - 1].hi + 1
    {
      var range := RangeOf(Trim(tokens[i]));
      if range.None? {
        NotRange(tokens, i);
        return None;
      }
      var (start, end) := (range.value.lo, range.value.hi);
      if AcceptsPieces(tokens) { AcceptedPrefix(tokens, done); }
      if parsedAny && start < nextMinCpu {
        return None;
      }
      RangeIsProper(Trim(tokens[i]));
      CountOneMore(tokens, done, total, range.value);
      done := done + [range.value];
      if AcceptsPieces(tokens) { AcceptedPrefix(tokens, done); }
      var count: int := end - start + 1;
      TotalIsCount(done[..i], total);
      if USIZE_MAX < count || USIZE_MAX < total + count {
        return None;
      }
      parsedAny := true;
      total := total + count;
      if i + 1 < |tokens| {
        if USIZE_MAX < end + 1 {
          return None;
        }
        nextMinCpu := end + 1;
      }
      i := i + 1;
    }
    AllRead(tokens, done, total);
    TotalIsCount(done, total);
    r := Some(total);
  }

  lemma NothingRead(pieces: seq<string>)
    ensures IsPrefix(pieces, []) && Counted([], 0)
  {
  }

  lemma {:induction false} TotalIsCount(rs: seq<Range>, total: int)
    requires Counted(rs, total)
    ensures 0 <= total
    decreases |rs|
  {
    if rs != [] {
      TotalGrows(rs, 0);
      assert rs[..0] == [];
    }
  }

  // ---- The count is the number of CPUs ----

  function Span(lo: nat, hi: int): (r: set<nat>)
    ensures forall cpu: nat :: cpu in r <==> lo <= cpu <= hi
    decreases hi - lo + 1
  {
    if hi < lo then {} else Span(lo, hi - 1) + {hi}
  }

  /** Every CPU some range names. */
  function Cpus(rs: seq<Range>): set<nat> {
    if rs == [] then {} else Cpus(rs[..|rs| - 1]) + Span(rs[|rs| - 1].lo, rs[|rs| - 1].hi)
  }

  lemma {:induction false} SpanSize(lo: nat, hi: int)
    requires lo <= hi + 1
    ensures |Span(lo, hi)| == hi - lo + 1
    decreases hi - lo + 1
  {
    if lo <= hi {
      SpanSize(lo, hi - 1);
    }
  }

  /** Some range holds the CPU. */
  predicate Holds(rs: seq<Range>, cpu: nat) {
    exists k :: 0 <= k < |rs| && rs[k].lo <= cpu <= rs[k].hi
  }

  lemma HoldsSnoc(rs: seq<Range>, cpu: nat)
    requires rs != []
    ensures var n := |rs| - 1; Holds(rs, cpu) <==> Holds(rs[..n], cpu) || rs[n].lo <= cpu <= rs[n].hi
  {
    var n := |rs| - 1;
    if Holds(rs, cpu) {
      var k :| 0 <= k < |rs| && rs[k].lo <= cpu <= rs[k].hi;
      assert k < n ==> rs[..n][k] == rs[k];
    }
    if Holds(rs[..n], cpu) {
      var k :| 0 <= k < n && rs[..n][k].lo <= cpu <= rs[..n][k].hi;
      assert rs[..n][k] == rs[k];
    }
  }

  lemma {:induction false} CpusExact(rs: seq<Range>, cpu: nat)
    ensures cpu in Cpus(rs) <==> Holds(rs, cpu)
  {
    hide Holds;
    if rs == [] {
      assert !Holds([], cpu) by { NothingHolds(cpu); }
    } else {
      HoldsSnoc(rs, cpu);
      CpusExact(rs[..|rs| - 1], cpu);
    }
  }

  lemma NothingHolds(cpu: nat)
    ensures !Holds([], cpu)
  {
  }

  lemma {:induction false} OrderedBelow(rs: seq<Range>, k: nat)
    requires Proper(rs) && Ordered(rs) && k < |rs|
    ensures rs[k].hi <= rs[|rs| - 1].hi
    decreases |rs|
  {
    if k < |rs| - 1 {
      var n := |rs| - 1;
      OrderedBelow(rs[..n], k);
      assert rs[..n][k] == rs[k] && rs[..n][n - 1] == rs[n - 1];
    }
  }

  lemma CpusBelow(rs: seq<Range>)
    requires Proper(rs) && Ordered(rs)
    ensures forall cpu :: cpu in Cpus(rs) <==> Holds(rs, cpu)
    ensures rs != [] ==> forall cpu :: cpu in Cpus(rs) ==> cpu <= rs[|rs| - 1].hi
  {
    hide Cpus, Holds;
    forall cpu: nat ensures cpu in Cpus(rs) <==> Holds(rs, cpu) {
      CpusExact(rs, cpu);
    }
    forall cpu: nat | cpu in Cpus(rs) ensures rs != [] && cpu <= rs[|rs| - 1].hi {
      HeldBelow(rs, cpu);
    }
  }

  lemma HeldBelow(rs: seq<Range>, cpu: nat)
    requires Proper(rs) && Ordered(rs) && Holds(rs, cpu)
    ensures rs != [] && cpu <= rs[|rs| - 1].hi
  {
    var k :| 0 <= k < |rs| && rs[k].lo <= cpu <= rs[k].hi;
    OrderedBelow(rs, k);
  }

  lemma DisjointSizes(a: set<nat>, b: set<nat>)
    requires a !! b
    ensures |a + b| == |a| + |b|
  {
  }

  /** The result of an accepted list is the number of different CPUs it names. */
  lemma {:induction false} TotalCountsCpus(rs: seq<Range>)
    requires Proper(rs) && Ordered(rs)
    ensures |Cpus(rs)| == Total(rs)
  {
    if rs != [] {
      var n := |rs| - 1;
      var before, last := rs[..n], rs[n];
      TotalCountsCpus(before);
      CpusBelow(before);
      SpanSize(last.lo, last.hi);
      assert n > 0 ==> before[n - 1].hi < last.lo;
      CpusUnfold(rs);
      hide Span, Cpus, Total;
      DisjointSizes(Cpus(before), Span(last.lo, last.hi));
    }
  }

  lemma CpusUnfold(rs: seq<Range>)
    requires rs != []
    ensures var n := |rs| - 1;
      && Cpus(rs) == Cpus(rs[..n]) + Span(rs[n].lo, rs[n].hi) && Total(rs) == Total(rs[..n]) + rs[n].hi - rs[n].lo + 1
  {
  }

  /** Some piece of the text names the CPU. */
  predicate Names(pieces: seq<string>, cpu: nat)
    requires AllRanges(pieces)
  {
    exists k :: 0 <= k < |pieces| && RangeOf(Trim(pieces[k])).value.lo <= cpu <= RangeOf(Trim(pieces[k])).value.hi
  }

  /** An accepted text counts the CPUs that some comma-separated piece of it names. */
  lemma AcceptedCountsCpus(input: string)
    requires Accepts(input)
    ensures var pieces := Pieces(Trim(input));
      && Total(Ranges(pieces)) == |Cpus(Ranges(pieces))|
      && forall cpu :: cpu in Cpus(Ranges(pieces)) <==> Names(pieces, cpu)
  {
    hide Trim, Pieces, RangeOf, Total, Cpus, Names;
    var pieces := Pieces(Trim(input));
    RangesAreProper(pieces);
    TotalCountsCpus(Ranges(pieces));
    forall cpu ensures cpu in Cpus(Ranges(pieces)) <==> Names(pieces, cpu) {
      NamedCpu(pieces, cpu);
    }
  }

  lemma NamedCpu(pieces: seq<string>, cpu: nat)
    requires AllRanges(pieces) && Ordered(Ranges(pieces))
    ensures cpu in Cpus(Ranges(pieces)) <==> Names(pieces, cpu)
  {
    RangesAreProper(pieces);
    var rs := Ranges(pieces);
    hide Trim, RangeOf, Cpus, Proper, Ordered, Ranges;
    CpusBelow(rs);
    if k :| 0 <= k < |rs| && rs[k].lo <= cpu <= rs[k].hi {
      assert rs[k] == RangeOf(Trim(pieces[k])).value;
    }
    if Names(pieces, cpu) {
      var k :| 0 <= k < |pieces| && RangeOf(Trim(pieces[k])).value.lo <= cpu <= RangeOf(Trim(pieces[k])).value.hi;
      assert rs[k].lo <= cpu <= rs[k].hi;
    }
  }

  // ---- Which texts denote which ranges ----

  predicate AllDigits(s: string) {
    s != [] && forall k :: 0 <= k < |s| ==> '0' <= s[k] <= '9'
  }

  /** One index stands for its own CPU, two around a hyphen for all between them; leading zeros are allowed. */
  ghost predicate Denotes(token: string, r: Range) {
    && r.lo <= r.hi <= USIZE_MAX
    && ((AllDigits(token) && Value(token) == r.lo == r.hi)
        || exists a, b :: token == a + "-" + b && AllDigits(a) && AllDigits(b) && Value(a) == r.lo && Value(b) == r.hi)
  }

  lemma IndexExact(token: string, cpu: nat)
    ensures ParseCpuIndex(token) == Some(cpu) <==> AllDigits(token) && Value(token) == cpu <= USIZE_MAX
  {
    hide Value;
  }

  lemma FirstAt(a: string, c: char, b: string)
    requires c !in a
    ensures IndexOf(a + [c] + b, c) == |a|
  {
    var s := a + [c] + b;
    var i := IndexOf(s, c);
    assert s[|a|] == c;
    assert forall k :: 0 <= k < |a| ==> s[k] == a[k];
    assert forall k {:trigger s[k]} :: 0 <= k < i ==> s[k] == s[..i][k];
    hide IndexOf;
  }

  lemma NoHyphen(s: string)
    requires AllDigits(s)
    ensures '-' !in s && ',' !in s && IndexOf(s, '-') == |s|
  {
  }

  lemma TwoIndices(a: string, b: string)
    requires AllDigits(a)
    ensures RangeOf(a + "-" + b) == match (ParseCpuIndex(a), ParseCpuIndex(b))
      case (Some(lo), Some(hi)) => if lo <= hi then Some(Range(lo, hi)) else None
      case _ => None
  {
    NoHyphen(a);
    FirstAt(a, '-', b);
    var t := a + "-" + b;
    assert t[..|a|] == a && t[|a| + 1..] == b;
    hide ParseCpuIndex, IndexOf;
  }

  /** A token is accepted for a range exactly when it denotes the range. */
  lemma RangeOfExact(token: string, r: Range)
    ensures RangeOf(token) == Some(r) <==> Denotes(token, r)
  {
    hide Value, ParseCpuIndex;
    if RangeOf(token) == Some(r) {
      AcceptedDenotes(token, r);
    }
    if Denotes(token, r) {
      DenotedAccepted(token, r);
    }
  }

  lemma AcceptedDenotes(token: string, r: Range)
    requires RangeOf(token) == Some(r)
    ensures Denotes(token, r)
  {
    hide Value, ParseCpuIndex;
    var dash := IndexOf(token, '-');
    if dash == |token| {
      IndexExact(token, r.lo);
    } else {
      var a, b := token[..dash], token[dash + 1..];
      IndexExact(a, r.lo);
      IndexExact(b, r.hi);
      assert token == a + "-" + b;
    }
  }

  lemma DenotedAccepted(token: string, r: Range)
    requires Denotes(token, r)
    ensures RangeOf(token) == Some(r)
  {
    hide Value, ParseCpuIndex;
    if AllDigits(token) && Value(token) == r.lo == r.hi {
      NoHyphen(token);
      IndexExact(token, r.lo);
    } else {
      var a, b :| token == a + "-" + b && AllDigits(a) && AllDigits(b) && Value(a) == r.lo && Value(b) == r.hi;
      IndexExact(a, r.lo);
      IndexExact(b, r.hi);
      TwoIndices(a, b);
    }
  }

  // ---- Written lists are read back ----

  /** A range as the kernel writes it. */
  function RangeText(r: Range): string {
    if r.lo == r.hi then Digits(r.lo) else Digits(r.lo) + "-" + Digits(r.hi)
  }

  function RangeTexts(rs: seq<Range>): (texts: seq<string>)
    ensures |texts| == |rs| && forall k :: 0 <= k < |rs| ==> texts[k] == RangeText(rs[k])
  {
    seq(|rs|, k requires 0 <= k < |rs| => RangeText(rs[k]))
  }

  function ListText(rs: seq<Range>): string {
    JoinPieces(RangeTexts(rs))
  }

  lemma DigitsAllDigits(n: nat)
    ensures AllDigits(Digits(n)) && Value(Digits(n)) == n
  {
    ValueOfDigits(n);
    assert forall k :: 0 <= k < |Digits(n)| ==> Digits(n)[k] in Digits(n);
    hide Value, Digits;
  }

  /** No white space at the ends, no comma inside. */
  predicate CleanText(s: string) {
    s != [] && !IsWhitespace(s[0]) && !IsWhitespace(s[|s| - 1]) && ',' !in s
  }

  lemma DigitsAreClean(s: string)
    requires AllDigits(s)
    ensures CleanText(s)
  {
    assert '0' <= s[0] <= '9' && '0' <= s[|s| - 1] <= '9';
  }

  lemma RangeTextReadsBack(r: Range)
    requires r.lo <= r.hi <= USIZE_MAX
    ensures RangeOf(RangeText(r)) == Some(r) && CleanText(RangeText(r))
  {
    hide Value, Digits, RangeOf, IsWhitespace;
    DigitsAllDigits(r.lo);
    DigitsAllDigits(r.hi);
    DigitsAreClean(Digits(r.lo));
    DigitsAreClean(Digits(r.hi));
    hide AllDigits;
    assert Denotes(RangeText(r), r);
    RangeOfExact(RangeText(r), r);
  }

  predicate CleanPieces(pieces: seq<string>) {
    pieces != [] && forall k :: 0 <= k < |pieces| ==> CleanText(pieces[k])
  }

  lemma {:induction false} JoinIsClean(pieces: seq<string>)
    requires CleanPieces(pieces)
    ensures var s := JoinPieces(pieces); s != [] && s[0] == pieces[0][0] && !IsWhitespace(s[|s| - 1])
  {
    hide IsWhitespace;
    if |pieces| > 1 {
      JoinIsClean(pieces[1..]);
    }
  }

  /** Pieces without commas are split where they were joined. */
  lemma {:induction false} PiecesOfJoin(pieces: seq<string>)
    requires CleanPieces(pieces)
    ensures Pieces(JoinPieces(pieces)) == pieces
  {
    hide IsWhitespace, IndexOf;
    if |pieces| == 1 {
      NoComma(pieces[0]);
    } else {
      var rest := JoinPieces(pieces[1..]);
      var s := JoinPieces(pieces);
      PiecesOfJoin(pieces[1..]);
      FirstAt(pieces[0], ',', rest);
      assert s == pieces[0] + [','] + rest;
      assert s[..|pieces[0]|] == pieces[0] && s[|pieces[0]| + 1..] == rest;
      PiecesUnfold(s);
    }
  }

  lemma NoComma(s: string)
    requires ',' !in s
    ensures IndexOf(s, ',') == |s|
  {
  }

  /** A list of ranges, written down, is accepted exactly when it is ascending, disjoint and countable, and then
      reads back as itself. */
  lemma WrittenListReadsBack(rs: seq<Range>)
    requires rs != [] && Proper(rs)
    ensures Accepts(ListText(rs)) <==> Ordered(rs) && Total(rs) <= USIZE_MAX
    ensures AllRanges(Pieces(Trim(ListText(rs)))) && Ranges(Pieces(Trim(ListText(rs)))) == rs
  {
    var pieces := RangeTexts(rs);
    forall k | 0 <= k < |pieces| ensures CleanText(pieces[k]) && RangeOf(Trim(pieces[k])) == Some(rs[k]) {
      RangeTextReadsBack(rs[k]);
      hide Value, RangeOf, RangeText;
      TrimIsTrimmed(pieces[k]);
    }
    hide RangeOf, RangeText, CleanText, Total, Ordered, Trim;
    JoinTrimmed(pieces);
    PiecesOfJoin(pieces);
    assert AllRanges(pieces) && Ranges(pieces) == rs;
  }

  lemma JoinTrimmed(pieces: seq<string>)
    requires CleanPieces(pieces)
    ensures Trim(JoinPieces(pieces)) == JoinPieces(pieces)
  {
    JoinIsClean(pieces);
    assert CleanText(pieces[0]);
    TrimIsTrimmed(JoinPieces(pieces));
  }
}
