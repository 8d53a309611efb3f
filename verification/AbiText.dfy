/** Text handling under the ABI snapshot format (`src/bin/abi_check.rs`): Rust's `trim` and `lines`, and
    ordered symbol sets. */
module AbiText {
  // ---- White space ----

  /** The Unicode White_Space property, `char::is_whitespace`. */
  predicate IsWhitespace(c: char) {
    var n := c as int;
    || 0x9 <= n <= 0xD || n == 0x20 || n == 0x85 || n == 0xA0 || n == 0x1680 || 0x2000 <= n <= 0x200A
    || n == 0x2028 || n == 0x2029 || n == 0x202F || n == 0x205F || n == 0x3000
  }

  function TrimStart(s: string): string {
    if s != [] && IsWhitespace(s[0]) then TrimStart(s[1..]) else s
  }

  function TrimEnd(s: string): string {
    if s != [] && IsWhitespace(s[|s| - 1]) then TrimEnd(s[..|s| - 1]) else s
  }

  function Trim(s: string): string {
    TrimEnd(TrimStart(s))
  }

  /** Neither end is white space. */
  predicate Trimmed(s: string) {
    s != [] ==> !IsWhitespace(s[0]) && !IsWhitespace(s[|s| - 1])
  }

  lemma {:induction false} TrimStartEnds(s: string)
    ensures var r := TrimStart(s);
      (r != [] ==> !IsWhitespace(r[0]) && s != [] && r[|r| - 1] == s[|s| - 1]) && (forall c :: c in r ==> c in s)
  {
    if s != [] && IsWhitespace(s[0]) {
      TrimStartEnds(s[1..]);
    }
  }

  lemma {:induction false} TrimEndEnds(s: string)
    ensures var r := TrimEnd(s);
      (r != [] ==> !IsWhitespace(r[|r| - 1]) && s != [] && r[0] == s[0]) && (forall c :: c in r ==> c in s)
  {
    if s != [] && IsWhitespace(s[|s| - 1]) {
      TrimEndEnds(s[..|s| - 1]);
    }
  }

  lemma TrimIsTrimmed(s: string)
    ensures Trimmed(Trim(s))
    ensures Trimmed(s) ==> Trim(s) == s
  {
    TrimStartEnds(s);
    TrimEndEnds(TrimStart(s));
  }

  // ---- Lines ----

  /** `str::lines`: a line feed ends a line, with a carriage return just before it. */
  function Lines(s: string): seq<string> {
    LinesFrom(s, 0)
  }

  function LinesFrom(s: string, i: nat): seq<string>
    requires i <= |s|
    decreases |s|, |s| - i
  {
    if s == [] then []
    else if i == |s| then [s]
    else if s[i] == '\n' then [DropReturn(s[..i])] + LinesFrom(s[i + 1..], 0)
    else LinesFrom(s, i + 1)
  }

  function DropReturn(line: string): string {
    if line != [] && line[|line| - 1] == '\r' then line[..|line| - 1] else line
  }

  function JoinLines(lines: seq<string>): string {
    if lines == [] then [] else lines[0] + "\n" + JoinLines(lines[1..])
  }

  /** A line that survives being written and read. */
  predicate PlainLine(s: string) {
    '\n' !in s && (s != [] ==> s[|s| - 1] != '\r')
  }

  lemma {:induction false} FirstLine(line: string, rest: string, i: nat)
    requires PlainLine(line) && i <= |line|
    ensures LinesFrom(line + "\n" + rest, i) == [line] + LinesFrom(rest, 0)
    decreases |line| - i
  {
    var s := line + "\n" + rest;
    if i < |line| {
      assert s[i] == line[i] && line[i] in line;
      FirstLine(line, rest, i + 1);
    } else {
      assert s[..i] == line && s[i + 1..] == rest;
    }
  }

  /** Written lines are read back as they are. */
  lemma {:induction false} LinesOfJoin(lines: seq<string>)
    requires forall k :: 0 <= k < |lines| ==> PlainLine(lines[k])
    ensures Lines(JoinLines(lines)) == lines
  {
    if lines != [] {
      LinesOfJoin(lines[1..]);
      FirstLine(lines[0], JoinLines(lines[1..]), 0);
    }
  }

  /** The lines with these line ends after them. */
  function Unlines(lines: seq<string>, ends: seq<string>): string
    requires |ends| == |lines|
  {
    if lines == [] then [] else lines[0] + ends[0] + Unlines(lines[1..], ends[1..])
  }

  /** Every line ends with a line feed or with a carriage return and a line feed, the longer of them if both are there;
      only a last line that is not empty may end with the text. */
  predicate LineEnds(lines: seq<string>, ends: seq<string>) {
    && |ends| == |lines|
    && forall k :: 0 <= k < |lines| ==>
      && '\n' !in lines[k]
      && (ends[k] == "\r\n" || (ends[k] == "\n" && PlainLine(lines[k]))
          || (k == |lines| - 1 && ends[k] == "" && lines[k] != []))
  }

  lemma LineEndsCons(line: string, end: string, lines: seq<string>, ends: seq<string>)
    requires LineEnds(lines, ends) && '\n' !in line && (end == "\r\n" || (end == "\n" && PlainLine(line)))
    ensures LineEnds([line] + lines, [end] + ends)
    ensures Unlines([line] + lines, [end] + ends) == line + end + Unlines(lines, ends)
  {
    hide PlainLine;
    assert ([line] + lines)[1..] == lines && ([end] + ends)[1..] == ends;
  }

  /** The lines of a text are what stands between its line ends. */
  lemma LinesExact(s: string) returns (ends: seq<string>)
    ensures LineEnds(Lines(s), ends) && Unlines(Lines(s), ends) == s
  {
    ends := LinesFromExact(s, 0);
  }

  lemma {:induction false} LinesFromExact(s: string, i: nat) returns (ends: seq<string>)
    requires i <= |s| && '\n' !in s[..i]
    ensures LineEnds(LinesFrom(s, i), ends) && Unlines(LinesFrom(s, i), ends) == s
    decreases |s|, |s| - i
  {
    if s == [] {
      ends := [];
    } else if i == |s| {
      ends := [""];
      assert s[..i] == s;
    } else if s[i] == '\n' {
      var rest := LinesFromExact(s[i + 1..], 0);
      var line := DropReturn(s[..i]);
      var end := if line == s[..i] then "\n" else "\r\n";
      assert s == line + end + s[i + 1..];
      hide LineEnds, Unlines;
      LineEndsCons(line, end, LinesFrom(s[i + 1..], 0), rest);
      ends := [end] + rest;
    } else {
      assert s[..i + 1] == s[..i] + [s[i]];
      ends := LinesFromExact(s, i + 1);
    }
  }

  // ---- Ordered sets of strings ----

  /** The order of `String`. */
  predicate Less(a: string, b: string) {
    if b == [] then false
    else if a == [] then true
    else if a[0] != b[0] then a[0] < b[0]
    else Less(a[1..], b[1..])
  }

  /** A `BTreeSet<String>` as its elements in iteration order. */
  predicate Ascending(s: seq<string>) {
    forall i, j :: 0 <= i < j < |s| ==> Less(s[i], s[j])
  }

  function Insert(s: seq<string>, x: string): seq<string> {
    if s == [] then [x]
    else if Less(x, s[0]) then [x] + s
    else [s[0]] + Insert(s[1..], x)
  }

  lemma {:induction false} LessTotal(a: string, b: string)
    ensures Less(a, b) || a == b || Less(b, a)
  {
    if a != [] && b != [] && a[0] == b[0] {
      LessTotal(a[1..], b[1..]);
      assert a == [a[0]] + a[1..] && b == [b[0]] + b[1..];
    }
  }

  lemma {:induction false} LessTransitive(a: string, b: string, c: string)
    requires Less(a, b) && Less(b, c)
    ensures Less(a, c)
  {
    if a != [] && a[0] == b[0] && b[0] == c[0] {
      LessTransitive(a[1..], b[1..], c[1..]);
    }
  }

  lemma {:induction false} InsertElements(s: seq<string>, x: string)
    ensures forall y :: y in Insert(s, x) <==> y == x || y in s
  {
    if s != [] && !Less(x, s[0]) {
      InsertElements(s[1..], x);
      assert s == [s[0]] + s[1..];
    }
  }

  /** Inserting a new element keeps the set's iteration ordered. */
  lemma {:induction false} InsertKeepsAscending(s: seq<string>, x: string)
    requires Ascending(s) && x !in s
    ensures Ascending(Insert(s, x))
  {
    if s != [] {
      if Less(x, s[0]) {
        forall j | 0 <= j < |s| ensures Less(x, s[j]) {
          if j > 0 { LessTransitive(x, s[0], s[j]); }
        }
      } else {
        InsertKeepsAscending(s[1..], x);
        LessTotal(x, s[0]);
        InsertElements(s[1..], x);
        var rest := Insert(s[1..], x);
        forall j | 0 <= j < |rest| ensures Less(s[0], rest[j]) {
          assert rest[j] in rest;
          if rest[j] != x {
            var k :| 0 <= k < |s[1..]| && s[1..][k] == rest[j];
            assert Less(s[0], s[k + 1]);
          }
        }
      }
    }
  }

  lemma {:induction false} InsertLast(s: seq<string>, x: string)
    requires forall k :: 0 <= k < |s| ==> Less(s[k], x)
    ensures Insert(s, x) == s + [x] && x !in s
  {
    if s != [] {
      LessIrreflexive(x);
      if Less(x, s[0]) {
        LessTransitive(x, s[0], x);
      }
      InsertLast(s[1..], x);
      assert s == [s[0]] + s[1..];
    }
  }

  lemma {:induction false} LessIrreflexive(a: string)
    ensures !Less(a, a)
  {
    if a != [] {
      LessIrreflexive(a[1..]);
    }
  }
}
