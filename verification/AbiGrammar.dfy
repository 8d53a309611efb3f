/** Exactly which texts the ABI snapshot parser accepts (`src/bin/abi_check.rs`). */
module AbiGrammar {
  import opened Wrappers
  import opened AbiText
  import opened AbiSnapshots

  // ---- Symbols ----

  const CAPITALS: seq<char> := "ABCDEFGHIJKLMNOPQRSTUVWXYZ"
  const SMALLS: seq<char> := "abcdefghijklmnopqrstuvwxyz"
  const DIGITS: seq<char> := "0123456789"

  lemma CapitalLetters(c: char)
    ensures 'A' <= c <= 'Z' <==> c in CAPITALS
  {
  }

  lemma SmallLetters(c: char)
    ensures 'a' <= c <= 'z' <==> c in SMALLS
  {
  }

  lemma DigitCharacters(c: char)
    ensures '0' <= c <= '9' <==> c in DIGITS
  {
  }

  /** What a C identifier is made of. */
  predicate IdentifierChar(c: char) {
    c in CAPITALS || c in SMALLS || c in DIGITS || c == '_'
  }

  /** A symbol is a C identifier: letters, digits and underscores, no digit first. */
  lemma ValidSymbolExact(symbol: string)
    ensures IsValidSymbol(symbol)
       <==> symbol != [] && symbol[0] !in DIGITS && forall c :: c in symbol ==> IdentifierChar(c)
  {
    hide CAPITALS, SMALLS, DIGITS;
    forall c: char
      ensures (IsSymbolChar(c) <==> IdentifierChar(c)) && ('0' <= c <= '9' <==> c in DIGITS)
    {
      CapitalLetters(c);
      SmallLetters(c);
      DigitCharacters(c);
    }
    hide IdentifierChar;
  }

  // ---- The symbol block ----

  /** The first `k` lines are new symbols, all different, and the lines after them are empty. */
  predicate SymbolBlock(lines: seq<string>, k: nat, seen: seq<string>) {
    && k <= |lines| && AllEmpty(lines[k..])
    && (forall i :: 0 <= i < k ==> IsValidSymbol(lines[i]) && lines[i] !in seen)
    && (forall i, j :: 0 <= i < j < k ==> lines[i] != lines[j])
  }

  predicate SameHeader(st: ParserState, s: AbiSnapshot) {
    st.class_ == Some(s.class_) && st.machine == Some(s.machine)
  }

  lemma EmptyIsBlank(lines: seq<string>)
    requires AllEmpty(lines)
    ensures AllBlank(lines)
  {
  }

  /** A block line is accepted exactly when it is a new symbol. */
  lemma SymbolLineExact(st: ParserState, raw: string)
    requires st.inSymbols && Trim(raw) != []
    ensures LineStep(st, raw).Success? <==> IsValidSymbol(raw) && raw !in st.symbols
    ensures LineStep(st, raw).Success? ==> LineStep(st, raw).value == st.(symbols := Insert(st.symbols, raw))
  {
    if IsValidSymbol(raw) && raw !in st.symbols { SymbolLineStep(st, raw); }
    hide Trim, IsValidSymbol, HasNoWhitespace, Insert;
  }

  lemma BlockGrows(lines: seq<string>, k: nat, seen: seq<string>, seen': seq<string>)
    requires lines != [] && IsValidSymbol(lines[0]) && lines[0] !in seen
    requires forall y :: y in seen' <==> y == lines[0] || y in seen
    ensures SymbolBlock(lines[1..], k, seen') <==> SymbolBlock(lines, k + 1, seen)
  {
    var rest := lines[1..];
    hide IsValidSymbol;
    assert k <= |rest| ==> rest[k..] == lines[k + 1..];
    if SymbolBlock(rest, k, seen') {
      assert forall i :: 0 < i < k + 1 ==> lines[i] == rest[i - 1];
    }
    if SymbolBlock(lines, k + 1, seen) {
      assert forall i :: 0 <= i < k ==> rest[i] == lines[i + 1];
    }
  }

  /** What the block leaves in the set. */
  ghost predicate Collected(symbols: seq<string>, lines: seq<string>, k: nat, seen: seq<string>) {
    k <= |lines| && forall y :: y in symbols <==> y in seen || y in lines[..k]
  }

  lemma CollectedGrows(symbols: seq<string>, lines: seq<string>, k: nat, seen: seq<string>, seen': seq<string>)
    requires lines != [] && (forall y :: y in seen' <==> y == lines[0] || y in seen)
    requires Collected(symbols, lines[1..], k, seen')
    ensures Collected(symbols, lines, k + 1, seen)
  {
    assert lines[..k + 1] == [lines[0]] + lines[1..][..k];
  }

  lemma BlockEnds(st: ParserState, lines: seq<string>)
    requires st.inSymbols && (lines == [] || Trim(lines[0]) == [])
    ensures ParseBody(st, lines).Success? ==> ParseBody(st, lines) == Finish(st) && AllEmpty(lines)
    ensures AllEmpty(lines) ==> ParseBody(st, lines) == Finish(st)
  {
    hide Trim, Finish;
    if AllEmpty(lines) && lines != [] {
      EmptyIsBlank(lines);
      EmptyIsBlank(lines[1..]);
    }
    if lines != [] && lines[0] == [] && AllEmpty(lines[1..]) {
      assert forall k :: 1 <= k < |lines| ==> lines[k] == lines[1..][k - 1];
    }
  }

  lemma FinishedSymbols(st: ParserState)
    requires st.inSymbols && Finish(st).Success?
    ensures SameHeader(st, Finish(st).value) && Finish(st).value.symbols == st.symbols && st.symbols != []
  {
  }

  /** An accepted rest of the block is a block. */
  lemma {:induction false} AcceptedBlock(st: ParserState, lines: seq<string>) returns (k: nat)
    requires st.inSymbols && ParseBody(st, lines).Success?
    ensures SymbolBlock(lines, k, st.symbols) && SameHeader(st, ParseBody(st, lines).value)
    ensures Collected(ParseBody(st, lines).value.symbols, lines, k, st.symbols)
    ensures ParseBody(st, lines).value.symbols != []
    decreases |lines|
  {
    hide Trim, LineStep, Finish, IsValidSymbol;
    if lines == [] || Trim(lines[0]) == [] {
      BlockEnds(st, lines);
      FinishedSymbols(st);
      hide ParseBody;
      k := 0;
    } else {
      SymbolLineExact(st, lines[0]);
      InsertElements(st.symbols, lines[0]);
      var st' := LineStep(st, lines[0]).value;
      var j := AcceptedBlock(st', lines[1..]);
      BlockGrows(lines, j, st.symbols, st'.symbols);
      CollectedGrows(ParseBody(st', lines[1..]).value.symbols, lines, j, st.symbols, st'.symbols);
      k := j + 1;
    }
  }

  lemma BlockHead(lines: seq<string>, k: nat, seen: seq<string>)
    requires SymbolBlock(lines, k, seen)
    ensures k == 0 ==> AllEmpty(lines)
    ensures 0 < k ==> lines != [] && IsValidSymbol(lines[0]) && lines[0] !in seen && Trim(lines[0]) != []
  {
    if 0 < k { ValidSymbolChars(lines[0]); }
    hide IsValidSymbol, Trim;
  }

  /** A block is accepted. */
  lemma {:induction false} BlockAccepted(st: ParserState, lines: seq<string>, k: nat)
    requires st.inSymbols && st.class_.Some? && st.machine.Some?
    requires SymbolBlock(lines, k, st.symbols) && (k == 0 ==> st.symbols != [])
    ensures ParseBody(st, lines).Success?
    decreases k
  {
    hide Trim, LineStep, IsValidSymbol, SymbolBlock;
    BlockHead(lines, k, st.symbols);
    if k == 0 {
      if lines != [] { TrimNothing(); }
      BlockEnds(st, lines);
    } else {
      SymbolLineExact(st, lines[0]);
      InsertElements(st.symbols, lines[0]);
      var st' := LineStep(st, lines[0]).value;
      assert lines[0] in st'.symbols;
      BlockGrows(lines, k - 1, st.symbols, st'.symbols);
      BlockAccepted(st', lines[1..], k - 1);
    }
  }

  lemma TrimNothing()
    ensures Trim([]) == []
  {
  }

  // ---- The header ----

  /** Whether a header still lacks a field. */
  function Missing(known: Option<string>): nat {
    if known.None? then 1 else 0
  }

  /** Blank lines and each missing field exactly once, in any order. */
  predicate HeaderLines(lines: seq<string>, class_: Option<string>, machine: Option<string>, c: string, m: string) {
    && (class_.Some? ==> class_.value == c) && (machine.Some? ==> machine.value == m)
    && multiset(lines)[CLASS_FIELD + c] == Missing(class_) && multiset(lines)[MACHINE_FIELD + m] == Missing(machine)
    && forall k :: 0 <= k < |lines| ==> HeaderLine(lines[k], c, m)
  }

  predicate HeaderLine(line: string, c: string, m: string) {
    Trim(line) == [] || line == CLASS_FIELD + c || line == MACHINE_FIELD + m
  }

  lemma {:induction false} TrimEndKeepsFirst(s: string)
    requires s != [] && !IsWhitespace(s[0])
    ensures TrimEnd(s) != [] && TrimEnd(s)[0] == s[0] && TrimEnd(s) <= s
  {
    hide IsWhitespace;
    if IsWhitespace(s[|s| - 1]) {
      TrimEndKeepsFirst(s[..|s| - 1]);
    }
  }

  /** Trimming a line that does not start with white space only cuts its end. */
  lemma TrimKeepsStart(raw: string)
    requires raw != [] && !IsWhitespace(raw[0])
    ensures Trim(raw) != [] && Trim(raw)[0] == raw[0] && Trim(raw) <= raw
  {
    TrimEndKeepsFirst(raw);
    hide IsWhitespace, TrimEnd;
  }

  lemma FieldLines(c: string, m: string)
    ensures Trim(CLASS_FIELD + c) != [] && Trim(MACHINE_FIELD + m) != [] && Trim(SYMBOLS_LINE) != []
    ensures CLASS_FIELD + c != MACHINE_FIELD + m
    ensures CLASS_FIELD + c != SYMBOLS_LINE && MACHINE_FIELD + m != SYMBOLS_LINE
  {
    var l1, l2 := CLASS_FIELD + c, MACHINE_FIELD + m;
    assert l1[0] == 'E' && l2[0] == 'E' && l1[4] == 'C' && l2[4] == 'M' && SYMBOLS_LINE[0] == 'S';
    TrimKeepsStart(l1);
    TrimKeepsStart(l2);
    TrimKeepsStart(SYMBOLS_LINE);
    hide Trim;
  }

  lemma AcceptedClassLine(st: ParserState, raw: string)
    requires HasPrefix(Trim(raw), CLASS_FIELD) && ClassStep(st, raw, Trim(raw)).Success?
    ensures var st' := ClassStep(st, raw, Trim(raw)).value;
      && st.class_.None? && st'.class_.Some? && st' == st.(class_ := st'.class_)
      && raw == CLASS_FIELD + st'.class_.value
  {
    hide Trim, IsWhitespace, HasNoWhitespace, FieldValue;
    if raw == [] { TrimNothing(); }
    TrimKeepsStart(raw);
    FieldStandsInLine(raw, CLASS_FIELD);
    TrimIsTrimmed(FieldValue(raw, Trim(raw), CLASS_FIELD));
  }

  lemma AcceptedMachineLine(st: ParserState, raw: string)
    requires HasPrefix(Trim(raw), MACHINE_FIELD) && MachineStep(st, raw, Trim(raw)).Success?
    ensures var st' := MachineStep(st, raw, Trim(raw)).value;
      && st.machine.None? && st'.machine.Some? && st' == st.(machine := st'.machine)
      && raw == MACHINE_FIELD + st'.machine.value
  {
    hide Trim, IsWhitespace, OnlySpaces, FieldValue;
    if raw == [] { TrimNothing(); }
    TrimKeepsStart(raw);
    FieldStandsInLine(raw, MACHINE_FIELD);
    TrimIsTrimmed(FieldValue(raw, Trim(raw), MACHINE_FIELD));
  }

  lemma FieldStandsInLine(raw: string, field: string)
    requires HasPrefix(Trim(raw), field) && Trim(raw) <= raw
    ensures raw == field + FieldValue(raw, Trim(raw), field)
  {
    hide Trim;
  }

  /** A line before the block is blank, opens the block or gives a missing field. */
  lemma AcceptedHeaderLine(st: ParserState, raw: string)
    requires !st.inSymbols && LineStep(st, raw).Success?
    ensures var st' := LineStep(st, raw).value;
      || (Trim(raw) == [] && st' == st)
      || (raw == SYMBOLS_LINE && st' == st.(inSymbols := true))
      || (st.class_.None? && st'.class_.Some? && st' == st.(class_ := st'.class_)
          && raw == CLASS_FIELD + st'.class_.value)
      || (st.machine.None? && st'.machine.Some? && st' == st.(machine := st'.machine)
          && raw == MACHINE_FIELD + st'.machine.value)
  {
    var line := Trim(raw);
    hide Trim, ClassStep, MachineStep;
    if line != [] && line != SYMBOLS_LINE {
      if HasPrefix(line, CLASS_FIELD) {
        AcceptedClassLine(st, raw);
      } else if HasPrefix(line, MACHINE_FIELD) {
        AcceptedMachineLine(st, raw);
      }
    }
  }

  lemma HeaderGrows(line: string, rest: seq<string>, class_: Option<string>, machine: Option<string>, c: string,
                    m: string)
    requires HeaderLine(line, c, m)
    requires line == CLASS_FIELD + c ==> class_.None?
    requires line == MACHINE_FIELD + m ==> machine.None?
    ensures var class' := if line == CLASS_FIELD + c then Some(c) else class_;
      var machine' := if line == MACHINE_FIELD + m then Some(m) else machine;
      HeaderLines([line] + rest, class_, machine, c, m) <==> HeaderLines(rest, class', machine', c, m)
  {
    hide HeaderLine, CLASS_FIELD, MACHINE_FIELD;
    var lines := [line] + rest;
    assert multiset(lines) == multiset{line} + multiset(rest);
    assert lines[0] == line && lines[1..] == rest;
    assert forall k :: 0 <= k < |rest| ==> rest[k] == lines[k + 1];
  }

  /** An accepted rest of the header ends at the block, with every field given. */
  lemma {:induction false} AcceptedHeader(st: ParserState, lines: seq<string>) returns (n: nat, k: nat)
    requires !st.inSymbols && st.symbols == [] && ParseBody(st, lines).Success?
    ensures var s := ParseBody(st, lines).value;
      && n < |lines| && lines[n] == SYMBOLS_LINE && HeaderLines(lines[..n], st.class_, st.machine, s.class_, s.machine)
      && SymbolBlock(lines[n + 1..], k, []) && Collected(s.symbols, lines[n + 1..], k, []) && 0 < k
    decreases |lines|
  {
    hide Trim, LineStep, HeaderLines, SymbolBlock, Collected;
    var raw := lines[0];
    var st' := LineStep(st, raw).value;
    var s := ParseBody(st', lines[1..]).value;
    AcceptedHeaderLine(st, raw);
    FieldLines(s.class_, s.machine);
    if raw == SYMBOLS_LINE {
      n := 0;
      k := AcceptedBlock(st', lines[1..]);
      NoHeaderLeft(st.class_, st.machine, s);
      BlockNotEmpty(s.symbols, lines[1..], k);
      assert lines[..0] == [];
    } else {
      var j: nat;
      j, k := AcceptedHeader(st', lines[1..]);
      hide ParseBody;
      n := j + 1;
      assert lines[..n] == [raw] + lines[1..][..j];
      assert lines[n + 1..] == lines[1..][j + 1..];
      HeaderStarts(lines[1..][..j], st'.class_, st'.machine, s.class_, s.machine);
      HeaderGrows(raw, lines[1..][..j], st.class_, st.machine, s.class_, s.machine);
    }
  }

  lemma HeaderStarts(lines: seq<string>, class_: Option<string>, machine: Option<string>, c: string, m: string)
    requires HeaderLines(lines, class_, machine, c, m)
    ensures (class_.Some? ==> class_.value == c) && (machine.Some? ==> machine.value == m)
  {
  }

  lemma NoHeaderLeft(class_: Option<string>, machine: Option<string>, s: AbiSnapshot)
    requires class_ == Some(s.class_) && machine == Some(s.machine)
    ensures HeaderLines([], class_, machine, s.class_, s.machine)
  {
  }

  lemma BlockNotEmpty(symbols: seq<string>, lines: seq<string>, k: nat)
    requires Collected(symbols, lines, k, []) && symbols != []
    ensures 0 < k
  {
    assert symbols[0] in symbols;
  }

  lemma HeaderHead(lines: seq<string>, class_: Option<string>, machine: Option<string>, c: string, m: string)
    requires HeaderLines(lines, class_, machine, c, m)
    ensures lines == [] ==> class_ == Some(c) && machine == Some(m)
    ensures lines != [] ==> HeaderLine(lines[0], c, m)
    ensures lines != [] && lines[0] == CLASS_FIELD + c ==> class_.None?
    ensures lines != [] && lines[0] == MACHINE_FIELD + m ==> machine.None?
  {
    if lines != [] { assert lines[0] in multiset(lines); }
    hide HeaderLine;
  }

  lemma HeaderLineStep(st: ParserState, line: string, c: string, m: string)
    requires !st.inSymbols && HeaderLine(line, c, m) && ClassOk(c) && MachineOk(m)
    requires (line == CLASS_FIELD + c ==> st.class_.None?) && (line == MACHINE_FIELD + m ==> st.machine.None?)
    ensures var class' := if line == CLASS_FIELD + c then Some(c) else st.class_;
      var machine' := if line == MACHINE_FIELD + m then Some(m) else st.machine;
      LineStep(st, line) == Success(st.(class_ := class', machine := machine'))
  {
    FieldLines(c, m);
    if line == CLASS_FIELD + c {
      ClassLineStep(st, c);
    } else if line == MACHINE_FIELD + m {
      MachineLineStep(st, m);
    }
    hide Trim, ClassStep, MachineStep, SymbolStep, ClassOk, MachineOk;
  }

  /** A header that gives every missing field once, and a block after it, are accepted. */
  lemma {:induction false} HeaderAccepted(st: ParserState, lines: seq<string>, n: nat, k: nat, c: string, m: string)
    requires !st.inSymbols && st.symbols == [] && ClassOk(c) && MachineOk(m)
    requires n < |lines| && lines[n] == SYMBOLS_LINE && HeaderLines(lines[..n], st.class_, st.machine, c, m)
    requires SymbolBlock(lines[n + 1..], k, []) && 0 < k
    ensures ParseBody(st, lines).Success?
    decreases n
  {
    hide Trim, LineStep, HeaderLines, HeaderLine, SymbolBlock, ClassOk, MachineOk;
    HeaderHead(lines[..n], st.class_, st.machine, c, m);
    if n == 0 {
      SymbolsLineStep(st);
      BlockAccepted(st.(inSymbols := true), lines[1..], k);
    } else {
      assert lines[..n] == [lines[0]] + lines[1..][..n - 1];
      assert lines[n + 1..] == lines[1..][n..];
      HeaderLineStep(st, lines[0], c, m);
      HeaderGrows(lines[0], lines[1..][..n - 1], st.class_, st.machine, c, m);
      HeaderAccepted(LineStep(st, lines[0]).value, lines[1..], n - 1, k, c, m);
    }
  }

  // ---- The whole text ----

  /** The shape of a snapshot: the title, a header of blank lines and each field once, the block line at `n`, then `k`
      different symbols, at least one, and nothing but empty lines. */
  predicate SnapshotShape(lines: seq<string>, n: nat, k: nat, c: string, m: string) {
    && n + 1 < |lines| && lines[0] == SNAPSHOT_MAGIC && ClassOk(c) && MachineOk(m)
    && HeaderLines(lines[1..][..n], None, None, c, m) && lines[1..][n] == SYMBOLS_LINE
    && SymbolBlock(lines[1..][n + 1..], k, []) && 0 < k
  }

  ghost predicate HasSnapshotShape(lines: seq<string>) {
    exists n, k, c, m :: SnapshotShape(lines, n, k, c, m)
  }

  /** The `k` lines after the block line hold these symbols. */
  ghost predicate BlockHolds(lines: seq<string>, n: nat, k: nat, symbols: seq<string>) {
    n + k + 1 < |lines| && forall y :: y in symbols <==> y in lines[n + 2..n + 2 + k]
  }

  lemma BlockLines(lines: seq<string>, n: nat, k: nat, symbols: seq<string>)
    requires n + 1 < |lines| && Collected(symbols, lines[1..][n + 1..], k, [])
    ensures BlockHolds(lines, n, k, symbols)
  {
    assert lines[1..][n + 1..][..k] == lines[n + 2..n + 2 + k];
  }

  lemma AcceptedShape(contents: string) returns (n: nat, k: nat)
    requires Parsed(contents).Success?
    ensures var s := Parsed(contents).value;
      && SnapshotShape(Lines(contents), n, k, s.class_, s.machine)
      && BlockHolds(Lines(contents), n, k, s.symbols)
  {
    AcceptedIsWellFormed(contents);
    hide Trim, Lines, HeaderLines, SymbolBlock, SymbolsOk, ParseBody, Collected, BlockHolds;
    n, k := AcceptedHeader(START, Lines(contents)[1..]);
    BlockLines(Lines(contents), n, k, Parsed(contents).value.symbols);
  }

  /** A text is accepted exactly when its lines have that shape, and the snapshot is then what the shape says: its
      class and machine, and its symbols in ascending order. */
  lemma AcceptedIffShape(contents: string)
    ensures Parsed(contents).Success? <==> HasSnapshotShape(Lines(contents))
    ensures Parsed(contents).Success? ==>
      var s := Parsed(contents).value;
      && Ascending(s.symbols)
      && exists n: nat, k: nat ::
           SnapshotShape(Lines(contents), n, k, s.class_, s.machine) && BlockHolds(Lines(contents), n, k, s.symbols)
  {
    hide Lines, SnapshotShape, BlockHolds;
    if Parsed(contents).Success? {
      AcceptedIsWellFormed(contents);
      var n, k := AcceptedShape(contents);
    }
    if HasSnapshotShape(Lines(contents)) {
      var n, k, c, m :| SnapshotShape(Lines(contents), n, k, c, m);
      ShapeAccepted(contents, n, k, c, m);
    }
  }

  lemma ShapeAccepted(contents: string, n: nat, k: nat, c: string, m: string)
    requires SnapshotShape(Lines(contents), n, k, c, m)
    ensures Parsed(contents).Success?
  {
    hide Trim, Lines, HeaderLines, SymbolBlock, ClassOk, MachineOk, ParseBody;
    HeaderAccepted(START, Lines(contents)[1..], n, k, c, m);
  }
}
