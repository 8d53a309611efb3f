/** The golden ABI snapshot: its text form and its parser (`src/bin/abi_check.rs`). */
module AbiSnapshots {
  import opened Wrappers
  import opened AbiText

  const SNAPSHOT_MAGIC := "ABI_SNAPSHOT_V1"
  const CLASS_FIELD := "ELF_CLASS="
  const MACHINE_FIELD := "ELF_MACHINE="
  const SYMBOLS_LINE := "SYMBOLS:"

  /** The symbol set is held in its iteration order. */
  datatype AbiSnapshot = AbiSnapshot(class_: string, machine: string, symbols: seq<string>)

  datatype SnapshotError =
    | EmptySnapshot
    | MagicWithWhitespace
    | MissingMagic
    | TrailingWhitespaceLine
    | EmptyLineInSymbols
    | DuplicateSymbolsBlock
    | SymbolsLineWithWhitespace
    | MetadataInSymbols(line: string)
    | SymbolWithSurroundingWhitespace(line: string)
    | SymbolWithWhitespace(line: string)
    | InvalidSymbol(line: string)
    | DuplicateSymbol(line: string)
    | DuplicateClass
    | ClassLineWithLeadingWhitespace
    | EmptyClass
    | ClassWithLeadingWhitespace
    | ClassWithTrailingWhitespace
    | ClassWithWhitespace
    | DuplicateMachine
    | MachineLineWithLeadingWhitespace
    | EmptyMachine
    | MachineWithLeadingWhitespace
    | MachineWithTrailingWhitespace
    | MachineWithNonSpaceWhitespace
    | MalformedClass(line: string)
    | MalformedMachine(line: string)
    | UnexpectedLine(line: string)
    | MissingSymbolsBlock
    | EmptySymbolsBlock
    | MissingClass
    | MissingMachine

  // ---- Well-formed snapshots ----

  predicate IsAsciiAlphabetic(c: char) {
    'a' <= c <= 'z' || 'A' <= c <= 'Z'
  }

  predicate IsSymbolChar(c: char) {
    IsAsciiAlphabetic(c) || '0' <= c <= '9' || c == '_'
  }

  /** `is_valid_snapshot_symbol` */
  predicate IsValidSymbol(symbol: string) {
    && symbol != [] && (IsAsciiAlphabetic(symbol[0]) || symbol[0] == '_')
    && forall k :: 1 <= k < |symbol| ==> IsSymbolChar(symbol[k])
  }

  predicate HasNoWhitespace(s: string) {
    forall k :: 0 <= k < |s| ==> !IsWhitespace(s[k])
  }

  predicate OnlySpaces(s: string) {
    forall k :: 0 <= k < |s| ==> IsWhitespace(s[k]) ==> s[k] == ' '
  }

  predicate ClassOk(s: string) {
    s != [] && HasNoWhitespace(s)
  }

  predicate MachineOk(s: string) {
    s != [] && Trimmed(s) && OnlySpaces(s)
  }

  predicate SymbolsOk(symbols: seq<string>) {
    Ascending(symbols) && forall k :: 0 <= k < |symbols| ==> IsValidSymbol(symbols[k])
  }

  predicate WellFormedSnapshot(s: AbiSnapshot) {
    ClassOk(s.class_) && MachineOk(s.machine) && SymbolsOk(s.symbols) && s.symbols != []
  }

  // ---- Formatting ----

  function SnapshotLines(s: AbiSnapshot): seq<string> {
    [SNAPSHOT_MAGIC, CLASS_FIELD + s.class_, MACHINE_FIELD + s.machine, SYMBOLS_LINE] + s.symbols
  }

  function SnapshotText(s: AbiSnapshot): string {
    JoinLines(SnapshotLines(s))
  }

  /** `format_snapshot` */
  method FormatSnapshot(s: AbiSnapshot) returns (formatted: string)
    ensures formatted == SnapshotText(s)
  {
    hide JoinLines;
    ghost var all := SnapshotLines(s);
    JoinNothing();
    formatted := "";
    assert [] + [SNAPSHOT_MAGIC] == all[..1] && all[..1] + [CLASS_FIELD + s.class_] == all[..2];
    assert all[..2] + [MACHINE_FIELD + s.machine] == all[..3] && all[..3] + [SYMBOLS_LINE] == all[..4];
    formatted := WriteLine(formatted, SNAPSHOT_MAGIC, []);
    formatted := WriteLine(formatted, CLASS_FIELD + s.class_, all[..1]);
    formatted := WriteLine(formatted, MACHINE_FIELD + s.machine, all[..2]);
    formatted := WriteLine(formatted, SYMBOLS_LINE, all[..3]);
    var i := 0;
    while i < |s.symbols|
      invariant 0 <= i <= |s.symbols|
      invariant formatted == JoinLines(all[..4 + i])
    {
      assert all[..4 + i] + [s.symbols[i]] == all[..4 + (i + 1)];
      formatted := WriteLine(formatted, s.symbols[i], all[..4 + i]);
      i := i + 1;
    }
    assert all[..4 + i] == all;
  }

  /** One line and its line feed, after the lines written so far. */
  method WriteLine(text: string, line: string, ghost written: seq<string>) returns (r: string)
    requires text == JoinLines(written)
    ensures r == JoinLines(written + [line])
  {
    JoinSnoc(written, line);
    r := text + line + "\n";
  }

  lemma JoinNothing()
    ensures JoinLines([]) == ""
  {
  }

  lemma {:induction false} JoinSnoc(lines: seq<string>, line: string)
    ensures JoinLines(lines + [line]) == JoinLines(lines) + line + "\n"
  {
    if lines != [] {
      JoinSnoc(lines[1..], line);
      assert (lines + [line])[1..] == lines[1..] + [line];
    }
  }

  // ---- Parsing ----

  /** What the parser has collected so far. */
  datatype ParserState = ParserState(
    class_: Option<string>, machine: Option<string>, symbols: seq<string>, inSymbols: bool)

  predicate HasPrefix(s: string, prefix: string) {
    prefix <= s
  }

  /** A line of the symbol block. */
  function SymbolStep(st: ParserState, raw: string, line: string): Result<ParserState, SnapshotError> {
    if HasPrefix(line, CLASS_FIELD) || HasPrefix(line, MACHINE_FIELD) then Failure(MetadataInSymbols(line))
    else if raw != line then Failure(SymbolWithSurroundingWhitespace(raw))
    else if !HasNoWhitespace(line) then Failure(SymbolWithWhitespace(line))
    else if !IsValidSymbol(line) then Failure(InvalidSymbol(line))
    else if line in st.symbols then Failure(DuplicateSymbol(line))
    else Success(st.(symbols := Insert(st.symbols, line)))
  }

  /** The text after the field name, as it stands in the raw line. */
  function FieldValue(raw: string, line: string, field: string): string
    requires HasPrefix(line, field)
  {
    if HasPrefix(raw, field) then raw[|field|..] else line[|field|..]
  }

  function ClassStep(st: ParserState, raw: string, line: string): Result<ParserState, SnapshotError>
    requires HasPrefix(line, CLASS_FIELD)
  {
    var rawValue := FieldValue(raw, line, CLASS_FIELD);
    var value := Trim(rawValue);
    if st.class_.Some? then Failure(DuplicateClass)
    else if raw != [] && IsWhitespace(raw[0]) then Failure(ClassLineWithLeadingWhitespace)
    else if value == [] then Failure(EmptyClass)
    else if rawValue != [] && IsWhitespace(rawValue[0]) then Failure(ClassWithLeadingWhitespace)
    else if rawValue != [] && IsWhitespace(rawValue[|rawValue| - 1]) then Failure(ClassWithTrailingWhitespace)
    else if !HasNoWhitespace(value) then Failure(ClassWithWhitespace)
    else Success(st.(class_ := Some(value)))
  }

  function MachineStep(st: ParserState, raw: string, line: string): Result<ParserState, SnapshotError>
    requires HasPrefix(line, MACHINE_FIELD)
  {
    var rawValue := FieldValue(raw, line, MACHINE_FIELD);
    var value := Trim(rawValue);
    if st.machine.Some? then Failure(DuplicateMachine)
    else if raw != [] && IsWhitespace(raw[0]) then Failure(MachineLineWithLeadingWhitespace)
    else if value == [] then Failure(EmptyMachine)
    else if rawValue != [] && IsWhitespace(rawValue[0]) then Failure(MachineWithLeadingWhitespace)
    else if rawValue != [] && IsWhitespace(rawValue[|rawValue| - 1]) then Failure(MachineWithTrailingWhitespace)
    else if !OnlySpaces(value) then Failure(MachineWithNonSpaceWhitespace)
    else Success(st.(machine := Some(value)))
  }

  /** One line that is not an empty line of the symbol block. */
  function LineStep(st: ParserState, raw: string): Result<ParserState, SnapshotError> {
    var line := Trim(raw);
    if line == [] then Success(st)
    else if line == SYMBOLS_LINE then
      if st.inSymbols then Failure(DuplicateSymbolsBlock)
      else if raw != line then Failure(SymbolsLineWithWhitespace)
      else Success(st.(inSymbols := true))
    else if st.inSymbols then SymbolStep(st, raw, line)
    else if HasPrefix(line, CLASS_FIELD) then ClassStep(st, raw, line)
    else if HasPrefix(line, MACHINE_FIELD) then MachineStep(st, raw, line)
    else if HasPrefix(line, "ELF_CLASS") then Failure(MalformedClass(line))
    else if HasPrefix(line, "ELF_MACHINE") then Failure(MalformedMachine(line))
    else Failure(UnexpectedLine(line))
  }

  predicate AllBlank(lines: seq<string>) {
    forall k :: 0 <= k < |lines| ==> Trim(lines[k]) == []
  }

  predicate AllEmpty(lines: seq<string>) {
    forall k :: 0 <= k < |lines| ==> lines[k] == []
  }

  function Finish(st: ParserState): Result<AbiSnapshot, SnapshotError> {
    if !st.inSymbols then Failure(MissingSymbolsBlock)
    else if st.symbols == [] then Failure(EmptySymbolsBlock)
    else if st.class_.None? then Failure(MissingClass)
    else if st.machine.None? then Failure(MissingMachine)
    else Success(AbiSnapshot(st.class_.value, st.machine.value, st.symbols))
  }

  /** The lines after the magic header. */
  function ParseBody(st: ParserState, lines: seq<string>): Result<AbiSnapshot, SnapshotError>
    decreases |lines|
  {
    if lines == [] then Finish(st)
    else if st.inSymbols && Trim(lines[0]) == [] then
      if AllBlank(lines[1..]) then
        if lines[0] == [] && AllEmpty(lines[1..]) then Finish(st) else Failure(TrailingWhitespaceLine)
      else Failure(EmptyLineInSymbols)
    else
      match LineStep(st, lines[0])
      case Failure(e) => Failure(e)
      case Success(st') => ParseBody(st', lines[1..])
  }

  const START := ParserState(None, None, [], false)

  function Parsed(contents: string): Result<AbiSnapshot, SnapshotError> {
    var lines := Lines(contents);
    if lines == [] then Failure(EmptySnapshot)
    else if Trim(lines[0]) == SNAPSHOT_MAGIC && lines[0] != SNAPSHOT_MAGIC then Failure(MagicWithWhitespace)
    else if lines[0] != SNAPSHOT_MAGIC then Failure(MissingMagic)
    else ParseBody(START, lines[1..])
  }

  /** `parse_snapshot` */
  method ParseSnapshot(contents: string) returns (r: Result<AbiSnapshot, SnapshotError>)
    ensures r == Parsed(contents)
  {
    hide LineStep, Finish, Trim, Lines;
    var lines := Lines(contents);
    if |lines| == 0 {
      return Failure(EmptySnapshot);
    }
    if Trim(lines[0]) == SNAPSHOT_MAGIC && lines[0] != SNAPSHOT_MAGIC {
      return Failure(MagicWithWhitespace);
    }
    if lines[0] != SNAPSHOT_MAGIC {
      return Failure(MissingMagic);
    }
    var st := START;
    var i := 1;
    while i < |lines|
      invariant 1 <= i <= |lines|
      invariant ParseBody(st, lines[i..]) == Parsed(contents)
    {
      var rawLine, rest := lines[i], lines[i + 1..];
      assert lines[i..][1..] == rest;
      if st.inSymbols && Trim(rawLine) == [] {
        if AllBlank(rest) && rawLine == [] && AllEmpty(rest) {
          break;
        }
        return Failure(if AllBlank(rest) then TrailingWhitespaceLine else EmptyLineInSymbols);
      }
      var next := LineStep(st, rawLine);
      if next.Failure? {
        return Failure(next.error);
      }
      st := next.value;
      i := i + 1;
    }
    r := Finish(st);
  }

  // ---- Every accepted text is a well-formed snapshot ----

  predicate StateOk(st: ParserState) {
    && (st.class_.Some? ==> ClassOk(st.class_.value))
    && (st.machine.Some? ==> MachineOk(st.machine.value))
    && SymbolsOk(st.symbols)
  }

  lemma InsertKeepsSymbols(symbols: seq<string>, x: string)
    requires SymbolsOk(symbols) && IsValidSymbol(x) && x !in symbols
    ensures SymbolsOk(Insert(symbols, x))
  {
    InsertKeepsAscending(symbols, x);
    InsertElements(symbols, x);
    var r := Insert(symbols, x);
    hide Insert, Ascending, IsValidSymbol;
    forall k | 0 <= k < |r| ensures IsValidSymbol(r[k]) {
      assert r[k] in r;
    }
  }

  lemma StepKeepsState(st: ParserState, raw: string)
    requires StateOk(st) && LineStep(st, raw).Success?
    ensures StateOk(LineStep(st, raw).value)
  {
    hide IsValidSymbol, IsWhitespace, Insert, SymbolsOk;
    var line := Trim(raw);
    if st.inSymbols && LineStep(st, raw).value.symbols != st.symbols {
      InsertKeepsSymbols(st.symbols, line);
    } else if HasPrefix(line, CLASS_FIELD) {
      TrimIsTrimmed(FieldValue(raw, line, CLASS_FIELD));
    } else if HasPrefix(line, MACHINE_FIELD) {
      TrimIsTrimmed(FieldValue(raw, line, MACHINE_FIELD));
    }
  }

  lemma {:induction false} BodyAcceptsWellFormed(st: ParserState, lines: seq<string>)
    requires StateOk(st) && ParseBody(st, lines).Success?
    ensures WellFormedSnapshot(ParseBody(st, lines).value)
    decreases |lines|
  {
    hide LineStep, SymbolsOk;
    if lines != [] && LineStep(st, lines[0]).Success? && !(st.inSymbols && Trim(lines[0]) == []) {
      StepKeepsState(st, lines[0]);
      BodyAcceptsWellFormed(LineStep(st, lines[0]).value, lines[1..]);
    }
  }

  lemma AcceptedIsWellFormed(contents: string)
    requires Parsed(contents).Success?
    ensures WellFormedSnapshot(Parsed(contents).value)
  {
    BodyAcceptsWellFormed(START, Lines(contents)[1..]);
  }

  // ---- Every well-formed snapshot survives the round trip ----

  lemma ValidSymbolChars(symbol: string)
    requires IsValidSymbol(symbol)
    ensures HasNoWhitespace(symbol) && PlainLine(symbol) && Trim(symbol) == symbol
    ensures ':' !in symbol && '=' !in symbol
  {
    assert forall k :: 0 <= k < |symbol| ==> IsSymbolChar(symbol[k]);
    TrimIsTrimmed(symbol);
  }

  lemma SymbolLineStep(st: ParserState, symbol: string)
    requires st.inSymbols && IsValidSymbol(symbol) && symbol !in st.symbols
    ensures LineStep(st, symbol) == Success(st.(symbols := Insert(st.symbols, symbol))) && Trim(symbol) != []
  {
    ValidSymbolChars(symbol);
    hide Trim, IsValidSymbol, HasNoWhitespace, Insert;
    assert ':' in SYMBOLS_LINE && CLASS_FIELD[9] == '=' && MACHINE_FIELD[11] == '=';
    assert forall k :: 0 <= k < |symbol| ==> symbol[k] != '=';
  }

  lemma {:induction false} SymbolsReadBack(st: ParserState, rest: seq<string>)
    requires st.inSymbols && SymbolsOk(st.symbols + rest)
    ensures ParseBody(st, rest) == Finish(st.(symbols := st.symbols + rest))
    decreases |rest|
  {
    if rest == [] {
      assert st.symbols + rest == st.symbols;
    } else {
      var all := st.symbols + rest;
      var x := rest[0];
      assert all[|st.symbols|] == x;
      forall k | 0 <= k < |st.symbols| ensures Less(st.symbols[k], x) {
        assert all[k] == st.symbols[k];
      }
      InsertLast(st.symbols, x);
      assert IsValidSymbol(x);
      hide SymbolsOk, Finish, LineStep, Insert, Trim;
      SymbolLineStep(st, x);
      assert st.symbols + [x] + rest[1..] == all;
      SymbolsReadBack(st.(symbols := st.symbols + [x]), rest[1..]);
    }
  }

  lemma ClassLineStep(st: ParserState, value: string)
    requires !st.inSymbols && st.class_.None? && ClassOk(value)
    ensures LineStep(st, CLASS_FIELD + value) == Success(st.(class_ := Some(value)))
  {
    var raw := CLASS_FIELD + value;
    assert raw[0] == 'E' && raw[|raw| - 1] == value[|value| - 1] && raw[10..] == value;
    TrimIsTrimmed(raw);
    TrimIsTrimmed(value);
    hide Trim;
    assert SYMBOLS_LINE[0] == 'S';
  }

  lemma MachineLineStep(st: ParserState, value: string)
    requires !st.inSymbols && st.machine.None? && MachineOk(value)
    ensures LineStep(st, MACHINE_FIELD + value) == Success(st.(machine := Some(value)))
  {
    var raw := MACHINE_FIELD + value;
    assert raw[0] == 'E' && raw[|raw| - 1] == value[|value| - 1] && raw[12..] == value;
    TrimIsTrimmed(raw);
    TrimIsTrimmed(value);
    hide Trim;
    assert SYMBOLS_LINE[0] == 'S' && raw[4] == 'M' && CLASS_FIELD[4] == 'C';
  }

  lemma SymbolsLineStep(st: ParserState)
    requires !st.inSymbols
    ensures LineStep(st, SYMBOLS_LINE) == Success(st.(inSymbols := true))
  {
    TrimIsTrimmed(SYMBOLS_LINE);
    hide Trim;
  }

  /** A line before the symbol block goes through `LineStep`. */
  lemma BodyStep(st: ParserState, line: string, rest: seq<string>, next: ParserState)
    requires !st.inSymbols && LineStep(st, line) == Success(next)
    ensures ParseBody(st, [line] + rest) == ParseBody(next, rest)
  {
    hide LineStep, Finish, Trim;
    assert ([line] + rest)[1..] == rest;
  }

  lemma BodyReadsBack(s: AbiSnapshot)
    requires WellFormedSnapshot(s)
    ensures ParseBody(START, SnapshotLines(s)[1..]) == Success(s)
  {
    var l3 := [SYMBOLS_LINE] + s.symbols;
    var l2 := [MACHINE_FIELD + s.machine] + l3;
    var l1 := [CLASS_FIELD + s.class_] + l2;
    assert SnapshotLines(s)[1..] == l1;
    var s1 := START.(class_ := Some(s.class_));
    var s2 := s1.(machine := Some(s.machine));
    var s3 := s2.(inSymbols := true);
    assert s3.symbols + s.symbols == s.symbols;
    assert Finish(s3.(symbols := s.symbols)) == Success(s);
    ClassLineStep(START, s.class_);
    MachineLineStep(s1, s.machine);
    SymbolsLineStep(s2);
    hide ParseBody, LineStep, Finish, SymbolsOk, ClassOk, MachineOk;
    BodyStep(START, CLASS_FIELD + s.class_, l2, s1);
    BodyStep(s1, MACHINE_FIELD + s.machine, l3, s2);
    BodyStep(s2, SYMBOLS_LINE, s.symbols, s3);
    SymbolsReadBack(s3, s.symbols);
  }

  lemma FormattedLinesArePlain(s: AbiSnapshot)
    requires WellFormedSnapshot(s)
    ensures forall k :: 0 <= k < |SnapshotLines(s)| ==> PlainLine(SnapshotLines(s)[k])
  {
    var lines := SnapshotLines(s);
    PlainField(CLASS_FIELD, s.class_);
    PlainField(MACHINE_FIELD, s.machine);
    hide PlainLine;
    forall k | 4 <= k < |lines| ensures PlainLine(lines[k]) {
      assert lines[k] == s.symbols[k - 4];
      ValidSymbolChars(lines[k]);
    }
    assert PlainLine(SNAPSHOT_MAGIC) && PlainLine(SYMBOLS_LINE) by { PlainTitles(); }
  }

  lemma PlainTitles()
    ensures PlainLine(SNAPSHOT_MAGIC) && PlainLine(SYMBOLS_LINE) && PlainLine(CLASS_FIELD) && PlainLine(MACHINE_FIELD)
  {
  }

  lemma PlainField(field: string, value: string)
    requires PlainLine(field) && value != [] && OnlySpaces(value)
    ensures PlainLine(field + value)
  {
    assert forall k :: 0 <= k < |value| ==> value[k] != '\n' && value[k] != '\r';
  }

  /** Formatting then parsing gives the snapshot back, for every well-formed snapshot. */
  lemma RoundTrip(s: AbiSnapshot)
    requires WellFormedSnapshot(s)
    ensures Parsed(SnapshotText(s)) == Success(s)
  {
    FormattedLinesArePlain(s);
    LinesOfJoin(SnapshotLines(s));
    BodyReadsBack(s);
    hide Lines, JoinLines, ParseBody, PlainLine;
    assert SnapshotLines(s)[0] == SNAPSHOT_MAGIC;
  }

  /** On accepted texts formatting is canonical: it parses back to the same snapshot. */
  lemma FormatIsFixpoint(contents: string)
    requires Parsed(contents).Success?
    ensures Parsed(SnapshotText(Parsed(contents).value)) == Parsed(contents)
  {
    AcceptedIsWellFormed(contents);
    RoundTrip(Parsed(contents).value);
  }
}
