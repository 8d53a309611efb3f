/** `getdents64` records and the stream they form (`src/dirent/mod.rs`). */
module DirRecords {
  import opened Wrappers

  type byte = x: int | 0 <= x < 256

  const DIRENT_BUFFER_SIZE := 4096
  const DIRENT_NAME_CAPACITY := 256
  const FIXED_SIZE := 19

  // ---- Little-endian numbers ----

  function LeBytes(x: nat, n: nat): (s: seq<byte>)
    ensures |s| == n
  {
    if n == 0 then [] else [x % 256] + LeBytes(x / 256, n - 1)
  }

  function LeValue(s: seq<byte>): nat {
    if s == [] then 0 else s[0] + 256 * LeValue(s[1..])
  }

  function Power256(n: nat): nat {
    if n == 0 then 1 else 256 * Power256(n - 1)
  }

  lemma {:induction false} LeRoundTrip(x: nat, n: nat)
    requires x < Power256(n)
    ensures LeValue(LeBytes(x, n)) == x
  {
    if n > 0 {
      LeRoundTrip(x / 256, n - 1);
      assert LeBytes(x, n)[1..] == LeBytes(x / 256, n - 1);
    }
  }

  /** `i64` from its bit pattern. */
  function Signed(bits: nat): int {
    if bits < 0x8000_0000_0000_0000 then bits else bits - 0x1_0000_0000_0000_0000
  }

  function BitsOf(x: int): nat
    requires FitsLong(x)
  {
    if x < 0 then x + 0x1_0000_0000_0000_0000 else x
  }

  // ---- Records ----

  /** One kernel record; `raw` is everything after the fixed part, NUL and padding included. */
  datatype Record = Record(ino: nat, off: int, dType: byte, raw: seq<byte>)

  predicate RecordOk(r: Record) {
    r.ino < 0x1_0000_0000_0000_0000 && FitsLong(r.off) && FIXED_SIZE + |r.raw| <= DIRENT_BUFFER_SIZE
  }

  function Encode(r: Record): (s: seq<byte>)
    requires RecordOk(r)
    ensures |s| == FIXED_SIZE + |r.raw|
  {
    LeBytes(r.ino, 8) + LeBytes(BitsOf(r.off), 8) + LeBytes(FIXED_SIZE + |r.raw|, 2) + [r.dType] + r.raw
  }

  predicate RecordsOk(rs: seq<Record>) {
    forall k :: 0 <= k < |rs| ==> RecordOk(rs[k])
  }

  function EncodeAll(rs: seq<Record>): seq<byte>
    requires RecordsOk(rs)
  {
    if rs == [] then [] else Encode(rs[0]) + EncodeAll(rs[1..])
  }

  // ---- What the caller sees ----

  /** `struct dirent`, with all cells of its name buffer. */
  datatype Entry = Entry(ino: nat, off: int, reclen: nat, dType: byte, name: seq<byte>)

  /** The text before the first NUL. */
  function BeforeNul(s: seq<byte>): (r: seq<byte>)
    ensures r <= s && 0 !in r && (|r| < |s| ==> s[|r|] == 0)
  {
    if s == [] || s[0] == 0 then [] else [s[0]] + BeforeNul(s[1..])
  }

  /** The name that fits: cut at the first NUL, at most 255 bytes. */
  function CutName(raw: seq<byte>): (r: seq<byte>)
    ensures r <= raw && |r| < DIRENT_NAME_CAPACITY && 0 !in r
  {
    var name := BeforeNul(raw);
    if |name| < DIRENT_NAME_CAPACITY then name else name[..DIRENT_NAME_CAPACITY - 1]
  }

  function Zeros(n: nat): (s: seq<byte>)
    ensures |s| == n && forall k :: 0 <= k < n ==> s[k] == 0
  {
    seq(n, _ => 0)
  }

  function NameCells(name: seq<byte>): (s: seq<byte>)
    requires |name| < DIRENT_NAME_CAPACITY
    ensures |s| == DIRENT_NAME_CAPACITY
  {
    name + Zeros(DIRENT_NAME_CAPACITY - |name|)
  }

  lemma {:induction false} BeforeNulOfCells(name: seq<byte>, rest: seq<byte>)
    requires 0 !in name && (rest != [] ==> rest[0] == 0)
    ensures BeforeNul(name + rest) == name
  {
    if name != [] {
      assert name[0] in name;
      BeforeNulOfCells(name[1..], rest);
      assert (name + rest)[1..] == name[1..] + rest;
    } else {
      assert name + rest == rest;
    }
  }

  /** The C string the caller reads from the name buffer is the cut name. */
  lemma NameReadsBack(raw: seq<byte>)
    ensures BeforeNul(NameCells(CutName(raw))) == CutName(raw)
  {
    BeforeNulOfCells(CutName(raw), Zeros(DIRENT_NAME_CAPACITY - |CutName(raw)|));
  }

  /** The entry a record becomes. */
  function ViewOf(r: Record): Entry {
    Entry(r.ino, r.off, FIXED_SIZE + |r.raw|, r.dType, NameCells(CutName(r.raw)))
  }

  /** The entry at the start of raw bytes that hold one whole record. */
  function ParseEntry(bytes: seq<byte>): Entry
    requires FIXED_SIZE <= |bytes|
  {
    Entry(LeValue(bytes[0..8]), Signed(LeValue(bytes[8..16])), LeValue(bytes[16..18]), bytes[18],
          NameCells(CutName(bytes[FIXED_SIZE..])))
  }

  lemma EncodeFields(r: Record)
    requires RecordOk(r)
    ensures var s := Encode(r);
      && s[0..8] == LeBytes(r.ino, 8) && s[8..16] == LeBytes(BitsOf(r.off), 8)
      && s[16..18] == LeBytes(FIXED_SIZE + |r.raw|, 2) && s[18] == r.dType && s[19..] == r.raw
  {
    hide LeBytes, BitsOf;
  }

  lemma Powers()
    ensures Power256(2) == 0x1_0000 && Power256(8) == 0x1_0000_0000_0000_0000
  {
    assert Power256(4) == 0x1_0000_0000;
  }

  /** Decoding a record undoes encoding it. */
  lemma ParseEncoded(r: Record)
    requires RecordOk(r)
    ensures ParseEntry(Encode(r)) == ViewOf(r) && LeValue(Encode(r)[16..18]) == FIXED_SIZE + |r.raw|
  {
    EncodeFields(r);
    Powers();
    LeRoundTrip(r.ino, 8);
    LeRoundTrip(BitsOf(r.off), 8);
    LeRoundTrip(FIXED_SIZE + |r.raw|, 2);
    hide LeBytes, LeValue, Encode, NameCells, CutName, Power256;
  }

  // ---- The stream ----

  /** What one `getdents64` call returns. */
  datatype Answer = Bytes(data: seq<byte>) | Fails(errno: int)

  /** Unread buffered bytes, the kernel's coming answers (then end of directory), and the entry storage. */
  datatype Stream = Stream(window: seq<byte>, kernel: seq<Answer>, entry: Entry)

  datatype Outcome = Got | EndOfStream | Failed(errno: int)

  const EIO_CODE := 5

  /** Reading the record at the front of the window; a malformed one changes nothing. */
  function ReadRecord(s: Stream): (Stream, Outcome) {
    if |s.window| < FIXED_SIZE then (s, Failed(EIO_CODE))
    else
      var len := LeValue(s.window[16..18]);
      if len < FIXED_SIZE || |s.window| < len then (s, Failed(EIO_CODE))
      else (s.(window := s.window[len..], entry := ParseEntry(s.window[..len])), Got)
  }

  /** `next_entry` */
  function Next(s: Stream): (Stream, Outcome) {
    if s.window != [] then ReadRecord(s)
    else if s.kernel == [] then (s, EndOfStream)
    else
      match s.kernel[0]
      case Fails(errno) => (s.(kernel := s.kernel[1..]), Failed(errno))
      case Bytes(data) =>
        var refilled := s.(window := data, kernel := s.kernel[1..]);
        if data == [] then (refilled, EndOfStream) else ReadRecord(refilled)
  }

  // ---- Buffered reading refines the flat record stream ----

  /** The kernel delivers these chunks of whole records, then the end of the directory. */
  predicate Delivers(kernel: seq<Answer>, chunks: seq<seq<Record>>) {
    && |kernel| == |chunks|
    && (forall k :: 0 <= k < |chunks| ==> chunks[k] != [] && RecordsOk(chunks[k]))
    && (forall k :: 0 <= k < |chunks| ==> kernel[k] == Bytes(EncodeAll(chunks[k])))
  }

  function Flatten(chunks: seq<seq<Record>>): seq<Record> {
    if chunks == [] then [] else chunks[0] + Flatten(chunks[1..])
  }

  /** The records still to come, however they are chunked. */
  ghost predicate Represents(s: Stream, records: seq<Record>) {
    exists buffered, chunks :: Holds(s, records, buffered, chunks)
  }

  lemma EncodeAllCons(rs: seq<Record>)
    requires RecordsOk(rs) && rs != []
    ensures RecordsOk(rs[1..]) && EncodeAll(rs) == Encode(rs[0]) + EncodeAll(rs[1..]) && EncodeAll(rs) != []
  {
  }

  /** A window of whole records gives up its first record. */
  lemma ReadFirst(s: Stream, rs: seq<Record>)
    requires rs != [] && RecordsOk(rs) && s.window == EncodeAll(rs)
    ensures RecordsOk(rs[1..])
    ensures ReadRecord(s) == (s.(window := EncodeAll(rs[1..]), entry := ViewOf(rs[0])), Got)
  {
    var r := rs[0];
    EncodeAllCons(rs);
    ParseEncoded(r);
    hide EncodeAll, Encode, ViewOf, ParseEntry, LeValue;
    var e, rest := Encode(r), EncodeAll(rs[1..]);
    assert |e| == FIXED_SIZE + |r.raw|;
    assert (e + rest)[16..18] == e[16..18] && (e + rest)[..|e|] == e && (e + rest)[|e|..] == rest;
  }

  /** The witnesses behind `Represents`. */
  predicate Holds(s: Stream, records: seq<Record>, buffered: seq<Record>, chunks: seq<seq<Record>>) {
    && RecordsOk(buffered) && s.window == EncodeAll(buffered)
    && Delivers(s.kernel, chunks) && records == buffered + Flatten(chunks)
  }

  lemma ReadBuffered(s: Stream, records: seq<Record>, buffered: seq<Record>, chunks: seq<seq<Record>>)
    requires Holds(s, records, buffered, chunks) && buffered != []
    ensures s.window != [] && records != []
    ensures var (s', outcome) := ReadRecord(s);
      outcome == Got && s'.entry == ViewOf(records[0]) && Holds(s', records[1..], buffered[1..], chunks)
  {
    hide ViewOf, ReadRecord, Delivers, Flatten, EncodeAll;
    ReadFirst(s, buffered);
    EncodeAllCons(buffered);
    assert records[1..] == buffered[1..] + Flatten(chunks);
  }

  lemma RefillHolds(s: Stream, records: seq<Record>, chunks: seq<seq<Record>>)
    requires Holds(s, records, [], chunks) && chunks != []
    ensures |s.kernel| > 0 && chunks[0] != [] && RecordsOk(chunks[0])
    ensures s.kernel[0] == Bytes(EncodeAll(chunks[0])) && EncodeAll(chunks[0]) != []
    ensures Holds(s.(window := EncodeAll(chunks[0]), kernel := s.kernel[1..]), records, chunks[0], chunks[1..])
  {
    hide EncodeAll, RecordOk;
    EncodeAllCons(chunks[0]);
    DeliversRest(s.kernel, chunks);
    FlattenCons(chunks);
    hide Delivers, Flatten, RecordsOk;
  }

  lemma DeliversRest(kernel: seq<Answer>, chunks: seq<seq<Record>>)
    requires Delivers(kernel, chunks) && chunks != []
    ensures |kernel| > 0 && Delivers(kernel[1..], chunks[1..])
  {
    hide EncodeAll, RecordOk;
  }

  lemma FlattenCons(chunks: seq<seq<Record>>)
    requires chunks != []
    ensures [] + Flatten(chunks) == Flatten(chunks) == chunks[0] + Flatten(chunks[1..])
  {
  }

  lemma NothingBuffered(s: Stream, records: seq<Record>, chunks: seq<seq<Record>>)
    requires Holds(s, records, [], chunks)
    ensures s.window == [] && (records == [] <==> chunks == []) && (chunks == [] ==> s.kernel == [])
  {
    assert [] + Flatten(chunks) == Flatten(chunks);
  }

  /** One call returns the first record still to come, or the end when there is none. */
  lemma NextReturnsFirst(s: Stream, records: seq<Record>)
    requires Represents(s, records)
    ensures records == [] ==> Next(s) == (s, EndOfStream)
    ensures records != [] ==> var (s', outcome) := Next(s);
      outcome == Got && s'.entry == ViewOf(records[0]) && Represents(s', records[1..])
  {
    hide ViewOf, Holds, Next, EncodeAll;
    var buffered, chunks :| Holds(s, records, buffered, chunks);
    if buffered != [] {
      NextBuffered(s, records, buffered, chunks);
    } else {
      NothingBuffered(s, records, chunks);
      if chunks != [] {
        NextRefilled(s, records, chunks);
      } else {
        NextAtEnd(s);
      }
    }
  }

  lemma NextAtEnd(s: Stream)
    requires s.window == [] && s.kernel == []
    ensures Next(s) == (s, EndOfStream)
  {
  }

  lemma NextBuffered(s: Stream, records: seq<Record>, buffered: seq<Record>, chunks: seq<seq<Record>>)
    requires Holds(s, records, buffered, chunks) && buffered != []
    ensures records != [] && Next(s).1 == Got && Next(s).0.entry == ViewOf(records[0])
    ensures Represents(Next(s).0, records[1..])
  {
    hide ViewOf, ReadRecord, Holds, EncodeAll;
    ReadBuffered(s, records, buffered, chunks);
    assert Holds(ReadRecord(s).0, records[1..], buffered[1..], chunks);
  }

  lemma NextRefilled(s: Stream, records: seq<Record>, chunks: seq<seq<Record>>)
    requires s.window == [] && Holds(s, records, [], chunks) && chunks != []
    ensures records != [] && Next(s).1 == Got && Next(s).0.entry == ViewOf(records[0])
    ensures Represents(Next(s).0, records[1..])
  {
    hide ViewOf, ReadRecord, Holds, EncodeAll;
    RefillHolds(s, records, chunks);
    var refilled := s.(window := EncodeAll(chunks[0]), kernel := s.kernel[1..]);
    ReadBuffered(refilled, records, chunks[0], chunks[1..]);
    assert Holds(ReadRecord(refilled).0, records[1..], chunks[0][1..], chunks[1..]);
  }

  /** What a caller learns from one call: an entry, the end of the directory, or an error number. */
  datatype Reply = Read(entry: Entry) | AtEnd | Error(errno: int)

  function ReplyOf(s: Stream): Reply {
    var (s', outcome) := Next(s);
    match outcome
    case Got => Read(s'.entry)
    case EndOfStream => AtEnd
    case Failed(errno) => Error(errno)
  }

  /** A call reports the end exactly when nothing is buffered and the kernel gives 0 bytes. An error of the kernel is
      reported with its number, keeps the entry and the buffered bytes, and is not asked for again. */
  lemma EndAndErrors(s: Stream)
    ensures ReplyOf(s) == AtEnd <==> s.window == [] && (s.kernel == [] || s.kernel[0] == Bytes([]))
    ensures s.window == [] && s.kernel != [] && s.kernel[0].Fails? ==>
      ReplyOf(s) == Error(s.kernel[0].errno) && Next(s).0 == s.(kernel := s.kernel[1..])
  {
    hide ParseEntry, LeValue;
  }

  /** What the first `n` calls return. */
  function Outcomes(s: Stream, n: nat): seq<Reply>
    decreases n
  {
    if n == 0 then [] else [ReplyOf(s)] + Outcomes(Next(s).0, n - 1)
  }

  function Expected(records: seq<Record>, n: nat): seq<Reply> {
    if n == 0 then []
    else if records == [] then [AtEnd] + Expected([], n - 1)
    else [Read(ViewOf(records[0]))] + Expected(records[1..], n - 1)
  }

  lemma {:induction false} OutcomesExpected(s: Stream, records: seq<Record>, n: nat)
    requires Represents(s, records)
    ensures Outcomes(s, n) == Expected(records, n)
    decreases n
  {
    hide Represents, Next, ViewOf;
    if n > 0 {
      NextReturnsFirst(s, records);
      OutcomesUnfold(s, n);
      ExpectedUnfold(records, n);
      hide Outcomes, Expected;
      OutcomesExpected(Next(s).0, if records == [] then [] else records[1..], n - 1);
    }
  }

  /** An error in between loses no record: the calls after it return every record still to come, then the end. */
  lemma ErrorLosesNothing(s: Stream, records: seq<Record>, n: nat)
    requires s.window == [] && s.kernel != [] && s.kernel[0].Fails?
    requires Represents(s.(kernel := s.kernel[1..]), records)
    ensures Outcomes(s, n + 1) == [Error(s.kernel[0].errno)] + Expected(records, n)
  {
    EndAndErrors(s);
    OutcomesUnfold(s, n + 1);
    hide Next, ReplyOf, Represents, Expected, Outcomes;
    OutcomesExpected(s.(kernel := s.kernel[1..]), records, n);
  }

  lemma OutcomesUnfold(s: Stream, n: nat)
    requires n > 0
    ensures Outcomes(s, n) == [ReplyOf(s)] + Outcomes(Next(s).0, n - 1)
  {
    hide Next, ReplyOf;
  }

  lemma ExpectedUnfold(records: seq<Record>, n: nat)
    requires n > 0
    ensures Expected(records, n)
         == [if records == [] then AtEnd else Read(ViewOf(records[0]))]
          + Expected(if records == [] then [] else records[1..], n - 1)
  {
    hide ViewOf;
  }

  lemma {:induction false} ExpectedAt(records: seq<Record>, n: nat, k: nat)
    requires k < n
    ensures |Expected(records, n)| == n
    ensures Expected(records, n)[k] == if k < |records| then Read(ViewOf(records[k])) else AtEnd
    decreases n
  {
    hide ViewOf;
    if n > 1 {
      if records == [] {
        ExpectedAt(records, n - 1, if k > 0 then k - 1 else 0);
      } else {
        ExpectedAt(records[1..], n - 1, if k > 0 then k - 1 else 0);
      }
    }
  }

  /** Of any number of calls, the k-th returns the k-th record, however the kernel chunks them, and after
      the last record the end of the directory, never an error. */
  lemma RunReturnsRecords(s: Stream, records: seq<Record>, n: nat)
    requires Represents(s, records)
    ensures |Outcomes(s, n)| == n
    ensures forall k :: 0 <= k < n ==> Outcomes(s, n)[k] == if k < |records| then Read(ViewOf(records[k])) else AtEnd
  {
    hide Represents, ViewOf, Outcomes, Expected;
    OutcomesExpected(s, records, n);
    if n > 0 {
      ExpectedAt(records, n, 0);
    } else {
      NoOutcomes(s);
    }
    forall k | 0 <= k < n
      ensures Outcomes(s, n)[k] == if k < |records| then Read(ViewOf(records[k])) else AtEnd
    {
      ExpectedAt(records, n, k);
    }
  }

  lemma NoOutcomes(s: Stream)
    ensures Outcomes(s, 0) == []
  {
  }

  // ---- Malformed records ----

  /** The stream after the refill that a call makes when nothing is buffered. */
  function Refilled(s: Stream): Stream {
    if s.window == [] && s.kernel != [] && s.kernel[0].Bytes? then
      s.(window := s.kernel[0].data, kernel := s.kernel[1..])
    else s
  }

  /** No whole record at the front of the buffered bytes. */
  predicate Malformed(window: seq<byte>) {
    |window| < FIXED_SIZE || LeValue(window[16..18]) < FIXED_SIZE || |window| < LeValue(window[16..18])
  }

  /** With bytes buffered, before or after a refill, a call fails exactly on a malformed record, with `EIO`,
      and then changes nothing but the refill: the entry and the unread bytes stay. */
  lemma MalformedChangesNothing(s: Stream)
    requires Refilled(s).window != []
    ensures Next(s).1 != Got <==> Malformed(Refilled(s).window)
    ensures Malformed(Refilled(s).window) ==> Next(s) == (Refilled(s), Failed(EIO_CODE)) && Next(s).0.entry == s.entry
  {
  }

  /** The stream after `n` calls. */
  function After(s: Stream, n: nat): Stream {
    if n == 0 then s else Next(After(s, n - 1)).0
  }

  /** Every call from then on returns the same `EIO` and leaves the stream as it is. */
  lemma {:induction false} MalformedStays(s: Stream, n: nat)
    requires Refilled(s).window != [] && Malformed(Refilled(s).window)
    ensures Next(After(s, n)) == (Refilled(s), Failed(EIO_CODE))
    decreases n
  {
    if n == 0 {
      MalformedChangesNothing(s);
    } else {
      MalformedStays(s, n - 1);
      hide Next, Malformed;
      assert After(s, n) == Refilled(s) && Refilled(Refilled(s)) == Refilled(s);
      MalformedChangesNothing(Refilled(s));
    }
  }
}
