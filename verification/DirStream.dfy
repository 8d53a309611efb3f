/** The buffered directory stream behind `readdir` and `rewinddir` (`src/dirent/mod.rs`). */
module DirStreams {
  import opened Wrappers
  import opened DirRecords

  predicate AnswersFit(kernel: seq<Answer>) {
    forall k :: 0 <= k < |kernel| ==> kernel[k].Bytes? ==> |kernel[k].data| <= DIRENT_BUFFER_SIZE
  }

  class DirStream {
    var cursor: nat
    var filled: nat
    const buffer: array<byte>
    var dIno: nat
    var dOff: int
    var dReclen: nat
    var dType: byte
    const dName: array<byte>
    /** The answers the kernel is going to give; when they run out, 0 bytes. */
    var kernel: seq<Answer>

    ghost predicate Valid()
      reads this, buffer, dName
    {
      && buffer.Length == DIRENT_BUFFER_SIZE && dName.Length == DIRENT_NAME_CAPACITY && buffer != dName
      && cursor <= filled <= DIRENT_BUFFER_SIZE && AnswersFit(kernel)
    }

    ghost function EntryValue(): Entry
      reads this, dName
    {
      Entry(dIno, dOff, dReclen, dType, dName[..])
    }

    ghost function Value(): Stream
      requires Valid()
      reads this, buffer, dName
    {
      Stream(buffer[cursor..filled], kernel, EntryValue())
    }

    constructor (kernel: seq<Answer>)
      requires AnswersFit(kernel)
      ensures Valid() && fresh(buffer) && fresh(dName)
      ensures Value() == Stream([], kernel, Entry(0, 0, 0, 0, Zeros(DIRENT_NAME_CAPACITY)))
    {
      cursor, filled, dIno, dOff, dReclen, dType := 0, 0, 0, 0, 0, 0;
      buffer := new byte[DIRENT_BUFFER_SIZE](_ => 0);
      dName := new byte[DIRENT_NAME_CAPACITY](_ => 0);
      this.kernel := kernel;
      new;
      assert dName[..] == Zeros(DIRENT_NAME_CAPACITY);
    }

    /** `refill`: the next answer replaces the buffered bytes, an error leaves them. */
    method Refill() returns (r: Result<nat, int>)
      requires Valid()
      modifies this`cursor, this`filled, this`kernel, buffer
      ensures Valid() && EntryValue() == old(EntryValue())
      ensures kernel == if old(kernel) == [] then [] else old(kernel)[1..]
      ensures old(kernel) == [] ==> r == Success(0) && buffer[cursor..filled] == []
      ensures old(kernel) != [] ==> match old(kernel)[0]
        case Fails(errno) =>
          && r == Failure(errno) && cursor == old(cursor) && filled == old(filled)
          && buffer[..] == old(buffer[..])
        case Bytes(data) => r == Success(|data|) && buffer[cursor..filled] == data
    {
      var answer := if kernel == [] then Bytes([]) else kernel[0];
      kernel := if kernel == [] then [] else kernel[1..];
      match answer {
        case Fails(errno) => return Failure(errno);
        case Bytes(data) =>
          forall k | 0 <= k < |data| {
            buffer[k] := data[k];
          }
          cursor, filled := 0, |data|;
          assert buffer[..|data|] == data;
          return Success(|data|);
      }
    }

    /** `fill_user_entry`: the fields, then the name over a cleared name buffer. */
    method FillUserEntry(ino: nat, off: int, reclen: nat, dType: byte, name: seq<byte>)
      requires Valid() && |name| < DIRENT_NAME_CAPACITY
      modifies this`dIno, this`dOff, this`dReclen, this`dType, dName
      ensures Valid() && EntryValue() == Entry(ino, off, reclen, dType, NameCells(name))
    {
      dIno, dOff, dReclen, this.dType := ino, off, reclen, dType;
      forall k | 0 <= k < dName.Length {
        dName[k] := 0;
      }
      for i := 0 to |name|
        invariant Valid() && EntryValue() == Entry(ino, off, reclen, dType, dName[..])
        invariant forall k :: 0 <= k < dName.Length ==> dName[k] == if k < i then name[k] else 0
      {
        dName[i] := name[i];
      }
      assert dName[..] == NameCells(name);
    }

    /** The position of the first NUL, or the length. */
    static method NameLength(raw: seq<byte>) returns (n: nat)
      ensures n <= |raw| && raw[..n] == BeforeNul(raw)
    {
      hide BeforeNul;
      n := 0;
      while n < |raw| && raw[n] != 0
        invariant n <= |raw| && 0 !in raw[..n]
      {
        n := n + 1;
      }
      BeforeNulOfCells(raw[..n], raw[n..]);
      assert raw[..n] + raw[n..] == raw;
    }

    /** The record at the cursor: checked, copied into the entry, and passed. */
    method ReadFront() returns (outcome: Outcome)
      requires Valid()
      modifies this`cursor, this`dIno, this`dOff, this`dReclen, this`dType, dName
      ensures Valid() && (Value(), outcome) == ReadRecord(old(Value()))
      ensures outcome != Got ==> cursor == old(cursor)
    {
      hide LeValue, CutName, NameCells, BeforeNul;
      var available := filled - cursor;
      ghost var window := buffer[cursor..filled];
      if available < FIXED_SIZE {
        return Failed(EIO_CODE);
      }
      var record := buffer[cursor..filled];
      var recordLen := LeValue(record[16..18]);
      if recordLen < FIXED_SIZE || recordLen > available {
        return Failed(EIO_CODE);
      }
      var bytes := record[..recordLen];
      var rawName := bytes[FIXED_SIZE..];
      var rawLen := NameLength(rawName);
      var copyLen := if rawLen < DIRENT_NAME_CAPACITY - 1 then rawLen else DIRENT_NAME_CAPACITY - 1;
      CutAt(rawName, rawLen, copyLen);
      assert bytes[16..18] == record[16..18];
      FillUserEntry(LeValue(bytes[0..8]), Signed(LeValue(bytes[8..16])), recordLen, bytes[18], rawName[..copyLen]);
      cursor := cursor + recordLen;
      assert buffer[cursor..filled] == window[recordLen..];
      outcome := Got;
    }

    /** `next_entry` */
    method NextEntry() returns (outcome: Outcome)
      requires Valid()
      modifies this, buffer, dName
      ensures Valid() && (Value(), outcome) == Next(old(Value()))
    {
      hide ReadRecord;
      if cursor >= filled {
        var bytesRead := Refill();
        if bytesRead.Failure? {
          return Failed(bytesRead.error);
        }
        if bytesRead.value == 0 {
          return EndOfStream;
        }
      }
      outcome := ReadFront();
    }

    /** `rewinddir` after `lseek` answered: success drops the buffered bytes and the kernel starts over
        with new answers, an error changes nothing. */
    method Rewind(seek: Result<(), int>, fromStart: seq<Answer>) returns (errno: Option<int>)
      requires Valid() && AnswersFit(fromStart)
      modifies this`cursor, this`filled, this`kernel
      ensures Valid()
      ensures seek.Success? ==> errno == None && Value() == Stream([], fromStart, old(EntryValue()))
      ensures seek.Failure? ==> errno == Some(seek.error) && Value() == old(Value())
      ensures seek.Failure? ==> cursor == old(cursor) && filled == old(filled)
    {
      if seek.Failure? {
        return Some(seek.error);
      }
      cursor, filled, kernel := 0, 0, fromStart;
      errno := None;
    }
  }

  lemma CutAt(raw: seq<byte>, n: nat, m: nat)
    requires n <= |raw| && raw[..n] == BeforeNul(raw)
    requires m == if n < DIRENT_NAME_CAPACITY - 1 then n else DIRENT_NAME_CAPACITY - 1
    ensures raw[..m] == CutName(raw)
  {
    hide BeforeNul;
    assert BeforeNul(raw)[..m] == raw[..m];
  }

  /** A rewound stream returns the whole directory again, record by record. */
  lemma RewoundReturnsAll(entry: Entry, kernel: seq<Answer>, chunks: seq<seq<Record>>, n: nat)
    requires Delivers(kernel, chunks)
    ensures var s := Stream([], kernel, entry);
      var records := Flatten(chunks);
      && |Outcomes(s, n)| == n
      && forall k :: 0 <= k < n ==> Outcomes(s, n)[k] == if k < |records| then Read(ViewOf(records[k])) else AtEnd
  {
    var s := Stream([], kernel, entry);
    assert EncodeAll([]) == [] && [] + Flatten(chunks) == Flatten(chunks);
    assert Holds(s, Flatten(chunks), [], chunks);
    hide Outcomes, ViewOf, Flatten;
    RunReturnsRecords(s, Flatten(chunks), n);
  }
}
