/** The bounded output buffer of `strftime` (`src/time.rs`). */
module OutputBuffers {
  /** Caller storage after `text` went into the first `max` cells: the part that fits, the rest untouched. */
  function Stored(before: string, max: nat, text: string): (s: string)
    requires max <= |before|
    ensures |s| == |before|
  {
    var kept := if max == 0 then 0 else if |text| < max then |text| else max - 1;
    text[..kept] + before[kept..]
  }

  /** The same after the final NUL. */
  function Terminated(before: string, max: nat, text: string): (s: string)
    requires max <= |before|
    ensures |s| == |before|
  {
    if max == 0 then before
    else
      var kept := if |text| < max then |text| else max - 1;
      text[..kept] + ['\0'] + before[kept + 1..]
  }

  function CellsOf(dst: array?<char>): string
    reads dst
  {
    if dst == null then [] else dst[..]
  }

  class OutputBuffer {
    const dst: array?<char>
    const max: nat
    var required: nat
    ghost const before: string
    ghost var pushed: string

    ghost predicate Valid()
      reads this, dst
    {
      && |before| == |CellsOf(dst)| && max <= |before|
      && required == |pushed|
      && CellsOf(dst) == Stored(before, max, pushed)
    }

    constructor (dst: array?<char>, max: nat)
      requires max <= |CellsOf(dst)|
      ensures Valid() && this.dst == dst && this.max == max && before == CellsOf(dst) && pushed == ""
    {
      this.dst, this.max, required := dst, max, 0;
      before, pushed := CellsOf(dst), "";
    }

    method PushByte(b: char)
      requires Valid()
      modifies this`required, this`pushed, dst
      ensures Valid() && pushed == old(pushed) + [b]
    {
      if max != 0 && required < max - 1 {
        dst[required] := b;
      }
      required := required + 1;
      pushed := pushed + [b];
    }

    method PushBytes(bytes: string)
      requires Valid()
      modifies this`required, this`pushed, dst
      ensures Valid() && pushed == old(pushed) + bytes
    {
      for i := 0 to |bytes|
        invariant Valid() && pushed == old(pushed) + bytes[..i]
      {
        PushByte(bytes[i]);
        assert bytes[..i + 1] == bytes[..i] + [bytes[i]];
      }
      assert bytes[..|bytes|] == bytes;
    }

    /** Stores the NUL and reports the length, or 0 when text and NUL did not fit. */
    method Finish() returns (written: nat)
      requires Valid()
      modifies dst
      ensures CellsOf(dst) == Terminated(before, max, pushed)
      ensures written == if |pushed| < max then |pushed| else 0
    {
      Terminate();
      written := if max == 0 || required >= max then 0 else required;
    }

    method Terminate()
      requires Valid()
      modifies dst
      ensures CellsOf(dst) == Terminated(before, max, pushed)
    {
      if max == 0 {
        return;
      }
      var terminatorIndex := if required < max - 1 then required else max - 1;
      dst[terminatorIndex] := '\0';
    }
  }
}
