/**
 * `BitReadStream`: a cursor over a `BitReadBuffer`. The stream holds the
 * buffer, the origin of its window `startPos` and the absolute cursor `pos`;
 * positions it reports and accepts are relative to `startPos`.
 *
 * Each cursor operation is specified by a step function below, which gives
 * its result and the cursor afterwards from the buffer and the cursor before;
 * the step functions carry the promises of the operations, and each method of
 * the class is proved to follow its step function.
 */
module ReadStream {
  import opened Results
  import opened Utf8
  import opened Buffer

  function Min(a: nat, b: nat): (m: nat)
    ensures m <= a && m <= b && (m == a || m == b)
  {
    if a <= b then a else b
  }

  /** Bool reads take one bit; the cursor moves only on success. */
  function BoolStep(buf: BitReadBuffer, pos: nat): (s: Step<bool>)
    requires buf.Valid() && pos <= buf.bitLen
    ensures s.result.Ok? <==> 1 <= buf.bitLen - pos
    ensures s.pos == if s.result.Ok? then pos + 1 else pos
    ensures s.result.Err? ==> s.result.error == NotEnoughData(1, buf.bitLen - pos)
  {
    var r := buf.ReadBool(pos);
    Step(r, if r.Ok? then pos + 1 else pos)
  }

  /** Integer reads take `count` bits, at most the width of the target type. */
  function IntStep(buf: BitReadBuffer, pos: nat, t: IntType, count: nat): (s: Step<int>)
    requires buf.Valid() && pos <= buf.bitLen
    ensures s.result.Ok? <==> count <= t.Width() && count <= buf.bitLen - pos
    ensures s.pos == if s.result.Ok? then pos + count else pos
    ensures s.result.Ok? ==> t.Min() <= s.result.value <= t.Max()
    ensures count > t.Width() ==> s.result == Err(TooManyBits(count, t.Width()))
    ensures count <= t.Width() && count > buf.bitLen - pos ==>
              s.result == Err(NotEnoughData(count, buf.bitLen - pos))
  {
    var r := buf.ReadInt(pos, t, count);
    Step(r, if r.Ok? then pos + count else pos)
  }

  /** Float reads take exactly the width of the float type, 32 or 64 bits. */
  function FloatStep(buf: BitReadBuffer, pos: nat, f: FloatType): (s: Step<nat>)
    requires buf.Valid() && pos <= buf.bitLen
    ensures s.result.Ok? <==> f.Width() <= buf.bitLen - pos
    ensures s.pos == if s.result.Ok? then pos + f.Width() else pos
    ensures s.result.Err? ==> s.result.error == NotEnoughData(f.Width(), buf.bitLen - pos)
  {
    var r := buf.ReadFloat(pos, f);
    Step(r, if r.Ok? then pos + f.Width() else pos)
  }

  /** Reading `n` bytes takes `n * 8` bits. */
  function BytesStep(buf: BitReadBuffer, pos: nat, n: nat): (s: Step<seq<byte>>)
    requires buf.Valid() && pos <= buf.bitLen
    ensures s.result.Ok? <==> n * 8 <= buf.bitLen - pos
    ensures s.pos == if s.result.Ok? then pos + n * 8 else pos
    ensures s.result.Ok? ==> |s.result.value| == n
    ensures s.result.Err? ==> s.result.error == NotEnoughData(n * 8, buf.bitLen - pos)
  {
    var r := buf.ReadBytes(pos, n);
    Step(r, if r.Ok? then pos + n * 8 else pos)
  }

  /**
   * How far the cursor moves when the string bytes are not UTF-8: the fixed
   * length in bits, or for a NUL-terminated string the minimum of the bits of
   * the failed bytes plus terminator and `maxLength`, which is a count of BYTES.
   */
  function MalformedAdvance(byteLen: Option<nat>, failed: nat, maxLength: nat): (a: nat)
    ensures byteLen.None? ==> a <= maxLength
  {
    match byteLen
    case Some(n) => n * 8
    case None => Min((failed + 1) * 8, maxLength)
  }

  /** The bits a decoded string accounts for: the fixed length, or its bytes and the terminator. */
  function StringRead(byteLen: Option<nat>, s: seq<Char>): nat
  {
    match byteLen
    case Some(n) => n * 8
    case None => (ByteLen(s) + 1) * 8
  }

  /**
   * What a string read does with the outcome of decoding, given the bits
   * left in the window: an error is passed on, and the cursor moves only past
   * malformed UTF-8; a value that would pass the end of the window is cut to
   * the longest whole-character prefix that fits in its remaining bytes.
   */
  function StringOutcome(decoded: Result<seq<Char>>, pos: nat, byteLen: Option<nat>, bitsLeft: nat): (s: Step<seq<Char>>)
    ensures s.result.Err? <==> decoded.Err?
    ensures s.result.Err? ==> s.result == decoded
    ensures s.result.Ok? ==> s.result.value <= decoded.value && pos <= s.pos <= pos + bitsLeft
  {
    var maxLength := bitsLeft / 8;
    match decoded
    case Err(e) =>
      Step(Err(e), if e.Utf8Error? then pos + MalformedAdvance(byteLen, |e.bytes|, maxLength) else pos)
    case Ok(v) =>
      var read := StringRead(byteLen, v);
      if read > bitsLeft then
        var acc := FitPrefix(v, maxLength);
        assert ByteLen(acc) * 8 <= bitsLeft;
        Step(Ok(acc), pos + ByteLen(acc) * 8)
      else
        Step(Ok(v), pos + read)
  }

  /**
   * Reading a string. Fixed length advances `n * 8`, NUL-terminated advances
   * the string's bytes plus one, both in bits. When that passes the end of
   * the window the value is cut to the longest whole-character prefix that
   * fits in the window's remaining bytes and the cursor advances by that
   * prefix. Malformed UTF-8 is reported and still moves the cursor.
   */
  function StringStep(buf: BitReadBuffer, pos: nat, byteLen: Option<nat>): (s: Step<seq<Char>>)
    requires buf.Valid() && pos <= buf.bitLen
    ensures pos <= s.pos <= buf.bitLen
  {
    StringOutcome(buf.ReadString(pos, byteLen), pos, byteLen, buf.bitLen - pos)
  }

  /**
   * StringStep is the outcome of decoding at `pos`, unfolded once with its
   * parts named. The decode, `bits_left` and the step are parameters so that
   * callers can refer to them without unfolding StringStep again.
   */
  lemma StringStepOutcome(buf: BitReadBuffer, pos: nat, byteLen: Option<nat>, decoded: Result<seq<Char>>,
                          left: nat, step: Step<seq<Char>>)
    requires buf.Valid() && pos <= buf.bitLen
    requires decoded == buf.ReadString(pos, byteLen) && left == buf.bitLen - pos
    requires step == StringStep(buf, pos, byteLen)
    ensures step == StringOutcome(decoded, pos, byteLen, left) && step.pos <= buf.bitLen
  {
  }

  /**
   * Where a string read leaves the cursor: in place on `NotEnoughData`, past
   * the malformed bytes by MalformedAdvance on `Utf8Error`, and `n * 8` bits
   * further for a fixed-length string that succeeds.
   */
  lemma StringStepAdvance(buf: BitReadBuffer, pos: nat, byteLen: Option<nat>)
    requires buf.Valid() && pos <= buf.bitLen
    ensures var s := StringStep(buf, pos, byteLen);
            && (s.result.Err? && s.result.error.NotEnoughData? ==> s.pos == pos)
            && (byteLen.Some? && byteLen.value * 8 > buf.bitLen - pos ==>
                  s == Step(Err(NotEnoughData(byteLen.value * 8, buf.bitLen - pos)), pos))
            && (s.result.Err? && s.result.error.Utf8Error? ==>
                  s.pos == pos + MalformedAdvance(byteLen, |s.result.error.bytes|, (buf.bitLen - pos) / 8))
            && (byteLen.Some? && s.result.Ok? ==> s.pos == pos + byteLen.value * 8)
  {
  }

  /** A fixed-length read that succeeds never passes the window, so it is never cut. */
  lemma SizedStringNotCut(buf: BitReadBuffer, pos: nat, n: nat)
    requires buf.Valid() && pos <= buf.bitLen
    requires buf.ReadString(pos, Some(n)).Ok?
    ensures StringStep(buf, pos, Some(n)) == Step(buf.ReadString(pos, Some(n)), pos + n * 8)
  {
  }

  /**
   * A NUL-terminated string whose terminator lies inside the window is
   * returned whole and consumed with its terminator; one that runs past the
   * window is cut to the longest prefix that fits.
   */
  lemma UnsizedStringStep(buf: BitReadBuffer, pos: nat)
    requires buf.Valid() && pos <= buf.bitLen
    requires buf.ReadString(pos, None).Ok?
    ensures var v := buf.ReadString(pos, None).value;
            var bytes := |buf.ScanToNul(pos)|;
            if (bytes + 1) * 8 <= buf.bitLen - pos
            then StringStep(buf, pos, None) == Step(Ok(v), pos + (bytes + 1) * 8)
            else StringStep(buf, pos, None) ==
                   Step(Ok(FitPrefix(v, (buf.bitLen - pos) / 8)),
                        pos + ByteLen(FitPrefix(v, (buf.bitLen - pos) / 8)) * 8)
  {
    var v := buf.ReadString(pos, None).value;
    assert buf.ReadString(pos, None) == Ok(v);
    assert StringRead(None, v) == (|buf.ScanToNul(pos)| + 1) * 8;
  }

  /**
   * The loop `read_string` uses to cut a string: take characters from the
   * front while the bytes taken so far plus the next character fit in `max`.
   */
  method KeepFitting(s: seq<Char>, max: nat) returns (acc: seq<Char>)
    ensures acc == FitPrefix(s, max)
  {
    acc := [];
    var i := 0;
    while i < |s|
      invariant i <= |s| && acc == s[..i]
      invariant ByteLen(acc) <= max
    {
      if ByteLen(acc) + LenUtf8(s[i]) > max {
        break;
      }
      ByteLenAppend(acc, [s[i]]);
      assert ByteLen([s[i]]) == LenUtf8(s[i]);
      acc := acc + [s[i]];
      i := i + 1;
    }
    FitPrefixUnique(s, max, acc);
  }

  /** `skip_bits`: succeeds exactly when `count` bits remain. */
  function SkipStep(buf: BitReadBuffer, pos: nat, count: nat): (s: Step<()>)
    requires buf.Valid() && pos <= buf.bitLen
    ensures s.result.Ok? <==> count <= buf.bitLen - pos
    ensures s.pos == if s.result.Ok? then pos + count else pos
    ensures s.result.Err? ==> s.result.error == NotEnoughData(count, buf.bitLen - pos)
  {
    if count <= buf.bitLen - pos then Step(Ok(()), pos + count)
    else Step(Err(NotEnoughData(count, buf.bitLen - pos)), pos)
  }

  /**
   * `align`: on the ABSOLUTE cursor. Already on a byte boundary it yields 0
   * and stays; otherwise it skips to the next boundary and yields the 1..7
   * bits skipped, failing like `skip_bits` when they are not there.
   */
  function AlignStep(buf: BitReadBuffer, pos: nat): (s: Step<nat>)
    requires buf.Valid() && pos <= buf.bitLen
    ensures pos % 8 == 0 ==> s == Step(Ok(0), pos)
    ensures pos % 8 != 0 ==> (s.result.Ok? <==> 8 - pos % 8 <= buf.bitLen - pos)
    ensures s.result.Ok? ==> s.pos % 8 == 0 && s.pos == pos + s.result.value && s.result.value < 8
    ensures s.result.Ok? && pos % 8 != 0 ==> 1 <= s.result.value
    ensures s.result.Err? ==> s.pos == pos && s.result.error == NotEnoughData(8 - pos % 8, buf.bitLen - pos)
  {
    var n := pos % 8;
    if n == 0 then Step(Ok(0), pos)
    else
      var skipped := SkipStep(buf, pos, 8 - n);
      Step(if skipped.result.Ok? then Ok(8 - n) else Err(skipped.result.error), skipped.pos)
  }

  /** `set_pos`: a position relative to the window origin, at most the window's length. */
  function SetPosStep(buf: BitReadBuffer, startPos: nat, pos: nat, p: nat): (s: Step<()>)
    requires buf.Valid() && startPos <= pos <= buf.bitLen
    ensures s.result.Ok? <==> p <= buf.bitLen - startPos
    ensures s.result.Ok? ==> s.pos - startPos == p
    ensures s.result.Err? ==> s == Step(Err(IndexOutOfBounds(p, buf.bitLen - startPos)), pos)
  {
    if p > buf.bitLen - startPos then Step(Err(IndexOutOfBounds(p, buf.bitLen - startPos)), pos)
    else Step(Ok(()), p + startPos)
  }

  class BitReadStream {
    var buffer: BitReadBuffer
    var startPos: nat
    var pos: nat

    /** The window origin never passes the cursor, and the cursor never passes the window end. */
    ghost predicate Valid()
      reads this
    {
      buffer.Valid() && startPos <= pos <= buffer.bitLen
    }

    /** `BitReadStream::new`: a stream over the whole buffer, at position 0. */
    constructor (buffer: BitReadBuffer)
      requires buffer.Valid()
      ensures Valid() && this.buffer == buffer && Pos() == 0 && BitLen() == buffer.bitLen
    {
      this.buffer := buffer;
      this.startPos := 0;
      this.pos := 0;
    }

    /** A stream whose window starts at `at`: what `read_bits` and `clone` build. */
    constructor Window(buffer: BitReadBuffer, at: nat)
      requires buffer.Valid() && at <= buffer.bitLen
      ensures Valid() && this.buffer == buffer && startPos == at && pos == at
    {
      this.buffer := buffer;
      this.startPos := at;
      this.pos := at;
    }

    /** Length of the window in bits: from its origin to the end of the buffer. */
    function BitLen(): (n: nat)
      reads this
      requires Valid()
      ensures n <= buffer.bitLen && startPos + n == buffer.bitLen
    {
      buffer.bitLen - startPos
    }

    /** The cursor, relative to the window origin. */
    function Pos(): (p: nat)
      reads this
      requires Valid()
      ensures p <= BitLen()
    {
      pos - startPos
    }

    /** Bits between the cursor and the end of the window, in absolute terms too. */
    function BitsLeft(): (n: nat)
      reads this
      requires Valid()
      ensures Pos() + n == BitLen()
      ensures n == buffer.bitLen - pos
    {
      BitLen() - Pos()
    }

    /** `check_read`: whether `count` bits can be read, with the error a read would give. */
    function CheckRead(count: nat): (r: Result<()>)
      reads this
      requires Valid()
      ensures r.Ok? <==> count <= BitsLeft()
      ensures r.Err? ==> r.error == NotEnoughData(count, BitsLeft())
      ensures r == SkipStep(buffer, pos, count).result
    {
      if BitsLeft() < count then Err(NotEnoughData(count, BitsLeft())) else Ok(())
    }

    method ReadBool() returns (r: Result<bool>)
      requires Valid()
      modifies this`pos
      ensures Valid()
      ensures Step(r, pos) == BoolStep(buffer, old(pos))
    {
      r := buffer.ReadBool(pos);
      if r.Ok? {
        pos := pos + 1;
      }
    }

    /** The unchecked twin: the caller guarantees the bit is there; same value, same cursor. */
    method ReadBoolUnchecked() returns (b: bool)
      requires Valid() && 1 <= BitsLeft()
      modifies this`pos
      ensures Valid()
      ensures Step(Ok(b), pos) == BoolStep(buffer, old(pos))
    {
      b := buffer.ReadBoolUnchecked(pos);
      pos := pos + 1;
    }

    method ReadInt(t: IntType, count: nat) returns (r: Result<int>)
      requires Valid()
      modifies this`pos
      ensures Valid()
      ensures Step(r, pos) == IntStep(buffer, old(pos), t, count)
    {
      ghost var step := IntStep(buffer, pos, t, count);
      r := buffer.ReadInt(pos, t, count);
      if r.Ok? {
        pos := pos + count;
      }
      assert Step(r, pos) == step;
    }

    method ReadIntUnchecked(t: IntType, count: nat) returns (v: int)
      requires Valid() && count <= BitsLeft() && count <= t.Width()
      modifies this`pos
      ensures Valid()
      ensures Step(Ok(v), pos) == IntStep(buffer, old(pos), t, count)
    {
      v := buffer.ReadIntUnchecked(pos, t, count);
      pos := pos + count;
    }

    method ReadFloat(f: FloatType) returns (r: Result<nat>)
      requires Valid()
      modifies this`pos
      ensures Valid()
      ensures Step(r, pos) == FloatStep(buffer, old(pos), f)
    {
      var count := f.Width();
      r := buffer.ReadFloat(pos, f);
      if r.Ok? {
        pos := pos + count;
      }
    }

    method ReadFloatUnchecked(f: FloatType) returns (bits: nat)
      requires Valid() && f.Width() <= BitsLeft()
      modifies this`pos
      ensures Valid()
      ensures Step(Ok(bits), pos) == FloatStep(buffer, old(pos), f)
    {
      var count := f.Width();
      bits := buffer.ReadFloatUnchecked(pos, f);
      pos := pos + count;
    }

    method ReadBytes(byteCount: nat) returns (r: Result<seq<byte>>)
      requires Valid()
      modifies this`pos
      ensures Valid()
      ensures Step(r, pos) == BytesStep(buffer, old(pos), byteCount)
    {
      var count := byteCount * 8;
      r := buffer.ReadBytes(pos, byteCount);
      if r.Ok? {
        pos := pos + count;
      }
    }

    method ReadBytesUnchecked(byteCount: nat) returns (bs: seq<byte>)
      requires Valid() && byteCount * 8 <= BitsLeft()
      modifies this`pos
      ensures Valid()
      ensures Step(Ok(bs), pos) == BytesStep(buffer, old(pos), byteCount)
    {
      var count := byteCount * 8;
      bs := buffer.ReadBytesUnchecked(pos, byteCount);
      pos := pos + count;
    }

    method ReadString(byteLen: Option<nat>) returns (r: Result<seq<Char>>)
      requires Valid()
      modifies this`pos
      ensures Valid()
      ensures Step(r, pos) == StringStep(buffer, old(pos), byteLen)
    {
      var decoded := buffer.ReadString(pos, byteLen);
      ghost var left := buffer.bitLen - pos;
      ghost var step := StringStep(buffer, pos, byteLen);
      StringStepOutcome(buffer, pos, byteLen, decoded, left, step);
      r := AdvanceString(decoded, byteLen, pos, left, step);
    }

    /**
     * The second half of `read_string`: move the cursor past the decoded
     * string, cutting it to the window. The ghost `start`, `left` and `step`
     * carry the expected outcome in, so that the body does not unfold the
     * buffer's decode again.
     */
    method AdvanceString(decoded: Result<seq<Char>>, byteLen: Option<nat>, ghost start: nat, ghost left: nat,
                         ghost step: Step<seq<Char>>) returns (r: Result<seq<Char>>)
      requires Valid() && start == pos && left == buffer.bitLen - pos
      requires step == StringOutcome(decoded, start, byteLen, left) && step.pos <= buffer.bitLen
      modifies this`pos
      ensures Valid()
      ensures Step(r, pos) == step
    {
      var bitsLeft := BitsLeft();
      var maxLength := bitsLeft / 8;
      if decoded.Err? {
        // the cursor still moves past malformed UTF-8
        if decoded.error.Utf8Error? {
          pos := pos + MalformedAdvance(byteLen, |decoded.error.bytes|, maxLength);
        }
        return Err(decoded.error);
      }
      var result := decoded.value;
      var read := StringRead(byteLen, result);
      if read > bitsLeft {
        // keep the whole characters that fit in the window
        var acc := KeepFitting(result, maxLength);
        assert ByteLen(acc) * 8 <= bitsLeft;
        pos := pos + ByteLen(acc) * 8;
        return Ok(acc);
      }
      pos := pos + read;
      r := Ok(result);
    }

    /**
     * `read_bits`: a new stream over exactly the next `count` bits, sharing
     * the storage, at its own position 0; this stream moves past them. On
     * failure the error is the sub-buffer's, in absolute positions.
     */
    method ReadBits(count: nat) returns (r: Result<BitReadStream>)
      requires Valid()
      modifies this`pos
      ensures Valid()
      ensures r.Ok? <==> count <= old(BitsLeft())
      ensures r.Ok? ==> pos == old(pos) + count
      ensures r.Ok? ==> fresh(r.value) && r.value.Valid()
      ensures r.Ok? ==> r.value.buffer.bytes == buffer.bytes && r.value.startPos == old(pos)
      ensures r.Ok? ==> r.value.Pos() == 0 && r.value.BitLen() == count && r.value.BitsLeft() == count
      ensures r.Err? ==> pos == old(pos) && r.error == NotEnoughData(old(pos) + count, buffer.bitLen)
    {
      var sub := buffer.GetSubBuffer(pos + count);
      if sub.Err? {
        return Err(sub.error);
      }
      var window := new BitReadStream.Window(sub.value, pos);
      pos := pos + count;
      r := Ok(window);
    }

    method SkipBits(count: nat) returns (r: Result<()>)
      requires Valid()
      modifies this`pos
      ensures Valid()
      ensures Step(r, pos) == SkipStep(buffer, old(pos), count)
      ensures r == old(CheckRead(count))
    {
      if count <= BitsLeft() {
        pos := pos + count;
        r := Ok(());
      } else {
        r := Err(NotEnoughData(count, BitsLeft()));
      }
    }

    method Align() returns (r: Result<nat>)
      requires Valid()
      modifies this`pos
      ensures Valid()
      ensures Step(r, pos) == AlignStep(buffer, old(pos))
    {
      var n := pos % 8;
      if n == 0 {
        r := Ok(0);
      } else {
        var skipped := SkipBits(8 - n);
        r := if skipped.Ok? then Ok(8 - n) else Err(skipped.error);
      }
    }

    method SetPos(p: nat) returns (r: Result<()>)
      requires Valid()
      modifies this`pos
      ensures Valid() && BitLen() == old(BitLen())
      ensures Step(r, pos) == SetPosStep(buffer, startPos, old(pos), p)
      ensures r.Ok? ==> Pos() == p
    {
      if p > BitLen() {
        return Err(IndexOutOfBounds(p, BitLen()));
      }
      pos := p + startPos;
      r := Ok(());
    }

    /**
     * `clone`: an independent stream whose window starts at this stream's
     * cursor, so it sees the same bits left and none of those before.
     */
    method Clone() returns (c: BitReadStream)
      requires Valid()
      ensures fresh(c) && c.Valid()
      ensures c.buffer == buffer && c.startPos == pos
      ensures c.Pos() == 0 && c.BitsLeft() == BitsLeft()
    {
      c := new BitReadStream.Window(buffer, pos);
    }
  }
}
