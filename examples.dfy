module StreamExamples {
  import opened Results
  import opened Utf8
  import opened Buffer
  import opened ReadStream
  import opened ReadTraits

  /**
   * The eight bytes the stream's documentation reads from:
   * 1011_0101 0110_1010 1010_1100, four times 1001_1001, then 1110_0111.
   */
  predicate ExampleBytes(bytes: seq<byte>)
  {
    |bytes| == 8 && bytes[0] == 0xB5 && bytes[1] == 0x6A && bytes[2] == 0xAC &&
    bytes[3] == 0x99 && bytes[4] == 0x99 && bytes[5] == 0x99 && bytes[6] == 0x99 && bytes[7] == 0xE7
  }

  /** The documented buffer: those bytes, all 64 bits readable. */
  predicate IsExample(buf: BitReadBuffer)
  {
    ExampleBytes(buf.bytes) && buf.bitLen == 64
  }

  function ExampleBuffer(): (b: BitReadBuffer)
    ensures IsExample(b)
  {
    BitReadBuffer([0xB5, 0x6A, 0xAC, 0x99, 0x99, 0x99, 0x99, 0xE7], 64)
  }

  /** `c` bits from bit `o` of byte `j`, when that byte is `b`, are `v`. */
  lemma Field(buf: BitReadBuffer, pos: nat, j: nat, o: nat, c: nat, shift: nat, mask: nat, b: nat, v: nat)
    requires j < |buf.bytes| && pos == 8 * j + o && o + c <= 8
    requires shift == Pow2(o) && mask == Pow2(c) && buf.bytes[j] == b && v == b / shift % mask
    ensures buf.Unsigned(pos, c) == v
  {
    buf.BitsInByte(j, o, c, shift, mask);
  }

  /** Two runs of bits next to each other, the second weighted by `w` = 2^a. */
  lemma Concat(buf: BitReadBuffer, pos: nat, a: nat, b: nat, w: nat, lo: nat, hi: nat, v: nat)
    requires pos + a + b <= |buf.bytes| * 8 && w == Pow2(a)
    requires buf.Unsigned(pos, a) == lo && buf.Unsigned(pos + a, b) == hi && v == lo + w * hi
    ensures buf.Unsigned(pos, a + b) == v
  {
    buf.UnsignedSplit(pos, a, b);
  }

  /** Bits 0 and 1, the two low bits of the first byte: set, then clear. */
  lemma FirstBits(buf: BitReadBuffer)
    requires ExampleBytes(buf.bytes)
    ensures buf.Bit(0) == 1 && buf.Bit(1) == 0
  {
    Field(buf, 0, 0, 0, 1, 1, 2, 0xB5, 1);
    Field(buf, 1, 0, 1, 1, 2, 2, 0xB5, 0);
    assert buf.Unsigned(0, 1) == buf.Bit(0) && buf.Unsigned(1, 1) == buf.Bit(1);
  }

  /** The first two 3-bit fields: 0b101 and 0b110. */
  lemma ThreeBitFields(buf: BitReadBuffer)
    requires ExampleBytes(buf.bytes)
    ensures buf.Unsigned(0, 3) == 5 && buf.Unsigned(3, 3) == 6
  {
    Field(buf, 0, 0, 0, 3, 1, 8, 0xB5, 5);
    Field(buf, 3, 0, 3, 3, 8, 8, 0xB5, 6);
  }

  /** The low nibble of the second byte, 0b1010. */
  lemma SecondNibble(buf: BitReadBuffer)
    requires ExampleBytes(buf.bytes)
    ensures buf.Unsigned(8, 4) == 10
  {
    Field(buf, 8, 1, 0, 4, 1, 16, 0x6A, 10);
  }

  /** The first byte whole, and its low seven bits. */
  lemma FirstByte(buf: BitReadBuffer)
    requires ExampleBytes(buf.bytes)
    ensures buf.Unsigned(0, 8) == 0xB5 && buf.Unsigned(0, 7) == 0x35
  {
    Field(buf, 0, 0, 0, 8, 1, 256, 0xB5, 0xB5);
    Field(buf, 0, 0, 0, 7, 1, 128, 0xB5, 0x35);
  }

  /** Bit 8, the low bit of the second byte, is clear; bit 23, the top bit of the third, is set. */
  lemma SingleBits(buf: BitReadBuffer)
    requires ExampleBytes(buf.bytes)
    ensures buf.Bit(8) == 0 && buf.Bit(23) == 1
  {
    Field(buf, 8, 1, 0, 1, 1, 2, 0x6A, 0);
    Field(buf, 23, 2, 7, 1, 128, 2, 0xAC, 1);
    assert buf.Unsigned(8, 1) == buf.Bit(8) && buf.Unsigned(23, 1) == buf.Bit(23);
  }

  /** 15 bits from bit 8 straddle the second and third bytes. */
  lemma FifteenBits(buf: BitReadBuffer)
    requires ExampleBytes(buf.bytes)
    ensures buf.Unsigned(8, 15) == 0x2C6A
  {
    Field(buf, 8, 1, 0, 8, 1, 256, 0x6A, 0x6A);
    Field(buf, 16, 2, 0, 7, 1, 128, 0xAC, 0x2C);
    Concat(buf, 8, 8, 7, 256, 0x6A, 0x2C, 0x2C6A);
  }

  /** The first 16-bit word: the first byte low, the second high. */
  lemma FirstWord(buf: BitReadBuffer)
    requires ExampleBytes(buf.bytes)
    ensures buf.Unsigned(0, 16) == 0x6AB5
  {
    Field(buf, 0, 0, 0, 8, 1, 256, 0xB5, 0xB5);
    Field(buf, 8, 1, 0, 8, 1, 256, 0x6A, 0x6A);
    Concat(buf, 0, 8, 8, 256, 0xB5, 0x6A, 0x6AB5);
  }

  lemma SecondWord(buf: BitReadBuffer)
    requires ExampleBytes(buf.bytes)
    ensures buf.Unsigned(16, 16) == 0x99AC
  {
    Field(buf, 16, 2, 0, 8, 1, 256, 0xAC, 0xAC);
    Field(buf, 24, 3, 0, 8, 1, 256, 0x99, 0x99);
    Concat(buf, 16, 8, 8, 256, 0xAC, 0x99, 0x99AC);
  }

  lemma ThirdWord(buf: BitReadBuffer)
    requires ExampleBytes(buf.bytes)
    ensures buf.Unsigned(32, 16) == 0x9999
  {
    Field(buf, 32, 4, 0, 8, 1, 256, 0x99, 0x99);
    Field(buf, 40, 5, 0, 8, 1, 256, 0x99, 0x99);
    Concat(buf, 32, 8, 8, 256, 0x99, 0x99, 0x9999);
  }

  /** `read_bool` twice: true, then false. */
  lemma BoolSteps(buf: BitReadBuffer)
    requires IsExample(buf)
    ensures BoolStep(buf, 0) == Step(Ok(true), 1)
    ensures BoolStep(buf, 1) == Step(Ok(false), 2)
  {
    FirstBits(buf);
  }

  /** Three-bit reads from bit 0 and bit 3: 0b101, then 0b110, as `u16` or `u8`. */
  lemma IntSteps(buf: BitReadBuffer)
    requires IsExample(buf)
    ensures IntStep(buf, 0, U16, 3) == Step(Ok(5), 3)
    ensures IntStep(buf, 3, U16, 3) == Step(Ok(6), 6)
    ensures IntStep(buf, 3, U8, 3) == Step(Ok(6), 6)
  {
    ThreeBitFields(buf);
  }

  /** `read_int::<u8>(4)` at bit 8: 0b1010. */
  lemma NibbleStep(buf: BitReadBuffer)
    requires IsExample(buf)
    ensures IntStep(buf, 8, U8, 4) == Step(Ok(10), 12)
  {
    SecondNibble(buf);
  }

  /** An unsigned full-width read yields the bits as they are. */
  lemma UnsignedRead(buf: BitReadBuffer, pos: nat, t: IntType, v: nat)
    requires buf.Valid() && !t.IsSigned() && pos + t.Width() <= buf.bitLen
    requires buf.Unsigned(pos, t.Width()) == v
    ensures ReadSpec(buf, pos, Int(t)) == Step(Ok(IntV(v)), pos + t.Width())
  {
    ReadIntValue(buf, pos, t);
  }

  /** An unsigned sized read yields the bits as they are. */
  lemma UnsignedSizedRead(buf: BitReadBuffer, pos: nat, t: IntType, size: nat, v: nat)
    requires buf.Valid() && !t.IsSigned() && size <= t.Width() && pos + size <= buf.bitLen
    requires buf.Unsigned(pos, size) == v
    ensures ReadSizedSpec(buf, pos, SizedInt(t), size) == Step(Ok(IntV(v)), pos + size)
  {
    ReadSizedInt(buf, pos, t, size);
  }

  /** A bool read yields whether the bit is set. */
  lemma BoolRead(buf: BitReadBuffer, pos: nat, b: bool)
    requires buf.Valid() && pos < buf.bitLen && buf.Bit(pos) == if b then 1 else 0
    ensures ReadSpec(buf, pos, Bool) == Step(Ok(BoolV(b)), pos + 1)
  {
  }

  /** `read::<u8>` then `read::<bool>`: the first byte, then the clear bit after it. */
  lemma ReadSteps(buf: BitReadBuffer)
    requires IsExample(buf)
    ensures ReadSpec(buf, 0, Int(U8)) == Step(Ok(IntV(0xB5)), 8)
    ensures ReadSpec(buf, 8, Bool) == Step(Ok(BoolV(false)), 9)
  {
    FirstByte(buf);
    SingleBits(buf);
    UnsignedRead(buf, 0, U8, 0xB5);
    BoolRead(buf, 8, false);
  }

  /**
   * A struct of a `u8`, a `u16` of 15 bits and a `bool`, read field after
   * field as its derived reader does: after the first byte (`ReadSteps`)
   * come 0b010_1100_0110_1010 and a set bit.
   */
  lemma StructSteps(buf: BitReadBuffer)
    requires IsExample(buf)
    ensures ReadSizedSpec(buf, 8, SizedInt(U16), 15) == Step(Ok(IntV(0x2C6A)), 23)
    ensures ReadSpec(buf, 23, Bool) == Step(Ok(BoolV(true)), 24)
  {
    FifteenBits(buf);
    SingleBits(buf);
    UnsignedSizedRead(buf, 8, U16, 15, 0x2C6A);
    BoolRead(buf, 23, true);
  }

  /** `read_sized::<u8>(7)`: the low seven bits of the first byte. */
  lemma SevenBitStep(buf: BitReadBuffer)
    requires IsExample(buf)
    ensures ReadSizedSpec(buf, 0, SizedInt(U8), 7) == Step(Ok(IntV(0x35)), 7)
  {
    FirstByte(buf);
    UnsignedSizedRead(buf, 0, U8, 7, 0x35);
  }

  /** `read::<u16>` three times from the start: the first three words. */
  lemma FirstWordStep(buf: BitReadBuffer)
    requires IsExample(buf)
    ensures ReadSpec(buf, 0, Int(U16)) == Step(Ok(IntV(0x6AB5)), 16)
  {
    FirstWord(buf);
    UnsignedRead(buf, 0, U16, 0x6AB5);
  }

  lemma SecondWordStep(buf: BitReadBuffer)
    requires IsExample(buf)
    ensures ReadSpec(buf, 16, Int(U16)) == Step(Ok(IntV(0x99AC)), 32)
  {
    SecondWord(buf);
    UnsignedRead(buf, 16, U16, 0x99AC);
  }

  lemma ThirdWordStep(buf: BitReadBuffer)
    requires IsExample(buf)
    ensures ReadSpec(buf, 32, Int(U16)) == Step(Ok(IntV(0x9999)), 48)
  {
    ThirdWord(buf);
    UnsignedRead(buf, 32, U16, 0x9999);
  }

  /** Three successful reads in a row make a run of three values. */
  lemma ThreeReads(read: nat --> Step<Value>, bound: nat, p0: nat, p1: nat, p2: nat, p3: nat,
                   v0: Value, v1: Value, v2: Value)
    requires Stays(read, bound) && p0 <= bound
    requires read(p0) == Step(Ok(v0), p1) && read(p1) == Step(Ok(v1), p2) && read(p2) == Step(Ok(v2), p3)
    ensures Repeat(read, bound, p0, 3) == Step(Ok([v0, v1, v2]), p3)
  {
    assert Repeat(read, bound, p0, 0) == Step(Ok([]), p0);
    assert [] + [v0] == [v0];
    assert Repeat(read, bound, p0, 1) == Step(Ok([v0]), p1);
    assert [v0] + [v1] == [v0, v1];
    assert Repeat(read, bound, p0, 2) == Step(Ok([v0, v1]), p2);
    assert [v0, v1] + [v2] == [v0, v1, v2];
  }

  /** The element reader of a `Vec<u16>` over the example buffer meets the three words. */
  lemma WordReads(buf: BitReadBuffer)
    requires IsExample(buf)
    ensures var read := ElemReader(buf, Int(U16));
            read(0) == Step(Ok(IntV(0x6AB5)), 16) && read(16) == Step(Ok(IntV(0x99AC)), 32) &&
            read(32) == Step(Ok(IntV(0x9999)), 48)
  {
    FirstWordStep(buf);
    SecondWordStep(buf);
    ThirdWordStep(buf);
  }

  /** A vector read is the run of its element reads, as one value. */
  lemma VecRead(buf: BitReadBuffer, pos: nat, elem: ReadType, n: nat, vs: seq<Value>, q: nat)
    requires buf.Valid() && pos <= buf.bitLen
    requires Repeat(ElemReader(buf, elem), buf.bitLen, pos, n) == Step(Ok(vs), q)
    ensures ReadSizedSpec(buf, pos, VecOf(elem), n) == Step(Ok(VecV(vs)), q)
  {
  }

  /** Three element reads of a `Vec<u16>` from the start: the three words. */
  lemma WordRun(buf: BitReadBuffer)
    requires IsExample(buf)
    ensures Repeat(ElemReader(buf, Int(U16)), buf.bitLen, 0, 3) ==
            Step(Ok([IntV(0x6AB5), IntV(0x99AC), IntV(0x9999)]), 48)
  {
    WordReads(buf);
    ThreeReads(ElemReader(buf, Int(U16)), buf.bitLen, 0, 16, 32, 48, IntV(0x6AB5), IntV(0x99AC), IntV(0x9999));
  }

  /** `read_sized::<Vec<u16>>(3)`: three consecutive words. */
  lemma VecStep(buf: BitReadBuffer)
    requires IsExample(buf)
    ensures ReadSizedSpec(buf, 0, VecOf(Int(U16)), 3) ==
            Step(Ok(VecV([IntV(0x6AB5), IntV(0x99AC), IntV(0x9999)])), 48)
  {
    WordRun(buf);
    VecRead(buf, 0, Int(U16), 3, [IntV(0x6AB5), IntV(0x99AC), IntV(0x9999)], 48);
  }

  /** `read_bytes(3)` at the start: the three stored bytes unchanged. */
  lemma BytesSteps(buf: BitReadBuffer)
    requires IsExample(buf)
    ensures BytesStep(buf, 0, 3) == Step(Ok([0xB5, 0x6A, 0xAC]), 24)
  {
    buf.AlignedBytes(0, 3);
    assert buf.bytes[0..3] == [0xB5, 0x6A, 0xAC];
  }

  /**
   * The window `read_bits(3)` hands out shares the storage but ends at bit 3:
   * its three bits are 0b101 and a fourth is not there.
   */
  lemma WindowSteps(sub: BitReadBuffer)
    requires ExampleBytes(sub.bytes) && sub.bitLen == 3
    ensures IntStep(sub, 0, U8, 3) == Step(Ok(5), 3)
    ensures IntStep(sub, 3, U8, 1) == Step(Err(NotEnoughData(1, 0)), 3)
  {
    ThreeBitFields(sub);
  }

  /** "Hello world" as characters. */
  const HelloWorld: seq<Char> := [0x48, 0x65, 0x6C, 0x6C, 0x6F, 0x20, 0x77, 0x6F, 0x72, 0x6C, 0x64]

  /** The eleven codes of "Hello world", one by one. */
  predicate HelloChars(s: seq<int>)
  {
    |s| == 11 && s[0] == 0x48 && s[1] == 0x65 && s[2] == 0x6C && s[3] == 0x6C && s[4] == 0x6F &&
    s[5] == 0x20 && s[6] == 0x77 && s[7] == 0x6F && s[8] == 0x72 && s[9] == 0x6C && s[10] == 0x64
  }

  /** The storage of the documented string example: "Hello world", a NUL, four NULs of padding. */
  predicate HelloBytes(bytes: seq<byte>)
  {
    |bytes| == 16 && bytes[0] == 0x48 && bytes[1] == 0x65 && bytes[2] == 0x6C && bytes[3] == 0x6C &&
    bytes[4] == 0x6F && bytes[5] == 0x20 && bytes[6] == 0x77 && bytes[7] == 0x6F && bytes[8] == 0x72 &&
    bytes[9] == 0x6C && bytes[10] == 0x64 && bytes[11] == 0 && bytes[12] == 0 && bytes[13] == 0 &&
    bytes[14] == 0 && bytes[15] == 0
  }

  function HelloBuffer(): (b: BitReadBuffer)
    ensures HelloBytes(b.bytes) && b.bitLen == 128
  {
    var front: seq<byte> := [0x48, 0x65, 0x6C, 0x6C, 0x6F, 0x20, 0x77, 0x6F];
    var back: seq<byte> := [0x72, 0x6C, 0x64, 0, 0, 0, 0, 0];
    BitReadBuffer(front + back, 128)
  }

  /** Any string with those eleven codes is "Hello world". */
  lemma IsHelloWorld(s: seq<int>)
    requires HelloChars(s)
    ensures s == HelloWorld
  {
  }

  /** The storage holds ASCII only, and its first NUL is at byte 11. */
  lemma HelloAscii(bytes: seq<byte>)
    requires HelloBytes(bytes)
    ensures forall i | 0 <= i < 16 :: bytes[i] < 0x80
    ensures 0 !in bytes[..11] && HelloChars(bytes[..11])
  {
  }

  /** The first `n` whole bytes of the storage decode to themselves. */
  lemma HelloDecodes(buf: BitReadBuffer, n: nat)
    requires HelloBytes(buf.bytes) && n <= 16
    ensures buf.BytesAt(0, n) == buf.bytes[..n]
    ensures Decode(buf.bytes[..n]) == Some(buf.bytes[..n])
  {
    HelloAscii(buf.bytes);
    buf.AlignedBytes(0, n);
    DecodeAscii(buf.bytes[..n]);
  }

  /** Cut at the first NUL, the first 11 to 16 bytes, as bytes or as characters, are "Hello world". */
  lemma HelloCut(buf: BitReadBuffer, n: nat)
    requires HelloBytes(buf.bytes) && 11 <= n <= 16
    ensures UpToNul(buf.bytes[..n], 0) == buf.bytes[..11]
    ensures var chars: seq<Char> := buf.bytes[..n]; UpToNul(chars, 0) == buf.bytes[..11]
  {
    HelloAscii(buf.bytes);
    var bytes := buf.bytes[..n];
    var chars: seq<Char> := bytes;
    assert bytes[..11] == chars[..11] == buf.bytes[..11];
    UpToNulAt(bytes, 0, 11);
    UpToNulAt(chars, 0, 11);
  }

  /** A fixed-length string of 11 or 16 bytes from the start is "Hello world". */
  lemma SizedHello(buf: BitReadBuffer, n: nat)
    requires HelloBytes(buf.bytes) && buf.bitLen == 128 && 11 <= n <= 16
    ensures buf.ReadString(0, Some(n)) == Ok(HelloWorld)
  {
    var bs := buf.bytes[..n];
    HelloDecodes(buf, n);
    assert buf.ReadBytes(0, n) == Ok(bs);
    var chars: seq<Char> := bs;
    assert Decode(bs) == Some(chars);
    HelloCut(buf, n);
    HelloAscii(buf.bytes);
    IsHelloWorld(buf.bytes[..11]);
    assert UpToNul(chars, 0) == HelloWorld;
  }

  /**
   * `read_string(Some(11))` takes "Hello world", 88 bits; `read_string(Some(16))`
   * takes all 16 bytes and drops the NUL padding, 128 bits.
   */
  lemma SizedStringSteps(buf: BitReadBuffer)
    requires HelloBytes(buf.bytes) && buf.bitLen == 128
    ensures StringStep(buf, 0, Some(11)) == Step(Ok(HelloWorld), 88)
    ensures StringStep(buf, 0, Some(16)) == Step(Ok(HelloWorld), 128)
  {
    SizedHello(buf, 11);
    SizedHello(buf, 16);
    SizedStringNotCut(buf, 0, 11);
    SizedStringNotCut(buf, 0, 16);
  }

  /** The scan for the terminator stops after the 11 bytes of "Hello world". */
  lemma HelloScan(buf: BitReadBuffer)
    requires HelloBytes(buf.bytes)
    ensures buf.ScanToNul(0) == buf.bytes[..11]
  {
    HelloDecodes(buf, 11);
    HelloAscii(buf.bytes);
    buf.AlignedByte(88);
    buf.ScanToNulAt(0, 11);
  }

  /** A NUL-terminated string from the start is "Hello world", 11 bytes long. */
  lemma TerminatedHello(buf: BitReadBuffer)
    requires HelloBytes(buf.bytes) && buf.bitLen <= 128
    ensures buf.ReadString(0, None) == Ok(HelloWorld) && |buf.ScanToNul(0)| == 11
  {
    HelloScan(buf);
    HelloDecodes(buf, 11);
    HelloAscii(buf.bytes);
    IsHelloWorld(buf.bytes[..11]);
  }

  /** `read_string(None)`: "Hello world" and its terminator, 96 bits. */
  lemma TerminatedStringStep(buf: BitReadBuffer)
    requires HelloBytes(buf.bytes) && buf.bitLen == 128
    ensures StringStep(buf, 0, None) == Step(Ok(HelloWorld), 96)
  {
    TerminatedHello(buf);
    UnsizedStringStep(buf, 0);
  }

  /** ASCII text takes one byte per character. */
  lemma {:induction false} AsciiByteLen(s: seq<Char>)
    requires forall i | 0 <= i < |s| :: s[i] < 0x80
    ensures ByteLen(s) == |s|
  {
    if s != [] {
      AsciiByteLen(s[1..]);
    }
  }

  /** "Hello" is the longest prefix of "Hello world" that fits in five bytes. */
  lemma HelloFitsFive()
    ensures FitPrefix(HelloWorld, 5) == HelloWorld[..5]
  {
    var p := HelloWorld[..5];
    AsciiByteLen(p);
    FitPrefixUnique(HelloWorld, 5, p);
  }

  /**
   * In a window of 40 bits the terminator lies outside, so the string is cut
   * to "Hello", which fills the window exactly.
   */
  lemma CutStringStep(sub: BitReadBuffer)
    requires HelloBytes(sub.bytes) && sub.bitLen == 40
    ensures StringStep(sub, 0, None) == Step(Ok(HelloWorld[..5]), 40)
  {
    TerminatedHello(sub);
    UnsizedStringStep(sub, 0);
    HelloFitsFive();
  }

  /** Storage whose string starts with 0xFF, which no UTF-8 encoding holds: FF 41 00 00. */
  predicate MalformedBytes(bytes: seq<byte>)
  {
    |bytes| == 4 && bytes[0] == 0xFF && bytes[1] == 0x41 && bytes[2] == 0 && bytes[3] == 0
  }

  /**
   * A malformed NUL-terminated string reports the two bytes before the
   * terminator and moves the cursor by min(3 * 8, 32 / 8) = 4 bits: the
   * bound it takes the minimum with counts bytes, not bits.
   */
  lemma MalformedStringStep(buf: BitReadBuffer)
    requires MalformedBytes(buf.bytes) && buf.bitLen == 32
    ensures StringStep(buf, 0, None) == Step(Err(Utf8Error([0xFF, 0x41])), 4)
  {
    buf.AlignedBytes(0, 2);
    assert buf.BytesAt(0, 2) == [0xFF, 0x41];
    buf.AlignedByte(16);
    buf.ScanToNulAt(0, 2);
    assert Decode([0xFF, 0x41]) == None;
  }

  // The documented calls on a stream, one method per example.

  /**
   * `read_string(None)` in a window over the first 40 bits of the "Hello
   * world" storage. The terminator lies outside the window, so the string is
   * cut to the whole characters that fit, "Hello", and the window is used up.
   */
  method CutStringExample(buf: BitReadBuffer) returns (r: Result<seq<Char>>, pos: nat)
    requires HelloBytes(buf.bytes) && buf.bitLen == 128
    ensures r == Ok(HelloWorld[..5]) && pos == 40
  {
    var s := new BitReadStream(buf);
    var bits := s.ReadBits(40);
    var w := bits.value;
    CutStringStep(w.buffer);
    r := w.ReadString(None);
    pos := w.Pos();
  }

  /** CutStringExample on the storage the documentation example builds. */
  method CutHelloExample() returns (r: Result<seq<Char>>, pos: nat)
    ensures r == Ok(HelloWorld[..5]) && pos == 40
  {
    r, pos := CutStringExample(HelloBuffer());
  }

  /** `read_bool` twice: true, then false, at position 2. */
  method BoolsExample(buf: BitReadBuffer) returns (first: Result<bool>, second: Result<bool>, pos: nat)
    requires IsExample(buf)
    ensures first == Ok(true) && second == Ok(false) && pos == 2
  {
    BoolSteps(buf);
    var s := new BitReadStream(buf);
    first := s.ReadBool();
    second := s.ReadBool();
    pos := s.Pos();
  }

  /** `read_int::<u16>(3)` twice: 0b101, then 0b110, at position 6. */
  method IntsExample(buf: BitReadBuffer) returns (first: Result<int>, second: Result<int>, pos: nat)
    requires IsExample(buf)
    ensures first == Ok(5) && second == Ok(6) && pos == 6
  {
    IntSteps(buf);
    var s := new BitReadStream(buf);
    first := s.ReadInt(U16, 3);
    second := s.ReadInt(U16, 3);
    pos := s.Pos();
  }

  /** An `f32` from the start of the documented buffer is its first 32 bits. */
  lemma FloatStepAtStart(buf: BitReadBuffer)
    requires IsExample(buf)
    ensures FloatStep(buf, 0, F32) == Step(Ok(buf.Unsigned(0, 32)), 32)
  {
  }

  /** `read_float::<f32>`: the first 32 bits, at position 32. */
  method FloatExample(buf: BitReadBuffer) returns (r: Result<nat>, pos: nat)
    requires IsExample(buf)
    ensures r == Ok(buf.Unsigned(0, 32)) && pos == 32
  {
    FloatStepAtStart(buf);
    var s := new BitReadStream(buf);
    r := s.ReadFloat(F32);
    pos := s.Pos();
  }

  /** `read_bytes(3)`: the first three bytes, at position 24. */
  method BytesExample(buf: BitReadBuffer) returns (r: Result<seq<byte>>, pos: nat)
    requires IsExample(buf)
    ensures r == Ok([0xB5, 0x6A, 0xAC]) && pos == 24
  {
    BytesSteps(buf);
    var s := new BitReadStream(buf);
    r := s.ReadBytes(3);
    pos := s.Pos();
  }

  /**
   * `read_string` three times from position 0: 11 fixed bytes, 16 fixed bytes
   * with NUL padding, and NUL-terminated; "Hello world" each time, at
   * positions 88, 128 and 96.
   */
  method StringsExample(buf: BitReadBuffer)
    returns (fixed: Result<seq<Char>>, padded: Result<seq<Char>>, terminated: Result<seq<Char>>,
             fixedPos: nat, paddedPos: nat, terminatedPos: nat)
    requires HelloBytes(buf.bytes) && buf.bitLen == 128
    ensures fixed == padded == terminated == Ok(HelloWorld)
    ensures fixedPos == 88 && paddedPos == 128 && terminatedPos == 96
  {
    var s := new BitReadStream(buf);
    var _ := s.SetPos(0);
    SizedStringSteps(buf);
    fixed := s.ReadString(Some(11));
    fixedPos := s.Pos();
    var _ := s.SetPos(0);
    assert s.pos == 0;
    padded := s.ReadString(Some(16));
    paddedPos := s.Pos();
    var _ := s.SetPos(0);
    assert s.pos == 0;
    TerminatedStringStep(buf);
    terminated := s.ReadString(None);
    terminatedPos := s.Pos();
  }

  /**
   * `read_bits(3)`: the parent moves to 3 and reads 0b110 next; the window
   * starts at 0, is 3 bits long, reads 0b101 and then has no bit left.
   */
  method ReadBitsExample(buf: BitReadBuffer)
    returns (parentPos: nat, windowPos: nat, windowLen: nat, parentInt: Result<int>,
             windowInt: Result<int>, overrun: Result<int>)
    requires IsExample(buf)
    ensures parentPos == 3 && windowPos == 0 && windowLen == 3
    ensures parentInt == Ok(6) && windowInt == Ok(5) && overrun.Err?
  {
    IntSteps(buf);
    var s := new BitReadStream(buf);
    var bits := s.ReadBits(3);
    var w := bits.value;
    parentPos := s.Pos();
    windowPos := w.Pos();
    windowLen := w.BitLen();
    parentInt := s.ReadInt(U8, 3);
    WindowSteps(w.buffer);
    windowInt := w.ReadInt(U8, 3);
    overrun := w.ReadInt(U8, 1);
  }

  /** `skip_bits(3)` moves to position 3, where `read_int::<u8>(3)` gives 0b110. */
  method SkipExample(buf: BitReadBuffer) returns (pos: nat, next: Result<int>)
    requires IsExample(buf)
    ensures pos == 3 && next == Ok(6)
  {
    IntSteps(buf);
    var s := new BitReadStream(buf);
    var _ := s.SkipBits(3);
    pos := s.Pos();
    next := s.ReadInt(U8, 3);
  }

  /**
   * `align` at position 0 skips nothing; after `skip_bits(3)` it skips 5 bits
   * to reach 8, where `read_int::<u8>(4)` gives 0b1010.
   */
  method AlignExample(buf: BitReadBuffer)
    returns (firstSkip: Result<nat>, first: nat, skipped: nat, secondSkip: Result<nat>, aligned: nat, next: Result<int>)
    requires IsExample(buf)
    ensures firstSkip == Ok(0) && first == 0 && skipped == 3
    ensures secondSkip == Ok(5) && aligned == 8 && next == Ok(10)
  {
    NibbleStep(buf);
    var s := new BitReadStream(buf);
    firstSkip := s.Align();
    first := s.Pos();
    var _ := s.SkipBits(3);
    skipped := s.Pos();
    secondSkip := s.Align();
    aligned := s.Pos();
    next := s.ReadInt(U8, 4);
  }

  /**
   * `align` works on the absolute cursor. A window that `read_bits(8)` hands
   * out at storage bit 3 is at its own position 0, yet `align` skips 5 bits
   * in it, to storage bit 8.
   */
  method AlignWindowExample() returns (skip: Result<nat>, pos: nat)
    ensures skip == Ok(5) && pos == 5
  {
    var s := new BitReadStream(ExampleBuffer());
    var _ := s.SkipBits(3);
    var bits := s.ReadBits(8);
    var w := bits.value;
    skip := w.Align();
    pos := w.Pos();
  }

  /** `set_pos(3)` moves to position 3, where `read_int::<u8>(3)` gives 0b110. */
  method SetPosExample(buf: BitReadBuffer) returns (r: Result<()>, pos: nat, next: Result<int>)
    requires IsExample(buf)
    ensures r == Ok(()) && pos == 3 && next == Ok(6)
  {
    IntSteps(buf);
    var s := new BitReadStream(buf);
    r := s.SetPos(3);
    pos := s.Pos();
    next := s.ReadInt(U8, 3);
  }

  /**
   * A fresh stream over the documented buffer is 64 bits long at position 0
   * with 64 bits left; `skip_bits(5)` moves it to 5 with 59 left.
   */
  method LengthsExample(buf: BitReadBuffer) returns (len: nat, pos: nat, left: nat, skippedPos: nat, skippedLeft: nat)
    requires IsExample(buf)
    ensures len == 64 && pos == 0 && left == 64 && skippedPos == 5 && skippedLeft == 59
  {
    var s := new BitReadStream(buf);
    len := s.BitLen();
    pos := s.Pos();
    left := s.BitsLeft();
    var _ := s.SkipBits(5);
    skippedPos := s.Pos();
    skippedLeft := s.BitsLeft();
  }

  /** `read` of a `u8` then a `bool`: 0b1011_0101, then false. */
  method ReadExample(buf: BitReadBuffer) returns (number: Result<Value>, boolean: Result<Value>)
    requires IsExample(buf)
    ensures number == Ok(IntV(0xB5)) && boolean == Ok(BoolV(false))
  {
    ReadSteps(buf);
    var s := new BitReadStream(buf);
    number := Read(s, Int(U8));
    boolean := Read(s, Bool);
  }

  /**
   * A derived struct reader reads its fields in order: a `u8`, a `u16` of
   * 15 bits and a `bool` give 0b1011_0101, 0b010_1100_0110_1010 and true.
   */
  method StructExample(buf: BitReadBuffer) returns (first: Result<Value>, second: Result<Value>, third: Result<Value>)
    requires IsExample(buf)
    ensures first == Ok(IntV(0xB5)) && second == Ok(IntV(0x2C6A)) && third == Ok(BoolV(true))
  {
    ReadSteps(buf);
    StructSteps(buf);
    var s := new BitReadStream(buf);
    first := Read(s, Int(U8));
    second := ReadSized(s, SizedInt(U16), 15);
    third := Read(s, Bool);
  }

  /** `read_sized::<u8>(7)`: 0b011_0101. */
  method ReadSizedExample(buf: BitReadBuffer) returns (number: Result<Value>)
    requires IsExample(buf)
    ensures number == Ok(IntV(0x35))
  {
    SevenBitStep(buf);
    var s := new BitReadStream(buf);
    number := ReadSized(s, SizedInt(U8), 7);
  }

  /** `read_sized::<Vec<u16>>(3)`: the first three 16-bit words. */
  method VecExample(buf: BitReadBuffer) returns (data: Result<Value>)
    requires IsExample(buf)
    ensures data == Ok(VecV([IntV(0x6AB5), IntV(0x99AC), IntV(0x9999)]))
  {
    VecStep(buf);
    var s := new BitReadStream(buf);
    data := ReadSized(s, VecOf(Int(U16)), 3);
  }
}
