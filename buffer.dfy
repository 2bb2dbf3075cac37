/**
 * `BitReadBuffer` with the little-endian policy: immutable byte storage and a
 * logical length in bits, read at explicit bit positions. The storage may
 * extend past the logical length (a sub-buffer shares its parent's bytes), so
 * every checked read is bounded by `bitLen`, never by the storage size.
 */
module Buffer {
  import opened Results
  import opened Utf8

  function Pow2(n: nat): (r: nat)
    ensures r >= 1
  {
    if n == 0 then 1 else 2 * Pow2(n - 1)
  }

  lemma {:induction false} Pow2Monotonic(m: nat, n: nat)
    requires m <= n
    ensures Pow2(m) <= Pow2(n)
  {
    if m < n {
      Pow2Monotonic(m, n - 1);
    }
  }

  /** The arithmetic of one step of UnsignedSplit, kept apart from the function unfoldings. */
  lemma SplitStep(bit: int, x: int, y: int, p: int, pa: int, u: int)
    requires pa == 2 * p && y == x + p * u
    ensures bit + 2 * y == (bit + 2 * x) + pa * u
  {
  }

  /** The arithmetic of one step of UnsignedInByte: the low bit of `x` and the rest above it. */
  lemma ByteStep(x: nat, hi: int, lo: int, pc: int, pc1: int)
    requires pc == 2 * pc1 && lo + pc1 * hi == x / 2
    ensures (x % 2 + 2 * lo) + pc * hi == x
  {
  }

  /** A sum whose weighted high part is zero is its low part. */
  lemma DropZero(lo: int, w: int, hi: int, x: int)
    requires lo + w * hi == x && hi == 0
    ensures lo == x
  {
  }

  /** `b >> o` on a non-negative value. */
  function Shr(b: nat, o: nat): nat
  {
    if o == 0 then b else Shr(b / 2, o - 1)
  }

  lemma {:induction false} ShrSucc(b: nat, o: nat)
    ensures Shr(b, o + 1) == Shr(b, o) / 2
  {
    if o > 0 {
      ShrSucc(b / 2, o - 1);
    }
  }

  lemma {:induction false} ShrSmall(b: nat, o: nat)
    requires b < Pow2(o)
    ensures Shr(b, o) == 0
  {
    if o > 0 {
      ShrSmall(b / 2, o - 1);
    }
  }

  /** The only multiple of `d` strictly between `-d` and `d` is 0. */
  lemma MulBetween(d: int, k: int)
    requires d > 0 && -d < d * k < d
    ensures k == 0
  {
  }

  /** Euclidean division is unique: a quotient and remainder in range are the quotient and remainder. */
  lemma DivMod(x: int, d: int, q: int, r: int)
    requires d > 0 && 0 <= r < d && x == d * q + r
    ensures x / d == q && x % d == r
  {
    var k := x / d - q;
    assert d * (x / d) == d * q + d * k;
    MulBetween(d, k);
  }

  /** Shifting right by `o` is dividing by 2^o. */
  lemma {:induction false} ShrIsDiv(b: nat, o: nat)
    ensures Shr(b, o) == b / Pow2(o)
  {
    if o > 0 {
      ShrIsDiv(b / 2, o - 1);
      var p := Pow2(o - 1);
      var q := (b / 2) / p;
      var r := (b / 2) % p;
      assert b / 2 == p * q + r;
      assert b == (2 * p) * q + (2 * r + b % 2);
      DivMod(b, 2 * p, q, 2 * r + b % 2);
    }
  }

  /** `(b >> o) & 1` */
  function ByteBit(b: nat, o: nat): nat
  {
    Shr(b, o) % 2
  }

  /** The ten integer types the source reads (`u8` .. `i128`). */
  datatype IntType = U8 | U16 | U32 | U64 | U128 | I8 | I16 | I32 | I64 | I128
  {
    /** `size_of::<T>() * 8` */
    function Width(): nat
    {
      match this
      case U8 | I8 => 8
      case U16 | I16 => 16
      case U32 | I32 => 32
      case U64 | I64 => 64
      case U128 | I128 => 128
    }

    predicate IsSigned()
    {
      I8? || I16? || I32? || I64? || I128?
    }

    function Min(): int
    {
      if IsSigned() then -(Pow2(Width() - 1) as int) else 0
    }

    function Max(): int
    {
      if IsSigned() then Pow2(Width() - 1) - 1 else Pow2(Width()) - 1
    }
  }

  /** `f32` and `f64`, which are read as raw bit patterns. */
  datatype FloatType = F32 | F64
  {
    function Width(): nat
    {
      if F32? then 32 else 64
    }
  }

  /**
   * A signed type extends the sign: a `count`-bit value whose top bit is set
   * stands for that value minus 2^count.
   */
  function SignExtend(u: nat, count: nat, signed: bool): int
  {
    if signed && count > 0 && u >= Pow2(count - 1) then u - Pow2(count) else u
  }

  /** A sign-extended `count`-bit value fits a signed type of `w >= count` bits. */
  lemma SignedFits(u: nat, count: nat, w: nat)
    requires 1 <= w && count <= w && u < Pow2(count)
    ensures -(Pow2(w - 1) as int) <= SignExtend(u, count, true) <= Pow2(w - 1) - 1
  {
    if count > 0 {
      Pow2Monotonic(count - 1, w - 1);
      assert Pow2(count) == 2 * Pow2(count - 1);
    }
  }

  datatype BitReadBuffer = BitReadBuffer(bytes: seq<byte>, bitLen: nat)
  {
    ghost predicate Valid()
    {
      bitLen <= |bytes| * 8
    }

    /** Bit `i` of the storage: bit `i % 8` of byte `i / 8`, counting from the least significant. */
    function Bit(i: nat): nat
      requires i < |bytes| * 8
    {
      ByteBit(bytes[i / 8], i % 8)
    }

    /**
     * The little-endian assembly of `count` bits from `pos`: the bit read
     * k-th has weight 2^k, so the value is the sum of Bit(pos + k) * 2^k.
     * Bounded by the storage only; callers bound it by `bitLen`.
     */
    function Unsigned(pos: nat, count: nat): nat
      requires pos + count <= |bytes| * 8
      decreases |bytes| * 8 - pos
    {
      if count == 0 then 0 else Bit(pos) + 2 * Unsigned(pos + 1, count - 1)
    }

    /** `count` bits hold a value below 2^count. */
    lemma {:induction false} UnsignedBound(pos: nat, count: nat)
      requires pos + count <= |bytes| * 8
      ensures Unsigned(pos, count) < Pow2(count)
      decreases count
    {
      if count > 0 {
        UnsignedBound(pos + 1, count - 1);
      }
    }

    /** The 8 bits at `pos` as a byte. */
    function ByteAt(pos: nat): byte
      requires pos + 8 <= |bytes| * 8
    {
      UnsignedBound(pos, 8);
      assert Pow2(8) == 256;
      Unsigned(pos, 8)
    }

    function ReadBoolUnchecked(pos: nat): bool
      requires Valid() && pos + 1 <= bitLen
    {
      Bit(pos) == 1
    }

    function ReadBool(pos: nat): (r: Result<bool>)
      requires Valid() && pos <= bitLen
      ensures r.Ok? <==> pos + 1 <= bitLen
      ensures r.Ok? ==> r.value == ReadBoolUnchecked(pos)
      ensures r.Err? ==> r.error == NotEnoughData(1, bitLen - pos)
    {
      if pos + 1 > bitLen then Err(NotEnoughData(1, bitLen - pos)) else Ok(ReadBoolUnchecked(pos))
    }

    function ReadIntUnchecked(pos: nat, t: IntType, count: nat): int
      requires Valid() && pos + count <= bitLen && count <= t.Width()
    {
      SignExtend(Unsigned(pos, count), count, t.IsSigned())
    }

    /**
     * Reads `count` bits as an integer of type `t`: too wide a count is
     * `TooManyBits`, too few bits left in the window is `NotEnoughData`.
     */
    function ReadInt(pos: nat, t: IntType, count: nat): (r: Result<int>)
      requires Valid() && pos <= bitLen
      ensures r.Ok? <==> count <= t.Width() && pos + count <= bitLen
      ensures r.Ok? ==> r.value == ReadIntUnchecked(pos, t, count)
      ensures r.Ok? ==> t.Min() <= r.value <= t.Max()
      ensures count > t.Width() ==> r == Err(TooManyBits(count, t.Width()))
      ensures count <= t.Width() && pos + count > bitLen ==> r == Err(NotEnoughData(count, bitLen - pos))
    {
      if count > t.Width() then Err(TooManyBits(count, t.Width()))
      else if pos + count > bitLen then Err(NotEnoughData(count, bitLen - pos))
      else
        IntInRange(pos, t, count);
        Ok(ReadIntUnchecked(pos, t, count))
    }

    /** Every value a read of `count <= width` bits yields fits the target type. */
    lemma IntInRange(pos: nat, t: IntType, count: nat)
      requires Valid() && pos + count <= bitLen && count <= t.Width()
      ensures t.Min() <= ReadIntUnchecked(pos, t, count) <= t.Max()
    {
      var w := t.Width();
      assert 8 <= w;
      var u := Unsigned(pos, count);
      UnsignedBound(pos, count);
      assert ReadIntUnchecked(pos, t, count) == SignExtend(u, count, t.IsSigned());
      if t.IsSigned() {
        assert t.Min() == -(Pow2(w - 1) as int) && t.Max() == Pow2(w - 1) - 1;
        SignedFits(u, count, w);
      } else {
        assert t.Min() == 0 && t.Max() == Pow2(w) - 1;
        Pow2Monotonic(count, w);
        assert u < Pow2(w);
      }
    }

    /** A float is its raw bit pattern: exactly `f.Width()` bits, unsigned. */
    function ReadFloatUnchecked(pos: nat, f: FloatType): nat
      requires Valid() && pos + f.Width() <= bitLen
    {
      Unsigned(pos, f.Width())
    }

    function ReadFloat(pos: nat, f: FloatType): (r: Result<nat>)
      requires Valid() && pos <= bitLen
      ensures r.Ok? <==> pos + f.Width() <= bitLen
      ensures r.Ok? ==> r.value == ReadFloatUnchecked(pos, f) && r.value < Pow2(f.Width())
      ensures r.Err? ==> r.error == NotEnoughData(f.Width(), bitLen - pos)
    {
      if pos + f.Width() > bitLen then Err(NotEnoughData(f.Width(), bitLen - pos))
      else
        UnsignedBound(pos, f.Width());
        Ok(ReadFloatUnchecked(pos, f))
    }

    /** `n` bytes of the storage read one after another from `pos`. */
    function BytesAt(pos: nat, n: nat): (r: seq<byte>)
      requires pos + n * 8 <= |bytes| * 8
      ensures |r| == n
      decreases n
    {
      if n == 0 then [] else [ByteAt(pos)] + BytesAt(pos + 8, n - 1)
    }

    /** The i-th byte read is the 8 bits at `pos + 8 * i`. */
    lemma {:induction false} BytesAtIndex(pos: nat, n: nat, i: nat)
      requires pos + n * 8 <= |bytes| * 8 && i < n
      ensures BytesAt(pos, n)[i] == ByteAt(pos + 8 * i)
      decreases n
    {
      if i > 0 {
        BytesAtIndex(pos + 8, n - 1, i - 1);
        assert pos + 8 + 8 * (i - 1) == pos + 8 * i;
      }
    }

    function ReadBytesUnchecked(pos: nat, n: nat): (r: seq<byte>)
      requires Valid() && pos + n * 8 <= bitLen
    {
      BytesAt(pos, n)
    }

    function ReadBytes(pos: nat, n: nat): (r: Result<seq<byte>>)
      requires Valid() && pos <= bitLen
      ensures r.Ok? <==> pos + n * 8 <= bitLen
      ensures r.Ok? ==> r.value == ReadBytesUnchecked(pos, n)
      ensures r.Err? ==> r.error == NotEnoughData(n * 8, bitLen - pos)
    {
      if pos + n * 8 > bitLen then Err(NotEnoughData(n * 8, bitLen - pos))
      else Ok(ReadBytesUnchecked(pos, n))
    }

    /**
     * The window [0, end): the same storage, a logical length of `end`;
     * `NotEnoughData` when `end` lies past the current window.
     */
    function GetSubBuffer(end: nat): (r: Result<BitReadBuffer>)
      requires Valid()
      ensures r.Ok? <==> end <= bitLen
      ensures r.Ok? ==> r.value.Valid() && r.value.bytes == bytes && r.value.bitLen == end
      ensures r.Err? ==> r.error == NotEnoughData(end, bitLen)
    {
      if end > bitLen then Err(NotEnoughData(end, bitLen)) else Ok(BitReadBuffer(bytes, end))
    }

    /**
     * The bytes of a NUL-terminated string at `pos`: 8-bit values at `pos`,
     * `pos + 8`, ... up to the first zero, or up to the end of the STORAGE
     * when there is none; the scan is not bounded by `bitLen`.
     */
    function ScanToNul(pos: nat): (r: seq<byte>)
      requires pos <= |bytes| * 8
      ensures 0 !in r && pos + |r| * 8 <= |bytes| * 8
      decreases |bytes| * 8 - pos
    {
      if pos + 8 > |bytes| * 8 || ByteAt(pos) == 0 then []
      else [ByteAt(pos)] + ScanToNul(pos + 8)
    }

    /**
     * What the scan finds: the whole bytes from `pos` up to the first NUL,
     * which is the byte right after them unless the storage ends first.
     */
    lemma {:induction false} ScanToNulStops(pos: nat)
      requires pos <= |bytes| * 8
      ensures var r := ScanToNul(pos);
              && r == BytesAt(pos, |r|)
              && (pos + |r| * 8 + 8 <= |bytes| * 8 ==> ByteAt(pos + |r| * 8) == 0)
      decreases |bytes| * 8 - pos
    {
      var r := ScanToNul(pos);
      if pos + 8 <= |bytes| * 8 && ByteAt(pos) != 0 {
        var rest := ScanToNul(pos + 8);
        ScanToNulStops(pos + 8);
        assert r == [ByteAt(pos)] + rest;
        assert pos + 8 + |rest| * 8 == pos + |r| * 8;
      }
    }

    /**
     * The converse: `k` whole bytes without a NUL, followed by a NUL or by the
     * end of the storage, are exactly what the scan returns.
     */
    lemma {:induction false} ScanToNulAt(pos: nat, k: nat)
      requires pos + k * 8 <= |bytes| * 8 && 0 !in BytesAt(pos, k)
      requires pos + k * 8 + 8 <= |bytes| * 8 ==> ByteAt(pos + k * 8) == 0
      ensures ScanToNul(pos) == BytesAt(pos, k)
      decreases k
    {
      if k > 0 {
        var rest := BytesAt(pos + 8, k - 1);
        assert BytesAt(pos, k) == [ByteAt(pos)] + rest;
        assert pos + 8 + (k - 1) * 8 == pos + k * 8;
        ScanToNulAt(pos + 8, k - 1);
      }
    }

    /**
     * A string at `pos`: `Some(n)` decodes exactly `n` bytes of the window
     * and cuts the value at its first NUL; `None` decodes the bytes before
     * the terminator. Malformed UTF-8 is `Utf8Error` carrying the bytes.
     */
    function ReadString(pos: nat, byteLen: Option<nat>): (r: Result<seq<Char>>)
      requires Valid() && pos <= bitLen
      ensures byteLen.Some? ==>
                (r.Err? && r.error.NotEnoughData? <==> pos + byteLen.value * 8 > bitLen)
      ensures byteLen.Some? && pos + byteLen.value * 8 > bitLen ==>
                r == Err(NotEnoughData(byteLen.value * 8, bitLen - pos))
      ensures byteLen.Some? && pos + byteLen.value * 8 <= bitLen ==>
                var bs := BytesAt(pos, byteLen.value);
                && (r.Ok? <==> Decode(bs).Some?)
                && (r.Ok? ==> r.value == UpToNul(Decode(bs).value, 0))
                && (r.Err? ==> r.error == Utf8Error(bs))
      ensures byteLen.None? ==>
                && (r.Ok? <==> Decode(ScanToNul(pos)).Some?)
                && (r.Ok? ==> r.value == Decode(ScanToNul(pos)).value)
                && (r.Err? ==> r.error == Utf8Error(ScanToNul(pos)))
      ensures r.Ok? && byteLen.None? ==> ByteLen(r.value) == |ScanToNul(pos)|
    {
      match byteLen
      case Some(n) =>
        (match ReadBytes(pos, n)
         case Err(e) => Err(e)
         case Ok(bs) =>
           match Decode(bs)
           case None => Err(Utf8Error(bs))
           case Some(s) => Ok(UpToNul(s, 0)))
      case None =>
        var bs := ScanToNul(pos);
        match Decode(bs)
        case None => Err(Utf8Error(bs))
        case Some(s) => Ok(s)
    }

    /**
     * Little-endian assembly composes: `a + b` bits are the first `a` bits
     * plus the next `b` bits weighted by 2^a.
     */
    lemma UnsignedSplit(pos: nat, a: nat, b: nat)
      requires pos + a + b <= |bytes| * 8
      ensures Unsigned(pos, a + b) == Unsigned(pos, a) + Pow2(a) * Unsigned(pos + a, b)
    {
      UnsignedSplitAt(pos, a, pos + a, b, a + b);
    }

    /** UnsignedSplit with the split point `mid` and the total `n` named, so the induction lines up. */
    lemma {:induction false} UnsignedSplitAt(pos: nat, a: nat, mid: nat, b: nat, n: nat)
      requires mid == pos + a && n == a + b && mid + b <= |bytes| * 8
      ensures Unsigned(pos, n) == Unsigned(pos, a) + Pow2(a) * Unsigned(mid, b)
      decreases a
    {
      if a > 0 {
        UnsignedSplitAt(pos + 1, a - 1, mid, b, n - 1);
        SplitStep(Bit(pos), Unsigned(pos + 1, a - 1), Unsigned(pos + 1, n - 1),
                  Pow2(a - 1), Pow2(a), Unsigned(mid, b));
      }
    }

    /** Bits inside one byte: `c` bits from bit `o` of byte `j`, and what is above them. */
    lemma {:induction false} UnsignedInByte(j: nat, o: nat, c: nat)
      requires j < |bytes| && o + c <= 8
      ensures Unsigned(8 * j + o, c) + Pow2(c) * Shr(bytes[j], o + c) == Shr(bytes[j], o)
      decreases c
    {
      if c > 0 {
        var p := 8 * j + o;
        assert p / 8 == j && p % 8 == o;
        var x := Shr(bytes[j], o);
        var hi := Shr(bytes[j], o + c);
        UnsignedInByte(j, o + 1, c - 1);
        assert 8 * j + (o + 1) == p + 1 && o + 1 + (c - 1) == o + c;
        var lo := Unsigned(p + 1, c - 1);
        assert lo + Pow2(c - 1) * hi == Shr(bytes[j], o + 1);
        ShrSucc(bytes[j], o);
        assert Unsigned(p, c) == x % 2 + 2 * lo;
        ByteStep(x, hi, lo, Pow2(c), Pow2(c - 1));
      }
    }

    /**
     * `c` bits from bit `o` of byte `j` are `(bytes[j] >> o) & (2^c - 1)`.
     * `shift` = 2^o and `mask` = 2^c come in as parameters so that callers
     * with literal widths name them instead of unfolding `Pow2`.
     */
    lemma BitsInByte(j: nat, o: nat, c: nat, shift: nat, mask: nat)
      requires j < |bytes| && o + c <= 8 && shift == Pow2(o) && mask == Pow2(c)
      ensures Unsigned(8 * j + o, c) == (bytes[j] / shift) % mask
    {
      UnsignedInByte(j, o, c);
      UnsignedBound(8 * j + o, c);
      ShrIsDiv(bytes[j], o);
      DivMod(Shr(bytes[j], o), Pow2(c), Shr(bytes[j], o + c), Unsigned(8 * j + o, c));
    }

    /** 8 bits read at a byte boundary are that byte. */
    lemma AlignedByte(pos: nat)
      requires pos % 8 == 0 && pos + 8 <= |bytes| * 8
      ensures ByteAt(pos) == bytes[pos / 8]
    {
      var j := pos / 8;
      assert 8 * j + 0 == pos;
      WholeByte(j, 8, 256);
    }

    /**
     * The step of AlignedByte. The width `c` = 8 and `p` = 2^8 are parameters
     * rather than literals so that the verifier does not unfold `Unsigned`
     * and `Pow2` eight levels deep.
     */
    lemma WholeByte(j: nat, c: nat, p: nat)
      requires c == 8 && p == Pow2(c) && p == 256 && j < |bytes|
      ensures Unsigned(8 * j + 0, c) == bytes[j]
    {
      var b := bytes[j];
      ShrSmall(b, c);
      UnsignedInByte(j, 0, c);
      DropZero(Unsigned(8 * j + 0, c), Pow2(c), Shr(b, 0 + c), Shr(b, 0));
    }

    /** At a byte boundary the bytes read are the stored bytes unchanged. */
    lemma AlignedBytes(pos: nat, n: nat)
      requires pos % 8 == 0 && pos + n * 8 <= |bytes| * 8
      ensures BytesAt(pos, n) == bytes[pos / 8 .. pos / 8 + n]
    {
      var r := BytesAt(pos, n);
      forall i | 0 <= i < n
        ensures r[i] == bytes[pos / 8 + i]
      {
        AlignedElement(pos, n, i);
      }
    }

    /** One element of AlignedBytes: the `i`-th byte read is stored byte `pos / 8 + i`. */
    lemma AlignedElement(pos: nat, n: nat, i: nat)
      requires pos % 8 == 0 && pos + n * 8 <= |bytes| * 8 && i < n
      ensures BytesAt(pos, n)[i] == bytes[pos / 8 + i]
    {
      var j := pos / 8;
      var q := pos + 8 * i;
      assert q == 8 * (j + i);
      assert q % 8 == 0 && q / 8 == j + i;
      BytesAtIndex(pos, n, i);
      AlignedByte(q);
    }
  }
}
