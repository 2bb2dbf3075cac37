/**
 * The generic reads on top of the stream: `Read` for types that need no size
 * (integers at their full width, floats, `bool`, NUL-terminated `String`,
 * `Option<T>`) and `ReadSized` for types that take one (integers of `size`
 * bits, `String` of `size` bytes, `Vec<T>` of `size` elements).
 *
 * A Rust type is named by a `ReadType` or `SizedType` value and a decoded
 * value is a `Value`; `ReadSpec` and `ReadSizedSpec` give what a read yields
 * and where it leaves the cursor, and the methods `Read` and `ReadSized`
 * perform the reads on a stream and are proved to follow them.
 */
module ReadTraits {
  import opened Results
  import opened Utf8
  import opened Buffer
  import opened ReadStream

  /** The types with an unsized read. */
  datatype ReadType = Int(t: IntType) | Float(f: FloatType) | Bool | Str | Opt(inner: ReadType)

  /** The types with a sized read. */
  datatype SizedType = SizedInt(t: IntType) | SizedStr | VecOf(elem: ReadType)

  datatype Value =
    | IntV(i: int)
    | FloatV(bits: nat)
    | BoolV(b: bool)
    | StrV(s: seq<Char>)
    | NoneV
    | SomeV(v: Value)
    | VecV(items: seq<Value>)

  /** A failed step, as a step of any value type: the error and the cursor are kept. */
  function Failed<T>(s: Step<T>): (w: Step<Value>)
    requires s.result.Err?
    ensures w.result.Err? && w.result.error == s.result.error && w.pos == s.pos
  {
    Step(Err(s.result.error), s.pos)
  }

  /** The bits a read of `ty` always takes, for the types that have such a number. */
  function FixedWidth(ty: ReadType): Option<nat>
  {
    match ty
    case Int(t) => Some(t.Width())
    case Float(f) => Some(f.Width())
    case Bool => Some(1)
    case Str => None
    case Opt(_) => None
  }

  /**
   * An unsized read: an integer at its type's full width, a float, one bit
   * for `bool`, a NUL-terminated string; `Option<T>` reads a flag bit and,
   * when it is set, a `T` right after it.
   */
  function ReadSpec(buf: BitReadBuffer, pos: nat, ty: ReadType): (s: Step<Value>)
    requires buf.Valid() && pos <= buf.bitLen
    ensures pos <= s.pos <= buf.bitLen
    decreases ty
  {
    match ty
    case Int(t) =>
      var x := IntStep(buf, pos, t, t.Width());
      if x.result.Ok? then Step(Ok(IntV(x.result.value)), x.pos) else Failed(x)
    case Float(f) =>
      var x := FloatStep(buf, pos, f);
      if x.result.Ok? then Step(Ok(FloatV(x.result.value)), x.pos) else Failed(x)
    case Bool =>
      var x := BoolStep(buf, pos);
      if x.result.Ok? then Step(Ok(BoolV(x.result.value)), x.pos) else Failed(x)
    case Str =>
      var x := StringStep(buf, pos, None);
      if x.result.Ok? then Step(Ok(StrV(x.result.value)), x.pos) else Failed(x)
    case Opt(inner) =>
      var flag := BoolStep(buf, pos);
      if flag.result.Err? then Failed(flag)
      else if flag.result.value then
        var x := ReadSpec(buf, flag.pos, inner);
        if x.result.Ok? then Step(Ok(SomeV(x.result.value)), x.pos) else Failed(x)
      else Step(Ok(NoneV), flag.pos)
  }

  /** Readers that, from any position up to `bound`, end up between that position and `bound`. */
  ghost predicate Stays(read: nat --> Step<Value>, bound: nat)
  {
    forall p: nat :: p <= bound ==> read.requires(p) && p <= read(p).pos <= bound
  }

  /**
   * `n` consecutive reads, each starting where the one before ended; the
   * first error stops them, with the cursor where that read left it.
   */
  function Repeat(read: nat --> Step<Value>, bound: nat, pos: nat, n: nat): (s: Step<seq<Value>>)
    requires Stays(read, bound) && pos <= bound
    ensures pos <= s.pos <= bound
  {
    if n == 0 then Step(Ok([]), pos)
    else
      var prev := Repeat(read, bound, pos, n - 1);
      if prev.result.Err? then prev
      else
        var next := read(prev.pos);
        Step(if next.result.Ok? then Ok(prev.result.value + [next.result.value]) else Err(next.result.error),
             next.pos)
  }

  /** The read of one element of type `elem`, as a function of the position. */
  function ElemReader(buf: BitReadBuffer, elem: ReadType): (read: nat --> Step<Value>)
    requires buf.Valid()
    ensures Stays(read, buf.bitLen)
  {
    (p: nat) requires buf.Valid() && p <= buf.bitLen => ReadSpec(buf, p, elem)
  }

  /** `n` consecutive reads of `elem` from `pos`. */
  function ReadManySpec(buf: BitReadBuffer, pos: nat, elem: ReadType, n: nat): (s: Step<seq<Value>>)
    requires buf.Valid() && pos <= buf.bitLen
    ensures pos <= s.pos <= buf.bitLen
  {
    Repeat(ElemReader(buf, elem), buf.bitLen, pos, n)
  }

  /**
   * A sized read: an integer of `size` bits, a string of `size` bytes, a
   * vector of `size` elements.
   */
  function ReadSizedSpec(buf: BitReadBuffer, pos: nat, ty: SizedType, size: nat): (s: Step<Value>)
    requires buf.Valid() && pos <= buf.bitLen
    ensures pos <= s.pos <= buf.bitLen
  {
    match ty
    case SizedInt(t) =>
      var x := IntStep(buf, pos, t, size);
      if x.result.Ok? then Step(Ok(IntV(x.result.value)), x.pos) else Failed(x)
    case SizedStr =>
      var x := StringStep(buf, pos, Some(size));
      if x.result.Ok? then Step(Ok(StrV(x.result.value)), x.pos) else Failed(x)
    case VecOf(elem) =>
      var x := ReadManySpec(buf, pos, elem, size);
      if x.result.Ok? then Step(Ok(VecV(x.result.value)), x.pos) else Failed(x)
  }

  /**
   * The fixed-width types take exactly their width: an integer 8 to 128
   * bits, a float 32 or 64, a bool 1; they fail exactly when fewer bits are
   * left, and then the cursor stays.
   */
  lemma ReadFixedWidth(buf: BitReadBuffer, pos: nat, ty: ReadType, w: nat)
    requires buf.Valid() && pos <= buf.bitLen
    requires FixedWidth(ty) == Some(w)
    ensures ReadSpec(buf, pos, ty).result.Ok? <==> w <= buf.bitLen - pos
    ensures ReadSpec(buf, pos, ty).pos == if w <= buf.bitLen - pos then pos + w else pos
    ensures ty.Int? ==> w in {8, 16, 32, 64, 128}
    ensures ty.Float? ==> w in {32, 64}
  {
  }

  /** An unsized integer is the full-width read of its type, in its type's range. */
  lemma ReadIntValue(buf: BitReadBuffer, pos: nat, t: IntType)
    requires buf.Valid() && pos + t.Width() <= buf.bitLen
    ensures ReadSpec(buf, pos, Int(t)) ==
              Step(Ok(IntV(buf.ReadIntUnchecked(pos, t, t.Width()))), pos + t.Width())
    ensures t.Min() <= buf.ReadIntUnchecked(pos, t, t.Width()) <= t.Max()
  {
  }

  /**
   * `Option<T>`: a clear flag is `None` after one bit; a set flag is `Some`
   * of the `T` read right after it; an error from either read is returned.
   */
  lemma ReadOption(buf: BitReadBuffer, pos: nat, inner: ReadType)
    requires buf.Valid() && pos <= buf.bitLen
    ensures var s := ReadSpec(buf, pos, Opt(inner));
            if pos == buf.bitLen then s == Step(Err(NotEnoughData(1, 0)), pos)
            else if !buf.ReadBoolUnchecked(pos) then s == Step(Ok(NoneV), pos + 1)
            else
              var v := ReadSpec(buf, pos + 1, inner);
              s.pos == v.pos
              && (v.result.Ok? ==> s.result == Ok(SomeV(v.result.value)))
              && (v.result.Err? ==> s.result == Err(v.result.error))
  {
  }

  /** A sized integer takes `size` bits; more bits than the type holds is `TooManyBits`. */
  lemma ReadSizedInt(buf: BitReadBuffer, pos: nat, t: IntType, size: nat)
    requires buf.Valid() && pos <= buf.bitLen
    ensures var s := ReadSizedSpec(buf, pos, SizedInt(t), size);
            && (s.result.Ok? <==> size <= t.Width() && size <= buf.bitLen - pos)
            && (s.result.Ok? ==> s == Step(Ok(IntV(buf.ReadIntUnchecked(pos, t, size))), pos + size))
            && (size > t.Width() ==> s == Step(Err(TooManyBits(size, t.Width())), pos))
  {
  }

  /** Once an element read fails, more elements do not change the outcome. */
  lemma {:induction false} RepeatErrorSticks(read: nat --> Step<Value>, bound: nat, pos: nat, i: nat, n: nat)
    requires Stays(read, bound) && pos <= bound && i <= n
    requires Repeat(read, bound, pos, i).result.Err?
    ensures Repeat(read, bound, pos, n) == Repeat(read, bound, pos, i)
    decreases n
  {
    if i < n {
      RepeatErrorSticks(read, bound, pos, i, n - 1);
    }
  }

  /** When `n` reads succeed, the first `i` of them succeed with the first `i` values. */
  lemma {:induction false} RepeatPrefix(read: nat --> Step<Value>, bound: nat, pos: nat, i: nat, n: nat)
    requires Stays(read, bound) && pos <= bound && i <= n
    requires Repeat(read, bound, pos, n).result.Ok?
    ensures |Repeat(read, bound, pos, n).result.value| == n
    ensures Repeat(read, bound, pos, i).result == Ok(Repeat(read, bound, pos, n).result.value[..i])
    decreases n
  {
    var vs := Repeat(read, bound, pos, n).result.value;
    if n == 0 {
      assert vs[..i] == [];
    } else {
      var prev := Repeat(read, bound, pos, n - 1);
      if prev.result.Err? {
        assert false;
      }
      RepeatPrefix(read, bound, pos, n - 1, n - 1);
      assert vs == prev.result.value + [vs[n - 1]];
      if i < n {
        RepeatPrefix(read, bound, pos, i, n - 1);
        assert vs[..i] == prev.result.value[..i];
      } else {
        assert vs[..i] == vs;
      }
    }
  }

  /** The i-th value of `n` successful reads is what the i-th read yields, where it starts. */
  lemma RepeatElements(read: nat --> Step<Value>, bound: nat, pos: nat, n: nat)
    requires Stays(read, bound) && pos <= bound
    requires Repeat(read, bound, pos, n).result.Ok?
    ensures |Repeat(read, bound, pos, n).result.value| == n
    ensures forall i | 0 <= i < n ::
              Repeat(read, bound, pos, i).result.Ok?
              && read(Repeat(read, bound, pos, i).pos)
                 == Step(Ok(Repeat(read, bound, pos, n).result.value[i]), Repeat(read, bound, pos, i + 1).pos)
  {
    var vs := Repeat(read, bound, pos, n).result.value;
    RepeatPrefix(read, bound, pos, n, n);
    forall i | 0 <= i < n
      ensures Repeat(read, bound, pos, i).result.Ok?
      ensures read(Repeat(read, bound, pos, i).pos)
              == Step(Ok(vs[i]), Repeat(read, bound, pos, i + 1).pos)
    {
      RepeatPrefix(read, bound, pos, i, n);
      RepeatPrefix(read, bound, pos, i + 1, n);
      assert vs[..i + 1] == vs[..i] + [vs[i]];
    }
  }

  /** The first `i` reads succeed and the next one fails as `outcome` says. */
  ghost predicate FailsAt(read: nat --> Step<Value>, bound: nat, pos: nat, i: nat, outcome: Step<seq<Value>>)
    requires Stays(read, bound) && pos <= bound
  {
    var before := Repeat(read, bound, pos, i);
    var failing := read(before.pos);
    before.result.Ok? && failing.result.Err? && outcome.result.Err?
    && failing.result.error == outcome.result.error && failing.pos == outcome.pos
  }

  /** Reads that fail report the error of the first failing read, at the cursor it left. */
  lemma {:induction false} RepeatFirstError(read: nat --> Step<Value>, bound: nat, pos: nat, n: nat)
    requires Stays(read, bound) && pos <= bound
    requires Repeat(read, bound, pos, n).result.Err?
    ensures exists i | 0 <= i < n :: FailsAt(read, bound, pos, i, Repeat(read, bound, pos, n))
  {
    var prev := Repeat(read, bound, pos, n - 1);
    if prev.result.Err? {
      RepeatFirstError(read, bound, pos, n - 1);
      var i :| 0 <= i < n - 1 && FailsAt(read, bound, pos, i, prev);
      assert FailsAt(read, bound, pos, i, Repeat(read, bound, pos, n));
    } else {
      assert FailsAt(read, bound, pos, n - 1, Repeat(read, bound, pos, n));
    }
  }

  /** Reads that each take `w` bits on success take `n * w` bits when `n` of them succeed. */
  lemma {:induction false} RepeatFixedWidth(read: nat --> Step<Value>, bound: nat, pos: nat, w: nat, n: nat)
    requires Stays(read, bound) && pos <= bound
    requires forall p: nat | p <= bound :: read(p).result.Ok? ==> read(p).pos == p + w
    requires Repeat(read, bound, pos, n).result.Ok?
    ensures Repeat(read, bound, pos, n).pos == pos + n * w
  {
    if n > 0 {
      var prev := Repeat(read, bound, pos, n - 1);
      if prev.result.Err? {
        assert false;
      }
      RepeatFixedWidth(read, bound, pos, w, n - 1);
      assert (n - 1) * w + w == n * w;
    }
  }

  /**
   * A vector read that succeeds holds exactly `size` values, the i-th being
   * what the i-th consecutive element read yields where the one before ended.
   */
  lemma ReadVecElements(buf: BitReadBuffer, pos: nat, elem: ReadType, size: nat)
    requires buf.Valid() && pos <= buf.bitLen
    requires ReadSizedSpec(buf, pos, VecOf(elem), size).result.Ok?
    ensures var v := ReadSizedSpec(buf, pos, VecOf(elem), size).result.value;
            && v.VecV? && |v.items| == size
            && forall i | 0 <= i < size ::
                 ReadManySpec(buf, pos, elem, i).result.Ok?
                 && ReadSpec(buf, ReadManySpec(buf, pos, elem, i).pos, elem)
                    == Step(Ok(v.items[i]), ReadManySpec(buf, pos, elem, i + 1).pos)
  {
    RepeatElements(ElemReader(buf, elem), buf.bitLen, pos, size);
  }

  /**
   * A vector read that fails reports the error of its first failing element,
   * read where the earlier, successful ones ended; their bits stay consumed.
   */
  lemma ReadVecFirstError(buf: BitReadBuffer, pos: nat, elem: ReadType, size: nat)
    requires buf.Valid() && pos <= buf.bitLen
    requires ReadSizedSpec(buf, pos, VecOf(elem), size).result.Err?
    ensures exists i | 0 <= i < size ::
              var before := ReadManySpec(buf, pos, elem, i);
              var failing := ReadSpec(buf, before.pos, elem);
              before.result.Ok? && failing.result.Err?
              && Step(Err(failing.result.error), failing.pos) == ReadSizedSpec(buf, pos, VecOf(elem), size)
  {
    var read := ElemReader(buf, elem);
    RepeatFirstError(read, buf.bitLen, pos, size);
    var i :| 0 <= i < size && FailsAt(read, buf.bitLen, pos, i, Repeat(read, buf.bitLen, pos, size));
    assert read(Repeat(read, buf.bitLen, pos, i).pos) == ReadSpec(buf, ReadManySpec(buf, pos, elem, i).pos, elem);
  }

  /** A vector of `size` fixed-width elements of `w` bits takes `size * w` bits. */
  lemma ReadVecFixedWidth(buf: BitReadBuffer, pos: nat, elem: ReadType, w: nat, size: nat)
    requires buf.Valid() && pos <= buf.bitLen
    requires FixedWidth(elem) == Some(w)
    requires ReadSizedSpec(buf, pos, VecOf(elem), size).result.Ok?
    ensures ReadSizedSpec(buf, pos, VecOf(elem), size).pos == pos + size * w
  {
    var read := ElemReader(buf, elem);
    forall p: nat | p <= buf.bitLen
      ensures read(p).result.Ok? ==> read(p).pos == p + w
    {
      ReadFixedWidth(buf, p, elem, w);
    }
    RepeatFixedWidth(read, buf.bitLen, pos, w, size);
  }

  /** `Read::read`: dispatches on the type, as the impls for each type do. */
  method Read(s: BitReadStream, ty: ReadType) returns (r: Result<Value>)
    requires s.Valid()
    modifies s`pos
    ensures s.Valid()
    ensures Step(r, s.pos) == ReadSpec(s.buffer, old(s.pos), ty)
    decreases ty
  {
    match ty {
      case Int(t) =>
        var x := s.ReadInt(t, t.Width());
        r := if x.Ok? then Ok(IntV(x.value)) else Err(x.error);
      case Float(f) =>
        var x := s.ReadFloat(f);
        r := if x.Ok? then Ok(FloatV(x.value)) else Err(x.error);
      case Bool =>
        var x := s.ReadBool();
        r := if x.Ok? then Ok(BoolV(x.value)) else Err(x.error);
      case Str =>
        var x := s.ReadString(None);
        r := if x.Ok? then Ok(StrV(x.value)) else Err(x.error);
      case Opt(inner) =>
        var flag := s.ReadBool();
        if flag.Err? {
          r := Err(flag.error);
        } else if flag.value {
          var v := Read(s, inner);
          r := if v.Ok? then Ok(SomeV(v.value)) else Err(v.error);
        } else {
          r := Ok(NoneV);
        }
    }
  }

  /** `ReadSized::read`; a vector is read element by element, each read moving the cursor. */
  method ReadSized(s: BitReadStream, ty: SizedType, size: nat) returns (r: Result<Value>)
    requires s.Valid()
    modifies s`pos
    ensures s.Valid()
    ensures Step(r, s.pos) == ReadSizedSpec(s.buffer, old(s.pos), ty, size)
  {
    match ty {
      case SizedInt(t) =>
        var x := s.ReadInt(t, size);
        r := if x.Ok? then Ok(IntV(x.value)) else Err(x.error);
      case SizedStr =>
        var x := s.ReadString(Some(size));
        r := if x.Ok? then Ok(StrV(x.value)) else Err(x.error);
      case VecOf(elem) =>
        var x := ReadVec(s, elem, size, ElemReader(s.buffer, elem));
        r := if x.Ok? then Ok(VecV(x.value)) else Err(x.error);
    }
  }

  /**
   * `Vec<T>::read`: `size` elements one after another, stopping at the first
   * error. `read` is what one element read does, as a function of where it starts.
   */
  method ReadVec(s: BitReadStream, elem: ReadType, size: nat, ghost read: nat --> Step<Value>)
    returns (r: Result<seq<Value>>)
    requires s.Valid() && Stays(read, s.buffer.bitLen)
    requires forall p: nat {:trigger ReadSpec(s.buffer, p, elem)} | p <= s.buffer.bitLen ::
               read(p) == ReadSpec(s.buffer, p, elem)
    modifies s`pos
    ensures s.Valid()
    ensures Step(r, s.pos) == Repeat(read, s.buffer.bitLen, old(s.pos), size)
  {
    ghost var start := s.pos;
    var vec: seq<Value> := [];
    var i := 0;
    while i < size
      invariant s.Valid() && s.buffer == old(s.buffer) && i <= size
      invariant Repeat(read, s.buffer.bitLen, start, i) == Step(Ok(vec), s.pos)
    {
      var x := ReadElement(s, elem, read);
      if x.Err? {
        RepeatErrorSticks(read, s.buffer.bitLen, start, i + 1, size);
        return Err(x.error);
      }
      vec := vec + [x.value];
      i := i + 1;
    }
    r := Ok(vec);
  }

  /** One element read, which does what `read` says for the position it starts at. */
  method ReadElement(s: BitReadStream, elem: ReadType, ghost read: nat --> Step<Value>) returns (x: Result<Value>)
    requires s.Valid() && Stays(read, s.buffer.bitLen)
    requires forall p: nat {:trigger ReadSpec(s.buffer, p, elem)} | p <= s.buffer.bitLen ::
               read(p) == ReadSpec(s.buffer, p, elem)
    modifies s`pos
    ensures s.Valid()
    ensures Step(x, s.pos) == read(old(s.pos))
  {
    x := Read(s, elem);
  }
}
