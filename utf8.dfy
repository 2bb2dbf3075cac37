/**
 * The part of Rust's `String` that the stream relies on: decoding bytes as
 * UTF-8 (`String::from_utf8`), the byte length of a string (`String::len`)
 * and of one character (`char::len_utf8`).
 */
module Utf8 {
  import opened Results

  /** A Unicode scalar value, which is what a Rust `char` holds. */
  type Char = c: int | 0 <= c < 0x11_0000 && !(0xD800 <= c < 0xE000)

  /** The number of bytes of the UTF-8 encoding of `c`. */
  function LenUtf8(c: Char): (n: nat)
    ensures 1 <= n <= 4
    ensures n == 1 <==> c < 0x80
  {
    if c < 0x80 then 1 else if c < 0x800 then 2 else if c < 0x1_0000 then 3 else 4
  }

  /** The byte length of the UTF-8 encoding of a string. */
  function ByteLen(s: seq<Char>): nat
  {
    if s == [] then 0 else LenUtf8(s[0]) + ByteLen(s[1..])
  }

  lemma {:induction false} ByteLenAppend(s: seq<Char>, t: seq<Char>)
    ensures ByteLen(s + t) == ByteLen(s) + ByteLen(t)
  {
    if s == [] {
      assert s + t == t;
    } else {
      assert (s + t)[1..] == s[1..] + t;
      ByteLenAppend(s[1..], t);
    }
  }

  predicate IsContinuation(b: byte) {
    0x80 <= b < 0xC0
  }

  /**
   * Decodes the character at the head of `b`, following the table of
   * well-formed byte sequences in section 4 of RFC 3629: overlong forms,
   * surrogates and values above 0x10FFFF are rejected. Yields the character
   * and the number of bytes it took.
   */
  function DecodeFirst(b: seq<byte>): (r: Option<(Char, nat)>)
    requires |b| > 0
    ensures r.Some? ==> 1 <= r.value.1 <= |b| && LenUtf8(r.value.0) == r.value.1
    ensures r.Some? && r.value.1 == 1 ==> r.value.0 == b[0]
  {
    var b0: int := b[0];
    var b1: int := if |b| >= 2 then b[1] else 0;
    var b2: int := if |b| >= 3 then b[2] else 0;
    var b3: int := if |b| >= 4 then b[3] else 0;
    if b0 < 0x80 then Some((b0, 1))
    else if 0xC2 <= b0 < 0xE0 then
      if |b| >= 2 && IsContinuation(b[1]) then
        Some(((b0 - 0xC0) * 0x40 + (b1 - 0x80), 2))
      else None
    else if 0xE0 <= b0 < 0xF0 then
      var lo := if b0 == 0xE0 then 0xA0 else 0x80;
      var hi := if b0 == 0xED then 0xA0 else 0xC0;
      if |b| >= 3 && lo <= b[1] < hi && IsContinuation(b[2]) then
        Some(((b0 - 0xE0) * 0x1000 + (b1 - 0x80) * 0x40 + (b2 - 0x80), 3))
      else None
    else if 0xF0 <= b0 < 0xF5 then
      var lo := if b0 == 0xF0 then 0x90 else 0x80;
      var hi := if b0 == 0xF4 then 0x90 else 0xC0;
      if |b| >= 4 && lo <= b[1] < hi && IsContinuation(b[2]) && IsContinuation(b[3]) then
        Some(((b0 - 0xF0) * 0x4_0000 + (b1 - 0x80) * 0x1000 + (b2 - 0x80) * 0x40 + (b3 - 0x80), 4))
      else None
    else None
  }

  /** `String::from_utf8`: the characters `b` encodes, or None when `b` is not well-formed UTF-8. */
  function Decode(b: seq<byte>): (r: Option<seq<Char>>)
    ensures r.Some? ==> ByteLen(r.value) == |b|
    decreases |b|
  {
    if b == [] then Some([])
    else
      match DecodeFirst(b)
      case None => None
      case Some((c, n)) =>
        match Decode(b[n..])
        case None => None
        case Some(rest) =>
          assert ([c] + rest)[1..] == rest;
          Some([c] + rest)
  }

  /** Bytes below 0x80 are characters of their own: ASCII decodes to itself. */
  lemma {:induction false} DecodeAscii(b: seq<byte>)
    requires forall i | 0 <= i < |b| :: b[i] < 0x80
    ensures Decode(b).Some? && Decode(b).value == b
  {
    if b != [] {
      DecodeAscii(b[1..]);
    }
  }

  /** The part of `s` before its first `nul`; all of `s` when there is none. */
  function UpToNul<T(==)>(s: seq<T>, nul: T): (r: seq<T>)
    ensures r <= s && nul !in r
    ensures |r| < |s| ==> s[|r|] == nul
  {
    if s == [] || s[0] == nul then [] else [s[0]] + UpToNul(s[1..], nul)
  }

  /** The cut is at the first `nul`, wherever that is, or nowhere when there is none. */
  lemma {:induction false} UpToNulAt<T>(s: seq<T>, nul: T, i: nat)
    requires i <= |s| && nul !in s[..i]
    requires i < |s| ==> s[i] == nul
    ensures UpToNul(s, nul) == s[..i]
  {
    if i > 0 {
      assert s[1..][..i - 1] == s[..i][1..];
      UpToNulAt(s[1..], nul, i - 1);
      assert s[..i] == [s[0]] + s[1..][..i - 1];
    }
  }

  /**
   * The longest prefix of `s` whose encoding fits in `max` bytes; whole
   * characters only, so a multi-byte character is never split.
   */
  function FitPrefix(s: seq<Char>, max: nat): (r: seq<Char>)
    ensures r <= s && ByteLen(r) <= max
    ensures |r| < |s| ==> ByteLen(r) + LenUtf8(s[|r|]) > max
  {
    if s == [] || LenUtf8(s[0]) > max then []
    else
      var rest := FitPrefix(s[1..], max - LenUtf8(s[0]));
      assert ([s[0]] + rest)[1..] == rest;
      [s[0]] + rest
  }

  /** The two ensures of FitPrefix pin its result down: no other prefix has both. */
  lemma {:induction false} FitPrefixUnique(s: seq<Char>, max: nat, p: seq<Char>)
    requires p <= s && ByteLen(p) <= max
    requires |p| < |s| ==> ByteLen(p) + LenUtf8(s[|p|]) > max
    ensures p == FitPrefix(s, max)
  {
    if s != [] && p != [] {
      var l := LenUtf8(s[0]);
      assert p[0] == s[0];
      assert ByteLen(p) == l + ByteLen(p[1..]);
      if |p| < |s| {
        assert s[1..][|p| - 1] == s[|p|];
      }
      FitPrefixUnique(s[1..], max - l, p[1..]);
      assert p == [s[0]] + p[1..];
    }
  }

  /** A string that fits whole is its own longest fitting prefix. */
  lemma FitPrefixWhole(s: seq<Char>, max: nat)
    requires ByteLen(s) <= max
    ensures FitPrefix(s, max) == s
  {
    FitPrefixUnique(s, max, s);
  }
}
