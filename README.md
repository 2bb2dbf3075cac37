# bitbuffer read stream, in Dafny

A model of the reading side of the `bitbuffer` crate. A `BitReadStream` is a
cursor over a `BitReadBuffer`. The buffer is immutable bytes plus a length in
bits. The stream keeps two positions, both absolute bit offsets into the
buffer:

- `start_pos` is where the stream's window begins;
- `pos` is the cursor.

Every public position and length is relative to `start_pos`: `pos()`,
`bits_left()`, `set_pos` and `bit_len()`. Checked reads advance the cursor by
exactly what they consume when they succeed. They leave it where it was when
they fail, with the one exception of malformed UTF-8 in `read_string`. The
`Read` and `ReadSized` traits build typed reads on top of the stream:

- integers, floats, booleans and strings;
- `Option<T>`, which reads a flag bit first;
- `Vec<T>`, which reads `size` elements one after another.

Files and modules:

- `results.dfy` (`Results`): `Option`, the crate's `BitError` and `Result`. It
  also holds `Step<T>`, a result paired with the cursor after the operation.
- `utf8.dfy` (`Utf8`): UTF-8 as RFC 3629 defines it, as `String::from_utf8`
  checks it. It covers `char::len_utf8`, the NUL cut and the longest prefix of
  whole characters that fits a byte budget.
- `buffer.dfy` (`Buffer`): `BitReadBuffer` with the little-endian bit order.
  It provides the checked reads the stream delegates to, `get_sub_buffer`, and
  the NUL scan for unterminated strings.
- `readstream.dfy` (`ReadStream`): one specification function per stream
  operation, of the form (buffer, cursor, arguments) → `Step`. The class
  `BitReadStream` holds the fields `buffer`, `startPos` and `pos`. Each read,
  `skip_bits`, `align` and `set_pos` is proved to return the result and leave
  the cursor where its specification function says. `read_bits`, `clone` and
  the constructors state the new stream directly in their contracts. Every
  method keeps `start_pos <= pos <= buffer.bit_len`.
- `read.dfy` (`ReadTraits`):
  - the `Read` and `ReadSized` impls, as methods over the stream;
  - their specification functions `ReadSpec` and `ReadSizedSpec`;
  - `Repeat`, the element loop of `Vec<T>` as a function over any element
    read;
  - the lemmas about the element loop: the elements read back to back, the
    first error ends it, and fixed-width elements consume `size * width`
    bits.
- `examples.dfy` (`StreamExamples`): the values in the documentation examples
  of `readstream.rs`, proved for the byte vectors those examples use. A few
  further cases are built on the same bytes and are not documentation
  examples:
  - a string cut by a 40-bit window (`CutStringStep`, `CutStringExample`);
  - malformed UTF-8 (`MalformedStringStep`, on the bytes `FF 41 00 00`);
  - the reads inside a 3-bit window (`WindowSteps`);
  - `align` in a window that starts at bit 3 (`AlignWindowExample`).

Modelling decisions:

- `src/buffer.rs` is not part of this model. `BitReadBuffer` is modelled from
  how `readstream.rs` uses it:
  - `read_int` reports `TooManyBits` before `NotEnoughData`;
  - `get_sub_buffer(end)` fails with `NotEnoughData { requested: end,
    bits_left: bit_len }`;
  - a sized string reads its `n` bytes, decodes them and is cut at the first
    NUL;
  - an unterminated string scans the bytes from the cursor up to the first
    NUL, or up to the end of the storage. The scan goes past the window's
    length, which is why `read_string` trims its result.

  The rows for these functions cite the `readstream.rs` lines that call them.
- Only the `LittleEndian` policy is modelled, with bit 0 as the least
  significant bit of byte 0.
- Floats are the raw 32 or 64 bits that `from_bits` would receive.
- `usize` is unbounded (`nat`).
- `align` takes `pos % 8` of the absolute cursor. In a window whose origin is
  not a multiple of eight, it aligns to the storage's bytes, not the
  window's. `AlignWindowExample` shows a window at storage bit 3 that skips 5
  bits from its own position 0.
- A malformed unterminated string advances the cursor by `min((k + 1) * 8,
  bits_left / 8)`. Here `k` is `FromUtf8Error::as_bytes().len()`. That is the
  length of every byte handed to the decoder, which is the whole NUL scan
  (`|ScanToNul(pos)|`) including any valid prefix. It is not the offset of the
  invalid byte. The formula compares bits with bytes, and it is modelled
  exactly as written.

## Model

| member | source | states |
|---|---|---|
| Utf8.LenUtf8 | src/readstream.rs:326 | a character takes one to four bytes, and exactly one iff it is ASCII |
| Utf8.ByteLenAppend | src/readstream.rs:329-331 | the byte length of a concatenation is the sum of the byte lengths, so each `push` grows `acc.len()` by `len_utf8` |
| Utf8.DecodeFirst | src/readstream.rs:304 | a decoded first character uses exactly `len_utf8` bytes of the input, and a one-byte character is that byte |
| Utf8.Decode | src/readstream.rs:304 | a successful decode yields characters whose UTF-8 length is exactly the number of input bytes |
| Utf8.DecodeAscii | src/readstream.rs:304 | bytes below 0x80 always decode, each to itself |
| Utf8.UpToNul | src/readstream.rs:304 | the cut string is a prefix without NUL, and when shorter than the input it stops at a NUL |
| Utf8.UpToNulAt | src/readstream.rs:304 | the converse: any NUL-free prefix followed by a NUL or the end is the cut string |
| Utf8.FitPrefix | src/readstream.rs:322-333 | the kept prefix fits `max_length` bytes, and when it stops early the next character would not fit |
| Utf8.FitPrefixUnique | src/readstream.rs:322-333 | any prefix with those two properties equals the kept prefix |
| Utf8.FitPrefixWhole | src/readstream.rs:322-333 | a string whose bytes fit is kept whole |
| Buffer.BitReadBuffer.Unsigned | src/readstream.rs:140-149 | the little-endian value of `count` bits from `pos`: the sum of bit `pos + k` times 2^k, where bit `i` is bit `i % 8` of byte `i / 8` counted from the least significant; its properties are the lemmas below |
| Buffer.BitReadBuffer.UnsignedBound | src/readstream.rs:140-149 | a field of `count` bits is below 2^count |
| Buffer.BitReadBuffer.UnsignedSplit | src/readstream.rs:140-149 | little-endian assembly: `a + b` bits at `pos` are the first `a` bits plus 2^a times the next `b` bits |
| Buffer.BitReadBuffer.BitsInByte | src/readstream.rs:140-149 | bits `o .. o + c` of byte `j` are `(byte / 2^o) % 2^c`, so bits are numbered from the least significant |
| Buffer.BitReadBuffer.ReadBool | src/readstream.rs:94-100 | succeeds iff one bit remains before `bit_len`, otherwise `NotEnoughData(1, left)` |
| Buffer.BitReadBuffer.ReadInt | src/readstream.rs:140-149 | `TooManyBits(count, width)` when `count` exceeds the type's width; otherwise `NotEnoughData` when the bits are not there; otherwise a value within the type's range |
| Buffer.BitReadBuffer.IntInRange | src/readstream.rs:140-149 | a `count`-bit read, sign-extended for signed types, lies within the type's minimum and maximum |
| Buffer.BitReadBuffer.ReadFloat | src/readstream.rs:189-199 | succeeds iff 32 or 64 bits remain, and returns bits below 2^width |
| Buffer.BitReadBuffer.BytesAt | src/readstream.rs:240-247 | reading `n` bytes gives `n` bytes |
| Buffer.BitReadBuffer.BytesAtIndex | src/readstream.rs:240-247 | byte `i` of the result is the 8-bit value at `pos + 8 * i` |
| Buffer.BitReadBuffer.AlignedBytes | src/readstream.rs:240-247 | at a byte-aligned position the bytes read are a slice of the storage |
| Buffer.BitReadBuffer.ReadBytes | src/readstream.rs:240-247 | succeeds iff `n * 8` bits remain, otherwise `NotEnoughData(n * 8, left)` |
| Buffer.BitReadBuffer.GetSubBuffer | src/readstream.rs:371 | succeeds iff `end <= bit_len` and shares the bytes with length `end`, otherwise `NotEnoughData(end, bit_len)` |
| Buffer.BitReadBuffer.ScanToNul | src/readstream.rs:304 | the scanned bytes contain no NUL and lie within the storage |
| Buffer.BitReadBuffer.ScanToNulStops | src/readstream.rs:304 | the scan is the bytes at the cursor, and it stops at a NUL unless the storage ends first |
| Buffer.BitReadBuffer.ScanToNulAt | src/readstream.rs:304 | any NUL-free run that ends at a NUL or at the end of the storage is the scan |
| Buffer.BitReadBuffer.ReadString | src/readstream.rs:304 | `Some(n)`: `NotEnoughData(n * 8, bit_len - pos)` iff the `n` bytes overrun `bit_len`; otherwise ok iff those bytes are valid UTF-8, and then the value is their decode cut at the first NUL, else `Utf8Error` carrying those bytes. `None`: never `NotEnoughData`; ok iff the NUL scan is valid UTF-8, and then the value is its decode, else `Utf8Error` carrying the scanned bytes |
| ReadStream.BoolStep | src/readstream.rs:94-100 | ok iff one bit is left; advances by one on success and not at all on error |
| ReadStream.IntStep | src/readstream.rs:140-149 | ok iff `count <= width` and `count <= bits_left`; advances by `count` on success and not at all on error; `TooManyBits` takes precedence; the value is in range |
| ReadStream.FloatStep | src/readstream.rs:189-199 | ok iff the type's 32 or 64 bits are left; advances by exactly that width on success, not at all on error |
| ReadStream.BytesStep | src/readstream.rs:240-247 | ok iff `n * 8 <= bits_left`; returns `n` bytes and advances by `n * 8`, or does not move |
| ReadStream.MalformedAdvance | src/readstream.rs:307-309 | an unterminated malformed string never advances by more than `max_length` |
| ReadStream.StringOutcome | src/readstream.rs:301-336 | the read fails iff the decode failed, with the same error; on success the value is a prefix of the decoded string and the cursor stays within `bits_left` |
| ReadStream.StringStep | src/readstream.rs:301-336 | the cursor never moves backwards and never passes `bit_len` |
| ReadStream.StringStepAdvance | src/readstream.rs:304-334 | `NotEnoughData` does not move the cursor, and a sized read past the window yields exactly `NotEnoughData(len * 8, bit_len - pos)`; `Utf8Error` moves it by `len * 8`, or by `min((k + 1) * 8, max_length)`; a sized success moves it by `len * 8` |
| ReadStream.SizedStringNotCut | src/readstream.rs:314-334 | a sized string that decodes is returned uncut, and the cursor moves by `len * 8` |
| ReadStream.UnsizedStringStep | src/readstream.rs:314-334 | an unterminated string is returned whole when it and its NUL fit; otherwise it is trimmed to the whole characters that fit `max_length`, and the cursor moves past them |
| ReadStream.KeepFitting | src/readstream.rs:322-333 | the trimming loop returns exactly the longest prefix that fits `max_length` bytes |
| ReadStream.SkipStep | src/readstream.rs:406-416 | ok iff `count <= bits_left`; advances by `count`, or does not move and reports `NotEnoughData(count, bits_left)` |
| ReadStream.AlignStep | src/readstream.rs:450-455 | an aligned cursor stays and returns 0; otherwise succeeds iff `8 - pos % 8` bits are left, lands on a multiple of eight and returns the 1 to 7 bits skipped; an error does not move the cursor |
| ReadStream.SetPosStep | src/readstream.rs:484-493 | ok iff the new position is within the window, and then `pos()` is that position; otherwise `IndexOutOfBounds(pos, bit_len)` and no move |
| ReadStream.BitReadStream.Valid | src/readstream.rs:29-37 | the class invariant `start_pos <= pos <= buffer.bit_len` (and the buffer's bit length within its storage); both constructors establish it and every method keeps it |
| ReadStream.BitReadStream.constructor | src/readstream.rs:58-64 | a new stream starts at 0 and its `bit_len` is the buffer's |
| ReadStream.BitReadStream.Window | src/readstream.rs:372-374 | a stream over a buffer whose window and cursor both start at the given position |
| ReadStream.BitReadStream.BitLen | src/readstream.rs:514-516 | the window's length runs from `start_pos` to the end of the buffer, so it never extends past the buffer |
| ReadStream.BitReadStream.Pos | src/readstream.rs:539-541 | the relative cursor is at most `bit_len()` |
| ReadStream.BitReadStream.BitsLeft | src/readstream.rs:564-566 | `pos() + bits_left() == bit_len()` |
| ReadStream.BitReadStream.CheckRead | src/readstream.rs:682-691 | ok iff `count <= bits_left`, otherwise `NotEnoughData(count, bits_left)`; the same verdict as `skip_bits` |
| ReadStream.BitReadStream.ReadBool | src/readstream.rs:94-100 | the result and the new cursor are `BoolStep` of the old cursor |
| ReadStream.BitReadStream.ReadBoolUnchecked | src/readstream.rs:104-108 | when a bit is left, returns the value the checked read returns and moves the same way |
| ReadStream.BitReadStream.ReadInt | src/readstream.rs:140-149 | the result and the new cursor are `IntStep` of the old cursor |
| ReadStream.BitReadStream.ReadIntUnchecked | src/readstream.rs:153-160 | when the checked read would succeed, returns its value and moves the same way |
| ReadStream.BitReadStream.ReadFloat | src/readstream.rs:189-199 | the result and the new cursor are `FloatStep` of the old cursor |
| ReadStream.BitReadStream.ReadFloatUnchecked | src/readstream.rs:203-211 | when the checked read would succeed, returns its bits and moves the same way |
| ReadStream.BitReadStream.ReadBytes | src/readstream.rs:240-247 | the result and the new cursor are `BytesStep` of the old cursor |
| ReadStream.BitReadStream.ReadBytesUnchecked | src/readstream.rs:251-256 | when the checked read would succeed, returns its bytes and moves the same way |
| ReadStream.BitReadStream.ReadString | src/readstream.rs:301-336 | the result and the new cursor are `StringStep` of the old cursor |
| ReadStream.BitReadStream.AdvanceString | src/readstream.rs:304-334 | the result and cursor after the decode are the string read's outcome, with the trimming loop on the long path |
| ReadStream.BitReadStream.ReadBits | src/readstream.rs:369-377 | succeeds iff `count <= bits_left`; the parent moves by `count`; the child shares the bytes, starts at the old cursor with `pos() == 0` and `bit_len() == count`; on error `NotEnoughData(pos + count, bit_len)` and no move |
| ReadStream.BitReadStream.SkipBits | src/readstream.rs:406-416 | the new cursor is `SkipStep`, and the result is what `check_read(count)` said beforehand |
| ReadStream.BitReadStream.Align | src/readstream.rs:450-455 | the result and the new cursor are `AlignStep` of the old cursor |
| ReadStream.BitReadStream.SetPos | src/readstream.rs:484-493 | the result and the new cursor are `SetPosStep`, and on success `pos()` is the requested position; `bit_len()` is unchanged |
| ReadStream.BitReadStream.Clone | src/readstream.rs:694-702 | the clone shares the buffer, its window starts at the old cursor with `pos() == 0`, and it has the same `bits_left` |
| ReadTraits.ReadSpec | src/read.rs:9-103 | a typed read never moves the cursor backwards or past `bit_len` |
| ReadTraits.ReadFixedWidth | src/read.rs:9-50 | integers, floats and bools succeed iff their width (8 to 128, 32 or 64, 1) is left, and then consume exactly that width; on failure the cursor stays |
| ReadTraits.ReadIntValue | src/read.rs:9-29 | `Read` for an integer type is `read_int` with the type's full width, and its value is in range |
| ReadTraits.ReadOption | src/read.rs:94-103 | `Option<T>` reads a flag bit; a false flag gives `None` after one bit, a true one reads `T`, and errors of either read pass through |
| ReadTraits.ReadSizedInt | src/read.rs:65-85 | a sized integer read succeeds iff `size <= width` and `size` bits are left, consumes `size` bits, and reports `TooManyBits(size, width)` without moving |
| ReadTraits.ReadSizedSpec | src/read.rs:65-113 | a sized read never moves the cursor backwards or past `bit_len` |
| ReadTraits.ElemReader | src/read.rs:109 | one element read, as a function of its start, stays within the buffer |
| ReadTraits.Repeat | src/read.rs:105-113 | the element loop never moves backwards or past the bound |
| ReadTraits.ReadManySpec | src/read.rs:105-113 | reading `n` elements never moves backwards or past `bit_len` |
| ReadTraits.RepeatErrorSticks | src/read.rs:108-110 | once an element read fails, further iterations change nothing (`?` returns) |
| ReadTraits.RepeatPrefix | src/read.rs:108-110 | a successful run of `n` has `n` elements, and its first `i` iterations give its first `i` elements |
| ReadTraits.RepeatElements | src/read.rs:108-110 | element `i` is what one element read returns at the cursor left by the previous `i` reads, and ends where the next begins |
| ReadTraits.RepeatFirstError | src/read.rs:108-110 | a failed run failed at some iteration `i < n` after `i` successful reads, with that read's error and cursor |
| ReadTraits.RepeatFixedWidth | src/read.rs:108-110 | when every successful element read consumes `w` bits, a successful run of `n` consumes `n * w` |
| ReadTraits.ReadVecElements | src/read.rs:105-113 | a successful `Vec<T>` has `size` elements, each read where the previous ended |
| ReadTraits.ReadVecFirstError | src/read.rs:105-113 | a failed `Vec<T>` read reports the first failing element's error, at the cursor that read left |
| ReadTraits.ReadVecFixedWidth | src/read.rs:105-113 | a `Vec` of fixed-width elements consumes `size * width` bits |
| ReadTraits.Read | src/read.rs:9-103 | the result and the new cursor are `ReadSpec` of the old cursor |
| ReadTraits.ReadSized | src/read.rs:65-113 | the result and the new cursor are `ReadSizedSpec` of the old cursor |
| ReadTraits.ReadVec | src/read.rs:105-113 | the loop's result and cursor are `Repeat` of the element read, from the old cursor |
| ReadTraits.ReadElement | src/read.rs:109 | one `stream.read()` call does what the element read says at the cursor |
| StreamExamples.BoolsExample | src/readstream.rs:84-86 | `true`, `false`, and `pos() == 2` |
| StreamExamples.IntsExample | src/readstream.rs:129-131 | two 3-bit fields give 5 and 6, and `pos() == 6` |
| StreamExamples.FloatExample | src/readstream.rs:180-181 | an `f32` read is the first 32 bits and leaves `pos() == 32` |
| StreamExamples.BytesExample | src/readstream.rs:231-232 | three bytes `0xB5, 0x6A, 0xAC` and `pos() == 24` |
| StreamExamples.StringsExample | src/readstream.rs:282-292 | fixed, padded and terminated reads all give "Hello world", ending at 88, 128 and 96 |
| StreamExamples.CutStringStep | src/readstream.rs:319-321 | an unterminated string in a 40-bit window is trimmed to "Hello" and the cursor ends at 40 |
| StreamExamples.CutStringExample | src/readstream.rs:319-321 | through the class: `read_bits(40)` over the "Hello world" storage, then `read_string(None)` in that window, gives "Hello" and `pos()` 40 |
| StreamExamples.CutHelloExample | src/readstream.rs:273-278 | the same cut on the storage the documentation example builds |
| StreamExamples.MalformedStringStep | src/readstream.rs:302-313 | malformed bytes `FF 41` in a 32-bit window report those bytes and advance by `min(24, 4)`, i.e. 4 bits |
| StreamExamples.ReadBitsExample | src/readstream.rs:356-362 | the parent moves to 3, the child has `pos() == 0` and `bit_len() == 3` and reads 5, the parent then reads 6, and reading past the child's end fails |
| StreamExamples.SkipExample | src/readstream.rs:398-399 | after skipping 3 bits the cursor is at 3 and the next field is 6 |
| StreamExamples.AlignExample | src/readstream.rs:436-443 | `align` at 0 returns `Ok(0)` and stays; after 3 bits it returns `Ok(5)` and reaches 8, where the next 4 bits are 10 |
| StreamExamples.AlignWindowExample | src/readstream.rs:450-455 | in a window that `read_bits(8)` hands out at storage bit 3, `align` returns `Ok(5)` and leaves `pos()` at 5: it aligns the absolute cursor |
| StreamExamples.SetPosExample | src/readstream.rs:476-477 | `set_pos(3)` succeeds and the next 3-bit field is 6 |
| StreamExamples.LengthsExample | src/readstream.rs:557-559 | a 64-bit stream: `bit_len` 64, `pos` 0, `bits_left` 64, then 5 and 59 after skipping 5 |
| StreamExamples.ReadExample | src/readstream.rs:583-585 | `Read` for `u8` gives 0xB5, then `bool` gives false |
| StreamExamples.StructExample | src/readstream.rs:610-615 | the derived struct reads `u8` 0xB5, a 15-bit `u16` 0x2C6A, then `true` |
| StreamExamples.ReadSizedExample | src/readstream.rs:647-648 | a 7-bit `u8` is 0x35 |
| StreamExamples.VecExample | src/readstream.rs:664-665 | three `u16` elements are 0x6AB5, 0x99AC and 0x9999 |
| StreamExamples.WindowSteps | src/readstream.rs:356-362 | inside a 3-bit window, a 3-bit read gives 5 and one more bit is `NotEnoughData(1, 0)` |

## Left out

- Big-endian bit order (`BigEndian`) is not modelled. Only the little-endian policy is.
- Floats are returned as their raw bits. Their IEEE 754 interpretation is not modelled.
- The derive macro in `bitstream_reader_derive` is not part of this model. `StructExample` writes the derived read out as its three field reads.
- `read_unchecked` and `read_sized_unchecked` (src/readstream.rs:627-629, 677-679) are not modelled. They need an unchecked `Read` impl, and `read.rs` has none.
- `From<BitReadBuffer>` is the constructor. `From<Vec<u8>>` also needs the buffer's own constructor, which is not part of this model. `Debug` is not modelled.
- `usize` overflow is not modelled. Positions and lengths are unbounded naturals.
- `Vec::with_capacity` is a memory hint and is not modelled.
- The buffer's word-level reading and its cache are not modelled. A read is specified bit by bit.
- ReadTraits.ReadVec takes the element read as a ghost function of the start position. Its precondition ties that function to `ReadSpec` for the element type, and `ReadSized` supplies it.
