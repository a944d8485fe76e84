/**
 * Byte-level building blocks shared by every wire format of the renderer:
 * octets, unsigned 32-bit words, their little-endian encoding and
 * concatenations of encoded words.
 *
 * A float is never computed on anywhere in this model: it travels as the
 * 32 bits of its IEEE-754 single-precision representation.
 */
module Bytes {

  type byte = x: int | 0 <= x < 256
  type u32 = x: int | 0 <= x < 0x1_0000_0000

  const U32_LIMIT: int := 0x1_0000_0000

  /** A single-precision float, carried as its bit pattern. */
  datatype F32 = F32(bits: u32)

  /** Little-endian encoding of a 32-bit word, as `pack('<I', x)` produces it. */
  function LE32(x: u32): (r: seq<byte>)
    ensures |r| == 4
    ensures ReadLE32(r) == x
  {
    LE32Digits(x);
    [x % 256, (x / 256) % 256, (x / 65536) % 256, x / 16777216]
  }

  /** The four base-256 digits of a word add back up to it. */
  lemma LE32Digits(x: u32)
    ensures (x % 256) + 256 * ((x / 256) % 256) + 65536 * ((x / 65536) % 256) + 16777216 * (x / 16777216) == x
  {
    var q1 := x / 256;
    var q2 := q1 / 256;
    var q3 := q2 / 256;
    assert x == x % 256 + 256 * q1;
    assert q1 == q1 % 256 + 256 * q2;
    assert q2 == q2 % 256 + 256 * q3;
    assert x / 65536 == q2;
    assert x / 16777216 == q3;
  }

  /** Reads a little-endian word from the first four bytes of `b`. */
  function ReadLE32(b: seq<byte>): (x: u32)
    requires |b| >= 4
  {
    (b[0] as int) + 256 * (b[1] as int) + 65536 * (b[2] as int) + 16777216 * (b[3] as int)
  }

  lemma DivMod256(lo: int, hi: int)
    requires 0 <= lo < 256 && 0 <= hi
    ensures (lo + 256 * hi) % 256 == lo
    ensures (lo + 256 * hi) / 256 == hi
  {
  }

  /** Every four bytes are the encoding of the word they decode to. */
  lemma LE32OfReadLE32(b: seq<byte>)
    requires |b| >= 4
    ensures LE32(ReadLE32(b)) == b[..4]
  {
    var x := ReadLE32(b);
    var h2: int := (b[2] as int) + 256 * (b[3] as int);
    var h1: int := (b[1] as int) + 256 * h2;
    assert x == b[0] + 256 * h1;
    DivMod256(b[0], h1);
    DivMod256(b[1], h2);
    DivMod256(b[2], b[3]);
    assert x / 65536 == (x / 256) / 256;
    assert x / 16777216 == ((x / 256) / 256) / 256;
  }

  /** Concatenated little-endian encodings of a word sequence. */
  function WordsLE(ws: seq<u32>): (r: seq<byte>)
    ensures |r| == 4 * |ws|
  {
    if ws == [] then [] else LE32(ws[0]) + WordsLE(ws[1..])
  }

  /** Decodes `n` little-endian words from the front of `b`. */
  function ReadWordsLE(b: seq<byte>, n: nat): (ws: seq<u32>)
    requires |b| >= 4 * n
    ensures |ws| == n
  {
    if n == 0 then [] else [ReadLE32(b)] + ReadWordsLE(b[4..], n - 1)
  }

  lemma WordsLEAppend(a: seq<u32>, b: seq<u32>)
    ensures WordsLE(a + b) == WordsLE(a) + WordsLE(b)
  {
    if a != [] {
      assert (a + b)[1..] == a[1..] + b;
      WordsLEAppend(a[1..], b);
      calc {
        WordsLE(a + b);
        LE32((a + b)[0]) + WordsLE((a + b)[1..]);
        LE32(a[0]) + (WordsLE(a[1..]) + WordsLE(b));
        (LE32(a[0]) + WordsLE(a[1..])) + WordsLE(b);
        WordsLE(a) + WordsLE(b);
      }
    } else {
      assert a + b == b;
    }
  }

  /** Decoding the encoding of `ws` (followed by anything) gives back `ws`. */
  lemma {:induction false} ReadWordsOfWords(ws: seq<u32>, rest: seq<byte>)
    ensures ReadWordsLE(WordsLE(ws) + rest, |ws|) == ws
  {
    if ws != [] {
      var b := WordsLE(ws) + rest;
      assert b[..4] == LE32(ws[0]);
      assert b[4..] == WordsLE(ws[1..]) + rest;
      ReadWordsOfWords(ws[1..], rest);
    }
  }

  /** Word `i` of an encoded sequence sits at bytes 4i..4i+4. */
  lemma {:induction false} WordsLEAt(ws: seq<u32>, i: nat)
    requires i < |ws|
    ensures WordsLE(ws)[4 * i .. 4 * i + 4] == LE32(ws[i])
  {
    if i > 0 {
      WordsLEAt(ws[1..], i - 1);
      assert WordsLE(ws) == LE32(ws[0]) + WordsLE(ws[1..]);
    }
  }

  function FloatBits(fs: seq<F32>): (ws: seq<u32>)
    ensures |ws| == |fs|
    ensures forall i :: 0 <= i < |fs| ==> ws[i] == fs[i].bits
  {
    if fs == [] then [] else [fs[0].bits] + FloatBits(fs[1..])
  }

  function Floats(ws: seq<u32>): (fs: seq<F32>)
    ensures |fs| == |ws|
    ensures forall i :: 0 <= i < |ws| ==> fs[i].bits == ws[i]
  {
    if ws == [] then [] else [F32(ws[0])] + Floats(ws[1..])
  }

  lemma FloatsOfFloatBits(fs: seq<F32>)
    ensures Floats(FloatBits(fs)) == fs
  {
    assert forall i :: 0 <= i < |fs| ==> Floats(FloatBits(fs))[i] == fs[i];
  }

  /** Little-endian encoding of a float array, four bytes per value. */
  function FloatsLE(fs: seq<F32>): (r: seq<byte>)
    ensures |r| == 4 * |fs|
  {
    WordsLE(FloatBits(fs))
  }

  function Min(a: int, b: int): int
  {
    if a <= b then a else b
  }
}
