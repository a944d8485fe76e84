/**
 * `writePPM` (core/image.cpp): a framebuffer of `w * h` RGBA pixels, stored
 * bottom row first, written as a binary Netpbm P6 file. The rows are written
 * top row first, the alpha byte of each pixel is dropped, and the file ends
 * with a newline after the last row.
 *
 * The file is modelled as the byte sequence written to it.
 */
module Image {
  import opened Bytes
  import Seqs
  import Text

  /** A run of decimal digit characters as ASCII bytes, one byte each. */
  function Ascii(s: string): (r: seq<byte>)
    requires forall k :: 0 <= k < |s| ==> Text.IsDigit(s[k])
    ensures |r| == |s|
  {
    if s == [] then []
    else
      assert Text.IsDigit(s[|s| - 1]);
      Ascii(s[..|s| - 1]) + [s[|s| - 1] as int]
  }

  /** Each byte of a run of digit characters is an ASCII digit. */
  lemma {:induction false} AsciiDigits(s: string)
    requires forall k :: 0 <= k < |s| ==> Text.IsDigit(s[k])
    ensures forall k :: 0 <= k < |Ascii(s)| ==> '0' as int <= Ascii(s)[k] <= '9' as int
  {
    if s != [] {
      var init := s[..|s| - 1];
      assert forall k :: 0 <= k < |init| ==> init[k] == s[k];
      AsciiDigits(init);
      assert Text.IsDigit(s[|s| - 1]);
    }
  }

  /** Decimal digits of `n` as ASCII bytes, as `printf("%i")` prints a non-negative int. */
  function Decimal(n: nat): (r: seq<byte>)
    ensures |r| >= 1
  {
    Ascii(Text.NatToString(n))
  }

  /** The width and height print as ASCII digits only. */
  lemma DecimalDigits(n: nat)
    ensures forall k :: 0 <= k < |Decimal(n)| ==> '0' as int <= Decimal(n)[k] <= '9' as int
  {
    AsciiDigits(Text.NatToString(n));
  }

  /** Reads back a run of ASCII decimal digits. */
  function DecimalValue(r: seq<byte>): nat
  {
    if r == [] then 0
    else 10 * DecimalValue(r[..|r| - 1]) + (if r[|r| - 1] >= 48 then r[|r| - 1] - 48 else 0)
  }

  /** The digits read back as bytes have the value they have as characters. */
  lemma {:induction false} DecimalValueOfAscii(s: string)
    requires forall k :: 0 <= k < |s| ==> Text.IsDigit(s[k])
    ensures DecimalValue(Ascii(s)) == Text.ParseDigits(s)
  {
    if s != [] {
      var init := s[..|s| - 1];
      assert Ascii(s)[..|s| - 1] == Ascii(init);
      assert forall k :: 0 <= k < |init| ==> init[k] == s[k];
      DecimalValueOfAscii(init);
    }
  }

  lemma {:induction false} DecimalValueOfDecimal(n: nat)
    ensures DecimalValue(Decimal(n)) == n
  {
    DecimalValueOfAscii(Text.NatToString(n));
    Text.ParseNatToString(n);
  }

  /** `P6\n<w> <h>\n255\n`. */
  function PpmHeader(w: nat, h: nat): (r: seq<byte>)
    ensures |r| >= 10
    ensures r[..3] == [80, 54, 10]                 // "P6\n"
    ensures r[|r| - 5..] == [10, 50, 53, 53, 10]   // "\n255\n"
  {
    [80, 54, 10] + Decimal(w) + [32] + Decimal(h) + [10, 50, 53, 53, 10]
  }

  /** The first `n` pixels of an RGBA row, alpha dropped: 3 bytes per pixel. */
  function DropAlpha(line: seq<byte>, n: nat): (r: seq<byte>)
    requires 4 * n <= |line|
    ensures |r| == 3 * n
  {
    if n == 0 then [] else DropAlpha(line, n - 1) + line[4 * (n - 1)..4 * (n - 1) + 3]
  }

  lemma {:induction false} DropAlphaAt(line: seq<byte>, n: nat, x: nat, c: nat)
    requires 4 * n <= |line| && x < n && c < 3
    ensures DropAlpha(line, n)[3 * x + c] == line[4 * x + c]
  {
    if x < n - 1 {
      DropAlphaAt(line, n - 1, x, c);
    }
  }

  lemma MulMono(a: nat, b: nat, c: nat)
    requires b <= c
    ensures a * b <= a * c
  {
  }

  /** Input row `r`: the `w` pixels starting at pixel `r * w`. */
  function InputRow(pixel: seq<byte>, w: nat, h: nat, r: nat): (line: seq<byte>)
    requires |pixel| == 4 * w * h && r < h
    ensures |line| == 4 * w
  {
    MulMono(4 * w, r + 1, h);
    pixel[4 * w * r..4 * w * (r + 1)]
  }

  /** The first `n` output rows: output row `y` is input row `h - 1 - y`. */
  function Rows(pixel: seq<byte>, w: nat, h: nat, n: nat): (r: seq<byte>)
    requires |pixel| == 4 * w * h && n <= h
    ensures |r| == 3 * w * n
  {
    if n == 0 then []
    else Rows(pixel, w, h, n - 1) + DropAlpha(InputRow(pixel, w, h, h - n), w)
  }

  /** The whole file. */
  function Ppm(pixel: seq<byte>, w: nat, h: nat): (file: seq<byte>)
    requires |pixel| == 4 * w * h
    ensures |file| == |PpmHeader(w, h)| + 3 * w * h + 1
    ensures file[..|PpmHeader(w, h)|] == PpmHeader(w, h)
    ensures file[|file| - 1] == 10
  {
    var header, body := PpmHeader(w, h), Rows(pixel, w, h, h);
    Terminated(header, body);
    header + body + [10]
  }

  /** A header, then a body, then a final newline. */
  lemma Terminated(header: seq<byte>, body: seq<byte>)
    ensures |header + body + [10]| == |header| + |body| + 1
    ensures (header + body + [10])[..|header|] == header
    ensures (header + body + [10])[|header| + |body|] == 10
  {
    assert (header + body + [10])[..|header|] == header;
  }

  lemma {:induction false} RowsAt(pixel: seq<byte>, w: nat, h: nat, n: nat, y: nat, k: nat)
    requires |pixel| == 4 * w * h && n <= h && y < n && k < 3 * w
    ensures 3 * w * y + k < 3 * w * n
    ensures Rows(pixel, w, h, n)[3 * w * y + k] == DropAlpha(InputRow(pixel, w, h, h - 1 - y), w)[k]
  {
    var L := 3 * w;
    MulMono(L, y + 1, n);
    assert L * y + k < L * (y + 1);
    var prev := Rows(pixel, w, h, n - 1);
    var last := DropAlpha(InputRow(pixel, w, h, h - n), w);
    assert Rows(pixel, w, h, n) == prev + last;
    assert |prev| == L * (n - 1);
    if y < n - 1 {
      MulMono(L, y + 1, n - 1);
      RowsAt(pixel, w, h, n - 1, y, k);
      assert (prev + last)[L * y + k] == prev[L * y + k];
    } else {
      assert L * y + k == |prev| + k;
      assert (prev + last)[|prev| + k] == last[k];
    }
  }

  /**
   * Byte `c` of the pixel in column `x` of the file's row `y` is byte `c` of
   * the input pixel in column `x` of row `h - 1 - y`.
   */
  lemma PpmPixel(pixel: seq<byte>, w: nat, h: nat, x: nat, y: nat, c: nat)
    requires |pixel| == 4 * w * h && x < w && y < h && c < 3
    ensures var i := |PpmHeader(w, h)| + (3 * w * y + (3 * x + c));
            i < |Ppm(pixel, w, h)| && Ppm(pixel, w, h)[i] == PixelByte(pixel, w, h, x, h - 1 - y, c)
  {
    PpmRowByte(pixel, w, h, y, 3 * x + c);
    DropAlphaAt(InputRow(pixel, w, h, h - 1 - y), w, x, c);
    InputRowAt(pixel, w, h, h - 1 - y, x, c);
  }

  /** Byte `k` of the file's row `y` is byte `k` of that row with alpha dropped. */
  lemma PpmRowByte(pixel: seq<byte>, w: nat, h: nat, y: nat, k: nat)
    requires |pixel| == 4 * w * h && y < h && k < 3 * w
    ensures var i := |PpmHeader(w, h)| + (3 * w * y + k);
            i < |Ppm(pixel, w, h)| && Ppm(pixel, w, h)[i] == DropAlpha(InputRow(pixel, w, h, h - 1 - y), w)[k]
  {
    RowsAt(pixel, w, h, h, y, k);
    PpmAt(pixel, w, h, 3 * w * y + k);
  }

  /** Byte `c` of the input pixel in column `x` of row `r`, row-major from the bottom row. */
  function PixelByte(pixel: seq<byte>, w: nat, h: nat, x: nat, r: nat, c: nat): byte
    requires |pixel| == 4 * w * h && x < w && r < h && c < 3
  {
    PixelIndex(w, h, r, x, c);
    pixel[4 * (r * w + x) + c]
  }

  lemma InputRowAt(pixel: seq<byte>, w: nat, h: nat, r: nat, x: nat, c: nat)
    requires |pixel| == 4 * w * h && r < h && x < w && c < 3
    ensures 4 * (r * w + x) + c < |pixel|
    ensures InputRow(pixel, w, h, r)[4 * x + c] == pixel[4 * (r * w + x) + c]
  {
    PixelIndex(w, h, r, x, c);
  }

  lemma PpmAt(pixel: seq<byte>, w: nat, h: nat, i: nat)
    requires |pixel| == 4 * w * h && i < 3 * w * h
    ensures |PpmHeader(w, h)| + i < |Ppm(pixel, w, h)|
    ensures Ppm(pixel, w, h)[|PpmHeader(w, h)| + i] == Rows(pixel, w, h, h)[i]
  {
  }

  lemma PixelIndex(w: nat, h: nat, r: nat, x: nat, c: nat)
    requires r < h && x < w && c < 3
    ensures 4 * w * r + 4 * x + c == 4 * (r * w + x) + c
    ensures 4 * w * r + 4 * x + c < 4 * w * (r + 1) <= 4 * w * h
    ensures 4 * (r * w + x) + c < 4 * w * h
  {
    MulMono(4 * w, r + 1, h);
  }

  /**
   * `writePPM`: for each output row, copy the RGB bytes of the matching input
   * row into a row buffer of `3 * w` bytes and write that buffer; then write
   * the closing newline.
   */
  method WritePPM(w: nat, h: nat, pixel: seq<byte>) returns (file: seq<byte>)
    requires |pixel| == 4 * w * h
    ensures file == Ppm(pixel, w, h)
  {
    file := PpmHeader(w, h);
    var out := new byte[3 * w];
    for y := 0 to h
      invariant file == PpmHeader(w, h) + Rows(pixel, w, h, y)
    {
      var line := InputRow(pixel, w, h, h - 1 - y);
      CopyRGB(out, line, w);
      ghost var before := file;
      file := file + out[..];
      assert Rows(pixel, w, h, y + 1) == Rows(pixel, w, h, y) + DropAlpha(line, w);
      Seqs.Snoc(PpmHeader(w, h), Rows(pixel, w, h, y), DropAlpha(line, w), before, file);
    }
    file := file + [10];
  }

  /** The row loop of `writePPM`: the RGB bytes of each of the `w` pixels of `line`, in order. */
  method CopyRGB(out: array<byte>, line: seq<byte>, w: nat)
    requires out.Length == 3 * w && |line| == 4 * w
    modifies out
    ensures out[..] == DropAlpha(line, w)
  {
    for x := 0 to w
      invariant out[..3 * x] == DropAlpha(line, x)
    {
      ghost var before := out[..3 * x];
      out[3 * x + 0] := line[4 * x + 0];
      out[3 * x + 1] := line[4 * x + 1];
      out[3 * x + 2] := line[4 * x + 2];
      assert out[..3 * x] == before;
      assert out[3 * x..3 * (x + 1)] == line[4 * x..4 * x + 3];
      assert out[..3 * (x + 1)] == out[..3 * x] + out[3 * x..3 * (x + 1)];
    }
    assert out[..] == out[..3 * w];
  }
}
