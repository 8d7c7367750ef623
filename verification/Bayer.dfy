/**
  The Bayer mosaic and the pure specification of its decoding and interpolation
  (lib/image/rawimage.cpp).
 */
module Bayer {
  import opened Common

  newtype uint16 = x: int | 0 <= x < 0x1_0000

  // ---------------------------------------------------------------- mosaic

  const RED := 0
  const GREEN := 1
  const BLUE := 2

  /** The colour that is sampled at column `x` of row `y`. */
  function ColorIndex(x: int, y: int): (c: int)
    ensures 0 <= c < 3 && c == 2 - x % 2 - y % 2
  {
    if y % 2 != 0 then (if x % 2 != 0 then RED else GREEN) else (if x % 2 != 0 then GREEN else BLUE)
  }

  /** The samples of an image, one per pixel. */
  type Raw = seq<seq<int>>

  ghost predicate Shaped(raw: Raw, rows: nat, cols: nat) {
    && |raw| == rows
    && (forall y :: 0 <= y < rows ==> |raw[y]| == cols)
    && (forall y, x :: 0 <= y < rows && 0 <= x < cols ==> 0 <= raw[y][x] < 0x1_0000)
  }

  lemma SameSamples(a: Raw, b: Raw, rows: nat, cols: nat)
    requires Shaped(a, rows, cols) && Shaped(b, rows, cols)
    requires forall y, x :: 0 <= y < rows && 0 <= x < cols ==> a[y][x] == b[y][x]
    ensures a == b
  {
    forall y | 0 <= y < rows
      ensures a[y] == b[y]
    {
    }
  }

  ghost predicate Inner(raw: Raw, y: int, x: int) {
    1 <= y < |raw| - 1 && |raw[y - 1]| == |raw[y]| == |raw[y + 1]| && 1 <= x < |raw[y]| - 1
  }

  // ---------------------------------------------------------------- reference interpolation

  /** The neighbour at offset (dy, dx) if it samples the colour, else 0. */
  function Sampled(raw: Raw, y: int, x: int, dy: int, dx: int, ch: int): int
    requires Inner(raw, y, x) && -1 <= dy <= 1 && -1 <= dx <= 1
  {
    if ColorIndex(x + dx, y + dy) == ch then raw[y + dy][x + dx] else 0
  }

  function IsSampled(y: int, x: int, ch: int): int {
    if ColorIndex(x, y) == ch then 1 else 0
  }

  function NeighbourSum(raw: Raw, y: int, x: int, ch: int): int
    requires Inner(raw, y, x)
  {
    Sampled(raw, y, x, -1, -1, ch) + Sampled(raw, y, x, -1, 0, ch) + Sampled(raw, y, x, -1, 1, ch) +
    Sampled(raw, y, x, 0, -1, ch) + Sampled(raw, y, x, 0, 1, ch) +
    Sampled(raw, y, x, 1, -1, ch) + Sampled(raw, y, x, 1, 0, ch) + Sampled(raw, y, x, 1, 1, ch)
  }

  function NeighbourCount(y: int, x: int, ch: int): int {
    IsSampled(y - 1, x - 1, ch) + IsSampled(y - 1, x, ch) + IsSampled(y - 1, x + 1, ch) +
    IsSampled(y, x - 1, ch) + IsSampled(y, x + 1, ch) +
    IsSampled(y + 1, x - 1, ch) + IsSampled(y + 1, x, ch) + IsSampled(y + 1, x + 1, ch)
  }

  /**
    The reference value of a colour at an inner pixel: its own sample if the pixel samples the
    colour, else the truncated average of all samples of the colour among the eight neighbours.
   */
  function Interpolated(raw: Raw, y: int, x: int, ch: int): int
    requires Inner(raw, y, x) && 0 <= ch < 3
  {
    if ColorIndex(x, y) == ch then raw[y][x]
    else
      var n := NeighbourCount(y, x, ch);
      if n == 0 then 0 else NeighbourSum(raw, y, x, ch) / n
  }

  function Clamp(v: int, lo: int, hi: int): int {
    if v < lo then lo else if v > hi then hi else v
  }

  /** Border pixels repeat the nearest inner pixel. */
  function Demosaiced(raw: Raw, rows: nat, cols: nat, y: int, x: int, ch: int): int
    requires Shaped(raw, rows, cols) && rows >= 3 && cols >= 3 && 0 <= ch < 3
  {
    Interpolated(raw, Clamp(y, 1, rows - 2), Clamp(x, 1, cols - 2), ch)
  }

  // ---------------------------------------------------------------- the formulas of the code

  function BilinearInterpolation(f00: uint16, f01: uint16, f10: uint16, f11: uint16): (r: uint16)
    ensures r as int == (f00 as int + f01 as int + f10 as int + f11 as int) / 4
  {
    var a := 0.5 * (f00 as real + f10 as real);
    var b := 0.5 * (f01 as real + f11 as real);
    assert 0.5 * (a + b) == (f00 as int + f01 as int + f10 as int + f11 as int) as real / 4.0;
    (0.5 * (a + b)).Floor as uint16
  }

  function AvgInterpolation(f00: uint16, f01: uint16, f10: uint16, f11: uint16): (r: uint16)
    ensures r as int == (f00 as int + f01 as int + f10 as int + f11 as int) / 4
  {
    assert 0.25 * (f00 as real + f01 as real + f10 as real + f11 as real)
        == (f00 as int + f01 as int + f10 as int + f11 as int) as real / 4.0;
    (0.25 * (f00 as real + f01 as real + f10 as real + f11 as real)).Floor as uint16
  }

  function HalfSum(a: uint16, b: uint16): (r: uint16)
    ensures r as int == (a as int + b as int) / 2
  {
    (0.5 * ((a as int + b as int) as real)).Floor as uint16
  }

  /** Red and blue at a green pixel of a red row come from its sides and from above and below. */
  lemma GreenInRedRow(raw: Raw, y: int, x: int)
    requires Inner(raw, y, x) && y % 2 == 1 && x % 2 == 0
    ensures Interpolated(raw, y, x, RED) == (raw[y][x - 1] + raw[y][x + 1]) / 2
    ensures Interpolated(raw, y, x, BLUE) == (raw[y - 1][x] + raw[y + 1][x]) / 2
    ensures ColorIndex(x, y) == GREEN
  {
  }

  lemma GreenInBlueRow(raw: Raw, y: int, x: int)
    requires Inner(raw, y, x) && y % 2 == 0 && x % 2 == 1
    ensures Interpolated(raw, y, x, RED) == (raw[y - 1][x] + raw[y + 1][x]) / 2
    ensures Interpolated(raw, y, x, BLUE) == (raw[y][x - 1] + raw[y][x + 1]) / 2
    ensures ColorIndex(x, y) == GREEN
  {
  }

  lemma BluePixel(raw: Raw, y: int, x: int)
    requires Inner(raw, y, x) && y % 2 == 0 && x % 2 == 0
    ensures Interpolated(raw, y, x, RED) ==
            (raw[y + 1][x - 1] + raw[y - 1][x - 1] + raw[y + 1][x + 1] + raw[y - 1][x + 1]) / 4
    ensures Interpolated(raw, y, x, GREEN) == (raw[y][x - 1] + raw[y][x + 1] + raw[y - 1][x] + raw[y + 1][x]) / 4
    ensures ColorIndex(x, y) == BLUE
  {
  }

  lemma RedPixel(raw: Raw, y: int, x: int)
    requires Inner(raw, y, x) && y % 2 == 1 && x % 2 == 1
    ensures Interpolated(raw, y, x, BLUE) ==
            (raw[y + 1][x - 1] + raw[y - 1][x - 1] + raw[y + 1][x + 1] + raw[y - 1][x + 1]) / 4
    ensures Interpolated(raw, y, x, GREEN) == (raw[y][x - 1] + raw[y][x + 1] + raw[y - 1][x] + raw[y + 1][x]) / 4
    ensures ColorIndex(x, y) == RED
  {
  }

  // ---------------------------------------------------------------- packed samples

  /** The first twelve bits of three bytes, moved to the top of sixteen. */
  function FirstSample(b0: byte, b1: byte): (r: uint16)
    ensures r % 16 == 0
  {
    b0 as uint16 * 256 + b1 as uint16 / 16 * 16
  }

  /** The other twelve bits. */
  function SecondSample(b1: byte, b2: byte): (r: uint16)
    ensures r % 16 == 0
  {
    b1 as uint16 % 16 * 4096 + b2 as uint16 * 16
  }

  /** Bytes with the hexadecimal digits ab, cd, ef give the samples abc0 and def0. */
  lemma HexDigits(a: int, b: int, c: int, d: int, e: int, f: int)
    requires 0 <= a < 16 && 0 <= b < 16 && 0 <= c < 16 && 0 <= d < 16 && 0 <= e < 16 && 0 <= f < 16
    ensures FirstSample((16 * a + b) as byte, (16 * c + d) as byte) as int == 0x1000 * a + 0x100 * b + 0x10 * c
    ensures SecondSample((16 * c + d) as byte, (16 * e + f) as byte) as int == 0x1000 * d + 0x100 * e + 0x10 * f
  {
    var b1: byte := (16 * c + d) as byte;
    assert b1 as int / 16 == c && b1 as int % 16 == d;
  }

  /** The shifts and masks of the code are these sums. */
  lemma ShiftsAndMasks(b0: bv16, b1: bv16, b2: bv16)
    requires b0 < 0x100 && b1 < 0x100 && b2 < 0x100
    ensures (b0 << 8) | (b1 & 0xF0) == b0 * 256 + b1 / 16 * 16
    ensures ((b1 & 0xF) << 12) | (b2 << 4) == b1 % 16 * 4096 + b2 * 16
  {
  }

  /** The read buffer. */
  datatype Buf = Buf(b0: byte, b1: byte, b2: byte)

  /**
    The buffer after `i` reads of three bytes each.  A read past the end of the stream leaves
    the bytes it does not get as they were.
   */
  function BufAt(stream: seq<byte>, init: Buf, i: nat): Buf {
    if i == 0 then init
    else
      var old_, k := BufAt(stream, init, i - 1), 3 * (i - 1);
      Buf(if k < |stream| then stream[k] else old_.b0,
          if k + 1 < |stream| then stream[k + 1] else old_.b1,
          if k + 2 < |stream| then stream[k + 2] else old_.b2)
  }

  /** The `n`-th sample that is read from the stream. */
  function RawSample(stream: seq<byte>, init: Buf, n: nat): uint16 {
    var buf := BufAt(stream, init, n / 2 + 1);
    if n % 2 == 0 then FirstSample(buf.b0, buf.b1) else SecondSample(buf.b1, buf.b2)
  }

  newtype uint12 = x: int | 0 <= x < 0x1000

  /** Two twelve-bit samples in three bytes, most significant bits first. */
  function PackPair(u: uint12, v: uint12): seq<byte> {
    [(u / 16) as byte, (u % 16 * 16 + v / 256) as byte, (v % 256) as byte]
  }

  /** A sensor readout: consecutive pairs of samples. */
  function Packed(samples: seq<uint12>): (r: seq<byte>)
    requires |samples| % 2 == 0
    ensures 2 * |r| == 3 * |samples|
  {
    if samples == [] then []
    else
      var n := |samples|;
      Packed(samples[..n - 2]) + PackPair(samples[n - 2], samples[n - 1])
  }

  lemma {:induction false} PackedPair(samples: seq<uint12>, k: nat)
    requires |samples| % 2 == 0 && 2 * k + 1 < |samples|
    ensures 3 * k + 2 < |Packed(samples)|
    ensures Packed(samples)[3 * k..3 * k + 3] == PackPair(samples[2 * k], samples[2 * k + 1])
  {
    var n := |samples|;
    var front := Packed(samples[..n - 2]);
    if 2 * k + 2 == n {
      assert |front| == 3 * k;
    } else {
      PackedPair(samples[..n - 2], k);
      assert Packed(samples)[3 * k..3 * k + 3] == front[3 * k..3 * k + 3];
    }
  }

  lemma UnpackPair(u: uint12, v: uint12)
    ensures var b := PackPair(u, v);
            FirstSample(b[0], b[1]) as int == 16 * u as int && SecondSample(b[1], b[2]) as int == 16 * v as int
  {
  }

  /** Reading a packed readout gives back every sample, in the upper twelve bits. */
  lemma DecodePacked(samples: seq<uint12>, init: Buf, n: nat)
    requires |samples| % 2 == 0 && n < |samples|
    ensures RawSample(Packed(samples), init, n) as int == 16 * samples[n] as int
  {
    hide Packed, FirstSample, SecondSample, PackPair;
    var k := n / 2;
    PackedPair(samples, k);
    var s := Packed(samples);
    assert s[3 * k] == s[3 * k..3 * k + 3][0];
    assert s[3 * k + 1] == s[3 * k..3 * k + 3][1];
    assert s[3 * k + 2] == s[3 * k..3 * k + 3][2];
    UnpackPair(samples[2 * k], samples[2 * k + 1]);
  }
}
