/** Reading and demosaicing a raw image in place (lib/image/rawimage.cpp). */
module RawImages {
  import opened Common
  import opened Bayer

  ghost predicate IsImage(data: array3<uint16>) {
    data.Length0 >= 3 && data.Length1 >= 4 && data.Length2 == 3
  }

  /** The native sample of every pixel of the buffer. */
  ghost function SamplesOf(data: array3<uint16>): (raw: Raw)
    requires data.Length2 == 3
    reads data
    ensures Shaped(raw, data.Length0, data.Length1)
    ensures forall y, x :: 0 <= y < data.Length0 && 0 <= x < data.Length1 ==>
              raw[y][x] == data[y, x, ColorIndex(x, y)] as int
  {
    seq(data.Length0, y requires 0 <= y < data.Length0 reads data =>
      seq(data.Length1, x requires 0 <= x < data.Length1 reads data => data[y, x, ColorIndex(x, y)] as int))
  }

  /** An inner pixel with the given row and column parity. */
  ghost predicate Site(data: array3<uint16>, a: int, b: int, y: int, x: int) {
    y % 2 == a && x % 2 == b && 1 <= y < data.Length0 - 1 && 1 <= x < data.Length1 - 1
  }

  /** Any entry of the buffer but the two that are interpolated at pixel (y, x). */
  ghost predicate Elsewhere(data: array3<uint16>, y: int, x: int, r: int, c: int, ch: int) {
    && 0 <= r < data.Length0 && 0 <= c < data.Length1 && 0 <= ch < data.Length2
    && (r != y || c != x || ch == ColorIndex(x, y))
  }

  /** First pass: red from the sides, blue from above and below. */
  method RedLineBlueStripe(data: array3<uint16>, y: nat, x: nat)
    requires IsImage(data) && Site(data, 1, 0, y, x)
    modifies data
    ensures forall ch :: 0 <= ch < 3 && ch != ColorIndex(x, y) ==>
              data[y, x, ch] as int == Interpolated(old(SamplesOf(data)), y, x, ch)
    ensures forall r, c, ch :: Elsewhere(data, y, x, r, c, ch) ==> data[r, c, ch] == old(data[r, c, ch])
  {
    hide Interpolated, HalfSum, BilinearInterpolation, AvgInterpolation;
    GreenInRedRow(SamplesOf(data), y, x);
    data[y, x, 0] := HalfSum(data[y, x - 1, 0], data[y, x + 1, 0]);
    data[y, x, 2] := HalfSum(data[y - 1, x, 2], data[y + 1, x, 2]);
  }

  /** Second pass: red from above and below, blue from the sides. */
  method RedStripeBlueLine(data: array3<uint16>, y: nat, x: nat)
    requires IsImage(data) && Site(data, 0, 1, y, x)
    modifies data
    ensures forall ch :: 0 <= ch < 3 && ch != ColorIndex(x, y) ==>
              data[y, x, ch] as int == Interpolated(old(SamplesOf(data)), y, x, ch)
    ensures forall r, c, ch :: Elsewhere(data, y, x, r, c, ch) ==> data[r, c, ch] == old(data[r, c, ch])
  {
    hide Interpolated, HalfSum, BilinearInterpolation, AvgInterpolation;
    GreenInBlueRow(SamplesOf(data), y, x);
    data[y, x, 0] := HalfSum(data[y - 1, x, 0], data[y + 1, x, 0]);
    data[y, x, 2] := HalfSum(data[y, x - 1, 2], data[y, x + 1, 2]);
  }

  /** Third pass: red from the corners, green from the sides. */
  method RedMiddleGreen(data: array3<uint16>, y: nat, x: nat)
    requires IsImage(data) && Site(data, 0, 0, y, x)
    modifies data
    ensures forall ch :: 0 <= ch < 3 && ch != ColorIndex(x, y) ==>
              data[y, x, ch] as int == Interpolated(old(SamplesOf(data)), y, x, ch)
    ensures forall r, c, ch :: Elsewhere(data, y, x, r, c, ch) ==> data[r, c, ch] == old(data[r, c, ch])
  {
    hide Interpolated, HalfSum, BilinearInterpolation, AvgInterpolation;
    BluePixel(SamplesOf(data), y, x);
    data[y, x, 0] := BilinearInterpolation(data[y + 1, x - 1, 0], data[y - 1, x - 1, 0],
                                           data[y + 1, x + 1, 0], data[y - 1, x + 1, 0]);
    data[y, x, 1] := AvgInterpolation(data[y, x - 1, 1], data[y, x + 1, 1], data[y - 1, x, 1], data[y + 1, x, 1]);
  }

  /** Fourth pass: blue from the corners, green from the sides. */
  method BlueMiddleGreen(data: array3<uint16>, y: nat, x: nat)
    requires IsImage(data) && Site(data, 1, 1, y, x)
    modifies data
    ensures forall ch :: 0 <= ch < 3 && ch != ColorIndex(x, y) ==>
              data[y, x, ch] as int == Interpolated(old(SamplesOf(data)), y, x, ch)
    ensures forall r, c, ch :: Elsewhere(data, y, x, r, c, ch) ==> data[r, c, ch] == old(data[r, c, ch])
  {
    hide Interpolated, HalfSum, BilinearInterpolation, AvgInterpolation;
    RedPixel(SamplesOf(data), y, x);
    data[y, x, 2] := BilinearInterpolation(data[y + 1, x - 1, 2], data[y - 1, x - 1, 2],
                                           data[y + 1, x + 1, 2], data[y - 1, x + 1, 2]);
    data[y, x, 1] := AvgInterpolation(data[y, x - 1, 1], data[y, x + 1, 1], data[y - 1, x, 1], data[y + 1, x, 1]);
  }

  method InterpolatePixel(data: array3<uint16>, y: nat, x: nat)
    requires IsImage(data) && Site(data, y % 2, x % 2, y, x)
    modifies data
    ensures forall ch :: 0 <= ch < 3 && ch != ColorIndex(x, y) ==>
              data[y, x, ch] as int == Interpolated(old(SamplesOf(data)), y, x, ch)
    ensures forall r, c, ch :: Elsewhere(data, y, x, r, c, ch) ==> data[r, c, ch] == old(data[r, c, ch])
  {
    hide Interpolated, ColorIndex, Elsewhere;
    if y % 2 != 0 && x % 2 == 0 {
      RedLineBlueStripe(data, y, x);
    } else if y % 2 == 0 && x % 2 != 0 {
      RedStripeBlueLine(data, y, x);
    } else if y % 2 == 0 {
      RedMiddleGreen(data, y, x);
    } else {
      BlueMiddleGreen(data, y, x);
    }
  }

  /** Already interpolated when the pass has reached pixel (y, x). */
  ghost predicate Passed(data: array3<uint16>, a: int, b: int, y: int, x: int, r: int, c: int) {
    Site(data, a, b, r, c) && (r < y || (r == y && c < x))
  }

  /**
    One pass over all inner pixels of one parity.  It reads native samples only, so it does not
    matter what the other passes have written.
   */
  method Pass(data: array3<uint16>, y0: nat, x0: nat)
    requires IsImage(data) && 1 <= y0 <= 2 && 1 <= x0 <= 2
    modifies data
    ensures forall y, x, ch :: 0 <= y < data.Length0 && 0 <= x < data.Length1 && 0 <= ch < 3 ==>
              data[y, x, ch] as int ==
              if Site(data, y0 % 2, x0 % 2, y, x) && ch != ColorIndex(x, y)
              then Interpolated(old(SamplesOf(data)), y, x, ch) else old(data[y, x, ch]) as int
  {
    hide Interpolated, ColorIndex;
    ghost var raw := SamplesOf(data);
    var y := y0;
    while y < data.Length0 - 1
      invariant y % 2 == y0 % 2 && y0 <= y
      invariant forall r, c, ch :: 0 <= r < data.Length0 && 0 <= c < data.Length1 && 0 <= ch < 3 ==>
                  data[r, c, ch] as int ==
                  if Passed(data, y0 % 2, x0 % 2, y, 0, r, c) && ch != ColorIndex(c, r)
                  then Interpolated(raw, r, c, ch) else old(data[r, c, ch]) as int
      decreases data.Length0 - y
    {
      var x := x0;
      while x < data.Length1 - 1
        invariant x % 2 == x0 % 2 && x0 <= x
        invariant forall r, c, ch :: 0 <= r < data.Length0 && 0 <= c < data.Length1 && 0 <= ch < 3 ==>
                    data[r, c, ch] as int ==
                    if Passed(data, y0 % 2, x0 % 2, y, x, r, c) && ch != ColorIndex(c, r)
                    then Interpolated(raw, r, c, ch) else old(data[r, c, ch]) as int
        decreases data.Length1 - x
      {
        SameSamples(SamplesOf(data), raw, data.Length0, data.Length1);
        InterpolatePixel(data, y, x);
        x := x + 2;
      }
      y := y + 2;
    }
  }

  method CopyRow(data: array3<uint16>, from: nat, to: nat)
    requires data.Length2 == 3 && from < data.Length0 && to < data.Length0 && from != to
    modifies data
    ensures forall y, x, ch :: 0 <= y < data.Length0 && 0 <= x < data.Length1 && 0 <= ch < 3 ==>
              data[y, x, ch] == old(data[if y == to then from else y, x, ch])
  {
    for c := 0 to data.Length1
      invariant forall y, x, ch :: 0 <= y < data.Length0 && 0 <= x < data.Length1 && 0 <= ch < 3 ==>
                  data[y, x, ch] == old(data[if y == to && x < c then from else y, x, ch])
    {
      data[to, c, 0], data[to, c, 1], data[to, c, 2] := data[from, c, 0], data[from, c, 1], data[from, c, 2];
    }
  }

  method CopyColumn(data: array3<uint16>, from: nat, to: nat)
    requires data.Length2 == 3 && from < data.Length1 && to < data.Length1 && from != to
    modifies data
    ensures forall y, x, ch :: 0 <= y < data.Length0 && 0 <= x < data.Length1 && 0 <= ch < 3 ==>
              data[y, x, ch] == old(data[y, if x == to then from else x, ch])
  {
    for r := 0 to data.Length0
      invariant forall y, x, ch :: 0 <= y < data.Length0 && 0 <= x < data.Length1 && 0 <= ch < 3 ==>
                  data[y, x, ch] == old(data[y, if x == to && y < r then from else x, ch])
    {
      data[r, to, 0], data[r, to, 1], data[r, to, 2] := data[r, from, 0], data[r, from, 1], data[r, from, 2];
    }
  }

  /** Extend the first and last inner rows and columns over the border. */
  method CopyBorders(data: array3<uint16>)
    requires IsImage(data)
    modifies data
    ensures forall y, x, ch :: 0 <= y < data.Length0 && 0 <= x < data.Length1 && 0 <= ch < 3 ==>
              data[y, x, ch] ==
              old(data[Clamp(y, 1, data.Length0 - 2), Clamp(x, 1, data.Length1 - 2), ch])
  {
    var rowMax, colMax := data.Length0 - 1, data.Length1 - 1;
    CopyRow(data, 1, 0);
    CopyRow(data, rowMax - 1, rowMax);
    CopyColumn(data, 1, 0);
    CopyColumn(data, colMax - 1, colMax);
  }

  /** The four passes leave the native samples alone and complete every inner pixel. */
  method InterpolateInner(data: array3<uint16>)
    requires IsImage(data)
    modifies data
    ensures forall y, x, ch :: 1 <= y < data.Length0 - 1 && 1 <= x < data.Length1 - 1 && 0 <= ch < 3 ==>
              data[y, x, ch] as int == Interpolated(old(SamplesOf(data)), y, x, ch)
  {
    hide Interpolated, ColorIndex;
    ghost var raw, rows, cols := SamplesOf(data), data.Length0, data.Length1;
    Pass(data, 1, 2);
    SameSamples(SamplesOf(data), raw, rows, cols);
    Pass(data, 2, 1);
    SameSamples(SamplesOf(data), raw, rows, cols);
    Pass(data, 2, 2);
    SameSamples(SamplesOf(data), raw, rows, cols);
    Pass(data, 1, 1);
    SameSamples(SamplesOf(data), raw, rows, cols);
    forall y, x | 1 <= y < rows - 1 && 1 <= x < cols - 1
      ensures Interpolated(raw, y, x, ColorIndex(x, y)) == raw[y][x]
    {
      OwnSample(raw, y, x);
    }
  }

  lemma OwnSample(raw: Raw, y: int, x: int)
    requires Inner(raw, y, x)
    ensures Interpolated(raw, y, x, ColorIndex(x, y)) == raw[y][x]
  {
  }

  /** The first and last rows and columns repeat the ones next to them. */
  ghost predicate BordersRepeat(data: array3<uint16>)
    requires IsImage(data)
    reads data
  {
    && (forall x, ch :: 0 <= x < data.Length1 && 0 <= ch < 3 ==>
          data[0, x, ch] == data[1, x, ch] && data[data.Length0 - 1, x, ch] == data[data.Length0 - 2, x, ch])
    && (forall y, ch :: 0 <= y < data.Length0 && 0 <= ch < 3 ==>
          data[y, 0, ch] == data[y, 1, ch] && data[y, data.Length1 - 1, ch] == data[y, data.Length1 - 2, ch])
  }

  /** Demosaicing in place computes the reference image, whatever else the buffer held. */
  method Demosaic(data: array3<uint16>)
    requires IsImage(data)
    modifies data
    ensures BordersRepeat(data)
    ensures forall y, x, ch :: 1 <= y < data.Length0 - 1 && 1 <= x < data.Length1 - 1 && 0 <= ch < 3 ==>
              data[y, x, ch] as int == Interpolated(old(SamplesOf(data)), y, x, ch)
    ensures forall y, x, ch :: 0 <= y < data.Length0 && 0 <= x < data.Length1 && 0 <= ch < 3 ==>
              data[y, x, ch] as int ==
              Demosaiced(old(SamplesOf(data)), data.Length0, data.Length1, y, x, ch)
  {
    hide Interpolated;
    InterpolateInner(data);
    CopyBorders(data);
  }

  class RawImage {
    const data: array3<uint16>

    /**
      Read two samples per three bytes into the channel of their colour and demosaic.  The
      buffer and the read buffer (`init`) start with arbitrary contents.
     */
    constructor (stream: seq<byte>, init: Buf, width: nat, height: nat)
      requires width % 2 == 0 && width >= 4 && height >= 3
      ensures fresh(data) && data.Length0 == height && data.Length1 == width && data.Length2 == 3
      ensures BordersRepeat(data)
      ensures forall y, x, ch :: 1 <= y < height - 1 && 1 <= x < width - 1 && 0 <= ch < 3 ==>
                data[y, x, ch] as int == Interpolated(RawOf(stream, init, width, height), y, x, ch)
      ensures forall y, x, ch :: 0 <= y < height && 0 <= x < width && 0 <= ch < 3 ==>
                data[y, x, ch] as int == Demosaiced(RawOf(stream, init, width, height), height, width, y, x, ch)
    {
      data := new uint16[height, width, 3];
      new;
      ReadSamples(data, stream, init, width, height);
      SameSamples(SamplesOf(data), RawOf(stream, init, width, height), height, width);
      Demosaic(data);
    }
  }

  ghost function RawRow(stream: seq<byte>, init: Buf, width: nat, first: nat): (row: seq<int>)
    ensures |row| == width
    ensures forall x :: 0 <= x < width ==> row[x] == RawSample(stream, init, first + x) as int
    ensures forall x :: 0 <= x < width ==> 0 <= row[x] < 0x1_0000
  {
    seq(width, x requires 0 <= x < width => RawSample(stream, init, first + x) as int)
  }

  /** The samples of the stream, row by row. */
  ghost function RawOf(stream: seq<byte>, init: Buf, width: nat, height: nat): (raw: Raw)
    ensures Shaped(raw, height, width)
    ensures forall y, x :: 0 <= y < height && 0 <= x < width ==>
              raw[y][x] == RawSample(stream, init, y * width + x) as int
  {
    seq(height, y requires 0 <= y < height => RawRow(stream, init, width, y * width))
  }

  method ReadBlock(stream: seq<byte>, buf: Buf, pos: nat) returns (buf': Buf, pos': nat)
    ensures pos' == pos + 3
    ensures buf' == Buf(if pos < |stream| then stream[pos] else buf.b0,
                        if pos + 1 < |stream| then stream[pos + 1] else buf.b1,
                        if pos + 2 < |stream| then stream[pos + 2] else buf.b2)
  {
    buf', pos' := buf, pos + 3;
    if pos < |stream| {
      buf' := buf'.(b0 := stream[pos]);
    }
    if pos + 1 < |stream| {
      buf' := buf'.(b1 := stream[pos + 1]);
    }
    if pos + 2 < |stream| {
      buf' := buf'.(b2 := stream[pos + 2]);
    }
  }

  lemma BlockSamples(stream: seq<byte>, init: Buf, k: nat)
    ensures var buf := BufAt(stream, init, k + 1);
            && RawSample(stream, init, 2 * k) == FirstSample(buf.b0, buf.b1)
            && RawSample(stream, init, 2 * k + 1) == SecondSample(buf.b1, buf.b2)
  {
    hide FirstSample, SecondSample, BufAt;
    assert (2 * k) / 2 == k && (2 * k + 1) / 2 == k && (2 * k) % 2 == 0 && (2 * k + 1) % 2 == 1;
  }

  /** Read the samples of one row, two at a time. */
  method ReadRow(data: array3<uint16>, stream: seq<byte>, y: nat, buf0: Buf, pos0: nat, ghost init: Buf, ghost k0: nat)
    returns (buf: Buf, pos: nat)
    requires data.Length1 % 2 == 0 && y < data.Length0 && data.Length2 == 3
    requires pos0 == 3 * k0 && buf0 == BufAt(stream, init, k0)
    modifies data
    ensures pos == 3 * (k0 + data.Length1 / 2) && buf == BufAt(stream, init, k0 + data.Length1 / 2)
    ensures forall c :: 0 <= c < data.Length1 ==> data[y, c, ColorIndex(c, y)] == RawSample(stream, init, 2 * k0 + c)
    ensures forall r, c, ch :: 0 <= r < data.Length0 && 0 <= c < data.Length1 && 0 <= ch < 3 && r != y ==>
              data[r, c, ch] == old(data[r, c, ch])
  {
    hide FirstSample, SecondSample, RawSample;
    buf, pos := buf0, pos0;
    var x := 0;
    while x < data.Length1
      invariant x % 2 == 0 && 0 <= x <= data.Length1
      invariant pos == 3 * (k0 + x / 2) && buf == BufAt(stream, init, k0 + x / 2)
      invariant forall c :: 0 <= c < x ==> data[y, c, ColorIndex(c, y)] == RawSample(stream, init, 2 * k0 + c)
      invariant forall r, c, ch :: 0 <= r < data.Length0 && 0 <= c < data.Length1 && 0 <= ch < 3 && r != y ==>
                  data[r, c, ch] == old(data[r, c, ch])
    {
      BlockSamples(stream, init, k0 + x / 2);
      buf, pos := ReadBlock(stream, buf, pos);
      data[y, x, ColorIndex(x, y)] := FirstSample(buf.b0, buf.b1);
      data[y, x + 1, ColorIndex(x + 1, y)] := SecondSample(buf.b1, buf.b2);
      x := x + 2;
    }
  }

  method ReadSamples(data: array3<uint16>, stream: seq<byte>, init: Buf, width: nat, height: nat)
    requires width % 2 == 0 && data.Length0 == height && data.Length1 == width && data.Length2 == 3
    modifies data
    ensures forall y, x :: 0 <= y < height && 0 <= x < width ==>
              data[y, x, ColorIndex(x, y)] == RawSample(stream, init, y * width + x)
  {
    hide ColorIndex, RawSample, BufAt;
    var buf, pos := init, 0;
    ghost var blocks := 0;
    assert BufAt(stream, init, 0) == init by { NoReads(stream, init); }
    for y := 0 to height
      invariant pos == 3 * blocks && buf == BufAt(stream, init, blocks) && 2 * blocks == y * width
      invariant forall r, c :: 0 <= r < y && 0 <= c < width ==>
                  data[r, c, ColorIndex(c, r)] == RawSample(stream, init, r * width + c)
    {
      buf, pos := ReadRow(data, stream, y, buf, pos, init, blocks);
      blocks := blocks + width / 2;
      assert (y + 1) * width == y * width + width;
    }
  }

  lemma NoReads(stream: seq<byte>, init: Buf)
    ensures BufAt(stream, init, 0) == init
  {
  }

  /** A complete sensor readout decodes to its samples, in the upper twelve bits of the native channel. */
  lemma DecodedReadout(samples: seq<uint12>, init: Buf, width: nat, height: nat, y: nat, x: nat)
    requires width % 2 == 0 && |samples| == width * height && |samples| % 2 == 0 && y < height && x < width
    ensures y * width + x < |samples|
    ensures RawOf(Packed(samples), init, width, height)[y][x] == 16 * samples[y * width + x] as int
  {
    hide RawSample, Packed;
    PixelNumber(width, height, y, x);
    DecodePacked(samples, init, y * width + x);
  }

  lemma PixelNumber(width: nat, height: nat, y: nat, x: nat)
    requires y < height && x < width
    ensures 0 <= y * width + x < width * height
  {
    var above := y + 1;
    assert above * width == y * width + width;
    MulMonotone(above, height, width);
  }

  lemma MulMonotone(a: nat, b: nat, c: nat)
    requires a <= b
    ensures a * c <= c * b
  {
    assert (b - a) * c >= 0;
    assert (b - a) * c == c * b - a * c;
  }
}
