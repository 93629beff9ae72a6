// Turning a packed YUYV picture into a planar NV12 one: the luma plane as it is,
// and every other row of the interleaved chroma.
module Nv12 {
  import opened Bytes

  // Where the cell in row y and column x of a picture lies.
  function At(y: nat, x: nat, width: nat): nat {
    y * width + x
  }

  lemma RowFits(y: nat, x: nat, width: nat, rows: nat)
    requires y < rows && x <= width
    ensures At(y, x, width) <= At(y, width, width) == At(y + 1, 0, width) <= At(rows, 0, width)
    ensures At(y, x, width) == At(y, 0, width) + x
  {
    assert (y + 1) * width <= rows * width;
  }

  lemma RowsAdd(a: nat, b: nat, x: nat, width: nat)
    ensures At(a + b, x, width) == At(a, 0, width) + At(b, x, width)
    ensures At(0, 0, width) == 0
  {
    assert (a + b) * width == a * width + b * width;
  }

  // A packed picture: two bytes a pixel, luma and then, by turns, one of the two
  // chroma values the pixel shares with its neighbour.
  ghost predicate IsPacked(data: seq<byte>, width: nat, height: nat) {
    |data| == 2 * At(height, 0, width)
  }

  // The two channels of pixel i.
  function Channel1(data: seq<byte>, i: nat): byte
    requires 2 * i < |data|
  {
    data[2 * i]
  }

  function Channel2(data: seq<byte>, i: nat): byte
    requires 2 * i + 1 < |data|
  {
    data[2 * i + 1]
  }

  // The first channel of the first n pixels.
  function Luma(data: seq<byte>, n: nat): (s: seq<byte>)
    requires 2 * n <= |data|
    ensures |s| == n
  {
    seq(n, i requires 0 <= i < n => Channel1(data, i))
  }

  // The second channel of the n pixels from `from` on.
  function ChromaRow(data: seq<byte>, from: nat, n: nat): (s: seq<byte>)
    requires 2 * (from + n) <= |data|
    ensures |s| == n
  {
    seq<byte>(n, x requires 0 <= x < n => Channel2(data, from + x))
  }

  // The first n chroma rows; row y comes from picture row 2 * y.
  function Chroma(data: seq<byte>, width: nat, height: nat, n: nat): (s: seq<byte>)
    requires IsPacked(data, width, height) && n <= height / 2
    ensures |s| == At(n, 0, width)
    decreases n
  {
    if n == 0 then []
    else
      RowFits(2 * (n - 1), width, width, height);
      RowFits(n - 1, width, width, n);
      Chroma(data, width, height, n - 1) + ChromaRow(data, At(2 * (n - 1), 0, width), width)
  }

  // The planar picture.
  function Converted(data: seq<byte>, width: nat, height: nat): (s: seq<byte>)
    requires IsPacked(data, width, height)
    ensures |s| == At(height + height / 2, 0, width)
  {
    RowsAdd(height, height / 2, 0, width);
    Luma(data, At(height, 0, width)) + Chroma(data, width, height, height / 2)
  }

  // 0, 1, ..., n - 1.
  function UpTo(n: nat): (s: seq<nat>)
    ensures |s| == n
  {
    seq(n, i => i)
  }

  lemma UpToStep(n: nat)
    ensures UpTo(n + 1) == UpTo(n) + [n]
  {
  }

  lemma LumaStep(data: seq<byte>, n: nat)
    requires 2 * (n + 1) <= |data|
    ensures Luma(data, n + 1) == Luma(data, n) + [Channel1(data, n)]
  {
  }

  lemma ChromaStep(data: seq<byte>, from: nat, n: nat)
    requires 2 * (from + n + 1) <= |data|
    ensures ChromaRow(data, from, n + 1) == ChromaRow(data, from, n) + [Channel2(data, from + n)]
  {
  }

  // The loops over a frame.  `written` lists the cells in the order they are
  // written: every cell once, front to back.
  method Convert(data: seq<byte>, width: nat, height: nat) returns (yuv: array<byte>, ghost written: seq<nat>)
    requires IsPacked(data, width, height)
    ensures yuv.Length == width * (height * 3 / 2)
    ensures yuv[..] == Converted(data, width, height)
    ensures written == UpTo(yuv.Length)
  {
    yuv := new byte[width * (height * 3 / 2)];
    Size(width, height);
    written := FillLuma(yuv, data, width, height);
    written := FillChroma(yuv, data, width, height, written);
  }

  lemma Size(width: nat, height: nat)
    ensures width * (height * 3 / 2) == At(height + height / 2, 0, width)
  {
    assert height * 3 / 2 == height + height / 2;
  }

  method FillLuma(yuv: array<byte>, data: seq<byte>, width: nat, height: nat) returns (ghost written: seq<nat>)
    requires IsPacked(data, width, height) && yuv.Length == At(height + height / 2, 0, width)
    modifies yuv
    ensures At(height, 0, width) <= yuv.Length && yuv[..At(height, 0, width)] == Luma(data, At(height, 0, width))
    ensures written == UpTo(At(height, 0, width))
  {
    hide At, Luma, UpTo, Channel1;
    written := [];
    RowsAdd(height, height / 2, 0, width);
    assert UpTo(0) == [];
    for y := 0 to height
      invariant At(y, 0, width) <= yuv.Length && 2 * At(y, 0, width) <= |data|
      invariant written == UpTo(At(y, 0, width)) && yuv[..At(y, 0, width)] == Luma(data, At(y, 0, width))
    {
      RowFits(y, 0, width, height);
      for x := 0 to width
        invariant At(y, x, width) <= yuv.Length && 2 * At(y, x, width) <= |data|
        invariant written == UpTo(At(y, x, width)) && yuv[..At(y, x, width)] == Luma(data, At(y, x, width))
      {
        RowFits(y, x, width, height);
        RowFits(y, x + 1, width, height);
        ghost var before := yuv[..At(y, x, width)];
        yuv[At(y, x, width)] := Channel1(data, At(y, x, width));
        assert yuv[..At(y, x, width) + 1] == before + [Channel1(data, At(y, x, width))];
        LumaStep(data, At(y, x, width));
        UpToStep(At(y, x, width));
        written := written + [At(y, x, width)];
      }
    }
  }

  method FillChroma(yuv: array<byte>, data: seq<byte>, width: nat, height: nat, ghost before: seq<nat>)
    returns (ghost written: seq<nat>)
    requires IsPacked(data, width, height) && yuv.Length == At(height + height / 2, 0, width)
    requires At(height, 0, width) <= yuv.Length && yuv[..At(height, 0, width)] == Luma(data, At(height, 0, width))
    requires before == UpTo(At(height, 0, width))
    modifies yuv
    ensures yuv[..] == Converted(data, width, height)
    ensures written == UpTo(yuv.Length)
  {
    hide At, UpTo, ChromaRow, Channel2;
    written := before;
    ghost var planes := Luma(data, At(height, 0, width));
    for y := 0 to height / 2
      invariant At(height + y, 0, width) <= yuv.Length
      invariant written == UpTo(At(height + y, 0, width))
      invariant planes == Luma(data, At(height, 0, width)) + Chroma(data, width, height, y)
      invariant yuv[..At(height + y, 0, width)] == planes
    {
      RowFits(2 * y, width, width, height);
      RowFits(height + y, width, width, height + height / 2);
      RowFits(height + y, 0, width, height + height / 2);
      written := FillChromaRow(yuv, data, width, height, y, planes, written);
      assert height + y + 1 == height + (y + 1);
      planes := planes + ChromaRow(data, At(2 * y, 0, width), width);
    }
    assert yuv[..] == yuv[..yuv.Length];
  }

  // One chroma row, below the cells `above`.
  method FillChromaRow(yuv: array<byte>, data: seq<byte>, width: nat, height: nat, y: nat,
                       ghost above: seq<byte>, ghost before: seq<nat>)
    returns (ghost written: seq<nat>)
    requires IsPacked(data, width, height) && yuv.Length == At(height + height / 2, 0, width) && y < height / 2
    requires At(height + y, 0, width) <= At(height + y, width, width) <= yuv.Length
    requires 2 * (At(2 * y, 0, width) + width) <= |data|
    requires yuv[..At(height + y, 0, width)] == above && before == UpTo(At(height + y, 0, width))
    modifies yuv
    ensures yuv[..At(height + y, width, width)] == above + ChromaRow(data, At(2 * y, 0, width), width)
    ensures written == UpTo(At(height + y, width, width))
  {
    hide At, UpTo, ChromaRow, Channel2;
    written := before;
    NoChroma(data, At(2 * y, 0, width));
    for x := 0 to width
      invariant At(height + y, x, width) <= yuv.Length
      invariant written == UpTo(At(height + y, x, width))
      invariant yuv[..At(height + y, x, width)] == above + ChromaRow(data, At(2 * y, 0, width), x)
    {
      RowFits(height + y, x, width, height + height / 2);
      RowFits(height + y, x + 1, width, height + height / 2);
      RowFits(y * 2, x, width, height);
      RowFits(y * 2, x + 1, width, height);
      ghost var at, filled := At(height + y, x, width), yuv[..At(height + y, x, width)];
      yuv[At(height + y, x, width)] := Channel2(data, At(y * 2, x, width));
      assert yuv[..at + 1] == filled + [yuv[at]];
      ChromaStep(data, At(2 * y, 0, width), x);
      AppendLast(above, ChromaRow(data, At(2 * y, 0, width), x), yuv[at]);
      UpToStep(at);
      written := written + [At(height + y, x, width)];
    }
  }

  lemma NoChroma(data: seq<byte>, from: nat)
    requires 2 * from <= |data|
    ensures ChromaRow(data, from, 0) == []
  {
  }

  lemma AppendLast(a: seq<byte>, b: seq<byte>, c: byte)
    ensures (a + b) + [c] == a + (b + [c])
  {
  }

  // ---------- What the pictures show ----------

  datatype Pixel = Pixel(luma: byte, u: byte, v: byte)

  // Pixel (y, x) of a packed picture of even width.
  function PackedPixel(data: seq<byte>, width: nat, height: nat, y: nat, x: nat): Pixel
    requires IsPacked(data, width, height) && y < height && x < width && width % 2 == 0
  {
    RowFits(y, x + 1, width, height);
    RowFits(y, x / 2 * 2 + 2, width, height);
    RowFits(y, x / 2 * 2, width, height);
    RowFits(y, x, width, height);
    var pair := 2 * At(y, x / 2 * 2, width);
    Pixel(data[2 * At(y, x, width)], data[pair + 1], data[pair + 3])
  }

  // Pixel (y, x) of a planar picture of even width and height.
  function PlanarPixel(yuv: seq<byte>, width: nat, height: nat, y: nat, x: nat): Pixel
    requires |yuv| == At(height + height / 2, 0, width) && y < height && x < width
    requires width % 2 == 0 && height % 2 == 0
  {
    RowFits(y, x + 1, width, height + height / 2);
    RowFits(y, x, width, height + height / 2);
    RowFits(height + y / 2, x / 2 * 2 + 2, width, height + height / 2);
    RowFits(height + y / 2, x / 2 * 2, width, height + height / 2);
    var pair := At(height + y / 2, x / 2 * 2, width);
    Pixel(yuv[At(y, x, width)], yuv[pair], yuv[pair + 1])
  }

  lemma {:induction false} ChromaCell(data: seq<byte>, width: nat, height: nat, n: nat, y: nat, x: nat)
    requires IsPacked(data, width, height) && y < n <= height / 2 && x < width
    ensures At(y, x, width) < At(n, 0, width) && At(2 * y, x, width) < At(height, 0, width)
    ensures Chroma(data, width, height, n)[At(y, x, width)] == Channel2(data, At(2 * y, x, width))
    decreases n
  {
    hide At;
    RowFits(2 * y, x + 1, width, height);
    RowFits(2 * y, x, width, height);
    RowFits(y, x, width, n);
    RowFits(y, x + 1, width, n);
    RowFits(2 * (n - 1), width, width, height);
    RowFits(n - 1, width, width, n);
    if y < n - 1 {
      ChromaCell(data, width, height, n - 1, y, x);
    }
  }

  lemma ConvertedChroma(data: seq<byte>, width: nat, height: nat, y: nat, x: nat)
    requires IsPacked(data, width, height) && y < height / 2 && x < width
    ensures At(height + y, x, width) < At(height + height / 2, 0, width) && At(2 * y, x, width) < At(height, 0, width)
    ensures Converted(data, width, height)[At(height + y, x, width)] == Channel2(data, At(2 * y, x, width))
  {
    hide At, Chroma;
    ChromaCell(data, width, height, height / 2, y, x);
    RowsAdd(height, y, x, width);
    RowsAdd(height, height / 2, 0, width);
  }

  // For every size, the luma of each pixel is the first byte of its two.
  lemma ConvertedLuma(data: seq<byte>, width: nat, height: nat, y: nat, x: nat)
    requires IsPacked(data, width, height) && y < height && x < width
    ensures At(y, x, width) < At(height + height / 2, 0, width) && 2 * At(y, x, width) < |data|
    ensures Converted(data, width, height)[At(y, x, width)] == data[2 * At(y, x, width)]
  {
    hide Chroma;
    RowFits(y, x, width, height);
    RowFits(y, x + 1, width, height);
    RowsAdd(height, height / 2, 0, width);
  }

  // The conversion keeps every pixel's luma, and its chroma up to taking the even
  // row of each pair of rows.
  lemma MeaningPreserved(data: seq<byte>, width: nat, height: nat, y: nat, x: nat)
    requires IsPacked(data, width, height) && y < height && x < width
    requires width % 2 == 0 && height % 2 == 0
    ensures
      var planar := PlanarPixel(Converted(data, width, height), width, height, y, x);
      && planar.luma == PackedPixel(data, width, height, y, x).luma
      && planar.u == PackedPixel(data, width, height, y / 2 * 2, x).u
      && planar.v == PackedPixel(data, width, height, y / 2 * 2, x).v
  {
    hide At, Chroma;
    RowFits(y, x, width, height);
    RowFits(y, x + 1, width, height);
    RowFits(height + y / 2, x / 2 * 2, width, height + height / 2);
    RowFits(height + y / 2, x / 2 * 2 + 1, width, height + height / 2);
    RowFits(2 * (y / 2), x / 2 * 2, width, height);
    RowFits(2 * (y / 2), x / 2 * 2 + 1, width, height);
    ConvertedChroma(data, width, height, y / 2, x / 2 * 2);
    ConvertedChroma(data, width, height, y / 2, x / 2 * 2 + 1);
  }

  // For an odd height the chroma row of the last picture row, and only that one, is beyond
  // the converted picture, which is filled all the same; for an odd width the second
  // chroma cell of the last column, and only that one, is not in its row.
  lemma OddSizesHaveNoChroma(data: seq<byte>, width: nat, height: nat, y: nat, x: nat)
    requires IsPacked(data, width, height) && y < height && x < width
    ensures
      At(height + y / 2, x, width) >= |Converted(data, width, height)| <==> height % 2 == 1 && y == height - 1
    ensures At(height + y / 2, x / 2 * 2 + 1, width) >= At(height + y / 2 + 1, 0, width) <==>
        width % 2 == 1 && x == width - 1
  {
    hide Converted;
    if y / 2 < height / 2 {
      RowFits(height + y / 2, x, width, height + height / 2);
      RowFits(height + y / 2, x + 1, width, height + height / 2);
    } else {
      RowFits(height + y / 2, x, width, height + y / 2 + 1);
    }
    RowFits(height + y / 2, x, width, height + y / 2 + 1);
    RowFits(height + y / 2, 0, width, height + y / 2 + 1);
    assert At(height + y / 2, x / 2 * 2 + 1, width) == At(height + y / 2, 0, width) + x / 2 * 2 + 1;
  }
}
