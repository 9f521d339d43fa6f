// The landscape image: a buffer of any size whose rows are copied into the
// 320-pixel-wide frame buffer, row r of the image onto row r of the frame.
module Landscape {
  import opened Js
  import opened Pixels
  import opened Dests

  /** The four guarded writes of one pixel: bytes di..di+3 take the image bytes si..si+3, only when di + 4 < |d|. */
  function Put(d: seq<Byte>, m: seq<Byte>, di: int, si: int): (r: seq<Byte>)
    ensures |r| == |d|
  {
    if 0 <= di && di + 4 < |d| then
      d[di := ByteAt(m, si)][di + 1 := ByteAt(m, si + 1)][di + 2 := ByteAt(m, si + 2)][di + 3 := ByteAt(m, si + 3)]
    else d
  }

  /** The byte offset of pixel (col, row) in a buffer w pixels wide. */
  function Offset(col: int, row: int, w: int): int {
    (col + row * w) * 4
  }

  /** What one guarded pixel copy leaves at byte k. */
  lemma PutAt(d: seq<Byte>, m: seq<Byte>, di: int, si: int, k: int)
    requires 0 <= k < |d|
    ensures Put(d, m, di, si)[k] ==
      if 0 <= di && di + 4 < |d| && di <= k < di + 4 then ByteAt(m, si + (k - di)) else d[k]
  {
  }

  /** The destination after columns 0..n-1 of image row `row` (image width w) have been copied. */
  function CopyRow(d: seq<Byte>, m: seq<Byte>, w: nat, row: nat, n: nat): (r: seq<Byte>)
    ensures |r| == |d|
  {
    if n == 0 then d else Put(CopyRow(d, m, w, row, n - 1), m, Offset(n - 1, row, 320), Offset(n - 1, row, w))
  }

  /** The destination after image rows 0..r-1 have been copied. */
  function CopyRows(d: seq<Byte>, m: seq<Byte>, w: nat, r: nat): (res: seq<Byte>)
    ensures |res| == |d|
  {
    if r == 0 then d else CopyRow(CopyRows(d, m, w, r - 1), m, w, r - 1, w)
  }

  /** The last of the image rows 0..r-1 that writes destination pixel p, if any: row q writes it when 0 <= p - 320 * q < w. */
  function LastRow(p: int, w: nat, r: nat): (q: Option<nat>)
    ensures q.Some? ==> q.value < r && 0 <= p - 320 * q.value < w
  {
    if r == 0 then None else if 0 <= p - 320 * (r - 1) < w then Some(r - 1) else LastRow(p, w, r - 1)
  }

  /** Byte c of the image pixel that image row `row` copies to destination pixel p. */
  function SourceByte(m: seq<Byte>, w: nat, row: nat, p: int, c: int): Byte {
    ByteAt(m, (p - 320 * row + row * w) * 4 + c)
  }

  /** Bytes i..i+3 of a buffer form one pixel. */
  lemma QuarterOf(k: int, i: int)
    requires 0 <= i && 0 <= k
    ensures (i * 4 <= k < i * 4 + 4) <==> k / 4 == i
  {
  }

  /** What one row copy leaves at byte k. */
  lemma {:induction false} CopyRowAt(d: seq<Byte>, m: seq<Byte>, w: nat, row: nat, n: nat, k: int)
    requires 0 <= k < |d| && n <= w
    ensures var p := k / 4;
      CopyRow(d, m, w, row, n)[k] ==
        if 4 * p + 4 < |d| && 0 <= p - 320 * row < n then SourceByte(m, w, row, p, k % 4) else d[k]
  {
    if n > 0 {
      var j, p := n - 1, k / 4;
      var e := CopyRow(d, m, w, row, j);
      CopyRowAt(d, m, w, row, j, k);
      var rowStart := row * 320;
      var di, si := Offset(j, row, 320), Offset(j, row, w);
      assert di == (j + rowStart) * 4;
      PutAt(e, m, di, si, k);
      QuarterOf(k, j + rowStart);
      assert 320 * row == rowStart;
      if p == j + rowStart {
        assert k - di == k % 4;
        assert SourceByte(m, w, row, p, k % 4) == ByteAt(m, si + (k - di));
      } else {
        assert (0 <= p - 320 * row < n) == (0 <= p - 320 * row < j);
      }
    }
  }

  /** After the whole copy, a byte of a pixel some row writes holds the image byte from the last such row, unless it is the destination's last pixel. */
  lemma {:induction false} CopyRowsHit(d: seq<Byte>, m: seq<Byte>, w: nat, r: nat, k: int, q: nat)
    requires 0 <= k < |d| && 4 * (k / 4) + 4 < |d| && LastRow(k / 4, w, r) == Some(q)
    ensures CopyRows(d, m, w, r)[k] == SourceByte(m, w, q, k / 4, k % 4)
  {
    var e := CopyRows(d, m, w, r - 1);
    CopyRowAt(e, m, w, r - 1, w, k);
    if q != r - 1 {
      CopyRowsHit(d, m, w, r - 1, k, q);
    }
  }

  /** After the whole copy, a byte of a pixel no row writes, or of the destination's last pixel, is unchanged. */
  lemma {:induction false} CopyRowsMiss(d: seq<Byte>, m: seq<Byte>, w: nat, r: nat, k: int)
    requires 0 <= k < |d| && (LastRow(k / 4, w, r).None? || 4 * (k / 4) + 4 >= |d|)
    ensures CopyRows(d, m, w, r)[k] == d[k]
  {
    if r > 0 {
      var e := CopyRows(d, m, w, r - 1);
      CopyRowAt(e, m, w, r - 1, w, k);
      CopyRowsMiss(d, m, w, r - 1, k);
    }
  }

  /** The last row writing pixel p is min(r - 1, p / 320), when that row is wide enough to reach it. */
  lemma {:induction false} LastRowClosedForm(p: int, w: nat, r: nat)
    requires 0 <= p && 1 <= r
    ensures var q := if p / 320 < r - 1 then p / 320 else r - 1;
      LastRow(p, w, r) == if p - 320 * q < w then Some(q) else None
  {
    if r > 1 && p / 320 < r - 1 {
      assert p < 320 * (r - 1);
      LastRowClosedForm(p, w, r - 1);
    }
  }

  /**
   * When the image is at most 320 pixels wide, every image pixel (col, row)
   * lands at destination byte offset (col + row * 320) * 4, unless that is
   * the destination's last pixel or beyond.
   */
  lemma LandscapePixelLands(d: seq<Byte>, m: seq<Byte>, w: nat, h: nat, col: int, row: int, c: int)
    requires w <= 320 && 0 <= col < w && 0 <= row < h && 0 <= c < 4
    requires (col + row * 320) * 4 + 4 < |d|
    ensures CopyRows(d, m, w, h)[(col + row * 320) * 4 + c] == ByteAt(m, (col + row * w) * 4 + c)
  {
    var k := (col + row * 320) * 4 + c;
    PixelOffset(320, col, row, c);
    var p := k / 4;
    assert p - 320 * row == col;
    LastRowClosedForm(p, w, h);
    assert LastRow(p, w, h) == Some(row);
    CopyRowsHit(d, m, w, h, k, row);
    assert SourceByte(m, w, row, p, c) == ByteAt(m, (col + row * w) * 4 + c);
  }

  /** Bytes of a pixel no image row reaches, and of the destination's last pixel, are left as they were. */
  lemma LandscapeLeavesOthers(d: seq<Byte>, m: seq<Byte>, w: nat, h: nat, k: int)
    requires 0 <= k < |d|
    requires LastRow(k / 4, w, h).None? || 4 * (k / 4) + 4 >= |d|
    ensures CopyRows(d, m, w, h)[k] == d[k]
  {
    CopyRowsMiss(d, m, w, h, k);
  }

  class Landscape {
    var memPixels: ImageData
    var width: int
    var height: int
    var landscapeFile: string
    var usingALandscape: bool
    // Both are undefined (None) until a destination sets them.
    var landscapeOffsetFromTop: Option<int>
    var landscapeStartAngle: Option<int>

    /** `new Landscape(ctx)`: no image loaded, so an empty buffer. */
    constructor()
      ensures memPixels.width == 0 && memPixels.height == 0
      ensures width == 0 && height == 0 && landscapeFile == "" && !usingALandscape
      ensures landscapeOffsetFromTop.None? && landscapeStartAngle.None?
    {
      memPixels := new ImageData(0, 0);
      width, height := 0, 0;
      landscapeFile := "";
      usingALandscape := false;
      landscapeOffsetFromTop := None;
      landscapeStartAngle := None;
    }

    /** `setLandscapeFromDest(dest)`: nothing changes unless the destination uses a landscape. Loading the file is not part of this model. */
    method SetLandscapeFromDest(dest: Dest)
      modifies this
      ensures !dest.usingALandscape ==>
        && usingALandscape == old(usingALandscape) && landscapeFile == old(landscapeFile)
        && landscapeOffsetFromTop == old(landscapeOffsetFromTop) && landscapeStartAngle == old(landscapeStartAngle)
        && memPixels == old(memPixels) && width == old(width) && height == old(height)
      ensures dest.usingALandscape ==>
        && usingALandscape && landscapeFile == dest.landscapeFile
        && landscapeOffsetFromTop == dest.landscapeOffsetFromTop && landscapeStartAngle == Some(dest.landscapeStartAngle)
        && memPixels == old(memPixels) && width == old(width) && height == old(height)
    {
      if !dest.usingALandscape {
        return;
      }
      usingALandscape := dest.usingALandscape;
      landscapeFile := dest.landscapeFile;
      landscapeOffsetFromTop := dest.landscapeOffsetFromTop;
      landscapeStartAngle := Some(dest.landscapeStartAngle);
    }

    /** `setPixel(x, y, r, g, b, a)`: the four bytes at (x + y * width) * 4 get r, g, b, a, alpha included. */
    method SetPixel(x: int, y: int, r: Byte, g: Byte, b: Byte, a: Byte)
      modifies memPixels.data
      ensures var i := (x + y * memPixels.width) * 4;
        forall k :: 0 <= k < memPixels.data.Length ==>
          memPixels.data[k] == (if k == i then r else if k == i + 1 then g else if k == i + 2 then b
                                else if k == i + 3 then a else old(memPixels.data[k]))
    {
      var index := (x + y * memPixels.width) * 4;
      StorePixel(memPixels.data, index, r, g, b, a);
    }

    /** `copyLandscapeTo(destination)`, into a buffer other than the landscape's own. */
    method CopyLandscapeTo(destination: ImageData)
      requires destination.data != memPixels.data
      modifies destination.data
      ensures destination.data[..] == CopyRows(old(destination.data[..]), memPixels.data[..], memPixels.width, memPixels.height)
    {
      var src := memPixels.data;
      var dst := destination.data;
      ghost var d := dst[..];
      var row := 0;
      while row < memPixels.height
        invariant 0 <= row <= memPixels.height
        invariant dst[..] == CopyRows(d, src[..], memPixels.width, row)
      {
        CopyRowTo(src, dst, memPixels.width, row);
        row := row + 1;
      }
    }
  }

  /** The inner loop of `copyLandscapeTo`: the columns of image row `row`, of an image w pixels wide. */
  method CopyRowTo(src: array<Byte>, dst: array<Byte>, w: nat, row: nat)
    requires src != dst
    modifies dst
    ensures dst[..] == CopyRow(old(dst[..]), src[..], w, row, w)
  {
    ghost var d := dst[..];
    var col := 0;
    while col < w
      invariant 0 <= col <= w
      invariant dst[..] == CopyRow(d, src[..], w, row, col)
    {
      var indexSource := Offset(col, row, w);
      var indexDest := Offset(col, row, 320);
      CopyPixel(src, dst, indexDest, indexSource);
      col := col + 1;
    }
  }

  /** The body of the inner loop: the four byte copies, when `indexDest + 4` is inside the destination. */
  method CopyPixel(src: array<Byte>, dst: array<Byte>, indexDest: int, indexSource: int)
    requires src != dst && 0 <= indexDest
    modifies dst
    ensures dst[..] == Put(old(dst[..]), src[..], indexDest, indexSource)
  {
    if indexDest + 4 < dst.Length {
      Store(dst, indexDest + 0, ByteAt(src[..], indexSource + 0));
      Store(dst, indexDest + 1, ByteAt(src[..], indexSource + 1));
      Store(dst, indexDest + 2, ByteAt(src[..], indexSource + 2));
      Store(dst, indexDest + 3, ByteAt(src[..], indexSource + 3));
    }
  }
}
