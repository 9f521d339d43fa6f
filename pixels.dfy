// Canvas image data: an RGBA byte buffer of width * height pixels, four
// bytes per pixel in row-major order, held in a Uint8ClampedArray.
module Pixels {
  import opened Js
  import TileGrid

  /** One element of a Uint8ClampedArray. */
  type Byte = x: int | 0 <= x < 256

  /**
   * The value a Uint8ClampedArray stores for an integral number: clamped to
   * [0, 255]; NaN (and undefined, which converts to NaN) is stored as 0.
   */
  function ClampByte(v: Option<int>): (b: Byte)
    ensures v.None? ==> b == 0
    ensures v.Some? && 0 <= v.value <= 255 ==> b == v.value
    ensures v.Some? && v.value < 0 ==> b == 0
    ensures v.Some? && v.value > 255 ==> b == 255
  {
    if v.None? then 0 else if v.value < 0 then 0 else if v.value > 255 then 255 else v.value
  }

  /** `data[i]` stored into another clamped array: a byte, or 0 for undefined past the end. */
  function ByteAt(data: seq<Byte>, i: int): (b: Byte)
    ensures 0 <= i < |data| ==> b == data[i]
    ensures !(0 <= i < |data|) ==> b == 0
  {
    if 0 <= i < |data| then data[i] else 0
  }

  /** `createImageData(width, height)`: a fresh all-zero buffer. */
  class ImageData {
    const width: nat
    const height: nat
    const data: array<Byte>

    constructor(width: nat, height: nat)
      ensures this.width == width && this.height == height
      ensures fresh(data) && data.Length == 4 * width * height
      ensures forall k :: 0 <= k < data.Length ==> data[k] == 0
    {
      this.width := width;
      this.height := height;
      data := new Byte[4 * width * height](_ => 0);
    }
  }

  /** `data[i] = v` on a typed array: a write outside the elements is dropped. */
  method Store(data: array<Byte>, i: int, v: Byte)
    modifies data
    ensures 0 <= i < data.Length ==> data[..] == old(data[..])[i := v]
    ensures !(0 <= i < data.Length) ==> data[..] == old(data[..])
  {
    if 0 <= i < data.Length {
      data[i] := v;
    }
  }

  /** The four writes of a `setPixel`: bytes i..i+3 get r, g, b, a, each only if it is an element. */
  method StorePixel(data: array<Byte>, i: int, r: Byte, g: Byte, b: Byte, a: Byte)
    modifies data
    ensures forall k :: 0 <= k < data.Length ==>
      data[k] == (if k == i then r else if k == i + 1 then g else if k == i + 2 then b else if k == i + 3 then a else old(data[k]))
  {
    Store(data, i, r);
    Store(data, i + 1, g);
    Store(data, i + 2, b);
    Store(data, i + 3, a);
  }

  /** Byte c of pixel (col, row) of a buffer w pixels wide sits at (col + row * w) * 4 + c, and that offset names the pixel back. */
  lemma PixelOffset(w: int, col: int, row: int, c: int)
    requires 0 < w && 0 <= col < w && 0 <= row && 0 <= c < 4
    ensures var k := (col + row * w) * 4 + c;
      k / 4 == col + row * w && k % 4 == c && (k / 4) / w == row && (k / 4) % w == col
  {
    var p := col + row * w;
    assert (p * 4 + c) / 4 == p;
    assert p == row * w + col;
    TileGrid.DivPlusSmall(row, w, col);
  }
}
