// The overlay a trap can show: a 320 by 200 RGBA buffer composited over the
// frame, transparent pixels (alpha 0) letting the frame show through.
module Overlay {
  import opened Pixels
  import opened Traps

  /**
   * The buffer `copyOverlayTo` leaves in a destination d, given the overlay
   * bytes m: byte k of a pixel in the first 320 * 200 takes the overlay's
   * byte when that pixel's overlay alpha is non-zero, and stays otherwise.
   */
  function Composite(d: seq<Byte>, m: seq<Byte>): (r: seq<Byte>)
    requires |m| == 256000
    ensures |r| == |d|
  {
    seq(|d|, k requires 0 <= k < |d| => if k < 256000 && m[k / 4 * 4 + 3] != 0 then m[k] else d[k])
  }

  /** Byte k of the destination once the bytes below n have been composited. */
  function CompositeUpTo(d: seq<Byte>, m: seq<Byte>, n: int, k: int): Byte
    requires |m| == 256000 && 0 <= k < |d|
  {
    if k < n && k < 256000 && m[k / 4 * 4 + 3] != 0 then m[k] else d[k]
  }

  /** A destination byte equals the overlay's iff its pixel has a non-zero alpha there (or the byte already held that value). */
  lemma CompositePixel(d: seq<Byte>, m: seq<Byte>, k: int)
    requires |m| == 256000 && 0 <= k < |d| && k < 256000
    ensures m[k / 4 * 4 + 3] != 0 ==> Composite(d, m)[k] == m[k]
    ensures m[k / 4 * 4 + 3] == 0 ==> Composite(d, m)[k] == d[k]
  {
  }

  /** Compositing the same overlay twice is compositing it once. */
  lemma CompositeIdempotent(d: seq<Byte>, m: seq<Byte>)
    requires |m| == 256000
    ensures Composite(Composite(d, m), m) == Composite(d, m)
  {
    var once := Composite(d, m);
    assert forall k :: 0 <= k < |d| ==> Composite(once, m)[k] == once[k];
  }

  class Overlay {
    const memPixels: ImageData
    var overlayFile: string
    var usingOverlay: bool

    /** The buffer has the size of the projection plane. */
    ghost predicate Valid()
      reads this
    {
      memPixels.width == 320 && memPixels.height == 200 && memPixels.data.Length == 256000
    }

    /** `new Overlay(ctx)`: a fully transparent buffer, no overlay file. */
    constructor()
      ensures Valid() && fresh(memPixels.data)
      ensures overlayFile == "" && !usingOverlay
      ensures forall k :: 0 <= k < 256000 ==> memPixels.data[k] == 0
    {
      memPixels := new ImageData(320, 200);
      overlayFile := "";
      usingOverlay := false;
    }

    /** `setOverlayFromTrap(trap)`: nothing changes unless the trap uses an overlay. Loading the file is not part of this model. */
    method SetOverlayFromTrap(trap: Trap)
      modifies this
      ensures !trap.usingOverlay ==> overlayFile == old(overlayFile) && usingOverlay == old(usingOverlay)
      ensures trap.usingOverlay ==> overlayFile == trap.overlayFile && usingOverlay
    {
      if !trap.usingOverlay {
        return;
      }
      usingOverlay := trap.usingOverlay;
      overlayFile := trap.overlayFile;
    }

    /** `setPixel(x, y, r, g, b, a)`: the four bytes at (x + y * width) * 4 get r, g, b, a as given. */
    method SetPixel(x: int, y: int, r: Byte, g: Byte, b: Byte, a: Byte)
      requires Valid()
      modifies memPixels.data
      ensures var i := (x + y * 320) * 4;
        forall k :: 0 <= k < memPixels.data.Length ==>
          memPixels.data[k] == (if k == i then r else if k == i + 1 then g else if k == i + 2 then b
                                else if k == i + 3 then a else old(memPixels.data[k]))
    {
      var index := (x + y * memPixels.width) * 4;
      StorePixel(memPixels.data, index, r, g, b, a);
    }

    /** `copyOverlayTo(destination)`: the alpha-gated composite of the overlay over the destination. */
    method CopyOverlayTo(destination: ImageData)
      requires Valid()
      modifies destination.data
      ensures destination.data[..] == Composite(old(destination.data[..]), old(memPixels.data[..]))
      ensures memPixels.data[..] == old(memPixels.data[..])
    {
      var src := memPixels.data;
      var dst := destination.data;
      ghost var m := src[..];
      ghost var d := dst[..];
      var row := 0;
      while row < 200
        invariant 0 <= row <= 200
        invariant src[..] == m
        invariant forall k :: 0 <= k < dst.Length ==> dst[k] == CompositeUpTo(d, m, row * 1280, k)
      {
        var col := 0;
        while col < 320
          invariant 0 <= col <= 320
          invariant src[..] == m
          invariant forall k :: 0 <= k < dst.Length ==> dst[k] == CompositeUpTo(d, m, row * 1280 + col * 4, k)
        {
          var index := (col + row * memPixels.width) * 4;
          assert forall k :: index <= k < index + 4 ==> k / 4 * 4 + 3 == index + 3;
          if src[index + 3] != 0 {
            StorePixel(dst, index, src[index + 0], src[index + 1], src[index + 2], src[index + 3]);
          }
          col := col + 1;
        }
        row := row + 1;
      }
      assert forall k :: 0 <= k < dst.Length ==> dst[k] == Composite(d, m)[k];
      assert dst[..] == Composite(d, m);
    }
  }
}
