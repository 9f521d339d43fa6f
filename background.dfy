// The background behind the walls: a 320 by 200 pixel buffer filled with a
// sky gradient over a ground gradient, copied into the frame before the
// walls are drawn.
module Background {
  import opened Js
  import opened Pixels
  import opened Dests

  /** An RGB triple of configuration values, each possibly NaN. */
  datatype Rgb = Rgb(r: Option<int>, g: Option<int>, b: Option<int>)

  /** Channel c (0 red, 1 green, 2 blue). */
  function Channel(rgb: Rgb, c: int): Option<int> {
    if c == 0 then rgb.r else if c == 1 then rgb.g else rgb.b
  }

  /** The start colours and per-row steps of both bands. */
  datatype Gradient = Gradient(sky: Rgb, skyStep: Rgb, ground: Rgb, groundStep: Rgb)

  /** `v += step; v = v > 255 ? 255 : v; v = v < 0 ? 0 : v`; NaN stays NaN. */
  function StepChannel(v: Option<int>, step: Option<int>): (r: Option<int>)
    ensures r.Some? <==> v.Some? && step.Some?
    ensures r.Some? ==> 0 <= r.value <= 255
    ensures r.Some? && 0 <= v.value + step.value <= 255 ==> r.value == v.value + step.value
    ensures r.Some? && v.value + step.value > 255 ==> r.value == 255
    ensures r.Some? && v.value + step.value < 0 ==> r.value == 0
  {
    var s := NumAdd(v, step);
    var s' := if NumGreater(s, 255) then Some(255) else s;
    if s'.Some? && s'.value < 0 then Some(0) else s'
  }

  /** The colour value of the n-th row of a band: the start value, stepped and clamped once per row. */
  function Band(start: Option<int>, step: Option<int>, n: nat): Option<int> {
    if n == 0 then start else StepChannel(Band(start, step, n - 1), step)
  }

  /** Half the frame height, `PROJECTIONPLANEHEIGHT >> 1`: the first ground row. */
  const HalfHeight: int := 100

  /** The running colour value of channel c in a row: sky above the half height, ground from it on. */
  function RowColour(g: Gradient, row: nat, c: int): Option<int> {
    if row < HalfHeight then Band(Channel(g.sky, c), Channel(g.skyStep, c), row)
    else Band(Channel(g.ground, c), Channel(g.groundStep, c), row - HalfHeight)
  }

  /** Byte k of the gradient buffer: the row's colour stored clamped, alpha 255. */
  function GradientByte(g: Gradient, k: nat): Byte {
    var c := k % 4;
    if c == 3 then 255 else ClampByte(RowColour(g, (k / 4) / 320, c))
  }

  /** The colour and step fields of a destination as a gradient. */
  function DestColours(d: Dest): Gradient {
    Gradient(Rgb(d.skyRed, d.skyGreen, d.skyBlue), Rgb(d.skyRedStep, d.skyGreenStep, d.skyBlueStep),
             Rgb(d.groundRed, d.groundGreen, d.groundBlue), Rgb(d.groundRedStep, d.groundGreenStep, d.groundBlueStep))
  }

  /** One more row of a band: every channel is stepped once. */
  lemma NextRowColour(g: Gradient, row: nat)
    ensures row + 1 != HalfHeight ==> forall c :: 0 <= c < 3 ==>
      RowColour(g, row + 1, c) ==
      StepChannel(RowColour(g, row, c), if row < HalfHeight then Channel(g.skyStep, c) else Channel(g.groundStep, c))
  {
  }

  class Background {
    const memPixels: ImageData
    var backgroundFile: string
    var backgroundFromFile: bool
    var backgroundFromRGB: bool
    var skyRed: Option<int>
    var skyGreen: Option<int>
    var skyBlue: Option<int>
    var skyRedStep: Option<int>
    var skyGreenStep: Option<int>
    var skyBlueStep: Option<int>
    var groundRed: Option<int>
    var groundGreen: Option<int>
    var groundBlue: Option<int>
    var groundRedStep: Option<int>
    var groundGreenStep: Option<int>
    var groundBlueStep: Option<int>

    /** The buffer has the size of the projection plane. */
    ghost predicate Valid()
      reads this
    {
      memPixels.width == 320 && memPixels.height == 200 && memPixels.data.Length == 256000
    }

    /** The colour fields as a gradient. */
    function Colours(): Gradient
      reads this
    {
      Gradient(Rgb(skyRed, skyGreen, skyBlue), Rgb(skyRedStep, skyGreenStep, skyBlueStep),
               Rgb(groundRed, groundGreen, groundBlue), Rgb(groundRedStep, groundGreenStep, groundBlueStep))
    }

    /** `new Background(ctx)`: a transparent black buffer and the prototype's default colours. */
    constructor()
      ensures Valid() && fresh(memPixels.data)
      ensures backgroundFile == "" && !backgroundFromFile && backgroundFromRGB
      ensures Colours() == Gradient(Rgb(Some(40), Some(125), Some(225)), Rgb(Some(2), Some(0), Some(0)),
                                    Rgb(Some(100), Some(80), Some(40)), Rgb(Some(1), Some(1), Some(1)))
    {
      memPixels := new ImageData(320, 200);
      backgroundFile, backgroundFromFile, backgroundFromRGB := "", false, true;
      skyRed, skyGreen, skyBlue := Some(40), Some(125), Some(225);
      skyRedStep, skyGreenStep, skyBlueStep := Some(2), Some(0), Some(0);
      groundRed, groundGreen, groundBlue := Some(100), Some(80), Some(40);
      groundRedStep, groundGreenStep, groundBlueStep := Some(1), Some(1), Some(1);
    }

    /** `setPixel(x, y, r, g, b)`: the four bytes at (x + y * width) * 4 get r, g, b clamped and alpha 255. */
    method SetPixel(x: int, y: int, r: Option<int>, g: Option<int>, b: Option<int>)
      requires Valid()
      modifies memPixels.data
      ensures var i := (x + y * 320) * 4;
        forall k :: 0 <= k < memPixels.data.Length ==>
          memPixels.data[k] == (if k == i then ClampByte(r) else if k == i + 1 then ClampByte(g)
                                else if k == i + 2 then ClampByte(b) else if k == i + 3 then 255 else old(memPixels.data[k]))
    {
      var index := (x + y * memPixels.width) * 4;
      StorePixel(memPixels.data, index, ClampByte(r), ClampByte(g), ClampByte(b), 0xff);
    }

    /** `createGradientBackground()`: every byte of the buffer becomes the gradient's. */
    method CreateGradientBackground()
      requires Valid()
      modifies memPixels.data
      ensures forall k :: 0 <= k < 256000 ==> memPixels.data[k] == GradientByte(Colours(), k)
    {
      var data := memPixels.data;
      ghost var gr := Colours();
      var red, green, blue := skyRed, skyGreen, skyBlue;
      var halfHeight := HalfHeight;
      var row := 0;
      while row < halfHeight
        invariant 0 <= row <= halfHeight
        invariant row < halfHeight ==> red == RowColour(gr, row, 0) && green == RowColour(gr, row, 1) && blue == RowColour(gr, row, 2)
        invariant forall k :: 0 <= k < row * 1280 ==> data[k] == GradientByte(gr, k)
      {
        FillRow(row, red, green, blue, gr);
        NextRowColour(gr, row);
        red := StepChannel(red, skyRedStep);
        green := StepChannel(green, skyGreenStep);
        blue := StepChannel(blue, skyBlueStep);
        row := row + 1;
      }
      red, green, blue := groundRed, groundGreen, groundBlue;
      while row < 200
        invariant halfHeight <= row <= 200
        invariant red == RowColour(gr, row, 0) && green == RowColour(gr, row, 1) && blue == RowColour(gr, row, 2)
        invariant forall k :: 0 <= k < row * 1280 ==> data[k] == GradientByte(gr, k)
      {
        FillRow(row, red, green, blue, gr);
        NextRowColour(gr, row);
        red := StepChannel(red, groundRedStep);
        green := StepChannel(green, groundGreenStep);
        blue := StepChannel(blue, groundBlueStep);
        row := row + 1;
      }
    }

    /** The inner loop of `createGradientBackground()`: row `row` gets its colour, the rows above keep theirs. */
    method FillRow(row: int, red: Option<int>, green: Option<int>, blue: Option<int>, ghost gr: Gradient)
      requires Valid() && 0 <= row < 200
      requires red == RowColour(gr, row, 0) && green == RowColour(gr, row, 1) && blue == RowColour(gr, row, 2)
      requires forall k :: 0 <= k < row * 1280 ==> memPixels.data[k] == GradientByte(gr, k)
      modifies memPixels.data
      ensures forall k :: 0 <= k < (row + 1) * 1280 ==> memPixels.data[k] == GradientByte(gr, k)
    {
      var col := 0;
      while col < 320
        invariant 0 <= col <= 320
        invariant forall k :: 0 <= k < row * 1280 + col * 4 ==> memPixels.data[k] == GradientByte(gr, k)
      {
        SetPixel(col, row, red, green, blue);
        PixelOffset(320, col, row, 0); PixelOffset(320, col, row, 1);
        PixelOffset(320, col, row, 2); PixelOffset(320, col, row, 3);
        col := col + 1;
      }
    }

    /** `copyBackgroundTo(destination)`: the first 320 * 200 pixels of the destination become the background's; bytes past it stay. */
    method CopyBackgroundTo(destination: ImageData)
      requires Valid()
      modifies destination.data
      ensures forall k :: 0 <= k < destination.data.Length ==>
        destination.data[k] == (if k < 256000 then old(memPixels.data[k]) else old(destination.data[k]))
      ensures forall k :: 0 <= k < 256000 ==> memPixels.data[k] == old(memPixels.data[k])
    {
      var src := memPixels.data;
      var dst := destination.data;
      var row := 0;
      while row < 200
        invariant 0 <= row <= 200
        invariant forall k :: 0 <= k < 256000 ==> src[k] == old(src[k])
        invariant forall k :: 0 <= k < dst.Length ==> dst[k] == (if k < row * 1280 then old(src[k]) else old(dst[k]))
      {
        var col := 0;
        while col < 320
          invariant 0 <= col <= 320
          invariant forall k :: 0 <= k < 256000 ==> src[k] == old(src[k])
          invariant forall k :: 0 <= k < dst.Length ==> dst[k] == (if k < row * 1280 + col * 4 then old(src[k]) else old(dst[k]))
        {
          var index := (col + row * memPixels.width) * 4;
          StorePixel(dst, index, src[index + 0], src[index + 1], src[index + 2], src[index + 3]);
          col := col + 1;
        }
        row := row + 1;
      }
    }

    /**
     * `setBackgroundFromDest(dest)`: every file and colour field is copied
     * from the destination, and the gradient is rebuilt when it asks for RGB.
     * Loading a background file is not part of this model.
     */
    method SetBackgroundFromDest(dest: Dest)
      requires Valid()
      modifies this, memPixels.data
      ensures Valid()
      ensures backgroundFile == dest.backgroundFile && backgroundFromFile == dest.backgroundFromFile
      ensures backgroundFromRGB == dest.backgroundFromRGB
      ensures Colours() == DestColours(dest)
      ensures backgroundFromRGB ==> forall k :: 0 <= k < 256000 ==> memPixels.data[k] == GradientByte(Colours(), k)
      ensures !backgroundFromRGB ==> memPixels.data[..] == old(memPixels.data[..])
    {
      CopyFields(dest);
      if backgroundFromRGB {
        CreateGradientBackground();
      }
    }

    /** The field assignments of `setBackgroundFromDest`: the file flags, then the colours. */
    method CopyFields(dest: Dest)
      modifies this
      ensures backgroundFile == dest.backgroundFile && backgroundFromFile == dest.backgroundFromFile
      ensures backgroundFromRGB == dest.backgroundFromRGB
      ensures Colours() == DestColours(dest)
    {
      backgroundFile := dest.backgroundFile;
      backgroundFromFile := dest.backgroundFromFile;
      backgroundFromRGB := dest.backgroundFromRGB;
      CopyColours(dest);
    }

    /** The twelve colour assignments of `setBackgroundFromDest`; the file flags stay. */
    method CopyColours(dest: Dest)
      modifies this
      ensures backgroundFile == old(backgroundFile) && backgroundFromFile == old(backgroundFromFile)
      ensures backgroundFromRGB == old(backgroundFromRGB)
      ensures Colours() == DestColours(dest)
    {
      CopyStartColours(dest);
      CopySteps(dest);
    }

    /** The start colours of both bands become the destination's; everything else stays. */
    method CopyStartColours(dest: Dest)
      modifies this
      ensures backgroundFile == old(backgroundFile) && backgroundFromFile == old(backgroundFromFile)
      ensures backgroundFromRGB == old(backgroundFromRGB)
      ensures Colours() == old(Colours()).(sky := DestColours(dest).sky, ground := DestColours(dest).ground)
    {
      skyRed, skyGreen, skyBlue := dest.skyRed, dest.skyGreen, dest.skyBlue;
      groundRed, groundGreen, groundBlue := dest.groundRed, dest.groundGreen, dest.groundBlue;
    }

    /** The steps of both bands become the destination's; everything else stays. */
    method CopySteps(dest: Dest)
      modifies this
      ensures backgroundFile == old(backgroundFile) && backgroundFromFile == old(backgroundFromFile)
      ensures backgroundFromRGB == old(backgroundFromRGB)
      ensures Colours() == old(Colours()).(skyStep := DestColours(dest).skyStep, groundStep := DestColours(dest).groundStep)
    {
      skyRedStep, skyGreenStep, skyBlueStep := dest.skyRedStep, dest.skyGreenStep, dest.skyBlueStep;
      groundRedStep, groundGreenStep, groundBlueStep := dest.groundRedStep, dest.groundGreenStep, dest.groundBlueStep;
    }
  }

  // ---------------------------------------------------------------------------
  // What the gradient looks like

  /** Every pixel of the gradient has alpha 255. */
  lemma GradientFullAlpha(g: Gradient, col: int, row: int)
    requires 0 <= col < 320 && 0 <= row < 200
    ensures GradientByte(g, (col + row * 320) * 4 + 3) == 255
  {
    PixelOffset(320, col, row, 3);
  }

  /** All pixels of a row have the same colour. */
  lemma GradientRowUniform(g: Gradient, row: int, col1: int, col2: int, c: int)
    requires 0 <= row < 200 && 0 <= col1 < 320 && 0 <= col2 < 320 && 0 <= c < 4
    ensures GradientByte(g, (col1 + row * 320) * 4 + c) == GradientByte(g, (col2 + row * 320) * 4 + c)
  {
    PixelOffset(320, col1, row, c);
    PixelOffset(320, col2, row, c);
  }

  /** Row 0 has the sky start colour and row HalfHeight the ground start colour (stored clamped). */
  lemma GradientStartColours(g: Gradient, col: int, c: int)
    requires 0 <= col < 320 && 0 <= c < 3
    ensures GradientByte(g, col * 4 + c) == ClampByte(Channel(g.sky, c))
    ensures GradientByte(g, (col + HalfHeight * 320) * 4 + c) == ClampByte(Channel(g.ground, c))
  {
    PixelOffset(320, col, 0, c);
    PixelOffset(320, col, HalfHeight, c);
  }

  /**
   * Each later row of a band is the previous row's value plus the band's
   * step, clamped to [0, 255]; with the previous value already a byte, that
   * is the previous row's stored byte plus the step, clamped.
   */
  lemma GradientNextRow(g: Gradient, col: int, row: int, c: int)
    requires 0 <= col < 320 && 0 < row < 200 && row != HalfHeight && 0 <= c < 3
    ensures var step := if row < HalfHeight then Channel(g.skyStep, c) else Channel(g.groundStep, c);
      var prev := RowColour(g, row - 1, c);
      && RowColour(g, row, c) == StepChannel(prev, step)
      && (prev.Some? && step.Some? && 0 <= prev.value <= 255 ==>
            GradientByte(g, (col + row * 320) * 4 + c) ==
            ClampByte(Some(GradientByte(g, (col + (row - 1) * 320) * 4 + c) + step.value)))
  {
    PixelOffset(320, col, row, c);
    PixelOffset(320, col, row - 1, c);
  }
}
