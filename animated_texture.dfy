/** The animated GIF texture (VROAnimatedTextureOpenGL.cpp): decoding the
    frames of a GIF into packed RGBA pixels and a cumulative timeline, and
    the play/pause/loop clock that picks the frame to show.

    The GIF container itself is decoded by giflib, which is not part of
    this model: its outcome is a GifFile value (or the failure it
    reports). The clock is a parameter `now`, in milliseconds. Texture
    uploads are recorded in a log of the frame indices sent to the GL
    texture. */
module AnimatedTexture {
  import opened Wrappers
  import Decimal

  datatype Rgb = Rgb(red: Byte, green: Byte, blue: Byte)

  /** A Graphics Control Extension (section 23 of GIF89a) as giflib
      reports it: the disposal method, the delay in hundredths of a second
      (a 16-bit field) and the transparent colour index (-1 for none). */
  datatype ControlBlock = ControlBlock(disposalMode: int, delayTime: nat, transparentColor: int)

  /** One image of the file: its place on the logical screen, its colour
      indices row by row, and its local colour table if it has one. */
  datatype SavedImage = SavedImage(left: int, top: int, width: nat, height: nat,
                                   raster: seq<seq<Byte>>, colorMap: Option<seq<Rgb>>)

  /** A slurped GIF: the logical screen, the global colour table, the
      interlace flag of the image descriptor, the images and, per image,
      its control block when it has one. */
  datatype GifFile = GifFile(screenWidth: nat, screenHeight: nat, backgroundColor: int,
                             colorMap: Option<seq<Rgb>>, interlace: bool,
                             images: seq<SavedImage>, controls: seq<Option<ControlBlock>>)

  /** What opening and slurping the file gave. */
  datatype Opened = OpenFailed(code: int) | SlurpFailed | Slurped(gif: GifFile)

  /** A decoded frame: when it starts, where it goes, and its pixels. */
  datatype AnimatedFrame = AnimatedFrame(timeStamp: int, top: int, left: int, width: nat, height: nat,
                                         data: seq<nat>)

  datatype GifError = CannotOpen(code: int) | Invalid | Interlaced | BadControlBlock | BadPalette

  /** The error text parseGIFFile reports. */
  function ErrorMessage(e: GifError, path: string): string
  {
    match e
    case CannotOpen(code) => "Failed to open GIF file [error: " + Decimal.IntToString(code) + "]"
    case Invalid => "Invalid GIF file: " + path
    case Interlaced => "Interlaced GIFs are not currently supported."
    case BadControlBlock => "Invalid GIF Graphics Control Block for multi-frame animation"
    case BadPalette => "Malformed GIF Color Palete detected in image!"
  }

  /** The shape giflib guarantees: one raster row per image row, each as
      wide as the image, and one control-block slot per image. */
  predicate WellFormedImage(img: SavedImage)
  {
    |img.raster| == img.height && forall r :: 0 <= r < |img.raster| ==> |img.raster[r]| == img.width
  }

  predicate WellFormed(g: GifFile)
  {
    |g.controls| == |g.images| && forall i :: 0 <= i < |g.images| ==> WellFormedImage(g.images[i])
  }

  // ---------------------------------------------------------------------
  // Pixels
  // ---------------------------------------------------------------------

  /** A pixel as the texture stores it: (alpha << 24) | (b << 16) | (g << 8) | r. */
  function Pack(alpha: Byte, b: Byte, g: Byte, r: Byte): (c: nat)
    ensures c < 0x1_0000_0000
  {
    alpha * 0x100_0000 + b * 0x1_0000 + g * 0x100 + r
  }

  function ByteAt(c: nat, shift: nat): Byte
  {
    (c / Power256(shift)) % 256
  }

  function Power256(n: nat): (p: nat)
    ensures p >= 1
  {
    if n == 0 then 1 else 256 * Power256(n - 1)
  }

  /** Unpacking recovers the four channels: red in the low byte, then
      green, blue and alpha. */
  lemma PackRoundTrip(alpha: Byte, b: Byte, g: Byte, r: Byte)
    ensures ByteAt(Pack(alpha, b, g, r), 0) == r
    ensures ByteAt(Pack(alpha, b, g, r), 1) == g
    ensures ByteAt(Pack(alpha, b, g, r), 2) == b
    ensures ByteAt(Pack(alpha, b, g, r), 3) == alpha
  {
    var c := Pack(alpha, b, g, r);
    assert Power256(1) == 0x100 && Power256(2) == 0x1_0000 && Power256(3) == 0x100_0000;
    assert c == ((alpha * 0x100 + b) * 0x100 + g) * 0x100 + r;
    assert c / 0x100 == (alpha * 0x100 + b) * 0x100 + g;
    assert c / 0x1_0000 == alpha * 0x100 + b;
    assert c / 0x100_0000 == alpha;
  }

  /** The guard the pixel loop puts on a colour index, as written: an
      index equal to the colour count passes, one past the last entry. */
  predicate InPaletteAsWritten(index: int, colorCount: int): (ok: bool)
    ensures 0 <= index < colorCount ==> ok
    ensures ok && 0 <= index ==> index <= colorCount
  {
    index <= colorCount
  }

  /** With a four-colour table, index 4 passes the written guard although
      the table's entries are 0 to 3. */
  lemma PaletteOverrunAsWritten()
    ensures InPaletteAsWritten(4, |[Rgb(0, 0, 0), Rgb(0, 0, 0), Rgb(0, 0, 0), Rgb(0, 0, 0)]|)
    ensures !(4 < |[Rgb(0, 0, 0), Rgb(0, 0, 0), Rgb(0, 0, 0), Rgb(0, 0, 0)]|)
  {
  }

  /** The colour a raster index names: the table entry, opaque unless it
      is the transparent index; 0 for an index outside the table (the
      guard as the table's bounds call for). */
  function BaseColor(index: Byte, palette: seq<Rgb>, transparent: int): (c: nat)
    ensures c < 0x1_0000_0000
    ensures index >= |palette| ==> c == 0
  {
    if index < |palette| then
      var rgb := palette[index];
      Pack(if index == transparent then 0 else 0xFF, rgb.blue, rgb.green, rgb.red)
    else 0
  }

  /** A table colour is fully transparent exactly when its index is the
      transparent one, and opaque otherwise, with the entry's channels. */
  lemma BaseColorChannels(index: Byte, palette: seq<Rgb>, transparent: int)
    requires index < |palette|
    ensures ByteAt(BaseColor(index, palette, transparent), 3) == (if index == transparent then 0 else 0xFF)
    ensures ByteAt(BaseColor(index, palette, transparent), 0) == palette[index].red
    ensures ByteAt(BaseColor(index, palette, transparent), 1) == palette[index].green
    ensures ByteAt(BaseColor(index, palette, transparent), 2) == palette[index].blue
  {
    var rgb := palette[index];
    PackRoundTrip(if index == transparent then 0 else 0xFF, rgb.blue, rgb.green, rgb.red);
  }

  /** The last-frame cache: a cell never written reads as 0. */
  function Cached(cache: map<int, nat>, at: int): nat
  {
    if at in cache then cache[at] else 0
  }

  /** Where pixel (row, col) of img lies in the whole screen. */
  function ScreenIndex(img: SavedImage, row: int, col: int, screenWidth: int): int
  {
    (row + img.top) * screenWidth + (col + img.left)
  }

  /** One pixel of a frame, with the last-frame cache before and after.
      The first frame seeds the cache. A transparent pixel shows the
      cached colour, or under disposal mode 2 the value of the comparison
      with the background index; any other pixel shows its colour and
      updates the cache. */
  function Pixel(img: SavedImage, row: nat, col: nat, palette: seq<Rgb>, gcb: ControlBlock, first: bool,
                 screenWidth: int, background: int, cache: map<int, nat>): (r: (nat, map<int, nat>))
    requires row < |img.raster| && col < |img.raster[row]|
    ensures img.raster[row][col] != gcb.transparentColor ==>
      r.0 == BaseColor(img.raster[row][col], palette, gcb.transparentColor)
      && r.1 == cache[ScreenIndex(img, row, col, screenWidth) := r.0]
    ensures img.raster[row][col] == gcb.transparentColor && gcb.disposalMode != 2 ==>
      r.0 == (if first then BaseColor(img.raster[row][col], palette, gcb.transparentColor)
              else Cached(cache, ScreenIndex(img, row, col, screenWidth)))
  {
    var index := img.raster[row][col];
    var color := BaseColor(index, palette, gcb.transparentColor);
    var at := ScreenIndex(img, row, col, screenWidth);
    var seeded := if first then cache[at := color] else cache;
    if index == gcb.transparentColor then
      (if gcb.disposalMode == 2 then (if index == background then 1 else 0) else Cached(seeded, at), seeded)
    else (color, seeded[at := color])
  }

  /** The pixels of row `row` up to column `col`, appended to acc.0, with
      the cache threaded through. */
  function RowPixels(img: SavedImage, row: nat, col: nat, palette: seq<Rgb>, gcb: ControlBlock, first: bool,
                     screenWidth: int, background: int, acc: (seq<nat>, map<int, nat>)): (r: (seq<nat>, map<int, nat>))
    requires row < |img.raster| && col <= |img.raster[row]|
    ensures |r.0| == |acc.0| + col
  {
    if col == 0 then acc
    else
      var before := RowPixels(img, row, col - 1, palette, gcb, first, screenWidth, background, acc);
      var p := Pixel(img, row, col - 1, palette, gcb, first, screenWidth, background, before.1);
      (before.0 + [p.0], p.1)
  }

  /** The pixels of the first `rows` rows, in row-major order. */
  function FrameRows(img: SavedImage, rows: nat, palette: seq<Rgb>, gcb: ControlBlock, first: bool,
                     screenWidth: int, background: int, cache: map<int, nat>): (r: (seq<nat>, map<int, nat>))
    requires WellFormedImage(img) && rows <= img.height
  {
    if rows == 0 then ([], cache)
    else
      var before := FrameRows(img, rows - 1, palette, gcb, first, screenWidth, background, cache);
      RowPixels(img, rows - 1, img.width, palette, gcb, first, screenWidth, background, before)
  }

  /** A frame holds width × height pixels. */
  lemma {:induction false} FrameRowsSize(img: SavedImage, rows: nat, palette: seq<Rgb>, gcb: ControlBlock, first: bool,
                                         screenWidth: int, background: int, cache: map<int, nat>)
    requires WellFormedImage(img) && rows <= img.height
    ensures |FrameRows(img, rows, palette, gcb, first, screenWidth, background, cache).0| == rows * img.width
  {
    if rows > 0 {
      FrameRowsSize(img, rows - 1, palette, gcb, first, screenWidth, background, cache);
      assert (rows - 1) * img.width + img.width == rows * img.width;
    }
  }

  /** The pixel loops of parseGIFFile for one frame: rows top to bottom,
      pixels left to right. */
  method DecodeImage(img: SavedImage, palette: seq<Rgb>, gcb: ControlBlock, first: bool,
                     screenWidth: int, background: int, cache: map<int, nat>)
    returns (data: seq<nat>, after: map<int, nat>)
    requires WellFormedImage(img)
    ensures (data, after) == FrameRows(img, img.height, palette, gcb, first, screenWidth, background, cache)
  {
    data, after := [], cache;
    var row := 0;
    while row < img.height
      invariant 0 <= row <= img.height
      invariant (data, after) == FrameRows(img, row, palette, gcb, first, screenWidth, background, cache)
    {
      ghost var rowStart := (data, after);
      var col := 0;
      while col < img.width
        invariant 0 <= col <= img.width
        invariant (data, after) == RowPixels(img, row, col, palette, gcb, first, screenWidth, background, rowStart)
      {
        var color;
        color, after := PixelStep(img, row, col, palette, gcb, first, screenWidth, background, after);
        data := data + [color];
        col := col + 1;
      }
      row := row + 1;
    }
  }

  /** The body of the pixel loop. */
  method PixelStep(img: SavedImage, row: nat, col: nat, palette: seq<Rgb>, gcb: ControlBlock, first: bool,
                   screenWidth: int, background: int, cache: map<int, nat>)
    returns (color: nat, after: map<int, nat>)
    requires row < |img.raster| && col < |img.raster[row]|
    ensures (color, after) == Pixel(img, row, col, palette, gcb, first, screenWidth, background, cache)
  {
    var index := img.raster[row][col];
    color := 0;
    if index < |palette| {
      var rgb := palette[index];
      var alpha := if index == gcb.transparentColor then 0x00 else 0xFF;
      color := Pack(alpha, rgb.blue, rgb.green, rgb.red);
    }
    var at := ScreenIndex(img, row, col, screenWidth);
    after := cache;
    if first {
      after := after[at := color];
    }
    if index == gcb.transparentColor {
      if gcb.disposalMode == 2 {
        color := if index == background then 1 else 0;
      } else {
        color := Cached(after, at);
      }
    } else {
      after := after[at := color];
    }
  }

  // ---------------------------------------------------------------------
  // Frames and the timeline
  // ---------------------------------------------------------------------

  /** A frame's delay in milliseconds: the control block's hundredths
      times ten, with 0 read as 100 ms. */
  function Delay(gcb: ControlBlock): (d: int)
    ensures d >= 10
  {
    if gcb.delayTime * 10 == 0 then 100 else gcb.delayTime * 10
  }

  /** The frames decoded so far, the running total duration, the
      last-frame cache and the error that stopped decoding, if any. */
  datatype Progress = Progress(frames: seq<AnimatedFrame>, total: int, cache: map<int, nat>, error: Option<GifError>)

  /** The colour table of image i: its own, else the global one. */
  function PaletteOf(g: GifFile, i: nat): Option<seq<Rgb>>
    requires i < |g.images|
  {
    if g.images[i].colorMap.Some? then g.images[i].colorMap else g.colorMap
  }

  /** The pixels of image i and the cache after them. */
  function ImagePixels(g: GifFile, i: nat, palette: seq<Rgb>, gcb: ControlBlock, cache: map<int, nat>): (seq<nat>, map<int, nat>)
    requires WellFormed(g) && i < |g.images|
  {
    var img := g.images[i];
    FrameRows(img, img.height, palette, gcb, i == 0, g.screenWidth, g.backgroundColor, cache)
  }

  /** Decoding image i after progress p: a missing control block or a
      missing colour table stops with an error; otherwise the frame is
      stamped with the running total and appended. */
  function DecodeStep(g: GifFile, i: nat, p: Progress): Progress
    requires WellFormed(g) && i < |g.images|
  {
    match g.controls[i]
    case None => p.(error := Some(BadControlBlock))
    case Some(gcb) =>
      var img := g.images[i];
      match PaletteOf(g, i)
      case None => p.(total := p.total + Delay(gcb), error := Some(BadPalette))
      case Some(palette) =>
        var pixels := ImagePixels(g, i, palette, gcb, p.cache);
        Progress(p.frames + [AnimatedFrame(p.total, img.top, img.left, img.width, img.height, pixels.0)],
                 p.total + Delay(gcb), pixels.1, None)
  }

  /** The first n images decoded, stopping at the first error. */
  function Frames(g: GifFile, n: nat): Progress
    requires WellFormed(g) && n <= |g.images|
  {
    if n == 0 then Progress([], 0, map[], None)
    else
      var p := Frames(g, n - 1);
      if p.error.Some? then p else DecodeStep(g, n - 1, p)
  }

  /** Image i can be decoded: it has a control block and a colour table. */
  predicate Decodable(g: GifFile, i: nat)
    requires i < |g.images| && |g.controls| == |g.images|
  {
    g.controls[i].Some? && PaletteOf(g, i).Some?
  }

  /** The sum of the delays of the first n images. */
  function DelaySum(g: GifFile, n: nat): int
    requires WellFormed(g) && n <= |g.images|
    requires forall i :: 0 <= i < n ==> Decodable(g, i)
  {
    if n == 0 then 0
    else
      assert Decodable(g, n - 1);
      DelaySum(g, n - 1) + Delay(g.controls[n - 1].value)
  }

  /** A decodable image, decoded after an error-free prefix, adds one
      frame stamped with the running total and adds its delay to it; an
      undecodable one stops decoding. */
  lemma DecodeStepEffect(g: GifFile, i: nat, p: Progress)
    requires WellFormed(g) && i < |g.images|
    ensures DecodeStep(g, i, p).error.None? <==> Decodable(g, i)
    ensures Decodable(g, i) ==>
      && DecodeStep(g, i, p).frames[..|p.frames|] == p.frames
      && |DecodeStep(g, i, p).frames| == |p.frames| + 1
      && DecodeStep(g, i, p).frames[|p.frames|].timeStamp == p.total
      && DecodeStep(g, i, p).total == p.total + Delay(g.controls[i].value)
  {
    if Decodable(g, i) {
      var q := DecodeStep(g, i, p);
      assert q.frames[..|p.frames|] == p.frames;
    }
  }

  /** Decoding succeeds exactly when every image is decodable. */
  lemma {:induction false} FramesSucceed(g: GifFile, n: nat)
    requires WellFormed(g) && n <= |g.images|
    ensures Frames(g, n).error.None? <==> forall i :: 0 <= i < n ==> Decodable(g, i)
  {
    if n > 0 {
      FramesSucceed(g, n - 1);
      var p := Frames(g, n - 1);
      DecodeStepEffect(g, n - 1, p);
      assert Frames(g, n) == if p.error.Some? then p else DecodeStep(g, n - 1, p);
      assert (forall i :: 0 <= i < n ==> Decodable(g, i))
         <==> (forall i :: 0 <= i < n - 1 ==> Decodable(g, i)) && Decodable(g, n - 1);
    }
  }

  /** Progress after n decodable images: one frame per image, each
      stamped with the sum of the delays before it, and the running total
      equal to the sum of all n delays. */
  predicate Stamped(g: GifFile, p: Progress, n: nat)
    requires WellFormed(g) && n <= |g.images|
    requires forall i :: 0 <= i < n ==> Decodable(g, i)
  {
    && |p.frames| == n
    && p.total == DelaySum(g, n)
    && forall i :: 0 <= i < n ==> p.frames[i].timeStamp == DelaySum(g, i)
  }

  /** Decoding one more decodable image keeps the timeline stamped. */
  lemma StampStep(g: GifFile, n: nat, p: Progress)
    requires WellFormed(g) && n < |g.images|
    requires forall i :: 0 <= i <= n ==> Decodable(g, i)
    requires Stamped(g, p, n)
    ensures Stamped(g, DecodeStep(g, n, p), n + 1)
  {
    DecodeStepEffect(g, n, p);
    var q := DecodeStep(g, n, p);
    forall i | 0 <= i < n
      ensures q.frames[i].timeStamp == DelaySum(g, i)
    {
      assert q.frames[i] == q.frames[..n][i];
    }
  }

  /** A successful decoding yields one frame per image, each stamped with
      the sum of the delays before it, and the total duration is the sum
      of all delays. */
  lemma {:induction false} FramesTimeline(g: GifFile, n: nat)
    requires WellFormed(g) && n <= |g.images|
    requires forall i :: 0 <= i < n ==> Decodable(g, i)
    ensures Stamped(g, Frames(g, n), n)
  {
    if n > 0 {
      FramesTimeline(g, n - 1);
      FramesSucceed(g, n - 1);
      StampStep(g, n - 1, Frames(g, n - 1));
    }
  }

  /** Every delay is at least 10 ms, so the timestamps strictly increase
      from 0. */
  lemma {:induction false} DelaySumIncreases(g: GifFile, i: nat, j: nat)
    requires WellFormed(g) && i < j <= |g.images|
    requires forall k :: 0 <= k < j ==> Decodable(g, k)
    ensures 0 <= DelaySum(g, i) < DelaySum(g, j)
  {
    if i < j - 1 {
      DelaySumIncreases(g, i, j - 1);
    } else if i > 0 {
      DelaySumIncreases(g, 0, i);
    }
  }

  /** A successful decoding's timestamps start at 0 and strictly
      increase, which is what the frame search relies on. */
  lemma TimelineIncreasing(g: GifFile, n: nat)
    requires WellFormed(g) && n <= |g.images|
    requires forall i :: 0 <= i < n ==> Decodable(g, i)
    ensures |Timestamps(Frames(g, n).frames)| == n
    ensures Increasing(Timestamps(Frames(g, n).frames))
    ensures n > 0 ==> Timestamps(Frames(g, n).frames)[0] == 0
  {
    FramesTimeline(g, n);
    var ts := Timestamps(Frames(g, n).frames);
    forall i, j | 0 <= i < j < |ts|
      ensures ts[i] < ts[j]
    {
      DelaySumIncreases(g, i, j);
    }
  }

  /** The frame loop of parseGIFFile. */
  method DecodeFrames(g: GifFile) returns (p: Progress)
    requires WellFormed(g)
    ensures p == Frames(g, |g.images|)
  {
    p := Progress([], 0, map[], None);
    var i := 0;
    while i < |g.images|
      invariant 0 <= i <= |g.images| && p == Frames(g, i) && p.error.None?
    {
      p := DecodeNext(g, i, p);
      i := i + 1;
      if p.error.Some? {
        FramesStop(g, i);
        return;
      }
    }
  }

  /** One pass of the frame loop: the control block, the running total,
      the colour table (local, else global) and the pixels. */
  method DecodeNext(g: GifFile, i: nat, p: Progress) returns (q: Progress)
    requires WellFormed(g) && i < |g.images|
    ensures q == DecodeStep(g, i, p)
  {
    var control := g.controls[i];
    if control.None? {
      return p.(error := Some(BadControlBlock));
    }
    var gcb := control.value;
    var total := p.total + Delay(gcb);
    var palette := g.images[i].colorMap;
    if palette.None? {
      palette := g.colorMap;
    }
    if palette.None? {
      return p.(total := total, error := Some(BadPalette));
    }
    var img := g.images[i];
    var data, cache := DecodeImage(img, palette.value, gcb, i == 0, g.screenWidth, g.backgroundColor, p.cache);
    q := Progress(p.frames + [AnimatedFrame(p.total, img.top, img.left, img.width, img.height, data)],
                  total, cache, None);
  }

  /** Once decoding has stopped, later images change nothing. */
  lemma {:induction false} FramesStop(g: GifFile, n: nat)
    requires WellFormed(g) && n <= |g.images| && Frames(g, n).error.Some?
    ensures Frames(g, |g.images|) == Frames(g, n)
    decreases |g.images| - n
  {
    if n < |g.images| {
      FramesStop(g, n + 1);
    }
  }

  // ---------------------------------------------------------------------
  // Frame selection
  // ---------------------------------------------------------------------

  /** The test the frame search applies, as written: strictly after the
      frame's timestamp and strictly before the next one. */
  function SelectFrameAsWritten(ts: seq<int>, t: real, i: nat): (r: int)
    requires |ts| >= 1 && i < |ts|
    ensures i <= r < |ts|
    decreases |ts| - i
  {
    if i == |ts| - 1 then i
    else if t > ts[i] as real && t < ts[i + 1] as real then i
    else SelectFrameAsWritten(ts, t, i + 1)
  }

  /** At the very start of the animation (time 0, which is also where a
      looping animation restarts), the written search finds no frame and
      falls through to the last one, and it does the same at every frame
      boundary. */
  lemma FirstFrameSkippedAsWritten()
    ensures SelectFrameAsWritten([0, 100, 200], 0.0, 0) == 2
    ensures SelectFrameAsWritten([0, 100, 200], 100.0, 0) == 2
    ensures SelectFrame([0, 100, 200], 0.0, 0) == 0
    ensures SelectFrame([0, 100, 200], 100.0, 0) == 1
  {
  }

  /** The frame shown at animation time t: the first frame whose interval
      [ts[i], ts[i+1]) contains t, searching from i, else the last. */
  function SelectFrame(ts: seq<int>, t: real, i: nat): (r: int)
    requires |ts| >= 1 && i < |ts|
    ensures i <= r < |ts|
    decreases |ts| - i
  {
    if i == |ts| - 1 then i
    else if ts[i] as real <= t < ts[i + 1] as real then i
    else SelectFrame(ts, t, i + 1)
  }

  predicate Increasing(ts: seq<int>)
  {
    forall i, j :: 0 <= i < j < |ts| ==> ts[i] < ts[j]
  }

  /** On an increasing timeline starting at or before t, the selected
      frame has started by t and the next one has not: its interval
      holds t (or it is the last frame). */
  lemma {:induction false} SelectFrameCovers(ts: seq<int>, t: real, i: nat)
    requires |ts| >= 1 && i < |ts| && Increasing(ts) && ts[i] as real <= t
    ensures var r := SelectFrame(ts, t, i);
      ts[r] as real <= t && (r + 1 < |ts| ==> t < ts[r + 1] as real)
    decreases |ts| - i
  {
    if i < |ts| - 1 && !(t < ts[i + 1] as real) {
      SelectFrameCovers(ts, t, i + 1);
    }
  }

  function Timestamps(frames: seq<AnimatedFrame>): (ts: seq<int>)
    ensures |ts| == |frames| && forall i :: 0 <= i < |frames| ==> ts[i] == frames[i].timeStamp
  {
    seq(|frames|, i requires 0 <= i < |frames| => frames[i].timeStamp)
  }

  // ---------------------------------------------------------------------
  // The texture
  // ---------------------------------------------------------------------

  class AnimatedTextureOpenGL {
    var frames: seq<AnimatedFrame>
    var totalDuration: int
    var width: nat
    var height: nat
    var paused: bool
    var loop: bool
    var startTime: real
    var timeWhenPaused: real
    var currentFrame: int
    /** The frames whose pixels were sent to the GL texture, in order. */
    var uploads: seq<nat>

    /** A texture with no frames yet. */
    constructor()
      ensures frames == [] && totalDuration == 0 && uploads == []
    {
      frames := [];
      totalDuration := 0;
      width, height := 0, 0;
      paused, loop := false, true;
      startTime, timeWhenPaused := 0.0, 0.0;
      currentFrame := 0;
      uploads := [];
    }

    /** play: resumes a paused animation with frames, so that it goes on
      from the time it was paused at. */
    method Play(now: real)
      modifies this`paused, this`startTime, this`timeWhenPaused
      ensures old(!paused || |frames| < 1) ==> paused == old(paused) && startTime == old(startTime)
                                               && timeWhenPaused == old(timeWhenPaused)
      ensures old(paused && |frames| >= 1) ==>
        !paused && startTime == now - old(timeWhenPaused) && timeWhenPaused == 0.0
    {
      if !paused || |frames| < 1 {
        return;
      }
      paused := false;
      startTime := now - timeWhenPaused;
      timeWhenPaused := 0.0;
    }

    /** pause: stops a running animation with frames, keeping the time it
      had run. */
    method Pause(now: real)
      modifies this`paused, this`timeWhenPaused
      ensures old(paused || |frames| < 1) ==> paused == old(paused) && timeWhenPaused == old(timeWhenPaused)
      ensures old(!paused && |frames| >= 1) ==> paused && timeWhenPaused == now - startTime
    {
      if paused || |frames| < 1 {
        return;
      }
      paused := true;
      timeWhenPaused := now - startTime;
    }

    /** Pausing and resuming later leaves the animation time where it was
      when paused. */
    method PauseThenPlay(paused1: real, resumed: real)
      requires !paused && |frames| >= 1
      modifies this`paused, this`startTime, this`timeWhenPaused
      ensures !paused && resumed - startTime == paused1 - old(startTime) && timeWhenPaused == 0.0
    {
      Pause(paused1);
      Play(resumed);
    }

    method SetLoop(value: bool)
      modifies this`loop
      ensures loop == value
    {
      loop := value;
    }

    /** animateTexture: nothing while paused or once a non-looping
      animation has ended; a looping one restarts at now. The frame whose
      interval holds the animation time is then uploaded, unless it is
      the one already shown. The frame search uses the interval test
      [ts[i], ts[i+1]) (see SelectFrameAsWritten). Callers run this only
      on a texture that holds frames. */
    method AnimateTexture(now: real)
      requires |frames| >= 1
      modifies this`startTime, this`currentFrame, this`uploads
      ensures var end := old(startTime) + totalDuration as real;
        if old(paused) || (now > end && !loop) then
          startTime == old(startTime) && currentFrame == old(currentFrame) && uploads == old(uploads)
        else
          var start := if now > end then now else old(startTime);
          var shown := SelectFrame(Timestamps(frames), now - start, 0);
          startTime == start && currentFrame == shown
          && uploads == (if shown == old(currentFrame) then old(uploads) else old(uploads) + [shown])
    {
      if paused {
        return;
      }
      var end := startTime + totalDuration as real;
      if now > end && !loop {
        return;
      } else if now > end && loop {
        startTime := now;
      }
      var t := now - startTime;
      var i := 0;
      while i < |frames| - 1
        invariant 0 <= i < |frames|
        invariant SelectFrame(Timestamps(frames), t, 0) == SelectFrame(Timestamps(frames), t, i)
      {
        if frames[i].timeStamp as real <= t && t < frames[i + 1].timeStamp as real {
          break;
        }
        i := i + 1;
      }
      if currentFrame == i {
        return;
      }
      currentFrame := i;
      uploads := uploads + [i];
    }

    /** init: the clock restarts at 0 on frame 0, looping and playing,
      and the texture is created with frame 0's pixels. */
    method Init()
      requires |frames| >= 1
      modifies this`startTime, this`currentFrame, this`timeWhenPaused, this`loop, this`paused, this`uploads
      ensures startTime == 0.0 && currentFrame == 0 && timeWhenPaused == 0.0 && loop && !paused
      ensures uploads == [0]
    {
      startTime := 0.0;
      currentFrame := 0;
      timeWhenPaused := 0.0;
      loop := true;
      paused := false;
      uploads := [0];
    }

    /** parseGIFFile: failures to open or slurp the file and interlaced
      files change nothing; otherwise the screen size is taken, and the
      frames decoded before any failure are appended; the total duration
      is recorded only when every frame decodes. */
    method ParseGIFFile(decoded: Opened, path: string) returns (ok: bool, message: string)
      requires decoded.Slurped? ==> WellFormed(decoded.gif)
      modifies this`width, this`height, this`frames, this`totalDuration
      ensures !decoded.Slurped? || decoded.gif.interlace ==>
        !ok && width == old(width) && height == old(height) && frames == old(frames)
        && totalDuration == old(totalDuration)
      ensures !decoded.Slurped? || decoded.gif.interlace ==>
        message == ErrorMessage(if decoded.OpenFailed? then CannotOpen(decoded.code)
                                else if decoded.SlurpFailed? then Invalid else Interlaced, path)
      ensures decoded.Slurped? && !decoded.gif.interlace ==>
        var p := Frames(decoded.gif, |decoded.gif.images|);
        && width == decoded.gif.screenWidth && height == decoded.gif.screenHeight
        && frames == old(frames) + p.frames
        && ok == p.error.None?
        && totalDuration == (if ok then p.total else old(totalDuration))
        && message == (if ok then "" else ErrorMessage(p.error.value, path))
    {
      if decoded.OpenFailed? {
        return false, ErrorMessage(CannotOpen(decoded.code), path);
      }
      if decoded.SlurpFailed? {
        return false, ErrorMessage(Invalid, path);
      }
      var g := decoded.gif;
      if g.interlace {
        return false, ErrorMessage(Interlaced, path);
      }
      height := g.screenHeight;
      width := g.screenWidth;
      var p := DecodeFrames(g);
      frames := frames + p.frames;
      if p.error.Some? {
        return false, ErrorMessage(p.error.value, path);
      }
      totalDuration := p.total;
      return true, "";
    }
  }
}
