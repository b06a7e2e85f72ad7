/** The Cardboard distortion renderer's bookkeeping (VRODistortionRenderer.cpp):
    the dirty flags that decide when the render texture and the distortion
    meshes are rebuilt, the per-eye viewports in tangent-angle units and
    their pixel rounding, and the layout of a distortion mesh: its
    40 x 40 vertex array and the triangle-strip index list over it. */
module DistortionRenderer {

  // ---------------------------------------------------------------------
  // Rounding and clamping
  // ---------------------------------------------------------------------

  /** C's round(): the nearest integer, halves away from zero. */
  function Round(x: real): (r: int)
    ensures x >= 0.0 ==> r as real <= x + 0.5 < r as real + 1.0
    ensures x < 0.0 ==> r as real - 1.0 < x - 0.5 <= r as real
  {
    if x >= 0.0 then (x + 0.5).Floor else -((-x + 0.5).Floor)
  }

  function Clamp(x: real, lo: real, hi: real): real
  {
    if x < lo then lo else if x > hi then hi else x
  }

  // ---------------------------------------------------------------------
  // Eye viewports
  // ---------------------------------------------------------------------

  /** A field of view given by the tangents of its four half-angles. */
  datatype FieldOfView = FieldOfView(tanLeft: real, tanRight: real, tanBottom: real, tanTop: real)

  /** An eye's viewport in tangent-angle units, with the eye's position. */
  datatype EyeViewport = EyeViewport(x: real, y: real, width: real, height: real, eyeX: real, eyeY: real)

  /** initViewportForEye: the viewport starts at xOffset on the bottom edge,
      spans left + right by bottom + top, and puts the eye left of its
      right edge by the right tangent and above its bottom by the bottom
      tangent. */
  function InitViewportForEye(fov: FieldOfView, xOffset: real): (v: EyeViewport)
    ensures v.x == xOffset && v.y == 0.0
    ensures v.eyeX - v.x == fov.tanLeft && v.x + v.width - v.eyeX == fov.tanRight
    ensures v.eyeY - v.y == fov.tanBottom && v.y + v.height - v.eyeY == fov.tanTop
  {
    EyeViewport(xOffset, 0.0, fov.tanLeft + fov.tanRight, fov.tanBottom + fov.tanTop,
                fov.tanLeft + xOffset, fov.tanBottom)
  }

  /** A screen in pixels and meters. */
  datatype Screen = Screen(widthPx: int, heightPx: int, widthMeters: real, heightMeters: real)

  /** A viewport in whole pixels. */
  datatype PixelViewport = PixelViewport(x: int, y: int, width: int, height: int)

  /** An eye viewport scaled to pixels and rounded. */
  function ToPixels(v: EyeViewport, xPxPerTanAngle: real, yPxPerTanAngle: real, scale: real): PixelViewport
  {
    PixelViewport(Round(v.x * xPxPerTanAngle * scale), Round(v.y * yPxPerTanAngle * scale),
                  Round(v.width * xPxPerTanAngle * scale), Round(v.height * yPxPerTanAngle * scale))
  }

  /** The two eyes side by side: the right eye starts where the left ends. */
  lemma EyesSideBySide(leftFov: FieldOfView, rightFov: FieldOfView)
    ensures var left := InitViewportForEye(leftFov, 0.0);
      var right := InitViewportForEye(rightFov, left.width);
      right.x == left.x + left.width && left.y == right.y
  {
  }

  /** Rounded pixel viewports of non-negative extent are within half a
      pixel of the exact scaled value. */
  lemma PixelsWithinHalf(v: EyeViewport, xPx: real, yPx: real, scale: real)
    requires v.width * xPx * scale >= 0.0 && v.height * yPx * scale >= 0.0
    ensures var p := ToPixels(v, xPx, yPx, scale);
      && v.width * xPx * scale - 0.5 < p.width as real <= v.width * xPx * scale + 0.5
      && v.height * yPx * scale - 0.5 < p.height as real <= v.height * yPx * scale + 0.5
  {
  }

  // ---------------------------------------------------------------------
  // The renderer's state
  // ---------------------------------------------------------------------

  const GL_RGB := 0x1907
  const GL_UNSIGNED_BYTE := 0x1401

  class Renderer {
    var textureFormat: int
    var textureType: int
    var resolutionScale: real
    var restoreGLStateEnabled: bool
    var chromaticAberrationEnabled: bool
    var vignetteEnabled: bool
    var fovsChanged: bool
    var viewportsChanged: bool
    var textureFormatChanged: bool
    var drawingFrame: bool
    var leftEye: EyeViewport
    var rightEye: EyeViewport
    var screen: Screen
    var xPxPerTanAngle: real
    var yPxPerTanAngle: real
    var metersPerTanAngle: real
    /** Size of the render texture last set up, in pixels. */
    var textureWidthPx: int
    var textureHeightPx: int

    constructor()
      ensures textureFormat == GL_RGB && textureType == GL_UNSIGNED_BYTE && resolutionScale == 1.0
      ensures restoreGLStateEnabled && !chromaticAberrationEnabled && vignetteEnabled
      ensures !fovsChanged && !viewportsChanged && !textureFormatChanged && !drawingFrame
      ensures xPxPerTanAngle == 0.0 && yPxPerTanAngle == 0.0 && metersPerTanAngle == 0.0
    {
      textureFormat := GL_RGB;
      textureType := GL_UNSIGNED_BYTE;
      resolutionScale := 1.0;
      restoreGLStateEnabled := true;
      chromaticAberrationEnabled := false;
      vignetteEnabled := true;
      fovsChanged := false;
      viewportsChanged := false;
      textureFormatChanged := false;
      drawingFrame := false;
      leftEye := EyeViewport(0.0, 0.0, 0.0, 0.0, 0.0, 0.0);
      rightEye := EyeViewport(0.0, 0.0, 0.0, 0.0, 0.0, 0.0);
      screen := Screen(0, 0, 0.0, 0.0);
      xPxPerTanAngle := 0.0;
      yPxPerTanAngle := 0.0;
      metersPerTanAngle := 0.0;
      textureWidthPx := 0;
      textureHeightPx := 0;
    }

    /** setTextureFormat: refused while a frame is drawn; otherwise the
      format is taken and marked changed only when it differs. */
    method SetTextureFormat(format: int, textureType': int)
      modifies this
      ensures drawingFrame == old(drawingFrame)
      ensures old(drawingFrame) ==>
        textureFormat == old(textureFormat) && textureType == old(textureType)
        && textureFormatChanged == old(textureFormatChanged)
      ensures !old(drawingFrame) ==> textureFormat == format && textureType == textureType'
      ensures !old(drawingFrame) ==>
        textureFormatChanged == (old(textureFormatChanged) || format != old(textureFormat) || textureType' != old(textureType))
      ensures fovsChanged == old(fovsChanged) && viewportsChanged == old(viewportsChanged)
    {
      if drawingFrame {
        return;
      }
      if format != textureFormat || textureType' != textureType {
        textureFormat := format;
        textureType := textureType';
        textureFormatChanged := true;
      }
    }

    /** updateTextureAndDistortionMesh with setupRenderTextureAndRenderbuffer:
      the render texture covers both eyes side by side and the taller eye,
      in pixels, capped at the largest texture size; afterwards neither the
      field of view nor the texture format is pending. */
    method UpdateTextureAndDistortionMesh(maxTextureSize: int)
      modifies this
      ensures textureWidthPx == TextureWidthPx(leftEye, rightEye, xPxPerTanAngle, maxTextureSize)
      ensures textureHeightPx == TextureHeightPx(leftEye, rightEye, yPxPerTanAngle, maxTextureSize)
      ensures !fovsChanged && !textureFormatChanged
      ensures drawingFrame == old(drawingFrame) && viewportsChanged == old(viewportsChanged)
      ensures leftEye == old(leftEye) && rightEye == old(rightEye)
      ensures xPxPerTanAngle == old(xPxPerTanAngle) && yPxPerTanAngle == old(yPxPerTanAngle)
      ensures textureFormat == old(textureFormat) && textureType == old(textureType)
    {
      textureWidthPx := TextureWidthPx(leftEye, rightEye, xPxPerTanAngle, maxTextureSize);
      textureHeightPx := TextureHeightPx(leftEye, rightEye, yPxPerTanAngle, maxTextureSize);
      textureFormatChanged := false;
      fovsChanged := false;
    }

    /** beforeDrawFrame: a frame is now drawn, and any pending field of view
      or texture format has been applied. */
    method BeforeDrawFrame(maxTextureSize: int)
      modifies this
      ensures drawingFrame && !fovsChanged && !textureFormatChanged
      ensures old(fovsChanged) || old(textureFormatChanged) || (textureWidthPx == old(textureWidthPx) && textureHeightPx == old(textureHeightPx))
      ensures viewportsChanged == old(viewportsChanged)
      ensures textureFormat == old(textureFormat) && textureType == old(textureType)
    {
      drawingFrame := true;
      if fovsChanged || textureFormatChanged {
        UpdateTextureAndDistortionMesh(maxTextureSize);
      }
    }

    /** afterDrawFrame: the texture is undistorted (rebuilding first if
      something is still pending) and drawing ends. */
    method AfterDrawFrame(maxTextureSize: int)
      modifies this
      ensures !drawingFrame && !fovsChanged && !textureFormatChanged
      ensures viewportsChanged == old(viewportsChanged)
      ensures textureFormat == old(textureFormat) && textureType == old(textureType)
    {
      if fovsChanged || textureFormatChanged {
        UpdateTextureAndDistortionMesh(maxTextureSize);
      }
      drawingFrame := false;
    }

    /** setResolutionScale: the viewports must be recomputed. */
    method SetResolutionScale(scale: real)
      modifies this
      ensures resolutionScale == scale && viewportsChanged
      ensures fovsChanged == old(fovsChanged) && textureFormatChanged == old(textureFormatChanged)
      ensures drawingFrame == old(drawingFrame)
    {
      resolutionScale := scale;
      viewportsChanged := true;
    }

    /** setVignetteEnabled: the meshes must be rebuilt. */
    method SetVignetteEnabled(enabled: bool)
      modifies this
      ensures vignetteEnabled == enabled && fovsChanged
      ensures viewportsChanged == old(viewportsChanged) && textureFormatChanged == old(textureFormatChanged)
      ensures drawingFrame == old(drawingFrame)
    {
      vignetteEnabled := enabled;
      fovsChanged := true;
    }

    method SetRestoreGLStateEnabled(enabled: bool)
      modifies this
      ensures restoreGLStateEnabled == enabled
      ensures fovsChanged == old(fovsChanged) && viewportsChanged == old(viewportsChanged)
      ensures textureFormatChanged == old(textureFormatChanged) && drawingFrame == old(drawingFrame)
    {
      restoreGLStateEnabled := enabled;
    }

    method SetChromaticAberrationEnabled(enabled: bool)
      modifies this
      ensures chromaticAberrationEnabled == enabled
      ensures fovsChanged == old(fovsChanged) && viewportsChanged == old(viewportsChanged)
      ensures textureFormatChanged == old(textureFormatChanged) && drawingFrame == old(drawingFrame)
    {
      chromaticAberrationEnabled := enabled;
    }

    /** fovDidChange: ignored while a frame is drawn; otherwise both eyes'
      viewports are rebuilt side by side, the pixel densities follow from
      the screen and the eye-to-screen distance, and both the meshes and
      the viewports must be redone. */
    method FovDidChange(s: Screen, leftFov: FieldOfView, rightFov: FieldOfView, eyeToScreenDistance: real)
      requires s.widthMeters != 0.0 && s.heightMeters != 0.0 && eyeToScreenDistance != 0.0
      modifies this
      ensures old(drawingFrame) ==>
        && leftEye == old(leftEye) && rightEye == old(rightEye)
        && fovsChanged == old(fovsChanged) && viewportsChanged == old(viewportsChanged)
        && xPxPerTanAngle == old(xPxPerTanAngle) && yPxPerTanAngle == old(yPxPerTanAngle)
      ensures !old(drawingFrame) ==>
        && leftEye == InitViewportForEye(leftFov, 0.0)
        && rightEye == InitViewportForEye(rightFov, leftEye.width)
        && rightEye.x == leftEye.x + leftEye.width
        && metersPerTanAngle == eyeToScreenDistance
        && xPxPerTanAngle == s.widthPx as real / (s.widthMeters / eyeToScreenDistance)
        && yPxPerTanAngle == s.heightPx as real / (s.heightMeters / eyeToScreenDistance)
        && fovsChanged && viewportsChanged
      ensures drawingFrame == old(drawingFrame) && textureFormatChanged == old(textureFormatChanged)
    {
      if drawingFrame {
        return;
      }
      screen := s;
      leftEye := InitViewportForEye(leftFov, 0.0);
      rightEye := InitViewportForEye(rightFov, leftEye.width);
      metersPerTanAngle := eyeToScreenDistance;
      xPxPerTanAngle := s.widthPx as real / (s.widthMeters / metersPerTanAngle);
      yPxPerTanAngle := s.heightPx as real / (s.heightMeters / metersPerTanAngle);
      fovsChanged := true;
      viewportsChanged := true;
    }

    /** updateViewports: both eyes in rounded pixels at the resolution
      scale; the viewports are then up to date. */
    method UpdateViewports() returns (left: PixelViewport, right: PixelViewport)
      modifies this
      ensures left == ToPixels(leftEye, xPxPerTanAngle, yPxPerTanAngle, resolutionScale)
      ensures right == ToPixels(rightEye, xPxPerTanAngle, yPxPerTanAngle, resolutionScale)
      ensures !viewportsChanged
      ensures fovsChanged == old(fovsChanged) && textureFormatChanged == old(textureFormatChanged)
      ensures drawingFrame == old(drawingFrame)
      ensures leftEye == old(leftEye) && rightEye == old(rightEye) && resolutionScale == old(resolutionScale)
      ensures xPxPerTanAngle == old(xPxPerTanAngle) && yPxPerTanAngle == old(yPxPerTanAngle)
    {
      left := ToPixels(leftEye, xPxPerTanAngle, yPxPerTanAngle, resolutionScale);
      right := ToPixels(rightEye, xPxPerTanAngle, yPxPerTanAngle, resolutionScale);
      viewportsChanged := false;
    }
  }

  function Min(a: int, b: int): int { if a < b then a else b }

  /** The render texture's width in pixels: both eyes side by side, capped
      at the largest texture the driver allows. */
  function TextureWidthPx(left: EyeViewport, right: EyeViewport, xPxPerTanAngle: real, maxTextureSize: int): (w: int)
    ensures w <= maxTextureSize
    ensures w == maxTextureSize || w == PixelsFor(left.width + right.width, xPxPerTanAngle)
    ensures PixelsFor(left.width + right.width, xPxPerTanAngle) <= maxTextureSize
            ==> w == PixelsFor(left.width + right.width, xPxPerTanAngle)
  {
    Min(PixelsFor(left.width + right.width, xPxPerTanAngle), maxTextureSize)
  }

  /** An extent in tangent-angle units, rounded to whole pixels. */
  function PixelsFor(extent: real, pxPerTanAngle: real): int
  {
    Round(extent * pxPerTanAngle)
  }

  /** The render texture's height in pixels: the taller eye, capped at the
      largest texture the driver allows. */
  function TextureHeightPx(left: EyeViewport, right: EyeViewport, yPxPerTanAngle: real, maxTextureSize: int): (h: int)
    ensures h <= maxTextureSize
    ensures left.height <= right.height ==> h == Min(PixelsFor(right.height, yPxPerTanAngle), maxTextureSize)
    ensures right.height <= left.height ==> h == Min(PixelsFor(left.height, yPxPerTanAngle), maxTextureSize)
  {
    Min(PixelsFor(Max(left.height, right.height), yPxPerTanAngle), maxTextureSize)
  }

  function Max(a: real, b: real): real { if a < b then b else a }

  // ---------------------------------------------------------------------
  // The distortion mesh: index strips
  // ---------------------------------------------------------------------

  const Rows := 40
  const Cols := 40
  /** Number of indices: 39 strips of 80, and a repeated joint index
      before each strip but the first. */
  const IndexCount := 3158

  /** The grid vertex at column c of strip r: even strips run left to right
      along grid row r, odd strips right to left. */
  function StripVertex(r: int, c: int): int
  {
    if r % 2 == 0 then 40 * r + c else 40 * r + (Cols - 1 - c)
  }

  /** The index at position k of the list: strip r starts at 81 r, the joint
      index sits just before it and repeats the previous strip's last
      index; within a strip each column gives the pair (v, v + 40). */
  function IndexAt(k: int): int
  {
    var r := (k + 1) / 81;
    var j := k - 81 * r;
    if j == -1 then StripVertex(r - 1, Cols - 1) + 40
    else StripVertex(r, j / 2) + 40 * (j % 2)
  }

  /** Euclidean division pinned down by bounds. */
  lemma DivBy81(x: int, q: int)
    requires 81 * q <= x < 81 * q + 81
    ensures x / 81 == q && x % 81 == x - 81 * q
  {
  }

  lemma DivBy2(x: int, q: int, b: int)
    requires 0 <= b < 2 && x == 2 * q + b
    ensures x / 2 == q && x % 2 == b
  {
  }

  /** Column c of strip r holds v at 81 r + 2 c and v + 40 right after it. */
  lemma IndexAtPair(r: int, c: int, b: int)
    requires 0 <= r < Rows - 1 && 0 <= c < Cols && 0 <= b < 2
    ensures IndexAt(81 * r + 2 * c + b) == StripVertex(r, c) + 40 * b
  {
    IndexAtPosition(81 * r + 2 * c + b, r, c, b);
  }

  lemma IndexAtPosition(k: int, r: int, c: int, b: int)
    requires 0 <= r < Rows - 1 && 0 <= c < Cols && 0 <= b < 2 && k == 81 * r + 2 * c + b
    ensures IndexAt(k) == StripVertex(r, c) + 40 * b
  {
    DivBy81(k + 1, r);
    DivBy2(2 * c + b, c, b);
  }

  /** The joint before strip r repeats the previous strip's last index. */
  lemma IndexAtJoint(r: int)
    requires 1 <= r < Rows - 1
    ensures IndexAt(81 * r - 1) == StripVertex(r - 1, Cols - 1) + 40
  {
    DivBy81(81 * r, r);
  }

  /** Every index names a vertex of the 40 x 40 grid (and fits a GLshort). */
  lemma IndicesInGrid(k: int)
    requires 0 <= k < IndexCount
    ensures 0 <= IndexAt(k) < 1600
  {
    var r := (k + 1) / 81;
    DivBy81(k + 1, r);
    var j := k - 81 * r;
    if j != -1 {
      DivBy2(j, j / 2, j % 2);
    }
  }

  /** Each strip after the first begins by repeating the index before it,
      and that index is also the strip's own first vertex, so the strips
      join without a stray triangle. */
  lemma StripJoins(r: int)
    requires 1 <= r < Rows - 1
    ensures IndexAt(81 * r - 1) == IndexAt(81 * r - 2)
    ensures IndexAt(81 * r - 1) == IndexAt(81 * r)
  {
    IndexAtJoint(r);
    IndexAtPosition(81 * r - 2, r - 1, Cols - 1, 1);
    IndexAtPosition(81 * r, r, 0, 0);
  }

  /** Strips alternate direction: consecutive columns of an even strip step
      right by one vertex, of an odd strip left by one; each strip stays on
      grid rows r and r + 1. */
  lemma StripsAlternate(r: int, c: int)
    requires 0 <= r < Rows - 1 && 0 <= c < Cols - 1
    ensures r % 2 == 0 ==> StripVertex(r, c + 1) == StripVertex(r, c) + 1
    ensures r % 2 == 1 ==> StripVertex(r, c + 1) == StripVertex(r, c) - 1
    ensures StripVertex(r, c) / Cols == r
  {
    var v := StripVertex(r, c);
    var col := if r % 2 == 0 then c else Cols - 1 - c;
    assert v == 40 * r + col && 0 <= col < Cols;
    DivBy40(v, r);
  }

  lemma DivBy40(x: int, q: int)
    requires 40 * q <= x < 40 * q + 40
    ensures x / 40 == q
  {
  }

  /** Every grid vertex of the first 39 rows starts some column pair, so
      every vertex of the grid is used. */
  lemma EveryVertexUsed(v: int)
    requires 0 <= v < 1600
    ensures exists k :: 0 <= k < IndexCount && IndexAt(k) == v
  {
    var row := v / Cols;
    var col := v % Cols;
    assert v == 40 * row + col;
    if row < Rows - 1 {
      var c := if row % 2 == 0 then col else Cols - 1 - col;
      var k := 81 * row + 2 * c;
      IndexAtPosition(k, row, c, 0);
      assert IndexAt(k) == v;
    } else {
      var c := col;
      var k := 81 * (Rows - 2) + 2 * c + 1;
      IndexAtPosition(k, Rows - 2, c, 1);
      assert IndexAt(k) == v;
    }
  }

  /** The generator's nested loops: a joint index before every strip but the
      first, then a (v, v + 40) pair per column, v moving one step each
      column in the strip's direction and jumping to the next grid row at
      the end of a strip. */
  method FillIndices(a: array<int>)
    requires a.Length == IndexCount
    modifies a
    ensures forall k :: 0 <= k < IndexCount ==> a[k] == IndexAt(k)
  {
    var indexOffset := 0;
    var vertexOffset := 0;
    var row := 0;
    while row < Rows - 1
      invariant 0 <= row <= Rows - 1
      invariant indexOffset == (if row == 0 then 0 else 81 * row - 1)
      invariant row < Rows - 1 ==> vertexOffset == StripVertex(row, 0)
      invariant IndicesUpTo(a[..], indexOffset)
    {
      if row > 0 {
        StripJoins(row);
        ghost var before := a[..];
        a[indexOffset] := a[indexOffset - 1];
        assert a[..] == before[indexOffset := before[indexOffset - 1]];
        IndicesExtend(before, indexOffset, before[indexOffset - 1]);
        indexOffset := indexOffset + 1;
      }
      vertexOffset := FillStrip(a, row, vertexOffset);
      indexOffset := indexOffset + 2 * Cols;
      vertexOffset := vertexOffset + 40;
      row := row + 1;
    }
  }

  /** The first n entries of s are the index list's. */
  ghost predicate IndicesUpTo(s: seq<int>, n: int)
  {
    0 <= n <= |s| && forall k :: 0 <= k < n ==> s[k] == IndexAt(k)
  }

  lemma IndicesExtend(s: seq<int>, n: int, x: int)
    requires IndicesUpTo(s, n) && n < |s| && x == IndexAt(n)
    ensures IndicesUpTo(s[n := x], n + 1)
  {
  }

  /** One strip: the pair (v, v + 40) for each column, v starting at the
      strip's first vertex and moving one step per column in the strip's
      direction. */
  method FillStrip(a: array<int>, row: int, first: int) returns (vertexOffset: int)
    requires a.Length == IndexCount && 0 <= row < Rows - 1 && first == StripVertex(row, 0)
    requires IndicesUpTo(a[..], 81 * row)
    modifies a
    ensures IndicesUpTo(a[..], 81 * row + 2 * Cols)
    ensures vertexOffset == StripVertex(row, Cols - 1)
    ensures row + 1 < Rows - 1 ==> vertexOffset + 40 == StripVertex(row + 1, 0)
  {
    var indexOffset := 81 * row;
    vertexOffset := first;
    var col := 0;
    while col < Cols
      invariant 0 <= col <= Cols
      invariant indexOffset == 81 * row + 2 * col
      invariant vertexOffset == StripVertex(row, if col == 0 then 0 else col - 1)
      invariant IndicesUpTo(a[..], indexOffset)
    {
      if col > 0 {
        StripsAlternate(row, col - 1);
        if row % 2 == 0 {
          vertexOffset := vertexOffset + 1;
        } else {
          vertexOffset := vertexOffset - 1;
        }
      }
      IndexAtPosition(indexOffset, row, col, 0);
      IndexAtPosition(indexOffset + 1, row, col, 1);
      ghost var before := a[..];
      a[indexOffset] := vertexOffset;
      a[indexOffset + 1] := vertexOffset + 40;
      assert a[..] == before[indexOffset := vertexOffset][indexOffset + 1 := vertexOffset + 40];
      IndicesExtend(before, indexOffset, vertexOffset);
      IndicesExtend(before[indexOffset := vertexOffset], indexOffset + 1, vertexOffset + 40);
      indexOffset := indexOffset + 2;
      col := col + 1;
    }
  }

  // ---------------------------------------------------------------------
  // The distortion mesh: vertex layout
  // ---------------------------------------------------------------------

  /** Floats per vertex: screen position (2), vignette (1), and red, green
      and blue texture coordinates (2 each). */
  const VertexStride := 9
  const VertexFloats := 14400

  /** The vignette term: 1 without a vignette; otherwise one minus the
      distance past the vignette border relative to its size, clamped. */
  function Vignette(enabled: bool, relativeDistance: real): (v: real)
    ensures 0.0 <= v <= 1.0
    ensures !enabled ==> v == 1.0
    ensures enabled && relativeDistance <= 0.0 ==> v == 1.0
    ensures enabled && relativeDistance >= 1.0 ==> v == 0.0
  {
    if enabled then 1.0 - Clamp(relativeDistance, 0.0, 1.0) else 1.0
  }

  /** The per-vertex values the floating-point distortion computes. */
  datatype VertexValues = VertexValues(screenU: real, screenV: real, relativeDistance: real,
                                       redU: real, redV: real, greenU: real, greenV: real,
                                       blueU: real, blueV: real)

  /** The nine floats of one vertex, as stored. */
  function VertexRecord(vignetteEnabled: bool, w: VertexValues): (r: seq<real>)
    ensures |r| == VertexStride && 0.0 <= r[2] <= 1.0
  {
    [2.0 * w.screenU - 1.0, 2.0 * w.screenV - 1.0, Vignette(vignetteEnabled, w.relativeDistance),
     w.redU, w.redV, w.greenU, w.greenV, w.blueU, w.blueV]
  }

  /** The vertex loop: row by row, column by column, nine floats per
      vertex, so vertex (row, col) starts at 9 (40 row + col) and every
      vignette slot holds a value in [0, 1]. */
  method FillVertices(data: array<real>, vignetteEnabled: bool, values: (int, int) -> VertexValues)
    requires data.Length == VertexFloats
    modifies data
    ensures forall row, col, j :: 0 <= row < Rows && 0 <= col < Cols && 0 <= j < VertexStride
              ==> data[9 * (40 * row + col) + j] == VertexRecord(vignetteEnabled, values(row, col))[j]
    ensures forall v :: 0 <= v < 1600 ==> 0.0 <= data[9 * v + 2] <= 1.0
  {
    var vertexOffset := 0;
    var row := 0;
    while row < Rows
      invariant 0 <= row <= Rows
      invariant vertexOffset == VertexStride * 40 * row
      invariant forall r, c, j :: 0 <= r < row && 0 <= c < Cols && 0 <= j < VertexStride
                  ==> data[9 * (40 * r + c) + j] == VertexRecord(vignetteEnabled, values(r, c))[j]
    {
      var col := 0;
      while col < Cols
        invariant 0 <= col <= Cols
        invariant vertexOffset == 9 * (40 * row + col)
        invariant forall r, c, j :: 0 <= r < row && 0 <= c < Cols && 0 <= j < VertexStride
                    ==> data[9 * (40 * r + c) + j] == VertexRecord(vignetteEnabled, values(r, c))[j]
        invariant forall c, j :: 0 <= c < col && 0 <= j < VertexStride
                    ==> data[9 * (40 * row + c) + j] == VertexRecord(vignetteEnabled, values(row, c))[j]
      {
        var record := VertexRecord(vignetteEnabled, values(row, col));
        WriteRecord(data, vertexOffset, record);
        vertexOffset := vertexOffset + VertexStride;
        col := col + 1;
      }
      row := row + 1;
    }
    forall v | 0 <= v < 1600
      ensures 0.0 <= data[9 * v + 2] <= 1.0
    {
      var row := v / Cols;
      var col := v % Cols;
      assert v == 40 * row + col;
      assert data[9 * (40 * row + col) + 2] == VertexRecord(vignetteEnabled, values(row, col))[2];
    }
  }

  /** Stores one vertex's nine floats at offset, leaving the rest alone. */
  method WriteRecord(data: array<real>, offset: int, record: seq<real>)
    requires |record| == VertexStride && 0 <= offset && offset + VertexStride <= data.Length
    modifies data
    ensures forall j :: 0 <= j < VertexStride ==> data[offset + j] == record[j]
    ensures forall i :: 0 <= i < data.Length && !(offset <= i < offset + VertexStride) ==> data[i] == old(data[i])
  {
    var j := 0;
    while j < VertexStride
      invariant 0 <= j <= VertexStride
      invariant forall i :: 0 <= i < j ==> data[offset + i] == record[i]
      invariant forall i :: 0 <= i < data.Length && !(offset <= i < offset + VertexStride) ==> data[i] == old(data[i])
    {
      data[offset + j] := record[j];
      j := j + 1;
    }
  }
}
