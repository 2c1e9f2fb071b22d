/**
 * The values the page renderer works with besides the backend: the graphics
 * state, the clip objects, the collaborators it calls out to (bundled in an
 * `Env`), and the pure rules the renderer's operators follow (which paint,
 * which calls, which offscreen group).
 */
module Drawing {
  import opened Wrappers
  import opened Geometry
  import opened Regions
  import opened Canvases
  import opened Fonts

  /** The text rendering modes of section 9.3.6 of ISO 32000-1 (Table 106), in order 0 to 7. */
  datatype RenderingMode = FillMode | StrokeMode | FillStrokeMode | NeitherMode
                         | FillClipMode | StrokeClipMode | FillStrokeClipMode | ClipMode
  {
    predicate IsFill() { this == FillMode || this == FillStrokeMode || this == FillClipMode || this == FillStrokeClipMode }
    predicate IsStroke() { this == StrokeMode || this == FillStrokeMode || this == StrokeClipMode || this == FillStrokeClipMode }
    predicate IsClip() { this == FillClipMode || this == StrokeClipMode || this == FillStrokeClipMode || this == ClipMode }
  }

  /**
   * A clipping-path object of the graphics state. The renderer compares these
   * by identity; `id` stands for that identity, and every new clip object the
   * renderer installs gets an id not used before.
   */
  datatype ClipRef = ClipRef(id: nat, area: Area)

  /** A line dash pattern; `lengths` is `None` when the pattern has no dash array. */
  datatype DashPattern = DashPattern(lengths: Option<seq<real>>, phase: int)

  /** A form XObject: its own resources if any, its optional matrix, its bounding box and its content. */
  datatype Form = Form(resources: Option<nat>, matrix: Option<Matrix>, bBox: PDRectangle, stream: nat)

  /** `/S` values of a soft-mask dictionary. */
  const ALPHA := "Alpha"
  const LUMINOSITY := "Luminosity"

  datatype SoftMask = SoftMask(group: Form, subtype: string)

  /** The parts of the graphics state the renderer reads or writes. */
  datatype GraphicsState = GraphicsState(
    ctm: Matrix,
    clip: ClipRef,
    renderingMode: RenderingMode,
    blendMode: BlendMode,
    strokeAlpha: real,
    nonStrokeAlpha: real,
    softMask: Option<SoftMask>,
    lineWidth: real,
    dash: DashPattern,
    lineCap: int,
    lineJoin: int,
    miterLimit: real,
    strokingColour: nat,       // the stroking colour space and colour
    nonStrokingColour: nat)    // the non-stroking colour space and colour

  /**
   * The graphics state a page starts with (section 8.4.1 of ISO 32000-1,
   * Table 52): identity CTM, line width 1, butt caps, miter joins, miter limit
   * 10, solid dash, fill mode, normal blending, opaque, no soft mask.
   */
  function InitialState(clip: ClipRef): (s: GraphicsState)
    ensures s.clip == clip && s.softMask.None? && s.renderingMode == FillMode
  {
    GraphicsState(Identity, clip, FillMode, Normal, 1.0, 1.0, None, 1.0, DashPattern(Some([]), 0), 0, 0, 10.0, 0, 0)
  }

  /** How a nested content stream left the renderer's clip cache. */
  datatype LastClipEffect = Kept | Reissued(clip: Option<ClipRef>)

  /**
   * What running a nested content stream does: the calls it draws, how it
   * leaves the clip cache and the text matrices, and how many new clip objects
   * it creates.
   */
  datatype SubStreamEffect = SubStreamEffect(
    drawn: seq<Call>, lastClip: LastClipEffect, textMatrix: Matrix, textLineMatrix: Matrix, clipIds: nat)

  /** A PDF image XObject; a stencil mask is filled with the current paint. */
  datatype PDImage = PDImage(id: nat, stencil: bool)

  /** The collaborators the renderer calls out to. */
  datatype Env = Env(
    outline: (Glyph2D, int) -> Option<Path>,          // `getPathForCharacterCode`
    charStream: (Font, int) -> Option<nat>,            // a Type 3 font's glyph procedure
    type3Resources: Font -> nat,
    run: (nat, nat, GraphicsState, Option<ClipRef>, nat) -> SubStreamEffect, // `processSubStream(resources, stream)`, entered
                                                       // with a graphics state, the clip cache and the next clip id
    toPaint: nat -> Option<Paint>,                     // a colour's paint; may be null
    shadingPaint: (nat, Matrix) -> Paint,              // a named shading's paint under a CTM
    transformWidth: (Matrix, real) -> real,            // a width in user space, in device space
    bounds2D: Shape -> Bounds,                         // `getBounds2D`
    bBoxPath: (PDRectangle, Matrix) -> Path,           // `transformedPDRectanglePath`
    stencilImage: (nat, Option<Paint>) -> Image,        // `getStencilImage`
    image: nat -> Image)                               // `getImage`

  /** What the collaborators guarantee: shape bounds are well-formed and images are nonempty. */
  ghost predicate EnvValid(env: Env)
  {
    && (forall s :: WellFormed(env.bounds2D(s)))
    && (forall id, p :: Nonempty(env.stencilImage(id, p)))
    && (forall id :: Nonempty(env.image(id)))
  }

  predicate WellFormed(b: Bounds) { b.minX <= b.maxX && b.minY <= b.maxY }

  predicate Nonempty(image: Image) { image.width > 0 && image.height > 0 }

  /** The failures the renderer raises. */
  datatype Failure =
    | NoFontFor(baseFont: string)            // UnsupportedOperationException
    | BadFontTypeError(className: string)    // IllegalStateException
    | InvalidSoftMaskSubtype                 // IOException

  /** The simple class name reported for a font kind the renderer does not handle. */
  function ClassName(kind: FontKind): string
  {
    match kind
    case TrueTypeKind => "PDTrueTypeFont"
    case Type1Kind => "PDType1Font"
    case Type1CKind(_) => "PDType1CFont"
    case Type0Kind(_) => "PDType0Font"
    case Type3Kind => "PDType3Font"
    case OtherKind(name) => name
  }

  // ----- Paint, composites and the clip cache -----

  function NonStrokingComposite(s: GraphicsState): Composite { Composite(s.blendMode, s.nonStrokeAlpha) }

  function StrokingComposite(s: GraphicsState): Composite { Composite(s.blendMode, s.strokeAlpha) }

  /** The paint of a path operator: a colour with no paint is painted white. */
  function OrWhite(p: Option<Paint>): (r: Paint)
    ensures p.Some? ==> r == p.value
    ensures p.None? ==> r == White
  {
    if p.Some? then p.value else White
  }

  /**
   * The calls `setClip` makes: the clip is handed to the backend exactly when
   * it is not the clip object handed over last.
   */
  function ClipCalls(clip: ClipRef, lastClip: Option<ClipRef>): (calls: seq<Call>)
    ensures calls == [] <==> lastClip == Some(clip)
    ensures calls != [] ==> calls == [SetClip(Some(clip.area))]
  {
    if Some(clip) != lastClip then [SetClip(Some(clip.area))] else []
  }

  /** Once a clip has been handed over, handing over the same clip again makes no call. */
  lemma ClipCallsIdempotent(clip: ClipRef, lastClip: Option<ClipRef>)
    ensures ClipCalls(clip, Some(clip)) == []
    ensures lastClip.None? ==> ClipCalls(clip, lastClip) == [SetClip(Some(clip.area))]
  {
  }

  /** The calls of `fillPath`, after the clip calls are known. */
  function FillCalls(env: Env, s: GraphicsState, lastClip: Option<ClipRef>, path: Path): seq<Call>
  {
    [SetComposite(NonStrokingComposite(s)), SetPaint(Some(OrWhite(env.toPaint(s.nonStrokingColour)))), SetHint(AntialiasOff)]
      + ClipCalls(s.clip, lastClip) + [Fill(PathShape(path))]
  }

  /** The calls of `strokePath` for a given stroking paint and stroke. */
  function StrokeCalls(s: GraphicsState, paint: Option<Paint>, stroke: Stroke, lastClip: Option<ClipRef>, path: Path): seq<Call>
  {
    [SetComposite(StrokingComposite(s))] + StrokePaintCalls(paint, stroke, s.clip, lastClip, path)
  }

  /** The calls of `strokePath` once the stroking composite is set. */
  function StrokePaintCalls(paint: Option<Paint>, stroke: Stroke, clip: ClipRef, lastClip: Option<ClipRef>, path: Path): seq<Call>
  {
    [SetPaint(Some(OrWhite(paint))), SetStroke(stroke), SetHint(AntialiasOff)] + ClipCalls(clip, lastClip) + [Draw(PathShape(path))]
  }

  function Max(u: real, v: real): real { if u >= v then u else v }

  // ----- Image placement -----

  /**
   * The transform `drawBufferedImage` draws an image with: the image's pixel
   * grid is scaled to the unit square, flipped, and placed by `at`.
   */
  function ImageTransform(at: Matrix, width: int, height: int): Matrix
    requires width > 0 && height > 0
  {
    Then(Translation(0.0, -(height as real)), Then(Scaling(1.0 / width as real, -1.0 / height as real), at))
  }

  /** The transform under a soft mask: the unit square flipped vertically, then `at`. */
  function MaskedImageTransform(at: Matrix): Matrix
  {
    Then(Translation(0.0, -1.0), Then(Scaling(1.0, -1.0), at))
  }

  /** The `TexturePaint` anchor under a soft mask: the translation and the scale factors of the flipped transform. */
  function TextureAnchor(at: Matrix): Rect2D
  {
    var t := MaskedImageTransform(at);
    Rect2D(t.e, t.f, t.a, t.d)
  }

  /** A pixel (px, py) of a w x h image lands where `at` puts (px / w, 1 - py / h). */
  lemma ImageTransformPlacesPixels(at: Matrix, width: int, height: int, px: real, py: real)
    requires width > 0 && height > 0
    ensures Apply(ImageTransform(at, width, height), Point(px, py))
         == Apply(at, Point(px / width as real, 1.0 - py / height as real))
  {
    var w, h := width as real, height as real;
    var t, s := Translation(0.0, -h), Scaling(1.0 / w, -1.0 / h);
    ThenApplies(t, Then(s, at), Point(px, py));
    ThenApplies(s, at, Apply(t, Point(px, py)));
    ScaledPixel(w, h, px, py);
  }

  lemma ScaledPixel(w: real, h: real, px: real, py: real)
    requires w > 0.0 && h > 0.0
    ensures Apply(Scaling(1.0 / w, -1.0 / h), Apply(Translation(0.0, -h), Point(px, py))) == Point(px / w, 1.0 - py / h)
  {
    var q := Apply(Translation(0.0, -h), Point(px, py));
    assert q == Point(px, py - h);
    ZeroTimes(0.0, q.y);
    ZeroTimes(0.0, q.x);
    assert (1.0 / w) * px == px / w;
    assert (-1.0 / h) * (py - h) == 1.0 - py / h;
  }

  /** Under a soft mask, a point (u, v) of the unit square lands where `at` puts (u, 1 - v). */
  lemma MaskedImageTransformFlips(at: Matrix, u: real, v: real)
    ensures Apply(MaskedImageTransform(at), Point(u, v)) == Apply(at, Point(u, 1.0 - v))
  {
    var t, s := Translation(0.0, -1.0), Scaling(1.0, -1.0);
    ThenApplies(t, Then(s, at), Point(u, v));
    ThenApplies(s, at, Apply(t, Point(u, v)));
  }

  // ----- Transparency groups -----

  /** The CTM a form is drawn with: its matrix, if any, followed by the current CTM. */
  function FormCtm(form: Form, ctm: Matrix): Matrix
  {
    if form.matrix.Some? then Then(form.matrix.value, ctm) else ctm
  }

  /** A form's own resources, or the current ones when it has none. */
  function FormResources(form: Form, current: nat): nat
  {
    if form.resources.Some? then form.resources.value else current
  }

  /** The group's clip: the current clip, intersected with the group's path when there is one. */
  function GroupClip(clip: Area, clippingPath: Option<Path>): (a: Area)
    ensures clippingPath.None? ==> a == clip
    ensures clippingPath.Some? ==> a == Intersection(clip, FromShape(PathShape(clippingPath.value)))
  {
    if clippingPath.Some? then Intersection(clip, FromShape(PathShape(clippingPath.value))) else clip
  }

  /** The graphics state a group's content runs in: normal blending, opaque, no soft mask. */
  function Isolated(s: GraphicsState): (r: GraphicsState)
    ensures r.blendMode == Normal && r.strokeAlpha == 1.0 && r.nonStrokeAlpha == 1.0 && r.softMask.None?
    ensures r.(blendMode := s.blendMode, strokeAlpha := s.strokeAlpha, nonStrokeAlpha := s.nonStrokeAlpha, softMask := s.softMask) == s
  {
    s.(blendMode := Normal, strokeAlpha := 1.0, nonStrokeAlpha := 1.0, softMask := None)
  }

  /** The group buffer's device transform: the page's device transform, then moved to the buffer's origin. */
  function GroupDeviceTransform(at: Matrix, r: PixelRect): Matrix
  {
    Then(at, Translation(-r.minX as real, -r.minY as real))
  }

  /**
   * The matrix the group is drawn back with: the unit square flipped and
   * scaled to the buffer, then the inverse of the buffer's device transform;
   * none when that transform is not invertible.
   */
  function GroupMatrix(at: Matrix, r: PixelRect): Option<Matrix>
  {
    var dt := GroupDeviceTransform(at, r);
    if Determinant(dt) == 0.0 then None
    else Some(Then(Translation(0.0, -1.0), Then(Scaling(r.width as real, -(r.height as real)), Inverse(dt))))
  }

  /** What building a transparency group gives. */
  datatype GroupResult = GroupResult(image: Image, matrix: Option<Matrix>, rect: PixelRect, effect: SubStreamEffect)

  /**
   * A transparency group built under the page's device transform `at`, in
   * graphics state `s`: its buffer covers the group clip in device pixels, the
   * buffer's canvas is moved to the buffer, given `at` and the group clip, and
   * then receives what the content draws in the isolated state.
   */
  function NewGroup(env: Env, clippingPath: Option<Path>, resources: nat, content: nat, s: GraphicsState, at: Matrix,
                    lastClip: Option<ClipRef>, nextClipId: nat): (g: GroupResult)
    ensures g.effect == env.run(resources, content, Isolated(s), lastClip, nextClipId)
    ensures g.image.width == g.rect.width && g.image.height == g.rect.height
  {
    var groupClip := GroupClip(s.clip.area, clippingPath);
    var r := GroupPixelRect(env.bounds2D(TransformedShape(at, AreaShape(groupClip))));
    var effect := env.run(resources, content, Isolated(s), lastClip, nextClipId);
    var calls := [Call.Translate(-r.minX, -r.minY), Call.Transform(at), SetClip(Some(groupClip))] + effect.drawn;
    GroupResult(Image(r.width, r.height, Drawn(calls)), GroupMatrix(at, r), r, effect)
  }

  /** The group of a form XObject: its CTM, resources and bounding-box path. */
  function FormGroup(env: Env, form: Form, s: GraphicsState, at: Matrix, resources: nat,
                     lastClip: Option<ClipRef>, nextClipId: nat): GroupResult
  {
    var ctm := FormCtm(form, s.ctm);
    NewGroup(env, Some(env.bBoxPath(form.bBox, ctm)), FormResources(form, resources), form.stream, s.(ctm := ctm), at, lastClip, nextClipId)
  }

  /**
   * A group's buffer is at least one pixel each way and covers the bounds of
   * its clip in device space, and the group clip never reaches outside the
   * current clip.
   */
  lemma GroupBufferCoversClip(env: Env, clippingPath: Option<Path>, resources: nat, content: nat, s: GraphicsState, at: Matrix,
                              lastClip: Option<ClipRef>, nextClipId: nat, inside: Shape -> iset<Point>)
    requires EnvValid(env)
    ensures var g := NewGroup(env, clippingPath, resources, content, s, at, lastClip, nextClipId);
      var b := env.bounds2D(TransformedShape(at, AreaShape(GroupClip(s.clip.area, clippingPath))));
      && g.rect.width >= 1 && g.rect.height >= 1
      && g.rect.minX as real <= b.minX && b.maxX < (g.rect.minX + g.rect.width) as real
      && g.rect.minY as real <= b.minY && b.maxY < (g.rect.minY + g.rect.height) as real
      && Covered(GroupClip(s.clip.area, clippingPath), inside) <= Covered(s.clip.area, inside)
  {
    var b := env.bounds2D(TransformedShape(at, AreaShape(GroupClip(s.clip.area, clippingPath))));
    assert WellFormed(b);
    GroupPixelRectCovers(b);
    if clippingPath.Some? {
      IntersectionNarrows(s.clip.area, FromShape(PathShape(clippingPath.value)), inside);
    }
  }

  /** The raster a soft mask takes from its group: alpha or luminosity, translated to the buffer's origin. */
  function MaskRaster(g: GroupResult, subtype: string): (r: Result<Raster, Failure>)
    ensures r.Err? <==> subtype != ALPHA && subtype != LUMINOSITY
    ensures subtype == ALPHA ==> r == Ok(AlphaRaster(g.image, g.rect.minX, g.rect.minY))
    ensures subtype == LUMINOSITY ==> r == Ok(LuminosityRaster(g.image, g.rect.minX, g.rect.minY))
  {
    if subtype == ALPHA then Ok(AlphaRaster(g.image, g.rect.minX, g.rect.minY))
    else if subtype == LUMINOSITY then Ok(LuminosityRaster(g.image, g.rect.minX, g.rect.minY))
    else Err(InvalidSoftMaskSubtype)
  }

  /** The group a soft mask is built from, in graphics state `s`, when there is a soft mask. */
  function MaskGroup(env: Env, softMask: Option<SoftMask>, s: GraphicsState, at: Matrix, resources: nat,
                     lastClip: Option<ClipRef>, nextClipId: nat): (g: Option<GroupResult>)
    ensures g.Some? <==> softMask.Some?
  {
    if softMask.Some? then Some(FormGroup(env, softMask.value.group, s, at, resources, lastClip, nextClipId)) else None
  }

  /** A paint with a soft mask applied: wrapped with the mask's raster, or left as it is without a mask. */
  function WithSoftMask(parent: Option<Paint>, softMask: Option<SoftMask>, mask: Option<GroupResult>): (r: Result<Option<Paint>, Failure>)
    requires softMask.Some? <==> mask.Some?
    ensures softMask.None? ==> r == Ok(parent)
    ensures softMask.Some? ==> (r.Ok? <==> MaskRaster(mask.value, softMask.value.subtype).Ok?)
    ensures r.Ok? && softMask.Some? ==> r.value == Some(SoftMaskPaint(parent, MaskRaster(mask.value, softMask.value.subtype).value))
  {
    if softMask.None? then Ok(parent)
    else
      match MaskRaster(mask.value, softMask.value.subtype)
      case Ok(raster) => Ok(Some(SoftMaskPaint(parent, raster)))
      case Err(e) => Err(e)
  }

  // ----- The stroke -----

  /**
   * The stroke of the current state: the line width in device space, never
   * thinner than 0.25; the dash lengths in device space, with an empty dash
   * array meaning a solid line; the phase in device space, truncated, when
   * there is a dash array.
   */
  function StrokeOf(env: Env, s: GraphicsState): (stroke: Stroke)
    ensures stroke.width == Max(env.transformWidth(s.ctm, s.lineWidth), 0.25)
    ensures stroke.cap == s.lineCap && stroke.join == s.lineJoin && stroke.miterLimit == s.miterLimit
    ensures stroke.dash.None? <==> s.dash.lengths.None? || s.dash.lengths.value == []
    ensures stroke.dash.Some? ==>
      && |stroke.dash.value| == |s.dash.lengths.value|
      && forall i :: 0 <= i < |stroke.dash.value| ==> stroke.dash.value[i] == env.transformWidth(s.ctm, s.dash.lengths.value[i])
    ensures s.dash.lengths.None? ==> stroke.phase == s.dash.phase as real
    ensures s.dash.lengths.Some? ==> stroke.phase == Trunc(env.transformWidth(s.ctm, s.dash.phase as real)) as real
  {
    var w := env.transformWidth(s.ctm, s.lineWidth);
    var width := if w < 0.25 then 0.25 else w;
    var dash := if s.dash.lengths.None? || s.dash.lengths.value == [] then None
                else Some(DeviceWidths(env, s.ctm, s.dash.lengths.value));
    var phase := if s.dash.lengths.Some? then Trunc(env.transformWidth(s.ctm, s.dash.phase as real)) else s.dash.phase;
    BasicStroke(width, s.lineCap, s.lineJoin, s.miterLimit, dash, phase as real)
  }

  /** Widths in user space, each in device space. */
  function DeviceWidths(env: Env, ctm: Matrix, widths: seq<real>): (r: seq<real>)
    ensures |r| == |widths| && forall i :: 0 <= i < |widths| ==> r[i] == env.transformWidth(ctm, widths[i])
  {
    seq(|widths|, i requires 0 <= i < |widths| => env.transformWidth(ctm, widths[i]))
  }

  /** A font-to-glyph-source cache holds, for every font in it, the source chosen for that font. */
  predicate CacheValid(cache: map<Font, Glyph2D>)
  {
    forall f :: f in cache ==> ChooseGlyph2D(f) == Source(cache[f])
  }

  // ----- Glyphs -----

  /** One glyph the text engine hands over: its text rendering matrix, its font and its code. */
  datatype GlyphCall = GlyphCall(trm: Matrix, font: Font, code: int)

  /** The glyph transform: the font matrix, then the text rendering matrix. */
  function GlyphTransform(g: GlyphCall): Matrix { Then(g.font.fontMatrix, g.trm) }

  /**
   * The outline a glyph adds to the text clip: none for a Type 3 glyph, a font
   * without a glyph source or a code without an outline; otherwise the
   * outline under the glyph transform.
   */
  function GlyphOutline(env: Env, g: GlyphCall): (o: Option<Shape>)
    ensures o.Some? ==> g.font.kind != Type3Kind && ChooseGlyph2D(g.font).Source?
  {
    if g.font.kind == Type3Kind || !ChooseGlyph2D(g.font).Source? then None
    else
      var path := env.outline(ChooseGlyph2D(g.font).glyph2D, g.code);
      if path.None? then None else Some(TransformedShape(GlyphTransform(g), PathShape(path.value)))
  }

  /** The outlines a string adds to the text clip, in order. */
  function Outlines(env: Env, glyphs: seq<GlyphCall>): seq<Shape>
  {
    if glyphs == [] then []
    else
      var o := GlyphOutline(env, glyphs[|glyphs| - 1]);
      Outlines(env, glyphs[..|glyphs| - 1]) + (if o.Some? then [o.value] else [])
  }

  /** Every outline in the text clip comes from a glyph of the string, and every glyph with an outline contributes it. */
  lemma {:induction false} OutlinesAreTheGlyphs(env: Env, glyphs: seq<GlyphCall>, sh: Shape)
    ensures sh in Outlines(env, glyphs) <==> exists i :: 0 <= i < |glyphs| && GlyphOutline(env, glyphs[i]) == Some(sh)
  {
    if glyphs != [] {
      var init, last := glyphs[..|glyphs| - 1], glyphs[|glyphs| - 1];
      OutlinesAreTheGlyphs(env, init, sh);
      if sh in Outlines(env, init) {
        var i :| 0 <= i < |init| && GlyphOutline(env, init[i]) == Some(sh);
        assert glyphs[i] == init[i];
      } else if GlyphOutline(env, last) == Some(sh) {
        assert glyphs[|glyphs| - 1] == last;
      }
      if exists i :: 0 <= i < |glyphs| && GlyphOutline(env, glyphs[i]) == Some(sh) {
        var i :| 0 <= i < |glyphs| && GlyphOutline(env, glyphs[i]) == Some(sh);
        if i < |init| {
          assert init[i] == glyphs[i];
        }
      }
    }
  }

  /**
   * The clip a string leaves in a clip rendering mode lets a point through
   * exactly when the clip before did and some glyph of the string has an
   * outline covering it.
   */
  lemma TextClipNarrowsToGlyphs(env: Env, clip: Area, glyphs: seq<GlyphCall>, inside: Shape -> iset<Point>, p: Point)
    ensures p in Covered(Intersection(clip, TextClip(Outlines(env, glyphs))), inside)
        <==> p in Covered(clip, inside)
             && exists i :: 0 <= i < |glyphs| && GlyphOutline(env, glyphs[i]).Some? && p in inside(GlyphOutline(env, glyphs[i]).value)
  {
    var os := Outlines(env, glyphs);
    TextClipCoversGlyphs(os, inside, p);
    if exists j :: 0 <= j < |os| && p in inside(os[j]) {
      var j :| 0 <= j < |os| && p in inside(os[j]);
      OutlinesAreTheGlyphs(env, glyphs, os[j]);
    }
    if exists i :: 0 <= i < |glyphs| && GlyphOutline(env, glyphs[i]).Some? && p in inside(GlyphOutline(env, glyphs[i]).value) {
      var i :| 0 <= i < |glyphs| && GlyphOutline(env, glyphs[i]).Some? && p in inside(GlyphOutline(env, glyphs[i]).value);
      var sh := GlyphOutline(env, glyphs[i]).value;
      OutlinesAreTheGlyphs(env, glyphs, sh);
      var j :| 0 <= j < |os| && os[j] == sh;
    }
  }
}
