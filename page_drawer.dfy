/**
 * The page renderer: the operator methods of `PageDrawer` and its
 * offscreen `TransparencyGroup`. Each state-changing method is specified by
 * what it appends to the backend's calls and by the renderer's fields after
 * it, as a function of the fields before it (`Snapshot`).
 */
module PageDrawers {
  import opened Wrappers
  import opened Geometry
  import opened Regions
  import opened Canvases
  import opened Fonts
  import opened Drawing

  /** The renderer's mutable fields, together. */
  datatype DrawerFields = DrawerFields(
    graphics: Canvas?,
    clipWindingRule: int,              // -1 when no clip is pending
    linePath: Path,
    lastClip: Option<ClipRef>,         // the clip object handed to the backend last
    textClippingArea: Option<Area>,
    fontGlyph2D: map<Font, Glyph2D>,
    state: GraphicsState,
    stack: seq<GraphicsState>,         // the saved graphics states
    textMatrix: Matrix,
    textLineMatrix: Matrix,
    resources: nat,                    // the current resources
    nextClipId: nat)

  /** What an operator draws, the fields it leaves, and whether it failed. */
  datatype Outcome = Outcome(drawn: seq<Call>, fields: DrawerFields, result: Result<(), Failure>)

  /** The fields after a nested content stream ran. */
  function AfterRun(f: DrawerFields, effect: SubStreamEffect): DrawerFields
  {
    f.(lastClip := if effect.lastClip.Kept? then f.lastClip else effect.lastClip.clip,
       textMatrix := effect.textMatrix, textLineMatrix := effect.textLineMatrix,
       nextClipId := f.nextClipId + effect.clipIds)
  }

  /** The fields after a transparency group was built: its run, with the clip cache put back. */
  function AfterGroup(f: DrawerFields, effect: SubStreamEffect): (r: DrawerFields)
    ensures r.lastClip == f.lastClip && r.graphics == f.graphics && r.state == f.state && r.stack == f.stack
    ensures r.textClippingArea == f.textClippingArea && r.fontGlyph2D == f.fontGlyph2D && r.linePath == f.linePath
  {
    AfterRun(f, effect).(lastClip := f.lastClip)
  }

  /** The fields after a soft mask's group was built, if there is one. */
  function AfterMask(f: DrawerFields, mask: Option<GroupResult>): DrawerFields
  {
    if mask.Some? then AfterGroup(f, mask.value.effect) else f
  }

  /** The fields after the clip was intersected with `area`: a new clip object. */
  function Intersected(f: DrawerFields, area: Area): (r: DrawerFields)
    ensures r.state.clip.area == Intersection(f.state.clip.area, area) && r.state.clip.id == f.nextClipId
  {
    f.(state := f.state.(clip := ClipRef(f.nextClipId, Intersection(f.state.clip.area, area))), nextClipId := f.nextClipId + 1)
  }

  const UnitRect := Rect2D(0.0, 0.0, 1.0, 1.0)

  /** `strokePath` on device transform `device`. */
  function StrokeOutcome(env: Env, f: DrawerFields, device: Matrix): Outcome
  {
    var s := f.state;
    var mask := MaskGroup(env, s.softMask, s, device, f.resources, f.lastClip, f.nextClipId);
    var paint := WithSoftMask(env.toPaint(s.strokingColour), s.softMask, mask);
    if paint.Err? then Outcome([SetComposite(StrokingComposite(s))], AfterMask(f, mask), Err(paint.error))
    else Outcome(StrokeCalls(s, paint.value, StrokeOf(env, s), f.lastClip, f.linePath),
                 AfterMask(f, mask).(linePath := Reset(f.linePath), lastClip := Some(s.clip)), Ok(()))
  }

  /** `drawBufferedImage(image, at)` on device transform `device`. */
  function ImageOutcome(env: Env, f: DrawerFields, device: Matrix, image: Image, at: Matrix): Outcome
    requires Nonempty(image)
  {
    var s := f.state;
    var pre := [SetComposite(NonStrokingComposite(s))] + ClipCalls(s.clip, f.lastClip);
    var f1 := f.(lastClip := Some(s.clip));
    if s.softMask.None? then Outcome(pre + [Call.DrawImage(image, ImageTransform(at, image.width, image.height))], f1, Ok(()))
    else
      var mask := MaskGroup(env, s.softMask, s, device, f.resources, f1.lastClip, f1.nextClipId);
      var paint := WithSoftMask(Some(TexturePaint(image, TextureAnchor(at))), s.softMask, mask);
      if paint.Err? then Outcome(pre, AfterMask(f1, mask), Err(paint.error))
      else Outcome(pre + [SetPaint(paint.value), SetHint(InterpolationNearestNeighbor), Call.Fill(TransformedShape(at, RectShape(UnitRect)))],
                   AfterMask(f1, mask), Ok(()))
  }

  /** The text clip with a glyph's outline added, in a clip rendering mode. */
  function ClipAdded(f: DrawerFields, glyph: Shape): DrawerFields
    requires f.state.renderingMode.IsClip() ==> f.textClippingArea.Some?
  {
    if f.state.renderingMode.IsClip() then f.(textClippingArea := Some(Union(f.textClippingArea.value, FromShape(glyph)))) else f
  }

  /** The calls filling a glyph outline, in a fill rendering mode: no white substitution and no clip call. */
  function GlyphFillCalls(env: Env, s: GraphicsState, glyph: Shape): seq<Call>
  {
    if s.renderingMode.IsFill() then [SetComposite(NonStrokingComposite(s)), SetPaint(env.toPaint(s.nonStrokingColour)), Call.Fill(glyph)]
    else []
  }

  /** Stroking a glyph outline, in a stroke rendering mode, on device transform `device`. */
  function GlyphStrokeOutcome(env: Env, f: DrawerFields, device: Matrix, glyph: Shape): (o: Outcome)
    ensures o.fields.state == f.state && o.fields.textClippingArea == f.textClippingArea && o.fields.lastClip == f.lastClip
  {
    var s := f.state;
    if !s.renderingMode.IsStroke() then Outcome([], f, Ok(()))
    else
      var mask := MaskGroup(env, s.softMask, s, device, f.resources, f.lastClip, f.nextClipId);
      var paint := WithSoftMask(env.toPaint(s.strokingColour), s.softMask, mask);
      if paint.Err? then Outcome([SetComposite(StrokingComposite(s))], AfterMask(f, mask), Err(paint.error))
      else Outcome([SetComposite(StrokingComposite(s)), SetPaint(paint.value), SetStroke(StrokeOf(env, s)), Call.Draw(glyph)],
                   AfterMask(f, mask), Ok(()))
  }

  /** `drawGlyph2D(glyph2D, code, at)` on device transform `device`: fill, stroke, then add to the text clip. */
  function GlyphOutcome(env: Env, f: DrawerFields, device: Matrix, glyph2D: Glyph2D, code: int, at: Matrix): Outcome
    requires f.state.renderingMode.IsClip() ==> f.textClippingArea.Some?
  {
    var path := env.outline(glyph2D, code);
    if path.None? then Outcome([SetHint(AntialiasOn)], f, Ok(()))
    else
      var glyph := TransformedShape(at, PathShape(path.value));
      var stroke := GlyphStrokeOutcome(env, f, device, glyph);
      var drawn := [SetHint(AntialiasOn)] + GlyphFillCalls(env, f.state, glyph) + stroke.drawn;
      if stroke.result.Err? then Outcome(drawn, stroke.fields, stroke.result)
      else Outcome(drawn, ClipAdded(stroke.fields, glyph), Ok(()))
  }

  /** `drawType3String(font, code, at)`: the glyph's procedure runs with CTM `at`; the text matrices are put back. */
  function Type3Outcome(env: Env, f: DrawerFields, font: Font, code: int, at: Matrix): (o: Outcome)
    ensures o.fields.textMatrix == f.textMatrix && o.fields.textLineMatrix == f.textLineMatrix
    ensures o.fields.state == f.state && o.fields.stack == f.stack && o.result.Ok?
  {
    var stream := env.charStream(font, code);
    if stream.None? then Outcome([], f, Ok(()))
    else
      var effect := env.run(env.type3Resources(font), stream.value, f.state.(ctm := at), f.lastClip, f.nextClipId);
      Outcome(effect.drawn, AfterRun(f, effect).(textMatrix := f.textMatrix, textLineMatrix := f.textLineMatrix), Ok(()))
  }

  /** `showGlyph` for one glyph: Type 3 glyphs run their procedure, others are drawn from their outline. */
  function GlyphCallOutcome(env: Env, f: DrawerFields, device: Matrix, g: GlyphCall): Outcome
    requires f.state.renderingMode.IsClip() ==> f.textClippingArea.Some?
  {
    var at := GlyphTransform(g);
    if g.font.kind == Type3Kind then Type3Outcome(env, f, g.font, g.code, at)
    else VectorGlyphOutcome(env, f, device, g.font, g.code, at)
  }

  /** A glyph of a font drawn from its outline: the font's glyph source is chosen (and cached), or the glyph fails. */
  function VectorGlyphOutcome(env: Env, f: DrawerFields, device: Matrix, font: Font, code: int, at: Matrix): Outcome
    requires f.state.renderingMode.IsClip() ==> f.textClippingArea.Some?
  {
    match ChooseGlyph2D(font)
    case NoSource => Outcome([], f, Err(NoFontFor(font.baseFont)))
    case BadFontType => Outcome([], f, Err(BadFontTypeError(ClassName(font.kind))))
    case Source(glyph2D) => GlyphOutcome(env, f.(fontGlyph2D := f.fontGlyph2D[font := glyph2D]), device, glyph2D, code, at)
  }

  /** One glyph keeps the graphics state, the kept fields and the cache invariant, and adds its outline to the text clip. */
  lemma GlyphCallKeeps(env: Env, f: DrawerFields, device: Matrix, g: GlyphCall)
    requires f.state.renderingMode.IsClip() ==> f.textClippingArea.Some?
    requires CacheValid(f.fontGlyph2D)
    ensures var o := GlyphCallOutcome(env, f, device, g);
      && o.fields.state == f.state && o.fields.stack == f.stack && o.fields.graphics == f.graphics
      && o.fields.linePath == f.linePath && o.fields.clipWindingRule == f.clipWindingRule
      && CacheValid(o.fields.fontGlyph2D)
      && (o.result.Ok? && f.state.renderingMode.IsClip() ==>
            o.fields.textClippingArea == (if GlyphOutline(env, g).Some? then Some(Union(f.textClippingArea.value, FromShape(GlyphOutline(env, g).value)))
                                          else f.textClippingArea))
  {
  }

  /**
   * The glyphs of a string, one after the other, up to the first failure, on
   * device transform `device`.
   */
  function GlyphsOutcome(env: Env, f: DrawerFields, device: Matrix, glyphs: seq<GlyphCall>): (o: Outcome)
    requires f.state.renderingMode.IsClip() ==> f.textClippingArea.Some?
    requires CacheValid(f.fontGlyph2D)
    ensures o.fields.state == f.state && o.fields.stack == f.stack && o.fields.graphics == f.graphics
    ensures o.fields.linePath == f.linePath && o.fields.clipWindingRule == f.clipWindingRule
    ensures f.state.renderingMode.IsClip() ==> o.fields.textClippingArea.Some?
    ensures CacheValid(o.fields.fontGlyph2D)
    ensures o.result.Ok? && f.state.renderingMode.IsClip() && f.textClippingArea == Some(EmptyArea) ==>
              o.fields.textClippingArea == Some(TextClip(Outlines(env, glyphs)))
    decreases |glyphs|
  {
    if glyphs == [] then Outcome([], f, Ok(()))
    else
      var init, last := glyphs[..|glyphs| - 1], glyphs[|glyphs| - 1];
      var o := GlyphsOutcome(env, f, device, init);
      if o.result.Err? then o
      else
        var o2 := GlyphCallOutcome(env, o.fields, device, last);
        GlyphCallKeeps(env, o.fields, device, last);
        OutlinesStep(env, glyphs);
        Outcome(o.drawn + o2.drawn, o2.fields, o2.result)
  }

  /** Showing one more glyph after a prefix shown without failure. */
  lemma GlyphsOutcomeSnoc(env: Env, f: DrawerFields, device: Matrix, glyphs: seq<GlyphCall>, i: nat)
    requires f.state.renderingMode.IsClip() ==> f.textClippingArea.Some?
    requires CacheValid(f.fontGlyph2D)
    requires i < |glyphs| && GlyphsOutcome(env, f, device, glyphs[..i]).result.Ok?
    ensures var o := GlyphsOutcome(env, f, device, glyphs[..i]);
      var o2 := GlyphCallOutcome(env, o.fields, device, glyphs[i]);
      GlyphsOutcome(env, f, device, glyphs[..i + 1]) == Outcome(o.drawn + o2.drawn, o2.fields, o2.result)
  {
    assert glyphs[..i + 1][..i] == glyphs[..i];
  }

  lemma AppendAssociates(a: seq<Call>, b: seq<Call>, c: seq<Call>)
    ensures a + b + c == a + (b + c)
  {
  }

  /** Once a prefix of a string fails, the rest of the string changes nothing. */
  lemma {:induction false} GlyphsOutcomeStops(env: Env, f: DrawerFields, device: Matrix, glyphs: seq<GlyphCall>, j: nat)
    requires f.state.renderingMode.IsClip() ==> f.textClippingArea.Some?
    requires CacheValid(f.fontGlyph2D)
    requires j <= |glyphs| && GlyphsOutcome(env, f, device, glyphs[..j]).result.Err?
    ensures GlyphsOutcome(env, f, device, glyphs) == GlyphsOutcome(env, f, device, glyphs[..j])
    decreases |glyphs|
  {
    if j < |glyphs| {
      var init := glyphs[..|glyphs| - 1];
      assert init[..j] == glyphs[..j];
      GlyphsOutcomeStops(env, f, device, init, j);
    } else {
      assert glyphs[..j] == glyphs;
    }
  }

  /** The outlines of a string are those of all but its last glyph, then the last glyph's. */
  lemma OutlinesStep(env: Env, glyphs: seq<GlyphCall>)
    requires glyphs != []
    ensures var o := GlyphOutline(env, glyphs[|glyphs| - 1]);
      && (o.Some? ==> TextClip(Outlines(env, glyphs)) == Union(TextClip(Outlines(env, glyphs[..|glyphs| - 1])), FromShape(o.value)))
      && (o.None? ==> Outlines(env, glyphs) == Outlines(env, glyphs[..|glyphs| - 1]))
  {
    var o := GlyphOutline(env, glyphs[|glyphs| - 1]);
    var init := Outlines(env, glyphs[..|glyphs| - 1]);
    if o.Some? {
      var all := init + [o.value];
      assert Outlines(env, glyphs) == all;
      assert all[..|all| - 1] == init;
    }
  }

  /** The appearance stream an annotation is drawn with, if any: its appearance state's normal appearance, "default" without a state. */
  datatype AppearanceStream = AppearanceStream(bBox: PDRectangle, matrix: Option<Matrix>, resources: nat, stream: nat)

  datatype AppearanceDictionary = AppearanceDictionary(normal: Option<map<string, AppearanceStream>>)

  datatype Annotation = Annotation(rect: PDRectangle, appearanceState: Option<string>, appearance: Option<AppearanceDictionary>)

  datatype Page = Page(contents: Option<nat>, resources: nat, cropBox: PDRectangle, annotations: seq<Annotation>)

  function ChosenAppearance(a: Annotation): (r: Option<AppearanceStream>)
    ensures r.Some? ==> a.appearance.Some? && a.appearance.value.normal.Some?
    ensures a.appearance.Some? && a.appearance.value.normal.Some? && a.appearanceState.None? && "default" in a.appearance.value.normal.value
            ==> r == Some(a.appearance.value.normal.value["default"])
    ensures a.appearance.Some? && a.appearance.value.normal.Some? && a.appearanceState.Some?
            ==> (r.Some? <==> a.appearanceState.value in a.appearance.value.normal.value)
  {
    if a.appearance.None? || a.appearance.value.normal.None? then None
    else
      var name := if a.appearanceState.Some? then a.appearanceState.value else "default";
      var normal := a.appearance.value.normal.value;
      if name in normal then Some(normal[name]) else None
  }

  function MatrixOrIdentity(m: Option<Matrix>): Matrix { if m.Some? then m.value else Identity }

  /** The appearance bounding box, transformed, has a non-zero width and height. */
  predicate Placeable(ap: AppearanceStream)
  {
    var box := TransformedBBox(MatrixOrIdentity(ap.matrix), ap.bBox);
    box.width != 0.0 && box.height != 0.0
  }

  predicate AnnotationPlaceable(a: Annotation)
  {
    ChosenAppearance(a).Some? ==> Placeable(ChosenAppearance(a).value)
  }

  /**
   * One annotation of the page loop: without a chosen appearance nothing
   * happens; with one, its stream runs in a saved state with the placement's
   * CTM, the clip narrowed to the annotation rectangle and the canvas moved by
   * the placement's whole-pixel origin (and moved back afterwards).
   */
  function AnnotationOutcome(env: Env, f: DrawerFields, a: Annotation): (o: Outcome)
    requires AnnotationPlaceable(a)
    ensures o.fields.state == f.state && o.fields.stack == f.stack && o.fields.graphics == f.graphics && o.result.Ok?
    ensures o.fields.linePath == f.linePath && o.fields.fontGlyph2D == f.fontGlyph2D && o.fields.resources == f.resources
    ensures ChosenAppearance(a).None? ==> o == Outcome([], f, Ok(()))
  {
    match ChosenAppearance(a)
    case None => Outcome([], f, Ok(()))
    case Some(ap) =>
      var pl := AppearancePlacement(a.rect, ap.bBox, MatrixOrIdentity(ap.matrix));
      var tx, ty := Trunc(pl.origin.x), Trunc(pl.origin.y);
      var f1 := Intersected(f.(state := f.state.(ctm := pl.ctm)), FromShape(RectShape(pl.clip)));
      var effect := env.run(ap.resources, ap.stream, f1.state, None, f1.nextClipId);
      Outcome([Call.Translate(tx, ty)] + effect.drawn + [Call.Translate(-tx, -ty)], AfterRun(f1.(lastClip := None), effect).(state := f.state), Ok(()))
  }

  /**
   * The appearance stream is entered with the clip cache forgotten: what an
   * annotation with an appearance draws, and the state it leaves, do not
   * depend on the clip the renderer last set before it.
   */
  lemma AnnotationIgnoresClipCache(env: Env, f: DrawerFields, a: Annotation, lastClip: Option<ClipRef>)
    requires AnnotationPlaceable(a) && ChosenAppearance(a).Some?
    ensures AnnotationOutcome(env, f.(lastClip := lastClip), a) == AnnotationOutcome(env, f, a)
  {
  }

  /** The annotations of a page, one after the other. */
  function AnnotationsOutcome(env: Env, f: DrawerFields, annotations: seq<Annotation>): (o: Outcome)
    requires forall i :: 0 <= i < |annotations| ==> AnnotationPlaceable(annotations[i])
    ensures o.fields.state == f.state && o.fields.stack == f.stack && o.fields.graphics == f.graphics && o.result.Ok?
    ensures o.fields.linePath == f.linePath && o.fields.fontGlyph2D == f.fontGlyph2D && o.fields.resources == f.resources
    decreases |annotations|
  {
    if annotations == [] then Outcome([], f, Ok(()))
    else
      var o := AnnotationsOutcome(env, f, annotations[..|annotations| - 1]);
      var o2 := AnnotationOutcome(env, o.fields, annotations[|annotations| - 1]);
      Outcome(o.drawn + o2.drawn, o2.fields, Ok(()))
  }

  /**
   * The page's contents: a new graphics state clipped to the crop box, then,
   * when the page has contents, the contents run with the page's resources.
   */
  function ContentsOutcome(env: Env, f: DrawerFields, page: Page): (o: Outcome)
    ensures o.fields.state == InitialState(ClipRef(f.nextClipId, FromShape(RectShape(RectOf(page.cropBox)))))
    ensures o.fields.stack == [] && o.fields.graphics == f.graphics && o.result.Ok?
    ensures page.contents.None? ==> o.drawn == [] && o.fields.resources == f.resources
  {
    var f0 := f.(state := InitialState(ClipRef(f.nextClipId, FromShape(RectShape(RectOf(page.cropBox))))), stack := [],
                 nextClipId := f.nextClipId + 1);
    if page.contents.None? then Outcome([], f0, Ok(()))
    else
      var effect := env.run(page.resources, page.contents.value, f0.state, f0.lastClip, f0.nextClipId);
      Outcome(effect.drawn, AfterRun(f0.(resources := page.resources), effect), Ok(()))
  }

  /** The calls `drawPage` makes before the contents: hints, the flip to PDF's upward y axis, and the initial stroke. */
  function PageSetupCalls(pageSize: PDRectangle): seq<Call>
  {
    [SetHint(AntialiasOn), SetHint(FractionalMetricsOn), Call.Translate(0, Trunc(pageSize.ury - pageSize.lly)), Call.Scale(1.0, -1.0),
     SetStroke(InitialStroke)]
  }

  class PageDrawer {
    const env: Env
    var graphics: Canvas?
    var clipWindingRule: int
    var linePath: Path
    var lastClip: Option<ClipRef>
    var textClippingArea: Option<Area>
    var fontGlyph2D: map<Font, Glyph2D>
    var state: GraphicsState
    var stack: seq<GraphicsState>
    var textMatrix: Matrix
    var textLineMatrix: Matrix
    var resources: nat
    var nextClipId: nat

    function Snapshot(): DrawerFields
      reads this
    {
      DrawerFields(graphics, clipWindingRule, linePath, lastClip, textClippingArea, fontGlyph2D, state, stack,
                   textMatrix, textLineMatrix, resources, nextClipId)
    }

    ghost predicate Valid()
      reads this
    {
      EnvValid(env) && CacheValid(fontGlyph2D)
    }

    /** A renderer with no canvas, an empty path, no pending clip, no clip handed over and an empty glyph cache. */
    constructor (env: Env, resources: nat)
      requires EnvValid(env)
      ensures this.env == env && Valid()
      ensures graphics == null && clipWindingRule == -1 && linePath == EmptyPath && lastClip.None?
      ensures textClippingArea.None? && fontGlyph2D == map[]
    {
      this.env := env;
      graphics := null;
      clipWindingRule := -1;
      linePath := EmptyPath;
      lastClip := None;
      textClippingArea := None;
      fontGlyph2D := map[];
      state := InitialState(ClipRef(0, EmptyArea));
      stack := [];
      textMatrix := Identity;
      textLineMatrix := Identity;
      this.resources := resources;
      nextClipId := 1;
    }

    // ----- The engine's own operations the renderer relies on -----

    method SaveGraphicsState()
      modifies this
      ensures Snapshot() == old(Snapshot()).(stack := old(stack) + [old(state)])
    {
      stack := stack + [state];
    }

    method RestoreGraphicsState()
      requires stack != []
      modifies this
      ensures Snapshot() == old(Snapshot()).(state := old(stack)[|old(stack)| - 1], stack := old(stack)[..|old(stack)| - 1])
    {
      state := stack[|stack| - 1];
      stack := stack[..|stack| - 1];
    }

    /** Installs a new clip object: the current clip intersected with `area`. */
    method IntersectClippingPath(area: Area)
      modifies this
      ensures Snapshot() == Intersected(old(Snapshot()), area)
    {
      state := state.(clip := ClipRef(nextClipId, Intersection(state.clip.area, area)));
      nextClipId := nextClipId + 1;
    }

    /** Runs a nested content stream on the current canvas in the current graphics state. */
    method ProcessSubStream(res: nat, stream: nat)
      requires graphics != null
      modifies this, graphics
      ensures graphics == old(graphics)
      ensures var effect := env.run(res, stream, old(state), old(lastClip), old(nextClipId));
        && graphics.calls == old(graphics.calls) + effect.drawn && graphics.transform == old(graphics.transform)
        && Snapshot() == AfterRun(old(Snapshot()), effect)
    {
      var effect := env.run(res, stream, state, lastClip, nextClipId);
      graphics.Replay(effect.drawn);
      if effect.lastClip.Reissued? {
        lastClip := effect.lastClip.clip;
      }
      textMatrix := effect.textMatrix;
      textLineMatrix := effect.textLineMatrix;
      nextClipId := nextClipId + effect.clipIds;
    }

    // ----- The clip cache -----

    /** Hands the current clip to the backend unless it is the clip object handed over last. */
    method SetClip()
      requires graphics != null
      modifies this, graphics
      ensures graphics == old(graphics)
      ensures graphics.calls == old(graphics.calls) + ClipCalls(old(state).clip, old(lastClip))
      ensures graphics.transform == old(graphics.transform)
      ensures Snapshot() == old(Snapshot()).(lastClip := Some(old(state).clip))
    {
      if Some(state.clip) != lastClip {
        graphics.Record(Call.SetClip(Some(state.clip.area)));
        lastClip := Some(state.clip);
      }
    }

    method BeginText()
      requires graphics != null
      modifies this, graphics
      ensures graphics == old(graphics)
      ensures graphics.calls == old(graphics.calls) + ClipCalls(old(state).clip, old(lastClip))
      ensures graphics.transform == old(graphics.transform)
      ensures Snapshot() == old(Snapshot()).(lastClip := Some(old(state).clip))
    {
      SetClip();
    }

    // ----- The path builder -----

    method MoveTo(x: real, y: real)
      modifies this
      ensures Snapshot() == old(Snapshot()).(linePath := Append(old(linePath), Segment.MoveTo(Point(x, y))))
    {
      linePath := Append(linePath, Segment.MoveTo(Point(x, y)));
    }

    method LineTo(x: real, y: real)
      modifies this
      ensures Snapshot() == old(Snapshot()).(linePath := Append(old(linePath), Segment.LineTo(Point(x, y))))
    {
      linePath := Append(linePath, Segment.LineTo(Point(x, y)));
    }

    method CurveTo(x1: real, y1: real, x2: real, y2: real, x3: real, y3: real)
      modifies this
      ensures Snapshot() == old(Snapshot()).(linePath := Append(old(linePath), Segment.CurveTo(Point(x1, y1), Point(x2, y2), Point(x3, y3))))
    {
      linePath := Append(linePath, Segment.CurveTo(Point(x1, y1), Point(x2, y2), Point(x3, y3)));
    }

    method ClosePath()
      modifies this
      ensures Snapshot() == old(Snapshot()).(linePath := Append(old(linePath), Close))
    {
      linePath := Append(linePath, Close);
    }

    /** A rectangle as four explicit edges and a close: the subpath starts at p0 and has no edge back to it. */
    method AppendRectangle(p0: Point, p1: Point, p2: Point, p3: Point)
      modifies this
      ensures linePath.segments == old(linePath).segments + [Segment.MoveTo(p0), Segment.LineTo(p1), Segment.LineTo(p2), Segment.LineTo(p3), Close]
      ensures Snapshot() == old(Snapshot()).(linePath := linePath) && linePath.windingRule == old(linePath).windingRule
    {
      MoveTo(p0.x, p0.y);
      LineTo(p1.x, p1.y);
      LineTo(p2.x, p2.y);
      LineTo(p3.x, p3.y);
      ClosePath();
    }

    // ----- The deferred clip -----

    /** Only records the pending winding rule; the path and the clip stay as they are. */
    method Clip(windingRule: int)
      modifies this
      ensures Snapshot() == old(Snapshot()).(clipWindingRule := windingRule)
    {
      clipWindingRule := windingRule;
    }

    /**
     * Ends the path: a pending clip intersects the path, under the pending
     * rule, into the clip and is cleared; the path is always emptied.
     */
    method EndPath()
      modifies this
      ensures old(clipWindingRule) != -1 ==>
        Snapshot() == Intersected(old(Snapshot()), FromShape(PathShape(Path(old(linePath).segments, old(clipWindingRule)))))
                        .(linePath := Path([], old(clipWindingRule)), clipWindingRule := -1)
      ensures old(clipWindingRule) == -1 ==> Snapshot() == old(Snapshot()).(linePath := Reset(old(linePath)))
    {
      if clipWindingRule != -1 {
        linePath := linePath.(windingRule := clipWindingRule);
        IntersectClippingPath(FromShape(PathShape(linePath)));
        clipWindingRule := -1;
      }
      linePath := Reset(linePath);
    }

    // ----- Painting paths -----

    /** Fills the path under `windingRule` and empties it; a pending clip is left pending. */
    method FillPath(windingRule: int)
      requires graphics != null
      modifies this, graphics
      ensures graphics == old(graphics)
      ensures graphics.calls == old(graphics.calls) + FillCalls(env, old(state), old(lastClip), Path(old(linePath).segments, windingRule))
      ensures graphics.transform == old(graphics.transform)
      ensures Snapshot() == old(Snapshot()).(linePath := Path([], windingRule), lastClip := Some(old(state).clip))
    {
      graphics.Record(SetComposite(NonStrokingComposite(state)));
      var paint := env.toPaint(state.nonStrokingColour);
      graphics.Record(SetPaint(Some(OrWhite(paint))));
      linePath := linePath.(windingRule := windingRule);
      graphics.Record(SetHint(AntialiasOff));
      SetClip();
      graphics.Record(Call.Fill(PathShape(linePath)));
      linePath := Reset(linePath);
    }

    /** Strokes the path and empties it; a pending clip is left pending. */
    method StrokePath() returns (r: Result<(), Failure>)
      requires graphics != null && Valid()
      modifies this, graphics
      ensures graphics == old(graphics)
      ensures var o := StrokeOutcome(env, old(Snapshot()), old(graphics.transform));
        && graphics.calls == old(graphics.calls) + o.drawn && Snapshot() == o.fields && r == o.result
      ensures graphics.transform == old(graphics.transform) && Valid()
    {
      graphics.Record(SetComposite(StrokingComposite(state)));
      var paint := GetStrokingPaint();
      if paint.Err? {
        return Err(paint.error);
      }
      DrawStrokedPath(paint.value);
      AppendAssociates(old(graphics.calls), [SetComposite(StrokingComposite(old(state)))],
                       StrokePaintCalls(paint.value, StrokeOf(env, state), state.clip, old(lastClip), old(linePath)));
      r := Ok(());
    }

    /** The part of `strokePath` after the stroking paint is known. */
    method DrawStrokedPath(paint: Option<Paint>)
      requires graphics != null
      modifies this, graphics
      ensures graphics == old(graphics)
      ensures graphics.calls == old(graphics.calls) + StrokePaintCalls(paint, StrokeOf(env, old(state)), old(state).clip, old(lastClip), old(linePath))
      ensures Snapshot() == old(Snapshot()).(linePath := Reset(old(linePath)), lastClip := Some(old(state).clip))
      ensures graphics.transform == old(graphics.transform)
    {
      graphics.Record(SetPaint(Some(OrWhite(paint))));
      var stroke := GetStroke();
      graphics.Record(SetStroke(stroke));
      graphics.Record(SetHint(AntialiasOff));
      SetClip();
      graphics.Record(Call.Draw(PathShape(linePath)));
      linePath := Reset(linePath);
    }

    /** Fills, then strokes the very path that was filled, and ends with that path emptied. */
    method FillAndStrokePath(windingRule: int) returns (r: Result<(), Failure>)
      requires graphics != null && Valid()
      modifies this, graphics
      ensures graphics == old(graphics)
      ensures var o := StrokeOutcome(env, old(Snapshot()).(lastClip := Some(old(state).clip)), old(graphics.transform));
        && graphics.calls == old(graphics.calls) + FillCalls(env, old(state), old(lastClip), Path(old(linePath).segments, windingRule)) + o.drawn
        && Snapshot() == o.fields && r == o.result
      ensures r.Ok? ==> graphics.calls[|graphics.calls| - 1] == Call.Draw(PathShape(old(linePath)))
                        && linePath == Path([], old(linePath).windingRule)
      ensures graphics.transform == old(graphics.transform) && Valid()
    {
      var path := linePath;
      FillPath(windingRule);
      linePath := path;
      r := StrokePath();
    }

    // ----- The stroke and the paints -----

    /** The stroke of the current state; the dash lengths are converted in place in a copy of the dash array. */
    method GetStroke() returns (stroke: Stroke)
      ensures stroke == StrokeOf(env, state)
    {
      var w := env.transformWidth(state.ctm, state.lineWidth);
      var lineWidth := if w < 0.25 then 0.25 else w;
      var phaseStart := state.dash.phase;
      var dash: Option<seq<real>> := None;
      if state.dash.lengths.Some? {
        var lengths := state.dash.lengths.value;
        var dashArray := new real[|lengths|](i requires 0 <= i < |lengths| => lengths[i]);
        var i := 0;
        while i < dashArray.Length
          invariant 0 <= i <= dashArray.Length == |lengths|
          invariant forall k :: 0 <= k < i ==> dashArray[k] == env.transformWidth(state.ctm, lengths[k])
          invariant forall k :: i <= k < dashArray.Length ==> dashArray[k] == lengths[k]
        {
          dashArray[i] := env.transformWidth(state.ctm, dashArray[i]);
          i := i + 1;
        }
        phaseStart := Trunc(env.transformWidth(state.ctm, phaseStart as real));
        if dashArray.Length != 0 {
          dash := Some(dashArray[..]);
          assert dashArray[..] == DeviceWidths(env, state.ctm, lengths);
        }
      }
      stroke := BasicStroke(lineWidth, state.lineCap, state.lineJoin, state.miterLimit, dash, phaseStart as real);
    }

    /** The stroking paint with the soft mask applied; the canvas and the clip cache are as before. */
    method GetStrokingPaint() returns (r: Result<Option<Paint>, Failure>)
      requires graphics != null && Valid()
      modifies this
      ensures graphics == old(graphics)
      ensures var mask := MaskGroup(env, old(state).softMask, old(state), graphics.transform, old(resources), old(lastClip), old(nextClipId));
        && r == WithSoftMask(env.toPaint(old(state).strokingColour), old(state).softMask, mask)
        && Snapshot() == AfterMask(old(Snapshot()), mask)
      ensures Valid()
    {
      r := ApplySoftMaskToPaint(env.toPaint(state.strokingColour), state.softMask);
    }

    /** The non-stroking paint; no soft mask is applied. */
    method GetNonStrokingPaint() returns (p: Option<Paint>)
      ensures p == env.toPaint(state.nonStrokingColour)
    {
      p := env.toPaint(state.nonStrokingColour);
    }

    method ApplySoftMaskToPaint(parent: Option<Paint>, softMask: Option<SoftMask>) returns (r: Result<Option<Paint>, Failure>)
      requires graphics != null && Valid()
      modifies this
      ensures graphics == old(graphics)
      ensures var mask := MaskGroup(env, softMask, old(state), graphics.transform, old(resources), old(lastClip), old(nextClipId));
        && r == WithSoftMask(parent, softMask, mask) && Snapshot() == AfterMask(old(Snapshot()), mask)
      ensures Valid()
    {
      if softMask.Some? {
        var raster := CreateSoftMaskRaster(softMask.value);
        if raster.Err? {
          return Err(raster.error);
        }
        r := Ok(Some(SoftMaskPaint(parent, raster.value)));
      } else {
        r := Ok(parent);
      }
    }

    /** Builds the mask's group first, then takes its alpha or luminosity; any other subtype fails. */
    method CreateSoftMaskRaster(softMask: SoftMask) returns (r: Result<Raster, Failure>)
      requires graphics != null && Valid()
      modifies this
      ensures graphics == old(graphics)
      ensures var g := FormGroup(env, softMask.group, old(state), graphics.transform, old(resources), old(lastClip), old(nextClipId));
        && r == MaskRaster(g, softMask.subtype) && Snapshot() == AfterGroup(old(Snapshot()), g.effect)
      ensures Valid()
    {
      var group := CreateTransparencyGroup(softMask.group);
      if softMask.subtype == ALPHA {
        r := Ok(group.GetAlphaRaster());
      } else if softMask.subtype == LUMINOSITY {
        r := Ok(group.GetLuminosityRaster());
      } else {
        r := Err(InvalidSoftMaskSubtype);
      }
    }

    // ----- Shading and images -----

    /** Fills the whole clip with the shading; the backend's clip is cleared and the clip cache forgotten. */
    method ShadingFill(shadingName: nat)
      requires graphics != null
      modifies this, graphics
      ensures graphics == old(graphics)
      ensures graphics.calls == old(graphics.calls)
        + [SetComposite(NonStrokingComposite(old(state))), SetPaint(Some(env.shadingPaint(shadingName, old(state).ctm))),
           SetHint(AntialiasOff), Call.SetClip(None), Call.Fill(AreaShape(old(state).clip.area))]
      ensures graphics.transform == old(graphics.transform)
      ensures Snapshot() == old(Snapshot()).(lastClip := None)
    {
      var paint := env.shadingPaint(shadingName, state.ctm);
      graphics.Record(SetComposite(NonStrokingComposite(state)));
      graphics.Record(SetPaint(Some(paint)));
      graphics.Record(SetHint(AntialiasOff));
      graphics.Record(Call.SetClip(None));
      lastClip := None;
      graphics.Record(Call.Fill(AreaShape(state.clip.area)));
    }

    /** Draws an image XObject with the CTM; a stencil mask is first filled with the non-stroking paint. */
    method DrawImage(pdImage: PDImage) returns (r: Result<(), Failure>)
      requires graphics != null && Valid()
      modifies this, graphics
      ensures graphics == old(graphics)
      ensures var image := if pdImage.stencil then env.stencilImage(pdImage.id, env.toPaint(old(state).nonStrokingColour))
                           else env.image(pdImage.id);
        var o := ImageOutcome(env, old(Snapshot()), old(graphics.transform), image, old(state).ctm);
        && graphics.calls == old(graphics.calls) + o.drawn && Snapshot() == o.fields && r == o.result
      ensures graphics.transform == old(graphics.transform) && Valid()
    {
      var image;
      if pdImage.stencil {
        image := env.stencilImage(pdImage.id, env.toPaint(state.nonStrokingColour));
      } else {
        image := env.image(pdImage.id);
      }
      r := DrawBufferedImage(image, state.ctm);
    }

    /**
     * Without a soft mask the image is drawn with its pixel grid mapped onto
     * the unit square under `at`; with one, the unit square under `at` is
     * filled with the image as a texture, masked.
     */
    method DrawBufferedImage(image: Image, at: Matrix) returns (r: Result<(), Failure>)
      requires graphics != null && Valid() && Nonempty(image)
      modifies this, graphics
      ensures graphics == old(graphics)
      ensures var o := ImageOutcome(env, old(Snapshot()), old(graphics.transform), image, at);
        && graphics.calls == old(graphics.calls) + o.drawn && Snapshot() == o.fields && r == o.result
      ensures graphics.transform == old(graphics.transform) && Valid()
    {
      graphics.Record(SetComposite(NonStrokingComposite(state)));
      SetClip();
      if state.softMask.Some? {
        r := FillMaskedImage(image, at);
      } else {
        graphics.Record(Call.DrawImage(image, ImageTransform(at, image.width, image.height)));
        r := Ok(());
      }
    }

    /**
     * The soft-mask branch of `drawBufferedImage`: the image becomes a texture
     * over the unit square, the mask is applied to it, and the unit square is
     * filled under `at`.
     */
    method FillMaskedImage(image: Image, at: Matrix) returns (r: Result<(), Failure>)
      requires graphics != null && Valid()
      modifies this, graphics
      ensures graphics == old(graphics)
      ensures var mask := MaskGroup(env, old(state).softMask, old(state), old(graphics.transform), old(resources), old(lastClip), old(nextClipId));
        var paint := WithSoftMask(Some(TexturePaint(image, TextureAnchor(at))), old(state).softMask, mask);
        && graphics.calls == old(graphics.calls) +
             (if paint.Err? then []
              else [SetPaint(paint.value), SetHint(InterpolationNearestNeighbor), Call.Fill(TransformedShape(at, RectShape(UnitRect)))])
        && Snapshot() == AfterMask(old(Snapshot()), mask)
        && r == (if paint.Err? then Err(paint.error) else Ok(()))
      ensures graphics.transform == old(graphics.transform) && Valid()
    {
      var imageTransform := MaskedImageTransform(at);
      var texture := TexturePaint(image, Rect2D(imageTransform.e, imageTransform.f, imageTransform.a, imageTransform.d));
      var paint := ApplySoftMaskToPaint(Some(texture), state.softMask);
      if paint.Err? {
        return Err(paint.error);
      }
      graphics.Record(SetPaint(paint.value));
      graphics.Record(SetHint(InterpolationNearestNeighbor));
      graphics.Record(Call.Fill(TransformedShape(at, RectShape(UnitRect))));
      r := Ok(());
    }

    // ----- Transparency groups -----

    method ShowTransparencyGroup(form: Form) returns (r: Result<(), Failure>)
      requires graphics != null && Valid()
      modifies this, graphics
      ensures graphics == old(graphics)
      ensures var g := FormGroup(env, form, old(state), old(graphics.transform), old(resources), old(lastClip), old(nextClipId));
        var f := AfterGroup(old(Snapshot()), g.effect);
        && (g.matrix.None? ==> r.Ok? && graphics.calls == old(graphics.calls) && Snapshot() == f)
        && (g.matrix.Some? ==>
              var o := ImageOutcome(env, f.(stack := f.stack + [f.state]), old(graphics.transform), g.image, g.matrix.value);
              && graphics.calls == old(graphics.calls) + o.drawn && r == o.result
              && Snapshot() == (if r.Ok? then o.fields.(stack := old(stack)) else o.fields))
      ensures graphics.transform == old(graphics.transform) && Valid()
    {
      var group := CreateTransparencyGroup(form);
      r := group.Draw(this);
    }

    /**
     * Builds the group of a form: in a saved graphics state, with the form's
     * matrix applied to the CTM and the form's bounding box as the group's path.
     */
    method CreateTransparencyGroup(form: Form) returns (group: TransparencyGroup)
      requires graphics != null && Valid()
      modifies this
      ensures graphics == old(graphics)
      ensures fresh(group)
      ensures var g := FormGroup(env, form, old(state), graphics.transform, old(resources), old(lastClip), old(nextClipId));
        && group.Result() == g && Snapshot() == AfterGroup(old(Snapshot()), g.effect)
      ensures Valid() && group.width > 0 && group.height > 0
    {
      SaveGraphicsState();
      var res := if form.resources.Some? then form.resources.value else resources;
      if form.matrix.Some? {
        state := state.(ctm := Then(form.matrix.value, state.ctm));
      }
      var path := env.bBoxPath(form.bBox, state.ctm);
      group := new TransparencyGroup(this, Some(path), res, form.stream);
      RestoreGraphicsState();
    }

    /**
     * The end of building a group: the content runs into the buffer's canvas
     * `g` in the current state made isolated; the canvas and the clip cache are
     * put back afterwards.
     */
    method RunIsolated(g: Canvas, res: nat, content: nat)
      requires graphics != null && g != graphics
      modifies this, g
      ensures g.calls == old(g.calls) + env.run(res, content, Isolated(old(state)), old(lastClip), old(nextClipId)).drawn
      ensures Snapshot() == AfterGroup(old(Snapshot()), env.run(res, content, Isolated(old(state)), old(lastClip), old(nextClipId))).(state := Isolated(old(state)))
    {
      var original := graphics;
      var lastClipOriginal := lastClip;
      state := Isolated(state);
      graphics := g;
      ProcessSubStream(res, content);
      lastClip := lastClipOriginal;
      graphics := original;
    }

    // ----- Text -----

    /**
     * Shows a string. In a clip rendering mode the outlines are buffered in a
     * new text clip and, after the whole string, intersected into the clip
     * once.
     */
    method ShowText(glyphs: seq<GlyphCall>) returns (r: Result<(), Failure>)
      requires graphics != null && Valid()
      modifies this, graphics
      ensures graphics == old(graphics)
      ensures var mode := old(state).renderingMode;
        var f := old(Snapshot()).(textClippingArea := if mode.IsClip() then Some(EmptyArea) else old(textClippingArea));
        var o := GlyphsOutcome(env, f, old(graphics.transform), glyphs);
        && graphics.calls == old(graphics.calls) + o.drawn && r == o.result
        && Snapshot() == (if r.Ok? && mode.IsClip() then Intersected(o.fields, o.fields.textClippingArea.value).(textClippingArea := None)
                          else o.fields)
      ensures r.Ok? && old(state).renderingMode.IsClip() ==>
        state.clip.area == Intersection(old(state).clip.area, TextClip(Outlines(env, glyphs))) && textClippingArea.None?
      ensures graphics.transform == old(graphics.transform) && Valid()
    {
      var mode := state.renderingMode;
      if mode.IsClip() {
        textClippingArea := Some(EmptyArea);
      }
      r := ShowGlyphs(glyphs);
      if r.Ok? && mode.IsClip() {
        IntersectClippingPath(textClippingArea.value);
        textClippingArea := None;
      }
    }

    /** The glyphs of a string, one after the other, until one fails; what remains of the string is not shown. */
    method ShowGlyphs(glyphs: seq<GlyphCall>) returns (r: Result<(), Failure>)
      requires graphics != null && Valid()
      requires state.renderingMode.IsClip() ==> textClippingArea.Some?
      modifies this, graphics
      ensures graphics == old(graphics)
      ensures var o := GlyphsOutcome(env, old(Snapshot()), old(graphics.transform), glyphs);
        && graphics.calls == old(graphics.calls) + o.drawn && Snapshot() == o.fields && r == o.result
      ensures graphics.transform == old(graphics.transform) && Valid()
    {
      ghost var f := Snapshot();
      ghost var device := graphics.transform;
      var i := 0;
      while i < |glyphs|
        invariant 0 <= i <= |glyphs|
        invariant graphics == f.graphics && graphics.transform == device
        invariant var o := GlyphsOutcome(env, f, device, glyphs[..i]);
          o.result.Ok? && graphics.calls == old(graphics.calls) + o.drawn && Snapshot() == o.fields
        invariant Valid()
      {
        ghost var o := GlyphsOutcome(env, f, device, glyphs[..i]);
        ghost var calls := graphics.calls;
        GlyphsOutcomeSnoc(env, f, device, glyphs, i);
        var res := ShowGlyph(glyphs[i]);
        ghost var o2 := GlyphCallOutcome(env, o.fields, device, glyphs[i]);
        AppendAssociates(old(graphics.calls), o.drawn, o2.drawn);
        if res.Err? {
          GlyphsOutcomeStops(env, f, device, glyphs, i + 1);
          return Err(res.error);
        }
        i := i + 1;
      }
      assert glyphs[..|glyphs|] == glyphs;
      r := Ok(());
    }

    method ShowGlyph(g: GlyphCall) returns (r: Result<(), Failure>)
      requires graphics != null && Valid()
      requires state.renderingMode.IsClip() ==> textClippingArea.Some?
      modifies this, graphics
      ensures graphics == old(graphics)
      ensures var o := GlyphCallOutcome(env, old(Snapshot()), old(graphics.transform), g);
        && graphics.calls == old(graphics.calls) + o.drawn && Snapshot() == o.fields && r == o.result
      ensures graphics.transform == old(graphics.transform) && Valid()
    {
      var at := Then(g.font.fontMatrix, g.trm);
      if g.font.kind == Type3Kind {
        DrawType3String(g.font, g.code, at);
        r := Ok(());
      } else {
        r := ShowVectorGlyph(g.font, g.code, at);
      }
    }

    /** A glyph of a font that is not Type 3: its glyph source, then its outline. */
    method ShowVectorGlyph(font: Font, code: int, at: Matrix) returns (r: Result<(), Failure>)
      requires graphics != null && Valid()
      requires state.renderingMode.IsClip() ==> textClippingArea.Some?
      modifies this, graphics
      ensures graphics == old(graphics)
      ensures var o := VectorGlyphOutcome(env, old(Snapshot()), old(graphics.transform), font, code, at);
        && graphics.calls == old(graphics.calls) + o.drawn && Snapshot() == o.fields && r == o.result
      ensures graphics.transform == old(graphics.transform) && Valid()
    {
      ghost var f := Snapshot();
      var glyph2D := CreateGlyph2D(font);
      if glyph2D.Err? {
        return Err(glyph2D.error);
      }
      assert Snapshot() == f.(fontGlyph2D := f.fontGlyph2D[font := glyph2D.value]) by {
        if font in f.fontGlyph2D {
          assert f.fontGlyph2D[font := glyph2D.value] == f.fontGlyph2D;
        }
      }
      r := DrawGlyph2D(glyph2D.value, code, at);
    }

    /** Draws one glyph's outline: filled, stroked and added to the text clip as the rendering mode says. */
    method DrawGlyph2D(glyph2D: Glyph2D, code: int, at: Matrix) returns (r: Result<(), Failure>)
      requires graphics != null && Valid()
      requires state.renderingMode.IsClip() ==> textClippingArea.Some?
      modifies this, graphics
      ensures graphics == old(graphics)
      ensures var o := GlyphOutcome(env, old(Snapshot()), old(graphics.transform), glyph2D, code, at);
        && graphics.calls == old(graphics.calls) + o.drawn && Snapshot() == o.fields && r == o.result
      ensures graphics.transform == old(graphics.transform) && Valid()
    {
      graphics.Record(SetHint(AntialiasOn));
      var path := env.outline(glyph2D, code);
      if path.Some? {
        var glyph := TransformedShape(at, PathShape(path.value));
        FillGlyph(glyph);
        r := StrokeGlyph(glyph);
        ghost var stroked := GlyphStrokeOutcome(env, old(Snapshot()), old(graphics.transform), glyph).drawn;
        AppendAssociates(old(graphics.calls), [SetHint(AntialiasOn)], GlyphFillCalls(env, old(state), glyph));
        AppendAssociates(old(graphics.calls), [SetHint(AntialiasOn)] + GlyphFillCalls(env, old(state), glyph), stroked);
        if r.Err? {
          return;
        }
        if state.renderingMode.IsClip() {
          textClippingArea := Some(Union(textClippingArea.value, FromShape(glyph)));
        }
      }
      r := Ok(());
    }

    method FillGlyph(glyph: Shape)
      requires graphics != null
      modifies graphics
      ensures graphics.calls == old(graphics.calls) + GlyphFillCalls(env, state, glyph) && graphics.transform == old(graphics.transform)
    {
      if state.renderingMode.IsFill() {
        graphics.Record(SetComposite(NonStrokingComposite(state)));
        var paint := GetNonStrokingPaint();
        graphics.Record(SetPaint(paint));
        graphics.Record(Call.Fill(glyph));
      }
    }

    method StrokeGlyph(glyph: Shape) returns (r: Result<(), Failure>)
      requires graphics != null && Valid()
      modifies this, graphics
      ensures graphics == old(graphics)
      ensures var o := GlyphStrokeOutcome(env, old(Snapshot()), old(graphics.transform), glyph);
        && graphics.calls == old(graphics.calls) + o.drawn && Snapshot() == o.fields && r == o.result
      ensures graphics.transform == old(graphics.transform) && Valid()
    {
      if state.renderingMode.IsStroke() {
        graphics.Record(SetComposite(StrokingComposite(state)));
        var paint := GetStrokingPaint();
        if paint.Err? {
          return Err(paint.error);
        }
        graphics.Record(SetPaint(paint.value));
        var stroke := GetStroke();
        graphics.Record(SetStroke(stroke));
        graphics.Record(Call.Draw(glyph));
      }
      r := Ok(());
    }

    /** Runs a Type 3 glyph's procedure with CTM `at` in a saved state, then puts the text matrices back. */
    method DrawType3String(font: Font, code: int, at: Matrix)
      requires graphics != null
      modifies this, graphics
      ensures graphics == old(graphics)
      ensures var o := Type3Outcome(env, old(Snapshot()), font, code, at);
        graphics.calls == old(graphics.calls) + o.drawn && Snapshot() == o.fields
      ensures graphics.transform == old(graphics.transform)
    {
      var stream := env.charStream(font, code);
      if stream.Some? {
        SaveGraphicsState();
        var savedTextMatrix := textMatrix;
        var savedTextLineMatrix := textLineMatrix;
        state := state.(ctm := at);
        ProcessSubStream(env.type3Resources(font), stream.value);
        RestoreGraphicsState();
        textLineMatrix := savedTextLineMatrix;
        textMatrix := savedTextMatrix;
      }
    }

    /**
     * The glyph source of a font: the cached one, or the one chosen for its
     * kind, which is then cached. A kind with no source, and a kind not handled,
     * fail and cache nothing.
     */
    method CreateGlyph2D(font: Font) returns (r: Result<Glyph2D, Failure>)
      requires Valid()
      modifies this
      ensures font in old(fontGlyph2D) ==> r == Ok(old(fontGlyph2D)[font]) && Snapshot() == old(Snapshot())
      ensures font !in old(fontGlyph2D) ==> match ChooseGlyph2D(font)
        case Source(glyph2D) => r == Ok(glyph2D) && Snapshot() == old(Snapshot()).(fontGlyph2D := old(fontGlyph2D)[font := glyph2D])
        case NoSource => r == Err(NoFontFor(font.baseFont)) && Snapshot() == old(Snapshot())
        case BadFontType => r == Err(BadFontTypeError(ClassName(font.kind))) && Snapshot() == old(Snapshot())
      ensures r.Ok? ==> ChooseGlyph2D(font) == Source(r.value) && font in fontGlyph2D && fontGlyph2D[font] == r.value
      ensures Valid()
    {
      if font in fontGlyph2D {
        return Ok(fontGlyph2D[font]);
      }
      var choice := ChooseGlyph2D(font);
      match choice
      case BadFontType =>
        r := Err(BadFontTypeError(ClassName(font.kind)));
      case NoSource =>
        r := Err(NoFontFor(font.baseFont));
      case Source(glyph2D) =>
        fontGlyph2D := fontGlyph2D[font := glyph2D];
        r := Ok(glyph2D);
    }

    // ----- Pages and annotations -----

    /**
     * Draws a page onto `g`: the hints, the flip of the y axis, the initial
     * stroke, the contents in a new graphics state clipped to the crop box,
     * then each annotation's appearance; the canvas is released at the end.
     */
    method DrawPage(g: Canvas, pageSize: PDRectangle, page: Page)
      requires Valid()
      requires forall i :: 0 <= i < |page.annotations| ==> AnnotationPlaceable(page.annotations[i])
      modifies this, g
      ensures graphics == null && Valid()
      ensures g.transform == Then(Scaling(1.0, -1.0), Then(Translation(0.0, Trunc(pageSize.ury - pageSize.lly) as real), old(g.transform)))
      ensures var c := ContentsOutcome(env, old(Snapshot()).(graphics := g), page);
        var o := AnnotationsOutcome(env, c.fields, page.annotations);
        && g.calls == old(g.calls) + PageSetupCalls(pageSize) + c.drawn + o.drawn
        && Snapshot() == o.fields.(graphics := null)
    {
      graphics := g;
      g.Record(SetHint(AntialiasOn));
      g.Record(SetHint(FractionalMetricsOn));
      g.Translate(0, Trunc(pageSize.ury - pageSize.lly));
      g.Scale(1.0, -1.0);
      g.Record(SetStroke(InitialStroke));
      assert g.calls == old(g.calls) + PageSetupCalls(pageSize);
      DrawContents(page);
      DrawAnnotations(page.annotations);
      graphics := null;
    }

    /** `processStream` of the page's contents, or `initStream` alone for a page without contents. */
    method DrawContents(page: Page)
      requires graphics != null
      modifies this, graphics
      ensures graphics == old(graphics) && graphics.transform == old(graphics.transform)
      ensures var c := ContentsOutcome(env, old(Snapshot()), page);
        graphics.calls == old(graphics.calls) + c.drawn && Snapshot() == c.fields
    {
      InitStream(page.cropBox);
      if page.contents.Some? {
        resources := page.resources;
        ProcessSubStream(page.resources, page.contents.value);
      } else {
        assert graphics.calls == old(graphics.calls) + [];
      }
    }

    /** Draws each annotation's appearance in turn. */
    method DrawAnnotations(annotations: seq<Annotation>)
      requires graphics != null && Valid()
      requires forall i :: 0 <= i < |annotations| ==> AnnotationPlaceable(annotations[i])
      modifies this, graphics
      ensures graphics == old(graphics) && graphics.transform == old(graphics.transform) && Valid()
      ensures var o := AnnotationsOutcome(env, old(Snapshot()), annotations);
        graphics.calls == old(graphics.calls) + o.drawn && Snapshot() == o.fields
    {
      ghost var f := Snapshot();
      for i := 0 to |annotations|
        invariant graphics == f.graphics && graphics.transform == old(graphics.transform) && Valid()
        invariant var o := AnnotationsOutcome(env, f, annotations[..i]);
          graphics.calls == old(graphics.calls) + o.drawn && Snapshot() == o.fields
      {
        ghost var o := AnnotationsOutcome(env, f, annotations[..i]);
        assert annotations[..i + 1][..i] == annotations[..i];
        DrawAnnotation(annotations[i]);
        AppendAssociates(old(graphics.calls), o.drawn, AnnotationOutcome(env, o.fields, annotations[i]).drawn);
      }
      assert annotations[..|annotations|] == annotations;
    }

    /** A new graphics state clipped to the crop box, with no state saved. */
    method InitStream(cropBox: PDRectangle)
      modifies this
      ensures Snapshot() == old(Snapshot()).(state := InitialState(ClipRef(old(nextClipId), FromShape(RectShape(RectOf(cropBox))))),
                                             stack := [], nextClipId := old(nextClipId) + 1)
    {
      state := InitialState(ClipRef(nextClipId, FromShape(RectShape(RectOf(cropBox)))));
      nextClipId := nextClipId + 1;
      stack := [];
    }

    /** Draws an annotation's appearance, if it has one. */
    method DrawAnnotation(a: Annotation)
      requires graphics != null && AnnotationPlaceable(a)
      modifies this, graphics
      ensures graphics == old(graphics)
      ensures var o := AnnotationOutcome(env, old(Snapshot()), a);
        graphics.calls == old(graphics.calls) + o.drawn && Snapshot() == o.fields
      ensures graphics.transform == old(graphics.transform)
    {
      var ap := ChosenAppearance(a);
      if ap.Some? {
        DrawAppearance(a.rect, ap.value);
      }
    }

    /**
     * Draws an appearance stream into an annotation rectangle: in a saved
     * state, with the placement's CTM and the clip narrowed to the rectangle.
     */
    method DrawAppearance(rect: PDRectangle, ap: AppearanceStream)
      requires graphics != null && Placeable(ap)
      modifies this, graphics
      ensures graphics == old(graphics)
      ensures var pl := AppearancePlacement(rect, ap.bBox, MatrixOrIdentity(ap.matrix));
        var tx, ty := Trunc(pl.origin.x), Trunc(pl.origin.y);
        var f := Intersected(old(Snapshot()).(state := old(state).(ctm := pl.ctm)), FromShape(RectShape(pl.clip)));
        var effect := env.run(ap.resources, ap.stream, f.state, None, f.nextClipId);
        && graphics.calls == old(graphics.calls) + ([Call.Translate(tx, ty)] + effect.drawn + [Call.Translate(-tx, -ty)])
        && Snapshot() == AfterRun(f.(lastClip := None), effect).(state := old(state))
      ensures graphics.transform == old(graphics.transform)
    {
      SaveGraphicsState();
      var matrix := MatrixOrIdentity(ap.matrix);
      var placement := AppearancePlacement(rect, ap.bBox, matrix);
      state := state.(ctm := placement.ctm);
      IntersectClippingPath(FromShape(RectShape(placement.clip)));
      RunTranslated(Trunc(placement.origin.x), Trunc(placement.origin.y), ap.resources, ap.stream);
      RestoreGraphicsState();
    }

    /**
     * Runs a content stream with the canvas moved by whole pixels and moved
     * back afterwards; the clip cache is forgotten first.
     */
    method RunTranslated(tx: int, ty: int, res: nat, stream: nat)
      requires graphics != null
      modifies this, graphics
      ensures graphics == old(graphics)
      ensures var effect := env.run(res, stream, old(state), None, old(nextClipId));
        && graphics.calls == old(graphics.calls) + ([Call.Translate(tx, ty)] + effect.drawn + [Call.Translate(-tx, -ty)])
        && Snapshot() == AfterRun(old(Snapshot()).(lastClip := None), effect)
      ensures graphics.transform == old(graphics.transform)
    {
      graphics.Translate(tx, ty);
      lastClip := None;
      ProcessSubStream(res, stream);
      graphics.Translate(-tx, -ty);
      TranslateBackRestores(old(graphics.transform), tx, ty);
    }
  }

  /** The offscreen buffer of a transparency group and the matrix that draws it back. */
  class TransparencyGroup {
    const image: Image
    const matrix: Option<Matrix>
    const minX: int
    const minY: int
    const width: int
    const height: int

    function Result(): GroupResult
    {
      GroupResult(image, matrix, PixelRect(minX, minY, width, height), effect)
    }

    /** The nested content's effect, kept for the group's specification. */
    const effect: SubStreamEffect

    /**
     * Builds the buffer around the clip (intersected with `clippingPath`) in
     * device pixels, and runs `content` into it in an isolated state; the
     * renderer's canvas and clip cache are put back afterwards.
     */
    constructor (drawer: PageDrawer, clippingPath: Option<Path>, res: nat, content: nat)
      requires drawer.graphics != null && drawer.Valid()
      modifies drawer
      ensures drawer.graphics == old(drawer.graphics)
      ensures var g := NewGroup(drawer.env, clippingPath, res, content, old(drawer.state), old(drawer.graphics.transform),
                         old(drawer.lastClip), old(drawer.nextClipId));
        && Result() == g
        && drawer.Snapshot() == AfterGroup(old(drawer.Snapshot()), g.effect).(state := Isolated(old(drawer.state)))
      ensures drawer.Valid() && width > 0 && height > 0
    {
      var original := drawer.graphics;
      var s, lastClip, nextClipId := drawer.state, drawer.lastClip, drawer.nextClipId;
      var groupClip := GroupClip(drawer.state.clip.area, clippingPath);
      var at := original.transform;
      var bounds := drawer.env.bounds2D(TransformedShape(at, AreaShape(groupClip)));
      var rect := GroupPixelRect(bounds);
      assert WellFormed(bounds);
      GroupPixelRectCovers(bounds);
      minX := rect.minX;
      minY := rect.minY;
      width := rect.width;
      height := rect.height;
      var g := GroupCanvas(at, rect, groupClip);
      var deviceTransform := g.transform;
      if Determinant(deviceTransform) == 0.0 {
        matrix := None;
      } else {
        matrix := Some(Then(Translation(0.0, -1.0), Then(Scaling(rect.width as real, -(rect.height as real)), Inverse(deviceTransform))));
      }
      drawer.RunIsolated(g, res, content);
      var run := drawer.env.run(res, content, Isolated(s), lastClip, nextClipId);
      effect := run;
      image := Image(rect.width, rect.height, Drawn(g.calls));
      g.Record(Dispose);
    }

    /** The buffer's graphics context: moved to the buffer, given the page's device transform and clipped to the group clip. */
    static method GroupCanvas(at: Matrix, rect: PixelRect, groupClip: Area) returns (g: Canvas)
      ensures fresh(g)
      ensures g.calls == [Call.Translate(-rect.minX, -rect.minY), Call.Transform(at), Call.SetClip(Some(groupClip))]
      ensures g.transform == GroupDeviceTransform(at, rect)
    {
      g := new Canvas();
      g.Translate(-rect.minX, -rect.minY);
      g.Transform(at);
      g.Record(Call.SetClip(Some(groupClip)));
    }

    /** Draws the buffer back with the group matrix, in a saved state; a group without one draws nothing. */
    method Draw(drawer: PageDrawer) returns (r: Result<(), Failure>)
      requires drawer.graphics != null && drawer.Valid() && width > 0 && height > 0 && image.width == width && image.height == height
      modifies drawer, drawer.graphics
      ensures drawer.graphics == old(drawer.graphics)
      ensures matrix.None? ==> r.Ok? && drawer.graphics.calls == old(drawer.graphics.calls) && drawer.Snapshot() == old(drawer.Snapshot())
      ensures matrix.Some? ==>
        var o := ImageOutcome(drawer.env, old(drawer.Snapshot()).(stack := old(drawer.stack) + [old(drawer.state)]),
                              old(drawer.graphics.transform), image, matrix.value);
        && drawer.graphics.calls == old(drawer.graphics.calls) + o.drawn && r == o.result
        && drawer.Snapshot() == (if r.Ok? then o.fields.(stack := old(drawer.stack)) else o.fields)
      ensures drawer.graphics.transform == old(drawer.graphics.transform) && drawer.Valid()
    {
      if matrix.Some? {
        drawer.SaveGraphicsState();
        r := drawer.DrawBufferedImage(image, matrix.value);
        if r.Err? {
          return;
        }
        drawer.RestoreGraphicsState();
      } else {
        r := Ok(());
      }
    }

    /** The alpha of the buffer, placed at the buffer's origin. */
    function GetAlphaRaster(): Raster
    {
      AlphaRaster(image, minX, minY)
    }

    /** The buffer in grey, placed at the buffer's origin. */
    function GetLuminosityRaster(): Raster
    {
      LuminosityRaster(image, minX, minY)
    }
  }
}
