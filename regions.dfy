/**
 * Paths, shapes and clip areas as the page renderer builds them: a path is the
 * list of path operators appended to it with its winding rule, a shape is what
 * is handed to the drawing backend, and an area is built from shapes by
 * intersection and union (AWT's `Area`). What a shape covers is foreign
 * (AWT's filling rules); given that, the points an area covers follow from how
 * the area was built.
 */
module Regions {
  import opened Geometry

  /** One path operator, as `GeneralPath` receives it. */
  datatype Segment =
    | MoveTo(p: Point)
    | LineTo(p: Point)
    | CurveTo(c1: Point, c2: Point, p: Point)
    | Close

  /** `GeneralPath.WIND_EVEN_ODD` and `GeneralPath.WIND_NON_ZERO`. */
  const WIND_EVEN_ODD := 0
  const WIND_NON_ZERO := 1

  /** A `GeneralPath`: the operators appended so far and its winding rule. */
  datatype Path = Path(segments: seq<Segment>, windingRule: int)

  /** A new `GeneralPath`: no segments and the non-zero winding rule. */
  const EmptyPath := Path([], WIND_NON_ZERO)

  function Append(path: Path, s: Segment): (r: Path)
    ensures r.segments == path.segments + [s] && r.windingRule == path.windingRule
  {
    path.(segments := path.segments + [s])
  }

  /** `GeneralPath.reset`: the segments go, the winding rule stays. */
  function Reset(path: Path): (r: Path)
    ensures r.segments == [] && r.windingRule == path.windingRule
  {
    path.(segments := [])
  }

  /** A shape handed to the backend. */
  datatype Shape =
    | PathShape(path: Path)
    | TransformedShape(transform: Matrix, shape: Shape)   // `AffineTransform.createTransformedShape`
    | RectShape(rect: Rect2D)
    | AreaShape(area: Area)

  /** An AWT `Area`. */
  datatype Area =
    | EmptyArea                      // `new Area()`
    | FromShape(shape: Shape)        // `new Area(shape)`
    | Intersection(left: Area, right: Area)
    | Union(left: Area, right: Area)

  /**
   * The points an area covers, given the points each shape covers (which
   * depends on AWT's filling rules and is not modelled).
   */
  ghost function Covered(area: Area, inside: Shape -> iset<Point>): iset<Point>
  {
    match area
    case EmptyArea => iset{}
    case FromShape(s) => inside(s)
    case Intersection(a, b) => Covered(a, inside) * Covered(b, inside)
    case Union(a, b) => Covered(a, inside) + Covered(b, inside)
  }

  /**
   * The buffered text clip after the glyph outlines `glyphs` have been added,
   * one `Area.add` per glyph, to a new empty area.
   */
  function TextClip(glyphs: seq<Shape>): Area
  {
    if glyphs == [] then EmptyArea
    else Union(TextClip(glyphs[..|glyphs| - 1]), FromShape(glyphs[|glyphs| - 1]))
  }

  /** The text clip covers exactly the points some glyph outline covers. */
  lemma {:induction false} TextClipCoversGlyphs(glyphs: seq<Shape>, inside: Shape -> iset<Point>, p: Point)
    ensures p in Covered(TextClip(glyphs), inside) <==> exists i :: 0 <= i < |glyphs| && p in inside(glyphs[i])
  {
    if glyphs != [] {
      var init, last := glyphs[..|glyphs| - 1], glyphs[|glyphs| - 1];
      TextClipCoversGlyphs(init, inside, p);
      assert Covered(TextClip(glyphs), inside) == Covered(TextClip(init), inside) + inside(last);
      if p in Covered(TextClip(init), inside) {
        var i :| 0 <= i < |init| && p in inside(init[i]);
        assert glyphs[i] == init[i];
      } else if p in inside(last) {
        assert glyphs[|glyphs| - 1] == last;
      }
      if exists i :: 0 <= i < |glyphs| && p in inside(glyphs[i]) {
        var i :| 0 <= i < |glyphs| && p in inside(glyphs[i]);
        if i < |init| {
          assert init[i] == glyphs[i];
        }
      }
    }
  }

  /** Intersecting into a clip never lets more through. */
  lemma IntersectionNarrows(clip: Area, added: Area, inside: Shape -> iset<Point>)
    ensures Covered(Intersection(clip, added), inside) <= Covered(clip, inside)
    ensures Covered(Intersection(clip, added), inside) <= Covered(added, inside)
  {
  }
}
