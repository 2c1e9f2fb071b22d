/**
 * Points, affine matrices and rectangles over the reals, with the two pieces of
 * straight-line geometry of the page renderer: the integer pixel rectangle of
 * a transparency group and the placement matrix of an annotation appearance
 * (section 12.5.5 of ISO 32000-1:2008, "Appearance Streams").
 */
module Geometry {

  datatype Point = Point(x: real, y: real)

  /**
   * The affine map (x, y) -> (a*x + c*y + e, b*x + d*y + f): the PDF matrix
   * [a b 0; c d 0; e f 1] in PDF's row-vector convention, and equally the AWT
   * transform with m00 = a, m10 = b, m01 = c, m11 = d, m02 = e, m12 = f.
   */
  datatype Matrix = Matrix(a: real, b: real, c: real, d: real, e: real, f: real)

  function Apply(m: Matrix, p: Point): Point
  {
    Point(m.a * p.x + m.c * p.y + m.e, m.b * p.x + m.d * p.y + m.f)
  }

  const Identity := Matrix(1.0, 0.0, 0.0, 1.0, 0.0, 0.0)

  function Translation(tx: real, ty: real): Matrix { Matrix(1.0, 0.0, 0.0, 1.0, tx, ty) }

  function Scaling(sx: real, sy: real): Matrix { Matrix(sx, 0.0, 0.0, sy, 0.0, 0.0) }

  /**
   * `m` followed by `n`: PDF's `m.multiply(n)`, and AWT's `n.concatenate(m)`
   * (AWT's translate and scale concatenate a translation or scaling that is
   * applied first).
   */
  function Then(m: Matrix, n: Matrix): (r: Matrix)
  {
    Matrix(m.a * n.a + m.b * n.c, m.a * n.b + m.b * n.d,
           m.c * n.a + m.d * n.c, m.c * n.b + m.d * n.d,
           m.e * n.a + m.f * n.c + n.e, m.e * n.b + m.f * n.d + n.f)
  }

  lemma ThenAppliesX(m: Matrix, n: Matrix, p: Point)
    ensures Apply(Then(m, n), p).x == Apply(n, Apply(m, p)).x
  {
  }

  lemma ThenAppliesY(m: Matrix, n: Matrix, p: Point)
    ensures Apply(Then(m, n), p).y == Apply(n, Apply(m, p)).y
  {
  }

  /** Composition means applying one matrix after the other. */
  lemma ThenApplies(m: Matrix, n: Matrix, p: Point)
    ensures Apply(Then(m, n), p) == Apply(n, Apply(m, p))
  {
    ThenAppliesX(m, n, p);
    ThenAppliesY(m, n, p);
  }

  function Determinant(m: Matrix): real { m.a * m.d - m.b * m.c }

  /** The inverse of an invertible matrix (AWT's `createInverse`). */
  function Inverse(m: Matrix): (r: Matrix)
    requires Determinant(m) != 0.0
  {
    var k := 1.0 / Determinant(m);
    Matrix(m.d * k, -m.b * k, -m.c * k, m.a * k,
           (m.c * m.f - m.d * m.e) * k, (m.b * m.e - m.a * m.f) * k)
  }

  // ----- The pixel rectangle of a transparency group -----

  /** A rectangle given by its extreme coordinates (AWT's `getBounds2D`). */
  datatype Bounds = Bounds(minX: real, minY: real, maxX: real, maxY: real)

  /** An integer pixel rectangle: its origin and its size. */
  datatype PixelRect = PixelRect(minX: int, minY: int, width: int, height: int)

  /**
   * The offscreen buffer of a group: the floor of the minimum corner, and the
   * floor of the maximum corner plus one.
   */
  function GroupPixelRect(bounds: Bounds): PixelRect
  {
    var minX := bounds.minX.Floor;
    var minY := bounds.minY.Floor;
    var maxX := bounds.maxX.Floor + 1;
    var maxY := bounds.maxY.Floor + 1;
    PixelRect(minX, minY, maxX - minX, maxY - minY)
  }

  /**
   * For well-formed bounds the buffer is at least one pixel wide and high, it
   * covers the bounds, and it is the smallest integer rectangle that covers
   * them with the maximum corner strictly inside.
   */
  lemma GroupPixelRectCovers(bounds: Bounds)
    requires bounds.minX <= bounds.maxX && bounds.minY <= bounds.maxY
    ensures var r := GroupPixelRect(bounds);
      && r.width >= 1 && r.height >= 1
      && r.minX as real <= bounds.minX < r.minX as real + 1.0
      && r.minY as real <= bounds.minY < r.minY as real + 1.0
      && bounds.maxX < (r.minX + r.width) as real <= bounds.maxX + 1.0
      && bounds.maxY < (r.minY + r.height) as real <= bounds.maxY + 1.0
  {
    FloorBounds(bounds.minX);
    FloorBounds(bounds.minY);
    FloorBounds(bounds.maxX);
    FloorBounds(bounds.maxY);
    FloorMonotonic(bounds.minX, bounds.maxX);
    FloorMonotonic(bounds.minY, bounds.maxY);
  }

  lemma FloorBounds(x: real)
    ensures x.Floor as real <= x < x.Floor as real + 1.0
  {
  }

  lemma FloorMonotonic(x: real, y: real)
    requires x <= y
    ensures x.Floor <= y.Floor
  {
    FloorBounds(x);
    FloorBounds(y);
  }

  /** Bounds [1.2, 9.8] x [1.2, 9.8] give origin (1, 1) and size 9 x 9. */
  lemma GroupPixelRectExample()
    ensures GroupPixelRect(Bounds(1.2, 1.2, 9.8, 9.8)) == PixelRect(1, 1, 9, 9)
  {
    assert (1.2).Floor == 1 by { FloorBounds(1.2); }
    assert (9.8).Floor == 9 by { FloorBounds(9.8); }
  }

  // ----- The placement of an annotation appearance (ISO 32000-1 section 12.5.5) -----

  /** A PDF rectangle given by its lower-left and upper-right corners. */
  datatype PDRectangle = PDRectangle(llx: real, lly: real, urx: real, ury: real)

  /** A `Rectangle2D`: its origin and its (possibly negative) size. */
  datatype Rect2D = Rect2D(x: real, y: real, width: real, height: real)
  {
    function MaxX(): real { x + width }
    function MaxY(): real { y + height }
  }

  /** The annotation rectangle as a `Rectangle2D`. */
  function RectOf(r: PDRectangle): Rect2D
  {
    Rect2D(r.llx, r.lly, r.urx - r.llx, r.ury - r.lly)
  }

  function Min(u: real, v: real): real { if u <= v then u else v }

  function Abs(u: real): real { if u < 0.0 then -u else u }

  /**
   * Step (a): the axis-aligned rectangle spanned by the bounding box's
   * lower-left and upper-right corners after the appearance matrix (only those
   * two corners are transformed).
   */
  function TransformedBBox(matrix: Matrix, bBox: PDRectangle): Rect2D
  {
    var p1 := Apply(matrix, Point(bBox.llx, bBox.lly));
    var p2 := Apply(matrix, Point(bBox.urx, bBox.ury));
    Rect2D(Min(p1.x, p2.x), Min(p1.y, p2.y), Abs(p2.x - p1.x), Abs(p2.y - p1.y))
  }

  /**
   * Step (b): matrix A, which translates the box's origin to zero, scales the
   * box's size to the rectangle's and translates to the rectangle's origin
   * (`MatrixAIsComposition`), written out as one matrix.
   */
  function MatrixA(rect: Rect2D, box: Rect2D): Matrix
    requires box.width != 0.0 && box.height != 0.0
  {
    var sx, sy := rect.width / box.width, rect.height / box.height;
    Matrix(sx, 0.0, 0.0, sy, rect.x - sx * box.x, rect.y - sy * box.y)
  }

  /** Matrix A is the translate-scale-translate composition. */
  lemma MatrixAIsComposition(rect: Rect2D, box: Rect2D)
    requires box.width != 0.0 && box.height != 0.0
    ensures MatrixA(rect, box)
         == Then(Then(Translation(-box.x, -box.y), Scaling(rect.width / box.width, rect.height / box.height)),
                 Translation(rect.x, rect.y))
  {
    var sx, sy := rect.width / box.width, rect.height / box.height;
    var m1 := Then(Translation(-box.x, -box.y), Scaling(sx, sy));
    assert m1 == Matrix(sx, 0.0, 0.0, sy, -box.x * sx, -box.y * sy);
    assert -box.x * sx == -(sx * box.x) && -box.y * sy == -(sy * box.y);
  }

  /**
   * Where the appearance is drawn: the CTM (AA with its translation set to
   * zero), the translation taken out of AA (applied to the canvas instead), and
   * the clip rectangle (the annotation rectangle moved by minus that
   * translation).
   */
  datatype Placement = Placement(ctm: Matrix, origin: Point, clip: Rect2D)

  /** Step (c): AA = Matrix x A, split into its linear part and its translation. */
  function AppearancePlacement(rect: PDRectangle, bBox: PDRectangle, matrix: Matrix): Placement
    requires TransformedBBox(matrix, bBox).width != 0.0 && TransformedBBox(matrix, bBox).height != 0.0
  {
    var rect2D := RectOf(rect);
    var aa := Then(matrix, MatrixA(rect2D, TransformedBBox(matrix, bBox)));
    var point := Point(aa.e, aa.f);
    Placement(aa.(e := 0.0, f := 0.0), point,
              Rect2D(rect2D.x - point.x, rect2D.y - point.y, rect2D.width, rect2D.height))
  }

  /** A product whose first factor is zero. */
  lemma ZeroTimes(z: real, y: real)
    requires z == 0.0
    ensures z * y == 0.0
  {
  }

  /** Matrix A applied to a point: the offset from the box's origin, scaled by the size ratio, from the rectangle's origin. */
  lemma MatrixAApplies(rect: Rect2D, box: Rect2D, q: Point)
    requires box.width != 0.0 && box.height != 0.0
    ensures Apply(MatrixA(rect, box), q)
         == Point((rect.width / box.width) * (q.x - box.x) + rect.x, (rect.height / box.height) * (q.y - box.y) + rect.y)
  {
    var a := MatrixA(rect, box);
    ZeroTimes(a.c, q.y);
    ZeroTimes(a.b, q.x);
    var sx, sy := rect.width / box.width, rect.height / box.height;
    assert sx * (q.x - box.x) == sx * q.x - sx * box.x;
    assert sy * (q.y - box.y) == sy * q.y - sy * box.y;
  }

  /** Equal second factors give equal products. */
  lemma TimesEqual(k: real, t: real, w: real)
    requires t == w
    ensures k * t == k * w
  {
  }

  lemma MatrixAAtMin(rect: Rect2D, box: Rect2D, q: Point)
    requires box.width != 0.0 && box.height != 0.0
    requires q.x == box.x && q.y == box.y
    ensures Apply(MatrixA(rect, box), q) == Point(rect.x, rect.y)
  {
    MatrixAApplies(rect, box, q);
    TimesEqual(rect.width / box.width, q.x - box.x, 0.0);
    TimesEqual(rect.height / box.height, q.y - box.y, 0.0);
  }

  lemma MatrixAAtMax(rect: Rect2D, box: Rect2D, q: Point)
    requires box.width != 0.0 && box.height != 0.0
    requires q.x == box.MaxX() && q.y == box.MaxY()
    ensures Apply(MatrixA(rect, box), q) == Point(rect.MaxX(), rect.MaxY())
  {
    MatrixAApplies(rect, box, q);
    TimesEqual(rect.width / box.width, q.x - box.x, box.width);
    TimesEqual(rect.height / box.height, q.y - box.y, box.height);
    assert (rect.width / box.width) * box.width == rect.width;
    assert (rect.height / box.height) * box.height == rect.height;
  }

  /** Matrix A sends the box's minimum corner to the rectangle's, and its maximum corner to the rectangle's. */
  lemma MatrixAAlignsCorners(rect: Rect2D, box: Rect2D)
    requires box.width != 0.0 && box.height != 0.0
    ensures Apply(MatrixA(rect, box), Point(box.x, box.y)) == Point(rect.x, rect.y)
    ensures Apply(MatrixA(rect, box), Point(box.MaxX(), box.MaxY())) == Point(rect.MaxX(), rect.MaxY())
  {
    MatrixAAtMin(rect, box, Point(box.x, box.y));
    MatrixAAtMax(rect, box, Point(box.MaxX(), box.MaxY()));
  }

  /**
   * One axis of the bounding-box alignment: the span from Min(u, v) of length
   * |v - u| is scaled by k = rw / tw onto the span from r0 of length rw, so u
   * and v land on its two ends.
   */
  lemma AxisLands(r0: real, rw: real, t0: real, tw: real, k: real, u: real, v: real)
    requires tw != 0.0 && k == rw / tw
    requires t0 == Min(u, v) && tw == Abs(v - u)
    ensures u <= v ==> k * (u - t0) + r0 == r0 && k * (v - t0) + r0 == r0 + rw
    ensures u > v ==> k * (u - t0) + r0 == r0 + rw && k * (v - t0) + r0 == r0
  {
    assert k * tw == rw;
  }

  /**
   * The horizontal half of the corner alignment: matrix A for a box spanned by
   * two points sends the point with the smaller x to the rectangle's left edge
   * and the other to its right edge.
   */
  lemma SpannedCornersLandX(rect: PDRectangle, box: Rect2D, p1: Point, p2: Point)
    requires box.width != 0.0 && box.height != 0.0
    requires box.x == Min(p1.x, p2.x) && box.width == Abs(p2.x - p1.x)
    ensures var a := MatrixA(RectOf(rect), box);
      && (p1.x <= p2.x ==> Apply(a, p1).x == rect.llx && Apply(a, p2).x == rect.urx)
      && (p1.x > p2.x ==> Apply(a, p1).x == rect.urx && Apply(a, p2).x == rect.llx)
  {
    var r := RectOf(rect);
    MatrixAApplies(r, box, p1);
    MatrixAApplies(r, box, p2);
    AxisLands(r.x, r.width, box.x, box.width, r.width / box.width, p1.x, p2.x);
  }

  /** The vertical half of the corner alignment. */
  lemma SpannedCornersLandY(rect: PDRectangle, box: Rect2D, p1: Point, p2: Point)
    requires box.width != 0.0 && box.height != 0.0
    requires box.y == Min(p1.y, p2.y) && box.height == Abs(p2.y - p1.y)
    ensures var a := MatrixA(RectOf(rect), box);
      && (p1.y <= p2.y ==> Apply(a, p1).y == rect.lly && Apply(a, p2).y == rect.ury)
      && (p1.y > p2.y ==> Apply(a, p1).y == rect.ury && Apply(a, p2).y == rect.lly)
  {
    var r := RectOf(rect);
    MatrixAApplies(r, box, p1);
    MatrixAApplies(r, box, p2);
    AxisLands(r.y, r.height, box.y, box.height, r.height / box.height, p1.y, p2.y);
  }

  /**
   * The appearance's bounding-box corners land on the annotation rectangle's
   * edges under AA: the lower-left corner goes to the rectangle's left edge
   * when the appearance matrix keeps it left of the upper-right corner, and to
   * the right edge otherwise; likewise vertically.
   */
  lemma PlacementMapsBBoxCornersOntoRect(rect: PDRectangle, bBox: PDRectangle, matrix: Matrix)
    requires TransformedBBox(matrix, bBox).width != 0.0 && TransformedBBox(matrix, bBox).height != 0.0
    ensures var aa := Then(matrix, MatrixA(RectOf(rect), TransformedBBox(matrix, bBox)));
      var p1 := Apply(matrix, Point(bBox.llx, bBox.lly));
      var p2 := Apply(matrix, Point(bBox.urx, bBox.ury));
      var q1 := Apply(aa, Point(bBox.llx, bBox.lly));
      var q2 := Apply(aa, Point(bBox.urx, bBox.ury));
      && (p1.x <= p2.x ==> q1.x == rect.llx && q2.x == rect.urx)
      && (p1.x > p2.x ==> q1.x == rect.urx && q2.x == rect.llx)
      && (p1.y <= p2.y ==> q1.y == rect.lly && q2.y == rect.ury)
      && (p1.y > p2.y ==> q1.y == rect.ury && q2.y == rect.lly)
  {
    var box := TransformedBBox(matrix, bBox);
    var ll, ur := Point(bBox.llx, bBox.lly), Point(bBox.urx, bBox.ury);
    SpannedCornersLandX(rect, box, Apply(matrix, ll), Apply(matrix, ur));
    SpannedCornersLandY(rect, box, Apply(matrix, ll), Apply(matrix, ur));
    ThenApplies(matrix, MatrixA(RectOf(rect), box), ll);
    ThenApplies(matrix, MatrixA(RectOf(rect), box), ur);
  }

  /**
   * The canvas is moved by the origin cast to whole units, `(int) x` and
   * `(int) y`. Drawing with the placement's CTM on it puts every appearance
   * point where AA puts it, less the origin's dropped fractional part `d`,
   * and the clip rectangle lands on the annotation rectangle shifted by the
   * same `d`: the appearance keeps its place inside its clip, and the two
   * together move by less than one unit toward zero.
   */
  lemma PlacementSplitsTranslation(rect: PDRectangle, bBox: PDRectangle, matrix: Matrix, p: Point)
    requires TransformedBBox(matrix, bBox).width != 0.0 && TransformedBBox(matrix, bBox).height != 0.0
    ensures var pl := AppearancePlacement(rect, bBox, matrix);
      var aa := Then(matrix, MatrixA(RectOf(rect), TransformedBBox(matrix, bBox)));
      var tx, ty := Trunc(pl.origin.x) as real, Trunc(pl.origin.y) as real;
      var dx, dy := pl.origin.x - tx, pl.origin.y - ty;
      && pl.ctm.e == 0.0 && pl.ctm.f == 0.0
      && Apply(pl.ctm, p).x + tx == Apply(aa, p).x - dx
      && Apply(pl.ctm, p).y + ty == Apply(aa, p).y - dy
      && pl.clip.x + tx == rect.llx - dx && pl.clip.y + ty == rect.lly - dy
      && pl.clip.MaxX() + tx == rect.urx - dx && pl.clip.MaxY() + ty == rect.ury - dy
      && (pl.origin.x >= 0.0 ==> 0.0 <= dx < 1.0) && (pl.origin.x < 0.0 ==> -1.0 < dx <= 0.0)
      && (pl.origin.y >= 0.0 ==> 0.0 <= dy < 1.0) && (pl.origin.y < 0.0 ==> -1.0 < dy <= 0.0)
  {
  }

  /** Java's `(int)` cast of a real: truncation toward zero. */
  function Trunc(x: real): (n: int)
    ensures x >= 0.0 ==> n as real <= x < n as real + 1.0
    ensures x < 0.0 ==> n as real - 1.0 < x <= n as real
  {
    if x >= 0.0 then x.Floor else -((-x).Floor)
  }
}
