/**
 * The drawing backend (AWT's `Graphics2D`) as a recorder: every call the page
 * renderer makes on it is appended to `calls`, and the calls that change the
 * device transform also update `transform`. What the calls paint is not
 * modelled.
 */
module Canvases {
  import opened Wrappers
  import opened Geometry
  import opened Regions

  /** `RenderingHints` key/value pairs the renderer sets. */
  datatype Hint = AntialiasOn | AntialiasOff | FractionalMetricsOn | InterpolationNearestNeighbor

  /** A PDF blend mode; only `Normal` is distinguished. */
  datatype BlendMode = Normal | OtherBlend(name: string)

  /** The `Composite` built from a blend mode and a constant alpha. */
  datatype Composite = Composite(blend: BlendMode, alpha: real)

  /** `BasicStroke.CAP_BUTT` and `BasicStroke.JOIN_MITER`. */
  const CAP_BUTT := 0
  const JOIN_MITER := 0

  /** A `BasicStroke`; a `None` dash draws solid lines. */
  datatype Stroke = BasicStroke(width: real, cap: int, join: int, miterLimit: real, dash: Option<seq<real>>, phase: real)

  /** `new BasicStroke(1.0f, CAP_BUTT, JOIN_MITER)`: miter limit 10, no dash. */
  const InitialStroke := BasicStroke(1.0, CAP_BUTT, JOIN_MITER, 10.0, None, 0.0)

  /**
   * An image: a decoded PDF image, or the offscreen buffer of a transparency
   * group holding the calls drawn into it.
   */
  datatype Image = Image(width: int, height: int, content: ImageContent)

  datatype ImageContent = Decoded(id: nat) | Drawn(calls: seq<Call>)

  /** A raster of a group buffer, translated so that it starts at (x, y). */
  datatype Raster =
    | AlphaRaster(image: Image, x: int, y: int)
    | LuminosityRaster(image: Image, x: int, y: int)

  /** The paints handed to `setPaint`. */
  datatype Paint =
    | White
    | ColourPaint(id: nat)                                   // from a colour space or a shading
    | TexturePaint(image: Image, anchor: Rect2D)
    | SoftMaskPaint(parent: Option<Paint>, mask: Raster)

  /** One call on the backend. */
  datatype Call =
    | SetHint(hint: Hint)
    | SetComposite(composite: Composite)
    | SetPaint(paint: Option<Paint>)
    | SetStroke(stroke: Stroke)
    | SetClip(clip: Option<Area>)
    | Fill(shape: Shape)
    | Draw(shape: Shape)
    | DrawImage(image: Image, transform: Matrix)
    | Translate(tx: int, ty: int)
    | Scale(sx: real, sy: real)
    | Transform(m: Matrix)
    | Dispose

  class Canvas {
    /** Everything drawn so far, in order. */
    var calls: seq<Call>
    /** The device transform (`getTransform`). */
    var transform: Matrix

    /** A graphics context as `BufferedImage.createGraphics` returns it. */
    constructor ()
      ensures calls == [] && transform == Identity
    {
      calls := [];
      transform := Identity;
    }

    method Record(call: Call)
      modifies this
      ensures calls == old(calls) + [call] && transform == old(transform)
    {
      calls := calls + [call];
    }

    /** Appends the calls a nested content stream draws. */
    method Replay(drawn: seq<Call>)
      modifies this
      ensures calls == old(calls) + drawn && transform == old(transform)
    {
      calls := calls + drawn;
    }

    /** `translate(int, int)`: the translation is applied before the current transform. */
    method Translate(tx: int, ty: int)
      modifies this
      ensures calls == old(calls) + [Call.Translate(tx, ty)]
      ensures transform == Then(Translation(tx as real, ty as real), old(transform))
    {
      calls := calls + [Call.Translate(tx, ty)];
      transform := Then(Translation(tx as real, ty as real), transform);
    }

    /** `scale(sx, sy)`: the scaling is applied before the current transform. */
    method Scale(sx: real, sy: real)
      modifies this
      ensures calls == old(calls) + [Call.Scale(sx, sy)]
      ensures transform == Then(Scaling(sx, sy), old(transform))
    {
      calls := calls + [Call.Scale(sx, sy)];
      transform := Then(Scaling(sx, sy), transform);
    }

    /** `transform(m)`: `m` is applied before the current transform. */
    method Transform(m: Matrix)
      modifies this
      ensures calls == old(calls) + [Call.Transform(m)]
      ensures transform == Then(m, old(transform))
    {
      calls := calls + [Call.Transform(m)];
      transform := Then(m, transform);
    }
  }

  /**
   * A translation by whole pixels followed by the opposite one leaves a
   * device transform as it was (the annotation loop relies on it).
   */
  lemma TranslateBackRestores(m: Matrix, tx: int, ty: int)
    ensures Then(Translation(-tx as real, -ty as real), Then(Translation(tx as real, ty as real), m)) == m
  {
  }
}
