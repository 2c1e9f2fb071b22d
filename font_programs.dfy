/**
 * The parts of a TrueType font program (as fontbox parses it) that the
 * preflight width checks read: the `cmap` subtables and the `maxp`, `head`,
 * `hhea` and `hmtx` tables, each of which is parsed on first use and can fail
 * to read; and the `hmtx` rule for glyphs beyond `numberOfHMetrics`.
 */
module FontPrograms {
  import opened Wrappers

  /** One subtable of the `cmap` table; `id` stands for the object's identity. */
  datatype CmapSubtable = CmapSubtable(id: nat, platformId: int, platformEncodingId: int)

  /**
   * A parsed font program, one optional value per table: the `cmap`
   * subtables, `numGlyphs` (maxp), `unitsPerEm` (head), `numberOfHMetrics`
   * (hhea) and the advance widths of the long horizontal metrics (hmtx). A
   * `None` table is one whose reading fails with an `IOException`.
   */
  datatype TrueTypeFont = TrueTypeFont(
    cmap: Option<seq<CmapSubtable>>,
    maxp: Option<int>,
    head: Option<int>,
    hhea: Option<int>,
    hmtx: Option<seq<int>>)

  /** The values a width computation reads from `head`, `hhea` and `hmtx`. */
  datatype FontMetrics = FontMetrics(unitsPerEm: int, numberOfHMetrics: int, advanceWidth: seq<int>)

  /** The three tables of the width computation, when all of them can be read. */
  function Metrics(t: TrueTypeFont): (m: Option<FontMetrics>)
    ensures m.Some? <==> t.head.Some? && t.hhea.Some? && t.hmtx.Some?
  {
    if t.head.Some? && t.hhea.Some? && t.hmtx.Some? then
      Some(FontMetrics(t.head.value, t.hhea.value, t.hmtx.value))
    else None
  }

  /**
   * Both array reads of the width computation are in bounds: the read of the
   * last long metric, done first and unconditionally, and the read of the
   * glyph's own metric when the glyph id is below `numberOfHMetrics`.
   */
  predicate InBounds(m: FontMetrics, glyphId: int)
  {
    && 1 <= m.numberOfHMetrics <= |m.advanceWidth|
    && (glyphId < m.numberOfHMetrics ==> 0 <= glyphId)
  }

  /** The reads are in bounds and the division by `unitsPerEm` is by a non-zero value. */
  predicate WidthReadable(m: FontMetrics, glyphId: int)
  {
    InBounds(m, glyphId) && m.unitsPerEm != 0
  }

  /**
   * The advance width of a glyph under the `hmtx` rule: a glyph id below
   * `numberOfHMetrics` has its own long metric; every glyph id at or beyond it
   * takes the advance width of the last long metric.
   */
  function AdvanceWidth(m: FontMetrics, glyphId: int): (w: int)
    requires InBounds(m, glyphId)
    ensures glyphId < m.numberOfHMetrics ==> w == m.advanceWidth[glyphId]
    ensures glyphId >= m.numberOfHMetrics ==> w == m.advanceWidth[m.numberOfHMetrics - 1]
  {
    var last := m.advanceWidth[m.numberOfHMetrics - 1];
    if glyphId < m.numberOfHMetrics then m.advanceWidth[glyphId] else last
  }

  /** The advance width in thousandths of the em: `width * 1000 / unitsPerEm`. */
  function ScaledAdvance(m: FontMetrics, glyphId: int): (r: real)
    requires WidthReadable(m, glyphId)
    ensures r * m.unitsPerEm as real == AdvanceWidth(m, glyphId) as real * 1000.0
  {
    (AdvanceWidth(m, glyphId) as real * 1000.0) / m.unitsPerEm as real
  }

  /**
   * Every glyph id at or beyond `numberOfHMetrics` has the width of glyph
   * `numberOfHMetrics - 1`; so in a font with a single long metric (a
   * monospaced font) every glyph has the same width.
   */
  lemma ClampedGlyphsShareLastWidth(m: FontMetrics, glyphId: int)
    requires WidthReadable(m, glyphId) && glyphId >= m.numberOfHMetrics
    ensures WidthReadable(m, m.numberOfHMetrics - 1)
    ensures ScaledAdvance(m, glyphId) == ScaledAdvance(m, m.numberOfHMetrics - 1)
  {
  }

  lemma MonospacedWidth(m: FontMetrics, g1: int, g2: int)
    requires m.numberOfHMetrics == 1
    requires WidthReadable(m, g1) && WidthReadable(m, g2)
    ensures g1 >= 0 && g2 >= 0
    ensures ScaledAdvance(m, g1) == ScaledAdvance(m, g2) == m.advanceWidth[0] as real * 1000.0 / m.unitsPerEm as real
  {
  }

  /**
   * How reading a width fails: a table cannot be read (an `IOException`), or
   * an array read is out of bounds (an `ArrayIndexOutOfBoundsException`).
   */
  datatype ReadFailure = UnreadableTable | IndexOutOfBounds

  /** Whenever the computation reaches its division, it divides by a non-zero `unitsPerEm`. */
  predicate DivisionDefined(t: TrueTypeFont, glyphId: int)
  {
    Metrics(t).Some? && InBounds(Metrics(t).value, glyphId) ==> Metrics(t).value.unitsPerEm != 0
  }

  /**
   * The scaled advance width of a glyph, reading `head`, `hmtx` and `hhea`
   * and then the advance-width array. Which table fails first makes no
   * difference: every read failure is the same `IOException`.
   */
  function ReadWidth(t: TrueTypeFont, glyphId: int): (r: Result<real, ReadFailure>)
    requires DivisionDefined(t, glyphId)
    ensures r == Err(UnreadableTable) <==> Metrics(t).None?
    ensures r == Err(IndexOutOfBounds) <==> Metrics(t).Some? && !InBounds(Metrics(t).value, glyphId)
    ensures r.Ok? ==> WidthReadable(Metrics(t).value, glyphId) && r.value == ScaledAdvance(Metrics(t).value, glyphId)
  {
    match (t.head, t.hmtx, t.hhea)
    case (Some(unitsPerEm), Some(glyphWidths), Some(numberOfLongHorMetrics)) =>
      if !(0 <= numberOfLongHorMetrics - 1 < |glyphWidths|) then Err(IndexOutOfBounds)
      else if glyphId < numberOfLongHorMetrics && !(0 <= glyphId < |glyphWidths|) then Err(IndexOutOfBounds)
      else
        var glyphWidth :=
          if glyphId < numberOfLongHorMetrics then glyphWidths[glyphId] else glyphWidths[numberOfLongHorMetrics - 1];
        Ok((glyphWidth as real * 1000.0) / unitsPerEm as real)
    case _ => Err(UnreadableTable)
  }

  /**
   * How a width check fails: preflight's GlyphException (error code
   * `ERROR_FONTS_GLYPH`) for the character code, or an out-of-bounds array
   * read, an unchecked exception that escapes the check.
   */
  datatype WidthFailure = GlyphException(cid: int) | ArrayIndexOutOfBounds

  /**
   * The `catch (IOException)` clause of a width check: an unreadable table
   * becomes a GlyphException for the character code; an out-of-bounds read is
   * not caught; a width is returned as it is.
   */
  function Caught(cid: int, r: Result<real, ReadFailure>): (c: Result<real, WidthFailure>)
    ensures c.Ok? <==> r.Ok?
    ensures c.Ok? ==> c.value == r.value
    ensures c == Err(GlyphException(cid)) <==> r == Err(UnreadableTable)
    ensures c == Err(ArrayIndexOutOfBounds) <==> r == Err(IndexOutOfBounds)
  {
    match r
    case Ok(w) => Ok(w)
    case Err(UnreadableTable) => Err(GlyphException(cid))
    case Err(IndexOutOfBounds) => Err(ArrayIndexOutOfBounds)
  }
}
