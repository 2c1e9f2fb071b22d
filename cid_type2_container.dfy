/**
 * The preflight container of a CIDFontType2 (TrueType-based CID) font: a
 * CID is turned into a glyph index through the optional CIDToGIDMap and the
 * glyph's width is read from the font program's `hmtx` table.
 */
module CIDType2Containers {
  import opened Wrappers
  import opened FontPrograms

  /** The CIDToGIDMap: the glyph index of each CID, and the index that means "no glyph". */
  datatype CIDToGIDMap = CIDToGIDMap(gidOf: int -> int, notdefGlyphIndex: int)

  /** The index that `GetGlyphIndex` gives for a CID that the map sends to `.notdef`. */
  const NOTDEF_SENTINEL := -14

  class CIDType2Container {
    var cidToGid: Option<CIDToGIDMap>
    var ttf: Option<TrueTypeFont>

    constructor ()
      ensures cidToGid == None && ttf == None
    {
      cidToGid := None;
      ttf := None;
    }

    /**
     * The glyph index of a CID: the CID itself without a CIDToGIDMap (the
     * Identity mapping); otherwise the map's glyph index, or -14 when that is
     * the map's `.notdef` index.
     */
    function GetGlyphIndex(cid: int): (glyphIndex: int)
      reads this
      ensures cidToGid.None? ==> glyphIndex == cid
      ensures cidToGid.Some? && cidToGid.value.gidOf(cid) != cidToGid.value.notdefGlyphIndex ==>
        glyphIndex == cidToGid.value.gidOf(cid)
      ensures cidToGid.Some? && cidToGid.value.gidOf(cid) == cidToGid.value.notdefGlyphIndex ==>
        glyphIndex == NOTDEF_SENTINEL
    {
      match cidToGid
      case None => cid
      case Some(m) =>
        var glyphIndex := m.gidOf(cid);
        if glyphIndex == m.notdefGlyphIndex then NOTDEF_SENTINEL else glyphIndex
    }

    /**
     * The width check passes its font-program guard: the font is set, its
     * `maxp` table can be read, and it has more glyphs than the index.
     */
    predicate PassesGuard(cid: int)
      reads this
    {
      ttf.Some? && ttf.value.maxp.Some? && ttf.value.maxp.value > GetGlyphIndex(cid)
    }

    /**
     * The width of a CID's glyph as the source computes it: -1 without a font
     * program or when the glyph index is not below `numGlyphs`; a
     * GlyphException when `maxp` cannot be read; otherwise the outcome of
     * reading the width from `hhea`, `head` and `hmtx`. The guard lets a
     * negative glyph index through to the array reads.
     */
    function GetFontProgramWidthAsWritten(cid: int): (r: Result<real, WidthFailure>)
      reads this
      requires PassesGuard(cid) ==> DivisionDefined(ttf.value, GetGlyphIndex(cid))
      ensures ttf.None? ==> r == Ok(-1.0)
      ensures ttf.Some? && ttf.value.maxp.None? ==> r == Err(GlyphException(cid))
      ensures ttf.Some? && ttf.value.maxp.Some? && !PassesGuard(cid) ==> r == Ok(-1.0)
      ensures PassesGuard(cid) ==> r == Caught(cid, ReadWidth(ttf.value, GetGlyphIndex(cid)))
    {
      var glyphIndex := GetGlyphIndex(cid);
      match ttf
      case None => Ok(-1.0)
      case Some(font) =>
        match font.maxp
        case None => Err(GlyphException(cid))
        case Some(numGlyphs) =>
          if numGlyphs > glyphIndex then Caught(cid, ReadWidth(font, glyphIndex)) else Ok(-1.0)
    }

    /**
     * The width check with the guard it evidently intends: a glyph index that
     * is negative (the -14 of a `.notdef` glyph) has no glyph, and the width is
     * -1, as for an index beyond `numGlyphs`.
     */
    function GetFontProgramWidth(cid: int): (r: Result<real, WidthFailure>)
      reads this
      requires PassesGuard(cid) && GetGlyphIndex(cid) >= 0 ==> DivisionDefined(ttf.value, GetGlyphIndex(cid))
      ensures ttf.None? ==> r == Ok(-1.0)
      ensures ttf.Some? && ttf.value.maxp.None? ==> r == Err(GlyphException(cid))
      ensures ttf.Some? && ttf.value.maxp.Some? && (!PassesGuard(cid) || GetGlyphIndex(cid) < 0) ==> r == Ok(-1.0)
      ensures PassesGuard(cid) && GetGlyphIndex(cid) >= 0 ==>
        r == Caught(cid, ReadWidth(ttf.value, GetGlyphIndex(cid)))
    {
      var glyphIndex := GetGlyphIndex(cid);
      match ttf
      case None => Ok(-1.0)
      case Some(font) =>
        match font.maxp
        case None => Err(GlyphException(cid))
        case Some(numGlyphs) =>
          if 0 <= glyphIndex < numGlyphs then Caught(cid, ReadWidth(font, glyphIndex)) else Ok(-1.0)
    }

    method SetCidToGid(map': Option<CIDToGIDMap>)
      modifies this`cidToGid
      ensures cidToGid == map'
    {
      cidToGid := map';
    }

    method SetTtf(font: Option<TrueTypeFont>)
      modifies this`ttf
      ensures ttf == font
    {
      ttf := font;
    }
  }

  /**
   * A CID that the CIDToGIDMap sends to `.notdef` gets index -14, which passes
   * the guard `numGlyphs > glyphIndex` of any font: the as-written check never
   * gives -1 for it, but fails with an out-of-bounds read whenever the metric
   * tables can be read, and with a GlyphException otherwise.
   */
  lemma NotdefSentinelReadsOutOfBounds(c: CIDType2Container, cid: int)
    requires c.cidToGid.Some? && c.cidToGid.value.gidOf(cid) == c.cidToGid.value.notdefGlyphIndex
    requires c.ttf.Some? && c.ttf.value.maxp.Some? && c.ttf.value.maxp.value >= 0
    ensures c.GetGlyphIndex(cid) == NOTDEF_SENTINEL
    ensures c.PassesGuard(cid)
    ensures DivisionDefined(c.ttf.value, NOTDEF_SENTINEL)
    ensures Metrics(c.ttf.value).Some? ==> c.GetFontProgramWidthAsWritten(cid) == Err(ArrayIndexOutOfBounds)
    ensures Metrics(c.ttf.value).None? ==> c.GetFontProgramWidthAsWritten(cid) == Err(GlyphException(cid))
  {
  }

  /** The corrected width check gives -1 for every CID without a glyph in the font. */
  lemma NotdefSentinelHasNoWidth(c: CIDType2Container, cid: int)
    requires c.cidToGid.Some? && c.cidToGid.value.gidOf(cid) == c.cidToGid.value.notdefGlyphIndex
    requires c.ttf.Some? && c.ttf.value.maxp.Some?
    ensures c.GetFontProgramWidth(cid) == Ok(-1.0)
  {
  }
}
