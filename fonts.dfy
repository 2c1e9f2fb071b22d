/**
 * The fonts the page renderer meets and the choice of the glyph-outline
 * source (`Glyph2D`) it makes for each kind of font.
 */
module Fonts {
  import opened Geometry

  /** The descendant CIDFont of a composite (Type 0) font. */
  datatype Descendant = CIDFontType2 | CIDFontType0(id: nat) | OtherDescendant

  /** The class of a `PDFont`. */
  datatype FontKind =
    | TrueTypeKind                     // PDTrueTypeFont
    | Type1Kind                        // PDType1Font
    | Type1CKind(hasCFF: bool)         // PDType1CFont; whether its CFF program is present
    | Type0Kind(descendant: Descendant)
    | Type3Kind                        // PDType3Font: glyphs are content streams
    | OtherKind(className: string)

  datatype Font = Font(id: nat, kind: FontKind, fontMatrix: Matrix, baseFont: string)

  /** The glyph-outline sources. */
  datatype Glyph2D =
    | TTFGlyph2D(font: Font)
    | Type1Glyph2D(font: Font)
    | CIDType0Glyph2D(cidFont: nat)

  /** What choosing a glyph source for a font gives. */
  datatype Choice =
    | Source(glyph2D: Glyph2D)
    | NoSource         // the font's class is handled but no source is built
    | BadFontType      // the font's class is not handled at all

  /** The class-by-class choice of a glyph source, before any caching. */
  function ChooseGlyph2D(font: Font): (c: Choice)
    ensures c.Source? && c.glyph2D.TTFGlyph2D? ==> font.kind == TrueTypeKind || font.kind == Type0Kind(CIDFontType2)
    ensures c.Source? && c.glyph2D.Type1Glyph2D? ==> font.kind == Type1Kind || font.kind == Type1CKind(true)
    ensures c.Source? && c.glyph2D.CIDType0Glyph2D? ==> font.kind.Type0Kind? && font.kind.descendant == CIDFontType0(c.glyph2D.cidFont)
    ensures c == NoSource <==> font.kind == Type1CKind(false) || font.kind == Type0Kind(OtherDescendant)
    ensures c == BadFontType <==> font.kind == Type3Kind || font.kind.OtherKind?
    ensures c.Source? && !c.glyph2D.CIDType0Glyph2D? ==> c.glyph2D.font == font
  {
    match font.kind
    case TrueTypeKind => Source(TTFGlyph2D(font))
    case Type1Kind => Source(Type1Glyph2D(font))
    case Type1CKind(hasCFF) => if hasCFF then Source(Type1Glyph2D(font)) else NoSource
    case Type0Kind(descendant) =>
      (match descendant
       case CIDFontType2 => Source(TTFGlyph2D(font))
       case CIDFontType0(id) => Source(CIDType0Glyph2D(id))
       case OtherDescendant => NoSource)
    case Type3Kind => BadFontType
    case OtherKind(_) => BadFontType
  }
}
