/**
 * The preflight container of a simple TrueType font: it selects the `cmap`
 * subtables to search (WinAnsi (3,1) first, then MacRoman (1,0), for a
 * non-symbolic font) and looks a character's width up in the font program.
 */
module TrueTypeContainers {
  import opened Wrappers
  import opened FontPrograms

  /** Platform 3, encoding 1 (Windows Unicode BMP); the source calls it WinAnsi. */
  predicate IsWinAnsi(e: CmapSubtable) { e.platformId == 3 && e.platformEncodingId == 1 }

  /** Platform 1, encoding 0: Mac Roman. */
  predicate IsMacRoman(e: CmapSubtable) { e.platformId == 1 && e.platformEncodingId == 0 }

  /** The two subtables the reordering moves to the front. */
  predicate IsPreferred(e: CmapSubtable) { IsWinAnsi(e) || IsMacRoman(e) }

  predicate HasWinAnsi(s: seq<CmapSubtable>) { exists j :: 0 <= j < |s| && IsWinAnsi(s[j]) }

  predicate HasMacRoman(s: seq<CmapSubtable>) { exists j :: 0 <= j < |s| && IsMacRoman(s[j]) }

  /** The number of elements of `s` that satisfy `p`. */
  function CountWhere(p: CmapSubtable -> bool, s: seq<CmapSubtable>): (n: nat)
    ensures n <= |s|
  {
    if s == [] then 0 else CountWhere(p, s[..|s| - 1]) + (if p(s[|s| - 1]) then 1 else 0)
  }

  /** The subtables that are neither WinAnsi nor MacRoman, in their order. */
  function Others(s: seq<CmapSubtable>): (r: seq<CmapSubtable>)
    ensures forall i :: 0 <= i < |r| ==> !IsPreferred(r[i])
  {
    if s == [] then []
    else Others(s[..|s| - 1]) + (if IsPreferred(s[|s| - 1]) then [] else [s[|s| - 1]])
  }

  /**
   * Where one more subtable goes in the list built so far: a WinAnsi subtable
   * at index 0; a MacRoman subtable at index 1 once a WinAnsi subtable has been
   * seen and at index 0 before; any other at the end.
   */
  function Place(res: seq<CmapSubtable>, firstIs31: bool, e: CmapSubtable): seq<CmapSubtable>
    requires firstIs31 ==> |res| >= 1
  {
    if IsWinAnsi(e) then [e] + res
    else if IsMacRoman(e) then (if firstIs31 then res[..1] + [e] + res[1..] else [e] + res)
    else res + [e]
  }

  /** The list the reordering loop has built after reading all of `s`. */
  function Reordered(s: seq<CmapSubtable>): (r: seq<CmapSubtable>)
    ensures |r| == |s|
  {
    if s == [] then []
    else
      var init := s[..|s| - 1];
      Place(Reordered(init), HasWinAnsi(init), s[|s| - 1])
  }

  /** The reordering loop over the font's `cmap` subtables. */
  method OrderCMapEntries(cmaps: seq<CmapSubtable>) returns (r: seq<CmapSubtable>)
    ensures r == Reordered(cmaps)
    ensures multiset(r) == multiset(cmaps)
  {
    var res: seq<CmapSubtable> := [];
    var firstIs31 := false;
    var i := 0;
    while i < |cmaps|
      invariant 0 <= i <= |cmaps|
      invariant res == Reordered(cmaps[..i])
      invariant firstIs31 == HasWinAnsi(cmaps[..i])
    {
      var cmapEntry := cmaps[i];
      assert cmaps[..i + 1][..i] == cmaps[..i];
      assert cmaps[..i + 1][i] == cmapEntry;
      if IsWinAnsi(cmapEntry) {
        res := [cmapEntry] + res;
        firstIs31 := true;
      } else if IsMacRoman(cmapEntry) {
        if firstIs31 {
          res := res[..1] + [cmapEntry] + res[1..];
        } else {
          res := [cmapEntry] + res;
        }
      } else {
        res := res + [cmapEntry];
      }
      i := i + 1;
    }
    assert cmaps[..i] == cmaps;
    ReorderedIsPermutation(cmaps);
    r := res;
  }

  lemma PlaceMultiset(res: seq<CmapSubtable>, firstIs31: bool, e: CmapSubtable)
    requires firstIs31 ==> |res| >= 1
    ensures multiset(Place(res, firstIs31, e)) == multiset(res) + multiset{e}
  {
    if IsMacRoman(e) && !IsWinAnsi(e) && firstIs31 {
      assert res == res[..1] + res[1..];
    }
  }

  /** The reordered list holds exactly the subtables of the font, each as often. */
  lemma {:induction false} ReorderedIsPermutation(s: seq<CmapSubtable>)
    ensures multiset(Reordered(s)) == multiset(s)
  {
    if s != [] {
      var init := s[..|s| - 1];
      ReorderedIsPermutation(init);
      PlaceMultiset(Reordered(init), HasWinAnsi(init), s[|s| - 1]);
      assert s == init + [s[|s| - 1]];
    }
  }

  lemma {:induction false} WinAnsiIsPreferredCount(s: seq<CmapSubtable>)
    requires HasWinAnsi(s)
    ensures CountWhere(IsPreferred, s) >= 1
  {
    var init := s[..|s| - 1];
    if !IsWinAnsi(s[|s| - 1]) {
      var j :| 0 <= j < |s| && IsWinAnsi(s[j]);
      assert init[j] == s[j];
      WinAnsiIsPreferredCount(init);
    }
  }

  /**
   * Every WinAnsi and MacRoman subtable comes before every other subtable, and
   * the other subtables keep their original relative order.
   */
  lemma {:induction false} ReorderedPreferredFirst(s: seq<CmapSubtable>)
    ensures CountWhere(IsPreferred, s) + |Others(s)| == |s|
    ensures forall i :: 0 <= i < CountWhere(IsPreferred, s) ==> IsPreferred(Reordered(s)[i])
    ensures Reordered(s)[CountWhere(IsPreferred, s)..] == Others(s)
  {
    if s != [] {
      var init := s[..|s| - 1];
      var e := s[|s| - 1];
      ReorderedPreferredFirst(init);
      var k := CountWhere(IsPreferred, init);
      var res := Reordered(init);
      if HasWinAnsi(init) {
        WinAnsiIsPreferredCount(init);
      }
      if IsWinAnsi(e) {
        assert Reordered(s) == [e] + res;
      } else if IsMacRoman(e) {
        if HasWinAnsi(init) {
          assert Reordered(s) == res[..1] + [e] + res[1..];
        } else {
          assert Reordered(s) == [e] + res;
        }
      } else {
        assert Reordered(s) == res + [e];
        assert Others(s) == Others(init) + [e];
      }
    }
  }

  /**
   * The first subtable is WinAnsi when the font has one, and otherwise MacRoman
   * when it has one.
   */
  lemma {:induction false} ReorderedFirst(s: seq<CmapSubtable>)
    ensures HasWinAnsi(s) ==> IsWinAnsi(Reordered(s)[0])
    ensures !HasWinAnsi(s) && HasMacRoman(s) ==> IsMacRoman(Reordered(s)[0])
  {
    if s != [] {
      var init := s[..|s| - 1];
      var e := s[|s| - 1];
      ReorderedFirst(init);
      if !IsPreferred(e) {
        if HasWinAnsi(s) {
          var j :| 0 <= j < |s| && IsWinAnsi(s[j]);
          assert init[j] == s[j];
        }
        if HasMacRoman(s) {
          var j :| 0 <= j < |s| && IsMacRoman(s[j]);
          assert init[j] == s[j];
        }
      } else if IsMacRoman(e) && !IsWinAnsi(e) && HasWinAnsi(s) {
        var j :| 0 <= j < |s| && IsWinAnsi(s[j]);
        assert init[j] == s[j];
      }
    }
  }

  lemma {:induction false} CountConcat(p: CmapSubtable -> bool, a: seq<CmapSubtable>, b: seq<CmapSubtable>)
    ensures CountWhere(p, a + b) == CountWhere(p, a) + CountWhere(p, b)
  {
    if b != [] {
      assert (a + b)[..|a + b| - 1] == a + b[..|b| - 1];
      CountConcat(p, a, b[..|b| - 1]);
    } else {
      assert a + b == a;
    }
  }

  lemma {:induction false} CountPlace(p: CmapSubtable -> bool, res: seq<CmapSubtable>, firstIs31: bool, e: CmapSubtable)
    requires firstIs31 ==> |res| >= 1
    ensures CountWhere(p, Place(res, firstIs31, e)) == CountWhere(p, res) + CountWhere(p, [e])
  {
    if IsWinAnsi(e) || (IsMacRoman(e) && !firstIs31) {
      CountConcat(p, [e], res);
    } else if IsMacRoman(e) {
      CountConcat(p, res[..1] + [e], res[1..]);
      CountConcat(p, res[..1], [e]);
      CountConcat(p, res[..1], res[1..]);
      assert res[..1] + res[1..] == res;
    } else {
      CountConcat(p, res, [e]);
    }
  }

  lemma {:induction false} ReorderedCount(p: CmapSubtable -> bool, s: seq<CmapSubtable>)
    ensures CountWhere(p, Reordered(s)) == CountWhere(p, s)
  {
    if s != [] {
      var init := s[..|s| - 1];
      ReorderedCount(p, init);
      CountPlace(p, Reordered(init), HasWinAnsi(init), s[|s| - 1]);
      assert [s[|s| - 1]][..0] == [];
    }
  }

  lemma {:induction false} PreferredCountSplits(s: seq<CmapSubtable>)
    ensures CountWhere(IsPreferred, s) == CountWhere(IsWinAnsi, s) + CountWhere(IsMacRoman, s)
  {
    if s != [] {
      PreferredCountSplits(s[..|s| - 1]);
    }
  }

  lemma CountHead(p: CmapSubtable -> bool, s: seq<CmapSubtable>)
    requires |s| >= 1
    ensures CountWhere(p, s) == (if p(s[0]) then 1 else 0) + CountWhere(p, s[1..])
  {
    CountConcat(p, [s[0]], s[1..]);
    assert [s[0]] + s[1..] == s;
    assert [s[0]][..0] == [];
  }

  /** With exactly one subtable of each kind, the list begins WinAnsi, MacRoman. */
  lemma OneOfEachBeginsWinAnsiMacRoman(s: seq<CmapSubtable>)
    requires CountWhere(IsWinAnsi, s) == 1 && CountWhere(IsMacRoman, s) == 1
    ensures |Reordered(s)| >= 2
    ensures IsWinAnsi(Reordered(s)[0]) && IsMacRoman(Reordered(s)[1])
  {
    var r := Reordered(s);
    PreferredCountSplits(s);
    ReorderedPreferredFirst(s);
    ReorderedCount(IsWinAnsi, s);
    assert HasWinAnsi(s) by {
      if !HasWinAnsi(s) { NoWinAnsiCountsZero(s); }
    }
    ReorderedFirst(s);
    CountHead(IsWinAnsi, r);
    CountHead(IsWinAnsi, r[1..]);
    assert IsPreferred(r[1]);
  }

  lemma {:induction false} NoWinAnsiCountsZero(s: seq<CmapSubtable>)
    requires !HasWinAnsi(s)
    ensures CountWhere(IsWinAnsi, s) == 0
  {
    if s != [] {
      NoWinAnsiCountsZero(s[..|s| - 1]);
    }
  }

  /** The PDF-side font: its symbolic flag and its encoding (code to glyph name). */
  datatype PDTrueTypeFont = PDTrueTypeFont(symbolic: bool, encodingName: int -> string)

  /**
   * The foreign lookups of the width check: the default glyph list (glyph name
   * to the UTF-16 code units of its Unicode value, `None` when it has none) and
   * a `cmap` subtable's code-to-glyph-id mapping.
   */
  datatype GlyphLookup = GlyphLookup(toUnicode: string -> Option<seq<int>>, glyphId: (CmapSubtable, int) -> int)

  /**
   * The `cmapEncodingEntries` the font program gives: `None` when its `cmap`
   * table cannot be read; the subtables as they are for a symbolic font;
   * reordered for a non-symbolic one.
   */
  function EntriesFor(font: PDTrueTypeFont, program: TrueTypeFont): Option<seq<CmapSubtable>>
  {
    match program.cmap
    case None => None
    case Some(cmaps) => Some(if font.symbolic then cmaps else Reordered(cmaps))
  }

  /**
   * The glyph id that a subtable gives for a character code: a non-WinAnsi
   * subtable maps the code itself; a WinAnsi subtable maps the first UTF-16
   * unit of the code's Unicode value, and gives 0 when the code has no Unicode
   * value or when any later unit maps to glyph 0. `None` is the
   * out-of-bounds read of the first unit of an empty Unicode value.
   */
  function GlyphIdFor(font: PDTrueTypeFont, lookup: GlyphLookup, cid: int, cmap: CmapSubtable): (g: Option<int>)
    ensures g.None? <==> IsWinAnsi(cmap) && lookup.toUnicode(font.encodingName(cid)) == Some([])
  {
    if !IsWinAnsi(cmap) then Some(lookup.glyphId(cmap, cid))
    else
      match lookup.toUnicode(font.encodingName(cid))
      case None => Some(0)
      case Some(units) =>
        if units == [] then None
        else if exists i :: 1 <= i < |units| && lookup.glyphId(cmap, units[i]) == 0 then Some(0)
        else Some(lookup.glyphId(cmap, units[0]))
  }

  /** The subtable is searched and yields no glyph id above 0. */
  predicate Misses(font: PDTrueTypeFont, lookup: GlyphLookup, cid: int, e: CmapSubtable)
  {
    GlyphIdFor(font, lookup, cid, e).Some? && GlyphIdFor(font, lookup, cid, e).value <= 0
  }

  /** The subtable is searched and yields glyph id `g`. */
  predicate Yields(font: PDTrueTypeFont, lookup: GlyphLookup, cid: int, e: CmapSubtable, g: int)
  {
    GlyphIdFor(font, lookup, cid, e) == Some(g)
  }

  /** The search of the subtables: nothing found, a glyph id, or an out-of-bounds read that ends it. */
  datatype Search = NotFound | Found(glyphId: int) | Faulted

  /**
   * The search in order of the subtables: the first subtable that does not
   * miss decides it, with the glyph id it yields or the fault it raises.
   */
  function FirstGlyphId(font: PDTrueTypeFont, lookup: GlyphLookup, cid: int, entries: seq<CmapSubtable>): (r: Search)
    ensures r.NotFound? ==> forall k :: 0 <= k < |entries| ==> Misses(font, lookup, cid, entries[k])
    ensures r.Found? ==> r.glyphId > 0
    ensures r.Found? ==> exists k ::
      && 0 <= k < |entries|
      && Yields(font, lookup, cid, entries[k], r.glyphId)
      && forall j :: 0 <= j < k ==> Misses(font, lookup, cid, entries[j])
    ensures r.Faulted? ==> exists k ::
      && 0 <= k < |entries|
      && GlyphIdFor(font, lookup, cid, entries[k]).None?
      && forall j :: 0 <= j < k ==> Misses(font, lookup, cid, entries[j])
  {
    if entries == [] then NotFound
    else
      match GlyphIdFor(font, lookup, cid, entries[0])
      case None => Faulted
      case Some(g) =>
        if g > 0 then Found(g)
        else
          var r := FirstGlyphId(font, lookup, cid, entries[1..]);
          assert forall k :: 1 <= k < |entries| ==> entries[1..][k - 1] == entries[k];
          r
  }

  class TrueTypeContainer {
    /** The font program; `None` until `SetTrueTypeFont` is called. */
    var ttFont: Option<TrueTypeFont>
    /** The `cmap` subtables searched for a glyph, in search order; `None` until set. */
    var cmapEncodingEntries: Option<seq<CmapSubtable>>
    const trueTypeFont: PDTrueTypeFont

    /** The entries are only ever set from a font program. */
    ghost predicate Valid()
      reads this
    {
      cmapEncodingEntries.Some? ==> ttFont.Some?
    }

    constructor (font: PDTrueTypeFont)
      ensures Valid()
      ensures trueTypeFont == font && ttFont == None && cmapEncodingEntries == None
    {
      trueTypeFont := font;
      ttFont := None;
      cmapEncodingEntries := None;
    }

    /** Installs the font program and initialises the entries from it. */
    method SetTrueTypeFont(program: TrueTypeFont)
      requires Valid()
      modifies this
      ensures Valid()
      ensures ttFont == Some(program)
      ensures cmapEncodingEntries ==
        if old(cmapEncodingEntries).Some? then old(cmapEncodingEntries) else EntriesFor(trueTypeFont, program)
    {
      ttFont := Some(program);
      InitCMapEncodingEntries();
    }

    /**
     * Does nothing once the entries are set; otherwise sets them from the font
     * program, and leaves them unset when its `cmap` table cannot be read.
     */
    method InitCMapEncodingEntries()
      requires Valid() && ttFont.Some?
      modifies this`cmapEncodingEntries
      ensures Valid()
      ensures old(cmapEncodingEntries).Some? ==> cmapEncodingEntries == old(cmapEncodingEntries)
      ensures old(cmapEncodingEntries).None? ==> cmapEncodingEntries == EntriesFor(trueTypeFont, ttFont.value)
    {
      if cmapEncodingEntries.Some? {
        return;
      }
      match ttFont.value.cmap {
        case None =>
          return;
        case Some(cmaps) =>
          if trueTypeFont.symbolic {
            cmapEncodingEntries := Some(cmaps);
          } else {
            var ordered := OrderCMapEntries(cmaps);
            cmapEncodingEntries := Some(ordered);
          }
      }
    }

    /**
     * The glyph id of a character code in one subtable (0 when none is found);
     * `None` when the code's Unicode value is empty and its first unit is read
     * out of bounds.
     */
    method ExtractGlyphId(cid: int, cmap: CmapSubtable, lookup: GlyphLookup) returns (glyphId: Option<int>)
      ensures glyphId == GlyphIdFor(trueTypeFont, lookup, cid, cmap)
    {
      var notFoundGlyphId := 0;
      var innerFontCid := cid;
      if cmap.platformEncodingId == 1 && cmap.platformId == 3 {
        var name := trueTypeFont.encodingName(cid);
        var character := lookup.toUnicode(name);
        if character.None? {
          return Some(notFoundGlyphId);
        }
        var characterArray := character.value;
        if |characterArray| == 0 {
          return None;
        }
        innerFontCid := characterArray[0];
        var i := 1;
        while i < |characterArray|
          invariant 1 <= i <= |characterArray|
          invariant forall k :: 1 <= k < i ==> lookup.glyphId(cmap, characterArray[k]) != 0
        {
          if lookup.glyphId(cmap, characterArray[i]) == 0 {
            return Some(notFoundGlyphId);
          }
          i := i + 1;
        }
      }
      glyphId := Some(lookup.glyphId(cmap, innerFontCid));
    }

    /**
     * The width of a character in the font program: -1 when there are no
     * entries or no subtable yields a glyph id above 0; an out-of-bounds read
     * when the search faults; otherwise the outcome of reading the width of
     * the glyph that the first such subtable yields, with an unreadable table
     * caught as a GlyphException.
     */
    method GetFontProgramWidth(cid: int, lookup: GlyphLookup) returns (r: Result<real, WidthFailure>)
      requires Valid()
      requires cmapEncodingEntries.Some? ==>
        var search := FirstGlyphId(trueTypeFont, lookup, cid, cmapEncodingEntries.value);
        search.Found? ==> DivisionDefined(ttFont.value, search.glyphId)
      ensures cmapEncodingEntries.None? ==> r == Ok(-1.0)
      ensures cmapEncodingEntries.Some? ==>
        match FirstGlyphId(trueTypeFont, lookup, cid, cmapEncodingEntries.value)
        case NotFound => r == Ok(-1.0)
        case Faulted => r == Err(ArrayIndexOutOfBounds)
        case Found(g) => r == Caught(cid, ReadWidth(ttFont.value, g))
    {
      var result := -1.0;
      if cmapEncodingEntries.Some? {
        var entries := cmapEncodingEntries.value;
        var i := 0;
        while i < |entries|
          invariant 0 <= i <= |entries|
          invariant FirstGlyphId(trueTypeFont, lookup, cid, entries[i..]) == FirstGlyphId(trueTypeFont, lookup, cid, entries)
        {
          var glyphId := ExtractGlyphId(cid, entries[i], lookup);
          if glyphId.None? {
            return Err(ArrayIndexOutOfBounds);
          }
          if glyphId.value > 0 {
            // extractGlyphWidth, with the read failures the enclosing try/catch turns into a GlyphException
            var width := ReadWidth(ttFont.value, glyphId.value);
            return Caught(cid, width);
          }
          assert entries[i..][1..] == entries[i + 1..];
          i := i + 1;
        }
      }
      return Ok(result);
    }
  }
}
