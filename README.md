# PDFBox page rendering and preflight font widths, in Dafny

This project models three classes of Apache PDFBox.

- **`PageDrawer`** renders a page onto an AWT `Graphics2D`. It handles:
  - the path operators, and painting paths while caching the clip;
  - text, including the text clip of the clip rendering modes and the choice of a glyph-outline source (`Glyph2D`) for each font class;
  - images and shadings;
  - transparency groups and soft masks, drawn through an offscreen buffer;
  - the placement of annotation appearances (section 12.5.5 of ISO 32000-1).
- **`TrueTypeContainer`** (preflight) orders the `cmap` subtables of a simple TrueType font. It then looks up a character's width through the first subtable that gives a glyph id.
- **`CIDType2Container`** (preflight) maps a CID to a glyph index through the CIDToGIDMap. It then reads the glyph's width from the `hmtx` table.

### Modules

| module | contents |
|---|---|
| `Wrappers` | `Option` and `Result`. |
| `Geometry` | Affine matrices in PDF's convention, `Then` for composition, the pixel rectangle of a group buffer, and matrix A / AA of the annotation placement with its corner-alignment proofs. |
| `Regions` | Path segments, shapes and AWT `Area`s. `Covered` gives the points an area covers, given the points each shape covers. |
| `Canvases` | The drawing backend as a class that records, in order, every call made on it, and tracks its device transform. |
| `Fonts` | The font classes and the class-by-class choice of a glyph source. |
| `Drawing` | The graphics state and the collaborators the renderer calls (`Env`), plus four kinds of pure rules: which calls paint a path, how the stroke is built, how an image is placed, and how a group or soft mask is built. |
| `PageDrawers` | The classes `PageDrawer` and `TransparencyGroup`. |
| `FontPrograms` | The TrueType tables the width checks read, and the `hmtx` rule. |
| `TrueTypeContainers`, `CIDType2Containers` | The two preflight containers, each a class. |

### How the renderer is specified

Each `PageDrawer` operator is a method. Its specification has two parts:
- what it appends to the backend's recorded calls;
- the renderer's fields after it, as a function of the fields before it (`Snapshot`).

Specification functions (`StrokeOutcome`, `ImageOutcome`, `GlyphsOutcome`, `AnnotationsOutcome`, …) give both parts at once. Lemmas about those functions state the properties.

### Clip identity

The renderer compares clip objects by identity, so that a clip is handed to the backend only when it changed. The model gives every clip object an id (`ClipRef`), and each new intersection gets a fresh id.

### Collaborators

Things the renderer calls but does not define are parameters, bundled in `Env`:
- glyph outlines, Type 3 glyph procedures and nested content streams;
- colour paints and shading paints;
- `transformWidth` and shape bounds;
- transformed bounding-box paths and decoded images.

A nested content stream (`processSubStream`) is given the graphics state, the clip cache and the next clip id it starts with. It is described by its effect:
- the calls it draws;
- how it leaves the clip cache and the text matrices;
- how many clip objects it creates.

### Annotation placement

The model follows the code. The code zeroes AA's translation entries (row 2, columns 0 and 1), not a projective part, and applies that translation to the canvas instead, in whole pixels. The fractional part of the translation is dropped. So the appearance and its clip both land up to one unit (toward zero) away from where AA puts them, and the appearance keeps its place inside the clip.

### Font tables

A font program's `maxp`, `head`, `hhea` and `hmtx` tables are read on first use, and each read can fail on its own. An unreadable table becomes a GlyphException. An out-of-bounds array read is an unchecked exception that escapes the width check; the model returns it as the error `ArrayIndexOutOfBounds`.

## Model

| member | source | states |
|---|---|---|
| `FontPrograms.AdvanceWidth` | preflight/src/main/java/org/apache/pdfbox/preflight/font/container/TrueTypeContainer.java:204-209 | A glyph id below `numberOfHMetrics` has its own advance width. Every other glyph id takes the last long metric's width. |
| `FontPrograms.ScaledAdvance` | preflight/src/main/java/org/apache/pdfbox/preflight/font/container/TrueTypeContainer.java:210 | The width in thousandths of the em: result × unitsPerEm = advance × 1000. |
| `FontPrograms.ClampedGlyphsShareLastWidth` | preflight/src/main/java/org/apache/pdfbox/preflight/font/container/TrueTypeContainer.java:199-209 | Every glyph at or beyond `numberOfHMetrics` has the width of glyph `numberOfHMetrics - 1`. |
| `FontPrograms.Metrics` | preflight/src/main/java/org/apache/pdfbox/preflight/font/container/TrueTypeContainer.java:197-204 | The width computation's tables are all present exactly when `head`, `hhea` and `hmtx` can all be read. |
| `FontPrograms.ReadWidth` | preflight/src/main/java/org/apache/pdfbox/preflight/font/container/TrueTypeContainer.java:195-211 | An unreadable table exactly when one of `head`, `hmtx`, `hhea` cannot be read. An out-of-bounds read exactly when the tables are read but `numberOfHMetrics` is outside 1..length or the glyph id is negative and below it. Otherwise the scaled advance width. |
| `FontPrograms.Caught` | preflight/src/main/java/org/apache/pdfbox/preflight/font/container/TrueTypeContainer.java:143-146 | The `catch (IOException)`: an unreadable table becomes a GlyphException for the code; an out-of-bounds read is not caught; a width passes through. |
| `FontPrograms.MonospacedWidth` | preflight/src/main/java/org/apache/pdfbox/preflight/font/container/CIDType2Container.java:54-66 | With a single long metric (a monospaced font), every readable glyph has the width of metric 0. |
| `TrueTypeContainers.Reordered` | preflight/src/main/java/org/apache/pdfbox/preflight/font/container/TrueTypeContainer.java:89-121 | The list the reordering loop builds. It has as many entries as the font has subtables. |
| `TrueTypeContainers.OrderCMapEntries` | preflight/src/main/java/org/apache/pdfbox/preflight/font/container/TrueTypeContainer.java:89-121 | The loop builds `Reordered(cmaps)`, which is a permutation of the font's subtables. |
| `TrueTypeContainers.ReorderedIsPermutation` | preflight/src/main/java/org/apache/pdfbox/preflight/font/container/TrueTypeContainer.java:89-121 | The reordered list holds exactly the subtables of the font, each as often. |
| `TrueTypeContainers.ReorderedPreferredFirst` | preflight/src/main/java/org/apache/pdfbox/preflight/font/container/TrueTypeContainer.java:95-118 | All WinAnsi (3,1) and MacRoman (1,0) subtables come first. The other subtables follow in their original order. |
| `TrueTypeContainers.ReorderedFirst` | preflight/src/main/java/org/apache/pdfbox/preflight/font/container/TrueTypeContainer.java:58-64 | The first subtable is WinAnsi when the font has one; otherwise it is MacRoman when the font has one. |
| `TrueTypeContainers.ReorderedCount` | preflight/src/main/java/org/apache/pdfbox/preflight/font/container/TrueTypeContainer.java:89-121 | For any predicate, the reordering keeps the number of subtables that satisfy it. |
| `TrueTypeContainers.OneOfEachBeginsWinAnsiMacRoman` | preflight/src/main/java/org/apache/pdfbox/preflight/font/container/TrueTypeContainer.java:61-63 | With exactly one WinAnsi and one MacRoman subtable, the list begins WinAnsi, MacRoman. |
| `TrueTypeContainers.GlyphIdFor` | preflight/src/main/java/org/apache/pdfbox/preflight/font/container/TrueTypeContainer.java:157-193 | The lookup faults (an out-of-bounds read) exactly when a WinAnsi subtable meets an empty Unicode value. |
| `TrueTypeContainers.FirstGlyphId` | preflight/src/main/java/org/apache/pdfbox/preflight/font/container/TrueTypeContainer.java:131-139 | The first subtable that does not miss decides the search. Nothing found: every subtable misses. A glyph id: above 0, from some subtable k after every subtable before k missed. A fault: from some subtable k after every subtable before k missed. |
| `TrueTypeContainers.TrueTypeContainer.constructor` | preflight/src/main/java/org/apache/pdfbox/preflight/font/container/TrueTypeContainer.java:43-47 | Keeps the PDF font. No font program and no entries are set yet. |
| `TrueTypeContainers.TrueTypeContainer.SetTrueTypeFont` | preflight/src/main/java/org/apache/pdfbox/preflight/font/container/TrueTypeContainer.java:49-53 | Installs the program. Entries already set stay as they are; otherwise the entries become those the program gives. |
| `TrueTypeContainers.TrueTypeContainer.InitCMapEncodingEntries` | preflight/src/main/java/org/apache/pdfbox/preflight/font/container/TrueTypeContainer.java:66-87 | Does nothing once the entries are set. Otherwise: unset when the `cmap` table cannot be read, as-is for a symbolic font, reordered for a non-symbolic one. |
| `TrueTypeContainers.TrueTypeContainer.ExtractGlyphId` | preflight/src/main/java/org/apache/pdfbox/preflight/font/container/TrueTypeContainer.java:157-193 | The loop gives `GlyphIdFor`. A non-WinAnsi subtable maps the code itself. A WinAnsi subtable maps the first UTF-16 unit of the code's Unicode value. It gives 0 when there is no Unicode value or when a later unit maps to glyph 0, and faults on an empty value. |
| `TrueTypeContainers.TrueTypeContainer.GetFontProgramWidth` | preflight/src/main/java/org/apache/pdfbox/preflight/font/container/TrueTypeContainer.java:123-147 | -1 without entries or when no subtable gives a glyph. A fault of the search escapes as `ArrayIndexOutOfBounds`. Otherwise it reads the width of the first glyph found, through the `catch` of `Caught`. |
| `CIDType2Containers.CIDType2Container.constructor` | preflight/src/main/java/org/apache/pdfbox/preflight/font/container/CIDType2Container.java:35-41 | No CIDToGIDMap and no font program. |
| `CIDType2Containers.CIDType2Container.GetGlyphIndex` | preflight/src/main/java/org/apache/pdfbox/preflight/font/container/CIDType2Container.java:83-95 | The CID itself without a map. Otherwise the map's glyph index, or -14 when that index is the map's `.notdef` index. |
| `CIDType2Containers.CIDType2Container.GetFontProgramWidthAsWritten` | preflight/src/main/java/org/apache/pdfbox/preflight/font/container/CIDType2Container.java:43-75 | As written: -1 without a font. A GlyphException when `maxp` cannot be read, checked before anything else. Then -1 unless `numGlyphs > glyphIndex`. Otherwise `ReadWidth` under `Caught`. The guard lets negative indices reach the array reads. |
| `CIDType2Containers.CIDType2Container.GetFontProgramWidth` | preflight/src/main/java/org/apache/pdfbox/preflight/font/container/CIDType2Container.java:52 | The corrected check: -1 also for a negative glyph index. `ReadWidth` runs only for 0 <= index < numGlyphs. |
| `CIDType2Containers.CIDType2Container.SetCidToGid` | preflight/src/main/java/org/apache/pdfbox/preflight/font/container/CIDType2Container.java:97-100 | Sets the map and changes nothing else. |
| `CIDType2Containers.CIDType2Container.SetTtf` | preflight/src/main/java/org/apache/pdfbox/preflight/font/container/CIDType2Container.java:102-105 | Sets the font program and changes nothing else. |
| `CIDType2Containers.NotdefSentinelReadsOutOfBounds` | preflight/src/main/java/org/apache/pdfbox/preflight/font/container/CIDType2Container.java:52-66 | A CID mapped to `.notdef` gets index -14, which passes the guard of every font. The as-written check then never gives -1: it escapes with `ArrayIndexOutOfBounds` whenever the metric tables can be read, and with a GlyphException otherwise. |
| `CIDType2Containers.NotdefSentinelHasNoWidth` | preflight/src/main/java/org/apache/pdfbox/preflight/font/container/CIDType2Container.java:89-91 | For a CID mapped to `.notdef`, the corrected check gives -1. |
| `Geometry.ThenApplies` | pdfbox/src/main/java/org/apache/pdfbox/rendering/PageDrawer.java:344-345 | Composition (`concatenate`, `multiply`) applies one matrix after the other. |
| `Geometry.GroupPixelRectCovers` | pdfbox/src/main/java/org/apache/pdfbox/rendering/PageDrawer.java:858-864 | A group buffer is at least 1×1 and covers the bounds. It is the smallest integer rectangle doing so, with the maximum corner strictly inside. |
| `Geometry.GroupPixelRectExample` | pdfbox/src/main/java/org/apache/pdfbox/rendering/PageDrawer.java:858-864 | Bounds [1.2, 9.8]² give origin (1, 1) and size 9×9. |
| `Geometry.MatrixAIsComposition` | pdfbox/src/main/java/org/apache/pdfbox/rendering/PageDrawer.java:219-222 | Matrix A equals translate(-box origin), then scale(rect size / box size), then translate(rect origin). |
| `Geometry.MatrixAAlignsCorners` | pdfbox/src/main/java/org/apache/pdfbox/rendering/PageDrawer.java:214-224 | A sends the box's minimum and maximum corners to the rectangle's. |
| `Geometry.PlacementMapsBBoxCornersOntoRect` | pdfbox/src/main/java/org/apache/pdfbox/rendering/PageDrawer.java:205-228 | Under AA, the appearance's bounding-box corners land on the annotation rectangle's edges. Which edge each corner reaches depends on how the appearance matrix orders the corners. |
| `Geometry.PlacementSplitsTranslation` | pdfbox/src/main/java/org/apache/pdfbox/rendering/PageDrawer.java:233-255 | The placement CTM has no translation, and the canvas moves by the origin cast to int. Each appearance point lands where AA puts it, less the origin's dropped fractional part d. The clip lands on the annotation rectangle shifted by the same d. d is under one unit and points toward zero. |
| `Geometry.Trunc` | pdfbox/src/main/java/org/apache/pdfbox/rendering/PageDrawer.java:252-255 | Java's `(int)` cast: truncation toward zero, within 1 of the value. |
| `Regions.TextClipCoversGlyphs` | pdfbox/src/main/java/org/apache/pdfbox/rendering/PageDrawer.java:395-398 | The buffered text clip covers a point exactly when some added glyph outline covers it. |
| `Canvases.TranslateBackRestores` | pdfbox/src/main/java/org/apache/pdfbox/rendering/PageDrawer.java:252-255 | Translating by whole pixels and back restores the device transform. |
| `Fonts.ChooseGlyph2D` | pdfbox/src/main/java/org/apache/pdfbox/rendering/PageDrawer.java:453-501 | TTF source for TrueType and Type 0/CIDFontType2; Type 1 source for Type 1 and for Type 1C with a CFF program; CID-Type0 source for Type 0/CIDFontType0. No source exactly for Type 1C without CFF and for other descendants; a bad-font-type error exactly for Type 3 and other classes. |
| `Drawing.InitialState` | pdfbox/src/main/java/org/apache/pdfbox/rendering/PageDrawer.java:162 | A page's initial state: the given clip, no soft mask, fill mode. |
| `Drawing.OrWhite` | pdfbox/src/main/java/org/apache/pdfbox/rendering/PageDrawer.java:615-620 | A colour without a paint is painted white; a present paint is kept. |
| `Drawing.ClipCalls` | pdfbox/src/main/java/org/apache/pdfbox/rendering/PageDrawer.java:302-310 | `setClip` makes no call exactly when the clip object was the one handed over last; otherwise it hands over that clip. |
| `Drawing.ClipCallsIdempotent` | pdfbox/src/main/java/org/apache/pdfbox/rendering/PageDrawer.java:302-310 | Handing over the same clip object again makes no call. With nothing handed over yet, the clip is always handed over. |
| `Drawing.ImageTransformPlacesPixels` | pdfbox/src/main/java/org/apache/pdfbox/rendering/PageDrawer.java:759-764 | Pixel (px, py) of a w×h image lands where `at` puts (px/w, 1 - py/h). |
| `Drawing.MaskedImageTransformFlips` | pdfbox/src/main/java/org/apache/pdfbox/rendering/PageDrawer.java:744-746 | Under a soft mask, unit-square point (u, v) lands where `at` puts (u, 1 - v). |
| `Drawing.GroupClip` | pdfbox/src/main/java/org/apache/pdfbox/rendering/PageDrawer.java:847-852 | The current clip, intersected with the group path exactly when there is one. |
| `Drawing.Isolated` | pdfbox/src/main/java/org/apache/pdfbox/rendering/PageDrawer.java:887-891 | Normal blending, both alphas 1, no soft mask; every other part of the state is kept. |
| `Drawing.NewGroup` | pdfbox/src/main/java/org/apache/pdfbox/rendering/PageDrawer.java:839-903 | The group's content runs in the isolated state, entered with the page's clip cache, which is not reset (lines 843, 892-895). The buffer image has the pixel rectangle's size. |
| `Drawing.GroupBufferCoversClip` | pdfbox/src/main/java/org/apache/pdfbox/rendering/PageDrawer.java:847-864 | The buffer is at least 1×1 and covers the device bounds of the group clip. The group clip never reaches outside the current clip. |
| `Drawing.MaskRaster` | pdfbox/src/main/java/org/apache/pdfbox/rendering/PageDrawer.java:528-544 | Alpha or luminosity raster at the buffer's origin (`getAlphaRaster`, `getLuminosityRaster`, lines 925-939). Fails exactly for any other subtype. |
| `Drawing.MaskGroup` | pdfbox/src/main/java/org/apache/pdfbox/rendering/PageDrawer.java:548-550 | A group is built exactly when there is a soft mask. |
| `Drawing.WithSoftMask` | pdfbox/src/main/java/org/apache/pdfbox/rendering/PageDrawer.java:546-556 | Without a mask, the paint is unchanged. With one, it fails exactly when the raster fails, and otherwise wraps the paint with the mask's raster. |
| `Drawing.StrokeOf` | pdfbox/src/main/java/org/apache/pdfbox/rendering/PageDrawer.java:575-608 | The stroke of the state: device width, at least 0.25; cap, join and miter kept; dash lengths in device space, with an empty array meaning solid; the phase truncated in device space only when there is a dash array. |
| `Drawing.DeviceWidths` | pdfbox/src/main/java/org/apache/pdfbox/rendering/PageDrawer.java:594-597 | Each dash length is converted to device space, in place and in order. |
| `Drawing.GlyphOutline` | pdfbox/src/main/java/org/apache/pdfbox/rendering/PageDrawer.java:375-378 | Only a non-Type-3 glyph of a font with a glyph source can add an outline. |
| `Drawing.OutlinesAreTheGlyphs` | pdfbox/src/main/java/org/apache/pdfbox/rendering/PageDrawer.java:395-398 | A shape is in the text clip's outlines exactly when some glyph of the string has it as its outline. |
| `Drawing.TextClipNarrowsToGlyphs` | pdfbox/src/main/java/org/apache/pdfbox/rendering/PageDrawer.java:319-338 | After a clip-mode string, the clip lets a point through exactly when the former clip did and some glyph's outline covers it. |
| `PageDrawers.AfterGroup` | pdfbox/src/main/java/org/apache/pdfbox/rendering/PageDrawer.java:897-902 | Building a group keeps the clip cache, the canvas, the graphics state and stack, the text clip, the glyph cache and the path. |
| `PageDrawers.Intersected` | pdfbox/src/main/java/org/apache/pdfbox/rendering/PageDrawer.java:335 | Intersecting the clip installs a new clip object: the old area intersected with the new one. |
| `PageDrawers.GlyphStrokeOutcome` | pdfbox/src/main/java/org/apache/pdfbox/rendering/PageDrawer.java:387-393 | Stroking a glyph keeps the graphics state, the text clip and the clip cache. |
| `PageDrawers.Type3Outcome` | pdfbox/src/main/java/org/apache/pdfbox/rendering/PageDrawer.java:411-436 | A Type 3 glyph puts back the text matrices, the graphics state and the stack, and never fails. |
| `PageDrawers.GlyphCallKeeps` | pdfbox/src/main/java/org/apache/pdfbox/rendering/PageDrawer.java:341-400 | One glyph keeps the graphics state, stack, canvas, path, pending clip rule and cache invariant. In a clip mode, a successful glyph adds exactly its outline to the text clip. |
| `PageDrawers.GlyphsOutcome` | pdfbox/src/main/java/org/apache/pdfbox/rendering/PageDrawer.java:319-338 | A string keeps the same fields and the cache invariant. Shown without failure from an empty text clip in a clip mode, it leaves the text clip equal to the union of the glyphs' outlines. |
| `PageDrawers.GlyphsOutcomeStops` | pdfbox/src/main/java/org/apache/pdfbox/rendering/PageDrawer.java:330 | Once a glyph of a string fails, the rest of the string draws and changes nothing. |
| `PageDrawers.ChosenAppearance` | pdfbox/src/main/java/org/apache/pdfbox/rendering/PageDrawer.java:168-187 | The normal appearance named by the appearance state, or "default" without a state. None without an appearance dictionary or normal map. |
| `PageDrawers.AnnotationOutcome` | pdfbox/src/main/java/org/apache/pdfbox/rendering/PageDrawer.java:170-256 | An annotation keeps the graphics state, stack, canvas, path, glyph cache and resources. Without a chosen appearance it does nothing. |
| `PageDrawers.AnnotationIgnoresClipCache` | pdfbox/src/main/java/org/apache/pdfbox/rendering/PageDrawer.java:252-254 | The clip cache is forgotten before an appearance runs: what an annotation with an appearance draws, and the fields it leaves, do not depend on the clip last handed over. |
| `PageDrawers.AnnotationsOutcome` | pdfbox/src/main/java/org/apache/pdfbox/rendering/PageDrawer.java:168-258 | The annotation loop keeps the same fields as one annotation does. |
| `PageDrawers.ContentsOutcome` | pdfbox/src/main/java/org/apache/pdfbox/rendering/PageDrawer.java:157-166 | The contents start in the initial state clipped to the crop box, with an empty stack. Without contents nothing is drawn and the resources stay. |
| `PageDrawers.PageDrawer.constructor` | pdfbox/src/main/java/org/apache/pdfbox/rendering/PageDrawer.java:87-115 | No canvas, an empty non-zero path, no pending clip (-1), no clip handed over, no text clip, an empty glyph cache. |
| `PageDrawers.PageDrawer.SetClip` | pdfbox/src/main/java/org/apache/pdfbox/rendering/PageDrawer.java:302-310 | Appends `ClipCalls` and records the current clip object as handed over; nothing else changes. |
| `PageDrawers.PageDrawer.BeginText` | pdfbox/src/main/java/org/apache/pdfbox/rendering/PageDrawer.java:313-316 | Exactly `SetClip`. |
| `PageDrawers.PageDrawer.MoveTo` | pdfbox/src/main/java/org/apache/pdfbox/rendering/PageDrawer.java:673-676 | Appends a move to the path; nothing else changes. |
| `PageDrawers.PageDrawer.LineTo` | pdfbox/src/main/java/org/apache/pdfbox/rendering/PageDrawer.java:679-682 | Appends a line to the path; nothing else changes. |
| `PageDrawers.PageDrawer.CurveTo` | pdfbox/src/main/java/org/apache/pdfbox/rendering/PageDrawer.java:685-688 | Appends a curve to the path; nothing else changes. |
| `PageDrawers.PageDrawer.ClosePath` | pdfbox/src/main/java/org/apache/pdfbox/rendering/PageDrawer.java:697-700 | Appends a close to the path; nothing else changes. |
| `PageDrawers.PageDrawer.AppendRectangle` | pdfbox/src/main/java/org/apache/pdfbox/rendering/PageDrawer.java:507-519 | Appends move p0, lines to p1, p2, p3 and a close, with no edge back to p0. Winding rule and everything else kept. |
| `PageDrawers.PageDrawer.Clip` | pdfbox/src/main/java/org/apache/pdfbox/rendering/PageDrawer.java:666-670 | Only records the pending winding rule. |
| `PageDrawers.PageDrawer.EndPath` | pdfbox/src/main/java/org/apache/pdfbox/rendering/PageDrawer.java:703-712 | With a pending rule, it intersects the path under that rule into a new clip object and clears the rule. The path is always emptied. |
| `PageDrawers.PageDrawer.FillPath` | pdfbox/src/main/java/org/apache/pdfbox/rendering/PageDrawer.java:630-646 | Composite, paint or white, antialiasing off, clip calls, fill under the rule. The path is emptied with that rule and any pending clip stays pending. |
| `PageDrawers.PageDrawer.StrokePath` | pdfbox/src/main/java/org/apache/pdfbox/rendering/PageDrawer.java:611-627 | The calls and fields of `StrokeOutcome`: the composite, then either the soft-mask failure, or paint or white, stroke, antialiasing off, clip calls and draw, with the path emptied. |
| `PageDrawers.PageDrawer.DrawStrokedPath` | pdfbox/src/main/java/org/apache/pdfbox/rendering/PageDrawer.java:615-626 | Once the paint is known: paint or white, stroke, hint, clip calls, draw; the path is emptied. |
| `PageDrawers.PageDrawer.FillAndStrokePath` | pdfbox/src/main/java/org/apache/pdfbox/rendering/PageDrawer.java:656-663 | Fill calls, then the stroke of the same path. When the stroke succeeds, the last call draws the original path and the path ends empty. |
| `PageDrawers.PageDrawer.GetStroke` | pdfbox/src/main/java/org/apache/pdfbox/rendering/PageDrawer.java:575-608 | The loop over a copy of the dash array gives `StrokeOf` of the current state. |
| `PageDrawers.PageDrawer.GetStrokingPaint` | pdfbox/src/main/java/org/apache/pdfbox/rendering/PageDrawer.java:559-565 | The stroking colour's paint with the soft mask applied; the fields are left as after the mask's group. |
| `PageDrawers.PageDrawer.GetNonStrokingPaint` | pdfbox/src/main/java/org/apache/pdfbox/rendering/PageDrawer.java:568-572 | The non-stroking colour's paint, with no soft mask. |
| `PageDrawers.PageDrawer.ApplySoftMaskToPaint` | pdfbox/src/main/java/org/apache/pdfbox/rendering/PageDrawer.java:546-556 | `WithSoftMask` of the paint and the mask's group; the fields are left as after that group. |
| `PageDrawers.PageDrawer.CreateSoftMaskRaster` | pdfbox/src/main/java/org/apache/pdfbox/rendering/PageDrawer.java:528-544 | The group is built first (even for a bad subtype), then `MaskRaster` of it. |
| `PageDrawers.PageDrawer.ShadingFill` | pdfbox/src/main/java/org/apache/pdfbox/rendering/PageDrawer.java:769-781 | Composite, shading paint under the CTM, antialiasing off, backend clip cleared, fill of the clip area. The clip cache is forgotten. |
| `PageDrawers.PageDrawer.DrawImage` | pdfbox/src/main/java/org/apache/pdfbox/rendering/PageDrawer.java:714-735 | `ImageOutcome` with the CTM, for the stencil image filled with the non-stroking paint or for the decoded image. |
| `PageDrawers.PageDrawer.DrawBufferedImage` | pdfbox/src/main/java/org/apache/pdfbox/rendering/PageDrawer.java:737-766 | `ImageOutcome`: composite and clip calls, then either a masked texture fill of the unit square or `drawImage` with the pixel-to-unit-square transform. |
| `PageDrawers.PageDrawer.FillMaskedImage` | pdfbox/src/main/java/org/apache/pdfbox/rendering/PageDrawer.java:744-755 | The image as a texture anchored by the flipped transform, with the soft mask applied. Then the paint, nearest-neighbour interpolation and a fill of the unit square under `at`, or nothing after a mask failure. The fields are left as after the mask's group. |
| `PageDrawers.PageDrawer.ShowTransparencyGroup` | pdfbox/src/main/java/org/apache/pdfbox/rendering/PageDrawer.java:784-788 | Builds the form's group. It then draws the buffer with the group matrix in a saved state, or draws nothing when the matrix is not invertible. |
| `PageDrawers.PageDrawer.CreateTransparencyGroup` | pdfbox/src/main/java/org/apache/pdfbox/rendering/PageDrawer.java:790-817 | The group is `FormGroup`: the form's matrix applied first, its own or the current resources, the bounding-box path. The fields are left as `AfterGroup`. |
| `PageDrawers.PageDrawer.RunIsolated` | pdfbox/src/main/java/org/apache/pdfbox/rendering/PageDrawer.java:887-902 | The content's calls go to the buffer canvas in the isolated state. The page canvas and the clip cache are put back. |
| `PageDrawers.PageDrawer.ShowText` | pdfbox/src/main/java/org/apache/pdfbox/rendering/PageDrawer.java:319-338 | `GlyphsOutcome` from a fresh empty text clip in a clip mode. After a successful clip-mode string, the clip is the old clip intersected once with the union of the outlines, and the text clip is cleared. |
| `PageDrawers.PageDrawer.ShowGlyphs` | pdfbox/src/main/java/org/apache/pdfbox/rendering/PageDrawer.java:330 | The loop shows glyphs in order, stops at the first failure, and gives `GlyphsOutcome`. |
| `PageDrawers.PageDrawer.ShowGlyph` | pdfbox/src/main/java/org/apache/pdfbox/rendering/PageDrawer.java:341-358 | `GlyphCallOutcome`: a Type 3 glyph runs its procedure; any other glyph is drawn from its chosen outline source. |
| `PageDrawers.PageDrawer.ShowVectorGlyph` | pdfbox/src/main/java/org/apache/pdfbox/rendering/PageDrawer.java:355-356 | `VectorGlyphOutcome`: create or reuse the glyph source, then draw. |
| `PageDrawers.PageDrawer.DrawGlyph2D` | pdfbox/src/main/java/org/apache/pdfbox/rendering/PageDrawer.java:368-400 | `GlyphOutcome`: antialiasing on; for an outline, fill, stroke, and add to the text clip as the mode says. There is no white substitution and no clip call. |
| `PageDrawers.PageDrawer.FillGlyph` | pdfbox/src/main/java/org/apache/pdfbox/rendering/PageDrawer.java:380-385 | In a fill mode: composite, non-stroking paint, fill. |
| `PageDrawers.PageDrawer.StrokeGlyph` | pdfbox/src/main/java/org/apache/pdfbox/rendering/PageDrawer.java:387-393 | In a stroke mode: composite, stroking paint (masked), stroke, draw. |
| `PageDrawers.PageDrawer.DrawType3String` | pdfbox/src/main/java/org/apache/pdfbox/rendering/PageDrawer.java:411-436 | `Type3Outcome`: the procedure runs with CTM `at` in a saved state, and the text matrices are put back. |
| `PageDrawers.PageDrawer.CreateGlyph2D` | pdfbox/src/main/java/org/apache/pdfbox/rendering/PageDrawer.java:445-504 | A cached source is returned unchanged. Otherwise the chosen source is cached and returned; no source and a bad type each fail and cache nothing. Any result is the one `ChooseGlyph2D` gives. |
| `PageDrawers.PageDrawer.DrawPage` | pdfbox/src/main/java/org/apache/pdfbox/rendering/PageDrawer.java:145-263 | The setup calls and the y-flip of the transform, then `ContentsOutcome`, then `AnnotationsOutcome`. The canvas is released at the end. |
| `PageDrawers.PageDrawer.DrawContents` | pdfbox/src/main/java/org/apache/pdfbox/rendering/PageDrawer.java:157-166 | `ContentsOutcome`: a new stream state, then the contents when present. |
| `PageDrawers.PageDrawer.DrawAnnotations` | pdfbox/src/main/java/org/apache/pdfbox/rendering/PageDrawer.java:168-258 | The loop gives `AnnotationsOutcome` and keeps the canvas transform. |
| `PageDrawers.PageDrawer.InitStream` | pdfbox/src/main/java/org/apache/pdfbox/rendering/PageDrawer.java:165 | A new initial state clipped to the crop box (a new clip object) and an empty stack. |
| `PageDrawers.PageDrawer.DrawAnnotation` | pdfbox/src/main/java/org/apache/pdfbox/rendering/PageDrawer.java:170-256 | `AnnotationOutcome` of the annotation. |
| `PageDrawers.PageDrawer.DrawAppearance` | pdfbox/src/main/java/org/apache/pdfbox/rendering/PageDrawer.java:186-257 | In a saved state: the placement CTM, the clip narrowed to the rectangle, then `RunTranslated` by the whole-pixel origin, then the state restored. |
| `PageDrawers.PageDrawer.RunTranslated` | pdfbox/src/main/java/org/apache/pdfbox/rendering/PageDrawer.java:252-255 | Translate, forget the clip cache, run (entered with no clip cache), translate back. The device transform ends as it began. |
| `PageDrawers.TransparencyGroup.constructor` | pdfbox/src/main/java/org/apache/pdfbox/rendering/PageDrawer.java:839-903 | The group equals `NewGroup`: buffer around the device bounds of the group clip, matrix from the inverse of the buffer transform, content in the isolated state. The canvas and clip cache are put back; the state stays isolated. |
| `PageDrawers.TransparencyGroup.GroupCanvas` | pdfbox/src/main/java/org/apache/pdfbox/rendering/PageDrawer.java:866-869 | A fresh buffer canvas: translated to the buffer, given the page's transform, clipped to the group clip. |
| `PageDrawers.TransparencyGroup.Draw` | pdfbox/src/main/java/org/apache/pdfbox/rendering/PageDrawer.java:915-923 | Without a matrix, nothing. Otherwise the buffer is drawn with the matrix in a saved state, and the stack is restored only when drawing succeeds. |

## Left out

- `PDGraphicsState` and `PDFStreamEngine` internals are not part of this model. Save and restore copy the state onto a stack; each intersection creates a new clip object; the initial graphics state comes from `InitialState`.
- `showText`'s text-matrix advance and the glyph iteration belong to the superclass. A string is given as its sequence of glyph calls (text rendering matrix, font, code).
- Nested content streams: they are assumed to leave the path, the pending clip rule, the glyph cache, the text clip, the graphics state and the stack as they found them.
- Floating point: all arithmetic is on reals. Java's float rounding and NaN are not modelled. `(int)` is truncation toward zero, without Java's saturation at the int range.
- `PageDrawers.PageDrawer.DrawPage`: requires every annotation's chosen appearance to have a transformed bounding box of non-zero width and height. Otherwise the source divides by zero in floating point (infinities), which the model does not represent.
- `PageDrawers.PageDrawer.DrawAnnotations`: requires, for the same reason, every annotation's chosen appearance to have a transformed bounding box of non-zero width and height.
- `PageDrawers.PageDrawer.DrawAnnotation`: requires the same of its annotation's chosen appearance, for the same reason.
- `PageDrawers.PageDrawer.DrawAppearance`: requires the same of its appearance, for the same reason.
- `PageDrawers.AnnotationOutcome`: requires the same of its annotation's chosen appearance, for the same reason.
- `PageDrawers.AnnotationsOutcome`: requires the same of every annotation's chosen appearance, for the same reason.
- `Geometry.PlacementSplitsTranslation`: requires the same of the appearance, for the same reason.
- `FontPrograms.ScaledAdvance`: requires `unitsPerEm != 0`. Java's float division by zero gives an infinity or NaN, which the model does not represent.
- `FontPrograms.ReadWidth`: requires `unitsPerEm != 0` whenever the reads reach the division, for the same reason.
- `TrueTypeContainers.TrueTypeContainer.GetFontProgramWidth`: requires `unitsPerEm != 0` when the search finds a glyph whose reads reach the division, for the same reason.
- `CIDType2Containers.CIDType2Container.GetFontProgramWidthAsWritten`: requires `unitsPerEm != 0` when the guard passes and the reads reach the division, for the same reason.
- `CIDType2Containers.CIDType2Container.GetFontProgramWidth`: requires `unitsPerEm != 0` when the guard passes and the reads reach the division, for the same reason.
- `BasicStroke`'s own argument checks (negative widths) are not modelled. `getDashArray` is assumed to return a copy, as `GetStroke` does.
- `drawTilingPattern` and `getCurrentPoint` are not modelled; neither is logging.
- The null-pointer exception when a shading name is missing from the resources is not modelled: the shading paint is a parameter.
- The font classes are disjoint kinds. Whether `PDType1CFont` is also a `PDType1Font` (which would make its branch unreachable) is not part of this model.
- What the backend paints is not modelled: AWT rendering, rasters of group buffers and `SoftMaskPaint` pixels. Calls are recorded, and a group buffer records the calls drawn into it.
- An exception inside a group's content: the model's nested streams do not fail, so the `finally` restore paths of group creation are not distinguished.
- The `PDFRenderer` and `PDPage` constructor parameters: the page is passed to `DrawPage`, and the renderer only reaches the colour paints, which are parameters.
- The `pageSize` field: it is used only through `(int) pageSize.getHeight()`, which is passed along where paints need it.
- The default glyph list and the `cmap` subtables' code-to-glyph lookups are parameters (`GlyphLookup`).
- Which table read fails first is not distinguished: every failed read is the same `IOException`, caught as the same GlyphException.
- The superclass `FontContainer` (the width check that calls `getFontProgramWidth`, and error bookkeeping) is not part of this model.

## Findings

| source | as written | input that shows it | evidently intended | confidence | as-written member | corrected member |
|---|---|---|---|---|---|---|
| preflight/src/main/java/org/apache/pdfbox/preflight/font/container/CIDType2Container.java:52 | `getGlyphIndex` gives -14 for a CID the CIDToGIDMap sends to `.notdef` (line 91; its comment says -1). The guard `numGlyphs > glyphIndex` lets -14 through, so `advanceGlyphWidths[-14]` is read (line 65) and the unchecked exception escapes the width check. | Any CID mapped to the map's `NOTDEF_GLYPH_INDEX`, in a font whose `numGlyphs` is at least 0 and whose `hhea`, `head` and `hmtx` tables can be read. | A CID without a glyph has no width to check: -1, as for an index at or beyond `numGlyphs`. | not executed | `CIDType2Containers.CIDType2Container.GetFontProgramWidthAsWritten` (with `CIDType2Containers.NotdefSentinelReadsOutOfBounds`) | `CIDType2Containers.CIDType2Container.GetFontProgramWidth` (with `CIDType2Containers.NotdefSentinelHasNoWidth`) |
