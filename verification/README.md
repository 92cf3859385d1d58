# astm-parser, modelled in Dafny

astm-parser reads ASTM/AAMA pattern drawings (DXF files in which every block
is one size of one garment pattern piece) and turns them into the open
pattern format: per piece, a single pool of vertex coordinates shared by all
sizes, and per size and per ASTM layer a *shape* — a list of run lengths, a
list of indices into the pool, and the layer's TEXT strings.

This project models three parts of it:

- **`PatternPiece`** (`src/lib/PatternPiece.ts`): `createSize` splits a
  block's entities by ASTM layer and runs one builder per layer. The builders
  are the boundary, the internal lines, the point layers, the line layers and
  the annotation text. They grow the piece's vertex pool through
  `_getVertexIndex`, a find-or-append on a flat `[x0, y0, x1, y1, …]` array.
  `_checkBlock` then reports entities on layers the piece does not handle.
  The model is in modules `VertexPool`, `Shapes`, `Layers`, `Builders` and
  `PatternPieces`.
- **The older parser `ASTMParser`** (`src/index.ts`): `_transform` walks the
  blocks, reads each block's `size` and `piece name` from `key: value`
  texts, groups the blocks by name, and builds a boundary and an
  internal-lines shape per block. Its points are scaled by 25.4 and go into
  one pool that the parser instance keeps. It then calls back with the pieces,
  the sorted distinct sizes and the base size. The model is in modules
  `KeyValues` and `LegacyAssembler`.
- **`BBox`** (`src/lib/BBox.ts`): an axis-aligned bounding box. Its
  coordinates are exact extended reals: a real number, the two infinities,
  or NaN, with JavaScript's comparisons and addition without rounding. The
  model is in module `BBox`.

Supporting modules:

- `Strings` models JavaScript `trim`, `toLowerCase` and `indexOf`.
- `Numerals` models the integer reading of `+layer`. A decimal literal is
  rounded to the nearest double, ties to even, as IEEE 754 binary64 does;
  the result is then either an integer or not.
- `Ordering` models JavaScript's default `sort` on the keys' strings, and the
  insertion order of a `Set` or `Map`.
- `Dxf`, `Diagnostics` and `Wrappers` hold the entities, the diagnostics and
  the result type.

Every builder has a reference definition to decode against.
`Shapes.Encodes(shape, pool, runs)` says that the shape's lengths are the run
lengths, and that its indices, resolved in the pool, spell out the runs' points.
Each builder's contract says its shape encodes the runs its layer's entities
describe (`OutlineRuns`, `LineRuns`, `PointRuns`).

Where the code and the written design disagree, the model follows the code:

- The older parser raises no diagnostics.
- It does not reject a block without a piece name: `null` becomes a piece
  name like any other.
- A block without a size is not skipped. `+null` is a number, so the
  `size !== null` guard never fails.
- The base size falls back to 36 when the `sample size` value is missing
  *or empty*.
- On a parse error the callback is called with the error. The code then goes
  on and reads `dxf.blocks`, which throws when no drawing came with the
  error.
- `PatternPiece` matches a builder's layer by string equality with the
  code's decimal form. The older parser and `_checkBlock` compare `+layer`
  numerically, so a layer written `"01"` reaches the older parser's boundary
  but no `PatternPiece` builder.

## Model

| member | source | states |
|---|---|---|
| Layers.CodeRoundTrip | src/lib/interfaces.ts:1-14 | the ASTM layer enum and its numeric codes are in one-to-one correspondence |
| Layers.FilterLayer | src/lib/PatternPiece.ts:91 | `entities.filter(e => e.layer === code.toString())` keeps exactly the entities on the layer, and nothing not in the block |
| Layers.FilterNumeric | src/index.ts:160 | the numeric filter `+entity.layer === code` keeps exactly the entities whose layer reads as that number, rounding to a double included; order and repetitions are stated by `FilterNumericAppend` |
| Layers.FilterLayerAppend | src/lib/PatternPiece.ts:91 | filtering distributes over concatenation, so the block order is kept within a layer |
| Layers.FilterNumericAppend | src/index.ts:160 | the numeric filter distributes over concatenation, so it keeps the block order and every repetition |
| Layers.FilterNumericSnoc | src/index.ts:160 | one more entity joins the numeric filter's result at the end exactly when its layer reads as the code |
| Layers.ForeignEntityIsInvisible | src/lib/PatternPiece.ts:125 | an entity on another layer never reaches a layer's builder |
| Layers.OnLayerIsNumeric | src/index.ts:123 | an entity a `PatternPiece` builder accepts also passes the older parser's numeric test |
| Layers.PaddedLayerIsOnlyNumeric | src/index.ts:123 | the converse fails: layer `"01"` passes `+layer !== 1` but not `layer === "1"` |
| Layers.RoundedLayerIsOnlyNumeric | src/index.ts:160 | layer `"1.0000000000000001"` rounds to 1, so the numeric filter for 1 keeps it, while no builder matches it as the string `"1"` |
| Numerals.NumericValueOfNatToString | src/lib/PatternPiece.ts:65 | `+` reads back every integer up to 2^53 from its decimal form, so every layer code |
| Numerals.NatToStringInjective | src/lib/PatternPiece.ts:91 | distinct codes have distinct decimal forms, so the string filters of two layers are disjoint |
| Numerals.LeadingZeroReadsAsNumber | src/lib/PatternPiece.ts:65 | `+"01"` is 1 although `"01"` is not the string of 1 |
| Numerals.BlanksAreIgnored | src/lib/PatternPiece.ts:65 | `+" 84 "` is 84: unary plus trims blanks |
| Numerals.ZeroFractionReadsAsInteger | src/lib/PatternPiece.ts:65 | `+"1.0"` is the integer 1 |
| Numerals.FractionIsNoInteger | src/lib/PatternPiece.ts:65 | `+"1.5"` matches no integer case of the switch |
| Numerals.ExponentBounds | src/lib/PatternPiece.ts:65 | the binary exponent of a positive fraction `n / d` brackets it between two consecutive powers of two |
| Numerals.RoundingIsNearest | src/lib/PatternPiece.ts:65 | the rounded significand is within half a unit of the exact value, and a tie goes to the even one |
| Numerals.ExactIntegerRounds | src/lib/PatternPiece.ts:65 | a literal whose value is an integer from 1 to 2^53 reads as exactly that integer, however its fraction is written |
| Numerals.FractionBelowPrecisionIsLost | src/lib/PatternPiece.ts:65 | `"1."` followed by fifteen or more zeros and a `1` reads as 1: the fraction is below double precision |
| Numerals.DecimalBelowPrecisionReadsAsInteger | src/lib/PatternPiece.ts:65 | `+"1.0000000000000001"` is 1 |
| Strings.Trim | src/index.ts:207 | `trim` removes exactly the leading and trailing JavaScript whitespace and keeps the middle |
| Strings.TrimIdempotent | src/index.ts:207 | trimming a trimmed value changes nothing |
| Strings.TrimPadded | src/index.ts:207 | a value padded by whitespace trims to exactly the value |
| Strings.ToLower | src/index.ts:109 | `toLowerCase` maps each character and keeps the length |
| Strings.ToLowerIdempotent | src/index.ts:109 | lower-casing twice is lower-casing once |
| Strings.IndexOf | src/index.ts:201 | `indexOf(':')` is -1 exactly when there is no colon, and otherwise is the first colon |
| KeyValues.GetTextKeyValue | src/index.ts:199-209 | no colon gives null; otherwise the key is the colon-free prefix before the first colon, and the value is the trimmed rest |
| KeyValues.KeyValueRoundTrip | src/index.ts:199-209 | `key + ":" + value` reads back as the key and the trimmed value |
| KeyValues.FindKey | src/index.ts:102-114 | null exactly when no TEXT's lower-cased key equals the key; otherwise the value of the first TEXT that matches |
| KeyValues.FindKeyAppend | src/index.ts:103 | `find` stops at the first match: later entities are never consulted |
| KeyValues.KeyCaseIsIgnored | src/index.ts:109 | the text's key is compared lower-cased, so `Size:36` answers to `size` |
| KeyValues.BlankBeforeColonIsNoMatch | src/index.ts:206 | the key is not trimmed, so `size :36` does not answer to `size` |
| KeyValues.CapitalKeyNeverMatches | src/index.ts:109 | a lookup key holding a capital letter matches nothing |
| Diagnostics.LevelRoundTrip | src/lib/Diagnostic.ts:1-5 | INFO, WARNING and ERROR are the levels 1, 2 and 3, one-to-one and in that order |
| VertexPool.Find | src/lib/PatternPiece.ts:52-58 | the scan returns the first pair equal to the vertex, or reports that there is none |
| VertexPool.Intern | src/lib/PatternPiece.ts:48-61 | the returned index reads back the vertex; the pool is unchanged when the vertex is present, and otherwise grows by exactly that pair; the pool stays duplicate-free |
| VertexPool.GetVertexIndex | src/lib/PatternPiece.ts:48-61 | the loop finds or appends as above; the pool is unchanged exactly when it already held the vertex |
| VertexPool.InternTwice | src/lib/PatternPiece.ts:48-61 | interning the same vertex again changes nothing and returns the same index |
| VertexPool.InternSeparates | src/lib/PatternPiece.ts:48-61 | in a duplicate-free pool, two vertices share an index exactly when they are equal |
| VertexPool.InternAll | src/lib/PatternPiece.ts:95-97 | interning a vertex list gives one index per vertex, each reading back its vertex, and the pool only grows |
| VertexPool.InternAllResolves | src/lib/PatternPiece.ts:95-97 | resolving the returned indices in the new pool gives back the vertex list |
| VertexPool.ResolveStable | src/lib/PatternPiece.ts:59 | the pool is only appended to, so indices handed out earlier keep their meaning |
| VertexPool.ExtendsTransitive | src/lib/PatternPiece.ts:33-41 | pools threaded through several builders still extend the first one |
| Shapes.SumOfLengths | src/lib/PatternPiece.ts:94-96 | the run lengths add up to the number of points in the runs, so a shape's lengths account for all of its indices |
| Shapes.EncodesStable | src/lib/PatternPiece.ts:33-41 | a shape stays decodable after later builders grow the pool |
| Shapes.AppendRun | src/lib/PatternPiece.ts:94-97 | pushing one run's length and indices extends what the shape decodes to by that run |
| Builders.OutlineShape | src/lib/PatternPiece.ts:89-201 | `_createBoundery` and `_createInternalShapes`: the shape decodes to the layer's POLYLINE and LINE point lists in block order, with its TEXTs as metadata; the boundary skips other entities without a diagnostic, while the internal lines raise one warning per other entity, in block order |
| Builders.LineShape | src/lib/PatternPiece.ts:122-147 | `_createLines` throws exactly when a LINE has fewer than two points; otherwise the shape decodes to the first two points of each LINE, with TEXTs as metadata; it warns on every LINE whose point count is not 2 and on every other entity |
| Builders.LineShapeRunsOfTwo | src/lib/PatternPiece.ts:131 | every run of a lines shape has length 2 |
| Builders.LineRunsArePairs | src/lib/PatternPiece.ts:131-133 | with every LINE intact, each reference run holds two points |
| Builders.PointShape | src/lib/PatternPiece.ts:149-169 | `_createPoints`: one run of length 1 per POINT, decoding to the POINT positions in order; TEXTs as metadata; one warning per other entity |
| Builders.PointRunsArePositions | src/lib/PatternPiece.ts:153-156 | the point runs, flattened, are exactly the POINT positions |
| Builders.AnnotationOf | src/lib/PatternPiece.ts:203-215 | `_createText`: null exactly when the layer has no TEXT, otherwise the last TEXT; one warning per non-TEXT entity |
| Builders.OutlineWarnings | src/lib/PatternPiece.ts:171-201 | the boundary builder raises nothing; the internal-lines builder raises exactly one "Unexpected type in internal shape" warning per entity that is neither POLYLINE, LINE nor TEXT, in block order |
| Builders.LineShapeWarnings | src/lib/PatternPiece.ts:122-147 | when it does not throw, the lines builder raises exactly one warning per LINE of other than two points (about its vertices) and per entity that is neither LINE nor TEXT, in block order |
| Builders.PointShapeWarnings | src/lib/PatternPiece.ts:149-169 | the points builder raises exactly one "expected points" warning naming the layer per entity that is neither POINT nor TEXT, in block order |
| Builders.AnnotationWarnings | src/lib/PatternPiece.ts:203-215 | the annotation builder raises exactly one warning naming the layer per entity that is not a TEXT, in block order |
| Dxf.TypeNameIdentifiesKind | src/lib/PatternPiece.ts:92 | the `type` the builders switch on tells TEXT, LINE, POLYLINE and POINT apart from each other and from every other kind |
| PatternPieces.CheckBlock | src/lib/PatternPiece.ts:63-87 | one INFO per entity whose numeric layer is none of the ten handled codes, in block order, with the message naming the layer |
| PatternPieces.SwitchIsSilentOnQuietLayers | src/lib/PatternPiece.ts:65-76 | the switch is silent exactly for layers 1 to 8, 13 and 15 |
| PatternPieces.LegacyBoundaryIsNamed | src/lib/PatternPiece.ts:77-79 | an entity on layer 84 draws one INFO naming "ASTM Boundery" |
| PatternPieces.CheckBlockAppend | src/lib/PatternPiece.ts:64 | the check reports entity by entity, in block order |
| PatternPieces.RoundedLayerIsQuiet | src/lib/PatternPiece.ts:65-76 | an entity on layer `"1.0000000000000001"` reaches the silent boundary case and draws no message |
| PatternPieces.NewPieceInvariant | src/lib/PatternPiece.ts:13-28 | a new piece carries the given name and already satisfies the piece invariant |
| PatternPieces.RunStages | src/lib/PatternPiece.ts:33-41 | the nine builders run in the source's order, threading the pool; each shape decodes, against the final pool, to its layer's geometry and carries its layer's TEXTs; each stage raises exactly one warning per entity of its layer it has no use for |
| PatternPieces.CreateSizeThrowsOnShortLines | src/lib/PatternPiece.ts:128-133 | `createSize` throws exactly when a LINE on the grain, grade-reference or mirror layer has fewer than two points |
| PatternPieces.CreateSizeWritesOneSize | src/lib/PatternPiece.ts:30-46 | `createSize` writes `size` in all ten maps, keeps every other size and the name, and only appends to the pool |
| PatternPieces.CreateSizeDecodes | src/lib/PatternPiece.ts:33-41 | every shape stored for the size decodes, against the new pool, to the geometry of its own layer, and carries that layer's TEXTs as metadata |
| PatternPieces.CreateSizePreservesInvariant | src/lib/PatternPiece.ts:30-46 | the pool stays duplicate-free, every stored shape of every size keeps referring into it, and the ten maps keep one set of sizes |
| PatternPieces.CreateSizeAnnotation | src/lib/PatternPiece.ts:42 | the stored annotation is null when the annotation layer has no TEXT, and otherwise its last TEXT |
| PatternPieces.StagesWarnOnly | src/lib/PatternPiece.ts:122-169 | the builders raise warnings only |
| PatternPieces.CreateSizeDiagnostics | src/lib/PatternPiece.ts:30-46 | the diagnostics are, in order: one warning per stray entity of the internal-lines layer, of each point layer and of the drill holes, one per LINE of other than two points or stray entity of each line layer, one per non-TEXT of the annotation layer, then the block check's INFOs; nothing is an ERROR |
| PatternPieces.SplitIgnoresForeignEntity | src/lib/PatternPiece.ts:33-42 | an entity on no handled layer reaches no builder |
| PatternPieces.CreateSizeIgnoresForeignEntity | src/lib/PatternPiece.ts:30-46 | adding an entity on no handled layer leaves the piece exactly as it was, and only adds the block check's note on it |
| LegacyAssembler.ScaleEntity | src/index.ts:88-89 | scaling changes only the points of LINEs and POLYLINEs; types, layers and texts are kept |
| LegacyAssembler.ScaledTexts | src/index.ts:139-145 | scaling leaves the TEXT metadata alone |
| LegacyAssembler.ScaledPointCount | src/index.ts:88-89 | scaling neither adds nor removes points |
| LegacyAssembler.OutlinePointCount | src/index.ts:86 | the points an outline builder interns are the points of the LINEs and POLYLINEs numerically on its layer |
| LegacyAssembler.BlockBoundary | src/index.ts:116-152 | the older `_createBoundery`: entities whose `+layer` is 1, scaled; its shape decodes to their point lists, with TEXTs as metadata; one index per point |
| LegacyAssembler.BlockInternals | src/index.ts:154-188 | the older `_createInternalShapes`: the same for `+layer` 8 |
| LegacyAssembler.Place | src/index.ts:63-69 | `pieceMap.get`/`set`: a new name is listed last and a known name keeps its place |
| LegacyAssembler.PlaceStores | src/index.ts:63-69 | the named piece is created or updated, with the two shapes stored under the key; every other name's piece is untouched |
| LegacyAssembler.PlaceNew | src/index.ts:64-66 | an unseen name gets a fresh piece holding just this key |
| LegacyAssembler.PlaceExisting | src/index.ts:68-69 | a known name has this key of its piece overwritten in place |
| LegacyAssembler.PlaceKeepsKey | src/index.ts:68-69 | other names, and other keys of the same name, keep what they held |
| LegacyAssembler.AddBlock | src/index.ts:51-70 | one block adds its size to the size set and its name to the piece map if new, and makes one `_getVertexIndex` call per point it builds |
| LegacyAssembler.AddBlockStores | src/index.ts:68-69 | the block's piece now holds, under the block's size key, the block's boundary and internal lines, decoding against the grown pool |
| LegacyAssembler.AddBlockKeepsOthers | src/index.ts:63-69 | a block leaves the other pieces alone, and the other sizes of its own piece |
| LegacyAssembler.AddBlockKeepsCoherent | src/index.ts:51-70 | the pool stays duplicate-free, piece names and sizes stay distinct, and every piece refers into the pool |
| LegacyAssembler.Assemble | src/index.ts:51-70 | the walk over the blocks only appends to the pool and counts one call per point |
| LegacyAssembler.AssembleCoherent | src/index.ts:51-70 | the invariant holds after all blocks |
| LegacyAssembler.AssembleNamesFirstSeen | src/index.ts:59-67 | the pieces are the blocks' names once each, in order of first appearance |
| LegacyAssembler.AssembleSizesFirstSeen | src/index.ts:54-57 | the size set holds the blocks' sizes once each, in order of first appearance |
| LegacyAssembler.LastBlockWins | src/index.ts:68-69 | a piece's shapes at a size are those of the last block with that name and size key |
| LegacyAssembler.Transform | src/index.ts:43-83 | with an error, the callback first gets the error alone; with a drawing, the last call carries the same error and a format; without a drawing it throws |
| LegacyAssembler.TransformFormat | src/index.ts:77-82 | the format lists the pieces in order of first appearance, and each size once, sorted by its string; every shape refers into the parser's pool, which stays duplicate-free; `count` grows by one per point read |
| LegacyAssembler.BaseSizeDefaults | src/index.ts:72-73 | the base size is 36 when `sample size` is absent or empty, and otherwise the number of the first one's value |
| LegacyAssembler.MissingSizeIsStillASize | src/index.ts:54-57 | a block without a size key is stored under `+null`, not skipped |
| LegacyAssembler.PoolOutlivesParse | src/index.ts:31-32 | the pool belongs to the parser: parsing a second drawing extends the first drawing's pool |
| Ordering.SortByKey | src/index.ts:80 | `sort()` with no comparator returns a permutation ordered by the elements' strings |
| Ordering.TenSortsBeforeTwo | src/index.ts:80 | the sizes are ordered as strings, so 10 comes before 2 |
| Ordering.LexLeTotal | src/index.ts:80 | the string order compares every pair |
| Ordering.LexLeTransitive | src/index.ts:80 | the string order is transitive |
| Ordering.LexLeAntisymmetric | src/index.ts:80 | strings ordered both ways are equal |
| Ordering.InsertSorted | src/index.ts:80 | inserting into a sorted list keeps it sorted |
| Ordering.PermutationKeepsDistinct | src/index.ts:80 | sorting the distinct sizes keeps them distinct |
| Ordering.DedupSpec | src/index.ts:49-57 | a `Set` built by `add` holds each added value once, and only added values |
| Ordering.DedupFirstSeen | src/index.ts:79-80 | `Array.from` of the `Set` lists its values in order of first insertion |
| BBox.Empty | src/lib/BBox.ts:6-9 | `new BBox()` contains no point at all |
| BBox.AddToBox | src/lib/BBox.ts:19-28 | the grown box contains the point and everything the old box held; it equals the old box exactly when the point was already inside; no corner moves inward; a NaN coordinate leaves that axis unchanged |
| BBox.BoxOfIsHull | src/lib/BBox.ts:19-28 | the box built from a list of points contains them all, and each of its four sides is reached by one of them |
| BBox.SinglePoint | src/lib/BBox.ts:11-17 | the box of a single point is that point, with width and height 0 |
| BBox.HullExtent | src/lib/BBox.ts:11-17 | the box of finitely many finite points has a finite, non-negative width and height |
| BBox.AddToBoxIdempotent | src/lib/BBox.ts:19-28 | adding the same point twice is adding it once |
| BBox.AddToBoxCommutes | src/lib/BBox.ts:19-28 | the order in which points are added does not matter |
| BBox.MergeEmptyIsWholePlane | src/lib/BBox.ts:30-34 | `merge` as written: merging an empty box makes the box the whole plane |
| BBox.MergeBoxes | src/lib/BBox.ts:30-34 | the corrected merge of two well-formed boxes is well-formed and contains both boxes |
| BBox.MergeBoxesEmpty | src/lib/BBox.ts:30-34 | the empty box is neutral on both sides of the corrected merge |
| BBox.MergeAgreesOnProperBoxes | src/lib/BBox.ts:30-34 | on a non-empty box, the corrected merge and `merge` as written agree |
| BBox.MergeBoxesOfHulls | src/lib/BBox.ts:30-34 | merging the boxes of two point lists gives the box of both lists |
| BBox.MergeSelf | src/lib/BBox.ts:24-32 | `b.merge(b)`: the second corner read is the max the first `addToBox` moved; the result holds the box and that corner |
| BBox.MergeSelfEmpty | src/lib/BBox.ts:31-32 | a fresh box merged with itself ends with both corners at (+∞, +∞), unlike a distinct fresh box, which makes the whole plane |
| BBox.MergeSelfProper | src/lib/BBox.ts:31-32 | a box holding a point is unchanged by merging with itself, as by merging with a distinct copy |
| BBox.TranslateZero | src/lib/BBox.ts:36-41 | translating by zero changes nothing |
| BBox.TranslateInverse | src/lib/BBox.ts:36-41 | translating by an offset and then by its negation gives back the box |
| BBox.TranslateKeepsExtent | src/lib/BBox.ts:36-41 | translation keeps the width and height of a finite box |
| BBox.TranslateHull | src/lib/BBox.ts:36-41 | translating the box of some points gives the box of the translated points |

## Left out

- The DXF tokeniser and `parseStream` are not part of this model. Their
  stream, their `try`/`catch` and their `console.log` belong to the DXF
  library; a parsed drawing and a parse error are parameters of `Transform`.
- The SVG renderer, the CLI packages and `Point.transform` are not part of
  this model, and neither is `BBox.transformed`, which multiplies by a
  floating-point matrix.
- `console.warn` in the older `_createInternalShapes` is a no-op here: it
  only writes to the console.
- The pool's coordinates are exact reals. `===` on doubles is equality,
  except that a NaN point never equals itself and so is appended again; NaN
  and `-0` coordinates in the pool are not modelled.
- Conversion: the scaling by 25.4, unary plus on a size string and the
  property key `String(n)` are function parameters. Rounding and the number
  syntax they involve are not modelled.
- Numerals.NumericValue: it reads decimal literals only, `digits`,
  `digits.`, `.digits` or `digits.digits` with an optional sign, rounded to
  the nearest double. The exponent form (`1e2`), the hexadecimal, binary
  and octal forms and the word `Infinity` are read as "no integer", though
  `+` reads some of them as integers. The ASTM layer codes are plain
  decimal integers. `-0` reads as the integer 0.
- Strings.ToLower: it maps only ASCII capitals; other Unicode case
  mappings are not modelled.
- Ordering.SortByKey: it compares strings by character code. For sizes,
  which are decimal numbers, that is JavaScript's UTF-16 order.
- `Object.keys(dxf.blocks)` order is taken as the order of the blocks list.
  JavaScript lists integer-like block names first; the model does not.
- The state of a piece or parser after an exception is not modelled: a
  thrown `createSize` or `_transform` is a `Thrown` result.
- `_createText` keeps the whole TEXT entity minus three fields. The model
  keeps only its text, and the other fields of a DXF TEXT are not modelled.
- A shape's `metadata.astm` is created on the first TEXT. The model keeps
  the TEXT list, which is empty where the source has no `astm` field.
- `addToBox(x, y)` with two numbers is not modelled separately: it does the
  same as `addToBox` of the point `(x, y)`. A call with a number and no
  `y` compares with `undefined`, so only the x axis changes.
- BBox.Merge: it treats `this` and `other` as two distinct boxes. The call
  `b.merge(b)`, where both corners alias, is `MergeSelf`; two boxes that
  share one `Point` object are not modelled.
- BBox.HullExtent: the box arithmetic is exact, so the width and height are
  finite. With doubles, points at ±1e308 give an infinite width.
- BBox.TranslateInverse: holds for exact reals only. With doubles, `+=`
  rounds, and 0.1 + 0.2 − 0.2 is not 0.1.
- BBox.TranslateKeepsExtent: holds for exact reals only. With doubles,
  rounding in `+=` and in the subtraction of `width`/`height` can change the
  extent.
- `BBox`: rounding and overflow of doubles in `translate`, `width` and
  `height` are not modelled; the coordinates are exact extended reals.
- LegacyAssembler.Transform: the format's `vertices` is the parser's own
  array, not a copy. A later parse by the same parser appends to a format
  already handed to the callback. The model hands out a value, so it does not
  show that aliasing; `PoolOutlivesParse` states only that the second pool
  extends the first.
- LegacyAssembler.BlockNames: its contract states only the length. The
  name-by-name content is stated where it is used, in
  `AssembleNamesFirstSeen`.
- LegacyAssembler.BlockSizes: the same, with `AssembleSizesFirstSeen`.

## Findings

| source | as written | input that shows it | evidently intended | confidence | as-written member | corrected member |
|---|---|---|---|---|---|---|
| src/lib/BBox.ts:30-34 | `merge` adds the other box's `min` and `max` corners as points | merging `new BBox()`, whose corners are (+∞, +∞) and (−∞, −∞), into any box | merging an empty box leaves the box unchanged; the result contains exactly the union's hull | not executed | BBox.MergeEmptyIsWholePlane | BBox.MergeBoxes |

`BBox.MergeEmptyIsWholePlane` shows that merging an empty box with `merge`
as written turns any box into the whole plane. `BBox.MergeBoxes` merges
corner-wise: the lower of the minima and the higher of the maxima.
`BBox.MergeBoxesEmpty` proves that the empty box is neutral in it, and
`BBox.MergeBoxesOfHulls` proves that it turns the boxes of two point lists
into the box of both. `BBox.MergeAgreesOnProperBoxes` shows that the two
agree whenever the merged box is not empty.
