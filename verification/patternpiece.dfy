/** A pattern piece: one vertex pool shared by all its sizes and ten maps
    from size to the shape (or annotation) built for that size. */
module PatternPieces {
  import opened Wrappers
  import opened Numerals
  import opened Dxf
  import opened Diagnostics
  import opened Layers
  import opened VertexPool
  import opened Shapes
  import opened Builders

  // ------------------------------------------------------------ block check

  /** The numeric layers the check accepts silently: 1 to 8, 13 and 15. */
  predicate QuietLayer(e: Entity) {
    NumericValue(e.layer) in {Some(1), Some(2), Some(3), Some(4), Some(5), Some(6), Some(7), Some(8), Some(13), Some(15)}
  }

  const AstmBounderyName := "ASTM Boundery"
  const AstmInternalLinesName := "ASTM Internal Lines"

  /** The name the message gives a known but unhandled layer. */
  function UnhandledName(e: Entity): string {
    NameOfValue(NumericValue(e.layer))
  }

  function NameOfValue(v: Option<int>): string {
    match v
    case Some(84) => AstmBounderyName
    case Some(85) => AstmInternalLinesName
    case _ => ""
  }

  function UnhandledMessage(layer: string, name: string): string {
    "Unhandled definition on layer " + layer + ": " + name
  }

  /** Whether `switch (+entity.layer)` in `_checkBlock` reaches the silent
      cases for a layer of numeric value `v`. */
  predicate SwitchIsSilent(v: Option<int>) {
    match v
    case None => false
    case Some(n) =>
      match FromCode(n)
      case None => false
      case Some(l) => Handled(l)
  }

  lemma SwitchIsSilentOnQuietLayers(v: Option<int>)
    ensures SwitchIsSilent(v) <==> v in {Some(1), Some(2), Some(3), Some(4), Some(5), Some(6), Some(7), Some(8), Some(13), Some(15)}
  {
  }

  /** `_checkBlock` for one entity. */
  function CheckEntity(e: Entity): seq<Diagnostic> {
    if SwitchIsSilent(NumericValue(e.layer)) then []
    else [Diagnostic(Info, UnhandledMessage(e.layer, UnhandledName(e)), OfEntity(e))]
  }

  /** The entities the check reports. */
  function Unhandled(es: seq<Entity>): seq<Entity> {
    if |es| == 0 then []
    else
      var e := es[|es| - 1];
      if QuietLayer(e) then Unhandled(es[..|es| - 1]) else Unhandled(es[..|es| - 1]) + [e]
  }

  /** `_checkBlock`: one INFO for every entity whose numeric layer is not a
      handled one, naming the legacy ASTM layers 84 and 85; it never raises a
      warning or an error. */
  function CheckBlock(es: seq<Entity>): (r: seq<Diagnostic>)
    ensures |r| == |Unhandled(es)|
    ensures forall k :: 0 <= k < |r| ==> r[k].severity == Info && r[k].data == OfEntity(Unhandled(es)[k])
    ensures forall k :: 0 <= k < |r| ==>
              r[k].message == UnhandledMessage(Unhandled(es)[k].layer, UnhandledName(Unhandled(es)[k]))
  {
    if |es| == 0 then []
    else
      var e := es[|es| - 1];
      SwitchIsSilentOnQuietLayers(NumericValue(e.layer));
      CheckBlock(es[..|es| - 1]) + CheckEntity(e)
  }

  /** An entity on layer 84 draws exactly one INFO naming the legacy ASTM
      boundary layer. */
  lemma LegacyBoundaryIsNamed(layer: string, e: Entity)
    requires e.layer == layer && NumericValue(layer) == Some(84)
    ensures CheckBlock([e]) == [Diagnostic(Info, UnhandledMessage(layer, AstmBounderyName), OfEntity(e))]
  {
    CheckBlockOne(e);
    CheckEntityOn84(e);
  }

  /** The check reads a layer the way the switch does, rounding included:
      an entity on "1.0000000000000001" is on layer 1 and draws nothing. */
  lemma RoundedLayerIsQuiet(e: Entity)
    requires e.layer == "1.0000000000000001"
    ensures CheckBlock([e]) == []
  {
    DecimalBelowPrecisionReadsAsInteger(e.layer);
    CheckBlockOne(e);
  }

  lemma CheckEntityOn84(e: Entity)
    requires NumericValue(e.layer) == Some(84)
    ensures CheckEntity(e) == [Diagnostic(Info, UnhandledMessage(e.layer, AstmBounderyName), OfEntity(e))]
  {
    assert !SwitchIsSilent(Some(84));
    assert NameOfValue(Some(84)) == AstmBounderyName;
  }

  lemma CheckBlockOne(e: Entity)
    ensures CheckBlock([e]) == CheckEntity(e)
  {
    assert [e][..0] == [];
  }

  // ------------------------------------------------------------ the piece

  datatype PatternPiece = PatternPiece(
    name: string,
    vertices: Pool,
    shapes: map<string, Shape>,
    internalShapes: map<string, Shape>,
    turnPoints: map<string, Shape>,
    curvePoints: map<string, Shape>,
    notches: map<string, Shape>,
    grainLines: map<string, Shape>,
    gradeReferences: map<string, Shape>,
    mirrorLines: map<string, Shape>,
    drillHoles: map<string, Shape>,
    annotations: map<string, Option<Annotation>>)

  /** `new PatternPiece(name)`. */
  function NewPiece(name: string): PatternPiece {
    PatternPiece(name, [], map[], map[], map[], map[], map[], map[], map[], map[], map[], map[])
  }

  /** A shape map of a piece: it holds exactly the sizes `sizes`, and each of
      its shapes refers into `pool`. */
  predicate ShapesInto(m: map<string, Shape>, sizes: set<string>, pool: Pool) {
    && m.Keys == sizes
    && forall size :: size in m ==> WellFormed(m[size], pool)
  }

  /** What holds of every piece between calls: the pool is duplicate-free,
      every stored shape refers into it, and the ten maps have the same
      sizes. */
  predicate PieceInvariant(p: PatternPiece) {
    var sizes := p.annotations.Keys;
    && Valid(p.vertices)
    && ShapesInto(p.shapes, sizes, p.vertices)
    && ShapesInto(p.internalShapes, sizes, p.vertices)
    && ShapesInto(p.turnPoints, sizes, p.vertices)
    && ShapesInto(p.curvePoints, sizes, p.vertices)
    && ShapesInto(p.notches, sizes, p.vertices)
    && ShapesInto(p.grainLines, sizes, p.vertices)
    && ShapesInto(p.gradeReferences, sizes, p.vertices)
    && ShapesInto(p.mirrorLines, sizes, p.vertices)
    && ShapesInto(p.drillHoles, sizes, p.vertices)
  }

  lemma NewPieceInvariant(name: string)
    ensures PieceInvariant(NewPiece(name)) && NewPiece(name).name == name
  {
  }

  /** The entities of the three line layers each have the two points the
      lines builder reads. */
  predicate LineLayersIntact(es: seq<Entity>) {
    forall k :: 0 <= k < |es| && es[k].Line?
                && (OnLayer(es[k], GrainLine) || OnLayer(es[k], GradeReference) || OnLayer(es[k], MirrorLine))
                ==> |es[k].vertices| >= 2
  }

  /** The shapes of the nine geometric layers, each with the pool as it
      stood after it was built. */
  datatype Stages = Stages(
    boundery: Built, internal: Built, turn: Built, curve: Built, notch: Built,
    grain: Built, grade: Built, mirror: Built, drill: Built)

  /** The entities of each handled layer, in block order. */
  datatype Split = Split(
    boundery: seq<Entity>, internal: seq<Entity>, turn: seq<Entity>, curve: seq<Entity>,
    notch: seq<Entity>, grain: seq<Entity>, grade: seq<Entity>, mirror: seq<Entity>,
    drill: seq<Entity>)

  /** The ten `entities.filter` calls of `createSize` that feed a builder. */
  function SplitLayers(es: seq<Entity>): Split {
    Split(FilterLayer(es, Boundery), FilterLayer(es, InternalLines), FilterLayer(es, TurnPoints),
          FilterLayer(es, CurvePoints), FilterLayer(es, Notches), FilterLayer(es, GrainLine),
          FilterLayer(es, GradeReference), FilterLayer(es, MirrorLine), FilterLayer(es, DrillHoles))
  }

  /** Each stage's shape carries the TEXTs of its layer as metadata. */
  predicate StagesCarryTexts(s: Stages, sp: Split) {
    && s.boundery.shape.astm == Texts(sp.boundery)
    && s.internal.shape.astm == Texts(sp.internal)
    && s.turn.shape.astm == Texts(sp.turn)
    && s.curve.shape.astm == Texts(sp.curve)
    && s.notch.shape.astm == Texts(sp.notch)
    && s.grain.shape.astm == Texts(sp.grain)
    && s.grade.shape.astm == Texts(sp.grade)
    && s.mirror.shape.astm == Texts(sp.mirror)
    && s.drill.shape.astm == Texts(sp.drill)
  }

  /** Each stage raises exactly the warnings its layer's entities call for:
      none on the boundary, one per stray on the other layers. */
  predicate StagesWarn(s: Stages, sp: Split) {
    && s.boundery.diags == []
    && s.internal.diags == InternalWarnings(OutlineStrays(sp.internal))
    && s.turn.diags == PointWarnings(TurnPoints, PointStrays(sp.turn))
    && s.curve.diags == PointWarnings(CurvePoints, PointStrays(sp.curve))
    && s.notch.diags == PointWarnings(Notches, PointStrays(sp.notch))
    && s.grain.diags == LineWarnings(LineComplaints(sp.grain))
    && s.grade.diags == LineWarnings(LineComplaints(sp.grade))
    && s.mirror.diags == LineWarnings(LineComplaints(sp.mirror))
    && s.drill.diags == PointWarnings(DrillHoles, PointStrays(sp.drill))
  }

  /** The warnings the builders owe for the layers of a block, in the order
      `createSize` runs them. */
  function SplitWarnings(sp: Split): seq<Diagnostic> {
    InternalWarnings(OutlineStrays(sp.internal))
    + PointWarnings(TurnPoints, PointStrays(sp.turn))
    + PointWarnings(CurvePoints, PointStrays(sp.curve))
    + PointWarnings(Notches, PointStrays(sp.notch))
    + LineWarnings(LineComplaints(sp.grain))
    + LineWarnings(LineComplaints(sp.grade))
    + LineWarnings(LineComplaints(sp.mirror))
    + PointWarnings(DrillHoles, PointStrays(sp.drill))
  }

  /** All the warnings of `createSize` for a block: the builders', then the
      annotation builder's. */
  function ExpectedWarnings(es: seq<Entity>): seq<Diagnostic> {
    SplitWarnings(SplitLayers(es)) + PointWarnings(AnnotationText, NonTexts(FilterLayer(es, AnnotationText)))
  }

  /** The nine builder calls of `createSize`, in the source's order, each on
      its layer's entities, threading the pool; the first line layer with a
      short LINE throws. */
  function BuildStages(p: Pool, sp: Split): (r: Result<Stages>)
    requires |p| % 2 == 0
    ensures r.Ok? ==>
              var s := r.value;
              && |s.drill.pool| % 2 == 0 && (Unique(p) ==> Unique(s.drill.pool))
              && Extends(s.drill.pool, p)
              && Encodes(s.boundery.shape, s.drill.pool, OutlineRuns(sp.boundery))
              && Encodes(s.internal.shape, s.drill.pool, OutlineRuns(sp.internal))
              && Encodes(s.turn.shape, s.drill.pool, PointRuns(sp.turn))
              && Encodes(s.curve.shape, s.drill.pool, PointRuns(sp.curve))
              && Encodes(s.notch.shape, s.drill.pool, PointRuns(sp.notch))
              && Encodes(s.grain.shape, s.drill.pool, LineRuns(sp.grain))
              && Encodes(s.grade.shape, s.drill.pool, LineRuns(sp.grade))
              && Encodes(s.mirror.shape, s.drill.pool, LineRuns(sp.mirror))
              && Encodes(s.drill.shape, s.drill.pool, PointRuns(sp.drill))
    ensures r.Ok? ==> StagesCarryTexts(r.value, sp)
    ensures r.Ok? ==> StagesWarn(r.value, sp)
  {
    var bd := OutlineShape(p, sp.boundery, false);
    var il := OutlineShape(bd.pool, sp.internal, true);
    var tp := PointShape(il.pool, sp.turn, TurnPoints);
    var cp := PointShape(tp.pool, sp.curve, CurvePoints);
    var nt := PointShape(cp.pool, sp.notch, Notches);
    var gl :- LineShape(nt.pool, sp.grain);
    var gr :- LineShape(gl.pool, sp.grade);
    var ml :- LineShape(gr.pool, sp.mirror);
    var dh := PointShape(ml.pool, sp.drill, DrillHoles);
    OutlineWarnings(p, sp.boundery);
    OutlineWarnings(bd.pool, sp.internal);
    PointShapeWarnings(il.pool, sp.turn, TurnPoints);
    PointShapeWarnings(tp.pool, sp.curve, CurvePoints);
    PointShapeWarnings(cp.pool, sp.notch, Notches);
    LineShapeWarnings(nt.pool, sp.grain);
    LineShapeWarnings(gl.pool, sp.grade);
    LineShapeWarnings(gr.pool, sp.mirror);
    PointShapeWarnings(ml.pool, sp.drill, DrillHoles);
    ExtendsTransitive(dh.pool, ml.pool, gr.pool);
    ExtendsTransitive(dh.pool, gr.pool, gl.pool);
    ExtendsTransitive(dh.pool, gl.pool, nt.pool);
    ExtendsTransitive(dh.pool, nt.pool, cp.pool);
    ExtendsTransitive(dh.pool, cp.pool, tp.pool);
    ExtendsTransitive(dh.pool, tp.pool, il.pool);
    ExtendsTransitive(dh.pool, il.pool, bd.pool);
    ExtendsTransitive(dh.pool, bd.pool, p);
    EncodesStable(bd.shape, bd.pool, dh.pool, OutlineRuns(sp.boundery));
    EncodesStable(il.shape, il.pool, dh.pool, OutlineRuns(sp.internal));
    EncodesStable(tp.shape, tp.pool, dh.pool, PointRuns(sp.turn));
    EncodesStable(cp.shape, cp.pool, dh.pool, PointRuns(sp.curve));
    EncodesStable(nt.shape, nt.pool, dh.pool, PointRuns(sp.notch));
    EncodesStable(gl.shape, gl.pool, dh.pool, LineRuns(sp.grain));
    EncodesStable(gr.shape, gr.pool, dh.pool, LineRuns(sp.grade));
    EncodesStable(ml.shape, ml.pool, dh.pool, LineRuns(sp.mirror));
    Ok(Stages(bd, il, tp, cp, nt, gl, gr, ml, dh))
  }


  /** The builders run on the layers of one block. */
  function RunStages(p: Pool, es: seq<Entity>): (r: Result<Stages>)
    requires |p| % 2 == 0
    ensures r.Ok? ==>
              var s := r.value;
              && |s.drill.pool| % 2 == 0 && (Unique(p) ==> Unique(s.drill.pool))
              && Extends(s.drill.pool, p)
              && Encodes(s.boundery.shape, s.drill.pool, OutlineRuns(FilterLayer(es, Boundery)))
              && Encodes(s.internal.shape, s.drill.pool, OutlineRuns(FilterLayer(es, InternalLines)))
              && Encodes(s.turn.shape, s.drill.pool, PointRuns(FilterLayer(es, TurnPoints)))
              && Encodes(s.curve.shape, s.drill.pool, PointRuns(FilterLayer(es, CurvePoints)))
              && Encodes(s.notch.shape, s.drill.pool, PointRuns(FilterLayer(es, Notches)))
              && Encodes(s.grain.shape, s.drill.pool, LineRuns(FilterLayer(es, GrainLine)))
              && Encodes(s.grade.shape, s.drill.pool, LineRuns(FilterLayer(es, GradeReference)))
              && Encodes(s.mirror.shape, s.drill.pool, LineRuns(FilterLayer(es, MirrorLine)))
              && Encodes(s.drill.shape, s.drill.pool, PointRuns(FilterLayer(es, DrillHoles)))
    ensures r.Ok? ==> StagesCarryTexts(r.value, SplitLayers(es)) && StagesWarn(r.value, SplitLayers(es))
  {
    BuildStages(p, SplitLayers(es))
  }

  /** The diagnostics of the stages, in the order they were raised. */
  function StageDiagnostics(s: Stages): seq<Diagnostic> {
    s.boundery.diags + s.internal.diags + s.turn.diags + s.curve.diags + s.notch.diags
    + s.grain.diags + s.grade.diags + s.mirror.diags + s.drill.diags
  }

  datatype SizeResult = SizeResult(piece: PatternPiece, diags: seq<Diagnostic>)

  /** `createSize`: builds every layer's shape for `size` from the same block
      entities, threading the piece's pool, stores each under `size`, then
      runs the block check. A LINE with fewer than two points on a line layer
      makes it throw. */
  function CreateSize(piece: PatternPiece, size: string, es: seq<Entity>): (r: Result<SizeResult>)
    requires |piece.vertices| % 2 == 0
  {
    var s :- RunStages(piece.vertices, es);
    var an := AnnotationOf(FilterLayer(es, AnnotationText), AnnotationText);
    Ok(SizeResult(Store(piece, size, s, an.annotation), StageDiagnostics(s) + an.diags + CheckBlock(es)))
  }

  /** The assignments at the end of `createSize`: the grown pool, and every
      stage's shape and the annotation under `size`. */
  function Store(piece: PatternPiece, size: string, s: Stages, an: Option<Annotation>): PatternPiece {
    piece.(
      vertices := s.drill.pool,
      shapes := piece.shapes[size := s.boundery.shape],
      internalShapes := piece.internalShapes[size := s.internal.shape],
      turnPoints := piece.turnPoints[size := s.turn.shape],
      curvePoints := piece.curvePoints[size := s.curve.shape],
      notches := piece.notches[size := s.notch.shape],
      grainLines := piece.grainLines[size := s.grain.shape],
      gradeReferences := piece.gradeReferences[size := s.grade.shape],
      mirrorLines := piece.mirrorLines[size := s.mirror.shape],
      drillHoles := piece.drillHoles[size := s.drill.shape],
      annotations := piece.annotations[size := an])
  }

  // ------------------------------------------------------------ properties

  /** `m'` is `m` with the entry for `size` written and nothing else changed. */
  predicate Updated<V(==)>(m': map<string, V>, m: map<string, V>, size: string) {
    && m'.Keys == m.Keys + {size}
    && forall k :: k in m && k != size ==> m'[k] == m[k]
  }

  lemma StoreUpdates<V>(m: map<string, V>, size: string, v: V)
    ensures Updated(m[size := v], m, size)
  {
  }

  /** Every shape stored for `size` decodes, against the piece's pool, to the
      geometry of its own layer in `es`. */
  predicate LayersDecode(q: PatternPiece, size: string, es: seq<Entity>) {
    && size in q.shapes && Encodes(q.shapes[size], q.vertices, OutlineRuns(FilterLayer(es, Boundery)))
    && size in q.internalShapes && Encodes(q.internalShapes[size], q.vertices, OutlineRuns(FilterLayer(es, InternalLines)))
    && size in q.turnPoints && Encodes(q.turnPoints[size], q.vertices, PointRuns(FilterLayer(es, TurnPoints)))
    && size in q.curvePoints && Encodes(q.curvePoints[size], q.vertices, PointRuns(FilterLayer(es, CurvePoints)))
    && size in q.notches && Encodes(q.notches[size], q.vertices, PointRuns(FilterLayer(es, Notches)))
    && size in q.grainLines && Encodes(q.grainLines[size], q.vertices, LineRuns(FilterLayer(es, GrainLine)))
    && size in q.gradeReferences && Encodes(q.gradeReferences[size], q.vertices, LineRuns(FilterLayer(es, GradeReference)))
    && size in q.mirrorLines && Encodes(q.mirrorLines[size], q.vertices, LineRuns(FilterLayer(es, MirrorLine)))
    && size in q.drillHoles && Encodes(q.drillHoles[size], q.vertices, PointRuns(FilterLayer(es, DrillHoles)))
  }

  lemma LinesIntactOnLayer(es: seq<Entity>, l: AstmLayer)
    ensures LinesIntact(FilterLayer(es, l))
            <==> forall k :: 0 <= k < |es| && es[k].Line? && OnLayer(es[k], l) ==> |es[k].vertices| >= 2
  {
    var f := FilterLayer(es, l);
    if LinesIntact(f) {
      forall k | 0 <= k < |es| && es[k].Line? && OnLayer(es[k], l) ensures |es[k].vertices| >= 2 {
        assert es[k] in f;
      }
    }
  }

  /** `createSize` throws exactly when a LINE on a line layer has fewer than
      two points. */
  lemma CreateSizeThrowsOnShortLines(piece: PatternPiece, size: string, es: seq<Entity>)
    requires |piece.vertices| % 2 == 0
    ensures CreateSize(piece, size, es).Ok? <==> LineLayersIntact(es)
    ensures CreateSize(piece, size, es).Thrown? ==> CreateSize(piece, size, es).reason == MissingVertexError
  {
    LinesIntactOnLayer(es, GrainLine);
    LinesIntactOnLayer(es, GradeReference);
    LinesIntactOnLayer(es, MirrorLine);
  }

  /** `createSize` writes the entry for `size` in all ten maps, leaves every
      other size and the name alone, and only appends to the pool. */
  lemma CreateSizeWritesOneSize(piece: PatternPiece, size: string, es: seq<Entity>)
    requires |piece.vertices| % 2 == 0
    ensures var r := CreateSize(piece, size, es);
            r.Ok? ==>
              var q := r.value.piece;
              && q.name == piece.name
              && |q.vertices| % 2 == 0 && Extends(q.vertices, piece.vertices)
              && (Unique(piece.vertices) ==> Unique(q.vertices))
              && Updated(q.shapes, piece.shapes, size)
              && Updated(q.internalShapes, piece.internalShapes, size)
              && Updated(q.turnPoints, piece.turnPoints, size)
              && Updated(q.curvePoints, piece.curvePoints, size)
              && Updated(q.notches, piece.notches, size)
              && Updated(q.grainLines, piece.grainLines, size)
              && Updated(q.gradeReferences, piece.gradeReferences, size)
              && Updated(q.mirrorLines, piece.mirrorLines, size)
              && Updated(q.drillHoles, piece.drillHoles, size)
              && Updated(q.annotations, piece.annotations, size)
  {
    var r := CreateSize(piece, size, es);
    if r.Ok? {
      var s := RunStages(piece.vertices, es).value;
      var an := AnnotationOf(FilterLayer(es, AnnotationText), AnnotationText);
      var q := r.value.piece;
      StoreUpdates(piece.shapes, size, s.boundery.shape);
      StoreUpdates(piece.internalShapes, size, s.internal.shape);
      StoreUpdates(piece.turnPoints, size, s.turn.shape);
      StoreUpdates(piece.curvePoints, size, s.curve.shape);
      StoreUpdates(piece.notches, size, s.notch.shape);
      StoreUpdates(piece.grainLines, size, s.grain.shape);
      StoreUpdates(piece.gradeReferences, size, s.grade.shape);
      StoreUpdates(piece.mirrorLines, size, s.mirror.shape);
      StoreUpdates(piece.drillHoles, size, s.drill.shape);
      StoreUpdates(piece.annotations, size, an.annotation);
    }
  }

  /** Every shape stored for `size` carries, as metadata, the TEXTs of its
      own layer in `es`. */
  predicate LayersCarryTexts(q: PatternPiece, size: string, es: seq<Entity>) {
    && size in q.shapes && q.shapes[size].astm == Texts(FilterLayer(es, Boundery))
    && size in q.internalShapes && q.internalShapes[size].astm == Texts(FilterLayer(es, InternalLines))
    && size in q.turnPoints && q.turnPoints[size].astm == Texts(FilterLayer(es, TurnPoints))
    && size in q.curvePoints && q.curvePoints[size].astm == Texts(FilterLayer(es, CurvePoints))
    && size in q.notches && q.notches[size].astm == Texts(FilterLayer(es, Notches))
    && size in q.grainLines && q.grainLines[size].astm == Texts(FilterLayer(es, GrainLine))
    && size in q.gradeReferences && q.gradeReferences[size].astm == Texts(FilterLayer(es, GradeReference))
    && size in q.mirrorLines && q.mirrorLines[size].astm == Texts(FilterLayer(es, MirrorLine))
    && size in q.drillHoles && q.drillHoles[size].astm == Texts(FilterLayer(es, DrillHoles))
  }

  /** Every shape `createSize` stores decodes, against the piece's new pool,
      to the geometry of its own layer. */
  lemma CreateSizeDecodes(piece: PatternPiece, size: string, es: seq<Entity>)
    requires |piece.vertices| % 2 == 0
    ensures var r := CreateSize(piece, size, es);
            r.Ok? ==> LayersDecode(r.value.piece, size, es) && LayersCarryTexts(r.value.piece, size, es)
  {
    var r := CreateSize(piece, size, es);
    if r.Ok? {
      var s := RunStages(piece.vertices, es).value;
      var q := r.value.piece;
      assert q.vertices == s.drill.pool;
      assert q.shapes[size] == s.boundery.shape;
      assert q.internalShapes[size] == s.internal.shape;
      assert q.turnPoints[size] == s.turn.shape;
      assert q.curvePoints[size] == s.curve.shape;
      assert q.notches[size] == s.notch.shape;
      assert q.grainLines[size] == s.grain.shape;
      assert q.gradeReferences[size] == s.grade.shape;
      assert q.mirrorLines[size] == s.mirror.shape;
      assert q.drillHoles[size] == s.drill.shape;
    }
  }

  /** Writing one size whose new shape refers into a grown pool keeps a
      shape map well-formed against that pool. */
  lemma UpdatedShapesInto(m': map<string, Shape>, m: map<string, Shape>, size: string,
                          sizes: set<string>, pool: Pool, pool': Pool)
    requires ShapesInto(m, sizes, pool) && Updated(m', m, size) && Extends(pool', pool)
    requires size in m' && WellFormed(m'[size], pool')
    ensures ShapesInto(m', sizes + {size}, pool')
  {
    forall k | k in m' ensures WellFormed(m'[k], pool') {
      if k != size {
        WellFormedStable(m[k], pool, pool');
      }
    }
  }

  /** `createSize` keeps the piece invariant: the pool stays duplicate-free,
      every shape of every size still refers into it, and the ten maps keep
      the same set of sizes. */
  lemma CreateSizePreservesInvariant(piece: PatternPiece, size: string, es: seq<Entity>)
    requires PieceInvariant(piece)
    ensures var r := CreateSize(piece, size, es);
            r.Ok? ==> PieceInvariant(r.value.piece)
  {
    var r := CreateSize(piece, size, es);
    if r.Ok? {
      var q := r.value.piece;
      var sizes := piece.annotations.Keys;
      var p, p' := piece.vertices, q.vertices;
      CreateSizeWritesOneSize(piece, size, es);
      CreateSizeDecodes(piece, size, es);
      assert q.annotations.Keys == sizes + {size};
      EncodesWellFormed(q.shapes[size], p', OutlineRuns(FilterLayer(es, Boundery)));
      UpdatedShapesInto(q.shapes, piece.shapes, size, sizes, p, p');
      EncodesWellFormed(q.internalShapes[size], p', OutlineRuns(FilterLayer(es, InternalLines)));
      UpdatedShapesInto(q.internalShapes, piece.internalShapes, size, sizes, p, p');
      EncodesWellFormed(q.turnPoints[size], p', PointRuns(FilterLayer(es, TurnPoints)));
      UpdatedShapesInto(q.turnPoints, piece.turnPoints, size, sizes, p, p');
      EncodesWellFormed(q.curvePoints[size], p', PointRuns(FilterLayer(es, CurvePoints)));
      UpdatedShapesInto(q.curvePoints, piece.curvePoints, size, sizes, p, p');
      EncodesWellFormed(q.notches[size], p', PointRuns(FilterLayer(es, Notches)));
      UpdatedShapesInto(q.notches, piece.notches, size, sizes, p, p');
      EncodesWellFormed(q.grainLines[size], p', LineRuns(FilterLayer(es, GrainLine)));
      UpdatedShapesInto(q.grainLines, piece.grainLines, size, sizes, p, p');
      EncodesWellFormed(q.gradeReferences[size], p', LineRuns(FilterLayer(es, GradeReference)));
      UpdatedShapesInto(q.gradeReferences, piece.gradeReferences, size, sizes, p, p');
      EncodesWellFormed(q.mirrorLines[size], p', LineRuns(FilterLayer(es, MirrorLine)));
      UpdatedShapesInto(q.mirrorLines, piece.mirrorLines, size, sizes, p, p');
      EncodesWellFormed(q.drillHoles[size], p', PointRuns(FilterLayer(es, DrillHoles)));
      UpdatedShapesInto(q.drillHoles, piece.drillHoles, size, sizes, p, p');
    }
  }

  /** The annotation stored for `size` is null when the annotation layer has
      no TEXT, and otherwise the last TEXT on it. */
  lemma CreateSizeAnnotation(piece: PatternPiece, size: string, es: seq<Entity>)
    requires |piece.vertices| % 2 == 0
    ensures var r := CreateSize(piece, size, es);
            var texts := Texts(FilterLayer(es, AnnotationText));
            r.Ok? ==> size in r.value.piece.annotations
                      && (r.value.piece.annotations[size].None? <==> |texts| == 0)
                      && (r.value.piece.annotations[size].Some? ==>
                            r.value.piece.annotations[size].value == Annotation(texts[|texts| - 1]))
  {
  }

  predicate AllWarnings(ds: seq<Diagnostic>) {
    forall k :: 0 <= k < |ds| ==> ds[k].severity == Warning
  }

  lemma WarningsJoin(a: seq<Diagnostic>, b: seq<Diagnostic>)
    requires AllWarnings(a) && AllWarnings(b)
    ensures AllWarnings(a + b)
  {
  }

  /** The diagnostics of the stages are the warnings their layers call for. */
  lemma StageDiagnosticsAre(s: Stages, sp: Split)
    requires StagesWarn(s, sp)
    ensures StageDiagnostics(s) == SplitWarnings(sp)
  {
    assert s.boundery.diags + s.internal.diags == s.internal.diags;
  }

  /** The builders' warnings are all of severity WARNING. */
  lemma SplitWarningsWarnOnly(sp: Split)
    ensures AllWarnings(SplitWarnings(sp))
  {
    var d := InternalWarnings(OutlineStrays(sp.internal));
    WarningsJoin(d, PointWarnings(TurnPoints, PointStrays(sp.turn)));
    d := d + PointWarnings(TurnPoints, PointStrays(sp.turn));
    WarningsJoin(d, PointWarnings(CurvePoints, PointStrays(sp.curve)));
    d := d + PointWarnings(CurvePoints, PointStrays(sp.curve));
    WarningsJoin(d, PointWarnings(Notches, PointStrays(sp.notch)));
    d := d + PointWarnings(Notches, PointStrays(sp.notch));
    WarningsJoin(d, LineWarnings(LineComplaints(sp.grain)));
    d := d + LineWarnings(LineComplaints(sp.grain));
    WarningsJoin(d, LineWarnings(LineComplaints(sp.grade)));
    d := d + LineWarnings(LineComplaints(sp.grade));
    WarningsJoin(d, LineWarnings(LineComplaints(sp.mirror)));
    d := d + LineWarnings(LineComplaints(sp.mirror));
    WarningsJoin(d, PointWarnings(DrillHoles, PointStrays(sp.drill)));
  }

  /** Every stage raises warnings only. */
  lemma StagesWarnOnly(p: Pool, es: seq<Entity>)
    requires |p| % 2 == 0
    ensures RunStages(p, es).Ok? ==> AllWarnings(StageDiagnostics(RunStages(p, es).value))
  {
    if RunStages(p, es).Ok? {
      StageDiagnosticsAre(RunStages(p, es).value, SplitLayers(es));
      SplitWarningsWarnOnly(SplitLayers(es));
    }
  }

  /** The diagnostics of `createSize` are, in order, one warning per entity
      each builder has no use for, then the block check's infos: the only
      INFOs come from the block check and nothing raises an ERROR. */
  lemma CreateSizeDiagnostics(piece: PatternPiece, size: string, es: seq<Entity>)
    requires |piece.vertices| % 2 == 0
    ensures var r := CreateSize(piece, size, es);
            r.Ok? ==>
              var d := r.value.diags;
              var n := |d| - |CheckBlock(es)|;
              && 0 <= n
              && d[n..] == CheckBlock(es)
              && AllWarnings(d[..n])
              && (forall k :: n <= k < |d| ==> d[k].severity == Info)
    ensures var r := CreateSize(piece, size, es);
            r.Ok? ==> r.value.diags == ExpectedWarnings(es) + CheckBlock(es)
  {
    var r := CreateSize(piece, size, es);
    if r.Ok? {
      var s := RunStages(piece.vertices, es).value;
      var an := AnnotationOf(FilterLayer(es, AnnotationText), AnnotationText);
      StagesWarnOnly(piece.vertices, es);
      StageDiagnosticsAre(s, SplitLayers(es));
      AnnotationWarnings(FilterLayer(es, AnnotationText), AnnotationText);
      WarningsJoin(StageDiagnostics(s), an.diags);
      var w := StageDiagnostics(s) + an.diags;
      assert r.value.diags == w + CheckBlock(es);
      assert r.value.diags[..|w|] == w;
    }
  }

  lemma FilterIgnores(es: seq<Entity>, e: Entity, l: AstmLayer)
    requires !OnLayer(e, l)
    ensures FilterLayer(es + [e], l) == FilterLayer(es, l)
  {
    ForeignEntityIsInvisible(es, e, [], l);
    assert es + [e] + [] == es + [e] && es + [] == es;
  }

  /** Appending an entity on no handled layer leaves every layer's entities
      unchanged. */
  lemma SplitIgnoresForeignEntity(es: seq<Entity>, e: Entity)
    requires forall l :: Handled(l) ==> !OnLayer(e, l)
    ensures SplitLayers(es + [e]) == SplitLayers(es)
  {
    FilterIgnores(es, e, Boundery);
    FilterIgnores(es, e, InternalLines);
    FilterIgnores(es, e, TurnPoints);
    FilterIgnores(es, e, CurvePoints);
    FilterIgnores(es, e, Notches);
    FilterIgnores(es, e, GrainLine);
    FilterIgnores(es, e, GradeReference);
    FilterIgnores(es, e, MirrorLine);
    FilterIgnores(es, e, DrillHoles);
  }

  /** The block check reports on entities one at a time, in block order. */
  lemma CheckBlockAppend(es: seq<Entity>, e: Entity)
    ensures CheckBlock(es + [e]) == CheckBlock(es) + CheckEntity(e)
  {
    assert (es + [e])[..|es|] == es;
  }

  lemma StagesIgnoreForeignEntity(p: Pool, es: seq<Entity>, e: Entity)
    requires |p| % 2 == 0
    requires forall l :: Handled(l) ==> !OnLayer(e, l)
    ensures RunStages(p, es + [e]) == RunStages(p, es)
  {
    SplitIgnoresForeignEntity(es, e);
  }

  lemma JoinAssociates(a: seq<Diagnostic>, b: seq<Diagnostic>, c: seq<Diagnostic>)
    ensures a + (b + c) == a + b + c
  {
  }

  /** `createSize` with its stages and annotation named. */
  lemma CreateSizeUnfolds(piece: PatternPiece, size: string, es: seq<Entity>)
    requires |piece.vertices| % 2 == 0
    ensures var rs, an := RunStages(piece.vertices, es), AnnotationOf(FilterLayer(es, AnnotationText), AnnotationText);
            CreateSize(piece, size, es)
            == if rs.Thrown? then Thrown(rs.reason)
               else Ok(SizeResult(Store(piece, size, rs.value, an.annotation),
                                  StageDiagnostics(rs.value) + an.diags + CheckBlock(es)))
  {
  }

  /** An entity on none of the ten handled layers changes nothing the piece
      stores; it only adds what the block check says about it. */
  lemma CreateSizeIgnoresForeignEntity(piece: PatternPiece, size: string, es: seq<Entity>, e: Entity)
    requires |piece.vertices| % 2 == 0
    requires forall l :: Handled(l) ==> !OnLayer(e, l)
    ensures var r, r' := CreateSize(piece, size, es), CreateSize(piece, size, es + [e]);
            && (r'.Ok? <==> r.Ok?)
            && (r.Ok? ==> r'.value.piece == r.value.piece && r'.value.diags == r.value.diags + CheckEntity(e))
  {
    StagesIgnoreForeignEntity(piece.vertices, es, e);
    FilterIgnores(es, e, AnnotationText);
    CheckBlockAppend(es, e);
    CreateSizeUnfolds(piece, size, es);
    CreateSizeUnfolds(piece, size, es + [e]);
    var rs := RunStages(piece.vertices, es);
    if rs.Ok? {
      var an := AnnotationOf(FilterLayer(es, AnnotationText), AnnotationText);
      JoinAssociates(StageDiagnostics(rs.value) + an.diags, CheckBlock(es), CheckEntity(e));
    }
  }
}
