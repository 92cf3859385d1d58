/** The per-layer shape builders of a pattern piece. Each takes the entities
    already filtered to its layer, in block order, threads the piece's vertex
    pool through the interner and returns the diagnostics it raised. */
module Builders {
  import opened Wrappers
  import opened Numerals
  import opened Dxf
  import opened Diagnostics
  import opened Layers
  import opened VertexPool
  import opened Shapes

  datatype Built = Built(shape: Shape, pool: Pool, diags: seq<Diagnostic>)

  /** The texts of the TEXT entities, in order: what `metadata.astm` collects. */
  function Texts(es: seq<Entity>): seq<string> {
    if |es| == 0 then []
    else
      var e := es[|es| - 1];
      if e.Text? then Texts(es[..|es| - 1]) + [e.text] else Texts(es[..|es| - 1])
  }

  // ---------------------------------------------------------------- outlines

  /** The vertex lists of the POLYLINE and LINE entities, in order. */
  function OutlineRuns(es: seq<Entity>): seq<seq<Vertex>> {
    if |es| == 0 then []
    else
      var e := es[|es| - 1];
      if e.Polyline? || e.Line? then OutlineRuns(es[..|es| - 1]) + [e.vertices] else OutlineRuns(es[..|es| - 1])
  }

  /** The entities an outline builder has no use for. */
  function OutlineStrays(es: seq<Entity>): seq<Entity> {
    if |es| == 0 then []
    else
      var e := es[|es| - 1];
      if e.Polyline? || e.Line? || e.Text? then OutlineStrays(es[..|es| - 1]) else OutlineStrays(es[..|es| - 1]) + [e]
  }

  function InternalShapeMessage(e: Entity): string {
    "Unexpected type in internal shape: '" + TypeName(e) + "'"
  }

  /** `_createBoundery` (with `flagOthers` false: other entity types are
      skipped silently) and `_createInternalShapes` (with `flagOthers` true:
      each one raises a warning). Every POLYLINE or LINE becomes one run of
      all its points; every TEXT is appended to the metadata. */
  function OutlineShape(p: Pool, es: seq<Entity>, flagOthers: bool): (r: Built)
    requires |p| % 2 == 0
    ensures |r.pool| % 2 == 0 && Extends(r.pool, p) && (Unique(p) ==> Unique(r.pool))
    ensures Encodes(r.shape, r.pool, OutlineRuns(es))
    ensures r.shape.astm == Texts(es)
    ensures !flagOthers ==> r.diags == []
    ensures flagOthers ==> |r.diags| == |OutlineStrays(es)|
    ensures flagOthers ==> forall k :: 0 <= k < |r.diags| ==>
              r.diags[k] == Diagnostic(Warning, InternalShapeMessage(OutlineStrays(es)[k]), OfEntity(OutlineStrays(es)[k]))
  {
    if |es| == 0 then Built(EmptyShape, p, [])
    else
      var e := es[|es| - 1];
      var b := OutlineShape(p, es[..|es| - 1], flagOthers);
      ExtendsTransitive(b.pool, p, p);
      if e.Polyline? || e.Line? then
        var run := InternAll(b.pool, e.vertices);
        InternAllResolves(b.pool, e.vertices);
        AppendRun(b.shape, b.pool, run.pool, OutlineRuns(es[..|es| - 1]), run.indices, e.vertices);
        ExtendsTransitive(run.pool, b.pool, p);
        Built(Shape(b.shape.lengths + [|e.vertices|], b.shape.vertices + run.indices, b.shape.astm), run.pool, b.diags)
      else if e.Text? then
        Built(b.shape.(astm := b.shape.astm + [e.text]), b.pool, b.diags)
      else if flagOthers then
        Built(b.shape, b.pool, b.diags + [Diagnostic(Warning, InternalShapeMessage(e), OfEntity(e))])
      else
        b
  }

  // ------------------------------------------------------------------- lines

  /** The points a LINE contributes: its first two. */
  function FirstTwo(vs: seq<Vertex>): seq<Vertex> {
    if |vs| >= 2 then vs[..2] else vs
  }

  function LineRuns(es: seq<Entity>): seq<seq<Vertex>> {
    if |es| == 0 then []
    else
      var e := es[|es| - 1];
      if e.Line? then LineRuns(es[..|es| - 1]) + [FirstTwo(e.vertices)] else LineRuns(es[..|es| - 1])
  }

  /** Every LINE has the two points the builder reads. */
  predicate LinesIntact(es: seq<Entity>) {
    forall k :: 0 <= k < |es| && es[k].Line? ==> |es[k].vertices| >= 2
  }

  /** With every LINE intact, each run holds exactly two points. */
  lemma {:induction false} LineRunsArePairs(es: seq<Entity>)
    requires LinesIntact(es)
    ensures forall k :: 0 <= k < |LineRuns(es)| ==> |LineRuns(es)[k]| == 2
  {
    if |es| > 0 {
      assert LinesIntact(es[..|es| - 1]);
      LineRunsArePairs(es[..|es| - 1]);
    }
  }

  /** The entities the lines builder warns about: LINEs whose vertex count
      is not 2, and everything that is neither LINE nor TEXT. */
  function LineComplaints(es: seq<Entity>): seq<Entity> {
    if |es| == 0 then []
    else
      var e := es[|es| - 1];
      var complains := if e.Line? then |e.vertices| != 2 else !e.Text?;
      if complains then LineComplaints(es[..|es| - 1]) + [e] else LineComplaints(es[..|es| - 1])
  }

  function LineCountMessage(n: nat): string {
    "Found line with more than 2 vertices: '" + NatToString(n) + "'"
  }

  function TurnPointsMessage(e: Entity): string {
    "Unexpected entity in turn points: '" + TypeName(e) + "'"
  }

  /** The warning the lines builder raises about `e`. */
  predicate LineWarning(d: Diagnostic, e: Entity) {
    && d.severity == Warning
    && (e.Line? ==> d.message == LineCountMessage(|e.vertices|) && d.data == OfVertices(e.vertices))
    && (!e.Line? ==> d.message == TurnPointsMessage(e) && d.data == OfEntity(e))
  }

  /** What JavaScript throws when `_getVertexIndex` reads `x` of a missing vertex. */
  const MissingVertexError := "TypeError: Cannot read properties of undefined (reading 'x')"

  /** What `_createLines` does with one entity of its layer. */
  function LineStep(b: Built, e: Entity): (r: Result<Built>)
    requires |b.pool| % 2 == 0
  {
    if e.Line? then
      if |e.vertices| < 2 then Thrown(MissingVertexError)
      else
        var warn := if |e.vertices| != 2 then [Diagnostic(Warning, LineCountMessage(|e.vertices|), OfVertices(e.vertices))] else [];
        var run := InternAll(b.pool, e.vertices[..2]);
        Ok(Built(Shape(b.shape.lengths + [2], b.shape.vertices + run.indices, b.shape.astm), run.pool, b.diags + warn))
    else if e.Text? then
      Ok(Built(b.shape.(astm := b.shape.astm + [e.text]), b.pool, b.diags))
    else
      Ok(Built(b.shape, b.pool, b.diags + [Diagnostic(Warning, TurnPointsMessage(e), OfEntity(e))]))
  }

  /** One step of the lines builder: it throws exactly on a LINE with fewer
      than two points, and otherwise appends the LINE's first two points as a
      run or the TEXT to the metadata. */
  lemma LineStepBuilds(b: Built, e: Entity, runs: seq<seq<Vertex>>)
    requires |b.pool| % 2 == 0
    requires Encodes(b.shape, b.pool, runs)
    ensures LineStep(b, e).Ok? <==> (e.Line? ==> |e.vertices| >= 2)
    ensures LineStep(b, e).Thrown? ==> LineStep(b, e).reason == MissingVertexError
    ensures var r := LineStep(b, e);
            r.Ok? ==> |r.value.pool| % 2 == 0 && Extends(r.value.pool, b.pool) && (Unique(b.pool) ==> Unique(r.value.pool))
    ensures var r := LineStep(b, e);
            r.Ok? ==> Encodes(r.value.shape, r.value.pool, if e.Line? then runs + [FirstTwo(e.vertices)] else runs)
    ensures var r := LineStep(b, e);
            r.Ok? ==> r.value.shape.astm == if e.Text? then b.shape.astm + [e.text] else b.shape.astm
  {
    if e.Line? && |e.vertices| >= 2 {
      InternAllResolves(b.pool, e.vertices[..2]);
      var run := InternAll(b.pool, e.vertices[..2]);
      AppendRun(b.shape, b.pool, run.pool, runs, run.indices, e.vertices[..2]);
    }
  }

  /** One step of the lines builder warns about a LINE of other than two
      points and about anything that is neither LINE nor TEXT. */
  lemma LineStepWarns(b: Built, e: Entity, complaints: seq<Entity>)
    requires |b.pool| % 2 == 0
    requires |b.diags| == |complaints| && forall k :: 0 <= k < |b.diags| ==> LineWarning(b.diags[k], complaints[k])
    ensures var r := LineStep(b, e);
            var more := if (if e.Line? then |e.vertices| != 2 else !e.Text?) then [e] else [];
            r.Ok? ==> |r.value.diags| == |complaints + more|
                      && forall k :: 0 <= k < |r.value.diags| ==> LineWarning(r.value.diags[k], (complaints + more)[k])
  {
  }

  /** `_createLines`: every LINE becomes a run of length 2 built from its
      first two points, whatever its vertex count (a count other than 2 only
      raises a warning, and a LINE with fewer than two points throws); TEXT
      goes to the metadata; anything else raises a warning. */
  function LineShape(p: Pool, es: seq<Entity>): (r: Result<Built>)
    requires |p| % 2 == 0
    ensures r.Ok? <==> LinesIntact(es)
    ensures r.Thrown? ==> r.reason == MissingVertexError
    ensures r.Ok? ==> |r.value.pool| % 2 == 0 && Extends(r.value.pool, p) && (Unique(p) ==> Unique(r.value.pool))
    ensures r.Ok? ==> Encodes(r.value.shape, r.value.pool, LineRuns(es))
    ensures r.Ok? ==> r.value.shape.astm == Texts(es)
    ensures r.Ok? ==> |r.value.diags| == |LineComplaints(es)|
    ensures r.Ok? ==> forall k :: 0 <= k < |r.value.diags| ==> LineWarning(r.value.diags[k], LineComplaints(es)[k])
  {
    if |es| == 0 then Ok(Built(EmptyShape, p, []))
    else
      var e := es[|es| - 1];
      var init := es[..|es| - 1];
      assert LinesIntact(es) <==> LinesIntact(init) && (e.Line? ==> |e.vertices| >= 2);
      match LineShape(p, init)
      case Thrown(reason) => Thrown(reason)
      case Ok(b) =>
        LineStepBuilds(b, e, LineRuns(init));
        LineStepWarns(b, e, LineComplaints(init));
        assert LineRuns(es) == if e.Line? then LineRuns(init) + [FirstTwo(e.vertices)] else LineRuns(init);
        assert Texts(es) == if e.Text? then Texts(init) + [e.text] else Texts(init);
        assert LineComplaints(es) == LineComplaints(init) + if (if e.Line? then |e.vertices| != 2 else !e.Text?) then [e] else [];
        var r := LineStep(b, e);
        if r.Ok? then ExtendsTransitive(r.value.pool, b.pool, p); r else r
  }

  /** Every run the lines builder emits has length 2. */
  lemma LineShapeRunsOfTwo(p: Pool, es: seq<Entity>)
    requires |p| % 2 == 0
    ensures var r := LineShape(p, es);
            r.Ok? ==> forall k :: 0 <= k < |r.value.shape.lengths| ==> r.value.shape.lengths[k] == 2
  {
    if LineShape(p, es).Ok? {
      LineRunsArePairs(es);
    }
  }

  // ------------------------------------------------------------------ points

  function PointRuns(es: seq<Entity>): seq<seq<Vertex>> {
    if |es| == 0 then []
    else
      var e := es[|es| - 1];
      if e.Point? then PointRuns(es[..|es| - 1]) + [[e.position]] else PointRuns(es[..|es| - 1])
  }

  /** The POINT positions in order. */
  function Positions(es: seq<Entity>): seq<Vertex> {
    if |es| == 0 then []
    else
      var e := es[|es| - 1];
      if e.Point? then Positions(es[..|es| - 1]) + [e.position] else Positions(es[..|es| - 1])
  }

  /** Each POINT makes a run of exactly its position. */
  lemma {:induction false} PointRunsArePositions(es: seq<Entity>)
    ensures |PointRuns(es)| == |Positions(es)|
    ensures forall k :: 0 <= k < |PointRuns(es)| ==> |PointRuns(es)[k]| == 1
    ensures Concat(PointRuns(es)) == Positions(es)
  {
    if |es| > 0 {
      PointRunsArePositions(es[..|es| - 1]);
    }
  }

  /** The entities a points builder has no use for. */
  function PointStrays(es: seq<Entity>): seq<Entity> {
    if |es| == 0 then []
    else
      var e := es[|es| - 1];
      if e.Point? || e.Text? then PointStrays(es[..|es| - 1]) else PointStrays(es[..|es| - 1]) + [e]
  }

  function ExpectedPointsMessage(l: AstmLayer, e: Entity): string {
    "Unexpected entity in layer " + LayerString(l) + ": expected points, found '" + TypeName(e) + "'"
  }

  /** `_createPoints`: every POINT becomes a run of length 1 holding its
      position; TEXT goes to the metadata; anything else raises a warning. */
  function PointShape(p: Pool, es: seq<Entity>, l: AstmLayer): (r: Built)
    requires |p| % 2 == 0
    ensures |r.pool| % 2 == 0 && Extends(r.pool, p) && (Unique(p) ==> Unique(r.pool))
    ensures Encodes(r.shape, r.pool, PointRuns(es))
    ensures |r.shape.lengths| == |Positions(es)| && forall k :: 0 <= k < |r.shape.lengths| ==> r.shape.lengths[k] == 1
    ensures InRange(r.shape.vertices, r.pool) && Resolve(r.pool, r.shape.vertices) == Positions(es)
    ensures r.shape.astm == Texts(es)
    ensures |r.diags| == |PointStrays(es)|
    ensures forall k :: 0 <= k < |r.diags| ==>
              r.diags[k] == Diagnostic(Warning, ExpectedPointsMessage(l, PointStrays(es)[k]), OfEntity(PointStrays(es)[k]))
  {
    if |es| == 0 then Built(EmptyShape, p, [])
    else
      var e := es[|es| - 1];
      var init := es[..|es| - 1];
      var b := PointShape(p, init, l);
      ExtendsTransitive(b.pool, p, p);
      PointRunsArePositions(es);
      if e.Point? then
        var one := Intern(b.pool, e.position);
        assert Resolve(one.pool, [one.index]) == [e.position];
        AppendRun(b.shape, b.pool, one.pool, PointRuns(init), [one.index], [e.position]);
        ExtendsTransitive(one.pool, b.pool, p);
        Built(Shape(b.shape.lengths + [1], b.shape.vertices + [one.index], b.shape.astm), one.pool, b.diags)
      else if e.Text? then
        Built(b.shape.(astm := b.shape.astm + [e.text]), b.pool, b.diags)
      else
        Built(b.shape, b.pool, b.diags + [Diagnostic(Warning, ExpectedPointsMessage(l, e), OfEntity(e))])
  }

  // -------------------------------------------------------------- annotation

  /** What `_.omit(entity, ['type', 'layer', 'handle'])` keeps of a TEXT. */
  datatype Annotation = Annotation(text: string)

  datatype Annotated = Annotated(annotation: Option<Annotation>, diags: seq<Diagnostic>)

  function NonTexts(es: seq<Entity>): seq<Entity> {
    if |es| == 0 then []
    else
      var e := es[|es| - 1];
      if e.Text? then NonTexts(es[..|es| - 1]) else NonTexts(es[..|es| - 1]) + [e]
  }

  /** `_createText`: the last TEXT of the layer, or null when there is none;
      anything other than TEXT raises a warning. */
  function AnnotationOf(es: seq<Entity>, l: AstmLayer): (r: Annotated)
    ensures r.annotation.None? <==> |Texts(es)| == 0
    ensures r.annotation.Some? ==> r.annotation.value.text == Texts(es)[|Texts(es)| - 1]
    ensures |r.diags| == |NonTexts(es)|
    ensures forall k :: 0 <= k < |r.diags| ==>
              r.diags[k] == Diagnostic(Warning, ExpectedPointsMessage(l, NonTexts(es)[k]), OfEntity(NonTexts(es)[k]))
  {
    if |es| == 0 then Annotated(None, [])
    else
      var e := es[|es| - 1];
      var b := AnnotationOf(es[..|es| - 1], l);
      if e.Text? then
        Annotated(Some(Annotation(e.text)), b.diags)
      else
        Annotated(b.annotation, b.diags + [Diagnostic(Warning, ExpectedPointsMessage(l, e), OfEntity(e))])
  }

  // ---------------------------------------------------------------- warnings

  /** The warnings each builder owes, one per entity it has no use for, in
      block order; each is written from the entity alone. */
  function InternalWarnings(strays: seq<Entity>): (r: seq<Diagnostic>)
    ensures |r| == |strays|
  {
    seq(|strays|, k requires 0 <= k < |strays| => Diagnostic(Warning, InternalShapeMessage(strays[k]), OfEntity(strays[k])))
  }

  /** The warning about a LINE of other than two points, or about an entity
      that is neither LINE nor TEXT. */
  function LineWarningFor(e: Entity): (d: Diagnostic)
    ensures LineWarning(d, e)
  {
    if e.Line? then Diagnostic(Warning, LineCountMessage(|e.vertices|), OfVertices(e.vertices))
    else Diagnostic(Warning, TurnPointsMessage(e), OfEntity(e))
  }

  function LineWarnings(complaints: seq<Entity>): (r: seq<Diagnostic>)
    ensures |r| == |complaints|
  {
    seq(|complaints|, k requires 0 <= k < |complaints| => LineWarningFor(complaints[k]))
  }

  /** The warnings of the points and annotation builders of layer `l`. */
  function PointWarnings(l: AstmLayer, strays: seq<Entity>): (r: seq<Diagnostic>)
    ensures |r| == |strays|
  {
    seq(|strays|, k requires 0 <= k < |strays| => Diagnostic(Warning, ExpectedPointsMessage(l, strays[k]), OfEntity(strays[k])))
  }

  /** A line warning is determined by its entity. */
  lemma LineWarningIsDetermined(d: Diagnostic, e: Entity)
    requires LineWarning(d, e)
    ensures d == LineWarningFor(e)
  {
  }

  /** The internal-lines builder raises exactly the warnings its strays call for. */
  lemma OutlineWarnings(p: Pool, es: seq<Entity>)
    requires |p| % 2 == 0
    ensures OutlineShape(p, es, false).diags == []
    ensures OutlineShape(p, es, true).diags == InternalWarnings(OutlineStrays(es))
  {
    var d := OutlineShape(p, es, true).diags;
    assert forall k :: 0 <= k < |d| ==> d[k] == InternalWarnings(OutlineStrays(es))[k];
  }

  /** The lines builder, when it does not throw, raises exactly the warnings
      its complaints call for. */
  lemma LineShapeWarnings(p: Pool, es: seq<Entity>)
    requires |p| % 2 == 0
    ensures LineShape(p, es).Ok? ==> LineShape(p, es).value.diags == LineWarnings(LineComplaints(es))
  {
    if LineShape(p, es).Ok? {
      var d := LineShape(p, es).value.diags;
      forall k | 0 <= k < |d| ensures d[k] == LineWarnings(LineComplaints(es))[k] {
        LineWarningIsDetermined(d[k], LineComplaints(es)[k]);
      }
    }
  }

  /** The points builder raises exactly the warnings its strays call for. */
  lemma PointShapeWarnings(p: Pool, es: seq<Entity>, l: AstmLayer)
    requires |p| % 2 == 0
    ensures PointShape(p, es, l).diags == PointWarnings(l, PointStrays(es))
  {
    var d := PointShape(p, es, l).diags;
    assert forall k :: 0 <= k < |d| ==> d[k] == PointWarnings(l, PointStrays(es))[k];
  }

  /** The annotation builder warns once per entity that is not a TEXT. */
  lemma AnnotationWarnings(es: seq<Entity>, l: AstmLayer)
    ensures AnnotationOf(es, l).diags == PointWarnings(l, NonTexts(es))
  {
    var d := AnnotationOf(es, l).diags;
    assert forall k :: 0 <= k < |d| ==> d[k] == PointWarnings(l, NonTexts(es))[k];
  }
}
