/** The older assembler of `src/index.ts` (`ASTMParser`): it reads the size
    and the piece name of every block, groups the blocks by piece name, builds
    a boundary and an internal-lines shape per block into one vertex pool that
    the parser instance keeps for its whole life, and hands the result, with
    the sorted sizes and the base size, to a callback. */
module LegacyAssembler {
  import opened Wrappers
  import opened Dxf
  import opened Layers
  import opened VertexPool
  import opened Shapes
  import opened Builders
  import opened KeyValues
  import opened Ordering

  /** The JavaScript number operations the assembler relies on, left
      uninterpreted: unary plus on what `_findKey` returns (`None` is null),
      the property key `String(n)` a number is stored under, and the
      inch-to-millimetre scaling `x * 25.4` applied to every coordinate. */
  datatype Conversion<!N> = Conversion(plus: Option<string> -> N, key: N -> string, scale: Coord -> Coord)

  // ---------------------------------------------------------------- scaling

  function ScaleVertex<N>(c: Conversion<N>, v: Vertex): Vertex {
    Vertex(c.scale(v.x), c.scale(v.y))
  }

  function ScaleAll<N>(c: Conversion<N>, vs: seq<Vertex>): (r: seq<Vertex>)
    ensures |r| == |vs| && forall k :: 0 <= k < |vs| ==> r[k] == ScaleVertex(c, vs[k])
  {
    seq(|vs|, k requires 0 <= k < |vs| => ScaleVertex(c, vs[k]))
  }

  /** An entity as `_getVertexIndex` sees it: the points of its LINE or
      POLYLINE scaled, everything else as it was. */
  function ScaleEntity<N>(c: Conversion<N>, e: Entity): (r: Entity)
    ensures r.layer == e.layer && r.Line? == e.Line? && r.Polyline? == e.Polyline?
    ensures !(e.Line? || e.Polyline?) ==> r == e
  {
    match e
    case Line(l, vs) => Line(l, ScaleAll(c, vs))
    case Polyline(l, vs) => Polyline(l, ScaleAll(c, vs))
    case _ => e
  }

  function Scaled<N>(c: Conversion<N>, es: seq<Entity>): (r: seq<Entity>)
    ensures |r| == |es| && forall k :: 0 <= k < |es| ==> r[k] == ScaleEntity(c, es[k])
  {
    seq(|es|, k requires 0 <= k < |es| => ScaleEntity(c, es[k]))
  }

  /** The number of points of the LINE and POLYLINE entities numerically on
      layer `code`: how often a builder of that layer calls
      `_getVertexIndex`. */
  function VerticesOn(es: seq<Entity>, code: int): nat {
    if |es| == 0 then 0
    else
      var e := es[|es| - 1];
      VerticesOn(es[..|es| - 1], code) + Contribution(e, code)
  }

  lemma OutlineRunsSnoc(es: seq<Entity>, e: Entity)
    ensures OutlineRuns(es + [e]) == OutlineRuns(es) + if e.Line? || e.Polyline? then [e.vertices] else []
  {
    assert (es + [e])[..|es|] == es;
  }

  lemma ConcatSnoc(runs: seq<seq<Vertex>>, more: seq<seq<Vertex>>)
    requires |more| <= 1
    ensures |Concat(runs + more)| == |Concat(runs)| + if |more| == 1 then |more[0]| else 0
  {
    if |more| == 1 {
      assert (runs + more)[..|runs|] == runs;
    } else {
      assert runs + more == runs;
    }
  }

  /** The points one entity adds on layer `code`. */
  function Contribution(e: Entity, code: int): nat {
    if (e.Line? || e.Polyline?) && OnLayerNumeric(e, code) then |e.vertices| else 0
  }

  lemma PointCountSnoc(es: seq<Entity>, e: Entity, code: int)
    ensures |Concat(OutlineRuns(FilterNumeric(es + [e], code)))|
            == |Concat(OutlineRuns(FilterNumeric(es, code)))| + Contribution(e, code)
  {
    FilterNumericSnoc(es, e, code);
    var f := FilterNumeric(es, code);
    if OnLayerNumeric(e, code) {
      OutlineRunsSnoc(f, e);
      ConcatSnoc(OutlineRuns(f), if e.Line? || e.Polyline? then [e.vertices] else []);
    } else {
      assert f + [] == f;
    }
  }

  /** The points an outline builder interns on layer `code` are the points
      counted by `VerticesOn`. */
  lemma {:induction false} OutlinePointCount(es: seq<Entity>, code: int)
    ensures |Concat(OutlineRuns(FilterNumeric(es, code)))| == VerticesOn(es, code)
  {
    if |es| > 0 {
      var init := es[..|es| - 1];
      var e := es[|es| - 1];
      assert es == init + [e];
      OutlinePointCount(init, code);
      PointCountSnoc(init, e, code);
      assert VerticesOn(es, code) == VerticesOn(init, code) + Contribution(e, code);
    }
  }

  // ----------------------------------------------------------------- pieces

  /** A piece of the older output: its name (null when the block has none)
      and its two shapes per size key. */
  datatype LegacyPiece = LegacyPiece(name: Option<string>, shapes: map<string, Shape>, internalShapes: map<string, Shape>)

  /** The names of the pieces, in the order the piece map holds them. */
  function Names(ps: seq<LegacyPiece>): (r: seq<Option<string>>)
    ensures |r| == |ps| && forall k :: 0 <= k < |ps| ==> r[k] == ps[k].name
  {
    seq(|ps|, k requires 0 <= k < |ps| => ps[k].name)
  }

  /** `pieceMap.get(name)`. */
  function Lookup(ps: seq<LegacyPiece>, name: Option<string>): Option<LegacyPiece> {
    var i := IndexIn(Names(ps), name);
    if i == -1 then None else Some(ps[i])
  }

  /** The piece of `name`, created empty on first sight, with the two shapes
      of one block stored under `key`: the body of the `forEach` after the
      size and the name are read. */
  function Place(ps: seq<LegacyPiece>, name: Option<string>, key: string, bd: Shape, il: Shape): (r: seq<LegacyPiece>)
    ensures Names(r) == if name in Names(ps) then Names(ps) else Names(ps) + [name]
  {
    var i := IndexIn(Names(ps), name);
    if i == -1 then
      ps + [LegacyPiece(name, map[key := bd], map[key := il])]
    else
      var q := ps[i];
      ps[i := q.(shapes := q.shapes[key := bd], internalShapes := q.internalShapes[key := il])]
  }

  /** The piece `name` has once a block's shapes are stored under `key`:
      the one it had with that key overwritten, or a new one holding only
      that key. */
  function Stored(before: Option<LegacyPiece>, name: Option<string>, key: string, bd: Shape, il: Shape): LegacyPiece {
    match before
    case None => LegacyPiece(name, map[key := bd], map[key := il])
    case Some(q) => q.(shapes := q.shapes[key := bd], internalShapes := q.internalShapes[key := il])
  }

  /** Placing stores the shapes under the key of the named piece and touches
      nothing else: other pieces, and the other keys of this one, keep their
      shapes. */
  lemma PlaceStores(ps: seq<LegacyPiece>, name: Option<string>, key: string, bd: Shape, il: Shape)
    requires Distinct(Names(ps))
    ensures var r := Place(ps, name, key, bd, il);
            && Distinct(Names(r))
            && Lookup(r, name) == Some(Stored(Lookup(ps, name), name, key, bd, il))
            && Stored(Lookup(ps, name), name, key, bd, il).name == name
            && forall n :: n != name ==> Lookup(r, n) == Lookup(ps, n)
  {
    PlaceKeepsOthers(ps, name, key, bd, il);
    if name in Names(ps) {
      PlaceExisting(ps, name, key, bd, il);
    } else {
      PlaceNew(ps, name, key, bd, il);
    }
  }

  /** A new name gets a new piece, listed last, holding just the key. */
  lemma PlaceNew(ps: seq<LegacyPiece>, name: Option<string>, key: string, bd: Shape, il: Shape)
    requires Distinct(Names(ps)) && name !in Names(ps)
    ensures var r := Place(ps, name, key, bd, il);
            && Distinct(Names(r))
            && Lookup(r, name) == Some(LegacyPiece(name, map[key := bd], map[key := il]))
  {
    var r := Place(ps, name, key, bd, il);
    assert r == ps + [LegacyPiece(name, map[key := bd], map[key := il])];
    assert Names(r) == Names(ps) + [name];
    DistinctAdd(Names(ps), name);
    var i := IndexIn(Names(r), name);
    assert i == |ps| by {
      assert Names(r)[|ps|] == name;
    }
  }

  /** A known name has the key of its piece overwritten in place. */
  lemma PlaceExisting(ps: seq<LegacyPiece>, name: Option<string>, key: string, bd: Shape, il: Shape)
    requires Distinct(Names(ps)) && name in Names(ps)
    ensures var r := Place(ps, name, key, bd, il);
            var q := Lookup(ps, name).value;
            && Distinct(Names(r))
            && q.name == name
            && Lookup(r, name) == Some(q.(shapes := q.shapes[key := bd], internalShapes := q.internalShapes[key := il]))
  {
    var r := Place(ps, name, key, bd, il);
    var i := IndexIn(Names(ps), name);
    assert Names(r) == Names(ps);
    assert IndexIn(Names(r), name) == i;
  }
  /** What another name, or another key of the same name, held before
      placing, it still holds after. */
  lemma PlaceKeepsKey(ps: seq<LegacyPiece>, name: Option<string>, key: string, bd: Shape, il: Shape, n: Option<string>, k: string)
    requires Distinct(Names(ps))
    requires n != name || k != key
    ensures var q, q' := Lookup(ps, n), Lookup(Place(ps, name, key, bd, il), n);
            && (q.Some? ==> q'.Some?)
            && (q.Some? && k in q.value.shapes ==> k in q'.value.shapes && q'.value.shapes[k] == q.value.shapes[k])
            && (q.Some? && k in q.value.internalShapes ==>
                  k in q'.value.internalShapes && q'.value.internalShapes[k] == q.value.internalShapes[k])
  {
    if n != name {
      PlaceKeepsOthers(ps, name, key, bd, il);
    } else {
      PlaceStores(ps, name, key, bd, il);
    }
  }

  /** The placed piece refers into a pool that extends the old one and
      holds the two new shapes. */
  lemma PlacedPieceInto(ps: seq<LegacyPiece>, name: Option<string>, key: string, bd: Shape, il: Shape, p: Pool, p': Pool)
    requires Distinct(Names(ps)) && Extends(p', p)
    requires Lookup(ps, name).Some? ==> PieceInto(Lookup(ps, name).value, p)
    requires WellFormed(bd, p') && WellFormed(il, p')
    ensures PieceInto(Lookup(Place(ps, name, key, bd, il), name).value, p')
  {
    PlaceStores(ps, name, key, bd, il);
    if Lookup(ps, name).Some? {
      PieceIntoStable(Lookup(ps, name).value, p, p');
    }
  }


  /** Placing one name leaves every other name's piece as it was. */
  lemma PlaceKeepsOthers(ps: seq<LegacyPiece>, name: Option<string>, key: string, bd: Shape, il: Shape)
    requires Distinct(Names(ps))
    ensures forall n :: n != name ==> Lookup(Place(ps, name, key, bd, il), n) == Lookup(ps, n)
  {
    var r := Place(ps, name, key, bd, il);
    var i := IndexIn(Names(ps), name);
    if i == -1 {
      assert Names(r) == Names(ps) + [name];
      forall n | n != name ensures Lookup(r, n) == Lookup(ps, n) {
        if n in Names(ps) {
          IndexInPrefix(Names(ps), name, n);
        }
      }
    } else {
      assert Names(r) == Names(ps);
      forall n | n != name ensures Lookup(r, n) == Lookup(ps, n) {
        var j := IndexIn(Names(ps), n);
        assert j != i;
      }
    }
  }

  // ------------------------------------------------------------------ blocks

  /** The parser instance's own state: the vertex pool, which it keeps from
      one parse to the next, and the number of `_getVertexIndex` calls. */
  datatype Parser = Parser(vertices: Pool, count: nat)

  /** What `_transform` has gathered: the piece map and the size set, each in
      insertion order, and the parser. */
  datatype Gathered<N> = Gathered(pieces: seq<LegacyPiece>, sizes: seq<N>, parser: Parser)

  /** `+this._findKey(value.entities, 'size')`: a block without a size key
      gets `+null`. */
  function BlockSize<N>(c: Conversion<N>, b: Block): N {
    c.plus(FindKey(b.entities, "size"))
  }

  /** `this._findKey(value.entities, 'piece name')`, null included. */
  function BlockName(b: Block): Option<string> {
    FindKey(b.entities, "piece name")
  }

  /** How often one block makes the parser intern a point. */
  function BlockCalls(b: Block): nat {
    VerticesOn(b.entities, 1) + VerticesOn(b.entities, 8)
  }

  /** The boundary of a block: `_createBoundery` keeps the entities
      numerically on layer 1 and skips every other type silently. */
  function BlockBoundary<N>(c: Conversion<N>, p: Pool, b: Block): (r: Built)
    requires |p| % 2 == 0
    ensures |r.pool| % 2 == 0 && Extends(r.pool, p) && (Unique(p) ==> Unique(r.pool))
    ensures Encodes(r.shape, r.pool, OutlineRuns(Scaled(c, FilterNumeric(b.entities, 1))))
    ensures r.shape.astm == Texts(FilterNumeric(b.entities, 1))
    ensures |r.shape.vertices| == VerticesOn(b.entities, 1)
  {
    OutlineBuilt(c, p, b.entities, 1)
  }

  /** The internal lines of a block: `_createInternalShapes` keeps the
      entities numerically on layer 8; the other types only reach the
      console. */
  function BlockInternals<N>(c: Conversion<N>, p: Pool, b: Block): (r: Built)
    requires |p| % 2 == 0
    ensures |r.pool| % 2 == 0 && Extends(r.pool, p) && (Unique(p) ==> Unique(r.pool))
    ensures Encodes(r.shape, r.pool, OutlineRuns(Scaled(c, FilterNumeric(b.entities, 8))))
    ensures r.shape.astm == Texts(FilterNumeric(b.entities, 8))
    ensures |r.shape.vertices| == VerticesOn(b.entities, 8)
  {
    OutlineBuilt(c, p, b.entities, 8)
  }

  function OutlineBuilt<N>(c: Conversion<N>, p: Pool, es: seq<Entity>, code: int): (r: Built)
    requires |p| % 2 == 0
    ensures |r.pool| % 2 == 0 && Extends(r.pool, p) && (Unique(p) ==> Unique(r.pool))
    ensures Encodes(r.shape, r.pool, OutlineRuns(Scaled(c, FilterNumeric(es, code))))
    ensures r.shape.astm == Texts(FilterNumeric(es, code))
    ensures |r.shape.vertices| == VerticesOn(es, code)
  {
    var f := FilterNumeric(es, code);
    var r := OutlineShape(p, Scaled(c, f), false);
    OutlinePointCount(es, code);
    ScaledPointCount(c, f);
    ScaledTexts(c, f);
    r
  }

  /** Scaling leaves the texts alone. */
  lemma {:induction false} ScaledTexts<N>(c: Conversion<N>, es: seq<Entity>)
    ensures Texts(Scaled(c, es)) == Texts(es)
  {
    if |es| > 0 {
      var init := es[..|es| - 1];
      ScaledTexts(c, init);
      assert Scaled(c, es)[..|es| - 1] == Scaled(c, init);
    }
  }

  /** Scaling neither adds nor removes points. */
  lemma {:induction false} ScaledPointCount<N>(c: Conversion<N>, es: seq<Entity>)
    ensures |Concat(OutlineRuns(Scaled(c, es)))| == |Concat(OutlineRuns(es))|
  {
    if |es| > 0 {
      var init := es[..|es| - 1];
      var e := es[|es| - 1];
      ScaledPointCount(c, init);
      assert es == init + [e];
      assert Scaled(c, es) == Scaled(c, init) + [ScaleEntity(c, e)];
      OutlineRunsSnoc(init, e);
      OutlineRunsSnoc(Scaled(c, init), ScaleEntity(c, e));
      ConcatSnoc(OutlineRuns(init), if e.Line? || e.Polyline? then [e.vertices] else []);
      ConcatSnoc(OutlineRuns(Scaled(c, init)), if e.Line? || e.Polyline? then [ScaleEntity(c, e).vertices] else []);
    }
  }

  /** One turn of the `forEach` over the blocks: read the size and the name,
      add the size to the set, then build the boundary and the internal
      lines into the pool and store them on the named piece under the size's
      key. */
  function AddBlock<N(==)>(c: Conversion<N>, g: Gathered<N>, b: Block): (r: Gathered<N>)
    requires |g.parser.vertices| % 2 == 0
    ensures |r.parser.vertices| % 2 == 0 && Extends(r.parser.vertices, g.parser.vertices)
    ensures Unique(g.parser.vertices) ==> Unique(r.parser.vertices)
    ensures r.parser.count == g.parser.count + BlockCalls(b)
    ensures r.sizes == if BlockSize(c, b) in g.sizes then g.sizes else g.sizes + [BlockSize(c, b)]
    ensures Names(r.pieces) == if BlockName(b) in Names(g.pieces) then Names(g.pieces) else Names(g.pieces) + [BlockName(b)]
  {
    var size := BlockSize(c, b);
    var sizes := if size in g.sizes then g.sizes else g.sizes + [size];
    var bd := BlockBoundary(c, g.parser.vertices, b);
    var il := BlockInternals(c, bd.pool, b);
    ExtendsTransitive(il.pool, bd.pool, g.parser.vertices);
    Gathered(Place(g.pieces, BlockName(b), c.key(size), bd.shape, il.shape), sizes,
             Parser(il.pool, g.parser.count + |bd.shape.vertices| + |il.shape.vertices|))
  }

  /** The shapes a block stores: its boundary and internal lines, decoded
      against the pool as it stands after the block. */
  lemma AddBlockStores<N>(c: Conversion<N>, g: Gathered<N>, b: Block)
    requires |g.parser.vertices| % 2 == 0 && Distinct(Names(g.pieces))
    ensures var r := AddBlock(c, g, b);
            var q := Lookup(r.pieces, BlockName(b));
            var key := c.key(BlockSize(c, b));
            && Distinct(Names(r.pieces))
            && q.Some? && key in q.value.shapes && key in q.value.internalShapes
            && Encodes(q.value.shapes[key], r.parser.vertices, OutlineRuns(Scaled(c, FilterNumeric(b.entities, 1))))
            && Encodes(q.value.internalShapes[key], r.parser.vertices, OutlineRuns(Scaled(c, FilterNumeric(b.entities, 8))))
            && q.value.shapes[key].astm == Texts(FilterNumeric(b.entities, 1))
            && q.value.internalShapes[key].astm == Texts(FilterNumeric(b.entities, 8))
  {
    var bd := BlockBoundary(c, g.parser.vertices, b);
    var il := BlockInternals(c, bd.pool, b);
    EncodesStable(bd.shape, bd.pool, il.pool, OutlineRuns(Scaled(c, FilterNumeric(b.entities, 1))));
    PlaceStores(g.pieces, BlockName(b), c.key(BlockSize(c, b)), bd.shape, il.shape);
  }

  /** A block leaves the other pieces alone, and the other sizes of its own
      piece. */
  lemma AddBlockKeepsOthers<N>(c: Conversion<N>, g: Gathered<N>, b: Block, name: Option<string>, key: string)
    requires |g.parser.vertices| % 2 == 0 && Distinct(Names(g.pieces))
    requires name != BlockName(b) || key != c.key(BlockSize(c, b))
    ensures var q, q' := Lookup(g.pieces, name), Lookup(AddBlock(c, g, b).pieces, name);
            && (q.Some? ==> q'.Some?)
            && (q.Some? && key in q.value.shapes ==> key in q'.value.shapes && q'.value.shapes[key] == q.value.shapes[key])
            && (q.Some? && key in q.value.internalShapes ==>
                  key in q'.value.internalShapes && q'.value.internalShapes[key] == q.value.internalShapes[key])
  {
    var bd := BlockBoundary(c, g.parser.vertices, b);
    var il := BlockInternals(c, bd.pool, b);
    assert AddBlock(c, g, b).pieces == Place(g.pieces, BlockName(b), c.key(BlockSize(c, b)), bd.shape, il.shape);
    PlaceKeepsKey(g.pieces, BlockName(b), c.key(BlockSize(c, b)), bd.shape, il.shape, name, key);
  }

  // -------------------------------------------------------------- invariant

  /** Every shape of the piece refers into `pool`. */
  predicate PieceInto(q: LegacyPiece, pool: Pool) {
    && (forall k :: k in q.shapes ==> WellFormed(q.shapes[k], pool))
    && (forall k :: k in q.internalShapes ==> WellFormed(q.internalShapes[k], pool))
  }

  /** What holds between blocks: the pool is duplicate-free, piece names and
      sizes are each listed once, and every shape refers into the pool. */
  predicate Coherent<N(==)>(g: Gathered<N>) {
    && Valid(g.parser.vertices)
    && Distinct(Names(g.pieces)) && Distinct(g.sizes)
    && forall i :: 0 <= i < |g.pieces| ==> PieceInto(g.pieces[i], g.parser.vertices)
  }

  lemma PieceIntoStable(q: LegacyPiece, p: Pool, p': Pool)
    requires PieceInto(q, p) && Extends(p', p)
    ensures PieceInto(q, p')
  {
    forall k | k in q.shapes ensures WellFormed(q.shapes[k], p') {
      WellFormedStable(q.shapes[k], p, p');
    }
    forall k | k in q.internalShapes ensures WellFormed(q.internalShapes[k], p') {
      WellFormedStable(q.internalShapes[k], p, p');
    }
  }

  /** Every piece in the list is one `Lookup` finds by its name. */
  lemma LookupFinds(ps: seq<LegacyPiece>, i: nat)
    requires i < |ps| && Distinct(Names(ps))
    ensures Lookup(ps, ps[i].name) == Some(ps[i])
  {
    var j := IndexIn(Names(ps), ps[i].name);
    assert Names(ps)[i] == ps[i].name;
  }

  /** A piece `Lookup` finds is one of the list's. */
  lemma LookupIsListed(ps: seq<LegacyPiece>, name: Option<string>)
    requires Lookup(ps, name).Some?
    ensures exists i :: 0 <= i < |ps| && ps[i] == Lookup(ps, name).value
  {
    var i := IndexIn(Names(ps), name);
    assert ps[i] == Lookup(ps, name).value;
  }

  /** The shapes a block stores refer into the grown pool, next to the old
      ones. */
  lemma StoredPieceInto<N>(c: Conversion<N>, g: Gathered<N>, b: Block)
    requires Coherent(g)
    ensures var r := AddBlock(c, g, b);
            PieceInto(Lookup(r.pieces, BlockName(b)).value, r.parser.vertices)
  {
    var name, key := BlockName(b), c.key(BlockSize(c, b));
    var bd := BlockBoundary(c, g.parser.vertices, b);
    var il := BlockInternals(c, bd.pool, b);
    var runs1, runs8 := OutlineRuns(Scaled(c, FilterNumeric(b.entities, 1))), OutlineRuns(Scaled(c, FilterNumeric(b.entities, 8)));
    EncodesStable(bd.shape, bd.pool, il.pool, runs1);
    EncodesWellFormed(bd.shape, il.pool, runs1);
    EncodesWellFormed(il.shape, il.pool, runs8);
    ExtendsTransitive(il.pool, bd.pool, g.parser.vertices);
    if Lookup(g.pieces, name).Some? {
      LookupIsListed(g.pieces, name);
    }
    PlacedPieceInto(g.pieces, name, key, bd.shape, il.shape, g.parser.vertices, il.pool);
    assert AddBlock(c, g, b) == Gathered(Place(g.pieces, name, key, bd.shape, il.shape), AddBlock(c, g, b).sizes, AddBlock(c, g, b).parser);
    assert AddBlock(c, g, b).parser.vertices == il.pool;
  }

  /** Each block keeps the invariant. */
  lemma AddBlockKeepsCoherent<N>(c: Conversion<N>, g: Gathered<N>, b: Block)
    requires Coherent(g)
    ensures Coherent(AddBlock(c, g, b))
  {
    DistinctAdd(g.sizes, BlockSize(c, b));
    DistinctAdd(Names(g.pieces), BlockName(b));
    AddBlockPiecesInto(c, g, b);
  }

  /** After a block, every piece refers into the grown pool. */
  lemma AddBlockPiecesInto<N>(c: Conversion<N>, g: Gathered<N>, b: Block)
    requires Coherent(g)
    ensures var r := AddBlock(c, g, b);
            forall i :: 0 <= i < |r.pieces| ==> PieceInto(r.pieces[i], r.parser.vertices)
  {
    var r := AddBlock(c, g, b);
    var name := BlockName(b);
    AddBlockStores(c, g, b);
    var bd := BlockBoundary(c, g.parser.vertices, b);
    var il := BlockInternals(c, bd.pool, b);
    PlaceKeepsOthers(g.pieces, name, c.key(BlockSize(c, b)), bd.shape, il.shape);
    StoredPieceInto(c, g, b);
    forall i | 0 <= i < |r.pieces| ensures PieceInto(r.pieces[i], r.parser.vertices) {
      LookupFinds(r.pieces, i);
      var n := r.pieces[i].name;
      if n != name {
        LookupIsListed(g.pieces, n);
        PieceIntoStable(r.pieces[i], g.parser.vertices, r.parser.vertices);
      }
    }
  }

  // ---------------------------------------------------------------- all blocks

  /** How often the blocks make the parser intern a point. */
  function TotalCalls(blocks: seq<Block>): nat {
    if |blocks| == 0 then 0 else TotalCalls(blocks[..|blocks| - 1]) + BlockCalls(blocks[|blocks| - 1])
  }

  /** The `forEach` over `Object.keys(dxf.blocks)`, the blocks taken in key
      order. */
  function Assemble<N(==)>(c: Conversion<N>, g: Gathered<N>, blocks: seq<Block>): (r: Gathered<N>)
    requires |g.parser.vertices| % 2 == 0
    ensures |r.parser.vertices| % 2 == 0 && Extends(r.parser.vertices, g.parser.vertices)
    ensures Unique(g.parser.vertices) ==> Unique(r.parser.vertices)
    ensures r.parser.count == g.parser.count + TotalCalls(blocks)
  {
    if |blocks| == 0 then g
    else
      var h := Assemble(c, g, blocks[..|blocks| - 1]);
      var r := AddBlock(c, h, blocks[|blocks| - 1]);
      ExtendsTransitive(r.parser.vertices, h.parser.vertices, g.parser.vertices);
      r
  }

  /** The invariant holds after all blocks. */
  lemma {:induction false} AssembleCoherent<N>(c: Conversion<N>, g: Gathered<N>, blocks: seq<Block>)
    requires Coherent(g)
    ensures Coherent(Assemble(c, g, blocks))
  {
    if |blocks| > 0 {
      AssembleCoherent(c, g, blocks[..|blocks| - 1]);
      AddBlockKeepsCoherent(c, Assemble(c, g, blocks[..|blocks| - 1]), blocks[|blocks| - 1]);
    }
  }

  /** The blocks' piece names, in block order. */
  function BlockNames(blocks: seq<Block>): (r: seq<Option<string>>)
    ensures |r| == |blocks|
  {
    if |blocks| == 0 then [] else BlockNames(blocks[..|blocks| - 1]) + [BlockName(blocks[|blocks| - 1])]
  }

  /** The blocks' sizes, in block order. */
  function BlockSizes<N>(c: Conversion<N>, blocks: seq<Block>): (r: seq<N>)
    ensures |r| == |blocks|
  {
    if |blocks| == 0 then [] else BlockSizes(c, blocks[..|blocks| - 1]) + [BlockSize(c, blocks[|blocks| - 1])]
  }

  /** The last block's step of the fold: its name joins the piece names and
      its size the sizes, each unless already there. */
  lemma AssembleLast<N>(c: Conversion<N>, g: Gathered<N>, blocks: seq<Block>)
    requires |g.parser.vertices| % 2 == 0 && |blocks| > 0
    ensures var h := Assemble(c, g, blocks[..|blocks| - 1]);
            var b := blocks[|blocks| - 1];
            var r := Assemble(c, g, blocks);
            && Names(r.pieces) == (if BlockName(b) in Names(h.pieces) then Names(h.pieces) else Names(h.pieces) + [BlockName(b)])
            && r.sizes == (if BlockSize(c, b) in h.sizes then h.sizes else h.sizes + [BlockSize(c, b)])
  {
  }

  /** The piece map lists the blocks' piece names once each, in order of
      first appearance; blocks without a name share the null piece. */
  lemma {:induction false} AssembleNamesFirstSeen<N>(c: Conversion<N>, parser: Parser, blocks: seq<Block>)
    requires |parser.vertices| % 2 == 0
    ensures Names(Assemble(c, Gathered([], [], parser), blocks).pieces) == Dedup(BlockNames(blocks))
  {
    if |blocks| > 0 {
      var n := |blocks| - 1;
      var names := BlockNames(blocks);
      AssembleNamesFirstSeen(c, parser, blocks[..n]);
      AssembleLast(c, Gathered([], [], parser), blocks);
      DedupLast(names, BlockNames(blocks[..n]), BlockName(blocks[n]));
    }
  }

  /** The size set lists the blocks' sizes once each, in order of first
      appearance; a block without a size key still adds `+null`. */
  lemma {:induction false} AssembleSizesFirstSeen<N>(c: Conversion<N>, parser: Parser, blocks: seq<Block>)
    requires |parser.vertices| % 2 == 0
    ensures Assemble(c, Gathered([], [], parser), blocks).sizes == Dedup(BlockSizes(c, blocks))
  {
    if |blocks| > 0 {
      var n := |blocks| - 1;
      var sizes := BlockSizes(c, blocks);
      AssembleSizesFirstSeen(c, parser, blocks[..n]);
      AssembleLast(c, Gathered([], [], parser), blocks);
      DedupLast(sizes, BlockSizes(c, blocks[..n]), BlockSize(c, blocks[n]));
    }
  }

  /** `r` holds, for piece `name` at size key `key`, the boundary and the
      internal lines of block `b`, each decoding against `r`'s pool. */
  predicate Holds<N>(c: Conversion<N>, r: Gathered<N>, name: Option<string>, key: string, b: Block) {
    var q := Lookup(r.pieces, name);
    && q.Some? && key in q.value.shapes && key in q.value.internalShapes
    && Encodes(q.value.shapes[key], r.parser.vertices, OutlineRuns(Scaled(c, FilterNumeric(b.entities, 1))))
    && Encodes(q.value.internalShapes[key], r.parser.vertices, OutlineRuns(Scaled(c, FilterNumeric(b.entities, 8))))
  }

  /** A piece's shapes at a size are those of the last block with that
      name and that size key, decoded against the final pool: later blocks
      of the same piece and size overwrite earlier ones. */
  lemma {:induction false} LastBlockWins<N>(c: Conversion<N>, g: Gathered<N>, blocks: seq<Block>, j: nat)
    requires Coherent(g) && j < |blocks|
    requires forall i :: j < i < |blocks| ==>
               BlockName(blocks[i]) != BlockName(blocks[j])
               || c.key(BlockSize(c, blocks[i])) != c.key(BlockSize(c, blocks[j]))
    ensures Holds(c, Assemble(c, g, blocks), BlockName(blocks[j]), c.key(BlockSize(c, blocks[j])), blocks[j])
  {
    var n := |blocks| - 1;
    if j == n {
      AssembleLastHolds(c, g, blocks);
    } else {
      assert blocks[..n][j] == blocks[j];
      LastBlockWins(c, g, blocks[..n], j);
      AssembleLaterKeeps(c, g, blocks, blocks[j]);
    }
  }

  /** The fold's last block holds its own lines under its name and key. */
  lemma AssembleLastHolds<N>(c: Conversion<N>, g: Gathered<N>, blocks: seq<Block>)
    requires Coherent(g) && |blocks| > 0
    ensures var b := blocks[|blocks| - 1];
            Holds(c, Assemble(c, g, blocks), BlockName(b), c.key(BlockSize(c, b)), b)
  {
    var init, last := blocks[..|blocks| - 1], blocks[|blocks| - 1];
    var h := Assemble(c, g, init);
    AssembleCoherent(c, g, init);
    assert Assemble(c, g, blocks) == AddBlock(c, h, last);
    LastBlockHolds(c, h, last);
  }

  /** What the fold held for `b` before its last block, it still holds
      after, when that block has another name or size key. */
  lemma AssembleLaterKeeps<N>(c: Conversion<N>, g: Gathered<N>, blocks: seq<Block>, b: Block)
    requires Coherent(g) && |blocks| > 0
    requires var last := blocks[|blocks| - 1];
             BlockName(last) != BlockName(b) || c.key(BlockSize(c, last)) != c.key(BlockSize(c, b))
    requires Holds(c, Assemble(c, g, blocks[..|blocks| - 1]), BlockName(b), c.key(BlockSize(c, b)), b)
    ensures Holds(c, Assemble(c, g, blocks), BlockName(b), c.key(BlockSize(c, b)), b)
  {
    var init, last := blocks[..|blocks| - 1], blocks[|blocks| - 1];
    var h := Assemble(c, g, init);
    AssembleCoherent(c, g, init);
    var r := AddBlock(c, h, last);
    assert Assemble(c, g, blocks) == r;
    var key := c.key(BlockSize(c, b));
    AddBlockKeepsOthers(c, h, last, BlockName(b), key);
    var q := Lookup(h.pieces, BlockName(b)).value;
    EncodesStable(q.shapes[key], h.parser.vertices, r.parser.vertices, OutlineRuns(Scaled(c, FilterNumeric(b.entities, 1))));
    EncodesStable(q.internalShapes[key], h.parser.vertices, r.parser.vertices, OutlineRuns(Scaled(c, FilterNumeric(b.entities, 8))));
  }

  /** The block just added holds its own lines under its name and key. */
  lemma LastBlockHolds<N>(c: Conversion<N>, h: Gathered<N>, last: Block)
    requires Coherent(h)
    ensures Holds(c, AddBlock(c, h, last), BlockName(last), c.key(BlockSize(c, last)), last)
  {
    AddBlockStores(c, h, last);
  }

  // ---------------------------------------------------------------- callback

  /** `IOpenPatternFormat`. */
  datatype Format<N> = Format(baseSize: N, pieces: seq<LegacyPiece>, sizes: seq<N>, vertices: Pool)

  /** One call of the callback: its error argument and its message. */
  datatype Call<N> = Call(err: Option<string>, msg: Option<Format<N>>)

  /** What `_transform` did: the callback calls in order, the parser's state
      afterwards, and the exception it ended with, if any. */
  datatype Outcome<N> = Outcome(calls: seq<Call<N>>, parser: Parser, thrown: Option<string>)

  /** What JavaScript throws when `_transform` reads the blocks of the
      missing drawing that accompanies a parse error. */
  const MissingDrawingError := "TypeError: Cannot read properties of undefined (reading 'blocks')"

  /** `baseSizeStr ? +baseSizeStr : 36`, with `36` written as the number
      `+"36"`. */
  function BaseSize<N>(c: Conversion<N>, es: seq<Entity>): N {
    var s := FindKey(es, "sample size");
    if s.None? || s.value == "" then c.plus(Some("36")) else c.plus(s)
  }

  /** `_transform`: on a parse error it calls back with the error alone and
      then carries on with the drawing it was given; otherwise, and after
      that, it calls back once with the assembled format: the pieces in
      first-seen order, the sizes sorted by their strings, and the parser's
      whole pool. */
  function Transform<N(==)>(c: Conversion<N>, parser: Parser, err: Option<string>, dxf: Option<Document>): (r: Outcome<N>)
    requires |parser.vertices| % 2 == 0
    ensures |r.calls| == (if err.Some? then 1 else 0) + (if dxf.Some? then 1 else 0)
    ensures err.Some? ==> r.calls[0] == Call(err, None)
    ensures r.thrown.Some? <==> dxf.None?
    ensures dxf.Some? ==> r.calls[|r.calls| - 1].err == err && r.calls[|r.calls| - 1].msg.Some?
    ensures |r.parser.vertices| % 2 == 0 && Extends(r.parser.vertices, parser.vertices)
  {
    var first := if err.Some? then [Call(err, None)] else [];
    if dxf.None? then Outcome(first, parser, Some(MissingDrawingError))
    else
      var g := Assemble(c, Gathered([], [], parser), dxf.value.blocks);
      var msg := Format(BaseSize(c, dxf.value.entities), g.pieces, SortByKey(g.sizes, c.key), g.parser.vertices);
      Outcome(first + [Call(err, Some(msg))], g.parser, None)
  }

  /** The format handed to the callback: pieces in order of first
      appearance, each size once and sorted by its string, every shape
      referring into the pool the parser keeps, which is still
      duplicate-free, and one interned point per point read. */
  lemma TransformFormat<N>(c: Conversion<N>, parser: Parser, err: Option<string>, d: Document)
    requires Valid(parser.vertices)
    ensures var r := Transform(c, parser, err, Some(d));
            var f := r.calls[|r.calls| - 1].msg.value;
            && Names(f.pieces) == Dedup(BlockNames(d.blocks))
            && multiset(f.sizes) == multiset(Dedup(BlockSizes(c, d.blocks)))
            && SortedBy(f.sizes, c.key) && Distinct(f.sizes)
            && f.vertices == r.parser.vertices && Valid(f.vertices)
            && (forall i :: 0 <= i < |f.pieces| ==> PieceInto(f.pieces[i], f.vertices))
            && r.parser.count == parser.count + TotalCalls(d.blocks)
  {
    var g := Assemble(c, Gathered([], [], parser), d.blocks);
    AssembleNamesFirstSeen(c, parser, d.blocks);
    AssembleSizesFirstSeen(c, parser, d.blocks);
    AssembleCoherent(c, Gathered([], [], parser), d.blocks);
    PermutationKeepsDistinct(g.sizes, SortByKey(g.sizes, c.key));
  }

  /** The base size is 36 when the top-level entities have no `sample size`
      key or an empty one, and the number of the first one's value
      otherwise. */
  lemma BaseSizeDefaults<N>(c: Conversion<N>, es: seq<Entity>)
    ensures (forall k :: 0 <= k < |es| ==> !Matches(es[k], "sample size")) ==> BaseSize(c, es) == c.plus(Some("36"))
    ensures forall k :: FirstMatch(es, "sample size", k) ==>
              BaseSize(c, es) == if ValueOf(es[k], "sample size") == "" then c.plus(Some("36"))
                                 else c.plus(Some(ValueOf(es[k], "sample size")))
  {
    forall k | FirstMatch(es, "sample size", k)
      ensures FindKey(es, "sample size") == Some(ValueOf(es[k], "sample size"))
    {
      var k' :| FirstMatch(es, "sample size", k') && FindKey(es, "sample size").value == ValueOf(es[k'], "sample size");
      FirstMatchUnique(es, "sample size", k, k');
    }
  }

  /** A block without a size key is stored under the size `+null` rather than
      skipped: the `size !== null` guard never fails. */
  lemma MissingSizeIsStillASize<N>(c: Conversion<N>, b: Block)
    requires forall k :: 0 <= k < |b.entities| ==> !Matches(b.entities[k], "size")
    ensures BlockSize(c, b) == c.plus(None)
  {
  }

  /** The pool belongs to the parser, not to the parse: a second drawing
      parsed by the same parser appends to the first one's points. */
  lemma PoolOutlivesParse<N>(c: Conversion<N>, parser: Parser, d1: Document, d2: Document)
    requires |parser.vertices| % 2 == 0
    ensures var r1 := Transform(c, parser, None, Some(d1));
            var r2 := Transform(c, r1.parser, None, Some(d2));
            Extends(r2.calls[0].msg.value.vertices, r1.calls[0].msg.value.vertices)
  {
  }
}
