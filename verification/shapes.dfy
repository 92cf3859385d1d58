/** The run-length shape every builder produces: one run length per line,
    polyline or point, the pool positions of all their points back to back,
    and the `metadata.astm` texts found on the layer. */
module Shapes {
  import opened Dxf
  import opened VertexPool

  /** `astm` lists the texts of `metadata.astm`; an empty list stands for
      metadata without the `astm` key. */
  datatype Shape = Shape(lengths: seq<nat>, vertices: seq<nat>, astm: seq<string>)

  const EmptyShape := Shape([], [], [])

  function Sum(xs: seq<nat>): nat {
    if |xs| == 0 then 0 else Sum(xs[..|xs| - 1]) + xs[|xs| - 1]
  }

  /** The shape invariant: as many positions as the run lengths add up to,
      each one a point of the pool. */
  predicate WellFormed(s: Shape, p: Pool) {
    |s.vertices| == Sum(s.lengths) && InRange(s.vertices, p)
  }

  /** The runs laid end to end. */
  function Concat(runs: seq<seq<Vertex>>): seq<Vertex> {
    if |runs| == 0 then [] else Concat(runs[..|runs| - 1]) + runs[|runs| - 1]
  }

  function Lengths(runs: seq<seq<Vertex>>): (r: seq<nat>)
    ensures |r| == |runs| && forall k :: 0 <= k < |runs| ==> r[k] == |runs[k]|
  {
    seq(|runs|, k requires 0 <= k < |runs| => |runs[k]|)
  }

  /** `s` encodes the point runs `runs` against pool `p`: its lengths are the
      runs' lengths and its positions resolve to their points in order. */
  predicate Encodes(s: Shape, p: Pool, runs: seq<seq<Vertex>>) {
    && s.lengths == Lengths(runs)
    && InRange(s.vertices, p)
    && Resolve(p, s.vertices) == Concat(runs)
  }

  lemma {:induction false} SumOfLengths(runs: seq<seq<Vertex>>)
    ensures Sum(Lengths(runs)) == |Concat(runs)|
  {
    if |runs| > 0 {
      var init := runs[..|runs| - 1];
      SumOfLengths(init);
      assert Lengths(runs)[..|runs| - 1] == Lengths(init);
    }
  }

  /** A shape that encodes some runs satisfies the shape invariant. */
  lemma EncodesWellFormed(s: Shape, p: Pool, runs: seq<seq<Vertex>>)
    requires Encodes(s, p, runs)
    ensures WellFormed(s, p)
  {
    SumOfLengths(runs);
  }

  /** The encoding survives growth of the pool. */
  lemma EncodesStable(s: Shape, p: Pool, q: Pool, runs: seq<seq<Vertex>>)
    requires Encodes(s, p, runs) && Extends(q, p)
    ensures Encodes(s, q, runs)
  {
    ResolveStable(p, q, s.vertices);
  }

  /** The well-formedness survives growth of the pool. */
  lemma WellFormedStable(s: Shape, p: Pool, q: Pool)
    requires WellFormed(s, p) && Extends(q, p)
    ensures WellFormed(s, q)
  {
    ResolveStable(p, q, s.vertices);
  }

  /** Appending one run of positions that resolve to `vs` appends `vs` to
      the encoded runs. */
  lemma AppendRun(s: Shape, p: Pool, q: Pool, runs: seq<seq<Vertex>>, idx: seq<nat>, vs: seq<Vertex>)
    requires Encodes(s, p, runs) && Extends(q, p)
    requires InRange(idx, q) && Resolve(q, idx) == vs
    ensures Encodes(Shape(s.lengths + [|vs|], s.vertices + idx, s.astm), q, runs + [vs])
  {
    EncodesStable(s, p, q, runs);
    var t := Shape(s.lengths + [|vs|], s.vertices + idx, s.astm);
    assert (runs + [vs])[..|runs|] == runs;
    assert Lengths(runs + [vs]) == Lengths(runs) + [|vs|];
    assert Resolve(q, t.vertices) == Resolve(q, s.vertices) + Resolve(q, idx);
  }

  /** The empty shape encodes no runs. */
  lemma EmptyEncodesNothing(p: Pool)
    ensures Encodes(EmptyShape, p, [])
  {
  }
}
