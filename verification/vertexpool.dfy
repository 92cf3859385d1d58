/** A pattern piece's vertex list: coordinates stored flat as x0, y0, x1, y1,
    ..., grown by interning so that every distinct point is stored once and
    referred to by its position. */
module VertexPool {
  import opened Wrappers
  import opened Dxf

  type Pool = seq<Coord>

  /** The number of points stored (`vertices.length / 2`). */
  function Count(p: Pool): nat {
    |p| / 2
  }

  /** The point stored at position `i`. */
  function At(p: Pool, i: nat): Vertex
    requires i < Count(p)
  {
    Vertex(p[2 * i], p[2 * i + 1])
  }

  predicate Contains(p: Pool, v: Vertex) {
    exists i :: 0 <= i < Count(p) && At(p, i) == v
  }

  /** No point is stored twice. */
  predicate Unique(p: Pool) {
    forall i, j :: 0 <= i < j < Count(p) ==> At(p, i) != At(p, j)
  }

  /** The shape every reachable pool has: whole pairs, each stored once. */
  predicate Valid(p: Pool) {
    |p| % 2 == 0 && Unique(p)
  }

  /** `q` is `p` with possibly more coordinates pushed at the end. */
  predicate Extends(q: Pool, p: Pool) {
    |p| <= |q| && q[..|p|] == p
  }

  /** Pushing coordinates never moves a stored point. */
  lemma AtStable(p: Pool, q: Pool, i: nat)
    requires Extends(q, p) && i < Count(p)
    ensures i < Count(q) && At(q, i) == At(p, i)
  {
    assert q[2 * i] == q[..|p|][2 * i];
    assert q[2 * i + 1] == q[..|p|][2 * i + 1];
  }

  lemma ExtendsTransitive(r: Pool, q: Pool, p: Pool)
    requires Extends(r, q) && Extends(q, p)
    ensures Extends(r, p)
  {
    assert r[..|p|] == r[..|q|][..|p|];
  }

  /** The linear scan of the source: the first position at or after `from`
      holding `v`, if any. */
  function Find(p: Pool, v: Vertex, from: nat): (r: Option<nat>)
    requires from <= Count(p)
    ensures r.Some? ==> from <= r.value < Count(p) && At(p, r.value) == v
    ensures r.Some? ==> forall j :: from <= j < r.value ==> At(p, j) != v
    ensures r.None? ==> forall j :: from <= j < Count(p) ==> At(p, j) != v
    decreases Count(p) - from
  {
    if from == Count(p) then None
    else if At(p, from) == v then Some(from)
    else Find(p, v, from + 1)
  }

  datatype Interned = Interned(pool: Pool, index: nat)

  /** `_getVertexIndex`: the position of `v` in the pool, appending it first
      when it is not there yet. */
  function Intern(p: Pool, v: Vertex): (r: Interned)
    requires |p| % 2 == 0
    ensures |r.pool| % 2 == 0 && Extends(r.pool, p)
    ensures r.index < Count(r.pool) && At(r.pool, r.index) == v
    ensures Contains(p, v) ==> r.pool == p
    ensures !Contains(p, v) ==> r.pool == p + [v.x, v.y] && r.index == Count(p)
    ensures Unique(p) ==> Unique(r.pool)
  {
    match Find(p, v, 0)
    case Some(i) => Interned(p, i)
    case None =>
      var q := p + [v.x, v.y];
      assert forall j :: 0 <= j < Count(p) ==> At(q, j) == At(p, j) by {
        forall j | 0 <= j < Count(p) ensures At(q, j) == At(p, j) { AtStable(p, q, j); }
      }
      Interned(q, Count(p))
  }

  /** The loop of `_getVertexIndex` as written: scan the pairs, return the
      first match, otherwise push the coordinates and return the new last
      position. */
  method GetVertexIndex(p: Pool, v: Vertex) returns (q: Pool, i: nat)
    requires |p| % 2 == 0
    ensures i < Count(q) && At(q, i) == v
    ensures q == p || q == p + [v.x, v.y]
    ensures q == p <==> Contains(p, v)
    ensures Interned(q, i) == Intern(p, v)
  {
    var k := 0;
    while k < |p| / 2
      invariant 0 <= k <= Count(p)
      invariant forall j :: 0 <= j < k ==> At(p, j) != v
    {
      if p[k * 2] == v.x && p[k * 2 + 1] == v.y {
        return p, k;
      }
      k := k + 1;
    }
    q := p + [v.x, v.y];
    i := |q| / 2 - 1;
  }

  /** Interning the same point again gives the same position and leaves the
      pool alone. */
  lemma InternTwice(p: Pool, v: Vertex)
    requires |p| % 2 == 0
    ensures Intern(Intern(p, v).pool, v) == Intern(p, v)
  {
    var a := Intern(p, v);
    if !Contains(p, v) {
      assert Contains(a.pool, v);
      var b := Intern(a.pool, v);
      assert b.index == a.index by {
        if b.index < Count(p) {
          AtStable(p, a.pool, b.index);
        }
      }
    }
  }

  /** Two points interned into a duplicate-free pool get the same position
      exactly when they are equal. */
  lemma InternSeparates(p: Pool, u: Vertex, w: Vertex)
    requires Valid(p)
    ensures var a := Intern(p, u);
            var b := Intern(a.pool, w);
            a.index == b.index <==> u == w
  {
    var a := Intern(p, u);
    var b := Intern(a.pool, w);
    if u == w {
      InternTwice(p, u);
    } else {
      AtStable(a.pool, b.pool, a.index);
    }
  }

  datatype InternedRun = InternedRun(pool: Pool, indices: seq<nat>)

  /** Interns the points of `vs` in order. */
  function InternAll(p: Pool, vs: seq<Vertex>): (r: InternedRun)
    requires |p| % 2 == 0
    ensures |r.pool| % 2 == 0 && Extends(r.pool, p)
    ensures Unique(p) ==> Unique(r.pool)
    ensures |r.indices| == |vs|
    ensures forall k :: 0 <= k < |vs| ==> r.indices[k] < Count(r.pool) && At(r.pool, r.indices[k]) == vs[k]
  {
    if |vs| == 0 then InternedRun(p, [])
    else
      var prev := InternAll(p, vs[..|vs| - 1]);
      var last := Intern(prev.pool, vs[|vs| - 1]);
      assert forall k :: 0 <= k < |vs| - 1 ==> At(last.pool, prev.indices[k]) == vs[k] by {
        forall k | 0 <= k < |vs| - 1 ensures At(last.pool, prev.indices[k]) == vs[k] {
          AtStable(prev.pool, last.pool, prev.indices[k]);
        }
      }
      ExtendsTransitive(last.pool, prev.pool, p);
      InternedRun(last.pool, prev.indices + [last.index])
  }

  predicate InRange(idx: seq<nat>, p: Pool) {
    forall k :: 0 <= k < |idx| ==> idx[k] < Count(p)
  }

  /** The points a run of positions refers to. */
  function Resolve(p: Pool, idx: seq<nat>): (r: seq<Vertex>)
    requires InRange(idx, p)
    ensures |r| == |idx|
  {
    seq(|idx|, k requires 0 <= k < |idx| => At(p, idx[k]))
  }

  /** Positions keep referring to the same points as the pool grows. */
  lemma ResolveStable(p: Pool, q: Pool, idx: seq<nat>)
    requires Extends(q, p) && InRange(idx, p)
    ensures InRange(idx, q) && Resolve(q, idx) == Resolve(p, idx)
  {
    forall k | 0 <= k < |idx| ensures idx[k] < Count(q) && At(q, idx[k]) == At(p, idx[k]) {
      AtStable(p, q, idx[k]);
    }
  }

  /** The positions `InternAll` returns resolve to the points interned. */
  lemma InternAllResolves(p: Pool, vs: seq<Vertex>)
    requires |p| % 2 == 0
    ensures InRange(InternAll(p, vs).indices, InternAll(p, vs).pool)
    ensures Resolve(InternAll(p, vs).pool, InternAll(p, vs).indices) == vs
  {
  }
}
