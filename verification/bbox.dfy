/** The axis-aligned bounding box the SVG renderer grows point by point.
    Coordinates are JavaScript numbers, modelled exactly (no rounding, no
    sign of zero) together with the two infinities and NaN, because the
    empty box is spelled with infinities. */
module BBox {
  datatype Num = NaN | NegInf | Fin(v: real) | PosInf

  /** JavaScript `a < b`: false as soon as either side is NaN. */
  predicate Lt(a: Num, b: Num) {
    match a
    case NaN => false
    case NegInf => b.Fin? || b.PosInf?
    case Fin(x) => b.PosInf? || (b.Fin? && x < b.v)
    case PosInf => false
  }

  /** JavaScript `a > b`. */
  predicate Gt(a: Num, b: Num) {
    Lt(b, a)
  }

  /** `a <= b` between numbers that are not NaN. */
  predicate Le(a: Num, b: Num) {
    Lt(a, b) || (a == b && !a.NaN?)
  }

  function Neg(a: Num): Num {
    match a
    case NaN => NaN
    case NegInf => PosInf
    case Fin(x) => Fin(-x)
    case PosInf => NegInf
  }

  /** JavaScript `a + b`: NaN propagates, and infinities of opposite sign
      give NaN. */
  function Add(a: Num, b: Num): Num {
    if a.NaN? || b.NaN? then NaN
    else if a.Fin? && b.Fin? then Fin(a.v + b.v)
    else if (a.PosInf? && b.NegInf?) || (a.NegInf? && b.PosInf?) then NaN
    else if a.Fin? then b
    else a
  }

  /** JavaScript `a - b`. */
  function Sub(a: Num, b: Num): Num {
    Add(a, Neg(b))
  }

  datatype Point = Point(x: Num, y: Num)

  datatype Box = Box(min: Point, max: Point)

  predicate NoNaN(p: Point) {
    !p.x.NaN? && !p.y.NaN?
  }

  predicate Finite(p: Point) {
    p.x.Fin? && p.y.Fin?
  }

  /** Neither corner holds a NaN. */
  predicate Sane(b: Box) {
    NoNaN(b.min) && NoNaN(b.max)
  }

  /** `p` lies in the closed box. */
  predicate Inside(p: Point, b: Box) {
    && Le(b.min.x, p.x) && Le(p.x, b.max.x)
    && Le(b.min.y, p.y) && Le(p.y, b.max.y)
  }

  /** `new BBox()`: min at (+∞, +∞) and max at (−∞, −∞), a box holding no
      point at all. */
  function Empty(): (b: Box)
    ensures Sane(b)
    ensures forall p :: !Inside(p, b)
  {
    Box(Point(PosInf, PosInf), Point(NegInf, NegInf))
  }

  /** `width`: max.x − min.x. */
  function Width(b: Box): Num {
    Sub(b.max.x, b.min.x)
  }

  /** `height`: max.y − min.y. */
  function Height(b: Box): Num {
    Sub(b.max.y, b.min.y)
  }

  /** `x > m ? x : m`. */
  function Higher(m: Num, x: Num): Num {
    if Gt(x, m) then x else m
  }

  /** `x < m ? x : m`. */
  function Lower(m: Num, x: Num): Num {
    if Lt(x, m) then x else m
  }

  /** `addToBox`: each corner coordinate moves out to the point's when the
      point lies beyond it, so no corner ever moves inward. The box grows to
      hold the point and everything it held before, stays put exactly when the point is already inside, and a
      NaN coordinate is ignored because every comparison with it is false. */
  function AddToBox(b: Box, p: Point): (r: Box)
    ensures Sane(b) && NoNaN(p) ==>
              && Sane(r) && Inside(p, r)
              && (forall q :: Inside(q, b) ==> Inside(q, r))
              && (r == b <==> Inside(p, b))
    ensures Sane(b) ==>
              && Le(r.min.x, b.min.x) && Le(r.min.y, b.min.y)
              && Le(b.max.x, r.max.x) && Le(b.max.y, r.max.y)
    ensures p.x.NaN? ==> r.min.x == b.min.x && r.max.x == b.max.x
    ensures p.y.NaN? ==> r.min.y == b.min.y && r.max.y == b.max.y
  {
    Box(Point(Lower(b.min.x, p.x), Lower(b.min.y, p.y)),
        Point(Higher(b.max.x, p.x), Higher(b.max.y, p.y)))
  }

  /** The box a caller gets by adding `pts` one after another to a fresh
      box, as the renderer does for every vertex it draws. */
  function BoxOf(pts: seq<Point>): (r: Box)
    ensures |pts| == 0 ==> r == Empty()
    ensures (forall i :: 0 <= i < |pts| ==> NoNaN(pts[i])) ==> Sane(r)
  {
    if |pts| == 0 then Empty() else AddToBox(BoxOf(pts[..|pts| - 1]), pts[|pts| - 1])
  }

  /** The box of a list of points is its hull: every point lies inside, and
      each of the four corner coordinates is attained by some point, so no
      smaller box holds them all. */
  lemma {:induction false} BoxOfIsHull(pts: seq<Point>)
    requires forall i :: 0 <= i < |pts| ==> NoNaN(pts[i])
    ensures forall i :: 0 <= i < |pts| ==> Inside(pts[i], BoxOf(pts))
    ensures |pts| > 0 ==>
              var r := BoxOf(pts);
              && (exists i :: 0 <= i < |pts| && pts[i].x == r.min.x)
              && (exists i :: 0 <= i < |pts| && pts[i].y == r.min.y)
              && (exists i :: 0 <= i < |pts| && pts[i].x == r.max.x)
              && (exists i :: 0 <= i < |pts| && pts[i].y == r.max.y)
  {
    if |pts| > 0 {
      var n := |pts| - 1;
      var init, p := pts[..n], pts[n];
      assert forall i :: 0 <= i < n ==> init[i] == pts[i];
      BoxOfIsHull(init);
      var b := BoxOf(init);
      var r := BoxOf(pts);
      assert r == AddToBox(b, p);
      forall i | 0 <= i < |pts|
        ensures Inside(pts[i], r)
      {
        if i < n {
          assert Inside(init[i], b);
        }
      }
      if n == 0 {
        assert r == Box(p, p);
      } else {
        if r.min.x != p.x {
          var i :| 0 <= i < n && init[i].x == b.min.x;
          assert pts[i].x == r.min.x;
        }
        if r.min.y != p.y {
          var i :| 0 <= i < n && init[i].y == b.min.y;
          assert pts[i].y == r.min.y;
        }
        if r.max.x != p.x {
          var i :| 0 <= i < n && init[i].x == b.max.x;
          assert pts[i].x == r.max.x;
        }
        if r.max.y != p.y {
          var i :| 0 <= i < n && init[i].y == b.max.y;
          assert pts[i].y == r.max.y;
        }
      }
    }
  }

  /** One point gives a box with both corners at the point and no extent. */
  lemma SinglePoint(p: Point)
    requires Finite(p)
    ensures BoxOf([p]) == Box(p, p)
    ensures Width(BoxOf([p])) == Fin(0.0) && Height(BoxOf([p])) == Fin(0.0)
  {
    assert [p][..0] == [];
  }

  /** The box of finitely many finite points has finite corners and a width
      and height that are never negative. */
  lemma HullExtent(pts: seq<Point>)
    requires |pts| > 0 && forall i :: 0 <= i < |pts| ==> Finite(pts[i])
    ensures var r := BoxOf(pts);
            && Finite(r.min) && Finite(r.max)
            && Width(r).Fin? && Width(r).v >= 0.0
            && Height(r).Fin? && Height(r).v >= 0.0
  {
    BoxOfIsHull(pts);
    var r := BoxOf(pts);
    var i :| 0 <= i < |pts| && pts[i].x == r.min.x;
    var j :| 0 <= j < |pts| && pts[j].y == r.min.y;
    var k :| 0 <= k < |pts| && pts[k].x == r.max.x;
    var l :| 0 <= l < |pts| && pts[l].y == r.max.y;
    assert Finite(pts[i]) && Finite(pts[j]) && Finite(pts[k]) && Finite(pts[l]);
    FiniteExtent(r, pts[i]);
  }

  /** A box with finite corners holding a point has a width and height that
      are never negative. */
  lemma FiniteExtent(r: Box, p: Point)
    requires Finite(r.min) && Finite(r.max) && Inside(p, r)
    ensures Width(r).Fin? && Width(r).v >= 0.0 && Height(r).Fin? && Height(r).v >= 0.0
  {
    assert Width(r) == Fin(r.max.x.v - r.min.x.v);
    assert Height(r) == Fin(r.max.y.v - r.min.y.v);
  }

  /** A point inside the box leaves it as it was, and adding the same point
      twice is adding it once. */
  lemma AddToBoxIdempotent(b: Box, p: Point)
    requires Sane(b) && NoNaN(p)
    ensures AddToBox(AddToBox(b, p), p) == AddToBox(b, p)
  {
  }

  /** The order in which points are added does not matter. */
  lemma AddToBoxCommutes(b: Box, p: Point, q: Point)
    ensures AddToBox(AddToBox(b, p), q) == AddToBox(AddToBox(b, q), p)
  {
  }

  /** `merge` of two distinct boxes, as written: the other box's min corner
      is added as a point, then its max corner. */
  function Merge(b: Box, other: Box): Box {
    AddToBox(AddToBox(b, other.min), other.max)
  }

  /** `b.merge(b)`: `other.max` is the very corner the first `addToBox`
      has just moved, so the second point read is the moved max. */
  function MergeSelf(b: Box): (r: Box)
    ensures var b1 := AddToBox(b, b.min);
            Sane(b) ==> Inside(b1.max, r) && (forall q :: Inside(q, b) ==> Inside(q, r))
  {
    var b1 := AddToBox(b, b.min);
    AddToBox(b1, b1.max)
  }

  /** Merging a fresh box with itself does not give the whole plane, as
      merging a distinct fresh box does: both corners end at (+∞, +∞), a
      box holding no finite point. */
  lemma MergeSelfEmpty()
    ensures MergeSelf(Empty()) == Box(Point(PosInf, PosInf), Point(PosInf, PosInf))
    ensures Merge(Empty(), Empty()) == Box(Point(NegInf, NegInf), Point(PosInf, PosInf))
    ensures forall p :: Finite(p) ==> !Inside(p, MergeSelf(Empty()))
  {
  }

  /** On a box holding a point, merging with itself changes nothing, and
      agrees with the merge of a distinct copy. */
  lemma MergeSelfProper(b: Box)
    requires Sane(b)
    requires Le(b.min.x, b.max.x) && Le(b.min.y, b.max.y)
    ensures MergeSelf(b) == b && Merge(b, b) == b
  {
    assert Inside(b.min, b) && Inside(b.max, b);
  }

  /** Merging a fresh box covers the whole plane: its min corner (+∞, +∞)
      pushes max out to +∞ and its max corner (−∞, −∞) pushes min out to −∞. */
  lemma MergeEmptyIsWholePlane(b: Box)
    requires Sane(b)
    ensures Merge(b, Empty()) == Box(Point(NegInf, NegInf), Point(PosInf, PosInf))
    ensures forall p :: NoNaN(p) ==> Inside(p, Merge(b, Empty()))
  {
  }

  /** `merge` as it is evidently meant: min against min and max against max.
      The result holds both boxes. */
  function MergeBoxes(b: Box, other: Box): (r: Box)
    ensures Sane(b) && Sane(other) ==>
              && Sane(r)
              && (forall q :: Inside(q, b) ==> Inside(q, r))
              && (forall q :: Inside(q, other) ==> Inside(q, r))
  {
    Box(Point(Lower(b.min.x, other.min.x), Lower(b.min.y, other.min.y)),
        Point(Higher(b.max.x, other.max.x), Higher(b.max.y, other.max.y)))
  }

  /** A fresh box is neutral for the corrected merge, on either side. */
  lemma MergeBoxesEmpty(b: Box)
    requires Sane(b)
    ensures MergeBoxes(b, Empty()) == b
    ensures MergeBoxes(Empty(), b) == b
  {
  }

  /** When the other box holds at least one point, the merge as written
      agrees with the corrected one. */
  lemma MergeAgreesOnProperBoxes(b: Box, other: Box)
    requires Sane(b) && Sane(other)
    requires Le(other.min.x, other.max.x) && Le(other.min.y, other.max.y)
    ensures Merge(b, other) == MergeBoxes(b, other)
  {
  }

  lemma HigherAssociates(a: Num, b: Num, c: Num)
    requires !a.NaN? && !b.NaN? && !c.NaN?
    ensures Higher(a, Higher(b, c)) == Higher(Higher(a, b), c)
  {
  }

  lemma LowerAssociates(a: Num, b: Num, c: Num)
    requires !a.NaN? && !b.NaN? && !c.NaN?
    ensures Lower(a, Lower(b, c)) == Lower(Lower(a, b), c)
  {
  }

  /** Adding a point to the other box and then merging is merging and then
      adding the point. */
  lemma MergeBoxesAddToBox(b: Box, c: Box, p: Point)
    requires Sane(b) && Sane(c) && NoNaN(p)
    ensures MergeBoxes(b, AddToBox(c, p)) == AddToBox(MergeBoxes(b, c), p)
  {
    HigherAssociates(b.max.x, c.max.x, p.x);
    HigherAssociates(b.max.y, c.max.y, p.y);
    LowerAssociates(b.min.x, c.min.x, p.x);
    LowerAssociates(b.min.y, c.min.y, p.y);
  }

  /** The corrected merge of two point sets' boxes is the box of both sets. */
  lemma {:induction false} MergeBoxesOfHulls(a: seq<Point>, c: seq<Point>)
    requires forall i :: 0 <= i < |a| ==> NoNaN(a[i])
    requires forall i :: 0 <= i < |c| ==> NoNaN(c[i])
    ensures MergeBoxes(BoxOf(a), BoxOf(c)) == BoxOf(a + c)
  {
    if |c| == 0 {
      assert a + c == a;
      MergeBoxesEmpty(BoxOf(a));
    } else {
      var n := |c| - 1;
      var init, p := c[..n], c[n];
      assert forall i :: 0 <= i < n ==> init[i] == c[i];
      MergeBoxesOfHulls(a, init);
      assert (a + c)[..|a + c| - 1] == a + init;
      assert (a + c)[|a + c| - 1] == p;
      assert forall i :: 0 <= i < |a + init| ==> NoNaN((a + init)[i]);
      MergeBoxesAddToBox(BoxOf(a), BoxOf(init), p);
    }
  }

  /** `translate`: both corners move by the offset. */
  function Translate(b: Box, dx: Num, dy: Num): Box {
    Box(Point(Add(b.min.x, dx), Add(b.min.y, dy)),
        Point(Add(b.max.x, dx), Add(b.max.y, dy)))
  }

  function Shift(p: Point, dx: real, dy: real): Point {
    Point(Add(p.x, Fin(dx)), Add(p.y, Fin(dy)))
  }

  /** A zero offset leaves every box as it is. */
  lemma TranslateZero(b: Box)
    ensures Translate(b, Fin(0.0), Fin(0.0)) == b
  {
  }

  /** Translating back by the opposite finite offset restores the box, the
      empty one included. */
  lemma TranslateInverse(b: Box, dx: real, dy: real)
    ensures Translate(Translate(b, Fin(dx), Fin(dy)), Fin(-dx), Fin(-dy)) == b
  {
  }

  /** A finite translation keeps width and height. */
  lemma TranslateKeepsExtent(b: Box, dx: real, dy: real)
    requires Finite(b.min) && Finite(b.max)
    ensures Width(Translate(b, Fin(dx), Fin(dy))) == Width(b)
    ensures Height(Translate(b, Fin(dx), Fin(dy))) == Height(b)
  {
  }

  lemma TranslateAddToBox(b: Box, p: Point, dx: real, dy: real)
    requires Sane(b) && NoNaN(p)
    ensures Translate(AddToBox(b, p), Fin(dx), Fin(dy))
            == AddToBox(Translate(b, Fin(dx), Fin(dy)), Shift(p, dx, dy))
  {
  }

  /** Translating the box of a point set gives the box of the translated
      points. */
  lemma {:induction false} TranslateHull(pts: seq<Point>, dx: real, dy: real)
    requires forall i :: 0 <= i < |pts| ==> NoNaN(pts[i])
    ensures Translate(BoxOf(pts), Fin(dx), Fin(dy)) == BoxOf(seq(|pts|, i requires 0 <= i < |pts| => Shift(pts[i], dx, dy)))
  {
    var moved := seq(|pts|, i requires 0 <= i < |pts| => Shift(pts[i], dx, dy));
    if |pts| > 0 {
      var n := |pts| - 1;
      var init := pts[..n];
      assert forall i :: 0 <= i < n ==> init[i] == pts[i];
      TranslateHull(init, dx, dy);
      assert moved[..n] == seq(n, i requires 0 <= i < n => Shift(init[i], dx, dy));
      TranslateAddToBox(BoxOf(init), pts[n], dx, dy);
    }
  }
}
