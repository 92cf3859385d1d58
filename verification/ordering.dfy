/** JavaScript's default `Array.prototype.sort` order: elements compare by
    their string forms, character by character; and the insertion order in
    which a `Set` or a `Map` lists what was added to it. */
module Ordering {

  /** `a <= b` in the default string order: `a` is a prefix of `b`, or at the
      first position where they differ `a` has the smaller character. */
  predicate LexLe(a: string, b: string)
    decreases |a|
  {
    |a| == 0 || (|b| > 0 && (a[0] < b[0] || (a[0] == b[0] && LexLe(a[1..], b[1..]))))
  }

  lemma {:induction false} LexLeReflexive(a: string)
    ensures LexLe(a, a)
    decreases |a|
  {
    if |a| > 0 {
      LexLeReflexive(a[1..]);
    }
  }

  lemma {:induction false} LexLeTotal(a: string, b: string)
    ensures LexLe(a, b) || LexLe(b, a)
    decreases |a|
  {
    if |a| > 0 && |b| > 0 && a[0] == b[0] {
      LexLeTotal(a[1..], b[1..]);
    }
  }

  lemma {:induction false} LexLeTransitive(a: string, b: string, c: string)
    requires LexLe(a, b) && LexLe(b, c)
    ensures LexLe(a, c)
    decreases |a|
  {
    if |a| > 0 && a[0] == b[0] && b[0] == c[0] {
      LexLeTransitive(a[1..], b[1..], c[1..]);
    }
  }

  lemma {:induction false} LexLeAntisymmetric(a: string, b: string)
    requires LexLe(a, b) && LexLe(b, a)
    ensures a == b
    decreases |a|
  {
    if |a| > 0 {
      LexLeAntisymmetric(a[1..], b[1..]);
      assert a == [a[0]] + a[1..] && b == [b[0]] + b[1..];
    }
  }

  /** The string order puts "10" before "2", unlike the numeric order. */
  lemma TenSortsBeforeTwo()
    ensures LexLe("10", "2") && !LexLe("2", "10")
  {
  }

  predicate SortedBy<T>(xs: seq<T>, key: T -> string) {
    forall i, j :: 0 <= i < j < |xs| ==> LexLe(key(xs[i]), key(xs[j]))
  }

  predicate Distinct<T(==)>(xs: seq<T>) {
    forall i, j :: 0 <= i < j < |xs| ==> xs[i] != xs[j]
  }

  /** Places `x` after every element of `s` whose key is not greater. */
  function Insert<T(==)>(x: T, s: seq<T>, key: T -> string): (r: seq<T>)
    ensures multiset(r) == multiset(s) + multiset{x}
  {
    if |s| == 0 then [x]
    else if LexLe(key(s[0]), key(x)) then
      assert s == [s[0]] + s[1..];
      [s[0]] + Insert(x, s[1..], key)
    else [x] + s
  }

  lemma {:induction false} InsertSorted<T>(x: T, s: seq<T>, key: T -> string)
    requires SortedBy(s, key)
    ensures SortedBy(Insert(x, s, key), key)
  {
    var r := Insert(x, s, key);
    if |s| == 0 {
    } else if LexLe(key(s[0]), key(x)) {
      InsertSorted(x, s[1..], key);
      var t := Insert(x, s[1..], key);
      forall j | 0 <= j < |t|
        ensures LexLe(key(s[0]), key(t[j]))
      {
        assert t[j] in multiset(t);
        assert t[j] in multiset(s[1..]) + multiset{x};
        if t[j] != x || t[j] in multiset(s[1..]) {
          if t[j] in multiset(s[1..]) {
            var k :| 0 <= k < |s[1..]| && s[1..][k] == t[j];
            assert s[k + 1] == t[j];
          }
        }
      }
    } else {
      LexLeTotal(key(s[0]), key(x));
      forall j | 0 <= j < |s|
        ensures LexLe(key(x), key(s[j]))
      {
        if j > 0 {
          LexLeTransitive(key(x), key(s[0]), key(s[j]));
        }
      }
    }
  }

  /** A stable insertion sort by key, standing for `Array.prototype.sort()`
      without a comparison function: the result is an ordered permutation. */
  function SortByKey<T(==)>(xs: seq<T>, key: T -> string): (r: seq<T>)
    ensures multiset(r) == multiset(xs)
    ensures SortedBy(r, key)
  {
    if |xs| == 0 then []
    else
      var prefix := xs[..|xs| - 1];
      assert xs == prefix + [xs[|xs| - 1]];
      var sorted := SortByKey(prefix, key);
      InsertSorted(xs[|xs| - 1], sorted, key);
      Insert(xs[|xs| - 1], sorted, key)
  }

  lemma {:induction false} DistinctIffSingleOccurrences<T>(xs: seq<T>)
    ensures Distinct(xs) <==> forall x :: multiset(xs)[x] <= 1
  {
    if |xs| > 0 {
      var prefix := xs[..|xs| - 1];
      var y := xs[|xs| - 1];
      assert xs == prefix + [y];
      DistinctIffSingleOccurrences(prefix);
      if Distinct(xs) {
        assert y !in prefix;
        assert multiset(prefix)[y] == 0;
      } else {
        var i, j :| 0 <= i < j < |xs| && xs[i] == xs[j];
        if j < |xs| - 1 {
          assert prefix[i] == prefix[j];
          var x :| multiset(prefix)[x] > 1;
          assert multiset(xs)[x] >= multiset(prefix)[x];
        } else {
          assert prefix[i] == y;
          assert multiset(xs)[y] == multiset(prefix)[y] + 1;
        }
      }
    }
  }

  /** A permutation of a duplicate-free list is duplicate-free. */
  lemma PermutationKeepsDistinct<T>(xs: seq<T>, ys: seq<T>)
    requires multiset(xs) == multiset(ys)
    requires Distinct(xs)
    ensures Distinct(ys)
  {
    DistinctIffSingleOccurrences(xs);
    DistinctIffSingleOccurrences(ys);
  }

  // ------------------------------------------------------- insertion order

  /** The position of `x` in `xs`, or -1. */
  function IndexIn<T(==)>(xs: seq<T>, x: T): (r: int)
    ensures r == -1 <==> x !in xs
    ensures r != -1 ==> 0 <= r < |xs| && xs[r] == x && x !in xs[..r]
  {
    if |xs| == 0 then -1
    else if xs[0] == x then 0
    else
      var k := IndexIn(xs[1..], x);
      assert xs == [xs[0]] + xs[1..];
      if k == -1 then -1 else k + 1
  }

  /** What a `Set` (or a `Map`'s keys) lists after `xs` were added in turn:
      every value once, in order of first addition. */
  function Dedup<T(==)>(xs: seq<T>): (r: seq<T>) {
    if |xs| == 0 then []
    else
      var r := Dedup(xs[..|xs| - 1]);
      if xs[|xs| - 1] in r then r else r + [xs[|xs| - 1]]
  }

  /** Adding one more value appends it unless it is already listed. */
  lemma DedupLast<T>(xs: seq<T>, init: seq<T>, x: T)
    requires xs == init + [x]
    ensures Dedup(xs) == if x in Dedup(init) then Dedup(init) else Dedup(init) + [x]
  {
    assert xs[..|xs| - 1] == init;
  }

  /** The listing holds every added value exactly once. */
  lemma {:induction false} DedupSpec<T>(xs: seq<T>)
    ensures Distinct(Dedup(xs))
    ensures forall x :: x in Dedup(xs) <==> x in xs
  {
    if |xs| > 0 {
      var init := xs[..|xs| - 1];
      DedupSpec(init);
      assert xs == init + [xs[|xs| - 1]];
    }
  }

  lemma DedupMember<T>(xs: seq<T>, i: nat)
    requires i < |Dedup(xs)|
    ensures Dedup(xs)[i] in xs
  {
    DedupSpec(xs);
    assert Dedup(xs)[i] in Dedup(xs);
  }

  /** The listing is in order of first addition: a value added first before
      another is listed before it. */
  lemma {:induction false} DedupFirstSeen<T>(xs: seq<T>, i: nat, j: nat)
    requires i < j < |Dedup(xs)|
    ensures IndexIn(xs, Dedup(xs)[i]) < IndexIn(xs, Dedup(xs)[j])
  {
    var init := xs[..|xs| - 1];
    var y := xs[|xs| - 1];
    var d := Dedup(init);
    DedupSpec(init);
    DedupSpec(xs);
    assert xs == init + [y];
    DedupMember(init, i);
    if j < |d| {
      DedupMember(init, j);
      DedupFirstSeen(init, i, j);
      IndexInPrefix(init, y, d[i]);
      IndexInPrefix(init, y, d[j]);
    } else {
      assert Dedup(xs) == d + [y] && y !in init;
      IndexInPrefix(init, y, d[i]);
      assert IndexIn(xs, y) == |init|;
    }
  }

  /** Appending does not move what is already there. */
  lemma IndexInPrefix<T>(xs: seq<T>, y: T, x: T)
    requires x in xs
    ensures IndexIn(xs + [y], x) == IndexIn(xs, x)
  {
    var i := IndexIn(xs, x);
    var k := IndexIn(xs + [y], x);
    assert (xs + [y])[i] == x;
    assert (xs + [y])[..i] == xs[..i];
  }

  /** Adding an element the way a `Set` does keeps the elements distinct. */
  lemma DistinctAdd<T>(xs: seq<T>, x: T)
    requires Distinct(xs)
    ensures Distinct(if x in xs then xs else xs + [x])
  {
  }
}
