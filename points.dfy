/** Points of the plane, the distance test and the set of conflicting points
    that every strategy of `check_for_conflicts` is meant to count. */
module Points {

  /** A neuron position. The generator only ever produces integer coordinates. */
  datatype Point = Point(x: int, y: int)

  /** The squared Euclidean distance `(ax - bx) ** 2 + (ay - by) ** 2`, never negative. */
  function SqDist(a: Point, b: Point): (d: int)
    ensures 0 <= d
  {
    var dx, dy := a.x - b.x, a.y - b.y;
    assert 0 <= dx * dx && 0 <= dy * dy;
    dx * dx + dy * dy
  }

  /** The squared distance vanishes exactly for coincident points. */
  lemma SqDistZero(a: Point, b: Point)
    ensures SqDist(a, b) == 0 <==> a == b
  {
    var dx, dy := a.x - b.x, a.y - b.y;
    assert 0 <= dx * dx && 0 <= dy * dy;
    assert dx * dx == 0 ==> dx == 0;
    assert dy * dy == 0 ==> dy == 0;
  }

  function Sq(s: real): real
  {
    s * s
  }

  /** `math.sqrt(d) <= r` read over the exact reals. The square root of `d` is
      the least upper bound of the non-negative reals whose square is at most
      `d`, so the test holds exactly when every such real is at most `r`; for
      integers that is `0 <= r && d <= r * r`. */
  predicate RootAtMost(d: int, r: int): (b: bool)
    ensures b <==> 0 <= r && forall s :: 0.0 <= s && Sq(s) <= d as real ==> s <= r as real
  {
    RootAtMostReal(d, r);
    0 <= r && d <= r * r
  }

  /** The two readings of the root test agree: below `r * r` no non-negative
      real with square at most `d` exceeds `r`, and above it `r + 1 / (2r + 1)`
      is one that does. */
  lemma RootAtMostReal(d: int, r: int)
    ensures (0 <= r && d <= r * r) <==> 0 <= r && forall s :: 0.0 <= s && Sq(s) <= d as real ==> s <= r as real
  {
    var R := r as real;
    assert (r * r) as real == Sq(R);
    if 0 <= r && d <= r * r {
      forall s | 0.0 <= s && Sq(s) <= d as real
        ensures s <= R
      {
        if R < s {
          SquareGrows(R, s);
        }
      }
    } else if 0 <= r {
      var e := 1.0 / (2.0 * R + 1.0);
      assert e * (2.0 * R + 1.0) == 1.0;
      assert 0.0 < e <= 1.0;
      var s := R + e;
      var rr, extra := R * R, e * (2.0 * R + e);
      assert Sq(s) == rr + extra;
      assert extra <= e * (2.0 * R + 1.0);
      assert (r * r) as real == rr;
      assert (r * r + 1) as real <= d as real;
      assert 0.0 <= s && Sq(s) <= d as real && !(s <= R);
    }
  }

  /** Squaring is strictly increasing on the non-negative reals. */
  lemma SquareGrows(a: real, b: real)
    requires 0.0 <= a < b
    ensures Sq(a) < Sq(b)
  {
    var below, above, between := a * a, b * b, a * b;
    assert below <= between;
    assert between < above;
  }

  /** The Euclidean distance between `a` and `b` is at most `r`. */
  predicate WithinRadius(a: Point, b: Point, r: int)
  {
    RootAtMost(SqDist(a, b), r)
  }

  /** Points `i` and `j` of `nerves` are two distinct points at most `r` apart. */
  predicate InConflict(nerves: seq<Point>, r: int, i: int, j: int)
  {
    0 <= i < |nerves| && 0 <= j < |nerves| && i != j && WithinRadius(nerves[i], nerves[j], r)
  }

  /** Point `i` of `nerves` has a partner at most `r` away. */
  ghost predicate IsConflicting(nerves: seq<Point>, r: int, i: int)
  {
    exists j :: InConflict(nerves, r, i, j)
  }

  /** The indices of the points that take part in at least one conflicting pair. */
  ghost function Conflicts(nerves: seq<Point>, r: int): set<int>
  {
    set i | 0 <= i < |nerves| && IsConflicting(nerves, r, i)
  }

  /** The indices `0 .. n-1`. */
  function Range(n: int): set<int>
    decreases n
  {
    if n <= 0 then {} else Range(n - 1) + {n - 1}
  }

  /** The distinct values of a list, as `set(neurons)` gives them. */
  function ElementsOf(s: seq<int>): set<int>
  {
    set k | k in s
  }

  function Abs(v: int): int
  {
    if v < 0 then -v else v
  }

  /** `Range(n)` holds the `n` indices `0 .. n-1`. */
  lemma {:induction false} RangeSize(n: nat)
    ensures forall i :: i in Range(n) <==> 0 <= i < n
    ensures |Range(n)| == n
  {
    if n > 0 {
      RangeSize(n - 1);
    }
  }

  /** Distance is symmetric, so conflicting is too. */
  lemma ConflictSymmetric(nerves: seq<Point>, r: int, i: int, j: int)
    ensures InConflict(nerves, r, i, j) <==> InConflict(nerves, r, j, i)
  {
    if 0 <= i < |nerves| && 0 <= j < |nerves| {
      var a, b := nerves[i], nerves[j];
      assert (a.x - b.x) * (a.x - b.x) == (b.x - a.x) * (b.x - a.x);
      assert (a.y - b.y) * (a.y - b.y) == (b.y - a.y) * (b.y - a.y);
    }
  }

  /** Every conflicting index is a point index, so there are at most as many
      conflicting points as points. */
  lemma ConflictCountBound(nerves: seq<Point>, r: int)
    ensures Conflicts(nerves, r) <= Range(|nerves|)
    ensures |Conflicts(nerves, r)| <= |nerves|
  {
    RangeSize(|nerves|);
    SubsetSize(Conflicts(nerves, r), Range(|nerves|));
  }

  lemma SubsetSize(a: set<int>, b: set<int>)
    requires a <= b
    ensures |a| <= |b|
  {
    assert b == a + (b - a);
    assert a * (b - a) == {};
  }

  /** With no pair of distinct points there is nothing to conflict. */
  lemma FewPointsNoConflicts(nerves: seq<Point>, r: int)
    requires |nerves| <= 1
    ensures Conflicts(nerves, r) == {}
  {
  }

  /** A pair within the Euclidean radius is within the radius on each axis. */
  lemma AxisGap(a: Point, b: Point, r: int)
    requires WithinRadius(a, b, r)
    ensures Abs(a.x - b.x) <= r && Abs(a.y - b.y) <= r
  {
    var dx, dy := Abs(a.x - b.x), Abs(a.y - b.y);
    assert dx * dx == (a.x - b.x) * (a.x - b.x);
    assert dy * dy == (a.y - b.y) * (a.y - b.y);
    assert 0 <= dy * dy && 0 <= dx * dx;
    SquareBelow(dx, r);
    SquareBelow(dy, r);
  }

  lemma SquareBelow(a: int, r: int)
    requires 0 <= r && a * a <= r * r
    ensures a <= r
  {
  }

  /** A larger radius can only add conflicts. */
  lemma ConflictsGrowWithRadius(nerves: seq<Point>, r1: int, r2: int)
    requires r1 <= r2
    ensures Conflicts(nerves, r1) <= Conflicts(nerves, r2)
    ensures |Conflicts(nerves, r1)| <= |Conflicts(nerves, r2)|
  {
    if 0 <= r1 {
      assert r1 * r1 <= r1 * r2 <= r2 * r2;
    }
    forall i | i in Conflicts(nerves, r1)
      ensures i in Conflicts(nerves, r2)
    {
      var j :| InConflict(nerves, r1, i, j);
      assert InConflict(nerves, r2, i, j);
      assert IsConflicting(nerves, r2, i);
    }
    SubsetSize(Conflicts(nerves, r1), Conflicts(nerves, r2));
  }

  /** What a strategy's marking loop has to establish for its list of marked
      indices to hold exactly the conflicting points: nothing outside a
      conflicting pair is marked, and both ends of every conflicting pair
      `a < b` are. */
  lemma MarksAreConflicts(nerves: seq<Point>, r: int, neurons: seq<int>)
    requires forall k :: k in neurons ==> k in Conflicts(nerves, r)
    requires forall a, b :: 0 <= a < b < |nerves| && WithinRadius(nerves[a], nerves[b], r) ==>
                              a in neurons && b in neurons
    ensures ElementsOf(neurons) == Conflicts(nerves, r)
  {
    forall i | i in Conflicts(nerves, r)
      ensures i in neurons
    {
      var j :| InConflict(nerves, r, i, j);
      ConflictSymmetric(nerves, r, i, j);
      if j < i {
        assert WithinRadius(nerves[j], nerves[i], r);
      } else {
        assert WithinRadius(nerves[i], nerves[j], r);
      }
    }
  }
}
