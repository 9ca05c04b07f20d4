/** `check_for_conflicts`: four strategies that count the points of `nerves`
    lying within `r` of some other point. Each builds the list `neurons` of
    marked indices by appending both ends of every pair that passes its
    distance test, and returns the number of distinct marked indices. */
module ConflictCheck {
  import opened Points
  import opened AxisSort
  import opened AxisSweep

  datatype Option<T> = None | Some(value: T)

  /** The stand-in distance method 1 gives a point paired with itself. */
  const SelfDistance := 10000

  /** The indices method 1 marks through self-pairs: all of them once the
      radius reaches the stand-in distance, none before. */
  function SelfMarks(n: int, r: int): set<int>
  {
    if SelfDistance <= r then Range(n) else {}
  }

  /** The distance test of method 1 on the ordered pair `(a, b)`: for two
      distinct points it is the conflict test, and for a point paired with
      itself it passes exactly when that point is a self-mark. */
  predicate OrderedPairPasses(nerves: seq<Point>, r: int, a: int, b: int): (p: bool)
    requires 0 <= a < |nerves| && 0 <= b < |nerves|
    ensures a != b ==> (p <==> InConflict(nerves, r, a, b))
    ensures a == b ==> (p <==> a in SelfMarks(|nerves|, r))
  {
    RangeSize(|nerves|);
    if a == b then SelfDistance <= r else WithinRadius(nerves[a], nerves[b], r)
  }

  /** Method 1: every ordered pair `(i, j)`, the self-pair included, with the
      stand-in distance for `i == j`. */
  method CountOrderedPairs(nerves: seq<Point>, r: int) returns (count: nat)
    ensures count == |Conflicts(nerves, r) + SelfMarks(|nerves|, r)|
  {
    var n := |nerves|;
    ghost var marked := Conflicts(nerves, r) + SelfMarks(n, r);
    RangeSize(n);
    var neurons: seq<int> := [];
    for i := 0 to n
      invariant forall k :: k in neurons ==> k in marked
      invariant forall a, b :: 0 <= a < i && 0 <= b < n && OrderedPairPasses(nerves, r, a, b) ==>
                  a in neurons && b in neurons
    {
      for j := 0 to n
        invariant forall k :: k in neurons ==> k in marked
        invariant forall a, b :: 0 <= a < i && 0 <= b < n && OrderedPairPasses(nerves, r, a, b) ==>
                    a in neurons && b in neurons
        invariant forall b :: 0 <= b < j && OrderedPairPasses(nerves, r, i, b) ==> i in neurons && b in neurons
      {
        var passes: bool;
        if i == j {
          passes := SelfDistance <= r;
        } else {
          passes := RootAtMost(SqDist(nerves[i], nerves[j]), r);
        }
        if passes {
          if i != j {
            assert InConflict(nerves, r, i, j);
            ConflictSymmetric(nerves, r, i, j);
            assert IsConflicting(nerves, r, i) && IsConflicting(nerves, r, j);
          }
          neurons := neurons + [i, j];
        }
      }
    }
    forall k | k in marked
      ensures k in neurons
    {
      if k in Conflicts(nerves, r) {
        var j :| InConflict(nerves, r, k, j);
        assert OrderedPairPasses(nerves, r, k, j);
      } else {
        assert OrderedPairPasses(nerves, r, k, k);
      }
    }
    assert ElementsOf(neurons) == marked;
    count := |ElementsOf(neurons)|;
  }

  /** Method 2: each unordered pair `i < j` once, `math.sqrt` of the squared
      distance compared with `r`. */
  method CountUnorderedPairs(nerves: seq<Point>, r: int) returns (count: nat)
    ensures count == |Conflicts(nerves, r)|
  {
    var n := |nerves|;
    var neurons: seq<int> := [];
    var i := 0;
    while i < n - 1
      invariant 0 <= i && (n == 0 || i <= n - 1)
      invariant forall k :: k in neurons ==> k in Conflicts(nerves, r)
      invariant forall a, b :: 0 <= a < i && a < b < n && WithinRadius(nerves[a], nerves[b], r) ==>
                  a in neurons && b in neurons
    {
      for j := i + 1 to n
        invariant forall k :: k in neurons ==> k in Conflicts(nerves, r)
        invariant forall a, b :: 0 <= a < i && a < b < n && WithinRadius(nerves[a], nerves[b], r) ==>
                    a in neurons && b in neurons
        invariant forall b :: i < b < j && WithinRadius(nerves[i], nerves[b], r) ==> i in neurons && b in neurons
      {
        if RootAtMost(SqDist(nerves[i], nerves[j]), r) {
          MarkPair(nerves, r, i, j);
          neurons := neurons + [i, j];
        }
      }
      i := i + 1;
    }
    MarksAreConflicts(nerves, r, neurons);
    count := |ElementsOf(neurons)|;
  }

  /** Method 3: method 2 with the squared distance compared with `r ** 2`.
      Squaring forgets the sign of `r`, so this counts the points within `|r|`
      of another. */
  method CountUnorderedPairsSquared(nerves: seq<Point>, r: int) returns (count: nat)
    ensures count == |Conflicts(nerves, Abs(r))|
  {
    var conflict := r * r;
    ghost var radius := Abs(r);
    assert radius * radius == conflict;
    var n := |nerves|;
    var neurons: seq<int> := [];
    var i := 0;
    while i < n - 1
      invariant 0 <= i && (n == 0 || i <= n - 1)
      invariant forall k :: k in neurons ==> k in Conflicts(nerves, radius)
      invariant forall a, b :: 0 <= a < i && a < b < n && WithinRadius(nerves[a], nerves[b], radius) ==>
                  a in neurons && b in neurons
    {
      for j := i + 1 to n
        invariant forall k :: k in neurons ==> k in Conflicts(nerves, radius)
        invariant forall a, b :: 0 <= a < i && a < b < n && WithinRadius(nerves[a], nerves[b], radius) ==>
                    a in neurons && b in neurons
        invariant forall b :: i < b < j && WithinRadius(nerves[i], nerves[b], radius) ==>
                    i in neurons && b in neurons
      {
        var dist := SqDist(nerves[i], nerves[j]);
        if dist <= conflict {
          MarkPair(nerves, radius, i, j);
          neurons := neurons + [i, j];
        }
      }
      i := i + 1;
    }
    MarksAreConflicts(nerves, radius, neurons);
    count := |ElementsOf(neurons)|;
  }

  /** Both ends of a pair that passes the test are conflicting points. */
  lemma MarkPair(nerves: seq<Point>, r: int, i: int, j: int)
    requires 0 <= i < |nerves| && 0 <= j < |nerves| && i != j
    requires WithinRadius(nerves[i], nerves[j], r)
    ensures i in Conflicts(nerves, r) && j in Conflicts(nerves, r)
  {
    assert InConflict(nerves, r, i, j);
    ConflictSymmetric(nerves, r, i, j);
    assert IsConflicting(nerves, r, i) && IsConflicting(nerves, r, j);
  }

  /** The candidate `c` names two points whose squared distance is at most `conflict`. */
  predicate CandidatePasses(nerves: seq<Point>, conflict: int, c: (int, int))
  {
    0 <= c.0 < |nerves| && 0 <= c.1 < |nerves| && SqDist(nerves[c.0], nerves[c.1]) <= conflict
  }

  /** The candidate `c` joins two distinct points at most `r` apart along the
      x axis or along the y axis, the first one not the larger there. */
  predicate AxisClose(nerves: seq<Point>, r: int, c: (int, int))
  {
    0 <= c.0 < |nerves| && 0 <= c.1 < |nerves| && c.0 != c.1 &&
    ((nerves[c.0].x <= nerves[c.1].x <= nerves[c.0].x + r) ||
     (nerves[c.0].y <= nerves[c.1].y <= nerves[c.0].y + r))
  }

  /** The candidate generation of method 4: `candidates_x + candidates_y`.
      Every candidate is close along one axis, and every two distinct points
      close along the x axis are among the candidates, in one order or the other. */
  method AxisCandidates(nerves: seq<Point>, r: int) returns (candidates: seq<(int, int)>)
    ensures forall c :: c in candidates ==> AxisClose(nerves, r, c)
    ensures forall a, b ::
              0 <= a < |nerves| && 0 <= b < |nerves| && a != b && Abs(nerves[a].x - nerves[b].x) <= r ==>
                (a, b) in candidates || (b, a) in candidates
  {
    var candidatesX := SweepAxis(XCoords(nerves), r);
    var candidatesY := SweepAxis(YCoords(nerves), r);
    candidates := candidatesX + candidatesY;
  }

  /** Method 4: candidates from a sweep along each axis, each checked with the
      squared distance. */
  method CountAxisSweep(nerves: seq<Point>, r: int) returns (count: nat)
    ensures count == |Conflicts(nerves, r)|
  {
    var n := |nerves|;
    var conflict := r * r;
    var candidates := AxisCandidates(nerves, r);
    var neurons: seq<int> := [];
    for t := 0 to |candidates|
      invariant forall k :: k in neurons ==> k in Conflicts(nerves, r)
      invariant forall s :: 0 <= s < t && CandidatePasses(nerves, conflict, candidates[s]) ==>
                  candidates[s].0 in neurons && candidates[s].1 in neurons
    {
      var pair := candidates[t];
      assert AxisClose(nerves, r, pair);
      var dist := SqDist(nerves[pair.0], nerves[pair.1]);
      if dist <= conflict {
        MarkPair(nerves, r, pair.0, pair.1);
        neurons := neurons + [pair.0, pair.1];
      }
    }
    forall a, b | 0 <= a < b < n && WithinRadius(nerves[a], nerves[b], r)
      ensures a in neurons && b in neurons
    {
      AxisGap(nerves[a], nerves[b], r);
      ConflictSymmetric(nerves, r, a, b);
      assert InConflict(nerves, r, b, a);
      var s :| 0 <= s < |candidates| && (candidates[s] == (a, b) || candidates[s] == (b, a));
      assert CandidatePasses(nerves, conflict, candidates[s]);
    }
    MarksAreConflicts(nerves, r, neurons);
    count := |ElementsOf(neurons)|;
  }

  /** `check_for_conflicts(nerves, r, len(nerves), strategy)`. */
  method CheckForConflicts(nerves: seq<Point>, r: int, strategy: int) returns (result: Option<nat>)
    ensures !(1 <= strategy <= 4) <==> result == None
    ensures strategy == 1 ==> result == Some(|Conflicts(nerves, r) + SelfMarks(|nerves|, r)|)
    ensures strategy == 2 || strategy == 4 ==> result == Some(|Conflicts(nerves, r)|)
    ensures strategy == 3 ==> result == Some(|Conflicts(nerves, Abs(r))|)
    ensures result.Some? ==> result.value <= |nerves|
    ensures 0 <= r && 1 <= strategy <= 4 && (strategy == 1 ==> r < SelfDistance) ==>
              result == Some(|Conflicts(nerves, r)|)
    ensures strategy == 1 && SelfDistance <= r ==> result == Some(|nerves|)
    ensures 2 <= strategy <= 4 && |nerves| <= 1 ==> result == Some(0)
  {
    ConflictCountBound(nerves, r);
    ConflictCountBound(nerves, Abs(r));
    if |nerves| <= 1 {
      FewPointsNoConflicts(nerves, r);
      FewPointsNoConflicts(nerves, Abs(r));
    }
    SelfMarksCount(nerves, r);
    if strategy == 1 {
      var count := CountOrderedPairs(nerves, r);
      result := Some(count);
    } else if strategy == 2 {
      var count := CountUnorderedPairs(nerves, r);
      result := Some(count);
    } else if strategy == 3 {
      var count := CountUnorderedPairsSquared(nerves, r);
      result := Some(count);
    } else if strategy == 4 {
      var count := CountAxisSweep(nerves, r);
      result := Some(count);
    } else {
      result := None;
    }
  }

  /** What the self-pairs of method 1 add: nothing below the stand-in distance,
      and every point from it on. */
  lemma SelfMarksCount(nerves: seq<Point>, r: int)
    ensures r < SelfDistance ==> Conflicts(nerves, r) + SelfMarks(|nerves|, r) == Conflicts(nerves, r)
    ensures SelfDistance <= r ==> |Conflicts(nerves, r) + SelfMarks(|nerves|, r)| == |nerves|
  {
    if SelfDistance <= r {
      ConflictCountBound(nerves, r);
      assert Conflicts(nerves, r) + SelfMarks(|nerves|, r) == Range(|nerves|);
      RangeSize(|nerves|);
    }
  }
}
