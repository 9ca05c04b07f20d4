/** Candidate generation along one axis: walk the sorted coordinates and, from
    each position, scan forward while the coordinate stays within `center + r`,
    stopping at the first one that exceeds it. The source writes this loop out
    twice, once for x and once for y; here it is one method called twice. */
module AxisSweep {
  import opened Points
  import opened AxisSort

  /** Positions `p < q` of the sorted coordinates, at most `r` apart, give the
      candidate `c` as original indices. */
  ghost predicate WindowPair(sorted: seq<int>, perm: seq<int>, r: int, c: (int, int))
  {
    exists p, q :: 0 <= p < q < |sorted| && q < |perm| && c == (perm[p], perm[q]) && sorted[q] <= sorted[p] + r
  }

  /** One axis of method 4, given the coordinates `keys` of the points along
      it: sort the indices and the coordinates, then scan. Every candidate is
      a pair of distinct points, the first not above the second and at most
      `r` below it; every two distinct points at most `r` apart along the axis
      are a candidate, in one order or the other. */
  method SweepAxis(keys: seq<int>, r: int) returns (cands: seq<(int, int)>)
    ensures forall c :: c in cands ==>
              0 <= c.0 < |keys| && 0 <= c.1 < |keys| && c.0 != c.1 &&
              keys[c.0] <= keys[c.1] <= keys[c.0] + r
    ensures forall a, b ::
              0 <= a < |keys| && 0 <= b < |keys| && a != b && Abs(keys[a] - keys[b]) <= r ==>
                (a, b) in cands || (b, a) in cands
  {
    var idx := SortedIndices(keys);
    var sorted := SortValues(keys);
    SortedValuesFollowIndices(keys);
    cands := ScanSorted(sorted, idx, r);
    SweepCandidatesSound(keys, sorted, idx, r, cands);
    forall a, b | 0 <= a < |keys| && 0 <= b < |keys| && a != b && Abs(keys[a] - keys[b]) <= r
      ensures (a, b) in cands || (b, a) in cands
    {
      SweepCandidatesComplete(keys, sorted, idx, r, cands, a, b);
    }
  }

  /** The candidates along one axis: `sorted` is the coordinate list in
      ascending order and `perm[k]` the original index of the point whose
      coordinate is `sorted[k]`. Exactly the pairs of positions `p < q` whose
      coordinates are at most `r` apart are emitted, as original indices. */
  method ScanSorted(sorted: seq<int>, perm: seq<int>, r: int) returns (cands: seq<(int, int)>)
    requires |perm| == |sorted|
    requires Ascending(sorted)
    ensures forall c :: c in cands ==> WindowPair(sorted, perm, r, c)
    ensures forall p, q :: 0 <= p < q < |sorted| && sorted[q] <= sorted[p] + r ==> (perm[p], perm[q]) in cands
  {
    var n := |sorted|;
    cands := [];
    for idx := 0 to n
      invariant forall c :: c in cands ==> WindowPair(sorted, perm, r, c)
      invariant forall p, q :: 0 <= p < idx && p < q < n && sorted[q] <= sorted[p] + r ==>
                  (perm[p], perm[q]) in cands
    {
      var found := ScanFrom(sorted, perm, idx, r);
      cands := cands + found;
    }
  }

  /** The inner loop of the sweep for the point at sorted position `idx`:
      the pairs it forms with the later positions whose coordinate is at most
      `sorted[idx] + r`. The scan stops at the first coordinate beyond that
      bound, which loses nothing because the coordinates ascend. */
  method ScanFrom(sorted: seq<int>, perm: seq<int>, idx: int, r: int) returns (found: seq<(int, int)>)
    requires |perm| == |sorted| && 0 <= idx < |sorted|
    requires Ascending(sorted)
    ensures forall c :: c in found ==> WindowPair(sorted, perm, r, c)
    ensures forall q :: idx < q < |sorted| && sorted[q] <= sorted[idx] + r ==> (perm[idx], perm[q]) in found
  {
    var n := |sorted|;
    var center := sorted[idx];
    var lim := center + r;
    found := [];
    var idx2 := idx + 1;
    while idx2 < n
      invariant idx + 1 <= idx2 <= n
      invariant forall c :: c in found ==> WindowPair(sorted, perm, r, c)
      invariant forall q :: idx < q < idx2 ==> (perm[idx], perm[q]) in found
    {
      if sorted[idx2] <= lim {
        assert WindowPair(sorted, perm, r, (perm[idx], perm[idx2]));
        found := found + [(perm[idx], perm[idx2])];
      } else {
        // Every later coordinate is at least sorted[idx2], so none is within reach.
        break;
      }
      idx2 := idx2 + 1;
    }
  }

  /** What the sweep's candidates are, in terms of the points themselves:
      given that `sorted` lists `keys` in the order of the permutation `perm`,
      every candidate joins two distinct points whose coordinates are at most
      `r` apart, the first one not the larger. */
  lemma SweepCandidatesSound(keys: seq<int>, sorted: seq<int>, perm: seq<int>, r: int, cands: seq<(int, int)>)
    requires |perm| == |sorted| == |keys|
    requires forall k :: 0 <= k < |perm| ==> 0 <= perm[k] < |keys| && sorted[k] == keys[perm[k]]
    requires forall p, q :: 0 <= p < q < |perm| ==> perm[p] != perm[q]
    requires Ascending(sorted)
    requires forall c :: c in cands ==> WindowPair(sorted, perm, r, c)
    ensures forall c :: c in cands ==>
              0 <= c.0 < |keys| && 0 <= c.1 < |keys| && c.0 != c.1 &&
              keys[c.0] <= keys[c.1] <= keys[c.0] + r
  {
    forall c | c in cands
      ensures 0 <= c.0 < |keys| && 0 <= c.1 < |keys| && c.0 != c.1
      ensures keys[c.0] <= keys[c.1] <= keys[c.0] + r
    {
      var p, q :| 0 <= p < q < |sorted| && c == (perm[p], perm[q]) && sorted[q] <= sorted[p] + r;
    }
  }

  /** The early `break` loses nothing: every two distinct points whose
      coordinates are at most `r` apart appear together in some candidate. */
  lemma SweepCandidatesComplete(keys: seq<int>, sorted: seq<int>, perm: seq<int>, r: int,
                                cands: seq<(int, int)>, a: int, b: int)
    requires |perm| == |sorted| == |keys|
    requires forall k :: 0 <= k < |perm| ==> 0 <= perm[k] < |keys| && sorted[k] == keys[perm[k]]
    requires forall v :: 0 <= v < |keys| ==> v in perm
    requires Ascending(sorted)
    requires forall p, q :: 0 <= p < q < |sorted| && sorted[q] <= sorted[p] + r ==> (perm[p], perm[q]) in cands
    requires 0 <= a < |keys| && 0 <= b < |keys| && a != b
    requires Abs(keys[a] - keys[b]) <= r
    ensures (a, b) in cands || (b, a) in cands
  {
    assert a in perm && b in perm;
    var p :| 0 <= p < |perm| && perm[p] == a;
    var q :| 0 <= q < |perm| && perm[q] == b;
    if p < q {
      assert sorted[q] <= sorted[p] + r;
    } else {
      assert q < p;
      assert sorted[p] <= sorted[q] + r;
    }
  }
}
