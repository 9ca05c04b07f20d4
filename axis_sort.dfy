/** The two sorts the axis sweep starts from: `sorted(range(len(x)), key=lambda c: x[c])`,
    a stable sort of the point indices by one coordinate, and `sorted(x)`, the
    coordinates themselves in ascending order. Both are written as insertion
    sorts; their contracts pin the result down uniquely, so any stable sort
    (Python's included) gives the same lists. */
module AxisSort {
  import opened Points

  /** `x = [coord[0] for coord in nerves]` */
  function XCoords(nerves: seq<Point>): (xs: seq<int>)
    ensures |xs| == |nerves| && forall k :: 0 <= k < |nerves| ==> xs[k] == nerves[k].x
  {
    seq(|nerves|, k requires 0 <= k < |nerves| => nerves[k].x)
  }

  /** `y = [coord[1] for coord in nerves]` */
  function YCoords(nerves: seq<Point>): (ys: seq<int>)
    ensures |ys| == |nerves| && forall k :: 0 <= k < |nerves| ==> ys[k] == nerves[k].y
  {
    seq(|nerves|, k requires 0 <= k < |nerves| => nerves[k].y)
  }

  predicate Ascending(s: seq<int>)
  {
    forall p, q :: 0 <= p < q < |s| ==> s[p] <= s[q]
  }

  /** Index `a` comes before index `b` in a stable sort by `keys`: a smaller key,
      or the same key and a smaller index. */
  predicate KeyBefore(keys: seq<int>, a: int, b: int)
    requires 0 <= a < |keys| && 0 <= b < |keys|
  {
    keys[a] < keys[b] || (keys[a] == keys[b] && a < b)
  }

  /** `l` lists indices of `keys` in stable ascending order of their keys
      (and therefore without repetition). */
  predicate StablyOrdered(keys: seq<int>, l: seq<int>)
  {
    (forall k :: 0 <= k < |l| ==> 0 <= l[k] < |keys|) &&
    (forall p, q :: 0 <= p < q < |l| ==> KeyBefore(keys, l[p], l[q]))
  }

  /** Insert index `i` after every leading index whose key is at most `keys[i]`;
      into a stably ordered `l` of smaller indices, that keeps it stably ordered. */
  function InsertIndex(l: seq<int>, i: int, keys: seq<int>): (r: seq<int>)
    requires 0 <= i < |keys| && forall k :: 0 <= k < |l| ==> 0 <= l[k] < |keys|
    ensures |r| == |l| + 1
    ensures r[0] == if l == [] || keys[i] < keys[l[0]] then i else l[0]
    ensures forall v :: v in r <==> v in l || v == i
    ensures forall k :: 0 <= k < |r| ==> 0 <= r[k] < |keys|
    ensures StablyOrdered(keys, l) && (forall k :: 0 <= k < |l| ==> l[k] < i) ==> StablyOrdered(keys, r)
    decreases |l|
  {
    if l == [] then [i]
    else if keys[i] < keys[l[0]] then [i] + l
    else
      var rest := InsertIndex(l[1..], i, keys);
      assert StablyOrdered(keys, l) && (forall k :: 0 <= k < |l| ==> l[k] < i) ==>
               StablyOrdered(keys, [l[0]] + rest) by {
        if StablyOrdered(keys, l) && (forall k :: 0 <= k < |l| ==> l[k] < i) {
          OrderedTail(keys, l);
          PrependOrdered(keys, l[0], rest);
        }
      }
      [l[0]] + rest
  }

  lemma OrderedTail(keys: seq<int>, l: seq<int>)
    requires l != [] && StablyOrdered(keys, l)
    ensures StablyOrdered(keys, l[1..])
  {
  }

  /** Putting in front of a stably ordered list an index that comes before its
      head keeps the list stably ordered. */
  lemma PrependOrdered(keys: seq<int>, h: int, l: seq<int>)
    requires 0 <= h < |keys| && StablyOrdered(keys, l)
    requires l != [] ==> KeyBefore(keys, h, l[0])
    ensures StablyOrdered(keys, [h] + l)
  {
  }

  /** The indices `0 .. n-1` in stable ascending order of their keys. */
  function SortPrefixIndices(keys: seq<int>, n: nat): (r: seq<int>)
    requires n <= |keys|
    ensures |r| == n
    ensures forall v :: v in r <==> 0 <= v < n
    ensures StablyOrdered(keys, r)
  {
    if n == 0 then []
    else
      var l := SortPrefixIndices(keys, n - 1);
      assert forall k :: 0 <= k < |l| ==> l[k] in l;
      InsertIndex(l, n - 1, keys)
  }

  /** `sorted(range(len(keys)), key=lambda c: keys[c])`: a permutation of the
      indices of `keys`, in ascending order of key, equal keys in index order. */
  function SortedIndices(keys: seq<int>): (r: seq<int>)
    ensures |r| == |keys|
    ensures forall v :: v in r <==> 0 <= v < |keys|
    ensures forall k :: 0 <= k < |r| ==> 0 <= r[k] < |keys|
    ensures forall p, q :: 0 <= p < q < |r| ==> r[p] != r[q]
    ensures forall p, q :: 0 <= p < q < |r| ==>
              keys[r[p]] < keys[r[q]] || (keys[r[p]] == keys[r[q]] && r[p] < r[q])
  {
    SortPrefixIndices(keys, |keys|)
  }

  /** Insert `v` after every leading element that is at most `v`; into an
      ascending `s`, that keeps it ascending. */
  function InsertValue(s: seq<int>, v: int): (r: seq<int>)
    ensures |r| == |s| + 1
    ensures r[0] == if s == [] || v < s[0] then v else s[0]
    ensures multiset(r) == multiset(s) + multiset{v}
    ensures Ascending(s) ==> Ascending(r)
  {
    if s == [] then [v]
    else if v < s[0] then [v] + s
    else
      var rest := InsertValue(s[1..], v);
      assert multiset(s) == multiset{s[0]} + multiset(s[1..]) by { assert s == [s[0]] + s[1..]; }
      assert multiset([s[0]] + rest) == multiset{s[0]} + multiset(rest);
      assert Ascending(s) ==> Ascending([s[0]] + rest) by {
        if Ascending(s) {
          PrependAscending(s[0], rest);
        }
      }
      [s[0]] + rest
  }

  /** Putting in front of an ascending list a value not above its head keeps
      it ascending. */
  lemma PrependAscending(h: int, s: seq<int>)
    requires Ascending(s) && (s != [] ==> h <= s[0])
    ensures Ascending([h] + s)
  {
  }

  /** `sorted(s)`: the elements of `s` in ascending order. */
  function SortValues(s: seq<int>): (r: seq<int>)
    ensures multiset(r) == multiset(s)
    ensures Ascending(r)
  {
    if s == [] then []
    else
      assert s == s[..|s| - 1] + [s[|s| - 1]];
      InsertValue(SortValues(s[..|s| - 1]), s[|s| - 1])
  }

  /** The keys of the indices in `l`, in the order of `l`. */
  function Gather(keys: seq<int>, l: seq<int>): (g: seq<int>)
    requires forall k :: 0 <= k < |l| ==> 0 <= l[k] < |keys|
    ensures |g| == |l| && forall k :: 0 <= k < |l| ==> g[k] == keys[l[k]]
  {
    if l == [] then [] else [keys[l[0]]] + Gather(keys, l[1..])
  }

  lemma {:induction false} GatherInsert(keys: seq<int>, l: seq<int>, i: int)
    requires 0 <= i < |keys| && forall k :: 0 <= k < |l| ==> 0 <= l[k] < |keys|
    ensures Gather(keys, InsertIndex(l, i, keys)) == InsertValue(Gather(keys, l), keys[i])
    decreases |l|
  {
    if l == [] {
    } else if keys[i] < keys[l[0]] {
      assert ([i] + l)[1..] == l;
    } else {
      var rest := InsertIndex(l[1..], i, keys);
      GatherInsert(keys, l[1..], i);
      assert ([l[0]] + rest)[1..] == rest;
    }
  }

  lemma {:induction false} SortPrefixGather(keys: seq<int>, n: nat)
    requires n <= |keys|
    ensures Gather(keys, SortPrefixIndices(keys, n)) == SortValues(keys[..n])
  {
    if n > 0 {
      SortPrefixGather(keys, n - 1);
      assert keys[..n][..n - 1] == keys[..n - 1];
      GatherInsert(keys, SortPrefixIndices(keys, n - 1), n - 1);
    }
  }

  /** `sorted(x)` and `sorted(range(len(x)), key=lambda c: x[c])` line up:
      position `k` of the sorted coordinates holds the coordinate of the point
      that the sorted indices put at position `k`. */
  lemma SortedValuesFollowIndices(keys: seq<int>)
    ensures |SortValues(keys)| == |keys|
    ensures forall k :: 0 <= k < |keys| ==> SortValues(keys)[k] == keys[SortedIndices(keys)[k]]
  {
    SortPrefixGather(keys, |keys|);
    assert keys[..|keys|] == keys;
  }
}
