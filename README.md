# Neuron conflict counting

A model of `check_for_conflicts` in `Task2.py`. The function takes a list of
neuron positions in the plane (`nerves`), a conflict radius and a method
number 1 to 4. It returns how many distinct neurons lie within the radius of
at least one other neuron. For a radius in `0 .. 9999`, the four methods
compute the same count in four ways:

1. every ordered pair `(i, j)`. For two distinct neurons it compares `math.sqrt` of the squared distance with the radius. The pair of a neuron with itself is given the stand-in distance 10000 instead;
2. each unordered pair `i < j` once, with the same test;
3. as method 2, but comparing the squared distance with the squared radius;
4. a sweep along each axis that collects candidate pairs, followed by the squared-distance test on the candidates.

Every method builds the list `neurons` by appending both ends of each pair
that passes its test. It returns the size of `set(neurons)`.

The model has four modules:

- `Points` (points.dfy): the positions, the distance test, and the set `Conflicts(nerves, r)` of conflicting indices. That set is the reference every method is proved against.
- `AxisSort` (axis_sort.dfy): the two sorts method 4 starts from. One is the stable sort of indices by coordinate (`x_idx`); the other is the sort of the coordinates themselves (`x`).
- `AxisSweep` (axis_sweep.dfy): the candidate scan of method 4 along one axis, with its early `break`.
- `ConflictCheck` (conflict_check.dfy): the four methods and the dispatch on the method number.

Modelling choices:

- Coordinates and radius are unbounded integers. The position generator only produces integers, and the radius used is the integer 500.
- `math.sqrt(d) <= r` is read over the exact reals. Since a square root is never negative, this holds exactly when `0 <= r` and `d <= r * r` (`Points.RootAtMost`).
- The `num_neurons` argument is taken to be `len(nerves)`, which is how the program calls the function.
- A method number outside 1 to 4 makes the Python function fall off its end and return `None`. The model returns `None` too.

What the proofs establish:

- Methods 2 and 4 return exactly `|Conflicts(nerves, r)|` for every radius.
- Method 3 returns `|Conflicts(nerves, |r|)|`, because squaring forgets the sign of the radius.
- Method 1 returns the same count as method 2 while the radius is below 10000. That value is the stand-in distance it gives a neuron paired with itself. From 10000 on, method 1 counts every neuron.
- For the sweep, sorting, scanning with an early `break` and concatenating the two axes are proved to lose no conflicting pair. No candidate is ever a neuron paired with itself.

## Model

| member | source | states |
|---|---|---|
| Points.SqDist | Task2.py:48 | the squared distance, written the same way at lines 23, 35 and 93, is never negative |
| Points.SqDistZero | Task2.py:19-23 | the squared distance is zero exactly for coincident points. This is why method 1 needs a stand-in for the pair of a neuron with itself: its true distance 0 would pass for every radius from 0 on |
| Points.RootAtMost | Task2.py:35-36 | exact-real reading of the sqrt test: holds iff `0 <= r && d <= r*r`. Its contract states this as "every non-negative real whose square is at most `d` is at most `r`", where `sqrt(d)` is the least upper bound of those reals |
| Points.RootAtMostReal | Task2.py:23-24 | the integer form `0 <= r && d <= r*r` and the real form of the root test agree for all integers `d` and `r` |
| ConflictCheck.OrderedPairPasses | Task2.py:19-24 | method 1's test: for two distinct neurons it passes exactly when they are in conflict. For a neuron paired with itself it passes exactly when that neuron is a self-mark, i.e. when the radius is at least 10000 |
| AxisSort.XCoords | Task2.py:62 | `x` has one entry per neuron, entry `k` being the first coordinate of neuron `k` |
| AxisSort.YCoords | Task2.py:78 | `y` has one entry per neuron, entry `k` being the second coordinate of neuron `k` |
| Points.ConflictSymmetric | Task2.py:29-38 | being in conflict is symmetric in the two neurons, which is why visiting each unordered pair once suffices |
| Points.ConflictCountBound | Task2.py:27 | the conflicting indices are point indices, so the count never exceeds the number of neurons |
| Points.FewPointsNoConflicts | Task2.py:33-39 | with at most one neuron no neuron is in conflict |
| Points.AxisGap | Task2.py:54-58 | two neurons within the radius are also within the radius along each axis, so the axis sweep can find every conflicting pair |
| Points.ConflictsGrowWithRadius | Task2.py:35-36 | the inclusive test makes the conflict set, and so the count, grow with the radius |
| Points.MarksAreConflicts | Task2.py:36-39 | if only conflicting indices are appended, and both ends of every conflicting pair `a < b` are, then `set(neurons)` is exactly the conflict set |
| AxisSort.SortedIndices | Task2.py:64 | `x_idx` is a permutation of the indices, in ascending order of coordinate, with equal coordinates kept in index order |
| AxisSort.SortValues | Task2.py:66 | `sorted(x)` is a permutation of `x` (same multiset) in ascending order |
| AxisSort.SortedValuesFollowIndices | Task2.py:62-66 | position `k` of the sorted coordinates holds the coordinate of neuron `x_idx[k]` |
| AxisSweep.ScanFrom | Task2.py:70-76 | the inner loop emits only pairs of positions at most the radius apart, and emits every later position within the limit even though it stops at the first one beyond it |
| AxisSweep.ScanSorted | Task2.py:67-76 | the outer loop emits exactly the pairs of sorted positions `p < q` whose coordinates differ by at most the radius, as original indices |
| AxisSweep.SweepCandidatesSound | Task2.py:73-74 | every candidate joins two distinct neurons, the first not above the second on the axis and at most the radius below it |
| AxisSweep.SweepCandidatesComplete | Task2.py:70-76 | two distinct neurons at most the radius apart on the axis appear together in a candidate, in one order or the other |
| AxisSweep.SweepAxis | Task2.py:62-76 | one axis of method 4 (lines 78-88 repeat it for y): candidates are sound and complete in the two senses above |
| ConflictCheck.AxisCandidates | Task2.py:62-90 | `candidates_x + candidates_y` holds only axis-close pairs of distinct neurons, and holds every pair that is close along x |
| ConflictCheck.CountOrderedPairs | Task2.py:15-27 | method 1 returns the size of the conflict set joined with the self-marked neurons: none below radius 10000, all from it on |
| ConflictCheck.SelfMarksCount | Task2.py:19-26 | the self-pairs of method 1 add nothing below radius 10000, and from radius 10000 on the count is the number of neurons |
| ConflictCheck.CountUnorderedPairs | Task2.py:31-39 | method 2 returns the number of neurons within the radius of another neuron |
| ConflictCheck.CountUnorderedPairsSquared | Task2.py:43-52 | method 3 returns the number of neurons within the absolute value of the radius of another neuron |
| ConflictCheck.MarkPair | Task2.py:36-38 | both ends of a pair that passes the distance test are conflicting neurons |
| ConflictCheck.CountAxisSweep | Task2.py:59-97 | method 4 returns the number of neurons within the radius of another neuron, the same as method 2 for every radius |
| ConflictCheck.CheckForConflicts | Task2.py:11-97 | dispatch on the method number. Outside 1 to 4 the result is `None`. Each method's result is as above and is at most the number of neurons. All four methods agree for a radius in `0 .. 9999`. Method 1 counts every neuron from radius 10000 on. Methods 2 to 4 return 0 for at most one neuron. |

## Left out

- `gen_coord`, the random generator and its seed (Task2.py:1-8, 101-102): they only produce the input, and they are replaced by an arbitrary list of integer points.
- The `__main__` block (Task2.py:105-116), which covers timing and printing: it is I/O and clock access, and it computes nothing the function returns.
- Running time and the complexity claims in the comments (Task2.py:12-14, 29-30, 41-42, 54-58): the model states results, not cost.
- Floating point: `math.sqrt` is taken over exact reals. A rounding of the root that flips a borderline comparison is not modelled.
- The `num_neurons` argument: it is taken to equal `len(nerves)`. A smaller or larger value, which would skip points or index out of range, is not modelled.
- A negative radius is not rejected, because the code does not reject it. Methods 1, 2 and 4 then return 0. Method 3 counts the neurons within the radius's absolute value, since `conflict_radius ** 2` is positive. All of this is stated in `ConflictCheck.CheckForConflicts`.
- Method 4 does not deduplicate candidates: a pair close on both axes is checked twice. Because `set(neurons)` absorbs the repeats, the model keeps the duplicates as the code does.
- The x and y sweeps (Task2.py:62-76 and 78-88) are the same code written twice. They are modelled as one method, `AxisSweep.SweepAxis`, applied to each coordinate list.
- Python's `sorted` is modelled as an insertion sort. The contracts of `AxisSort.SortedIndices` and `AxisSort.SortValues` fix the result uniquely, so any stable sort gives the same lists.
