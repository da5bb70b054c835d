/** One axis of a pivot table while totals are inserted into it. A line is a column (or a
    row): its hierarchical label, called its path, and its data. */
module PivotAxis {
  import opened Wrappers

  type Label = seq<string>

  datatype Line<V> = Line(path: Label, data: V)

  /** The original lines, the number of levels of their labels, the name of the overall
      total, and the aggregate function. */
  datatype Axis<!V> = Axis(leaves: seq<Line<V>>, n: nat, metricName: string, agg: seq<V> -> V)

  /** The positions from `start` on, `step` apart, below `stop`. */
  datatype Slice = Slice(start: nat, stop: nat, step: nat)

  const SUBTOTAL := "Subtotal"

  /** The name of a total of a prefix of length `level`: the overall one has its own. */
  function TotalName(metricName: string, level: nat): string {
    if level == 0 then metricName else SUBTOTAL
  }

  function TotalLabel(p: Label, n: nat, metricName: string): Label
    requires |p| < n
  {
    p + [TotalName(metricName, |p|)] + seq(n - |p| - 1, _ => "")
  }

  predicate Carries<V>(x: Line<V>, p: Label) {
    p <= x.path
  }

  // ---------- prefix lookup ----------

  /** The positions from `i` on whose lines carry the prefix. */
  function PositionsFrom<V>(lines: seq<Line<V>>, p: Label, i: nat): (ps: seq<nat>)
    requires i <= |lines|
    ensures forall k :: 0 <= k < |ps| ==> i <= ps[k] < |lines|
    ensures forall k, l :: 0 <= k < l < |ps| ==> ps[k] < ps[l]
    decreases |lines| - i
  {
    if i == |lines| then []
    else if Carries(lines[i], p) then [i] + PositionsFrom(lines, p, i + 1)
    else PositionsFrom(lines, p, i + 1)
  }

  function Step(ps: seq<nat>): nat
    requires forall k, l :: 0 <= k < l < |ps| ==> ps[k] < ps[l]
  {
    if |ps| < 2 then 1 else ps[1] - ps[0]
  }

  predicate EvenlySpaced(ps: seq<nat>)
    requires forall k, l :: 0 <= k < l < |ps| ==> ps[k] < ps[l]
  {
    IsSpaced(ps, Step(ps))
  }

  predicate IsSpaced(ps: seq<nat>, step: nat) {
    forall k :: 0 <= k < |ps| - 1 ==> IsNext(ps, step, k)
  }

  predicate IsNext(ps: seq<nat>, step: nat, k: nat)
    requires k + 1 < |ps|
  {
    ps[k + 1] == ps[k] + step
  }

  /** `get_loc` of a prefix: a slice of exactly the lines that carry it, which need not be
      neighbours but have to be evenly spaced; nothing otherwise, or where there are none. */
  function GetLoc<V>(lines: seq<Line<V>>, p: Label): (r: Option<Slice>)
    ensures r.Some? ==> r.value.start < r.value.stop <= |lines| && r.value.step > 0
  {
    var ps := PositionsFrom(lines, p, 0);
    if ps == [] || !EvenlySpaced(ps) then None else Some(Slice(ps[0], ps[|ps| - 1] + 1, Step(ps)))
  }

  /** The lines of a slice. */
  function Taken<T>(s: seq<T>, start: nat, stop: nat, step: nat): seq<T>
    requires stop <= |s| && step > 0
    decreases stop - start
  {
    if start >= stop then [] else [s[start]] + Taken(s, start + step, stop, step)
  }

  function Take<T>(s: seq<T>, slice: Slice): seq<T>
    requires slice.stop <= |s| && slice.step > 0
  {
    Taken(s, slice.start, slice.stop, slice.step)
  }

  ghost predicate AllCarry<V>(lines: seq<Line<V>>, p: Label) {
    forall i :: 0 <= i < |lines| ==> Carries(lines[i], p)
  }

  ghost predicate NoneCarry<V>(lines: seq<Line<V>>, p: Label) {
    forall i :: 0 <= i < |lines| ==> !Carries(lines[i], p)
  }

  lemma {:induction false} PositionsSkip<V>(lines: seq<Line<V>>, p: Label, i: nat, k: nat)
    requires i <= k <= |lines| && forall j :: i <= j < k ==> !Carries(lines[j], p)
    ensures PositionsFrom(lines, p, i) == PositionsFrom(lines, p, k)
    decreases k - i
  {
    if i < k {
      PositionsSkip(lines, p, i + 1, k);
    }
  }

  /** The positions of a stretch of lines that carry the prefix, alone from there on. */
  lemma {:induction false} PositionsOfStretch<V>(lines: seq<Line<V>>, p: Label, i: nat, k: nat)
    requires i <= k <= |lines| && forall j :: i <= j < |lines| ==> (Carries(lines[j], p) <==> j < k)
    ensures |PositionsFrom(lines, p, i)| == k - i
    ensures forall l :: 0 <= l < k - i ==> PositionsFrom(lines, p, i)[l] == i + l
    decreases k - i
  {
    if i < k {
      PositionsOfStretch(lines, p, i + 1, k);
    } else {
      PositionsSkip(lines, p, i, |lines|);
    }
  }

  lemma {:induction false} TakenNeighbours<T>(s: seq<T>, start: nat, stop: nat)
    requires start <= stop <= |s|
    ensures Taken(s, start, stop, 1) == s[start..stop]
    decreases stop - start
  {
    if start < stop {
      TakenNeighbours(s, start + 1, stop);
    }
  }

  /** Neighbours that alone carry the prefix are found. */
  lemma GetLocBetween<V>(lines: seq<Line<V>>, p: Label, a: nat, b: nat)
    requires a < b <= |lines| && forall j :: 0 <= j < |lines| ==> (Carries(lines[j], p) <==> a <= j < b)
    ensures GetLoc(lines, p) == Some(Slice(a, b, 1))
  {
    PositionsSkip(lines, p, 0, a);
    PositionsOfStretch(lines, p, a, b);
    RangeIsSpaced(PositionsFrom(lines, p, a), a);
  }

  lemma RangeIsSpaced(ps: seq<nat>, a: nat)
    requires forall l :: 0 <= l < |ps| ==> ps[l] == a + l
    ensures Step(ps) == 1 && EvenlySpaced(ps)
  {
  }

  lemma Middle<T>(x: seq<T>, y: seq<T>, z: seq<T>)
    ensures (x + y + z)[|x|..|x| + |y|] == y
    ensures forall j :: 0 <= j < |x + y + z| ==>
              (x + y + z)[j] == if j < |x| then x[j] else if j < |x| + |y| then y[j - |x|] else z[j - |x| - |y|]
  {
  }

  /** The lookup finds a middle part that alone carries the prefix. */
  lemma GetLocOf<V>(x: seq<Line<V>>, y: seq<Line<V>>, z: seq<Line<V>>, p: Label)
    requires NoneCarry(x, p) && AllCarry(y, p) && NoneCarry(z, p) && y != []
    ensures var slice := Slice(|x|, |x| + |y|, 1);
            GetLoc(x + y + z, p) == Some(slice) && Take(x + y + z, slice) == y
  {
    var lines := x + y + z;
    Middle(x, y, z);
    GetLocBetween(lines, p, |x|, |x| + |y|);
    TakenNeighbours(lines, |x|, |x| + |y|);
  }

  // ---------- what the totals are ----------

  function Data<V>(lines: seq<Line<V>>): seq<V> {
    seq(|lines|, i requires 0 <= i < |lines| => lines[i].data)
  }

  /** The lines that carry a prefix, in order. */
  function Under<V>(lines: seq<Line<V>>, p: Label): seq<Line<V>> {
    if lines == [] then []
    else if Carries(lines[0], p) then [lines[0]] + Under(lines[1..], p)
    else Under(lines[1..], p)
  }

  lemma {:induction false} UnderFrom<V>(lines: seq<Line<V>>, p: Label, i: nat)
    requires i <= |lines|
    ensures Under(lines[i..], p) == At(lines, PositionsFrom(lines, p, i))
    decreases |lines| - i
  {
    if i < |lines| {
      UnderFrom(lines, p, i + 1);
      assert lines[i..][1..] == lines[i + 1..];
    }
  }

  function At<T>(s: seq<T>, ps: seq<nat>): seq<T>
    requires forall k :: 0 <= k < |ps| ==> ps[k] < |s|
  {
    seq(|ps|, k requires 0 <= k < |ps| => s[ps[k]])
  }

  lemma {:induction false} TakenAt<T>(s: seq<T>, ps: seq<nat>, step: nat, k: nat)
    requires k < |ps| && step > 0 && forall l :: 0 <= l < |ps| ==> ps[l] < |s|
    requires IsSpaced(ps, step)
    ensures Taken(s, ps[k], ps[|ps| - 1] + 1, step) == At(s, ps)[k..]
    decreases |ps| - k
  {
    if k < |ps| - 1 {
      assert IsNext(ps, step, k);
      TakenAt(s, ps, step, k + 1);
      TakenUpTo(ps, step, k + 1);
    }
  }

  lemma {:induction false} TakenUpTo(ps: seq<nat>, step: nat, k: nat)
    requires k < |ps| && IsSpaced(ps, step)
    ensures ps[k] <= ps[|ps| - 1]
    decreases |ps| - k
  {
    if k < |ps| - 1 {
      assert IsNext(ps, step, k);
      TakenUpTo(ps, step, k + 1);
    }
  }

  /** A lookup yields exactly the lines that carry the prefix, in order. */
  lemma GetLocTakesUnder<V>(lines: seq<Line<V>>, p: Label)
    requires GetLoc(lines, p).Some?
    ensures Take(lines, GetLoc(lines, p).value) == Under(lines, p)
  {
    var ps := PositionsFrom(lines, p, 0);
    UnderFrom(lines, p, 0);
    TakenAt(lines, ps, Step(ps), 0);
    assert lines[0..] == lines;
  }

  /** The total of a prefix: the aggregate of all original lines that carry it. */
  function Total<V>(ax: Axis<V>, p: Label): Line<V>
    requires |p| < ax.n
  {
    Line(TotalLabel(p, ax.n, ax.metricName), ax.agg(Data(Under(ax.leaves, p))))
  }

  predicate Uniform<V>(ax: Axis<V>) {
    forall i :: 0 <= i < |ax.leaves| ==> |ax.leaves[i].path| == ax.n
  }

  /** The prefix of length `len` of line `i`. */
  function Prefix<V>(ax: Axis<V>, i: nat, len: nat): (p: Label)
    requires Uniform(ax) && i < |ax.leaves| && len <= ax.n
    ensures |p| == len && Carries(ax.leaves[i], p)
  {
    ax.leaves[i].path[..len]
  }

  /** Whether the group of line `i` at depth `len` ends with it. */
  predicate EndsGroup<V>(ax: Axis<V>, i: nat, len: nat)
    requires Uniform(ax) && i < |ax.leaves| && len <= ax.n
  {
    i + 1 == |ax.leaves| || !Carries(ax.leaves[i + 1], Prefix(ax, i, len))
  }

  /** The totals, out of the prefixes `done` of length below `len`, that follow line `i`:
      the deepest first. */
  function Closing<V>(ax: Axis<V>, done: set<Label>, i: nat, len: nat): seq<Line<V>>
    requires Uniform(ax) && i < |ax.leaves| && len <= ax.n
    decreases len
  {
    if len == 0 then []
    else if Prefix(ax, i, len - 1) in done && EndsGroup(ax, i, len - 1)
    then [Total(ax, Prefix(ax, i, len - 1))] + Closing(ax, done, i, len - 1)
    else Closing(ax, done, i, len - 1)
  }

  /** A line and the totals that follow it. */
  function Closed<V>(ax: Axis<V>, done: set<Label>, i: nat): seq<Line<V>>
    requires Uniform(ax) && i < |ax.leaves|
  {
    [ax.leaves[i]] + Closing(ax, done, i, ax.n)
  }

  /** Lines `lo` to `hi` with the totals of the prefixes `done` inserted. */
  function Expand<V>(ax: Axis<V>, done: set<Label>, lo: nat, hi: nat): seq<Line<V>>
    requires Uniform(ax) && lo <= hi <= |ax.leaves|
    decreases hi - lo
  {
    if lo == hi then [] else Closed(ax, done, lo) + Expand(ax, done, lo + 1, hi)
  }

  /** All proper prefixes of the labels. */
  function Prefixes<V>(ax: Axis<V>): set<Label>
    requires Uniform(ax)
  {
    set i, len | 0 <= i < |ax.leaves| && 0 <= len < ax.n :: Prefix(ax, i, len)
  }

  /** The axis with all its totals, described without any order of insertion: behind each
      line, the totals of the groups it ends, the deepest first. */
  function WithTotals<V>(ax: Axis<V>): seq<Line<V>>
    requires Uniform(ax)
  {
    Expand(ax, Prefixes(ax), 0, |ax.leaves|)
  }

  /** Lines of equal proper prefix are neighbours. */
  ghost predicate Contiguous<V>(leaves: seq<Line<V>>, n: nat) {
    forall p :: |p| < n ==> Together(leaves, p)
  }

  ghost predicate Together<V>(lines: seq<Line<V>>, p: Label) {
    forall i, j, k :: 0 <= i < j < k < |lines| && Carries(lines[i], p) && Carries(lines[k], p) ==>
                      Carries(lines[j], p)
  }

  /** A label that uses no total's name at that total's level. */
  ghost predicate CleanLabel(path: Label, metricName: string) {
    forall k :: 0 <= k < |path| ==> path[k] != TotalName(metricName, k)
  }

  ghost predicate Clean<V>(leaves: seq<Line<V>>, metricName: string) {
    forall i :: 0 <= i < |leaves| ==> CleanLabel(leaves[i].path, metricName)
  }

  ghost predicate Regular<V>(ax: Axis<V>) {
    Uniform(ax) && Contiguous(ax.leaves, ax.n) && Clean(ax.leaves, ax.metricName)
  }
}
