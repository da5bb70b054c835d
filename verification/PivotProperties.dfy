/** What the finished axis promises: nothing of the original is lost, every group has its
    total, and sorting the labels makes the groups contiguous in the first place. */
module PivotProperties {
  import opened Ordering
  import opened PivotAxis
  import opened PivotTotals

  // ---------- deleting the totals ----------

  /** A label that carries the name of a total at that total's level. */
  predicate IsTotalLabel(path: Label, metricName: string) {
    exists k :: 0 <= k < |path| && path[k] == TotalName(metricName, k)
  }

  function WithoutTotals<V>(lines: seq<Line<V>>, metricName: string): seq<Line<V>> {
    if lines == [] then []
    else if IsTotalLabel(lines[0].path, metricName) then WithoutTotals(lines[1..], metricName)
    else [lines[0]] + WithoutTotals(lines[1..], metricName)
  }

  lemma {:induction false} WithoutTotalsAppend<V>(x: seq<Line<V>>, y: seq<Line<V>>, metricName: string)
    ensures WithoutTotals(x + y, metricName) == WithoutTotals(x, metricName) + WithoutTotals(y, metricName)
  {
    if x == [] {
      assert x + y == y;
    } else {
      assert (x + y)[0] == x[0] && (x + y)[1..] == x[1..] + y;
      WithoutTotalsAppend(x[1..], y, metricName);
      Assoc([x[0]], WithoutTotals(x[1..], metricName), WithoutTotals(y, metricName));
    }
  }

  lemma TotalLabelIsTotal(p: Label, n: nat, metricName: string)
    requires |p| < n
    ensures IsTotalLabel(TotalLabel(p, n, metricName), metricName)
  {
    assert TotalLabel(p, n, metricName)[|p|] == TotalName(metricName, |p|);
  }

  lemma {:induction false} ClosingIsTotals<V>(ax: Axis<V>, done: set<Label>, i: nat, len: nat)
    requires Uniform(ax) && i < |ax.leaves| && len <= ax.n
    ensures WithoutTotals(Closing(ax, done, i, len), ax.metricName) == []
    decreases len
  {
    if len > 0 {
      TotalLabelIsTotal(Prefix(ax, i, len - 1), ax.n, ax.metricName);
      ClosingIsTotals(ax, done, i, len - 1);
    }
  }

  lemma ClosedKeeps<V>(ax: Axis<V>, done: set<Label>, i: nat)
    requires Regular(ax) && i < |ax.leaves|
    ensures WithoutTotals(Closed(ax, done, i), ax.metricName) == [ax.leaves[i]]
  {
    var x := [ax.leaves[i]];
    ClosingIsTotals(ax, done, i, ax.n);
    WithoutTotalsAppend(x, Closing(ax, done, i, ax.n), ax.metricName);
    assert CleanLabel(x[0].path, ax.metricName);
    assert x[1..] == [] && WithoutTotals(x, ax.metricName) == x;
  }

  lemma {:induction false} ExpandKeeps<V>(ax: Axis<V>, done: set<Label>, lo: nat)
    requires Regular(ax) && lo <= |ax.leaves|
    ensures WithoutTotals(Expand(ax, done, lo, |ax.leaves|), ax.metricName) == ax.leaves[lo..]
    decreases |ax.leaves| - lo
  {
    if lo < |ax.leaves| {
      ExpandKeeps(ax, done, lo + 1);
      ClosedKeeps(ax, done, lo);
      WithoutTotalsAppend(Closed(ax, done, lo), Expand(ax, done, lo + 1, |ax.leaves|), ax.metricName);
      HeadTail(ax.leaves, lo);
    }
  }

  lemma HeadTail<T>(s: seq<T>, i: nat)
    requires i < |s|
    ensures s[i..] == [s[i]] + s[i + 1..]
  {
  }

  /** Deleting the lines labelled as totals gives back the original lines in their order. */
  lemma DeletingTotalsRestores<V>(ax: Axis<V>)
    requires Regular(ax)
    ensures WithoutTotals(WithTotals(ax), ax.metricName) == ax.leaves
  {
    ExpandKeeps(ax, Prefixes(ax), 0);
    assert ax.leaves[0..] == ax.leaves;
  }

  // ---------- every group has its total ----------

  lemma {:induction false} ClosingHas<V>(ax: Axis<V>, done: set<Label>, i: nat, len: nat, k: nat)
    requires Uniform(ax) && i < |ax.leaves| && k < len <= ax.n
    requires Prefix(ax, i, k) in done && EndsGroup(ax, i, k)
    ensures Total(ax, Prefix(ax, i, k)) in Closing(ax, done, i, len)
    decreases len
  {
    if len - 1 > k {
      ClosingHas(ax, done, i, len - 1, k);
    }
  }

  lemma {:induction false} ExpandHas<V>(ax: Axis<V>, done: set<Label>, lo: nat, i: nat, x: Line<V>)
    requires Uniform(ax) && lo <= i < |ax.leaves| && x in Closed(ax, done, i)
    ensures x in Expand(ax, done, lo, |ax.leaves|)
    decreases i - lo
  {
    if lo < i {
      ExpandHas(ax, done, lo + 1, i, x);
    }
  }

  /** Every prefix has a line where its group ends. */
  lemma GroupEnd<V>(ax: Axis<V>, p: Label) returns (e: nat)
    requires Uniform(ax) && Contiguous(ax.leaves, ax.n) && p in Prefixes(ax)
    ensures |p| < ax.n && e < |ax.leaves| && Prefix(ax, e, |p|) == p && EndsGroup(ax, e, |p|)
  {
    var i, len :| 0 <= i < |ax.leaves| && 0 <= len < ax.n && p == Prefix(ax, i, len);
    var a, b := GroupOf(ax.leaves, p, i);
    e := b - 1;
    assert Carries(ax.leaves[e], p);
    assert b < |ax.leaves| ==> !Carries(ax.leaves[b], p);
  }

  /** Every group, from the whole axis down to the deepest one, has its total. */
  lemma EveryGroupHasTotal<V>(ax: Axis<V>, p: Label)
    requires Uniform(ax) && Contiguous(ax.leaves, ax.n) && p in Prefixes(ax)
    ensures |p| < ax.n && Total(ax, p) in WithTotals(ax)
  {
    var e := GroupEnd(ax, p);
    ClosingHas(ax, Prefixes(ax), e, ax.n, |p|);
    ExpandHas(ax, Prefixes(ax), 0, e, Total(ax, p));
  }

  lemma {:induction false} ClosingOnly<V>(ax: Axis<V>, done: set<Label>, i: nat, len: nat, x: Line<V>)
    requires Uniform(ax) && i < |ax.leaves| && len <= ax.n && x in Closing(ax, done, i, len)
    ensures exists p :: p in done && |p| < ax.n && x == Total(ax, p)
    decreases len
  {
    if len > 0 {
      var p := Prefix(ax, i, len - 1);
      if p in done && EndsGroup(ax, i, len - 1) && x == Total(ax, p) {
      } else {
        ClosingOnly(ax, done, i, len - 1, x);
      }
    }
  }

  lemma {:induction false} ExpandOnly<V>(ax: Axis<V>, done: set<Label>, lo: nat, x: Line<V>)
    requires Uniform(ax) && lo <= |ax.leaves| && x in Expand(ax, done, lo, |ax.leaves|)
    ensures x in ax.leaves || exists p :: p in done && |p| < ax.n && x == Total(ax, p)
    decreases |ax.leaves| - lo
  {
    if lo < |ax.leaves| {
      if x in Closing(ax, done, lo, ax.n) {
        ClosingOnly(ax, done, lo, ax.n, x);
      } else if x in Expand(ax, done, lo + 1, |ax.leaves|) {
        ExpandOnly(ax, done, lo + 1, x);
      }
    }
  }

  /** The finished axis holds nothing but original lines and totals of groups of original
      lines. */
  lemma NothingElse<V>(ax: Axis<V>, x: Line<V>)
    requires Uniform(ax) && x in WithTotals(ax)
    ensures x in ax.leaves || exists p :: p in Prefixes(ax) && |p| < ax.n && x == Total(ax, p)
  {
    ExpandOnly(ax, Prefixes(ax), 0, x);
  }

  // ---------- sorting makes groups contiguous ----------

  /** The sort key of a label: the rank of each part. When metrics are combined the last
      part is ranked by its place in the list of metrics, otherwise the first one is. */
  function Key(path: Label, ranks: seq<string -> int>): (key: seq<int>)
    requires |path| <= |ranks|
    ensures |key| == |path|
  {
    seq(|path|, k requires 0 <= k < |path| => ranks[k](path[k]))
  }

  ghost predicate SortedBy<V>(leaves: seq<Line<V>>, n: nat, ranks: seq<string -> int>)
    requires |ranks| == n && forall i :: 0 <= i < |leaves| ==> |leaves[i].path| == n
  {
    forall i, j :: 0 <= i < j < |leaves| ==> !LexLess(Key(leaves[j].path, ranks), Key(leaves[i].path, ranks))
  }

  /** Ranks tell apart the parts that occur. */
  ghost predicate RanksTellApart<V>(leaves: seq<Line<V>>, n: nat, ranks: seq<string -> int>)
    requires |ranks| == n && forall i :: 0 <= i < |leaves| ==> |leaves[i].path| == n
  {
    forall i, j, k :: 0 <= i < |leaves| && 0 <= j < |leaves| && 0 <= k < n ==>
      (ranks[k](leaves[i].path[k]) == ranks[k](leaves[j].path[k]) ==> leaves[i].path[k] == leaves[j].path[k])
  }

  /** Between two keys with a common beginning there are only keys with that beginning. */
  lemma {:induction false} LexBetween(a: seq<int>, b: seq<int>, c: seq<int>, len: nat)
    requires |a| == |b| == |c| && len <= |a| && a[..len] == c[..len]
    requires !LexLess(b, a) && !LexLess(c, b)
    ensures b[..len] == a[..len]
  {
    if len > 0 {
      assert a[0] == a[..len][0] == c[..len][0] == c[0];
      assert a[1..][..len - 1] == a[..len][1..] && c[1..][..len - 1] == c[..len][1..];
      LexBetween(a[1..], b[1..], c[1..], len - 1);
      assert b[..len] == [b[0]] + b[1..][..len - 1];
      assert a[..len] == [a[0]] + a[1..][..len - 1];
    }
  }

  lemma KeyPrefix(x: Label, y: Label, ranks: seq<string -> int>, len: nat)
    requires |x| == |y| == |ranks| && len <= |x|
    ensures x[..len] == y[..len] ==> Key(x, ranks)[..len] == Key(y, ranks)[..len]
    ensures Key(x, ranks)[..len] == Key(y, ranks)[..len] ==>
              forall k :: 0 <= k < len ==> ranks[k](x[k]) == ranks[k](y[k])
  {
    if x[..len] == y[..len] {
      forall k | 0 <= k < len ensures Key(x, ranks)[k] == Key(y, ranks)[k] {
        assert x[k] == x[..len][k] == y[..len][k];
      }
    }
    if Key(x, ranks)[..len] == Key(y, ranks)[..len] {
      forall k | 0 <= k < len ensures ranks[k](x[k]) == ranks[k](y[k]) {
        assert Key(x, ranks)[..len][k] == Key(y, ranks)[..len][k];
      }
    }
  }

  /** Lines sorted by their keys, level by level, have contiguous groups. */
  lemma SortedIsContiguous<V>(leaves: seq<Line<V>>, n: nat, ranks: seq<string -> int>)
    requires |ranks| == n && forall i :: 0 <= i < |leaves| ==> |leaves[i].path| == n
    requires SortedBy(leaves, n, ranks) && RanksTellApart(leaves, n, ranks)
    ensures Contiguous(leaves, n)
  {
    forall i, j, k, p | 0 <= i < j < k < |leaves| && Carries(leaves[i], p) && Carries(leaves[k], p)
      ensures Carries(leaves[j], p)
    {
      var x, y, z, len := leaves[i].path, leaves[j].path, leaves[k].path, |p|;
      KeyPrefix(x, z, ranks, len);
      LexBetween(Key(x, ranks), Key(y, ranks), Key(z, ranks), len);
      KeyPrefix(y, x, ranks, len);
      forall l | 0 <= l < len ensures y[l] == p[l] {
        assert ranks[l](leaves[j].path[l]) == ranks[l](leaves[i].path[l]);
      }
    }
  }

  // ---------- the sort key of columns ----------

  function IndexOf(metrics: seq<string>, metric: string): (i: nat)
    ensures i <= |metrics|
    ensures i < |metrics| ==> metrics[i] == metric
    ensures metric in metrics ==> i < |metrics|
  {
    if metrics == [] || metrics[0] == metric then 0 else 1 + IndexOf(metrics[1..], metric)
  }

  /** `get_column_key`: the metric, in the last place when metrics are combined and in the
      first place otherwise, ranks by its position in the list of metrics; every other part
      ranks by its own order. */
  function ColumnRanks(n: nat, metricAt: nat, metrics: seq<string>, rank: string -> int): (r: seq<string -> int>)
    ensures |r| == n
  {
    seq(n, k requires 0 <= k < n => if k == metricAt then (x: string) => IndexOf(metrics, x) else rank)
  }

  /** Columns sorted by that key have contiguous groups, so their totals can be inserted. */
  lemma SortedColumnsAreContiguous<V>(leaves: seq<Line<V>>, n: nat, metricAt: nat, metrics: seq<string>,
                                      rank: string -> int)
    requires metricAt < n && forall i :: 0 <= i < |leaves| ==> |leaves[i].path| == n
    requires forall i :: 0 <= i < |leaves| ==> leaves[i].path[metricAt] in metrics
    requires forall x, y :: rank(x) == rank(y) ==> x == y
    requires SortedBy(leaves, n, ColumnRanks(n, metricAt, metrics, rank))
    ensures Contiguous(leaves, n)
  {
    var ranks := ColumnRanks(n, metricAt, metrics, rank);
    forall i, j, k | 0 <= i < |leaves| && 0 <= j < |leaves| && 0 <= k < n &&
                     ranks[k](leaves[i].path[k]) == ranks[k](leaves[j].path[k])
      ensures leaves[i].path[k] == leaves[j].path[k]
    {
      if k == metricAt {
        var x, y := leaves[i].path[k], leaves[j].path[k];
        assert IndexOf(metrics, x) == IndexOf(metrics, y);
        assert x == metrics[IndexOf(metrics, x)];
      } else {
        assert ranks[k] == rank;
      }
    }
    SortedIsContiguous(leaves, n, ranks);
  }
}
