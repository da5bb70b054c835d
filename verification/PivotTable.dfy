/** Totals on both axes of a table of cells, under the aggregates that fold: each subtotal
    is the aggregate of the subtotals one level deeper, and it does not matter which axis
    is folded first. */
module PivotTable {
  import opened Wrappers
  import opened PivotAxis
  import opened PivotTotals

  /** A missing cell is skipped by every aggregate. */
  type Cell = Option<int>

  datatype Aggregate = Sum | Minimum | Maximum

  /** The aggregate of no cells: 0 for a sum, missing for an extremum. */
  function Unit(k: Aggregate): Cell {
    if k.Sum? then Some(0) else None
  }

  function Merge(k: Aggregate, a: Cell, b: Cell): Cell {
    match k
    case Sum => Some((if a.Some? then a.value else 0) + (if b.Some? then b.value else 0))
    case Minimum => if a.None? then b else if b.None? || a.value <= b.value then a else b
    case Maximum => if a.None? then b else if b.None? || a.value >= b.value then a else b
  }

  function Agg(k: Aggregate, cells: seq<Cell>): Cell {
    if cells == [] then Unit(k) else Merge(k, cells[0], Agg(k, cells[1..]))
  }

  /** The extrema are what their names say. */
  lemma {:induction false} AggIsExtremum(k: Aggregate, cells: seq<Cell>)
    requires !k.Sum?
    ensures Agg(k, cells).None? <==> forall c :: c in cells ==> c.None?
    ensures Agg(k, cells).Some? ==> Agg(k, cells) in cells
    ensures Agg(k, cells).Some? ==> forall c :: c in cells && c.Some? ==>
              if k.Minimum? then Agg(k, cells).value <= c.value else Agg(k, cells).value >= c.value
  {
    if cells != [] {
      AggIsExtremum(k, cells[1..]);
      assert forall c :: c in cells <==> c == cells[0] || c in cells[1..];
    }
  }

  /** A sum is the sum of the cells that are not missing. */
  lemma SumIs(c: Cell, a: seq<Cell>, b: seq<Cell>)
    ensures Agg(Sum, []) == Some(0)
    ensures Agg(Sum, [c]) == Some(if c.Some? then c.value else 0)
    ensures Agg(Sum, a).Some? && Agg(Sum, b).Some?
    ensures Agg(Sum, a + b) == Some(Agg(Sum, a).value + Agg(Sum, b).value)
  {
    AggDefined(Sum, a);
    AggDefined(Sum, b);
    AggAppend(Sum, a, b);
    assert [c][1..] == [];
  }

  lemma {:induction false} AggAppend(k: Aggregate, a: seq<Cell>, b: seq<Cell>)
    ensures Agg(k, a + b) == Merge(k, Agg(k, a), Agg(k, b))
  {
    if a == [] {
      assert a + b == b;
      AggDefined(k, b);
    } else {
      assert (a + b)[0] == a[0] && (a + b)[1..] == a[1..] + b;
      AggAppend(k, a[1..], b);
      MergeAssoc(k, a[0], Agg(k, a[1..]), Agg(k, b));
    }
  }

  lemma MergeAssoc(k: Aggregate, x: Cell, y: Cell, z: Cell)
    ensures Merge(k, x, Merge(k, y, z)) == Merge(k, Merge(k, x, y), z)
  {
  }

  lemma AggDefined(k: Aggregate, a: seq<Cell>)
    ensures k.Sum? ==> Agg(k, a).Some?
  {
  }

  // ---------- a subtotal is the aggregate of deeper subtotals ----------

  /** The totals of the groups of depth `len` that end between lines `lo` and `hi`. */
  function TotalsBetween(ax: Axis<Cell>, lo: nat, hi: nat, len: nat): seq<Cell>
    requires Uniform(ax) && lo <= hi <= |ax.leaves| && len < ax.n
    decreases hi - lo
  {
    if lo == hi then []
    else if EndsGroup(ax, lo, len) then [Total(ax, Prefix(ax, lo, len)).data] + TotalsBetween(ax, lo + 1, hi, len)
    else TotalsBetween(ax, lo + 1, hi, len)
  }

  /** Whether a group of depth `len` can start at line `i`. */
  predicate AtBorder(ax: Axis<Cell>, i: nat, len: nat)
    requires Uniform(ax) && i <= |ax.leaves| && len <= ax.n
  {
    i == 0 || EndsGroup(ax, i - 1, len)
  }

  ghost predicate Folds(ax: Axis<Cell>, k: Aggregate) {
    forall s :: ax.agg(s) == Agg(k, s)
  }

  /** A line carries a prefix of length `len` exactly if it is its own. */
  lemma CarriesOwn(ax: Axis<Cell>, i: nat, g: Label)
    requires Uniform(ax) && i < |ax.leaves| && |g| <= ax.n
    ensures Carries(ax.leaves[i], g) <==> Prefix(ax, i, |g|) == g
  {
  }

  /** Lines that a prefix tells apart are told apart by every longer prefix of one. */
  lemma ToldApart(ax: Axis<Cell>, i: nat, j: nat, p: Label, len: nat)
    requires Uniform(ax) && i < |ax.leaves| && j < |ax.leaves| && |p| <= len <= ax.n
    requires Carries(ax.leaves[i], p) != Carries(ax.leaves[j], p)
    ensures !Carries(ax.leaves[j], Prefix(ax, i, len))
  {
    CarriesOwn(ax, i, p);
    CarriesOwn(ax, j, p);
    var l :| 0 <= l < |p| && ax.leaves[i].path[l] != ax.leaves[j].path[l];
    assert Prefix(ax, i, len)[l] != ax.leaves[j].path[l];
  }

  lemma OneGroup(ax: Axis<Cell>, a: nat, i: nat, b: nat, len: nat)
    requires Uniform(ax) && len < ax.n && a <= i < b <= |ax.leaves|
    requires IsGroup(ax.leaves, Prefix(ax, a, len), a, b)
    ensures TotalsBetween(ax, i, b, len) == [Total(ax, Prefix(ax, a, len)).data]
    decreases b - i
  {
    var g := Prefix(ax, a, len);
    assert Carries(ax.leaves[i], g);
    assert Prefix(ax, i, len) == g;
    if i + 1 < b {
      assert Carries(ax.leaves[i + 1], g);
      OneGroup(ax, a, i + 1, b, len);
    } else {
      assert b < |ax.leaves| ==> !Carries(ax.leaves[b], g);
      assert TotalsBetween(ax, b, b, len) == [];
    }
  }

  lemma {:induction false} TotalsSplit(ax: Axis<Cell>, lo: nat, mid: nat, hi: nat, len: nat)
    requires Uniform(ax) && lo <= mid <= hi <= |ax.leaves| && len < ax.n
    ensures TotalsBetween(ax, lo, hi, len) == TotalsBetween(ax, lo, mid, len) + TotalsBetween(ax, mid, hi, len)
    decreases mid - lo
  {
    if lo < mid {
      TotalsSplit(ax, lo + 1, mid, hi, len);
    }
  }

  lemma DataSplit(leaves: seq<Line<Cell>>, a: nat, b: nat, c: nat)
    requires a <= b <= c <= |leaves|
    ensures Data(leaves[a..c]) == Data(leaves[a..b]) + Data(leaves[b..c])
  {
  }

  /** The group that starts at a border line. */
  lemma BorderGroup(ax: Axis<Cell>, a: nat, len: nat) returns (b: nat)
    requires Uniform(ax) && Contiguous(ax.leaves, ax.n) && a < |ax.leaves| && len < ax.n && AtBorder(ax, a, len)
    ensures IsGroup(ax.leaves, Prefix(ax, a, len), a, b) && AtBorder(ax, b, len)
  {
    var g := Prefix(ax, a, len);
    var s, e := GroupOf(ax.leaves, g, a);
    b := e;
    if a > 0 {
      CarriesOwn(ax, a - 1, g);
      assert !Carries(ax.leaves[a - 1], g);
    }
    CarriesOwn(ax, b - 1, g);
    assert b < |ax.leaves| ==> !Carries(ax.leaves[b], g);
  }

  /** Over whole groups, aggregating the lines and aggregating the groups' totals agree. */
  lemma {:induction false} AggOfTotals(ax: Axis<Cell>, k: Aggregate, a: nat, b: nat, len: nat)
    requires Uniform(ax) && Contiguous(ax.leaves, ax.n) && Folds(ax, k) && len < ax.n
    requires a <= b <= |ax.leaves| && AtBorder(ax, a, len) && AtBorder(ax, b, len)
    ensures Agg(k, Data(ax.leaves[a..b])) == Agg(k, TotalsBetween(ax, a, b, len))
    decreases b - a
  {
    if a < b {
      var g := Prefix(ax, a, len);
      var c := BorderGroup(ax, a, len);
      GroupInside(ax, a, b, c, len);
      AggOfTotals(ax, k, c, b, len);
      OneGroup(ax, a, a, c, len);
      UnderGroup(ax.leaves, g, a, c);
      TotalsSplit(ax, a, c, b, len);
      DataSplit(ax.leaves, a, c, b);
      AggAppend(k, Data(ax.leaves[a..c]), Data(ax.leaves[c..b]));
      AggAppend(k, [Total(ax, g).data], TotalsBetween(ax, c, b, len));
      AggOne(k, Data(ax.leaves[a..c]), TotalsBetween(ax, c, b, len));
    }
  }

  lemma GroupInside(ax: Axis<Cell>, a: nat, b: nat, c: nat, len: nat)
    requires Uniform(ax) && len < ax.n && a < b <= |ax.leaves| && AtBorder(ax, b, len)
    requires IsGroup(ax.leaves, Prefix(ax, a, len), a, c)
    ensures c <= b
  {
    CarriesOwn(ax, b - 1, Prefix(ax, a, len));
  }

  lemma AggOne(k: Aggregate, cells: seq<Cell>, rest: seq<Cell>)
    ensures Agg(k, [Agg(k, cells)] + rest) == Merge(k, Agg(k, cells), Agg(k, rest))
  {
    assert ([Agg(k, cells)] + rest)[1..] == rest;
  }

  /** Each subtotal equals the aggregate of the subtotals one level deeper, in the order in
      which they stand on the axis. */
  lemma SubtotalOfSubtotals(ax: Axis<Cell>, k: Aggregate, p: Label)
    returns (a: nat, b: nat)
    requires Uniform(ax) && Contiguous(ax.leaves, ax.n) && Folds(ax, k) && p in Prefixes(ax) && |p| + 1 < ax.n
    ensures IsGroup(ax.leaves, p, a, b)
    ensures Total(ax, p).data == Agg(k, TotalsBetween(ax, a, b, |p| + 1))
  {
    var i, len :| 0 <= i < |ax.leaves| && 0 <= len < ax.n && p == Prefix(ax, i, len);
    a, b := GroupOf(ax.leaves, p, i);
    UnderGroup(ax.leaves, p, a, b);
    DeeperBorder(ax, p, a, b);
    AggOfTotals(ax, k, a, b, |p| + 1);
  }

  /** Where a group starts or ends, so do the groups inside it. */
  lemma DeeperBorder(ax: Axis<Cell>, p: Label, a: nat, b: nat)
    requires Uniform(ax) && |p| + 1 < ax.n && IsGroup(ax.leaves, p, a, b)
    ensures AtBorder(ax, a, |p| + 1) && AtBorder(ax, b, |p| + 1)
  {
    var len := |p| + 1;
    if a > 0 {
      ToldApart(ax, a - 1, a, p, len);
    }
    if b < |ax.leaves| {
      ToldApart(ax, b - 1, b, p, len);
    }
  }
}
