/** Totals on rows and on columns of one table. */
module PivotBothAxes {
  import opened Wrappers
  import opened PivotAxis
  import opened PivotTotals
  import opened PivotProperties
  import opened PivotTable

  datatype Table = Table(rowPaths: seq<Label>, colPaths: seq<Label>, cells: seq<seq<Cell>>)

  predicate Rectangular(t: Table) {
    |t.cells| == |t.rowPaths| && forall r :: 0 <= r < |t.cells| ==> |t.cells[r]| == |t.colPaths|
  }

  predicate AllOfLength(paths: seq<Label>, n: nat) {
    forall i :: 0 <= i < |paths| ==> |paths[i]| == n
  }

  function Transpose(t: Table): (r: Table)
    requires Rectangular(t)
    ensures Rectangular(r)
  {
    Table(t.colPaths, t.rowPaths,
          seq(|t.colPaths|, c requires 0 <= c < |t.colPaths| =>
            seq(|t.rowPaths|, r requires 0 <= r < |t.rowPaths| => t.cells[r][c])))
  }

  /** The aggregate of rows of cells, column by column. */
  function Pointwise(k: Aggregate, width: nat): (f: seq<seq<Cell>> -> seq<Cell>) {
    (rows: seq<seq<Cell>>) => seq(width, c requires 0 <= c < width => Agg(k, ColumnOf(rows, c)))
  }

  function ColumnOf(rows: seq<seq<Cell>>, c: nat): seq<Cell> {
    seq(|rows|, r requires 0 <= r < |rows| => if c < |rows[r]| then rows[r][c] else None)
  }

  function RowAxis(t: Table, k: Aggregate, n: nat, metricName: string): Axis<seq<Cell>>
    requires Rectangular(t)
  {
    Axis(seq(|t.rowPaths|, r requires 0 <= r < |t.rowPaths| => Line(t.rowPaths[r], t.cells[r])),
         n, metricName, Pointwise(k, |t.colPaths|))
  }

  function Paths<V>(lines: seq<Line<V>>): seq<Label> {
    seq(|lines|, i requires 0 <= i < |lines| => lines[i].path)
  }

  /** The table with the totals of its rows inserted, each total a row of aggregates. */
  function RowTotals(t: Table, k: Aggregate, n: nat, metricName: string): Table
    requires Rectangular(t) && AllOfLength(t.rowPaths, n)
  {
    var lines := WithTotals(RowAxis(t, k, n, metricName));
    Table(Paths(lines), t.colPaths, Data(lines))
  }

  // ---------- the shape of an axis with totals does not depend on its data ----------

  /** A line's content in terms of original positions. */
  datatype Sym = One(i: nat) | Many(parts: seq<Sym>)

  function Eval(k: Aggregate, s: Sym, f: nat -> Cell): Cell {
    match s
    case One(i) => f(i)
    case Many(parts) => Agg(k, seq(|parts|, j requires 0 <= j < |parts| => Eval(k, parts[j], f)))
  }

  function SymAxis(paths: seq<Label>, n: nat, metricName: string): Axis<Sym> {
    Axis(seq(|paths|, i requires 0 <= i < |paths| => Line(paths[i], One(i))), n, metricName, (s: seq<Sym>) => Many(s))
  }

  function MapLines<V, W>(f: V -> W, lines: seq<Line<V>>): seq<Line<W>> {
    seq(|lines|, i requires 0 <= i < |lines| => Line(lines[i].path, f(lines[i].data)))
  }

  function MapSeq<V, W>(f: V -> W, s: seq<V>): seq<W> {
    seq(|s|, i requires 0 <= i < |s| => f(s[i]))
  }

  /** `f` carries one axis over into another. */
  ghost predicate CarriesOver<V(!new), W>(f: V -> W, ax: Axis<V>, bx: Axis<W>) {
    && bx.leaves == MapLines(f, ax.leaves) && bx.n == ax.n && bx.metricName == ax.metricName
    && forall s: seq<V> :: f(ax.agg(s)) == bx.agg(MapSeq(f, s))
  }

  lemma {:induction false} UnderMapped<V, W>(f: V -> W, lines: seq<Line<V>>, p: Label)
    ensures Under(MapLines(f, lines), p) == MapLines(f, Under(lines, p))
  {
    if lines != [] {
      assert MapLines(f, lines)[1..] == MapLines(f, lines[1..]);
      UnderMapped(f, lines[1..], p);
    }
  }

  lemma TotalMapped<V(!new), W>(f: V -> W, ax: Axis<V>, bx: Axis<W>, p: Label)
    requires CarriesOver(f, ax, bx) && |p| < ax.n
    ensures Total(bx, p) == Line(Total(ax, p).path, f(Total(ax, p).data))
  {
    UnderMapped(f, ax.leaves, p);
    assert Data(MapLines(f, Under(ax.leaves, p))) == MapSeq(f, Data(Under(ax.leaves, p)));
  }

  lemma {:induction false} ClosingMapped<V(!new), W>(f: V -> W, ax: Axis<V>, bx: Axis<W>, done: set<Label>, i: nat,
                                                     len: nat)
    requires CarriesOver(f, ax, bx) && Uniform(ax) && Uniform(bx) && i < |ax.leaves| && len <= ax.n
    ensures Closing(bx, done, i, len) == MapLines(f, Closing(ax, done, i, len))
    decreases len
  {
    if len > 0 {
      ClosingMapped(f, ax, bx, done, i, len - 1);
      TotalMapped(f, ax, bx, Prefix(ax, i, len - 1));
      assert Prefix(bx, i, len - 1) == Prefix(ax, i, len - 1);
    }
  }

  lemma {:induction false} ExpandMapped<V(!new), W>(f: V -> W, ax: Axis<V>, bx: Axis<W>, done: set<Label>, lo: nat)
    requires CarriesOver(f, ax, bx) && Uniform(ax) && Uniform(bx) && lo <= |ax.leaves|
    ensures Expand(bx, done, lo, |bx.leaves|) == MapLines(f, Expand(ax, done, lo, |ax.leaves|))
    decreases |ax.leaves| - lo
  {
    if lo < |ax.leaves| {
      ExpandMapped(f, ax, bx, done, lo + 1);
      ClosingMapped(f, ax, bx, done, lo, ax.n);
      assert Closed(bx, done, lo) == MapLines(f, Closed(ax, done, lo));
    }
  }

  lemma PrefixesMapped<V(!new), W>(f: V -> W, ax: Axis<V>, bx: Axis<W>)
    requires CarriesOver(f, ax, bx) && Uniform(ax) && Uniform(bx)
    ensures Prefixes(bx) == Prefixes(ax)
  {
    forall i, len | 0 <= i < |ax.leaves| && 0 <= len < ax.n ensures Prefix(bx, i, len) == Prefix(ax, i, len) {
    }
    forall q ensures q in Prefixes(ax) <==> q in Prefixes(bx) {
      if q in Prefixes(ax) {
        var i, len :| 0 <= i < |ax.leaves| && 0 <= len < ax.n && q == Prefix(ax, i, len);
        assert q == Prefix(bx, i, len);
      }
      if q in Prefixes(bx) {
        var i, len :| 0 <= i < |ax.leaves| && 0 <= len < ax.n && q == Prefix(bx, i, len);
        assert q == Prefix(ax, i, len);
      }
    }
  }

  // ---------- cells of a table with row totals ----------

  function ColumnAt(t: Table, c: nat): nat -> Cell {
    (r: nat) => if r < |t.cells| && c < |t.cells[r]| then t.cells[r][c] else None
  }

  function RowAt(t: Table, r: nat): nat -> Cell {
    (c: nat) => if r < |t.cells| && c < |t.cells[r]| then t.cells[r][c] else None
  }

  /** The row that a symbolic line stands for. */
  function RowCells(t: Table, k: Aggregate, s: Sym): seq<Cell> {
    seq(|t.colPaths|, c requires 0 <= c < |t.colPaths| => Eval(k, s, ColumnAt(t, c)))
  }

  function RowOf(t: Table, k: Aggregate): Sym -> seq<Cell> {
    (s: Sym) => RowCells(t, k, s)
  }

  lemma RowCellsOne(t: Table, k: Aggregate, r: nat)
    requires Rectangular(t) && r < |t.rowPaths|
    ensures RowCells(t, k, One(r)) == t.cells[r]
  {
    forall c | 0 <= c < |t.colPaths| ensures RowCells(t, k, One(r))[c] == t.cells[r][c] {
      assert Eval(k, One(r), ColumnAt(t, c)) == ColumnAt(t, c)(r);
    }
  }

  lemma RowCellsMany(t: Table, k: Aggregate, s: seq<Sym>)
    ensures RowCells(t, k, Many(s)) == Pointwise(k, |t.colPaths|)(MapSeq(RowOf(t, k), s))
  {
    var rows := MapSeq(RowOf(t, k), s);
    forall c | 0 <= c < |t.colPaths|
      ensures RowCells(t, k, Many(s))[c] == Pointwise(k, |t.colPaths|)(rows)[c]
    {
      var parts := seq(|s|, j requires 0 <= j < |s| => Eval(k, s[j], ColumnAt(t, c)));
      assert Eval(k, Many(s), ColumnAt(t, c)) == Agg(k, parts);
      assert ColumnOf(rows, c) == parts;
    }
  }

  lemma RowOfCarriesOver(t: Table, k: Aggregate, n: nat, metricName: string)
    requires Rectangular(t)
    ensures CarriesOver(RowOf(t, k), SymAxis(t.rowPaths, n, metricName), RowAxis(t, k, n, metricName))
  {
    var f, ax, bx := RowOf(t, k), SymAxis(t.rowPaths, n, metricName), RowAxis(t, k, n, metricName);
    forall r | 0 <= r < |t.rowPaths| ensures bx.leaves[r] == MapLines(f, ax.leaves)[r] {
      RowCellsOne(t, k, r);
    }
    forall s: seq<Sym> ensures f(ax.agg(s)) == bx.agg(MapSeq(f, s)) {
      RowCellsMany(t, k, s);
    }
  }

  /** Every cell of the table with row totals is an aggregate of original cells of its
      column, over positions that depend on the row labels alone. */
  lemma RowTotalsCells(t: Table, k: Aggregate, n: nat, metricName: string)
    requires Rectangular(t) && AllOfLength(t.rowPaths, n)
    ensures var sym := WithTotals(SymAxis(t.rowPaths, n, metricName));
            var r := RowTotals(t, k, n, metricName);
            && Rectangular(r) && r.rowPaths == Paths(sym) && r.colPaths == t.colPaths
            && (forall i, c :: 0 <= i < |r.cells| && 0 <= c < |r.colPaths| ==>
                               r.cells[i][c] == Eval(k, sym[i].data, ColumnAt(t, c)))
  {
    var f, ax, bx := RowOf(t, k), SymAxis(t.rowPaths, n, metricName), RowAxis(t, k, n, metricName);
    RowOfCarriesOver(t, k, n, metricName);
    PrefixesMapped(f, ax, bx);
    ExpandMapped(f, ax, bx, Prefixes(ax), 0);
    var r := RowTotals(t, k, n, metricName);
    forall i | 0 <= i < |r.cells| ensures r.cells[i] == RowCells(t, k, WithTotals(ax)[i].data) {
    }
  }

  // ---------- folding in either order ----------

  lemma MergeSwap(k: Aggregate, a: Cell, b: Cell, c: Cell, d: Cell)
    ensures Merge(k, Merge(k, a, b), Merge(k, c, d)) == Merge(k, Merge(k, a, c), Merge(k, b, d))
  {
  }

  function Zip(k: Aggregate, a: seq<Cell>, b: seq<Cell>): seq<Cell>
    requires |a| == |b|
  {
    seq(|a|, i requires 0 <= i < |a| => Merge(k, a[i], b[i]))
  }

  lemma {:induction false} AggZip(k: Aggregate, a: seq<Cell>, b: seq<Cell>)
    requires |a| == |b|
    ensures Agg(k, Zip(k, a, b)) == Merge(k, Agg(k, a), Agg(k, b))
  {
    if a != [] {
      AggZip(k, a[1..], b[1..]);
      assert Zip(k, a, b)[1..] == Zip(k, a[1..], b[1..]);
      MergeSwap(k, a[0], b[0], Agg(k, a[1..]), Agg(k, b[1..]));
    }
  }

  function RowAggs(k: Aggregate, rows: seq<seq<Cell>>): seq<Cell> {
    seq(|rows|, r requires 0 <= r < |rows| => Agg(k, rows[r]))
  }

  function ColumnAggs(k: Aggregate, rows: seq<seq<Cell>>, width: nat): seq<Cell> {
    seq(width, c requires 0 <= c < width => Agg(k, ColumnOf(rows, c)))
  }

  lemma {:induction false} AggUnits(k: Aggregate, width: nat)
    ensures Agg(k, seq(width, _ => Unit(k))) == Unit(k)
  {
    if width > 0 {
      AggUnits(k, width - 1);
      assert seq(width, _ => Unit(k))[1..] == seq(width - 1, _ => Unit(k));
    }
  }

  /** The grand total: aggregating the row aggregates or the column aggregates agrees. */
  lemma {:induction false} GrandTotal(k: Aggregate, rows: seq<seq<Cell>>, width: nat)
    requires forall r :: 0 <= r < |rows| ==> |rows[r]| == width
    ensures Agg(k, RowAggs(k, rows)) == Agg(k, ColumnAggs(k, rows, width))
  {
    if rows == [] {
      AggUnits(k, width);
      assert ColumnAggs(k, rows, width) == seq(width, _ => Unit(k));
    } else {
      var rest := rows[1..];
      GrandTotal(k, rest, width);
      assert RowAggs(k, rows)[1..] == RowAggs(k, rest);
      forall c | 0 <= c < width
        ensures ColumnAggs(k, rows, width)[c] == Zip(k, rows[0], ColumnAggs(k, rest, width))[c]
      {
        assert ColumnOf(rows, c)[1..] == ColumnOf(rest, c);
      }
      assert ColumnAggs(k, rows, width) == Zip(k, rows[0], ColumnAggs(k, rest, width));
      AggZip(k, rows[0], ColumnAggs(k, rest, width));
    }
  }

  /** Every position a line refers to is below `n`. */
  predicate Below(s: Sym, n: nat) {
    match s
    case One(i) => i < n
    case Many(parts) => forall j :: 0 <= j < |parts| ==> Below(parts[j], n)
  }

  /** A line's value depends only on the cells at its positions. */
  lemma {:induction false} EvalBelow(k: Aggregate, s: Sym, f: nat -> Cell, g: nat -> Cell, n: nat)
    requires Below(s, n) && forall i: nat :: i < n ==> f(i) == g(i)
    ensures Eval(k, s, f) == Eval(k, s, g)
    decreases s
  {
    if s.Many? {
      forall j | 0 <= j < |s.parts| ensures EvalParts(k, s.parts, f)[j] == EvalParts(k, s.parts, g)[j] {
        EvalBelow(k, s.parts[j], f, g, n);
      }
      assert EvalParts(k, s.parts, f) == EvalParts(k, s.parts, g);
      EvalMany(k, s.parts, f);
      EvalMany(k, s.parts, g);
    }
  }

  lemma {:induction false} UnderFrom<V>(lines: seq<Line<V>>, p: Label, x: Line<V>)
    requires x in Under(lines, p)
    ensures x in lines
  {
    if x != lines[0] {
      assert x in Under(lines[1..], p);
      UnderFrom(lines[1..], p, x);
    }
  }

  lemma TotalBelow(paths: seq<Label>, n: nat, metricName: string, p: Label)
    requires |p| < n
    ensures Below(Total(SymAxis(paths, n, metricName), p).data, |paths|)
  {
    var ax := SymAxis(paths, n, metricName);
    var under := Under(ax.leaves, p);
    forall j | 0 <= j < |Data(under)| ensures Below(Data(under)[j], |paths|) {
      UnderFrom(ax.leaves, p, under[j]);
    }
    assert Total(ax, p).data == Many(Data(under));
  }

  lemma SymBelow(paths: seq<Label>, n: nat, metricName: string, x: Line<Sym>)
    requires Uniform(SymAxis(paths, n, metricName)) && x in WithTotals(SymAxis(paths, n, metricName))
    ensures Below(x.data, |paths|)
  {
    var ax := SymAxis(paths, n, metricName);
    NothingElse(ax, x);
    if x in ax.leaves {
      var i :| 0 <= i < |paths| && x == ax.leaves[i];
      assert x.data == One(i);
    } else {
      var p :| p in Prefixes(ax) && |p| < ax.n && x == Total(ax, p);
      TotalBelow(paths, n, metricName, p);
    }
  }

  lemma {:induction false} EvalOf(k: Aggregate, s: Sym, f: nat -> Cell, g: nat -> Cell)
    requires forall i: nat :: f(i) == g(i)
    ensures Eval(k, s, f) == Eval(k, s, g)
    decreases s
  {
    if s.Many? {
      forall j | 0 <= j < |s.parts| ensures EvalParts(k, s.parts, f)[j] == EvalParts(k, s.parts, g)[j] {
        EvalOf(k, s.parts[j], f, g);
      }
      assert EvalParts(k, s.parts, f) == EvalParts(k, s.parts, g);
      EvalMany(k, s.parts, f);
      EvalMany(k, s.parts, g);
    }
  }

  /** Member `j` of a family of cells, and the family's aggregate, position by position. */
  function Member(g: nat -> nat -> Cell, j: nat): nat -> Cell {
    (i: nat) => g(i)(j)
  }

  function AggAt(k: Aggregate, width: nat, g: nat -> nat -> Cell, i: nat): Cell {
    Agg(k, seq(width, j requires 0 <= j < width => g(i)(j)))
  }

  function AggFamily(k: Aggregate, width: nat, g: nat -> nat -> Cell): nat -> Cell {
    (i: nat) => AggAt(k, width, g, i)
  }

  function EvalMembers(k: Aggregate, s: Sym, width: nat, g: nat -> nat -> Cell): seq<Cell> {
    seq(width, j requires 0 <= j < width => Eval(k, s, Member(g, j)))
  }

  function EvalParts(k: Aggregate, parts: seq<Sym>, f: nat -> Cell): seq<Cell> {
    seq(|parts|, l requires 0 <= l < |parts| => Eval(k, parts[l], f))
  }

  lemma EvalMany(k: Aggregate, parts: seq<Sym>, f: nat -> Cell)
    ensures Eval(k, Many(parts), f) == Agg(k, EvalParts(k, parts, f))
  {
    assert EvalParts(k, parts, f) == seq(|parts|, j requires 0 <= j < |parts| => Eval(k, parts[j], f));
  }

  /** Aggregating a family of cells commutes with evaluating a line. */
  lemma {:induction false} EvalOfAgg(k: Aggregate, s: Sym, width: nat, g: nat -> nat -> Cell)
    ensures Eval(k, s, AggFamily(k, width, g)) == Agg(k, EvalMembers(k, s, width, g))
    decreases s
  {
    match s
    case One(i) =>
      assert EvalMembers(k, s, width, g) == seq(width, j requires 0 <= j < width => g(i)(j));
    case Many(parts) =>
      var rows := seq(|parts|, l requires 0 <= l < |parts| => EvalMembers(k, parts[l], width, g));
      forall l | 0 <= l < |parts| ensures Eval(k, parts[l], AggFamily(k, width, g)) == RowAggs(k, rows)[l] {
        EvalOfAgg(k, parts[l], width, g);
      }
      EvalMany(k, parts, AggFamily(k, width, g));
      assert EvalParts(k, parts, AggFamily(k, width, g)) == RowAggs(k, rows);
      forall j | 0 <= j < width ensures EvalMembers(k, s, width, g)[j] == ColumnAggs(k, rows, width)[j] {
        EvalMany(k, parts, Member(g, j));
        assert ColumnOf(rows, j) == EvalParts(k, parts, Member(g, j));
      }
      assert EvalMembers(k, s, width, g) == ColumnAggs(k, rows, width);
      GrandTotal(k, rows, width);
  }

  /** A cell of a table, evaluated along one axis and then along the other. */
  function EvalAlong(k: Aggregate, s: Sym, g: nat -> nat -> Cell): nat -> Cell {
    (i: nat) => Eval(k, s, g(i))
  }

  function Flip(g: nat -> nat -> Cell): nat -> nat -> Cell {
    (j: nat) => Member(g, j)
  }

  /** Two lines, one of each axis, may be evaluated in either order. */
  lemma {:induction false} EvalSwap(k: Aggregate, s: Sym, u: Sym, g: nat -> nat -> Cell)
    ensures Eval(k, s, EvalAlong(k, u, g)) == Eval(k, u, EvalAlong(k, s, Flip(g)))
    decreases u
  {
    match u
    case One(j) =>
      forall i: nat ensures EvalAlong(k, u, g)(i) == Member(g, j)(i) {
        assert Eval(k, One(j), g(i)) == g(i)(j);
      }
      EvalOf(k, s, EvalAlong(k, u, g), Member(g, j));
    case Many(parts) =>
      var family := PartFamily(k, parts, g);
      forall i: nat ensures EvalAlong(k, u, g)(i) == AggFamily(k, |parts|, family)(i) {
        EvalMany(k, parts, g(i));
        assert EvalParts(k, parts, g(i)) == seq(|parts|, l requires 0 <= l < |parts| => family(i)(l));
      }
      EvalOf(k, s, EvalAlong(k, u, g), AggFamily(k, |parts|, family));
      EvalOfAgg(k, s, |parts|, family);
      forall l | 0 <= l < |parts|
        ensures EvalMembers(k, s, |parts|, family)[l] == EvalParts(k, parts, EvalAlong(k, s, Flip(g)))[l]
      {
        EvalOf(k, s, Member(family, l), EvalAlong(k, parts[l], g));
        EvalSwap(k, s, parts[l], g);
      }
      assert EvalMembers(k, s, |parts|, family) == EvalParts(k, parts, EvalAlong(k, s, Flip(g)));
      EvalMany(k, parts, EvalAlong(k, s, Flip(g)));
  }

  /** Each part evaluated along the inner axis. */
  function PartFamily(k: Aggregate, parts: seq<Sym>, g: nat -> nat -> Cell): nat -> nat -> Cell {
    (i: nat) => (l: nat) => if l < |parts| then Eval(k, parts[l], g(i)) else None
  }

  // ---------- both axes ----------

  /** The table with the totals of its columns inserted. */
  function ColumnTotals(t: Table, k: Aggregate, n: nat, metricName: string): Table
    requires Rectangular(t) && AllOfLength(t.colPaths, n)
  {
    RowTotalsCells(Transpose(t), k, n, metricName);
    Transpose(RowTotals(Transpose(t), k, n, metricName))
  }

  /** The totals of both axes make the same table whichever axis comes first, corner cells
      and all. */
  lemma TotalsCommute(t: Table, k: Aggregate, rn: nat, cn: nat, metricName: string)
    requires Rectangular(t) && AllOfLength(t.rowPaths, rn) && AllOfLength(t.colPaths, cn)
    ensures Rectangular(RowTotals(t, k, rn, metricName)) && Rectangular(ColumnTotals(t, k, cn, metricName))
    ensures RowTotals(ColumnTotals(t, k, cn, metricName), k, rn, metricName) ==
            ColumnTotals(RowTotals(t, k, rn, metricName), k, cn, metricName)
  {
    RowTotalsCells(t, k, rn, metricName);
    ColumnTotalsCells(t, k, cn, metricName);
    var c := ColumnTotals(t, k, cn, metricName);
    var r := RowTotals(t, k, rn, metricName);
    RowTotalsCells(c, k, rn, metricName);
    ColumnTotalsCells(r, k, cn, metricName);
    var x, y := RowTotals(c, k, rn, metricName), ColumnTotals(r, k, cn, metricName);
    var rows, cols := WithTotals(SymAxis(t.rowPaths, rn, metricName)), WithTotals(SymAxis(t.colPaths, cn, metricName));
    forall i, j | 0 <= i < |rows| && 0 <= j < |cols| ensures x.cells[i][j] == y.cells[i][j] {
      SymBelow(t.rowPaths, rn, metricName, rows[i]);
      SymBelow(t.colPaths, cn, metricName, cols[j]);
      BothCells(t, c, r, k, rows[i].data, cols[j].data, i, j);
    }
    SameCells(x, y);
  }

  lemma ColumnTotalsCells(t: Table, k: Aggregate, n: nat, metricName: string)
    requires Rectangular(t) && AllOfLength(t.colPaths, n)
    ensures var sym := WithTotals(SymAxis(t.colPaths, n, metricName));
            var c := ColumnTotals(t, k, n, metricName);
            && Rectangular(c) && c.colPaths == Paths(sym) && c.rowPaths == t.rowPaths
            && (forall r, j :: 0 <= r < |c.rowPaths| && 0 <= j < |c.colPaths| ==>
                               c.cells[r][j] == Eval(k, sym[j].data, RowAt(t, r)))
  {
    var sym := WithTotals(SymAxis(t.colPaths, n, metricName));
    var c := ColumnTotals(t, k, n, metricName);
    RowTotalsCells(Transpose(t), k, n, metricName);
    forall r, j | 0 <= r < |c.rowPaths| && 0 <= j < |c.colPaths|
      ensures c.cells[r][j] == Eval(k, sym[j].data, RowAt(t, r))
    {
      EvalOf(k, sym[j].data, ColumnAt(Transpose(t), r), RowAt(t, r));
    }
  }

  lemma SameCells(x: Table, y: Table)
    requires Rectangular(x) && Rectangular(y) && x.rowPaths == y.rowPaths && x.colPaths == y.colPaths
    requires forall i, j :: 0 <= i < |x.rowPaths| && 0 <= j < |x.colPaths| ==> x.cells[i][j] == y.cells[i][j]
    ensures x == y
  {
    forall i | 0 <= i < |x.cells| ensures x.cells[i] == y.cells[i] {
    }
  }

  function CellFamily(t: Table): nat -> nat -> Cell {
    (r: nat) => RowAt(t, r)
  }

  /** A cell with a total on each axis, reached through either intermediate table. */
  lemma BothCells(t: Table, c: Table, r: Table, k: Aggregate, s: Sym, u: Sym, i: nat, j: nat)
    requires Rectangular(t) && Rectangular(c) && Rectangular(r)
    requires Below(s, |t.rowPaths|) && Below(u, |t.colPaths|)
    requires |c.rowPaths| == |t.rowPaths| && j < |c.colPaths| && |r.colPaths| == |t.colPaths| && i < |r.rowPaths|
    requires forall x :: 0 <= x < |c.rowPaths| ==> c.cells[x][j] == Eval(k, u, RowAt(t, x))
    requires forall x :: 0 <= x < |r.colPaths| ==> r.cells[i][x] == Eval(k, s, ColumnAt(t, x))
    ensures Eval(k, s, ColumnAt(c, j)) == Eval(k, u, RowAt(r, i))
  {
    var g := CellFamily(t);
    EvalBelow(k, s, ColumnAt(c, j), EvalAlong(k, u, g), |t.rowPaths|);
    EvalSwap(k, s, u, g);
    forall x: nat | x < |t.colPaths| ensures EvalAlong(k, s, Flip(g))(x) == RowAt(r, i)(x) {
      EvalOf(k, s, Flip(g)(x), ColumnAt(t, x));
    }
    EvalBelow(k, u, EvalAlong(k, s, Flip(g)), RowAt(r, i), |t.colPaths|);
  }

  // ---------- deleting both kinds of totals ----------

  function RowLines(t: Table): seq<Line<seq<Cell>>>
    requires Rectangular(t)
  {
    seq(|t.rowPaths|, r requires 0 <= r < |t.rowPaths| => Line(t.rowPaths[r], t.cells[r]))
  }

  lemma {:induction false} WithoutTotalsWidths(lines: seq<Line<seq<Cell>>>, metricName: string, width: nat)
    requires forall i :: 0 <= i < |lines| ==> |lines[i].data| == width
    ensures forall i :: 0 <= i < |WithoutTotals(lines, metricName)| ==>
                        |WithoutTotals(lines, metricName)[i].data| == width
  {
    if lines != [] {
      WithoutTotalsWidths(lines[1..], metricName, width);
    }
  }

  /** The table without the rows labelled as totals, and without such columns. */
  function DropTotalRows(t: Table, metricName: string): (r: Table)
    requires Rectangular(t)
    ensures Rectangular(r)
  {
    WithoutTotalsWidths(RowLines(t), metricName, |t.colPaths|);
    var lines := WithoutTotals(RowLines(t), metricName);
    Table(Paths(lines), t.colPaths, Data(lines))
  }

  function DropTotalColumns(t: Table, metricName: string): (r: Table)
    requires Rectangular(t)
    ensures Rectangular(r)
  {
    Transpose(DropTotalRows(Transpose(t), metricName))
  }

  lemma RowTotalsDropped(t: Table, k: Aggregate, n: nat, metricName: string)
    requires Rectangular(t) && AllOfLength(t.rowPaths, n) && Regular(RowAxis(t, k, n, metricName))
    ensures Rectangular(RowTotals(t, k, n, metricName))
    ensures DropTotalRows(RowTotals(t, k, n, metricName), metricName) == t
  {
    RowTotalsCells(t, k, n, metricName);
    DeletingTotalsRestores(RowAxis(t, k, n, metricName));
    assert RowLines(RowTotals(t, k, n, metricName)) == WithTotals(RowAxis(t, k, n, metricName));
    assert Paths(RowLines(t)) == t.rowPaths && Data(RowLines(t)) == t.cells;
  }

  lemma TransposeTwice(t: Table)
    requires Rectangular(t)
    ensures Transpose(Transpose(t)) == t
  {
    SameCells(Transpose(Transpose(t)), t);
  }

  lemma ColumnTotalsDropped(t: Table, k: Aggregate, n: nat, metricName: string)
    requires Rectangular(t) && AllOfLength(t.colPaths, n) && Regular(RowAxis(Transpose(t), k, n, metricName))
    ensures Rectangular(ColumnTotals(t, k, n, metricName))
    ensures DropTotalColumns(ColumnTotals(t, k, n, metricName), metricName) == t
  {
    RowTotalsDropped(Transpose(t), k, n, metricName);
    TransposeTwice(RowTotals(Transpose(t), k, n, metricName));
    TransposeTwice(t);
  }

  /** Deleting the total columns and the total rows of the finished table gives back the
      original one: labels, cells and their order. */
  lemma DeletingBothRestores(t: Table, k: Aggregate, rn: nat, cn: nat, metricName: string)
    requires Rectangular(t) && AllOfLength(t.rowPaths, rn) && AllOfLength(t.colPaths, cn)
    requires Regular(RowAxis(t, k, rn, metricName)) && Regular(RowAxis(Transpose(t), k, cn, metricName))
    ensures Rectangular(RowTotals(t, k, rn, metricName))
    ensures var r := ColumnTotals(RowTotals(t, k, rn, metricName), k, cn, metricName);
            Rectangular(r) && DropTotalRows(DropTotalColumns(r, metricName), metricName) == t
  {
    RowTotalsDropped(t, k, rn, metricName);
    RowTotalsCells(t, k, rn, metricName);
    var rows := RowTotals(t, k, rn, metricName);
    SameRowsRegular(Transpose(t), Transpose(rows), k, cn, metricName);
    ColumnTotalsDropped(rows, k, cn, metricName);
  }

  // ---------- the code ----------

  /** Totals of rows are as wide as the rows. */
  lemma {:induction false} AddedWidths(ax: Axis<seq<Cell>>, order: seq<Label>, unique: bool, width: nat)
    requires Shallow(order, ax.n) && TotalsAdded(ax, order, unique).Some?
    requires forall i :: 0 <= i < |ax.leaves| ==> |ax.leaves[i].data| == width
    requires forall rows :: |ax.agg(rows)| == width
    ensures var lines := TotalsAdded(ax, order, unique).value;
            forall i :: 0 <= i < |lines| ==> |lines[i].data| == width
  {
    if order != [] {
      AddedWidths(ax, order[..|order| - 1], unique, width);
    }
  }

  /** Inserting the totals of the rows of a table; `None` stands for an exception. */
  method AddRowTotals(t: Table, k: Aggregate, n: nat, metricName: string, unique: bool) returns (r: Option<Table>)
    requires Rectangular(t) && AllOfLength(t.rowPaths, n)
    ensures Regular(RowAxis(t, k, n, metricName)) ==> r == Some(RowTotals(t, k, n, metricName))
    ensures r.Some? ==> Rectangular(r.value) && r.value.colPaths == t.colPaths
  {
    var ax := RowAxis(t, k, n, metricName);
    var lines, order := AddTotals(ax, unique);
    if lines.None? {
      return None;
    }
    AddedWidths(ax, order, unique, |t.colPaths|);
    r := Some(Table(Paths(lines.value), t.colPaths, Data(lines.value)));
  }

  /** The totals of `pivot_df`: first those of the columns, then those of the rows, which
      aggregate the columns of totals as well; `showColumnsTotal` is on only where there are
      rows. With both on, the result is also what folding the rows first would give. */
  method AddBothTotals(t: Table, k: Aggregate, rn: nat, cn: nat, metricName: string,
                       showRowsTotal: bool, showColumnsTotal: bool)
    returns (r: Option<Table>)
    requires Rectangular(t) && AllOfLength(t.rowPaths, rn) && AllOfLength(t.colPaths, cn)
    ensures Rectangular(RowTotals(t, k, rn, metricName)) && Rectangular(ColumnTotals(t, k, cn, metricName))
    ensures (showRowsTotal ==> Regular(RowAxis(Transpose(t), k, cn, metricName))) &&
            (showColumnsTotal ==> Regular(RowAxis(t, k, rn, metricName))) ==>
              r == Some(
                if showRowsTotal && showColumnsTotal
                then ColumnTotals(RowTotals(t, k, rn, metricName), k, cn, metricName)
                else if showRowsTotal then ColumnTotals(t, k, cn, metricName)
                else if showColumnsTotal then RowTotals(t, k, rn, metricName)
                else t)
  {
    RowTotalsCells(t, k, rn, metricName);
    ColumnTotalsCells(t, k, cn, metricName);
    var table := t;
    if showRowsTotal {
      var columns := AddRowTotals(Transpose(t), k, cn, metricName, true);
      if columns.None? {
        return None;
      }
      table := Transpose(columns.value);
    }
    if showColumnsTotal {
      var rows := AddRowTotals(table, k, rn, metricName, false);
      if Regular(RowAxis(t, k, rn, metricName)) {
        SameRowsRegular(t, table, k, rn, metricName);
        if showRowsTotal && Regular(RowAxis(Transpose(t), k, cn, metricName)) {
          TotalsCommute(t, k, rn, cn, metricName);
        }
      }
      if rows.None? {
        return None;
      }
      table := rows.value;
    }
    r := Some(table);
  }

  /** Regularity is a matter of labels. */
  lemma SameRowsRegular(t: Table, u: Table, k: Aggregate, n: nat, metricName: string)
    requires Rectangular(t) && Rectangular(u) && t.rowPaths == u.rowPaths
    requires Regular(RowAxis(t, k, n, metricName))
    ensures Regular(RowAxis(u, k, n, metricName))
  {
    var a, b := RowAxis(t, k, n, metricName).leaves, RowAxis(u, k, n, metricName).leaves;
    assert forall i :: 0 <= i < |a| ==> a[i].path == b[i].path;
    forall p | |p| < n ensures Together(b, p) {
      SamePathsTogether(a, b, p);
    }
  }

  lemma SamePathsTogether<V>(a: seq<Line<V>>, b: seq<Line<V>>, p: Label)
    requires |a| == |b| && (forall i :: 0 <= i < |a| ==> a[i].path == b[i].path) && Together(a, p)
    ensures Together(b, p)
  {
    assert forall i :: 0 <= i < |b| ==> Carries(a[i], p) == Carries(b[i], p);
  }
}
