/** The partition diagram: group sums precomputed level by level, then nested into a tree by
    looking each node's value up instead of summing from the bottom. */
module Partition {
  import opened Wrappers
  import opened Ordering

  /** Group keys, in the order in which a grouping sorts them. */
  type Key = int
  type Column = string

  /** A row: its group keys, and its values in the numeric columns. */
  datatype Row = Row(keys: seq<Key>, vals: map<Column, int>)

  /** A data frame, the columns it is grouped by, and all its numeric columns in order. A
      group column may itself be numeric, as a year is. */
  datatype Frame = Frame(rows: seq<Row>, groups: seq<Column>, numeric: seq<Column>)

  /** A grouped column: one value per group, indexed by the group's keys. */
  datatype Item = Item(key: seq<Key>, val: int)
  type Series = seq<Item>

  /** What `levels[i]` holds for each of its columns. */
  type Level = map<Column, Series>

  datatype Name = MetricName(metric: Column) | KeyName(key: Key) | PathName(path: seq<Key>)
  datatype Node = Node(name: Name, val: int, children: seq<Node>)

  ghost predicate WellFormed(f: Frame) {
    && (forall i :: 0 <= i < |f.rows| ==> |f.rows[i].keys| == |f.groups|)
    && (forall i, c :: 0 <= i < |f.rows| && c in f.numeric ==> c in f.rows[i].vals)
    && (forall i, j :: 0 <= i < |f.rows| && 0 <= j < |f.groups| && f.groups[j] in f.numeric ==>
                       f.rows[i].vals[f.groups[j]] == f.rows[i].keys[j])
  }

  // ---------- grouping ----------

  /** Adding a value to its group, which keeps or finds its place in the sorted index. */
  function Add(s: Series, key: seq<Key>, val: int): Series {
    if s == [] then [Item(key, val)]
    else if s[0].key == key then [Item(key, s[0].val + val)] + s[1..]
    else if LexLess(key, s[0].key) then [Item(key, val)] + s
    else [s[0]] + Add(s[1..], key, val)
  }

  /** `groupby(groups[:i]).sum()` for one metric. */
  function GroupSum(rows: seq<Row>, i: nat, m: Column): Series
    requires forall r :: 0 <= r < |rows| ==> i <= |rows[r].keys| && m in rows[r].vals
  {
    if rows == [] then []
    else
      var last := rows[|rows| - 1];
      Add(GroupSum(rows[..|rows| - 1], i, m), last.keys[..i], last.vals[m])
  }

  /** The sums of one level. A numeric column is summed as long as it is not one of those
      grouped by: grouping turns it into the index. */
  function LevelOf(f: Frame, i: nat): Level
    requires WellFormed(f) && i <= |f.groups|
  {
    map c | c in f.numeric && c !in f.groups[..i] :: GroupSum(f.rows, i, c)
  }

  /** `levels_for`, for the summing time options. */
  method LevelsFor(f: Frame) returns (levels: seq<Level>)
    requires WellFormed(f)
    ensures AreLevels(levels, f)
  {
    levels := [];
    for i := 0 to |f.groups| + 1
      invariant |levels| == i && forall j :: 0 <= j < i ==> levels[j] == LevelOf(f, j)
    {
      levels := levels + [LevelOf(f, i)];
    }
  }

  ghost predicate AreLevels(levels: seq<Level>, f: Frame)
    requires WellFormed(f)
  {
    |levels| == |f.groups| + 1 && forall i :: 0 <= i <= |f.groups| ==> levels[i] == LevelOf(f, i)
  }

  // ---------- nesting ----------

  predicate Has(s: Series, d: Key) {
    exists i :: 0 <= i < |s| && s[i].key != [] && s[i].key[0] == d
  }

  /** Selecting one key of the outermost index level drops that level. */
  function Select(s: Series, d: Key): Series {
    if s == [] then []
    else if s[0].key != [] && s[0].key[0] == d then [Item(s[0].key[1..], s[0].val)] + Select(s[1..], d)
    else Select(s[1..], d)
  }

  /** Descending along `dims`; nothing where a key is missing. */
  function Descend(s: Series, dims: seq<Key>): Option<Series>
    decreases |dims|
  {
    if dims == [] then Some(s)
    else if !Has(s, dims[0]) then None
    else Descend(Select(s, dims[0]), dims[1..])
  }

  function HeadKey(item: Item): Key {
    if item.key == [] then 0 else item.key[0]
  }

  /** `nest_values` below the columns: level 1 takes its column as it is, deeper levels
      descend along the keys above them. Nothing where a level lacks the column: the lookup
      raises, and no tree is built at all. */
  function NestValues(levels: seq<Level>, level: nat, m: Column, dims: seq<Key>): Option<seq<Node>>
    requires level > 0
    decreases |levels| - level, 1, 0
  {
    if level == 1 then
      if |levels| <= 1 || m !in levels[1] then None else NestItems(levels, 1, m, [], levels[1][m])
    else if level >= |levels| then Some([])
    else if m !in levels[level] then None
    else
      match Descend(levels[level][m], dims)
      case None => Some([])
      case Some(s) => NestItems(levels, level, m, dims, s)
  }

  /** The nodes of a series, one per key of its index. */
  function NestItems(levels: seq<Level>, level: nat, m: Column, dims: seq<Key>, s: Series): Option<seq<Node>>
    requires 0 < level < |levels|
    decreases |levels| - level, 0, |s|
  {
    if s == [] then Some([])
    else
      var last := s[|s| - 1];
      var front := NestItems(levels, level, m, dims, s[..|s| - 1]);
      var below := NestValues(levels, level + 1, m, dims + [HeadKey(last)]);
      if front.None? || below.None? then None
      else Some(front.value + [Node(NodeName(level, dims, HeadKey(last)), last.val, below.value)])
  }

  /** Names are plain keys at the first level and whole paths below it. */
  function NodeName(level: nat, dims: seq<Key>, k: Key): Name {
    if level == 1 then KeyName(k) else PathName(dims + [k])
  }

  /** `nest_values` from the top: one node per column of level 0. */
  function NestColumns(levels: seq<Level>, columns: seq<Column>): Option<seq<Node>>
    requires levels != [] && forall j :: 0 <= j < |columns| ==> columns[j] in levels[0]
  {
    if columns == [] then Some([])
    else
      var m := columns[|columns| - 1];
      var front := NestColumns(levels, columns[..|columns| - 1]);
      var below := NestValues(levels, 1, m, []);
      if front.None? || below.None? then None
      else Some(front.value + [Node(MetricName(m), Overall(levels[0][m]), below.value)])
  }

  function Overall(s: Series): int {
    if s == [] then 0 else s[0].val
  }

  predicate HasMetric(levels: seq<Level>, m: Column) {
    forall i :: 0 <= i < |levels| ==> m in levels[i]
  }

  // ---------- what a grouping is ----------

  function Matches(r: Row, p: seq<Key>): bool {
    p <= r.keys
  }

  ghost predicate Observed(rows: seq<Row>, p: seq<Key>) {
    exists i :: 0 <= i < |rows| && Matches(rows[i], p)
  }

  /** The sum of a metric over the rows of a group. */
  function SumRows(rows: seq<Row>, p: seq<Key>, m: Column): int
    requires forall r :: 0 <= r < |rows| ==> m in rows[r].vals
  {
    if rows == [] then 0
    else
      SumRows(rows[..|rows| - 1], p, m) +
      if Matches(rows[|rows| - 1], p) then rows[|rows| - 1].vals[m] else 0
  }

  ghost predicate SortedSeries(s: Series) {
    forall i, j :: 0 <= i < j < |s| ==> LexLess(s[i].key, s[j].key)
  }

  ghost predicate HasKey(s: Series, key: seq<Key>) {
    exists i :: 0 <= i < |s| && s[i].key == key
  }

  /** The value of a group, 0 where there is none. */
  function ValOf(s: Series, key: seq<Key>): int {
    if s == [] then 0 else if s[0].key == key then s[0].val else ValOf(s[1..], key)
  }

  ghost predicate HasVals(rows: seq<Row>, m: Column) {
    forall r :: 0 <= r < |rows| ==> m in rows[r].vals
  }

  /** The groups below `dims`, `len` keys deep: exactly the observed ones, sorted, each with
      the sum of its rows. */
  ghost predicate IsGrouping(s: Series, rows: seq<Row>, len: nat, m: Column, dims: seq<Key>)
    requires HasVals(rows, m)
  {
    && SortedSeries(s)
    && (forall key :: HasKey(s, key) <==> |key| == len && Observed(rows, dims + key))
    && (forall key :: HasKey(s, key) ==> ValOf(s, key) == SumRows(rows, dims + key, m))
  }

  // ---------- properties of series ----------

  lemma HasKeyStep(s: Series, key: seq<Key>)
    requires s != []
    ensures HasKey(s, key) <==> s[0].key == key || HasKey(s[1..], key)
  {
    if i :| 0 <= i < |s| && s[i].key == key {
      assert i == 0 || s[1..][i - 1].key == key;
    }
    if j :| 0 <= j < |s[1..]| && s[1..][j].key == key {
      assert s[j + 1].key == key;
    }
  }

  lemma SortedStep(s: Series)
    requires s != [] && SortedSeries(s)
    ensures SortedSeries(s[1..])
    ensures forall key :: HasKey(s[1..], key) ==> LexLess(s[0].key, key)
  {
    forall key | HasKey(s[1..], key) ensures LexLess(s[0].key, key) {
      var j :| 0 <= j < |s[1..]| && s[1..][j].key == key;
      assert LexLess(s[0].key, s[j + 1].key);
    }
  }

  lemma SortedCons(x: Item, s: Series)
    requires SortedSeries(s) && forall key :: HasKey(s, key) ==> LexLess(x.key, key)
    ensures SortedSeries([x] + s)
  {
    forall i, j | 0 <= i < j < |[x] + s| ensures LexLess(([x] + s)[i].key, ([x] + s)[j].key) {
      if i == 0 {
        assert HasKey(s, s[j - 1].key);
      }
    }
  }

  lemma ValOfHead(s: Series, i: nat)
    requires SortedSeries(s) && i < |s|
    ensures ValOf(s, s[i].key) == s[i].val
  {
    if i > 0 {
      SortedStep(s);
      LexTotal(s[0].key, s[i].key);
      assert LexLess(s[0].key, s[i].key);
      ValOfHead(s[1..], i - 1);
    }
  }

  lemma {:induction false} ValOfMissing(s: Series, key: seq<Key>)
    requires !HasKey(s, key)
    ensures ValOf(s, key) == 0
  {
    if s != [] {
      HasKeyStep(s, key);
      ValOfMissing(s[1..], key);
    }
  }

  /** Adding to a group changes that group alone and keeps the index sorted. */
  lemma {:induction false} AddIs(s: Series, key: seq<Key>, val: int, k: seq<Key>)
    requires SortedSeries(s)
    ensures HasKey(Add(s, key, val), k) <==> HasKey(s, k) || k == key
    ensures ValOf(Add(s, key, val), k) == ValOf(s, k) + if k == key then val else 0
  {
    var r := Add(s, key, val);
    HasKeyStep(r, k);
    if s != [] {
      HasKeyStep(s, k);
      SortedStep(s);
      if s[0].key != key && !LexLess(key, s[0].key) {
        AddIs(s[1..], key, val, k);
        assert r[1..] == Add(s[1..], key, val);
      } else if s[0].key != key {
        assert r[1..] == s;
        if k == key {
          LexTotal(key, s[0].key);
          BelowAll(s, key);
          ValOfMissing(s, key);
        }
      } else {
        assert r[1..] == s[1..];
      }
    }
  }

  lemma BelowAll(s: Series, key: seq<Key>)
    requires SortedSeries(s) && s != [] && LexLess(key, s[0].key)
    ensures !HasKey(s, key)
  {
    forall i | 0 <= i < |s| ensures s[i].key != key {
      LexTotal(key, s[i].key);
      if i > 0 {
        LexTransitive(key, s[0].key, s[i].key);
      }
    }
  }

  lemma {:induction false} AddSorted(s: Series, key: seq<Key>, val: int)
    requires SortedSeries(s)
    ensures SortedSeries(Add(s, key, val))
  {
    if s == [] {
    } else {
      SortedStep(s);
      LexTotal(s[0].key, key);
      if s[0].key == key {
        SortedCons(Item(key, s[0].val + val), s[1..]);
      } else if LexLess(key, s[0].key) {
        forall k | HasKey(s, k) ensures LexLess(key, k) {
          HasKeyStep(s, k);
          if k != s[0].key {
            LexTransitive(key, s[0].key, k);
          }
        }
        SortedCons(Item(key, val), s);
      } else {
        AddSorted(s[1..], key, val);
        forall k | HasKey(Add(s[1..], key, val), k) ensures LexLess(s[0].key, k) {
          AddIs(s[1..], key, val, k);
        }
        SortedCons(s[0], Add(s[1..], key, val));
      }
    }
  }

  /** Each level groups the rows by their first keys. */
  lemma {:induction false} GroupSumIs(rows: seq<Row>, i: nat, m: Column)
    requires HasVals(rows, m) && forall r :: 0 <= r < |rows| ==> i <= |rows[r].keys|
    ensures IsGrouping(GroupSum(rows, i, m), rows, i, m, [])
  {
    if rows == [] {
      assert forall key :: !Observed(rows, [] + key);
    } else {
      var last, init := rows[|rows| - 1], rows[..|rows| - 1];
      var s := GroupSum(init, i, m);
      var own := last.keys[..i];
      GroupSumIs(init, i, m);
      AddSorted(s, own, last.vals[m]);
      forall key
        ensures HasKey(GroupSum(rows, i, m), key) <==> |key| == i && Observed(rows, [] + key)
        ensures HasKey(GroupSum(rows, i, m), key) ==> ValOf(GroupSum(rows, i, m), key) == SumRows(rows, [] + key, m)
      {
        assert [] + key == key;
        AddIs(s, own, last.vals[m], key);
        ObservedStep(rows, key);
        if |key| == i {
          assert Matches(last, key) <==> key == own;
        }
        if !Observed(init, key) {
          ValOfMissing(s, key);
          SumUnobserved(init, key, m);
        }
      }
    }
  }

  lemma ObservedStep(rows: seq<Row>, p: seq<Key>)
    requires rows != []
    ensures Observed(rows, p) <==> Observed(rows[..|rows| - 1], p) || Matches(rows[|rows| - 1], p)
  {
    var init := rows[..|rows| - 1];
    if i :| 0 <= i < |init| && Matches(init[i], p) {
      assert Matches(rows[i], p);
    }
    if i :| 0 <= i < |rows| && Matches(rows[i], p) {
      assert i == |rows| - 1 || Matches(init[i], p);
    }
  }

  lemma {:induction false} SumUnobserved(rows: seq<Row>, p: seq<Key>, m: Column)
    requires HasVals(rows, m) && !Observed(rows, p)
    ensures SumRows(rows, p, m) == 0
  {
    if rows != [] {
      ObservedStep(rows, p);
      SumUnobserved(rows[..|rows| - 1], p, m);
    }
  }

  // ---------- selecting ----------

  lemma {:induction false} SelectIs(s: Series, d: Key, key: seq<Key>)
    ensures HasKey(Select(s, d), key) <==> HasKey(s, [d] + key)
    ensures ValOf(Select(s, d), key) == ValOf(s, [d] + key)
    ensures Has(s, d) <==> Select(s, d) != []
  {
    if s != [] {
      SelectIs(s[1..], d, key);
      HasKeyStep(s, [d] + key);
      HasStep(s, d);
      if s[0].key != [] && s[0].key[0] == d {
        HasKeyStep(Select(s, d), key);
        assert Select(s, d)[1..] == Select(s[1..], d);
        assert s[0].key == [d] + s[0].key[1..];
        assert s[0].key[1..] == key <==> s[0].key == [d] + key by {
          assert ([d] + key)[1..] == key;
        }
      } else {
        assert s[0].key != [d] + key;
      }
    }
  }

  lemma HasStep(s: Series, d: Key)
    requires s != []
    ensures Has(s, d) <==> (s[0].key != [] && s[0].key[0] == d) || Has(s[1..], d)
  {
    if j :| 0 <= j < |s[1..]| && s[1..][j].key != [] && s[1..][j].key[0] == d {
      assert s[j + 1].key != [] && s[j + 1].key[0] == d;
    }
    if i :| 0 <= i < |s| && s[i].key != [] && s[i].key[0] == d {
      assert i == 0 || s[1..][i - 1] == s[i];
    }
  }

  lemma {:induction false} SelectSorted(s: Series, d: Key)
    requires SortedSeries(s)
    ensures SortedSeries(Select(s, d))
  {
    if s != [] {
      SortedStep(s);
      SelectSorted(s[1..], d);
      if s[0].key != [] && s[0].key[0] == d {
        var rest := s[0].key[1..];
        forall key | HasKey(Select(s[1..], d), key) ensures LexLess(rest, key) {
          SelectIs(s[1..], d, key);
          assert LexLess(s[0].key, [d] + key);
          assert ([d] + key)[1..] == key;
        }
        SortedCons(Item(rest, s[0].val), Select(s[1..], d));
      }
    }
  }

  /** Selecting a key leaves the groups below it. */
  lemma SelectGrouping(s: Series, rows: seq<Row>, len: nat, m: Column, above: seq<Key>, d: Key)
    requires HasVals(rows, m) && 0 < len && IsGrouping(s, rows, len, m, above)
    ensures IsGrouping(Select(s, d), rows, len - 1, m, above + [d])
  {
    SelectSorted(s, d);
    forall key ensures HasKey(Select(s, d), key) <==> |key| == len - 1 && Observed(rows, above + [d] + key)
               ensures HasKey(Select(s, d), key) ==> ValOf(Select(s, d), key) == SumRows(rows, above + [d] + key, m)
    {
      SelectIs(s, d, key);
      assert above + ([d] + key) == above + [d] + key;
    }
  }

  /** Descending from the groups below `above` reaches those below `above + dims`, and fails
      only where there are none. */
  lemma {:induction false} DescendIs(s: Series, rows: seq<Row>, len: nat, m: Column, above: seq<Key>, dims: seq<Key>)
    requires HasVals(rows, m) && |dims| < len && IsGrouping(s, rows, len, m, above)
    requires forall r :: 0 <= r < |rows| ==> |above| + len <= |rows[r].keys|
    ensures Descend(s, dims).Some? ==> IsGrouping(Descend(s, dims).value, rows, len - |dims|, m, above + dims)
    ensures Descend(s, dims).None? ==> !Observed(rows, above + dims)
    decreases |dims|
  {
    if dims == [] {
      assert above + dims == above;
    } else if Has(s, dims[0]) {
      var d, rest := dims[0], dims[1..];
      assert above + dims == (above + [d]) + rest;
      SelectGrouping(s, rows, len, m, above, d);
      DescendIs(Select(s, d), rows, len - 1, m, above + [d], rest);
    } else if Observed(rows, above + dims) {
      HasBelow(s, rows, len, m, above, dims);
    }
  }

  lemma HasBelow(s: Series, rows: seq<Row>, len: nat, m: Column, above: seq<Key>, dims: seq<Key>)
    requires HasVals(rows, m) && IsGrouping(s, rows, len, m, above) && 0 < |dims| < len
    requires forall r :: 0 <= r < |rows| ==> |above| + len <= |rows[r].keys|
    requires Observed(rows, above + dims)
    ensures Has(s, dims[0])
  {
    var r :| 0 <= r < |rows| && Matches(rows[r], above + dims);
    var key := rows[r].keys[|above|..|above| + len];
    assert above + key == rows[r].keys[..|above| + len];
    assert Matches(rows[r], above + key);
    assert HasKey(s, key);
    assert key[0] == (above + dims)[|above|] == dims[0];
  }

  // ---------- the tree ----------

  function NodeKey(node: Node): Key {
    match node.name
    case MetricName(_) => 0
    case KeyName(key) => key
    case PathName(path) => if path == [] then 0 else path[|path| - 1]
  }

  ghost predicate HasNode(nodes: seq<Node>, k: Key) {
    exists j :: 0 <= j < |nodes| && NodeKey(nodes[j]) == k
  }

  /** The nodes below `dims` are exactly the observed groups one key deeper, sorted, each
      with the sum of its rows and, below it, its own groups. */
  ghost predicate IsTree(rows: seq<Row>, n: nat, m: Column, dims: seq<Key>, nodes: seq<Node>)
    requires HasVals(rows, m)
    decreases n - |dims|
  {
    if |dims| >= n then nodes == []
    else
      && (forall i, j :: 0 <= i < j < |nodes| ==> NodeKey(nodes[i]) < NodeKey(nodes[j]))
      && (forall k :: HasNode(nodes, k) <==> Observed(rows, dims + [k]))
      && (forall j :: 0 <= j < |nodes| ==>
                      var k := NodeKey(nodes[j]);
                      && nodes[j].name == (if dims == [] then KeyName(k) else PathName(dims + [k]))
                      && nodes[j].val == SumRows(rows, dims + [k], m)
                      && IsTree(rows, n, m, dims + [k], nodes[j].children))
  }

  lemma GroupingItem(s: Series, rows: seq<Row>, m: Column, dims: seq<Key>, j: nat)
    requires HasVals(rows, m) && IsGrouping(s, rows, 1, m, dims) && j < |s|
    ensures s[j].key == [HeadKey(s[j])] && s[j].val == SumRows(rows, dims + [HeadKey(s[j])], m)
  {
    assert HasKey(s, s[j].key);
    ValOfHead(s, j);
  }

  /** Nodes that carry the keys and values of a series. */
  ghost predicate NodesOf(nodes: seq<Node>, s: Series, dims: seq<Key>) {
    && |nodes| == |s|
    && (forall j :: 0 <= j < |s| ==>
                    nodes[j].name == NodeName(|dims| + 1, dims, HeadKey(s[j])) && nodes[j].val == s[j].val)
  }

  /** A grouping one key deep, as nodes whose children are trees, is a tree. */
  lemma GroupingIsTree(s: Series, rows: seq<Row>, n: nat, m: Column, dims: seq<Key>, nodes: seq<Node>)
    requires HasVals(rows, m) && |dims| < n && IsGrouping(s, rows, 1, m, dims) && NodesOf(nodes, s, dims)
    requires forall j :: 0 <= j < |s| ==> IsTree(rows, n, m, dims + [HeadKey(s[j])], nodes[j].children)
    ensures IsTree(rows, n, m, dims, nodes)
  {
    forall j | 0 <= j < |s|
      ensures s[j].key == [NodeKey(nodes[j])] && nodes[j].val == SumRows(rows, dims + [NodeKey(nodes[j])], m)
    {
      GroupingItem(s, rows, m, dims, j);
    }
    forall i, j | 0 <= i < j < |nodes| ensures NodeKey(nodes[i]) < NodeKey(nodes[j]) {
      SingletonsLess(s[i].key, s[j].key);
    }
    forall k ensures HasNode(nodes, k) <==> Observed(rows, dims + [k]) {
      NodeOfKey(s, nodes, k);
    }
  }

  lemma SingletonsLess(a: seq<Key>, b: seq<Key>)
    requires |a| == 1 == |b| && LexLess(a, b)
    ensures a[0] < b[0]
  {
  }

  lemma NodeOfKey(s: Series, nodes: seq<Node>, k: Key)
    requires |nodes| == |s| && forall j :: 0 <= j < |s| ==> s[j].key == [NodeKey(nodes[j])]
    ensures HasKey(s, [k]) <==> HasNode(nodes, k)
  {
    if j :| 0 <= j < |s| && s[j].key == [k] {
      assert NodeKey(nodes[j]) == k;
    }
    if j :| 0 <= j < |nodes| && NodeKey(nodes[j]) == k {
      assert s[j].key == [k];
    }
  }

  lemma EmptyIsTree(rows: seq<Row>, n: nat, m: Column, dims: seq<Key>)
    requires HasVals(rows, m) && (|dims| >= n || !Observed(rows, dims))
    ensures IsTree(rows, n, m, dims, [])
  {
    forall k ensures !Observed(rows, dims + [k]) || |dims| >= n {
      if r :| 0 <= r < |rows| && Matches(rows[r], dims + [k]) {
        assert dims == (dims + [k])[..|dims|];
        assert Matches(rows[r], dims);
      }
    }
  }

  /** A column that is not grouped by is summed at every level. */
  lemma LevelsHold(levels: seq<Level>, f: Frame, m: Column)
    requires WellFormed(f) && AreLevels(levels, f) && m in f.numeric && m !in f.groups
    ensures HasVals(f.rows, m) && HasMetric(levels, m) && GroupedLevels(levels, f.rows, |f.groups|, m)
  {
    forall i | 0 <= i < |levels| ensures m in levels[i] && IsGrouping(levels[i][m], f.rows, i, m, []) {
      assert levels[i] == LevelOf(f, i);
      GroupSumIs(f.rows, i, m);
    }
  }

  /** Each level groups the rows by as many keys as its number says. */
  ghost predicate GroupedLevels(levels: seq<Level>, rows: seq<Row>, n: nat, m: Column)
    requires HasVals(rows, m) && HasMetric(levels, m)
  {
    && |levels| == n + 1
    && (forall r :: 0 <= r < |rows| ==> |rows[r].keys| == n)
    && (forall i :: 0 <= i < |levels| ==> IsGrouping(levels[i][m], rows, i, m, []))
  }

  /** The series that nesting turns into nodes. */
  lemma LevelBelow(levels: seq<Level>, rows: seq<Row>, n: nat, m: Column, dims: seq<Key>)
    requires HasVals(rows, m) && HasMetric(levels, m) && GroupedLevels(levels, rows, n, m) && |dims| < n
    ensures match Descend(levels[|dims| + 1][m], dims)
            case None => !Observed(rows, dims)
            case Some(s) => IsGrouping(s, rows, 1, m, dims)
  {
    DescendIs(levels[|dims| + 1][m], rows, |dims| + 1, m, [], dims);
    assert [] + dims == dims;
  }

  /** Nesting the precomputed levels gives the tree of the observed groups. */
  lemma {:induction false} NestIsTree(levels: seq<Level>, rows: seq<Row>, n: nat, m: Column, dims: seq<Key>)
    requires HasVals(rows, m) && HasMetric(levels, m) && GroupedLevels(levels, rows, n, m) && n > 0 && |dims| <= n
    ensures var nodes := NestValues(levels, |dims| + 1, m, dims);
            nodes.Some? && IsTree(rows, n, m, dims, nodes.value)
    decreases n - |dims|
  {
    if |dims| == n {
      EmptyIsTree(rows, n, m, dims);
    } else {
      forall k ensures IsSubtree(levels, rows, n, m, dims, k) {
        NestIsTree(levels, rows, n, m, dims + [k]);
      }
      NestStep(levels, rows, n, m, dims);
    }
  }

  ghost predicate IsSubtree(levels: seq<Level>, rows: seq<Row>, n: nat, m: Column, dims: seq<Key>, k: Key)
    requires HasVals(rows, m)
  {
    var below := NestValues(levels, |dims| + 2, m, dims + [k]);
    below.Some? && IsTree(rows, n, m, dims + [k], below.value)
  }

  /** One level on top of the trees below it. */
  lemma NestStep(levels: seq<Level>, rows: seq<Row>, n: nat, m: Column, dims: seq<Key>)
    requires HasVals(rows, m) && HasMetric(levels, m) && GroupedLevels(levels, rows, n, m) && |dims| < n
    requires forall k :: IsSubtree(levels, rows, n, m, dims, k)
    ensures var nodes := NestValues(levels, |dims| + 1, m, dims);
            nodes.Some? && IsTree(rows, n, m, dims, nodes.value)
  {
    LevelBelow(levels, rows, n, m, dims);
    match Descend(levels[|dims| + 1][m], dims) {
      case None =>
        EmptyIsTree(rows, n, m, dims);
      case Some(s) =>
        assert forall j :: 0 <= j < |s| ==> IsSubtree(levels, rows, n, m, dims, HeadKey(s[j]));
        NestItemsAre(levels, |dims| + 1, m, dims, s);
        GroupingIsTree(s, rows, n, m, dims, NestItems(levels, |dims| + 1, m, dims, s).value);
    }
  }

  lemma {:induction false} NestItemsAre(levels: seq<Level>, level: nat, m: Column, dims: seq<Key>, s: Series)
    requires 0 < level < |levels|
    requires forall j :: 0 <= j < |s| ==> NestValues(levels, level + 1, m, dims + [HeadKey(s[j])]).Some?
    ensures var nodes := NestItems(levels, level, m, dims, s);
            && nodes.Some? && |nodes.value| == |s|
            && (forall j :: 0 <= j < |s| ==>
                            nodes.value[j] == Node(NodeName(level, dims, HeadKey(s[j])), s[j].val,
                                                   NestValues(levels, level + 1, m, dims + [HeadKey(s[j])]).value))
  {
    if s != [] {
      NestItemsAre(levels, level, m, dims, s[..|s| - 1]);
    }
  }

  // ---------- numeric group columns ----------

  lemma {:induction false} NestItemsFail(levels: seq<Level>, level: nat, m: Column, dims: seq<Key>, s: Series, j: nat)
    requires 0 < level < |levels| && j < |s|
    requires NestValues(levels, level + 1, m, dims + [HeadKey(s[j])]).None?
    ensures NestItems(levels, level, m, dims, s).None?
  {
    if j < |s| - 1 {
      NestItemsFail(levels, level, m, dims, s[..|s| - 1], j);
    }
  }

  /** An observed group that has deeper keys has an observed group one key deeper. */
  lemma ChildOf(s: Series, rows: seq<Row>, m: Column, dims: seq<Key>) returns (j: nat)
    requires HasVals(rows, m) && IsGrouping(s, rows, 1, m, dims) && Observed(rows, dims)
    requires forall r :: 0 <= r < |rows| ==> |dims| < |rows[r].keys|
    ensures j < |s| && Observed(rows, dims + [HeadKey(s[j])])
  {
    var r :| 0 <= r < |rows| && Matches(rows[r], dims);
    var key := rows[r].keys[|dims|];
    assert dims + [key] == rows[r].keys[..|dims| + 1];
    assert Matches(rows[r], dims + [key]);
    assert HasKey(s, [key]);
    j :| 0 <= j < |s| && s[j].key == [key];
  }

  lemma LevelReaches(levels: seq<Level>, f: Frame, m: Column, dims: seq<Key>) returns (s: Series, j: nat)
    requires WellFormed(f) && AreLevels(levels, f) && m in f.numeric && Observed(f.rows, dims)
    requires |dims| < |f.groups| && m !in f.groups[..|dims| + 1]
    ensures m in levels[|dims| + 1] && Descend(levels[|dims| + 1][m], dims) == Some(s)
    ensures j < |s| && Observed(f.rows, dims + [HeadKey(s[j])])
  {
    var level := |dims| + 1;
    assert levels[level] == LevelOf(f, level);
    GroupSumIs(f.rows, level, m);
    DescendIs(levels[level][m], f.rows, level, m, [], dims);
    assert [] + dims == dims;
    s := Descend(levels[level][m], dims).value;
    j := ChildOf(s, f.rows, m, dims);
  }

  lemma ShorterLacks(groups: seq<Column>, m: Column, i: nat, k: nat)
    requires i <= k <= |groups| && m !in groups[..k]
    ensures m !in groups[..i]
  {
    assert forall j :: 0 <= j < i ==> groups[..i][j] == groups[..k][j];
  }

  /** A column that level `k` is the first to lack makes nesting fail, from every group that
      has rows. */
  lemma {:induction false} LookupFails(levels: seq<Level>, f: Frame, m: Column, dims: seq<Key>, k: nat)
    requires WellFormed(f) && AreLevels(levels, f) && m in f.numeric && Observed(f.rows, dims)
    requires |dims| < k <= |f.groups| && m in f.groups[..k] && m !in f.groups[..k - 1]
    ensures NestValues(levels, |dims| + 1, m, dims).None?
    decreases k - |dims|
  {
    var level := |dims| + 1;
    if level < k {
      ShorterLacks(f.groups, m, level, k - 1);
      var s, j := LevelReaches(levels, f, m, dims);
      LookupFails(levels, f, m, dims + [HeadKey(s[j])], k);
      NestItemsFail(levels, level, m, dims, s, j);
    } else {
      assert levels[level] == LevelOf(f, level);
    }
  }

  /** A group column has a first position among the groups. */
  lemma FirstGroup(f: Frame, j: nat) returns (k: nat)
    requires j < |f.groups|
    ensures k <= j && f.groups[k] == f.groups[j] && f.groups[j] !in f.groups[..k]
  {
    k := 0;
    while f.groups[k] != f.groups[j]
      invariant k <= j && f.groups[j] !in f.groups[..k]
      decreases j - k
    {
      k := k + 1;
    }
  }

  ghost predicate HasNumericGroup(f: Frame) {
    exists j :: 0 <= j < |f.groups| && f.groups[j] in f.numeric
  }

  lemma NumericGroupFails(levels: seq<Level>, f: Frame)
    requires WellFormed(f) && AreLevels(levels, f) && f.rows != [] && HasNumericGroup(f)
    ensures NestColumns(levels, f.numeric).None?
  {
    var j :| 0 <= j < |f.groups| && f.groups[j] in f.numeric;
    var k := FirstGroup(f, j);
    var m := f.groups[j];
    assert f.groups[..k + 1][k] == m && f.groups[..k + 1][..k] == f.groups[..k];
    assert Matches(f.rows[0], []);
    LookupFails(levels, f, m, [], k + 1);
    var i :| 0 <= i < |f.numeric| && f.numeric[i] == m;
    NestColumnsFail(levels, f.numeric, i);
  }

  lemma {:induction false} NestColumnsFail(levels: seq<Level>, columns: seq<Column>, i: nat)
    requires levels != [] && forall j :: 0 <= j < |columns| ==> columns[j] in levels[0]
    requires i < |columns| && NestValues(levels, 1, columns[i], []).None?
    ensures NestColumns(levels, columns).None?
  {
    if i < |columns| - 1 {
      NestColumnsFail(levels, columns[..|columns| - 1], i);
    }
  }

  // ---------- sums and paths ----------

  function SumVals(nodes: seq<Node>): int {
    if nodes == [] then 0 else SumVals(nodes[..|nodes| - 1]) + nodes[|nodes| - 1].val
  }

  /** The rows under `dims` fall into the groups one key deeper, each into exactly one. */
  lemma {:induction false} SumSplits(rows: seq<Row>, dims: seq<Key>, m: Column, ks: seq<Key>)
    requires HasVals(rows, m)
    requires forall i, j :: 0 <= i < j < |ks| ==> ks[i] != ks[j]
    requires forall r :: 0 <= r < |rows| && Matches(rows[r], dims) ==>
                         |dims| < |rows[r].keys| && rows[r].keys[|dims|] in ks
    ensures SumRows(rows, dims, m) == SumOver(rows, dims, m, ks)
  {
    if rows == [] {
      SumOverEmpty(rows, dims, m, ks);
    } else {
      var init, last := rows[..|rows| - 1], rows[|rows| - 1];
      SumSplits(init, dims, m, ks);
      SumOverStep(rows, dims, m, ks);
    }
  }

  function SumOver(rows: seq<Row>, dims: seq<Key>, m: Column, ks: seq<Key>): int
    requires HasVals(rows, m)
  {
    if ks == [] then 0 else SumOver(rows, dims, m, ks[..|ks| - 1]) + SumRows(rows, dims + [ks[|ks| - 1]], m)
  }

  lemma {:induction false} SumOverEmpty(rows: seq<Row>, dims: seq<Key>, m: Column, ks: seq<Key>)
    requires rows == []
    ensures SumOver(rows, dims, m, ks) == 0
  {
    if ks != [] {
      SumOverEmpty(rows, dims, m, ks[..|ks| - 1]);
    }
  }

  /** One more row adds its value once if its key is among `ks`. */
  lemma {:induction false} SumOverStep(rows: seq<Row>, dims: seq<Key>, m: Column, ks: seq<Key>)
    requires HasVals(rows, m) && rows != []
    requires forall i, j :: 0 <= i < j < |ks| ==> ks[i] != ks[j]
    ensures var last := rows[|rows| - 1];
            SumOver(rows, dims, m, ks) ==
            SumOver(rows[..|rows| - 1], dims, m, ks) +
            if Matches(last, dims) && |dims| < |last.keys| && last.keys[|dims|] in ks then last.vals[m] else 0
  {
    if ks != [] {
      var last, k := rows[|rows| - 1], ks[|ks| - 1];
      var fewer := ks[..|ks| - 1];
      SumOverStep(rows, dims, m, fewer);
      assert k !in fewer;
      assert ks == fewer + [k];
      assert Matches(last, dims + [k]) <==> Matches(last, dims) && |dims| < |last.keys| && last.keys[|dims|] == k by {
        if Matches(last, dims + [k]) {
          assert (dims + [k])[..|dims|] == dims && (dims + [k])[|dims|] == k;
        }
      }
    }
  }

  function NodeKeys(nodes: seq<Node>): seq<Key> {
    seq(|nodes|, j requires 0 <= j < |nodes| => NodeKey(nodes[j]))
  }

  lemma {:induction false} SumValsIsSumOver(rows: seq<Row>, dims: seq<Key>, m: Column, nodes: seq<Node>)
    requires HasVals(rows, m)
    requires forall j :: 0 <= j < |nodes| ==> nodes[j].val == SumRows(rows, dims + [NodeKey(nodes[j])], m)
    ensures SumVals(nodes) == SumOver(rows, dims, m, NodeKeys(nodes))
  {
    if nodes != [] {
      var fewer := nodes[..|nodes| - 1];
      SumValsIsSumOver(rows, dims, m, fewer);
      assert NodeKeys(nodes)[..|nodes| - 1] == NodeKeys(fewer);
    }
  }

  /** A node's value is both the sum of its rows and the sum of its children. */
  lemma ChildrenSumUp(rows: seq<Row>, n: nat, m: Column, dims: seq<Key>, nodes: seq<Node>)
    requires HasVals(rows, m) && |dims| < n && IsTree(rows, n, m, dims, nodes)
    requires forall r :: 0 <= r < |rows| ==> |rows[r].keys| == n
    ensures SumVals(nodes) == SumRows(rows, dims, m)
  {
    forall r | 0 <= r < |rows| && Matches(rows[r], dims)
      ensures |dims| < |rows[r].keys| && rows[r].keys[|dims|] in NodeKeys(nodes)
    {
      RowHasNode(rows, n, m, dims, nodes, r);
    }
    SumSplits(rows, dims, m, NodeKeys(nodes));
    SumValsIsSumOver(rows, dims, m, nodes);
  }

  lemma RowHasNode(rows: seq<Row>, n: nat, m: Column, dims: seq<Key>, nodes: seq<Node>, r: nat)
    requires HasVals(rows, m) && |dims| < n && IsTree(rows, n, m, dims, nodes)
    requires r < |rows| && |rows[r].keys| == n && Matches(rows[r], dims)
    ensures rows[r].keys[|dims|] in NodeKeys(nodes)
  {
    var k := rows[r].keys[|dims|];
    assert dims + [k] == rows[r].keys[..|dims| + 1];
    assert Matches(rows[r], dims + [k]);
    assert HasNode(nodes, k);
    var j :| 0 <= j < |nodes| && NodeKey(nodes[j]) == k;
    assert NodeKeys(nodes)[j] == k;
  }

  /** The paths of a forest below `dims`. */
  ghost predicate HasPath(nodes: seq<Node>, dims: seq<Key>, p: seq<Key>)
    decreases |p|
  {
    p != [] && exists j :: 0 <= j < |nodes| && NodeKey(nodes[j]) == p[0] &&
                           (|p| == 1 || HasPath(nodes[j].children, dims + [p[0]], p[1..]))
  }

  /** The paths of the tree are exactly the observed prefixes of groups. */
  lemma {:induction false} PathsAreObserved(rows: seq<Row>, n: nat, m: Column, dims: seq<Key>, nodes: seq<Node>,
                                            p: seq<Key>)
    requires HasVals(rows, m) && |dims| <= n && IsTree(rows, n, m, dims, nodes)
    requires forall r :: 0 <= r < |rows| ==> |rows[r].keys| == n
    ensures HasPath(nodes, dims, p) <==> p != [] && Observed(rows, dims + p)
    decreases |p|
  {
    if p != [] {
      var k, rest := p[0], p[1..];
      if |dims| < n {
        if HasPath(nodes, dims, p) {
          var j :| 0 <= j < |nodes| && NodeKey(nodes[j]) == k &&
                   (|p| == 1 || HasPath(nodes[j].children, dims + [k], rest));
          PathStep(rows, n, m, dims, nodes, p, j);
        }
        if Observed(rows, dims + p) {
          ObservedShorter(rows, dims, p);
          assert HasNode(nodes, k);
          var j :| 0 <= j < |nodes| && NodeKey(nodes[j]) == k;
          PathStep(rows, n, m, dims, nodes, p, j);
        }
      } else {
        assert forall r :: 0 <= r < |rows| ==> |rows[r].keys| < |dims + p|;
      }
    }
  }

  lemma ObservedShorter(rows: seq<Row>, dims: seq<Key>, p: seq<Key>)
    requires p != [] && Observed(rows, dims + p)
    ensures Observed(rows, dims + [p[0]])
  {
    var r :| 0 <= r < |rows| && Matches(rows[r], dims + p);
    assert dims + [p[0]] == (dims + p)[..|dims| + 1];
    assert Matches(rows[r], dims + [p[0]]);
  }

  lemma PathStep(rows: seq<Row>, n: nat, m: Column, dims: seq<Key>, nodes: seq<Node>, p: seq<Key>, j: nat)
    requires HasVals(rows, m) && |dims| < n && IsTree(rows, n, m, dims, nodes) && p != [] && j < |nodes|
    requires forall r :: 0 <= r < |rows| ==> |rows[r].keys| == n
    requires NodeKey(nodes[j]) == p[0]
    ensures |p| == 1 || HasPath(nodes[j].children, dims + [p[0]], p[1..]) <==> Observed(rows, dims + p)
    decreases |p|, 0
  {
    var k, rest := p[0], p[1..];
    assert dims + p == (dims + [k]) + rest;
    if |p| == 1 {
      assert p == [k];
      assert HasNode(nodes, k);
    } else {
      PathsAreObserved(rows, n, m, dims + [k], nodes[j].children, rest);
    }
  }

  /** The node of one column: its root holds the overall sum, its paths are exactly the
      observed group prefixes, and every node holds the sum of its rows. */
  ghost predicate IsColumnNode(f: Frame, m: Column, node: Node)
    requires HasVals(f.rows, m)
  {
    && node.name == MetricName(m)
    && node.val == SumRows(f.rows, [], m) == SumVals(node.children)
    && IsTree(f.rows, |f.groups|, m, [], node.children)
    && (forall p :: HasPath(node.children, [], p) <==> p != [] && Observed(f.rows, p))
  }

  ghost predicate IsPartition(f: Frame, nodes: seq<Node>)
    requires WellFormed(f)
  {
    && |nodes| == |f.numeric|
    && (forall i :: 0 <= i < |nodes| ==> HasVals(f.rows, f.numeric[i]) && IsColumnNode(f, f.numeric[i], nodes[i]))
  }

  lemma ColumnNode(levels: seq<Level>, f: Frame, m: Column)
    requires WellFormed(f) && AreLevels(levels, f) && f.rows != [] && f.groups != []
    requires m in f.numeric && m !in f.groups
    ensures HasVals(f.rows, m) && m in levels[0]
    ensures NestValues(levels, 1, m, []).Some? && IsColumnNode(f, m, ColumnNodeOf(levels, m))
  {
    var n := |f.groups|;
    LevelsHold(levels, f, m);
    NestIsTree(levels, f.rows, n, m, []);
    var children := NestValues(levels, 1, m, []).value;
    ChildrenSumUp(f.rows, n, m, [], children);
    forall p ensures HasPath(children, [], p) <==> p != [] && Observed(f.rows, p) {
      PathsAreObserved(f.rows, n, m, [], children, p);
      assert [] + p == p;
    }
    OverallSum(levels, f.rows, n, m);
  }

  lemma {:induction false} NestColumnsAre(levels: seq<Level>, columns: seq<Column>)
    requires levels != []
    requires forall j :: 0 <= j < |columns| ==> columns[j] in levels[0] && NestValues(levels, 1, columns[j], []).Some?
    ensures var nodes := NestColumns(levels, columns);
            && nodes.Some? && |nodes.value| == |columns|
            && (forall j :: 0 <= j < |columns| ==> nodes.value[j] == ColumnNodeOf(levels, columns[j]))
  {
    if columns != [] {
      NestColumnsAre(levels, columns[..|columns| - 1]);
    }
  }

  function ColumnNodeOf(levels: seq<Level>, m: Column): Node
    requires levels != [] && m in levels[0] && NestValues(levels, 1, m, []).Some?
  {
    Node(MetricName(m), Overall(levels[0][m]), NestValues(levels, 1, m, []).value)
  }

  lemma ColumnNodes(levels: seq<Level>, f: Frame)
    requires WellFormed(f) && AreLevels(levels, f) && f.rows != [] && f.groups != [] && !HasNumericGroup(f)
    ensures forall j :: 0 <= j < |f.numeric| ==> f.numeric[j] in levels[0]
    ensures NestColumns(levels, f.numeric).Some? && IsPartition(f, NestColumns(levels, f.numeric).value)
  {
    forall j | 0 <= j < |f.numeric|
      ensures HasVals(f.rows, f.numeric[j]) && f.numeric[j] in levels[0]
      ensures NestValues(levels, 1, f.numeric[j], []).Some?
      ensures IsColumnNode(f, f.numeric[j], ColumnNodeOf(levels, f.numeric[j]))
    {
      assert f.numeric[j] in f.numeric;
      ColumnNode(levels, f, f.numeric[j]);
    }
    NestColumnsAre(levels, f.numeric);
  }

  /** Nesting the levels of a frame with rows and groups raises if and only if some group
      column is numeric: level 0 lists that column, and a deeper level no longer has it.
      Otherwise there is one node per numeric column, as described. */
  lemma NestedLevels(levels: seq<Level>, f: Frame)
    requires WellFormed(f) && AreLevels(levels, f) && f.rows != [] && f.groups != []
    ensures forall j :: 0 <= j < |f.numeric| ==> f.numeric[j] in levels[0]
    ensures NestColumns(levels, f.numeric).None? <==> HasNumericGroup(f)
    ensures NestColumns(levels, f.numeric).Some? ==> IsPartition(f, NestColumns(levels, f.numeric).value)
  {
    assert levels[0] == LevelOf(f, 0);
    if HasNumericGroup(f) {
      NumericGroupFails(levels, f);
    } else {
      ColumnNodes(levels, f);
    }
  }

  /** Sales of one year, grouped by the year. */
  const BY_YEAR := Frame([Row([2020], map["year" := 2020, "sales" := 3])], ["year"], ["year", "sales"])

  /** No tree is built for them. */
  lemma GroupedByYear() returns (levels: seq<Level>)
    ensures WellFormed(BY_YEAR) && AreLevels(levels, BY_YEAR)
    ensures "sales" in levels[1] && levels[1]["sales"] == [Item([2020], 3)]
    ensures levels[0].Keys == {"year", "sales"} && NestColumns(levels, ["year", "sales"]).None?
  {
    levels := [LevelOf(BY_YEAR, 0), LevelOf(BY_YEAR, 1)];
    assert BY_YEAR.groups[0] in BY_YEAR.numeric;
    NestedLevels(levels, BY_YEAR);
    assert BY_YEAR.rows[..0] == [];
    assert BY_YEAR.rows[0].keys[..1] == [2020];
  }

  /** How `get_data` ends: no data, no group column, a lookup that raises, or the trees. */
  datatype Outcome = NoData | NoGroups | MissingColumn | Nested(nodes: seq<Node>)

  /** `get_data` for the summing options. */
  method GetData(f: Frame) returns (r: Outcome)
    requires WellFormed(f)
    ensures r.NoData? <==> f.rows == []
    ensures r.NoGroups? <==> f.rows != [] && f.groups == []
    ensures r.MissingColumn? <==> f.rows != [] && f.groups != [] && HasNumericGroup(f)
    ensures r.Nested? ==> IsPartition(f, r.nodes)
  {
    if f.rows == [] {
      return NoData;
    }
    if f.groups == [] {
      return NoGroups;
    }
    var levels := LevelsFor(f);
    NestedLevels(levels, f);
    var nodes := NestColumns(levels, f.numeric);
    r := if nodes.None? then MissingColumn else Nested(nodes.value);
  }

  lemma OverallSum(levels: seq<Level>, rows: seq<Row>, n: nat, m: Column)
    requires HasVals(rows, m) && HasMetric(levels, m) && GroupedLevels(levels, rows, n, m) && rows != []
    ensures levels[0][m] != [] && levels[0][m][0].val == SumRows(rows, [], m)
  {
    var s := levels[0][m];
    assert Matches(rows[0], [] + []);
    assert Observed(rows, [] + []);
    assert HasKey(s, []);
    assert HasKey(s, s[0].key);
    ValOfHead(s, 0);
  }
}
