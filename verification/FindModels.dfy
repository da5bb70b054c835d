/** Finding the models a migration touches: collecting table names from the script's
    objects, closing them under foreign keys, and ordering them by dependency. */
module FindModels {
  import opened Wrappers

  type Table = string

  /** A value found in the migration module. Lists and dictionaries are searched. */
  datatype PyObject = Model(table: Table) | PyList(items: seq<PyObject>) | PyDict(values: seq<PyObject>) | Other

  /** The reflected schema: the foreign-key targets of every mapped table, column by
      column. A table missing here has no model. */
  type Schema = map<Table, seq<Table>>

  // ---------- collecting names ----------

  function Names(o: PyObject): set<Table> {
    match o
    case Model(table) => {table}
    case PyList(items) => NamesOf(items)
    case PyDict(values) => NamesOf(values)
    case Other => {}
  }

  function NamesOf(s: seq<PyObject>): set<Table> {
    if s == [] then {} else NamesOf(s[..|s| - 1]) + Names(s[|s| - 1])
  }

  function Size(o: PyObject): (n: nat)
    ensures n > 0
  {
    match o
    case PyList(items) => 1 + SizeOf(items)
    case PyDict(values) => 1 + SizeOf(values)
    case _ => 1
  }

  function SizeOf(s: seq<PyObject>): nat {
    if s == [] then 0 else SizeOf(s[..|s| - 1]) + Size(s[|s| - 1])
  }

  lemma {:induction false} NamesAppend(a: seq<PyObject>, b: seq<PyObject>)
    ensures NamesOf(a + b) == NamesOf(a) + NamesOf(b)
    ensures SizeOf(a + b) == SizeOf(a) + SizeOf(b)
    decreases |b|
  {
    if b == [] {
      assert a + b == a;
    } else {
      assert (a + b)[..|a + b| - 1] == a + b[..|b| - 1];
      NamesAppend(a, b[..|b| - 1]);
    }
  }

  /** Following `path` into the lists and dictionaries leads to a model of that table. */
  ghost predicate LeadsTo(o: PyObject, path: seq<nat>, table: Table)
    decreases path
  {
    if path == [] then o == Model(table)
    else
      match o
      case PyList(items) => path[0] < |items| && LeadsTo(items[path[0]], path[1..], table)
      case PyDict(values) => path[0] < |values| && LeadsTo(values[path[0]], path[1..], table)
      case _ => false
  }

  ghost predicate IsNested(s: seq<PyObject>, table: Table) {
    exists i: nat :: i < |s| && Holds(s[i], table)
  }

  ghost predicate Holds(o: PyObject, table: Table) {
    exists path :: LeadsTo(o, path, table)
  }

  /** The names are exactly those nested anywhere in the lists and dictionaries. */
  lemma {:induction false} NamesIff(o: PyObject, table: Table)
    ensures table in Names(o) <==> Holds(o, table)
    decreases o, 0
  {
    if o.Model? {
      assert LeadsTo(o, [], o.table);
    } else if o.PyList? || o.PyDict? {
      var s := if o.PyList? then o.items else o.values;
      NamesOfIff(s, table);
      assert Names(o) == NamesOf(s);
      if i: nat :| i < |s| && Holds(s[i], table) {
        var path :| LeadsTo(s[i], path, table);
        assert ([i] + path)[1..] == path;
        assert LeadsTo(o, [i] + path, table);
      }
      if Holds(o, table) {
        var path :| LeadsTo(o, path, table);
        assert LeadsTo(s[path[0]], path[1..], table);
        assert Holds(s[path[0]], table);
      }
    }
  }

  lemma {:induction false} NamesOfIff(s: seq<PyObject>, table: Table)
    ensures table in NamesOf(s) <==> IsNested(s, table)
    decreases s, 1
  {
    if s != [] {
      var front, last := s[..|s| - 1], |s| - 1;
      NamesOfIff(front, table);
      NamesIff(s[last], table);
      if i: nat :| i < |front| && Holds(front[i], table) {
        assert Holds(s[i], table);
      }
      if i: nat :| i < |s| && Holds(s[i], table) {
        assert i == last || Holds(front[i], table);
      }
    }
  }

  /** Emptying a work list that grows by the contents of the containers it pops. */
  method CollectNames(objects: seq<PyObject>, modified: set<Table>) returns (tables: set<Table>)
    ensures tables == modified + NamesOf(objects)
    ensures forall t :: t in tables <==> t in modified || IsNested(objects, t)
  {
    forall t ensures t in NamesOf(objects) <==> IsNested(objects, t) {
      NamesOfIff(objects, t);
    }
    tables := modified;
    var queue := objects;
    while queue != []
      invariant tables + NamesOf(queue) == modified + NamesOf(objects)
      decreases SizeOf(queue)
    {
      var obj := queue[|queue| - 1];
      assert SizeOf(queue) == SizeOf(queue[..|queue| - 1]) + Size(obj);
      queue := queue[..|queue| - 1];
      match obj {
        case Model(table) => tables := tables + {table};
        case PyList(items) =>
          NamesAppend(queue, items);
          queue := queue + items;
        case PyDict(values) =>
          NamesAppend(queue, values);
          queue := queue + values;
        case Other =>
      }
    }
  }

  // ---------- closure under foreign keys ----------

  /** A chain of foreign keys through mapped tables. */
  ghost predicate IsPath(schema: Schema, path: seq<Table>) {
    path != [] && forall i :: 0 <= i < |path| - 1 ==> path[i] in schema && path[i + 1] in schema[path[i]]
  }

  ghost predicate Reaches(schema: Schema, start: set<Table>, path: seq<Table>, t: Table) {
    IsPath(schema, path) && path[0] in start && path[|path| - 1] == t
  }

  ghost predicate Reachable(schema: Schema, start: set<Table>, t: Table) {
    exists path :: Reaches(schema, start, path, t)
  }

  ghost predicate Closed(schema: Schema, s: set<Table>) {
    forall t, u :: t in s && t in schema && u in schema[t] ==> u in s
  }

  /** Everything reachable lies in every closed set that holds the start. */
  lemma {:induction false} ReachableInClosed(schema: Schema, start: set<Table>, s: set<Table>, path: seq<Table>,
                                             t: Table)
    requires start <= s && Closed(schema, s) && Reaches(schema, start, path, t)
    ensures t in s
    decreases |path|
  {
    if |path| > 1 {
      var rest := path[..|path| - 1];
      ReachableInClosed(schema, start, s, rest, rest[|rest| - 1]);
      assert path[|path| - 2] == rest[|rest| - 1] && path[|path| - 1] in schema[path[|path| - 2]];
    }
  }

  lemma ReachableStep(schema: Schema, start: set<Table>, t: Table, u: Table)
    requires Reachable(schema, start, t) && t in schema && u in schema[t]
    ensures Reachable(schema, start, u)
  {
    var path :| Reaches(schema, start, path, t);
    assert Reaches(schema, start, path + [u], u);
  }

  lemma ReachableStart(schema: Schema, start: set<Table>, t: Table)
    requires t in start
    ensures Reachable(schema, start, t)
  {
    assert Reaches(schema, start, [t], t);
  }

  predicate Distinct<T(==)>(s: seq<T>) {
    forall i, j :: 0 <= i < j < |s| ==> s[i] != s[j]
  }

  function Elements<T>(s: seq<T>): set<T> {
    set x | x in s
  }

  lemma ElementsAppend<T>(a: seq<T>, b: seq<T>)
    ensures Elements(a + b) == Elements(a) + Elements(b)
  {
  }

  lemma DistinctAppend<T>(a: seq<T>, b: seq<T>)
    requires Distinct(a) && Distinct(b) && Elements(a) !! Elements(b)
    ensures Distinct(a + b)
  {
    assert forall i :: 0 <= i < |a| ==> a[i] in Elements(a);
    assert forall i :: 0 <= i < |b| ==> b[i] in Elements(b);
  }

  /** All tables that occur as a start or as a foreign-key target. */
  ghost function Universe(schema: Schema, start: set<Table>): set<Table> {
    start + set t, u | t in schema && u in schema[t] :: u
  }

  /** The targets of a table that have not been visited, added to the tables to visit. */
  method AddTargets(targets: seq<Table>, seen: set<Table>, tables: set<Table>) returns (r: set<Table>)
    ensures r == tables + (Elements(targets) - seen)
  {
    r := tables;
    for i := 0 to |targets|
      invariant r == tables + (Elements(targets[..i]) - seen)
    {
      assert targets[..i + 1] == targets[..i] + [targets[i]];
      if targets[i] !in seen {
        r := r + {targets[i]};
      }
    }
    assert targets[..|targets|] == targets;
  }

  /** The work list in between: `seen` has been visited and `tables` is left to visit. */
  ghost predicate Progress(schema: Schema, start: set<Table>, tables: set<Table>, seen: set<Table>) {
    && tables !! seen && start <= seen + tables && seen + tables <= Universe(schema, start)
    && (forall t, u :: t in seen && t in schema && u in schema[t] ==> u in seen + tables)
    && (forall t :: t in seen + tables ==> Reachable(schema, start, t))
  }

  lemma ProgressStarts(schema: Schema, start: set<Table>)
    ensures Progress(schema, start, start, {})
  {
    forall t | t in start ensures Reachable(schema, start, t) {
      ReachableStart(schema, start, t);
    }
  }

  /** The targets of a visited table. */
  function Targets(schema: Schema, table: Table): set<Table> {
    if table in schema then Elements(schema[table]) else {}
  }

  lemma TargetsAreReachable(schema: Schema, start: set<Table>, table: Table, u: Table)
    requires Reachable(schema, start, table) && u in Targets(schema, table)
    ensures Reachable(schema, start, u) && u in Universe(schema, start)
  {
    ReachableStep(schema, start, table, u);
  }

  lemma ProgressStep(schema: Schema, start: set<Table>, tables: set<Table>, seen: set<Table>, table: Table)
    requires Progress(schema, start, tables, seen) && table in tables
    ensures Progress(schema, start, tables - {table} + (Targets(schema, table) - (seen + {table})), seen + {table})
    ensures table in Universe(schema, start) - seen
  {
    var targets := Targets(schema, table);
    var tables', seen' := tables - {table} + (targets - (seen + {table})), seen + {table};
    assert seen' + tables' == seen + tables + targets;
    forall u | u in targets ensures Reachable(schema, start, u) && u in Universe(schema, start) {
      TargetsAreReachable(schema, start, table, u);
    }
    forall t, u | t in seen' && t in schema && u in schema[t] ensures u in seen' + tables' {
      if t == table {
        assert u in targets;
      }
    }
  }

  lemma ProgressEnds(schema: Schema, start: set<Table>, seen: set<Table>, t: Table)
    requires Progress(schema, start, {}, seen)
    ensures t in seen <==> Reachable(schema, start, t)
  {
    if Reachable(schema, start, t) {
      var path :| Reaches(schema, start, path, t);
      ReachableInClosed(schema, start, seen, path, t);
    }
  }

  /** The visited tables and the models found among them, each once. */
  ghost predicate Found(schema: Schema, seen: set<Table>, visits: seq<Table>, models: seq<Table>) {
    && Distinct(visits) && Elements(visits) == seen
    && Distinct(models) && Elements(models) == seen * schema.Keys
  }

  /** The work list of tables: every table is visited at most once, and the models found are
      exactly the mapped tables reachable through mapped tables. */
  method FindReachable(schema: Schema, start: set<Table>) returns (models: seq<Table>, ghost visits: seq<Table>)
    ensures Distinct(visits) && Distinct(models)
    ensures forall t :: t in visits <==> Reachable(schema, start, t)
    ensures forall t :: t in models <==> t in schema && Reachable(schema, start, t)
  {
    models, visits := [], [];
    var tables, seen := start, {};
    ProgressStarts(schema, start);
    while tables != {}
      invariant Progress(schema, start, tables, seen)
      invariant Found(schema, seen, visits, models)
      decreases Universe(schema, start) - seen
    {
      var table :| table in tables;
      ProgressStep(schema, start, tables, seen, table);
      VisitStep(schema, visits, models, seen, table);
      models, tables := Visit(schema, models, tables - {table}, seen + {table}, table);
      seen := seen + {table};
      visits := visits + [table];
    }
    VisitsEnd(schema, start, visits, models, seen);
  }

  /** One visit: a mapped table becomes a model, and its targets are to be visited. */
  method Visit(schema: Schema, models: seq<Table>, tables: set<Table>, seen: set<Table>, table: Table)
    returns (models': seq<Table>, tables': set<Table>)
    ensures models' == models + if table in schema then [table] else []
    ensures tables' == tables + (Targets(schema, table) - seen)
  {
    models', tables' := models, tables;
    if table in schema {
      models' := models + [table];
      tables' := AddTargets(schema[table], seen, tables);
    }
  }

  lemma VisitStep(schema: Schema, visits: seq<Table>, models: seq<Table>, seen: set<Table>, table: Table)
    requires Found(schema, seen, visits, models) && table !in seen
    ensures Found(schema, seen + {table}, visits + [table], models + if table in schema then [table] else [])
  {
    var found := if table in schema then [table] else [];
    ElementsAppend(visits, [table]);
    ElementsAppend(models, found);
    DistinctAppend(visits, [table]);
    DistinctAppend(models, found);
    assert Elements(found) == {table} * schema.Keys;
  }

  lemma VisitsEnd(schema: Schema, start: set<Table>, visits: seq<Table>, models: seq<Table>, seen: set<Table>)
    requires Progress(schema, start, {}, seen) && Found(schema, seen, visits, models)
    ensures forall t :: t in visits <==> Reachable(schema, start, t)
    ensures forall t :: t in models <==> t in schema && Reachable(schema, start, t)
  {
    forall t ensures (t in visits <==> Reachable(schema, start, t)) &&
                     (t in models <==> t in schema && Reachable(schema, start, t)) {
      ProgressEnds(schema, start, seen, t);
      assert t in visits <==> t in Elements(visits);
      assert t in models <==> t in Elements(models);
    }
  }

  // ---------- dependency order ----------

  /** The tables a model has to follow: those it references, other than itself. */
  function Dependencies(schema: Schema, t: Table): set<Table> {
    if t in schema then Elements(schema[t]) - {t} else {}
  }

  /** The nodes of the sorter: the models and everything they depend on. */
  function Nodes(schema: Schema, models: seq<Table>): set<Table> {
    Elements(models) + set t, u | t in models && u in Dependencies(schema, t) :: u
  }

  function Preds(schema: Schema, models: seq<Table>, t: Table): set<Table> {
    if t in models then Dependencies(schema, t) else {}
  }

  ghost predicate Precedes(order: seq<Table>, u: Table, i: nat) {
    exists j :: 0 <= j < i && j < |order| && order[j] == u
  }

  /** An order of all nodes in which each follows what it depends on. */
  ghost predicate IsOrder(schema: Schema, models: seq<Table>, order: seq<Table>) {
    && Distinct(order) && Elements(order) == Nodes(schema, models)
    && (forall i, u :: 0 <= i < |order| && u in Preds(schema, models, order[i]) ==> Precedes(order, u, i))
  }

  /** Nodes that wait for one another have no place in any order. */
  lemma {:induction false} NotStuck(schema: Schema, models: seq<Table>, stuck: set<Table>, order: seq<Table>, i: nat)
    requires IsOrder(schema, models, order) && i < |order| && Ready(schema, models, stuck) == {}
    ensures order[i] !in stuck
    decreases i
  {
    if order[i] in stuck {
      assert order[i] !in Ready(schema, models, stuck);
      var u :| u in Preds(schema, models, order[i]) * stuck;
      assert Precedes(order, u, i);
      var j :| 0 <= j < i && j < |order| && order[j] == u;
      NotStuck(schema, models, stuck, order, j);
    }
  }

  // ---------- cycles ----------

  /** Two or more tables, each referencing the next one and the last one the first. */
  ghost predicate IsCycle(schema: Schema, cycle: seq<Table>) {
    && |cycle| >= 2 && Distinct(cycle)
    && (forall i :: 0 <= i < |cycle| ==>
                    cycle[i] in schema && cycle[if i + 1 < |cycle| then i + 1 else 0] in schema[cycle[i]])
  }

  ghost predicate Within(cycle: seq<Table>, models: seq<Table>) {
    forall i :: 0 <= i < |cycle| ==> cycle[i] in models
  }

  ghost predicate HasCycle(schema: Schema, models: seq<Table>) {
    exists cycle :: IsCycle(schema, cycle) && Within(cycle, models)
  }

  /** Among nodes that wait for one another, each waits for one of them. */
  lemma WaitsFor(schema: Schema, models: seq<Table>, stuck: set<Table>, t: Table) returns (u: Table)
    requires Ready(schema, models, stuck) == {} && t in stuck
    ensures t in models && u in stuck && u in Dependencies(schema, t)
  {
    assert t !in Ready(schema, models, stuck);
    u :| u in Preds(schema, models, t) * stuck;
  }

  ghost predicate IsWalk(schema: Schema, stuck: set<Table>, walk: seq<Table>) {
    && walk != [] && Distinct(walk) && Elements(walk) <= stuck
    && (forall i :: 0 <= i < |walk| - 1 ==> walk[i + 1] in Dependencies(schema, walk[i]))
  }

  lemma WalkCloses(schema: Schema, stuck: set<Table>, walk: seq<Table>, u: Table, j: nat)
    requires IsWalk(schema, stuck, walk) && j < |walk| && walk[j] == u
    requires u in Dependencies(schema, walk[|walk| - 1])
    ensures IsCycle(schema, walk[j..])
  {
    var cycle := walk[j..];
    forall i | 0 <= i < |cycle|
      ensures cycle[i] in schema && cycle[if i + 1 < |cycle| then i + 1 else 0] in schema[cycle[i]]
    {
      if i + 1 < |cycle| {
        assert walk[j + i + 1] in Dependencies(schema, walk[j + i]);
      }
    }
  }

  /** Following what each waits for leads back to a node passed before. */
  lemma CycleIn(schema: Schema, models: seq<Table>, stuck: set<Table>) returns (cycle: seq<Table>)
    requires stuck != {} && Ready(schema, models, stuck) == {}
    ensures IsCycle(schema, cycle) && Within(cycle, models)
  {
    var t :| t in stuck;
    var walk := [t];
    while true
      invariant IsWalk(schema, stuck, walk)
      decreases stuck - Elements(walk)
    {
      var u := WaitsFor(schema, models, stuck, walk[|walk| - 1]);
      if u in Elements(walk) {
        var j := IndexIn(walk, u);
        cycle := walk[j..];
        forall i | 0 <= i < |cycle| ensures cycle[i] in models {
          assert walk[j + i] in Elements(walk);
          var v := WaitsFor(schema, models, stuck, cycle[i]);
        }
        WalkCloses(schema, stuck, walk, u, j);
        return;
      }
      ElementsAppend(walk, [u]);
      DistinctAppend(walk, [u]);
      walk := walk + [u];
    }
  }

  /** The tables of a cycle wait for one another. */
  lemma CycleIsStuck(schema: Schema, models: seq<Table>, cycle: seq<Table>)
    requires IsCycle(schema, cycle) && Within(cycle, models)
    ensures Ready(schema, models, Elements(cycle)) == {}
  {
    forall t | t in Elements(cycle) ensures t !in Ready(schema, models, Elements(cycle)) {
      var i := IndexIn(cycle, t);
      assert cycle[i] != cycle[if i + 1 < |cycle| then i + 1 else 0];
      assert cycle[if i + 1 < |cycle| then i + 1 else 0] in Preds(schema, models, t) * Elements(cycle);
    }
  }

  lemma NoOrderWithCycle(schema: Schema, models: seq<Table>, cycle: seq<Table>, order: seq<Table>)
    requires IsCycle(schema, cycle) && Within(cycle, models)
    ensures !IsOrder(schema, models, order)
  {
    CycleIsStuck(schema, models, cycle);
    assert cycle[0] in Elements(cycle);
    assert Elements(cycle) <= Elements(models);
    NoOrderWhenStuck(schema, models, Elements(cycle), order);
  }

  /** `static_order`: placing nodes whose dependencies are placed, until all are placed or,
      in a cycle, none can be: it fails if and only if there is a cycle. */
  method StaticOrder(schema: Schema, models: seq<Table>) returns (r: Option<seq<Table>>)
    ensures r.Some? ==> IsOrder(schema, models, r.value)
    ensures r.None? <==> HasCycle(schema, models)
  {
    var order := [];
    var todo := Nodes(schema, models);
    assert Elements(order) + todo == todo;
    while todo != {}
      invariant Placed(schema, models, order, todo)
      decreases |todo|
    {
      var ready := Ready(schema, models, todo);
      if ready == {} {
        ghost var cycle := CycleIn(schema, models, todo);
        return None;
      }
      var t :| t in ready;
      PlaceNext(schema, models, order, todo, t);
      order := order + [t];
      todo := todo - {t};
    }
    assert Elements(order) + {} == Elements(order);
    if cycle :| IsCycle(schema, cycle) && Within(cycle, models) {
      NoOrderWithCycle(schema, models, cycle, order);
    }
    r := Some(order);
  }

  /** The nodes whose dependencies are all placed. */
  function Ready(schema: Schema, models: seq<Table>, todo: set<Table>): set<Table> {
    set t | t in todo && Preds(schema, models, t) * todo == {}
  }

  /** The order in between: `todo` is left to be placed. */
  ghost predicate Placed(schema: Schema, models: seq<Table>, order: seq<Table>, todo: set<Table>) {
    && Distinct(order) && Elements(order) !! todo && Elements(order) + todo == Nodes(schema, models)
    && (forall i, u :: 0 <= i < |order| && u in Preds(schema, models, order[i]) ==> Precedes(order, u, i))
  }

  lemma IndexIn(s: seq<Table>, t: Table) returns (i: nat)
    requires t in Elements(s)
    ensures i < |s| && s[i] == t
  {
    i :| 0 <= i < |s| && s[i] == t;
  }

  lemma StuckIsPlaced(schema: Schema, models: seq<Table>, stuck: set<Table>, order: seq<Table>, t: Table)
    requires IsOrder(schema, models, order) && Ready(schema, models, stuck) == {} && t in Elements(order)
    ensures t !in stuck
  {
    var i := IndexIn(order, t);
    NotStuck(schema, models, stuck, order, i);
  }

  lemma NoOrderWhenStuck(schema: Schema, models: seq<Table>, todo: set<Table>, order: seq<Table>)
    requires todo != {} && todo <= Nodes(schema, models)
    requires Ready(schema, models, todo) == {}
    ensures !IsOrder(schema, models, order)
  {
    if IsOrder(schema, models, order) {
      var t :| t in todo;
      StuckIsPlaced(schema, models, todo, order, t);
    }
  }

  lemma PredsAreNodes(schema: Schema, models: seq<Table>, t: Table)
    ensures Preds(schema, models, t) <= Nodes(schema, models)
  {
  }

  lemma PlaceNext(schema: Schema, models: seq<Table>, order: seq<Table>, todo: set<Table>, t: Table)
    requires Placed(schema, models, order, todo) && t in Ready(schema, models, todo)
    ensures Placed(schema, models, order + [t], todo - {t})
  {
    var longer := order + [t];
    ElementsAppend(order, [t]);
    DistinctAppend(order, [t]);
    forall i, u | 0 <= i < |longer| && u in Preds(schema, models, longer[i]) ensures Precedes(longer, u, i) {
      PlacedBefore(schema, models, order, todo, t, i, u);
    }
  }

  lemma PlacedBefore(schema: Schema, models: seq<Table>, order: seq<Table>, todo: set<Table>, t: Table, i: nat,
                     u: Table)
    requires Placed(schema, models, order, todo) && t in Ready(schema, models, todo)
    requires i < |order + [t]| && u in Preds(schema, models, (order + [t])[i])
    ensures Precedes(order + [t], u, i)
  {
    if i < |order| {
      assert Precedes(order, u, i);
      var j :| 0 <= j < i && j < |order| && order[j] == u;
      assert (order + [t])[j] == u;
    } else {
      PredsAreNodes(schema, models, t);
      assert u in Elements(order);
      var j :| 0 <= j < |order| && order[j] == u;
      assert (order + [t])[j] == u;
    }
  }

  // ---------- sorting the models ----------

  /** The models arranged by their index in the order; the indices differ, so this is the
      only way to sort them by index. */
  function Arrange(order: seq<Table>, models: set<Table>): seq<Table> {
    if order == [] then []
    else if order[|order| - 1] in models then Arrange(order[..|order| - 1], models) + [order[|order| - 1]]
    else Arrange(order[..|order| - 1], models)
  }

  /** An arrangement holds the models of the order, each once, and if `u` precedes position
      `i` of the order it precedes the model found there. */
  lemma {:induction false} ArrangeKeeps(order: seq<Table>, models: set<Table>)
    requires Distinct(order)
    ensures Distinct(Arrange(order, models))
    ensures forall t :: t in Arrange(order, models) <==> t in order && t in models
    ensures forall i :: 0 <= i < |Arrange(order, models)| ==> Precedes(order, Arrange(order, models)[i], |order|)
  {
    if order != [] {
      var shorter, last := order[..|order| - 1], order[|order| - 1];
      ArrangeKeeps(shorter, models);
      assert order == shorter + [last];
      forall i | 0 <= i < |Arrange(order, models)| ensures Precedes(order, Arrange(order, models)[i], |order|) {
        assert Arrange(order, models)[i] in order;
      }
    }
  }

  lemma {:induction false} ArrangeFollows(order: seq<Table>, models: set<Table>, i: nat, u: Table)
    requires Distinct(order) && i < |Arrange(order, models)| && u in models
    requires exists k :: 0 <= k < |order| && order[k] == Arrange(order, models)[i] && Precedes(order, u, k)
    ensures Precedes(Arrange(order, models), u, i)
    decreases |order|
  {
    var r, last := Arrange(order, models), |order| - 1;
    var shorter := order[..last];
    var k :| 0 <= k < |order| && order[k] == r[i] && Precedes(order, u, k);
    var j :| 0 <= j < k && order[j] == u;
    ArrangeKeeps(shorter, models);
    if k < last {
      assert r[i] == shorter[k] && r[i] != order[last];
      assert Arrange(shorter, models)[i] == r[i] by {
        assert order[last] in models ==> r == Arrange(shorter, models) + [order[last]];
      }
      assert shorter[j] == u && Precedes(shorter, u, k);
      ArrangeFollows(shorter, models, i, u);
      var m :| 0 <= m < i && Arrange(shorter, models)[m] == u;
      assert r[m] == u;
    } else {
      assert shorter[j] == u && u in Arrange(shorter, models);
      ArrangeKeeps(order, models);
      assert r == Arrange(shorter, models) + [order[last]];
      var m :| 0 <= m < |Arrange(shorter, models)| && Arrange(shorter, models)[m] == u;
      assert r[m] == u;
      assert i == |r| - 1;
    }
  }

  /** The reachable models in an order in which each follows the others it references. */
  ghost predicate IsGoodOrder(schema: Schema, start: set<Table>, s: seq<Table>) {
    && Distinct(s) && (forall t :: t in s <==> t in schema && Reachable(schema, start, t))
    && (forall i, u :: 0 <= i < |s| && s[i] in schema && u in schema[s[i]] && u != s[i] && u in schema ==>
                       Precedes(s, u, i))
  }

  lemma ReferencedIsModel(schema: Schema, start: set<Table>, models: seq<Table>, t: Table, u: Table)
    requires forall x :: x in models <==> x in schema && Reachable(schema, start, x)
    requires t in models && u in Dependencies(schema, t) && u in schema
    ensures u in models
  {
    ReachableStep(schema, start, t, u);
  }

  lemma SetToSeq(s: set<Table>) returns (r: seq<Table>)
    ensures Distinct(r) && Elements(r) == s
  {
    r := [];
    var todo := s;
    while todo != {}
      invariant Distinct(r) && Elements(r) !! todo && Elements(r) + todo == s
    {
      var t :| t in todo;
      r := r + [t];
      todo := todo - {t};
    }
  }

  /** A good order of the models, behind the unmapped tables they reference, is an order of
      all nodes. */
  lemma GoodOrderExtends(schema: Schema, start: set<Table>, models: seq<Table>, s: seq<Table>, rest: seq<Table>)
    requires IsGoodOrder(schema, start, s)
    requires forall t :: t in models <==> t in schema && Reachable(schema, start, t)
    requires Distinct(rest) && Elements(rest) == Nodes(schema, models) - Elements(models)
    ensures IsOrder(schema, models, rest + s)
  {
    var order := rest + s;
    assert forall t :: t in models <==> t in s;
    assert Elements(s) == Elements(models);
    ElementsAppend(rest, s);
    DistinctAppend(rest, s);
    assert Elements(models) <= Nodes(schema, models);
    forall i, u | 0 <= i < |order| && u in Preds(schema, models, order[i]) ensures Precedes(order, u, i) {
      assert order[i] in Elements(models);
      assert forall k :: 0 <= k < |rest| ==> rest[k] in Elements(rest) && rest[k] !in Elements(models);
      GoodOrderPrecedes(schema, start, models, s, rest, i - |rest|, u);
    }
  }

  lemma GoodOrderPrecedes(schema: Schema, start: set<Table>, models: seq<Table>, s: seq<Table>, rest: seq<Table>,
                          i: nat, u: Table)
    requires IsGoodOrder(schema, start, s) && i < |s| && u in Dependencies(schema, s[i])
    requires forall t :: t in models <==> t in schema && Reachable(schema, start, t)
    requires Elements(rest) == Nodes(schema, models) - Elements(models)
    ensures Precedes(rest + s, u, |rest| + i)
  {
    assert s[i] in s;
    if u in schema {
      assert Precedes(s, u, i);
      var j :| 0 <= j < i && j < |s| && s[j] == u;
      assert (rest + s)[|rest| + j] == u;
    } else {
      assert u in Elements(rest);
      var j :| 0 <= j < |rest| && rest[j] == u;
      assert (rest + s)[j] == u;
    }
  }

  lemma NoGoodOrder(schema: Schema, start: set<Table>, models: seq<Table>, s: seq<Table>)
    requires forall t :: t in models <==> t in schema && Reachable(schema, start, t)
    requires HasCycle(schema, models)
    ensures !IsGoodOrder(schema, start, s)
  {
    var rest := SetToSeq(Nodes(schema, models) - Elements(models));
    if IsGoodOrder(schema, start, s) {
      GoodOrderExtends(schema, start, models, s, rest);
      var cycle :| IsCycle(schema, cycle) && Within(cycle, models);
      NoOrderWithCycle(schema, models, cycle, rest + s);
    }
  }

  /** A cycle of references among the mapped tables that can be reached. */
  ghost predicate HasReachableCycle(schema: Schema, start: set<Table>) {
    exists cycle :: IsCycle(schema, cycle) &&
                    forall i :: 0 <= i < |cycle| ==> cycle[i] in schema && Reachable(schema, start, cycle[i])
  }

  lemma CycleAmongModels(schema: Schema, start: set<Table>, models: seq<Table>)
    requires forall t :: t in models <==> t in schema && Reachable(schema, start, t)
    ensures HasCycle(schema, models) <==> HasReachableCycle(schema, start)
  {
    if HasCycle(schema, models) {
      var cycle :| IsCycle(schema, cycle) && Within(cycle, models);
      assert forall i :: 0 <= i < |cycle| ==> cycle[i] in models;
    }
    if HasReachableCycle(schema, start) {
      var cycle :| IsCycle(schema, cycle) &&
                   forall i :: 0 <= i < |cycle| ==> cycle[i] in schema && Reachable(schema, start, cycle[i]);
      assert Within(cycle, models);
    }
  }

  ghost predicate References(schema: Schema, t: Table, u: Table) {
    t in schema && u in schema[t] && u != t
  }

  lemma ArrangedFollows(schema: Schema, start: set<Table>, models: seq<Table>, order: seq<Table>, i: nat, u: Table)
    requires forall x :: x in models <==> x in schema && Reachable(schema, start, x)
    requires IsOrder(schema, models, order) && i < |Arrange(order, Elements(models))|
    requires References(schema, Arrange(order, Elements(models))[i], u) && u in schema
    ensures exists j :: 0 <= j < i && j < |Arrange(order, Elements(models))| && Arrange(order, Elements(models))[j] == u
  {
    var sorted := Arrange(order, Elements(models));
    ArrangeKeeps(order, Elements(models));
    assert sorted[i] in sorted;
    ReferencedIsModel(schema, start, models, sorted[i], u);
    var k :| 0 <= k < |order| && order[k] == sorted[i];
    assert u in Preds(schema, models, order[k]);
    ArrangeFollows(order, Elements(models), i, u);
  }

  /** `find_models`: the mapped tables reachable through mapped tables from the tables the
      script modifies or declares, each once, every model behind all the others that it
      references. It fails if and only if references run in a cycle through two or more of
      those tables; a table that references itself is no hindrance. */
  method FindModels(schema: Schema, objects: seq<PyObject>, modified: set<Table>) returns (r: Option<seq<Table>>)
    ensures r.Some? ==> Distinct(r.value)
    ensures r.Some? ==> forall t :: t in r.value <==> t in schema && Reachable(schema, modified + NamesOf(objects), t)
    ensures r.Some? ==> forall i, u :: 0 <= i < |r.value| && r.value[i] in schema && u in schema[r.value[i]] &&
                                       u != r.value[i] && u in schema ==>
                                       exists j :: 0 <= j < i && r.value[j] == u
    ensures r.None? <==> HasReachableCycle(schema, modified + NamesOf(objects))
    ensures r.None? ==> forall s: seq<Table> :: !IsGoodOrder(schema, modified + NamesOf(objects), s)
  {
    var tables := CollectNames(objects, modified);
    ghost var visits;
    var models;
    models, visits := FindReachable(schema, tables);
    var order := StaticOrder(schema, models);
    CycleAmongModels(schema, tables, models);
    if order.None? {
      forall s: seq<Table> ensures !IsGoodOrder(schema, tables, s) {
        NoGoodOrder(schema, tables, models, s);
      }
      return None;
    }
    var sorted := Arrange(order.value, Elements(models));
    ArrangeKeeps(order.value, Elements(models));
    forall t ensures t in sorted <==> t in schema && Reachable(schema, tables, t) {
      assert t in models ==> t in Nodes(schema, models);
      assert t in Elements(order.value) <==> t in order.value;
    }
    forall i, u | 0 <= i < |sorted| && References(schema, sorted[i], u) && u in schema
      ensures exists j :: 0 <= j < i && sorted[j] == u
    {
      ArrangedFollows(schema, tables, models, order.value, i, u);
    }
    r := Some(sorted);
  }
}
