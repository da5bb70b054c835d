/** The level-by-level insertion of totals into an axis that is being aggregated. */
module PivotTotals {
  import opened Wrappers
  import opened PivotAxis

  // ---------- expansions ----------

  lemma Assoc<T>(a: seq<T>, b: seq<T>, c: seq<T>)
    ensures a + (b + c) == a + b + c
  {
  }

  lemma {:induction false} ExpandSplit<V>(ax: Axis<V>, done: set<Label>, lo: nat, mid: nat, hi: nat)
    requires Uniform(ax) && lo <= mid <= hi <= |ax.leaves|
    ensures Expand(ax, done, lo, hi) == Expand(ax, done, lo, mid) + Expand(ax, done, mid, hi)
    decreases mid - lo
  {
    if lo < mid {
      ExpandSplit(ax, done, lo + 1, mid, hi);
      Assoc(Closed(ax, done, lo), Expand(ax, done, lo + 1, mid), Expand(ax, done, mid, hi));
    }
  }

  /** A group: positions `a` to `b` carry the prefix `g`, and only they. */
  ghost predicate IsGroup<V>(leaves: seq<Line<V>>, g: Label, a: nat, b: nat) {
    a < b <= |leaves| && forall i :: 0 <= i < |leaves| ==> (Carries(leaves[i], g) <==> a <= i < b)
  }

  /** The prefixes already totalled when `g` is next: none is deeper, none is `g`. */
  ghost predicate Before(done: set<Label>, g: Label) {
    g !in done && forall q :: q in done ==> |q| <= |g|
  }

  /** Outside its group a prefix closes nothing. */
  lemma {:induction false} ClosingOutside<V>(ax: Axis<V>, done: set<Label>, g: Label, i: nat, len: nat)
    requires Uniform(ax) && i < |ax.leaves| && len <= ax.n && !Carries(ax.leaves[i], g)
    ensures Closing(ax, done + {g}, i, len) == Closing(ax, done, i, len)
    decreases len
  {
    if len > 0 {
      ClosingOutside(ax, done, g, i, len - 1);
    }
  }

  /** Inside its group, before the last line, nothing is closed yet. */
  lemma {:induction false} ClosingInside<V>(ax: Axis<V>, done: set<Label>, g: Label, i: nat, len: nat)
    requires Uniform(ax) && i + 1 < |ax.leaves| && len <= ax.n
    requires Carries(ax.leaves[i], g) && Carries(ax.leaves[i + 1], g)
    requires forall q :: q in done ==> |q| <= |g|
    ensures Closing(ax, done, i, len) == []
    decreases len
  {
    if len > 0 {
      ClosingInside(ax, done, g, i, len - 1);
      var p := Prefix(ax, i, len - 1);
      if p in done {
        assert p == g[..len - 1];
        assert Carries(ax.leaves[i + 1], p);
      }
    }
  }

  /** Among the groups shallower than itself, a prefix changes nothing. */
  lemma {:induction false} ClosingShallower<V>(ax: Axis<V>, done: set<Label>, g: Label, i: nat, len: nat)
    requires Uniform(ax) && i < |ax.leaves| && len <= |g| && len <= ax.n
    ensures Closing(ax, done + {g}, i, len) == Closing(ax, done, i, len)
    decreases len
  {
    if len > 0 {
      ClosingShallower(ax, done, g, i, len - 1);
      assert Prefix(ax, i, len - 1) != g;
    }
  }

  /** At the last line of its group the total comes first: it is the deepest one there. */
  lemma {:induction false} ClosingLast<V>(ax: Axis<V>, done: set<Label>, g: Label, i: nat, len: nat)
    requires Uniform(ax) && i < |ax.leaves| && |g| < len <= ax.n
    requires Carries(ax.leaves[i], g) && EndsGroup(ax, i, |g|) && Before(done, g)
    ensures Closing(ax, done + {g}, i, len) == [Total(ax, g)] + Closing(ax, done, i, len)
    decreases len
  {
    var p := Prefix(ax, i, len - 1);
    if len - 1 > |g| {
      ClosingLast(ax, done, g, i, len - 1);
      assert p !in done + {g};
    } else {
      ClosingShallower(ax, done, g, i, len - 1);
      assert p == g && p !in done;
    }
  }

  lemma {:induction false} ExpandOutside<V>(ax: Axis<V>, done: set<Label>, g: Label, lo: nat, hi: nat)
    requires Uniform(ax) && lo <= hi <= |ax.leaves|
    requires forall i :: lo <= i < hi ==> !Carries(ax.leaves[i], g)
    ensures Expand(ax, done + {g}, lo, hi) == Expand(ax, done, lo, hi)
    decreases hi - lo
  {
    if lo < hi {
      ClosingOutside(ax, done, g, lo, ax.n);
      ExpandOutside(ax, done, g, lo + 1, hi);
    }
  }

  lemma ConsSlice<T>(s: seq<T>, lo: nat, b: nat, last: seq<T>)
    requires lo < b <= |s|
    ensures [s[lo]] + (s[lo + 1..b] + last) == s[lo..b] + last
  {
  }

  /** A group whose own subgroups have no totals yet stands unbroken. */
  lemma {:induction false} ExpandGroup<V>(ax: Axis<V>, done: set<Label>, g: Label, lo: nat, b: nat)
    requires Uniform(ax) && lo < b <= |ax.leaves|
    requires forall i :: lo <= i < b ==> Carries(ax.leaves[i], g)
    requires forall q :: q in done ==> |q| <= |g|
    ensures Expand(ax, done, lo, b) == ax.leaves[lo..b] + Closing(ax, done, b - 1, ax.n)
    decreases b - lo
  {
    if lo + 1 < b {
      assert Closed(ax, done, lo) == [ax.leaves[lo]] by {
        ClosingInside(ax, done, g, lo, ax.n);
      }
      ExpandGroup(ax, done, g, lo + 1, b);
      ConsSlice(ax.leaves, lo, b, Closing(ax, done, b - 1, ax.n));
    } else {
      assert ax.leaves[lo..b] == [ax.leaves[lo]];
      assert Expand(ax, done, b, b) == [];
    }
  }

  // ---------- no total is mistaken for an original line ----------

  /** No total of an earlier prefix looks like a line of the group of `g`. */
  lemma TotalNotUnder(q: Label, g: Label, leaf: Label, n: nat, metricName: string)
    requires |q| <= |g| < n == |leaf| && q != g && g <= leaf && CleanLabel(leaf, metricName)
    ensures !(g <= TotalLabel(q, n, metricName))
  {
    var t := TotalLabel(q, n, metricName);
    assert t[..|q|] == q;
    if |q| < |g| {
      assert g[|q|] == leaf[|q|] != TotalName(metricName, |q|) == t[|q|];
    }
  }

  /** When it does: a total passes for a line of a deeper group exactly if the group's next
      label part is the name of that total and only blanks follow. So label parts that avoid
      the names of totals are what the deeper lookups rest on. */
  lemma TotalMistakenIff(q: Label, g: Label, n: nat, metricName: string)
    requires |q| < |g| < n && q <= g
    ensures g <= TotalLabel(q, n, metricName) <==>
            g[|q|] == TotalName(metricName, |q|) && forall k :: |q| < k < |g| ==> g[k] == ""
  {
    var t := TotalLabel(q, n, metricName);
    assert t[..|q|] == q && t[|q|] == TotalName(metricName, |q|) && forall k :: |q| < k < n ==> t[k] == "";
    if g[|q|] == TotalName(metricName, |q|) && forall k :: |q| < k < |g| ==> g[k] == "" {
      assert forall k :: 0 <= k < |q| ==> g[k] == q[k] == t[k];
    }
  }

  lemma NoneCarryAppend<V>(x: seq<Line<V>>, y: seq<Line<V>>, p: Label)
    requires NoneCarry(x, p) && NoneCarry(y, p)
    ensures NoneCarry(x + y, p)
  {
  }

  lemma {:induction false} ClosingNone<V>(ax: Axis<V>, done: set<Label>, g: Label, a: nat, i: nat, len: nat)
    requires Uniform(ax) && i < |ax.leaves| && len <= ax.n && |g| < ax.n
    requires a < |ax.leaves| && Carries(ax.leaves[a], g) && CleanLabel(ax.leaves[a].path, ax.metricName)
    requires Before(done, g)
    ensures NoneCarry(Closing(ax, done, i, len), g)
    decreases len
  {
    if len > 0 {
      ClosingNone(ax, done, g, a, i, len - 1);
      var p := Prefix(ax, i, len - 1);
      if p in done {
        TotalNotUnder(p, g, ax.leaves[a].path, ax.n, ax.metricName);
        assert NoneCarry([Total(ax, p)], g);
        NoneCarryAppend([Total(ax, p)], Closing(ax, done, i, len - 1), g);
      }
    }
  }

  lemma ClosedNone<V>(ax: Axis<V>, done: set<Label>, g: Label, a: nat, i: nat)
    requires Uniform(ax) && i < |ax.leaves| && |g| < ax.n && !Carries(ax.leaves[i], g)
    requires a < |ax.leaves| && Carries(ax.leaves[a], g) && CleanLabel(ax.leaves[a].path, ax.metricName)
    requires Before(done, g)
    ensures NoneCarry(Closed(ax, done, i), g)
  {
    ClosingNone(ax, done, g, a, i, ax.n);
    NoneCarryAppend([ax.leaves[i]], Closing(ax, done, i, ax.n), g);
  }

  lemma {:induction false} ExpandNone<V>(ax: Axis<V>, done: set<Label>, g: Label, a: nat, lo: nat, hi: nat)
    requires Uniform(ax) && lo <= hi <= |ax.leaves| && |g| < ax.n
    requires a < |ax.leaves| && Carries(ax.leaves[a], g) && CleanLabel(ax.leaves[a].path, ax.metricName)
    requires Before(done, g)
    requires forall i :: lo <= i < hi ==> !Carries(ax.leaves[i], g)
    ensures NoneCarry(Expand(ax, done, lo, hi), g)
    decreases hi - lo
  {
    if lo < hi {
      assert NoneCarry(Closed(ax, done, lo), g) by {
        ClosedNone(ax, done, g, a, lo);
      }
      assert NoneCarry(Expand(ax, done, lo + 1, hi), g) by {
        ExpandNone(ax, done, g, a, lo + 1, hi);
      }
      NoneCarryAppend(Closed(ax, done, lo), Expand(ax, done, lo + 1, hi), g);
    }
  }

  // ---------- groups ----------

  lemma {:induction false} UnderNone<V>(lines: seq<Line<V>>, p: Label)
    requires NoneCarry(lines, p)
    ensures Under(lines, p) == []
  {
    if lines != [] {
      UnderNone(lines[1..], p);
    }
  }

  lemma {:induction false} UnderAppend<V>(x: seq<Line<V>>, y: seq<Line<V>>, p: Label)
    ensures Under(x + y, p) == Under(x, p) + Under(y, p)
  {
    if x == [] {
      assert x + y == y;
    } else {
      assert (x + y)[0] == x[0] && (x + y)[1..] == x[1..] + y;
      UnderAppend(x[1..], y, p);
      Assoc([x[0]], Under(x[1..], p), Under(y, p));
    }
  }

  lemma {:induction false} UnderAll<V>(lines: seq<Line<V>>, p: Label)
    requires AllCarry(lines, p)
    ensures Under(lines, p) == lines
  {
    if lines != [] {
      UnderAll(lines[1..], p);
    }
  }

  /** The lines under a prefix are its group. */
  lemma UnderGroup<V>(leaves: seq<Line<V>>, g: Label, a: nat, b: nat)
    requires IsGroup(leaves, g, a, b)
    ensures Under(leaves, g) == leaves[a..b]
  {
    assert leaves == leaves[..a] + leaves[a..b] + leaves[b..];
    UnderAppend(leaves[..a] + leaves[a..b], leaves[b..], g);
    UnderAppend(leaves[..a], leaves[a..b], g);
    UnderNone(leaves[..a], g);
    UnderAll(leaves[a..b], g);
    UnderNone(leaves[b..], g);
  }

  /** Every prefix of a contiguous axis has a group. */
  lemma GroupOf<V>(leaves: seq<Line<V>>, g: Label, i: nat) returns (a: nat, b: nat)
    requires Together(leaves, g) && i < |leaves| && Carries(leaves[i], g)
    ensures IsGroup(leaves, g, a, b)
  {
    a, b := i, i + 1;
    while a > 0 && Carries(leaves[a - 1], g)
      invariant a <= i && forall j :: a <= j <= i ==> Carries(leaves[j], g)
    {
      a := a - 1;
    }
    while b < |leaves| && Carries(leaves[b], g)
      invariant i < b <= |leaves| && forall j :: i <= j < b ==> Carries(leaves[j], g)
    {
      b := b + 1;
    }
    assert forall j :: 0 <= j < a ==> !Carries(leaves[j], g);
    assert forall j :: b <= j < |leaves| ==> !Carries(leaves[j], g);
  }

  // ---------- one insertion ----------

  function InsertAt<T>(s: seq<T>, k: nat, x: T): seq<T>
    requires k <= |s|
  {
    s[..k] + [x] + s[k..]
  }

  lemma InsertBetween<T>(x: seq<T>, y: seq<T>, z: seq<T>, t: T)
    ensures InsertAt(x + y + z, |x| + |y|, t) == x + (y + [t]) + z
    ensures (x + y + z)[|x|..|x| + |y|] == y
  {
  }

  /** The axis seen from the group of `g`, before its total is inserted. */
  lemma ExpandAround<V>(ax: Axis<V>, done: set<Label>, g: Label, a: nat, b: nat)
    requires Uniform(ax) && |g| < ax.n && IsGroup(ax.leaves, g, a, b) && forall q :: q in done ==> |q| <= |g|
    ensures Expand(ax, done, 0, |ax.leaves|) ==
            Expand(ax, done, 0, a) + (ax.leaves[a..b] + Closing(ax, done, b - 1, ax.n)) +
            Expand(ax, done, b, |ax.leaves|)
  {
    ExpandSplit(ax, done, 0, b, |ax.leaves|);
    ExpandSplit(ax, done, 0, a, b);
    ExpandGroup(ax, done, g, a, b);
  }

  /** At the last line of its group, a total is the first thing that follows. */
  lemma GroupCloses<V>(ax: Axis<V>, done: set<Label>, g: Label, a: nat, b: nat)
    requires Uniform(ax) && |g| < ax.n && IsGroup(ax.leaves, g, a, b) && Before(done, g)
    ensures Closing(ax, done + {g}, b - 1, ax.n) == [Total(ax, g)] + Closing(ax, done, b - 1, ax.n)
  {
    assert Carries(ax.leaves[b - 1], g);
    assert Prefix(ax, b - 1, |g|) == g;
    assert b < |ax.leaves| ==> !Carries(ax.leaves[b], g);
    ClosingLast(ax, done, g, b - 1, ax.n);
  }

  /** What one total changes: it stands right behind its group. */
  lemma ExpandMore<V>(ax: Axis<V>, done: set<Label>, g: Label, a: nat, b: nat)
    requires Uniform(ax) && |g| < ax.n && IsGroup(ax.leaves, g, a, b) && Before(done, g)
    ensures Expand(ax, done + {g}, 0, |ax.leaves|) ==
            Expand(ax, done, 0, a) + (ax.leaves[a..b] + ([Total(ax, g)] + Closing(ax, done, b - 1, ax.n))) +
            Expand(ax, done, b, |ax.leaves|)
  {
    ExpandOutside(ax, done, g, 0, a);
    ExpandOutside(ax, done, g, b, |ax.leaves|);
    GroupCloses(ax, done, g, a, b);
    ExpandAround(ax, done + {g}, g, a, b);
  }

  lemma Regroup<T>(x: seq<T>, y: seq<T>, c: seq<T>, z: seq<T>, t: T)
    ensures x + (y + c) + z == x + y + (c + z)
    ensures x + (y + ([t] + c)) + z == x + (y + [t]) + (c + z)
  {
  }

  /** Lines of full depth that use no total's name. */
  ghost predicate Fits<V>(lines: seq<Line<V>>, n: nat, metricName: string) {
    forall i :: 0 <= i < |lines| ==> |lines[i].path| == n && CleanLabel(lines[i].path, metricName)
  }

  lemma GroupFits<V>(ax: Axis<V>, g: Label, a: nat, b: nat)
    requires Regular(ax) && IsGroup(ax.leaves, g, a, b)
    ensures Fits(ax.leaves[a..b], ax.n, ax.metricName) && AllCarry(ax.leaves[a..b], g)
  {
  }

  /** The label of the total is on no line yet. */
  lemma TotalIsNew<V>(x: seq<Line<V>>, y: seq<Line<V>>, z: seq<Line<V>>, g: Label, n: nat, metricName: string)
    requires |g| < n && NoneCarry(x, g) && NoneCarry(z, g) && Fits(y, n, metricName)
    ensures forall i :: 0 <= i < |x + y + z| ==> (x + y + z)[i].path != TotalLabel(g, n, metricName)
  {
    var t := TotalLabel(g, n, metricName);
    assert g <= t && t[|g|] == TotalName(metricName, |g|);
    forall i | 0 <= i < |y| ensures y[i].path != t {
      assert y[i].path[|g|] != TotalName(metricName, |g|);
    }
    forall i | 0 <= i < |x| ensures x[i].path != t {
      assert !Carries(x[i], g);
    }
    forall i | 0 <= i < |z| ensures z[i].path != t {
      assert !Carries(z[i], g);
    }
  }

  /** One insertion. On the axis that holds the totals `done`, the lookup of `g` yields
      exactly the original lines of its group, its total's label is new, and inserting it
      behind them gives the axis that holds the totals `done` and `g`. */
  lemma InsertStep<V>(ax: Axis<V>, done: set<Label>, g: Label, i: nat) returns (slice: Slice)
    requires Regular(ax) && |g| < ax.n && Before(done, g) && i < |ax.leaves| && Carries(ax.leaves[i], g)
    ensures var lines := Expand(ax, done, 0, |ax.leaves|);
            && GetLoc(lines, g) == Some(slice) && Take(lines, slice) == Under(ax.leaves, g)
            && (forall j :: 0 <= j < |lines| ==> lines[j].path != TotalLabel(g, ax.n, ax.metricName))
            && InsertAt(lines, slice.stop, Total(ax, g)) == Expand(ax, done + {g}, 0, |ax.leaves|)
  {
    var a, b := GroupOf(ax.leaves, g, i);
    var x, y, z := Expand(ax, done, 0, a), ax.leaves[a..b], Expand(ax, done, b, |ax.leaves|);
    var c := Closing(ax, done, b - 1, ax.n);
    slice := Slice(|x|, |x| + |y|, 1);
    assert Expand(ax, done, 0, |ax.leaves|) == x + y + (c + z) by {
      ExpandAround(ax, done, g, a, b);
      Regroup(x, y, c, z, Total(ax, g));
    }
    assert Expand(ax, done + {g}, 0, |ax.leaves|) == x + (y + [Total(ax, g)]) + (c + z) by {
      ExpandMore(ax, done, g, a, b);
      Regroup(x, y, c, z, Total(ax, g));
    }
    BeforeNone(ax, done, g, a, b);
    AfterNone(ax, done, g, a, b);
    GroupFits(ax, g, a, b);
    UnderGroup(ax.leaves, g, a, b);
    LookupAndInsert(x, y, c + z, g, ax.n, ax.metricName, Total(ax, g));
  }

  /** No total in front of a group passes for a line of it, */
  lemma BeforeNone<V>(ax: Axis<V>, done: set<Label>, g: Label, a: nat, b: nat)
    requires Uniform(ax) && |g| < ax.n && Before(done, g) && IsGroup(ax.leaves, g, a, b)
    requires CleanLabel(ax.leaves[a].path, ax.metricName)
    ensures NoneCarry(Expand(ax, done, 0, a), g)
  {
    ExpandNone(ax, done, g, a, 0, a);
  }

  /** and none behind it. */
  lemma AfterNone<V>(ax: Axis<V>, done: set<Label>, g: Label, a: nat, b: nat)
    requires Uniform(ax) && |g| < ax.n && Before(done, g) && IsGroup(ax.leaves, g, a, b)
    requires CleanLabel(ax.leaves[a].path, ax.metricName)
    ensures NoneCarry(Closing(ax, done, b - 1, ax.n) + Expand(ax, done, b, |ax.leaves|), g)
  {
    assert NoneCarry(Closing(ax, done, b - 1, ax.n), g) by {
      ClosingNone(ax, done, g, a, b - 1, ax.n);
    }
    assert NoneCarry(Expand(ax, done, b, |ax.leaves|), g) by {
      ExpandNone(ax, done, g, a, b, |ax.leaves|);
    }
    NoneCarryAppend(Closing(ax, done, b - 1, ax.n), Expand(ax, done, b, |ax.leaves|), g);
  }

  lemma LookupAndInsert<V>(x: seq<Line<V>>, y: seq<Line<V>>, z: seq<Line<V>>, g: Label, n: nat, metricName: string,
                           t: Line<V>)
    requires |g| < n && NoneCarry(x, g) && AllCarry(y, g) && NoneCarry(z, g) && y != [] && Fits(y, n, metricName)
    ensures var lines := x + y + z;
            && GetLoc(lines, g) == Some(Slice(|x|, |x| + |y|, 1)) && Take(lines, Slice(|x|, |x| + |y|, 1)) == y
            && (forall j :: 0 <= j < |lines| ==> lines[j].path != TotalLabel(g, n, metricName))
            && InsertAt(lines, |x| + |y|, t) == x + (y + [t]) + z
  {
    GetLocOf(x, y, z, g);
    InsertBetween(x, y, z, t);
    TotalIsNew(x, y, z, g, n, metricName);
  }

  // ---------- the loops ----------

  predicate HasLabel<V>(lines: seq<Line<V>>, name: Label) {
    exists j :: 0 <= j < |lines| && lines[j].path == name
  }

  /** Inserting the total of one group. `None` stands for an exception: a prefix that has no
      slice, or, where labels have to be unique, a label that is already there. Inserting a
      column asks for unique labels, inserting a row does not. */
  function TotalAdded<V>(ax: Axis<V>, lines: seq<Line<V>>, g: Label, unique: bool): Option<seq<Line<V>>>
    requires |g| < ax.n
  {
    var loc, name := GetLoc(lines, g), TotalLabel(g, ax.n, ax.metricName);
    if loc.None? || (unique && HasLabel(lines, name)) then None
    else Some(InsertAt(lines, loc.value.stop, Line(name, ax.agg(Data(Take(lines, loc.value))))))
  }

  method AddTotal<V>(ax: Axis<V>, lines: seq<Line<V>>, subgroup: Label, unique: bool)
    returns (r: Option<seq<Line<V>>>)
    requires |subgroup| < ax.n
    ensures r == TotalAdded(ax, lines, subgroup, unique)
  {
    var loc := GetLoc(lines, subgroup);
    if loc.None? {
      return None;
    }
    var slice := loc.value;
    var subtotal := ax.agg(Data(Take(lines, slice)));
    var subtotalName := TotalLabel(subgroup, ax.n, ax.metricName);
    if unique && HasLabel(lines, subtotalName) {
      return None;
    }
    r := Some(InsertAt(lines, slice.stop, Line(subtotalName, subtotal)));
  }

  ghost predicate Shallow(order: seq<Label>, n: nat) {
    forall i :: 0 <= i < |order| ==> |order[i]| < n
  }

  /** Inserting the totals of several groups one after the other. */
  function TotalsAdded<V>(ax: Axis<V>, order: seq<Label>, unique: bool): Option<seq<Line<V>>>
    requires Shallow(order, ax.n)
  {
    if order == [] then Some(ax.leaves)
    else
      var front := TotalsAdded(ax, order[..|order| - 1], unique);
      if front.None? then None else TotalAdded(ax, front.value, order[|order| - 1], unique)
  }

  /** Different groups of the axis, none before a shallower one. */
  ghost predicate Levelwise<V>(ax: Axis<V>, order: seq<Label>)
    requires Uniform(ax)
  {
    && (forall i :: 0 <= i < |order| ==> IsPrefix(ax, order[i]))
    && Shallow(order, ax.n)
    && (forall i, j :: 0 <= i < j < |order| ==> order[i] != order[j] && |order[i]| <= |order[j]|)
  }

  function Elements(order: seq<Label>): set<Label> {
    set g | g in order
  }

  /** The prefixes of the axis shorter than `level`. */
  ghost function Shallower<V>(ax: Axis<V>, level: nat): set<Label>
    requires Uniform(ax)
  {
    set q | q in Prefixes(ax) && |q| < level
  }

  /** The prefixes of one level, as the loop collects them from the original labels. */
  function Subgroups<V>(ax: Axis<V>, level: nat): set<Label>
    requires Uniform(ax) && level <= ax.n
  {
    set i | 0 <= i < |ax.leaves| :: Prefix(ax, i, level)
  }

  lemma SubgroupsAre<V>(ax: Axis<V>, level: nat)
    requires Uniform(ax) && level < ax.n
    ensures Shallower(ax, level) + Subgroups(ax, level) == Shallower(ax, level + 1)
    ensures forall q :: q in Subgroups(ax, level) ==> |q| == level && IsPrefix(ax, q)
  {
    forall q | q in Prefixes(ax) && |q| == level ensures q in Subgroups(ax, level) {
      var i, len :| 0 <= i < |ax.leaves| && 0 <= len < ax.n && q == Prefix(ax, i, len);
      assert q == Prefix(ax, i, level);
    }
    forall q | q in Subgroups(ax, level) ensures q in Prefixes(ax) && |q| == level && IsPrefix(ax, q) {
      var i :| 0 <= i < |ax.leaves| && q == Prefix(ax, i, level);
      assert Carries(ax.leaves[i], q);
    }
  }

  ghost predicate IsPrefix<V>(ax: Axis<V>, q: Label) {
    exists i :: 0 <= i < |ax.leaves| && Carries(ax.leaves[i], q)
  }

  lemma PrefixesAre<V>(ax: Axis<V>, q: Label)
    requires Uniform(ax)
    ensures q in Prefixes(ax) <==> IsPrefix(ax, q) && |q| < ax.n
  {
    if IsPrefix(ax, q) && |q| < ax.n {
      var i :| 0 <= i < |ax.leaves| && Carries(ax.leaves[i], q);
      assert q == Prefix(ax, i, |q|);
    }
  }

  lemma ShallowerEnds<V>(ax: Axis<V>)
    requires Uniform(ax)
    ensures Shallower(ax, 0) == {} && Shallower(ax, ax.n) == Prefixes(ax)
  {
  }

  lemma AddedSnoc<V>(ax: Axis<V>, order: seq<Label>, g: Label, unique: bool)
    requires Shallow(order, ax.n) && |g| < ax.n && TotalsAdded(ax, order, unique).Some?
    ensures Shallow(order + [g], ax.n)
    ensures TotalsAdded(ax, order + [g], unique) == TotalAdded(ax, TotalsAdded(ax, order, unique).value, g, unique)
  {
    assert (order + [g])[..|order|] == order;
  }

  /** Inserting the totals of one level, its groups in whatever order the set yields them. */
  method AddLevel<V>(ax: Axis<V>, before: seq<Line<V>>, level: nat, unique: bool, ghost order0: seq<Label>)
    returns (r: Option<seq<Line<V>>>, ghost order: seq<Label>)
    requires Uniform(ax) && level < ax.n && Levelwise(ax, order0) && Elements(order0) == Shallower(ax, level)
    requires TotalsAdded(ax, order0, unique) == Some(before)
    ensures Levelwise(ax, order) && r == TotalsAdded(ax, order, unique)
    ensures r.Some? ==> Elements(order) == Shallower(ax, level + 1)
  {
    var lines := before;
    var subgroups := Subgroups(ax, level);
    order := order0;
    assert Done(ax, level, subgroups) == Shallower(ax, level);
    while subgroups != {}
      invariant subgroups <= Subgroups(ax, level)
      invariant Levelwise(ax, order) && Elements(order) == Done(ax, level, subgroups)
      invariant TotalsAdded(ax, order, unique) == Some(lines)
      decreases |subgroups|
    {
      var subgroup :| subgroup in subgroups;
      LevelwiseStep(ax, level, subgroups, order, subgroup);
      AddedSnoc(ax, order, subgroup, unique);
      order := order + [subgroup];
      var inserted := AddTotal(ax, lines, subgroup, unique);
      if inserted.None? {
        return None, order;
      }
      lines := inserted.value;
      subgroups := subgroups - {subgroup};
    }
    SubgroupsAre(ax, level);
    assert Done(ax, level, {}) == Shallower(ax, level + 1);
    r := Some(lines);
  }

  /** The prefixes totalled so far, when those in `todo` are left of this level. */
  ghost function Done<V>(ax: Axis<V>, level: nat, todo: set<Label>): set<Label>
    requires Uniform(ax) && level < ax.n
  {
    Shallower(ax, level) + (Subgroups(ax, level) - todo)
  }

  lemma LevelwiseStep<V>(ax: Axis<V>, level: nat, todo: set<Label>, order: seq<Label>, g: Label)
    requires Uniform(ax) && level < ax.n && g in todo && todo <= Subgroups(ax, level)
    requires Levelwise(ax, order) && Elements(order) == Done(ax, level, todo)
    ensures |g| == level && Levelwise(ax, order + [g]) && Elements(order + [g]) == Done(ax, level, todo - {g})
  {
    SubgroupsAre(ax, level);
    var longer := order + [g];
    forall i | 0 <= i < |order| ensures longer[i] != g && |longer[i]| <= |g| && IsPrefix(ax, longer[i]) {
      assert order[i] in Elements(order);
    }
    assert Elements(longer) == Elements(order) + {g};
  }

  /** Inserting the totals of an axis, level by level from the overall total to the deepest
      groups. On a regular axis the result is the order-free description of the axis with
      totals; on any other it is what the insertions give one after the other. */
  method AddTotals<V>(ax: Axis<V>, unique: bool) returns (r: Option<seq<Line<V>>>, ghost order: seq<Label>)
    requires Uniform(ax)
    ensures Levelwise(ax, order) && r == TotalsAdded(ax, order, unique)
    ensures r.Some? ==> Elements(order) == Prefixes(ax)
    ensures Regular(ax) ==> r == Some(WithTotals(ax))
  {
    var lines := ax.leaves;
    order := [];
    ShallowerEnds(ax);
    for level := 0 to ax.n
      invariant Levelwise(ax, order) && Elements(order) == Shallower(ax, level)
      invariant TotalsAdded(ax, order, unique) == Some(lines)
    {
      var next;
      next, order := AddLevel(ax, lines, level, unique, order);
      if next.None? {
        if Regular(ax) {
          TotalsAddedIs(ax, order, unique);
        }
        return None, order;
      }
      lines := next.value;
    }
    if Regular(ax) {
      TotalsAddedIs(ax, order, unique);
    }
    r := Some(lines);
  }

  lemma LevelwiseFront<V>(ax: Axis<V>, order: seq<Label>, k: nat)
    requires Uniform(ax) && Levelwise(ax, order) && k <= |order|
    ensures Levelwise(ax, order[..k])
    ensures k < |order| ==> Before(Elements(order[..k]), order[k])
  {
    if k < |order| {
      forall q | q in Elements(order[..k]) ensures q != order[k] && |q| <= |order[k]| {
        var j :| 0 <= j < k && order[..k][j] == q;
        assert order[j] == q;
      }
    }
  }

  lemma AddedStep<V>(ax: Axis<V>, order: seq<Label>, unique: bool)
    requires Shallow(order, ax.n) && order != [] && TotalsAdded(ax, order[..|order| - 1], unique).Some?
    ensures TotalsAdded(ax, order, unique) ==
            TotalAdded(ax, TotalsAdded(ax, order[..|order| - 1], unique).value, order[|order| - 1], unique)
  {
  }

  lemma ElementsStep(order: seq<Label>)
    requires order != []
    ensures Elements(order) == Elements(order[..|order| - 1]) + {order[|order| - 1]}
  {
    assert order == order[..|order| - 1] + [order[|order| - 1]];
  }

  /** Whatever the order within a level, on a regular axis the insertions add up to the
      order-free description. */
  lemma {:induction false} TotalsAddedIs<V>(ax: Axis<V>, order: seq<Label>, unique: bool)
    requires Regular(ax) && Levelwise(ax, order)
    ensures TotalsAdded(ax, order, unique) == Some(Expand(ax, Elements(order), 0, |ax.leaves|))
    decreases |order|
  {
    if order == [] {
      assert Elements(order) == {};
      ExpandNothing(ax, 0);
    } else {
      var last := |order| - 1;
      LevelwiseFront(ax, order, last);
      TotalsAddedIs(ax, order[..last], unique);
      NextGoesRight(ax, order, last, unique);
      AddedStep(ax, order, unique);
      ElementsStep(order);
    }
  }

  /** The lookup of `g` yields exactly the original lines of its group, and the label of its
      total is on no line yet. */
  ghost predicate GoesRight<V>(ax: Axis<V>, lines: seq<Line<V>>, g: Label)
    requires |g| < ax.n
  {
    var loc := GetLoc(lines, g);
    && loc.Some? && Take(lines, loc.value) == Under(ax.leaves, g)
    && !HasLabel(lines, TotalLabel(g, ax.n, ax.metricName))
  }

  lemma NextGoesRight<V>(ax: Axis<V>, order: seq<Label>, k: nat, unique: bool)
    requires Regular(ax) && Levelwise(ax, order) && k < |order|
    ensures var lines, done := Expand(ax, Elements(order[..k]), 0, |ax.leaves|), Elements(order[..k]);
            && GoesRight(ax, lines, order[k])
            && TotalAdded(ax, lines, order[k], unique) == Some(Expand(ax, done + {order[k]}, 0, |ax.leaves|))
  {
    LevelwiseFront(ax, order, k);
    assert IsPrefix(ax, order[k]);
    var i :| 0 <= i < |ax.leaves| && Carries(ax.leaves[i], order[k]);
    var slice := InsertStep(ax, Elements(order[..k]), order[k], i);
  }

  // ---------- exactly when nothing goes wrong ----------

  ghost predicate AllGoRight<V>(ax: Axis<V>, order: seq<Label>, unique: bool)
    requires Shallow(order, ax.n)
  {
    forall i :: 0 <= i < |order| ==> RightAt(ax, order, i, unique)
  }

  ghost predicate RightAt<V>(ax: Axis<V>, order: seq<Label>, i: nat, unique: bool)
    requires Shallow(order, ax.n) && i < |order|
  {
    var lines := TotalsAdded(ax, order[..i], unique);
    lines.Some? && GoesRight(ax, lines.value, order[i])
  }

  /** Where insertion at `k` puts the line that was at `i`. */
  function Moved(i: nat, k: nat): nat {
    if i < k then i else i + 1
  }

  lemma InsertMoves<T>(s: seq<T>, k: nat, x: T, i: nat)
    requires k <= |s| && i < |s|
    ensures Moved(i, k) < |InsertAt(s, k, x)| && InsertAt(s, k, x)[Moved(i, k)] == s[i]
  {
  }

  lemma InsertKeeps<T>(s: seq<T>, k: nat, x: T)
    requires k <= |s|
    ensures forall y :: y in s ==> y in InsertAt(s, k, x)
    ensures x in InsertAt(s, k, x)
  {
    assert InsertAt(s, k, x)[k] == x;
    forall y | y in s ensures y in InsertAt(s, k, x) {
      var i :| 0 <= i < |s| && s[i] == y;
      InsertMoves(s, k, x, i);
    }
  }

  /** Insertions take nothing away. */
  lemma {:induction false} AddedKeeps<V>(ax: Axis<V>, order: seq<Label>, k: nat, unique: bool)
    requires Shallow(order, ax.n) && k <= |order| && TotalsAdded(ax, order, unique).Some?
    ensures TotalsAdded(ax, order[..k], unique).Some?
    ensures forall x :: x in TotalsAdded(ax, order[..k], unique).value ==> x in TotalsAdded(ax, order, unique).value
    decreases |order|
  {
    if k == |order| {
      assert order[..k] == order;
    } else {
      var last := |order| - 1;
      assert order[..last][..k] == order[..k];
      AddedKeeps(ax, order[..last], k, unique);
      var front, g := TotalsAdded(ax, order[..last], unique).value, order[last];
      var slice := GetLoc(front, g).value;
      InsertKeeps(front, slice.stop,
                  Line(TotalLabel(g, ax.n, ax.metricName), ax.agg(Data(Take(front, slice)))));
    }
  }

  /** The original lines are never taken away. */
  lemma LeavesStay<V>(ax: Axis<V>, order: seq<Label>, unique: bool)
    requires Shallow(order, ax.n) && TotalsAdded(ax, order, unique).Some?
    ensures forall x :: x in ax.leaves ==> x in TotalsAdded(ax, order, unique).value
  {
    assert order[..0] == [];
    AddedKeeps(ax, order, 0, unique);
  }

  lemma {:induction false} UnderIn<V>(lines: seq<Line<V>>, p: Label, x: Line<V>)
    requires x in Under(lines, p)
    ensures x in lines
  {
    if lines != [] && x in Under(lines[1..], p) {
      UnderIn(lines[1..], p, x);
    }
  }

  lemma {:induction false} UnderHas<V>(lines: seq<Line<V>>, p: Label, x: Line<V>)
    requires x in lines && Carries(x, p)
    ensures x in Under(lines, p)
  {
    if x != lines[0] {
      UnderHas(lines[1..], p, x);
    }
  }

  lemma PlaceOf<V>(ax: Axis<V>, order: seq<Label>, g: Label) returns (k: nat)
    requires Uniform(ax) && Elements(order) == Prefixes(ax) && IsPrefix(ax, g) && |g| < ax.n
    ensures k < |order| && order[k] == g
  {
    PrefixesAre(ax, g);
    assert g in Elements(order);
    k :| 0 <= k < |order| && order[k] == g;
  }

  /** If nothing goes wrong, the label of no total is on an original line. */
  lemma RightIsNew<V>(ax: Axis<V>, order: seq<Label>, unique: bool, k: nat, x: Line<V>)
    requires Shallow(order, ax.n) && AllGoRight(ax, order, unique) && k < |order| && x in ax.leaves
    ensures x.path != TotalLabel(order[k], ax.n, ax.metricName)
  {
    assert RightAt(ax, order, k, unique);
    LeavesStay(ax, order[..k], unique);
    var lines := TotalsAdded(ax, order[..k], unique).value;
    assert x in lines;
    var j :| 0 <= j < |lines| && lines[j] == x;
    assert lines[j].path == x.path;
  }

  /** What an insertion puts in. */
  lemma AddedIn<V>(ax: Axis<V>, lines: seq<Line<V>>, g: Label, unique: bool) returns (x: Line<V>)
    requires |g| < ax.n && TotalAdded(ax, lines, g, unique).Some?
    ensures x in TotalAdded(ax, lines, g, unique).value && x.path == TotalLabel(g, ax.n, ax.metricName)
  {
    var slice := GetLoc(lines, g).value;
    x := Line(TotalLabel(g, ax.n, ax.metricName), ax.agg(Data(Take(lines, slice))));
    InsertKeeps(lines, slice.stop, x);
  }

  /** A total is there for good. */
  lemma TotalStays<V>(ax: Axis<V>, order: seq<Label>, a: nat, unique: bool) returns (x: Line<V>)
    requires Shallow(order, ax.n) && a < |order| && TotalsAdded(ax, order, unique).Some?
    ensures x in TotalsAdded(ax, order, unique).value && x.path == TotalLabel(order[a], ax.n, ax.metricName)
  {
    AddedKeeps(ax, order, a + 1, unique);
    x := LastAdded(ax, order[..a + 1], unique);
  }

  lemma LastAdded<V>(ax: Axis<V>, order: seq<Label>, unique: bool) returns (x: Line<V>)
    requires Shallow(order, ax.n) && order != [] && TotalsAdded(ax, order, unique).Some?
    ensures x in TotalsAdded(ax, order, unique).value
    ensures x.path == TotalLabel(order[|order| - 1], ax.n, ax.metricName)
  {
    AddedStep(ax, order, unique);
    x := AddedIn(ax, TotalsAdded(ax, order[..|order| - 1], unique).value, order[|order| - 1], unique);
  }

  /** A lookup that yields original lines meets no other line that carries the prefix. */
  lemma CarriersAreLeaves<V>(ax: Axis<V>, lines: seq<Line<V>>, g: Label, x: Line<V>)
    requires |g| < ax.n && GoesRight(ax, lines, g) && x in lines && Carries(x, g)
    ensures x in ax.leaves
  {
    GetLocTakesUnder(lines, g);
    UnderHas(lines, g, x);
    UnderIn(ax.leaves, g, x);
  }

  /** If nothing goes wrong, no lookup meets the total of a shallower group. */
  lemma RightMeetsNoTotal<V>(ax: Axis<V>, order: seq<Label>, unique: bool, a: nat, b: nat)
    requires Shallow(order, ax.n) && AllGoRight(ax, order, unique) && a < b < |order|
    ensures !(order[b] <= TotalLabel(order[a], ax.n, ax.metricName))
  {
    assert RightAt(ax, order, b, unique);
    var x := TotalStays(ax, order[..b], a, unique);
    if Carries(x, order[b]) {
      CarriersAreLeaves(ax, TotalsAdded(ax, order[..b], unique).value, order[b], x);
      RightIsNew(ax, order, unique, a, x);
    }
  }

  /** If nothing goes wrong, no label part is the name of a total at its level. */
  lemma RightIsClean<V>(ax: Axis<V>, order: seq<Label>, unique: bool, i: nat, k: nat)
    requires Uniform(ax) && Levelwise(ax, order) && Elements(order) == Prefixes(ax) && AllGoRight(ax, order, unique)
    requires i < |ax.leaves| && k < ax.n
    ensures ax.leaves[i].path[k] != TotalName(ax.metricName, k)
  {
    var path := ax.leaves[i].path;
    var q := Prefix(ax, i, k);
    assert Carries(ax.leaves[i], q);
    var a := PlaceOf(ax, order, q);
    if path[k] == TotalName(ax.metricName, k) {
      if k + 1 == ax.n {
        assert path == TotalLabel(q, ax.n, ax.metricName);
        RightIsNew(ax, order, unique, a, ax.leaves[i]);
      } else {
        var g := Prefix(ax, i, k + 1);
        assert Carries(ax.leaves[i], g);
        var b := PlaceOf(ax, order, g);
        assert g == q + [path[k]] && g <= TotalLabel(q, ax.n, ax.metricName);
        assert a < b by {
          assert |order[a]| < |order[b]|;
        }
        RightMeetsNoTotal(ax, order, unique, a, b);
      }
    }
  }

  /** Exactly when nothing goes wrong. In whatever order the sets yield the groups of a level,
      if every lookup yields exactly the original lines of its group and finds the label of
      its total new, then no label part is the name of a total at its level; and where groups
      are contiguous the converse holds as well. */
  lemma AllGoRightIff<V>(ax: Axis<V>, order: seq<Label>, unique: bool)
    requires Uniform(ax) && Levelwise(ax, order) && Elements(order) == Prefixes(ax)
    ensures AllGoRight(ax, order, unique) ==> Clean(ax.leaves, ax.metricName)
    ensures Contiguous(ax.leaves, ax.n) && Clean(ax.leaves, ax.metricName) ==> AllGoRight(ax, order, unique)
  {
    if Regular(ax) {
      forall i | 0 <= i < |order| ensures RightAt(ax, order, i, unique) {
        LevelwiseFront(ax, order, i);
        TotalsAddedIs(ax, order[..i], unique);
        NextGoesRight(ax, order, i, unique);
      }
    }
    if AllGoRight(ax, order, unique) {
      forall i, k | 0 <= i < |ax.leaves| && 0 <= k < ax.n
        ensures ax.leaves[i].path[k] != TotalName(ax.metricName, k)
      {
        RightIsClean(ax, order, unique, i, k);
      }
    }
  }

  /** Two columns of which the first belongs to a group named like the overall total. */
  function TwoColumns<V>(metricName: string, u: V, v: V, agg: seq<V> -> V): Axis<V> {
    Axis([Line([metricName, "x"], u), Line(["other", "y"], v)], 2, metricName, agg)
  }

  lemma OverallTotalFirst<V>(metricName: string, u: V, v: V, agg: seq<V> -> V)
    ensures var ax := TwoColumns(metricName, u, v, agg);
            TotalAdded(ax, ax.leaves, [], true) == Some(ax.leaves + [Line([metricName, ""], agg([u, v]))])
  {
    var ax := TwoColumns(metricName, u, v, agg);
    assert [] + ax.leaves + [] == ax.leaves;
    GetLocOf([], ax.leaves, [], []);
    assert Data(ax.leaves) == [u, v];
    assert TotalLabel([], 2, metricName) == [metricName, ""];
    assert forall i :: 0 <= i < 2 ==> ax.leaves[i].path[1] != "";
    assert InsertAt(ax.leaves, 2, Line([metricName, ""], agg([u, v]))) ==
           ax.leaves + [Line([metricName, ""], agg([u, v]))];
  }

  lemma CarriesPart<V>(x: Line<V>, part: string)
    requires x.path != []
    ensures Carries(x, [part]) <==> x.path[0] == part
  {
  }

  /** Of three lines the first and the last are a slice. */
  lemma FirstAndLast<V>(lines: seq<Line<V>>, p: Label)
    requires |lines| == 3 && Carries(lines[0], p) && !Carries(lines[1], p) && Carries(lines[2], p)
    ensures GetLoc(lines, p) == Some(Slice(0, 3, 2)) && Take(lines, Slice(0, 3, 2)) == [lines[0], lines[2]]
  {
    assert PositionsFrom(lines, p, 3) == [];
    assert PositionsFrom(lines, p, 2) == [2];
    assert PositionsFrom(lines, p, 1) == [2];
    assert PositionsFrom(lines, p, 0) == [0, 2];
    assert Taken(lines, 4, 3, 2) == [];
    assert Taken(lines, 2, 3, 2) == [lines[2]];
  }

  lemma OverallTotalTaken<V>(metricName: string, u: V, v: V, agg: seq<V> -> V)
    requires metricName != "other"
    ensures var ax := TwoColumns(metricName, u, v, agg);
            var lines := ax.leaves + [Line([metricName, ""], agg([u, v]))];
            TotalAdded(ax, lines, [metricName], true) ==
            Some(lines + [Line([metricName, SUBTOTAL], agg([u, agg([u, v])]))])
  {
    var ax := TwoColumns(metricName, u, v, agg);
    var lines := ax.leaves + [Line([metricName, ""], agg([u, v]))];
    forall i | 0 <= i < 3 ensures Carries(lines[i], [metricName]) <==> i != 1 {
      CarriesPart(lines[i], metricName);
    }
    FirstAndLast(lines, [metricName]);
    assert Data([lines[0], lines[2]]) == [u, agg([u, v])];
    var name := TotalLabel([metricName], 2, metricName);
    assert name == [metricName, SUBTOTAL];
    assert !HasLabel(lines, name) by {
      assert name[1] == SUBTOTAL && |SUBTOTAL| == 8;
      assert lines[0].path[1] == "x" && lines[1].path[1] == "y" && lines[2].path[1] == "";
    }
    var x := Line(name, agg([u, agg([u, v])]));
    assert InsertAt(lines, 3, x) == lines + [x];
  }

  /** No lookup fails there, but the overall total is counted in that group's subtotal. */
  lemma OverallTotalCounted<V>(metricName: string, u: V, v: V, agg: seq<V> -> V)
    requires metricName != "other"
    ensures var ax := TwoColumns(metricName, u, v, agg);
            TotalsAdded(ax, [[], [metricName]], true) ==
            Some(ax.leaves + [Line([metricName, ""], agg([u, v]))] +
                 [Line([metricName, SUBTOTAL], agg([u, agg([u, v])]))])
  {
    var ax := TwoColumns(metricName, u, v, agg);
    var order: seq<Label> := [[], [metricName]];
    assert order[..1] == [[]] && order[..1][..0] == [];
    OverallTotalFirst(metricName, u, v, agg);
    OverallTotalTaken(metricName, u, v, agg);
    AddedStep(ax, order[..1], true);
    AddedStep(ax, order, true);
  }

  lemma {:induction false} ExpandNothing<V>(ax: Axis<V>, lo: nat)
    requires Uniform(ax) && lo <= |ax.leaves|
    ensures Expand(ax, {}, lo, |ax.leaves|) == ax.leaves[lo..]
    ensures ax.leaves[0..] == ax.leaves
    decreases |ax.leaves| - lo
  {
    if lo < |ax.leaves| {
      ClosingNothing(ax, lo, ax.n);
      ExpandNothing(ax, lo + 1);
    }
  }

  lemma {:induction false} ClosingNothing<V>(ax: Axis<V>, i: nat, len: nat)
    requires Uniform(ax) && i < |ax.leaves| && len <= ax.n
    ensures Closing(ax, {}, i, len) == []
    decreases len
  {
    if len > 0 {
      ClosingNothing(ax, i, len - 1);
    }
  }
}
