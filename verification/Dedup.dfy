/** De-duplicating column names by suffixing a counter. */
module Dedup {
  import opened Decimal

  /** How often each fixed-case name has been seen beyond its first time. */
  type Seen = map<string, nat>

  /** The name under which an item is counted; `lower` is the case folding. */
  function Fixed(item: string, caseSensitive: bool, lower: string -> string): string {
    if caseSensitive then item else lower(item)
  }

  method DedupNames(names: seq<string>, suffix: string, caseSensitive: bool, lower: string -> string)
    returns (newNames: seq<string>)
    ensures newNames == Deduped(names, suffix, caseSensitive, lower)
    ensures |newNames| == |names|
    ensures forall i :: 0 <= i < |names| ==>
              var n := |Likes(names, i, caseSensitive, lower)|;
              newNames[i] == if n == 0 then names[i] else names[i] + suffix + Show(n)
  {
    newNames := [];
    var seen: Seen := map[];
    for i := 0 to |names|
      invariant newNames == Deduped(names[..i], suffix, caseSensitive, lower)
      invariant forall key :: key in seen <==> Count(names[..i], key, caseSensitive, lower) > 0
      invariant forall key :: key in seen ==> seen[key] == Count(names[..i], key, caseSensitive, lower) - 1
    {
      DedupedStep(names, i, suffix, caseSensitive, lower);
      var item := names[i];
      var fixed := Fixed(item, caseSensitive, lower);
      if fixed in seen {
        seen := seen[fixed := seen[fixed] + 1];
        item := item + suffix + Show(seen[fixed]);
      } else {
        seen := seen[fixed := 0];
      }
      newNames := newNames + [item];
    }
    assert names[..|names|] == names;
    DedupedIs(names, suffix, caseSensitive, lower);
  }

  // ---------- specification ----------

  /** How many of the names are counted under `key`. */
  function Count(names: seq<string>, key: string, caseSensitive: bool, lower: string -> string): nat {
    if names == [] then 0
    else
      var last := |names| - 1;
      Count(names[..last], key, caseSensitive, lower) +
      if Fixed(names[last], caseSensitive, lower) == key then 1 else 0
  }

  /** How many earlier names are counted like the one at `i`. */
  function Earlier(names: seq<string>, i: nat, caseSensitive: bool, lower: string -> string): nat
    requires i < |names|
  {
    Count(names[..i], Fixed(names[i], caseSensitive, lower), caseSensitive, lower)
  }

  function NewName(names: seq<string>, i: nat, suffix: string, caseSensitive: bool, lower: string -> string): string
    requires i < |names|
  {
    var n := Earlier(names, i, caseSensitive, lower);
    if n == 0 then names[i] else names[i] + suffix + Show(n)
  }

  function Deduped(names: seq<string>, suffix: string, caseSensitive: bool, lower: string -> string): seq<string> {
    seq(|names|, i requires 0 <= i < |names| => NewName(names, i, suffix, caseSensitive, lower))
  }

  /** The earlier places that hold the name at `i`, up to case if case does not matter. */
  function Likes(names: seq<string>, i: nat, caseSensitive: bool, lower: string -> string): set<nat>
    requires i < |names|
  {
    set j: nat | j < i && (if caseSensitive then names[j] == names[i] else lower(names[j]) == lower(names[i]))
  }

  /** Counting a key is counting the places that hold it. */
  lemma {:induction false} CountIs(names: seq<string>, k: nat, key: string, caseSensitive: bool,
                                   lower: string -> string)
    requires k <= |names|
    ensures Count(names[..k], key, caseSensitive, lower) ==
            |set j: nat | j < k && (if caseSensitive then names[j] else lower(names[j])) == key|
    decreases k
  {
    if k > 0 {
      CountIs(names, k - 1, key, caseSensitive, lower);
      assert names[..k][..k - 1] == names[..k - 1];
      PlacesStep(names, k, key, caseSensitive, lower);
    }
  }

  lemma PlacesStep(names: seq<string>, k: nat, key: string, caseSensitive: bool, lower: string -> string)
    requires 0 < k <= |names|
    ensures var fewer := set j: nat | j < k - 1 && (if caseSensitive then names[j] else lower(names[j])) == key;
            var all := set j: nat | j < k && (if caseSensitive then names[j] else lower(names[j])) == key;
            |all| == |fewer| + if (if caseSensitive then names[k - 1] else lower(names[k - 1])) == key then 1 else 0
  {
    var fewer := set j: nat | j < k - 1 && (if caseSensitive then names[j] else lower(names[j])) == key;
    var all := set j: nat | j < k && (if caseSensitive then names[j] else lower(names[j])) == key;
    if (if caseSensitive then names[k - 1] else lower(names[k - 1])) == key {
      assert all == fewer + {k - 1};
    } else {
      assert all == fewer;
    }
  }

  /** Each new name tells how many earlier names are like the old one. */
  lemma DedupedIs(names: seq<string>, suffix: string, caseSensitive: bool, lower: string -> string)
    ensures forall i :: 0 <= i < |names| ==>
              var n := |Likes(names, i, caseSensitive, lower)|;
              Deduped(names, suffix, caseSensitive, lower)[i] ==
              if n == 0 then names[i] else names[i] + suffix + Show(n)
  {
    forall i | 0 <= i < |names|
      ensures Earlier(names, i, caseSensitive, lower) == |Likes(names, i, caseSensitive, lower)|
    {
      var key := if caseSensitive then names[i] else lower(names[i]);
      CountIs(names, i, key, caseSensitive, lower);
      assert Likes(names, i, caseSensitive, lower) ==
             set j: nat | j < i && (if caseSensitive then names[j] else lower(names[j])) == key;
    }
  }

  predicate IsFirst(names: seq<string>, i: nat, caseSensitive: bool, lower: string -> string)
    requires i < |names|
  {
    Earlier(names, i, caseSensitive, lower) == 0
  }

  lemma DedupedStep(names: seq<string>, i: nat, suffix: string, caseSensitive: bool, lower: string -> string)
    requires i < |names|
    ensures Deduped(names[..i + 1], suffix, caseSensitive, lower) ==
            Deduped(names[..i], suffix, caseSensitive, lower) + [NewName(names, i, suffix, caseSensitive, lower)]
    ensures forall key :: Count(names[..i + 1], key, caseSensitive, lower) ==
                          Count(names[..i], key, caseSensitive, lower) +
                          if Fixed(names[i], caseSensitive, lower) == key then 1 else 0
  {
    assert names[..i + 1][..i] == names[..i];
    forall j | 0 <= j <= i
      ensures NewName(names[..i + 1], j, suffix, caseSensitive, lower) ==
              NewName(names, j, suffix, caseSensitive, lower)
    {
      assert names[..i + 1][..j] == names[..j];
    }
    forall j | 0 <= j < i
      ensures NewName(names[..i], j, suffix, caseSensitive, lower) == NewName(names, j, suffix, caseSensitive, lower)
    {
      assert names[..i][..j] == names[..j];
    }
  }

  // ---------- counting ----------

  lemma {:induction false} CountMonotone(names: seq<string>, a: nat, b: nat, key: string, caseSensitive: bool,
                                         lower: string -> string)
    requires a <= b <= |names|
    ensures Count(names[..a], key, caseSensitive, lower) <= Count(names[..b], key, caseSensitive, lower)
    ensures forall i :: a <= i < b && Fixed(names[i], caseSensitive, lower) == key ==>
                        Count(names[..a], key, caseSensitive, lower) < Count(names[..b], key, caseSensitive, lower)
    decreases b - a
  {
    if a < b {
      assert names[..b][..b - 1] == names[..b - 1];
      CountMonotone(names, a, b - 1, key, caseSensitive, lower);
    }
  }

  /** Items counted under the same key get different counts. */
  lemma EarlierDiffers(names: seq<string>, i: nat, j: nat, caseSensitive: bool, lower: string -> string)
    requires i < j < |names|
    requires Fixed(names[i], caseSensitive, lower) == Fixed(names[j], caseSensitive, lower)
    ensures Earlier(names, i, caseSensitive, lower) < Earlier(names, j, caseSensitive, lower)
  {
    CountMonotone(names, i, j, Fixed(names[i], caseSensitive, lower), caseSensitive, lower);
  }

  /** First occurrences keep their names, and their keys differ from one another. */
  lemma FirstsDiffer(names: seq<string>, i: nat, j: nat, caseSensitive: bool, lower: string -> string)
    requires i < j < |names| && IsFirst(names, i, caseSensitive, lower) && IsFirst(names, j, caseSensitive, lower)
    ensures names[i] != names[j]
  {
    if names[i] == names[j] {
      EarlierDiffers(names, i, j, caseSensitive, lower);
    }
  }

  // ---------- generated names ----------

  /** A suffix whose last character is no digit; the default `__` is one. */
  predicate Separates(suffix: string) {
    suffix != [] && !IsDigit(suffix[|suffix| - 1])
  }

  /** Behind such a suffix the counter can be read back, so generated names determine the
      item and the count they were made from. */
  lemma GeneratedInjective(a: string, b: string, suffix: string, m: nat, n: nat)
    requires Separates(suffix) && a + suffix + Show(m) == b + suffix + Show(n)
    ensures a == b && m == n
  {
    var x, y := a + suffix + Show(m), b + suffix + Show(n);
    CounterLength(a, b, suffix, m, n);
    CounterLength(b, a, suffix, n, m);
    assert x[|x| - |Show(m)|..] == Show(m) && y[|y| - |Show(n)|..] == Show(n);
    ShowInjective(m, n);
    assert x[..|a|] == a && y[..|b|] == b;
  }

  lemma CounterLength(a: string, b: string, suffix: string, m: nat, n: nat)
    requires Separates(suffix) && a + suffix + Show(m) == b + suffix + Show(n)
    ensures |Show(m)| <= |Show(n)|
  {
    var x, y, k := a + suffix + Show(m), b + suffix + Show(n), |Show(n)|;
    assert y[|y| - k - 1] == suffix[|suffix| - 1];
    assert forall i :: |x| - |Show(m)| <= i < |x| ==> x[i] == Show(m)[i - (|x| - |Show(m)|)];
  }

  // ---------- what the output promises ----------

  predicate Distinct(s: seq<string>) {
    forall i, j :: 0 <= i < j < |s| ==> s[i] != s[j]
  }

  /** A name kept as it was equals one that was made by suffixing. */
  ghost predicate Clash(names: seq<string>, i: nat, j: nat, suffix: string, caseSensitive: bool,
                        lower: string -> string)
    requires i < |names| && j < |names|
  {
    && IsFirst(names, i, caseSensitive, lower) && !IsFirst(names, j, caseSensitive, lower)
    && names[i] == names[j] + suffix + Show(Earlier(names, j, caseSensitive, lower))
  }

  /** The output has the input's length and keeps every first occurrence. */
  lemma KeepsLengthAndFirsts(names: seq<string>, suffix: string, caseSensitive: bool, lower: string -> string)
    ensures |Deduped(names, suffix, caseSensitive, lower)| == |names|
    ensures forall i :: 0 <= i < |names| && Likes(names, i, caseSensitive, lower) == {} ==>
                        Deduped(names, suffix, caseSensitive, lower)[i] == names[i]
  {
    forall i | 0 <= i < |names| && Likes(names, i, caseSensitive, lower) == {}
      ensures Deduped(names, suffix, caseSensitive, lower)[i] == names[i]
    {
      forall j: nat | j < i ensures Fixed(names[j], caseSensitive, lower) != Fixed(names[i], caseSensitive, lower) {
        assert j !in Likes(names, i, caseSensitive, lower);
      }
      CountNone(names[..i], Fixed(names[i], caseSensitive, lower), caseSensitive, lower);
    }
  }

  lemma {:induction false} CountNone(names: seq<string>, key: string, caseSensitive: bool, lower: string -> string)
    requires forall i :: 0 <= i < |names| ==> Fixed(names[i], caseSensitive, lower) != key
    ensures Count(names, key, caseSensitive, lower) == 0
  {
    if names != [] {
      CountNone(names[..|names| - 1], key, caseSensitive, lower);
    }
  }

  lemma NewNamesDiffer(names: seq<string>, i: nat, j: nat, suffix: string, caseSensitive: bool, lower: string -> string)
    requires Separates(suffix) && i < j < |names|
    requires !Clash(names, i, j, suffix, caseSensitive, lower) && !Clash(names, j, i, suffix, caseSensitive, lower)
    ensures NewName(names, i, suffix, caseSensitive, lower) != NewName(names, j, suffix, caseSensitive, lower)
  {
    var m, n := Earlier(names, i, caseSensitive, lower), Earlier(names, j, caseSensitive, lower);
    if m == 0 && n == 0 {
      FirstsDiffer(names, i, j, caseSensitive, lower);
    } else if m > 0 && n > 0 && names[i] + suffix + Show(m) == names[j] + suffix + Show(n) {
      GeneratedInjective(names[i], names[j], suffix, m, n);
      EarlierDiffers(names, i, j, caseSensitive, lower);
    }
  }

  /** The output is free of duplicates if and only if no name that was kept equals one that
      was made by suffixing. */
  lemma DistinctIff(names: seq<string>, suffix: string, caseSensitive: bool, lower: string -> string)
    requires Separates(suffix)
    ensures Distinct(Deduped(names, suffix, caseSensitive, lower)) <==>
            forall i, j :: 0 <= i < |names| && 0 <= j < |names| ==> !Clash(names, i, j, suffix, caseSensitive, lower)
  {
    var r := Deduped(names, suffix, caseSensitive, lower);
    if i, j :| 0 <= i < |names| && 0 <= j < |names| && Clash(names, i, j, suffix, caseSensitive, lower) {
      assert r[i] == names[i] && r[j] == r[i] && i != j;
    } else {
      forall i, j | 0 <= i < j < |r| ensures r[i] != r[j] {
        NewNamesDiffer(names, i, j, suffix, caseSensitive, lower);
      }
    }
  }

  /** The documented promise of unique values fails on three names. */
  lemma NotAlwaysUnique(lower: string -> string)
    ensures !Distinct(Deduped(["a", "a", "a__1"], "__", true, lower))
  {
    var names := ["a", "a", "a__1"];
    assert names[..0] == [] && names[..1] == ["a"] && names[..2] == ["a", "a"];
    assert names[..1][..0] == [] && names[..2][..1] == ["a"];
    assert Count(names[..1], "a", true, lower) == 1;
    CountNone(names[..2], "a__1", true, lower);
    assert "a" + "__" + Show(1) == "a__1";
    assert Clash(names, 2, 1, "__", true, lower);
    DistinctIff(names, "__", true, lower);
  }
}
