/** Append-only streams: entries with strictly increasing identifiers, and the two reads
    the readers issue against them. */
module Streams {
  import opened Wrappers
  import opened StreamIds

  datatype Entry<T> = Entry(id: Id, data: T)

  predicate Sorted<T>(s: seq<Entry<T>>) {
    forall i, j {:trigger Less(s[i].id, s[j].id)} :: 0 <= i < j < |s| ==> Less(s[i].id, s[j].id)
  }

  /** `XADD` with an automatic identifier: any identifier above the last one. */
  predicate CanAppend<T>(s: seq<Entry<T>>, id: Id) {
    s == [] || Less(s[|s| - 1].id, id)
  }

  /** The entries from identifier `start` on, inclusive. */
  function From<T>(s: seq<Entry<T>>, start: Id): (r: seq<Entry<T>>)
    ensures |r| <= |s|
  {
    if s == [] || AtMost(start, s[0].id) then s else From(s[1..], start)
  }

  /** The entries strictly after identifier `last`, as `XREAD` delivers them. */
  function After<T>(s: seq<Entry<T>>, last: Id): seq<Entry<T>> {
    From(s, Successor(last))
  }

  /** The entries with `start <= id <= end`, as `XRANGE` delivers them. */
  function Range<T>(s: seq<Entry<T>>, start: Id, end: Option<Id>): seq<Entry<T>> {
    Until(From(s, start), end)
  }

  function Until<T>(s: seq<Entry<T>>, end: Option<Id>): seq<Entry<T>> {
    if s == [] || (end.Some? && Less(end.value, s[0].id)) then [] else [s[0]] + Until(s[1..], end)
  }

  lemma HeadFirst<T>(s: seq<Entry<T>>, e: Entry<T>)
    requires Sorted(s) && s != []
    ensures e in s ==> e == s[0] || Less(s[0].id, e.id)
    ensures e in s <==> e == s[0] || e in s[1..]
  {
    if e in s {
      var j :| 0 <= j < |s| && s[j] == e;
      assert j == 0 || Less(s[0].id, s[j].id);
    }
  }

  lemma SortedTail<T>(s: seq<Entry<T>>)
    requires Sorted(s) && s != []
    ensures Sorted(s[1..])
  {
    forall i, j | 0 <= i < j < |s| - 1 ensures Less(s[1..][i].id, s[1..][j].id) {
      assert Less(s[i + 1].id, s[j + 1].id);
    }
  }

  lemma FromMember<T>(s: seq<Entry<T>>, start: Id, e: Entry<T>)
    requires Sorted(s)
    ensures e in From(s, start) <==> e in s && AtMost(start, e.id)
  {
    if s != [] {
      HeadFirst(s, e);
      if Less(s[0].id, start) {
        SortedTail(s);
        FromMember(s[1..], start, e);
      }
    }
  }

  lemma UntilMember<T>(s: seq<Entry<T>>, end: Option<Id>, e: Entry<T>)
    requires Sorted(s)
    ensures e in Until(s, end) <==> e in s && (end.Some? ==> AtMost(e.id, end.value))
  {
    if s != [] {
      HeadFirst(s, e);
      SortedTail(s);
      UntilMember(s[1..], end, e);
    }
  }

  /** A range read returns neighbouring entries, in the order of the stream. */
  lemma {:induction false} RangeIsSegment<T>(s: seq<Entry<T>>, start: Id, end: Option<Id>) returns (a: nat, b: nat)
    ensures a <= b <= |s| && Range(s, start, end) == s[a..b]
    decreases |s|
  {
    if s == [] || AtMost(start, s[0].id) {
      a := 0;
      b := UntilIsPrefix(s, end);
    } else {
      a, b := RangeIsSegment(s[1..], start, end);
      a, b := a + 1, b + 1;
    }
  }

  lemma {:induction false} UntilIsPrefix<T>(s: seq<Entry<T>>, end: Option<Id>) returns (b: nat)
    ensures b <= |s| && Until(s, end) == s[..b]
    decreases |s|
  {
    b := 0;
    if s != [] && !(end.Some? && Less(end.value, s[0].id)) {
      b := UntilIsPrefix(s[1..], end);
      b := b + 1;
    }
  }

  /** A range read returns exactly the entries whose identifier lies in the range. */
  lemma RangeMember<T>(s: seq<Entry<T>>, start: Id, end: Option<Id>, e: Entry<T>)
    requires Sorted(s)
    ensures e in Range(s, start, end) <==>
            e in s && AtMost(start, e.id) && (end.Some? ==> AtMost(e.id, end.value))
  {
    FromSorted(s, start);
    FromMember(s, start, e);
    UntilMember(From(s, start), end, e);
  }

  /** A read starting between two neighbouring entries returns the later part. */
  lemma {:induction false} FromCut<T>(s: seq<Entry<T>>, start: Id, n: nat)
    requires Sorted(s) && n <= |s|
    requires n > 0 ==> Less(s[n - 1].id, start)
    requires n < |s| ==> AtMost(start, s[n].id)
    ensures From(s, start) == s[n..]
  {
    if n > 0 {
      assert n == 1 || Less(s[0].id, s[n - 1].id);
      FromCut(s[1..], start, n - 1);
    }
  }

  /** A read starting behind entry `n` returns fewer entries than follow it. */
  lemma {:induction false} FromSkips<T>(s: seq<Entry<T>>, start: Id, n: nat)
    requires Sorted(s) && n < |s| && Less(s[n].id, start)
    ensures |From(s, start)| < |s| - n
  {
    if n > 0 {
      assert Less(s[0].id, s[n].id);
      FromSkips(s[1..], start, n - 1);
    }
  }

  lemma {:induction false} FromFrom<T>(s: seq<Entry<T>>, x: Id, y: Id)
    requires AtMost(x, y)
    ensures From(From(s, x), y) == From(s, y)
  {
    if s != [] && Less(s[0].id, x) {
      FromFrom(s[1..], x, y);
    }
  }

  lemma {:induction false} FromSorted<T>(s: seq<Entry<T>>, x: Id)
    requires Sorted(s)
    ensures Sorted(From(s, x))
  {
    if s != [] && Less(s[0].id, x) {
      FromSorted(s[1..], x);
    }
  }

  /** Reading after the identifier of entry `k` returns the entries behind it. */
  lemma AfterEntry<T>(s: seq<Entry<T>>, k: nat)
    requires Sorted(s) && k < |s|
    ensures After(s, s[k].id) == s[k + 1..]
  {
    FromCut(s, Successor(s[k].id), k + 1);
  }
}
