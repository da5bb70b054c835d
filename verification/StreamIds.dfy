/** Identifiers of stream entries: a millisecond part and a sequence number, ordered
    lexicographically and written `<ms>-<seq>`; and the two textual increments that the
    Python and the TypeScript readers use to build the start of an inclusive range. */
module StreamIds {
  import opened Wrappers
  import opened Decimal

  datatype Id = Id(ms: nat, num: nat)

  /** The largest integer up to which JavaScript numbers are exact, 2^53 - 1. */
  const MAX_SAFE_INTEGER: nat := 0x1F_FFFF_FFFF_FFFF

  predicate Less(a: Id, b: Id) {
    a.ms < b.ms || (a.ms == b.ms && a.num < b.num)
  }

  predicate AtMost(a: Id, b: Id) {
    !Less(b, a)
  }

  /** The least identifier greater than `id`. */
  function Successor(id: Id): (next: Id)
    ensures Less(id, next)
    ensures forall other :: Less(id, other) <==> AtMost(next, other)
  {
    Id(id.ms, id.num + 1)
  }

  function Render(id: Id): string {
    Show(id.ms) + "-" + Show(id.num)
  }

  /** The prefix of `s` before its first dash; all of `s` when it has none. */
  function BeforeDash(s: string): (r: string)
    ensures |r| <= |s| && r == s[..|r|] && '-' !in r
    ensures |r| == |s| || s[|r|] == '-'
  {
    if s == [] || s[0] == '-' then [] else [s[0]] + BeforeDash(s[1..])
  }

  /** How Redis reads the start of a range: a missing sequence number counts as 0. */
  function ParseStart(s: string): Option<Id> {
    var ms := BeforeDash(s);
    if ms == [] || !AllDigits(ms) then None
    else if |ms| == |s| then Some(Id(Read(ms), 0))
    else
      var rest := s[|ms| + 1..];
      if rest == [] || !AllDigits(rest) then None else Some(Id(Read(ms), Read(rest)))
  }

  /** `incrementId` of the WebSocket server. `None` where `Number` leaves the decimal
      integers it keeps exactly: those results are not part of this model. */
  function IncrementTs(id: string): Option<string> {
    var first := BeforeDash(id);
    if |first| == |id| then Some(id)
    else
      var second := BeforeDash(id[|first| + 1..]);
      if AllDigits(second) && Read(second) <= MAX_SAFE_INTEGER
      then Some(first + "-" + Show(Read(second) + 1))
      else None
  }

  /** `increment_id` of the Python API: only the last character is incremented. */
  function IncrementPy(id: string): string {
    if id == [] || !IsDigit(id[|id| - 1]) then id
    else id[..|id| - 1] + Show(DigitValue(id[|id| - 1]) + 1)
  }

  /** The sequence number that `IncrementPy` produces. */
  function PyNext(num: nat): nat {
    if num % 10 == 9 then 100 * (num / 10) + 10 else num + 1
  }

  function PyNextId(id: Id): (next: Id)
    ensures Less(id, next)
  {
    Id(id.ms, PyNext(id.num))
  }

  lemma BeforeDashOf(a: string, b: string)
    requires '-' !in a
    ensures BeforeDash(a) == a
    ensures BeforeDash(a + "-" + b) == a
  {
    if a != [] {
      BeforeDashOf(a[1..], b);
      assert (a + "-" + b)[1..] == a[1..] + "-" + b;
      assert a == [a[0]] + a[1..];
    }
  }

  lemma RenderParts(id: Id)
    ensures BeforeDash(Render(id)) == Show(id.ms)
    ensures |Show(id.ms)| < |Render(id)| && Render(id)[|Show(id.ms)| + 1..] == Show(id.num)
  {
    BeforeDashOf(Show(id.ms), Show(id.num));
  }

  lemma ParseRender(id: Id)
    ensures ParseStart(Render(id)) == Some(id)
  {
    RenderParts(id);
    ReadShow(id.ms);
    ReadShow(id.num);
  }

  lemma RenderInjective(a: Id, b: Id)
    requires Render(a) == Render(b)
    ensures a == b
  {
    ParseRender(a);
    ParseRender(b);
  }

  lemma IncrementTsIsSuccessor(id: Id)
    requires id.num <= MAX_SAFE_INTEGER
    ensures IncrementTs(Render(id)) == Some(Render(Successor(id)))
  {
    RenderParts(id);
    BeforeDashOf(Show(id.num), "");
    ReadShow(id.num);
  }

  lemma IncrementTsWithoutDash(id: string)
    ensures '-' !in id ==> IncrementTs(id) == Some(id)
  {
    if '-' !in id {
      BeforeDashOf(id, "");
    }
  }

  lemma PyDigits(num: nat)
    ensures Show(PyNext(num)) ==
            (if num < 10 then "" else Show(num / 10)) + Show(num % 10 + 1)
  {
    if num % 10 == 9 {
      var n := PyNext(num);
      assert n / 10 == 10 * (num / 10) + 1 && n % 10 == 0;
      assert Show(n) == Show(n / 10) + [DigitChar(0)];
      assert (n / 10) / 10 == num / 10 && (n / 10) % 10 == 1;
      assert Show(10) == Show(1) + [DigitChar(0)];
      if num >= 10 {
        assert Show(n / 10) == Show(num / 10) + [DigitChar(1)];
      }
    } else if num >= 10 {
      assert (num + 1) / 10 == num / 10 && (num + 1) % 10 == num % 10 + 1;
    }
  }

  lemma LastChar(front: string, head: string, c: char)
    ensures var s := front + (head + [c]);
            s[|s| - 1] == c && s[..|s| - 1] == front + head
  {
  }

  lemma Assoc(a: string, b: string, c: string)
    ensures (a + b) + c == a + (b + c)
  {
  }

  /** What the Python increment denotes, for every entry identifier. */
  lemma IncrementPyDenotes(id: Id)
    ensures IncrementPy(Render(id)) == Render(PyNextId(id))
  {
    var front, head := Show(id.ms) + "-", if id.num < 10 then "" else Show(id.num / 10);
    assert Show(id.num) == head + [DigitChar(id.num % 10)];
    LastChar(front, head, DigitChar(id.num % 10));
    PyDigits(id.num);
    Assoc(front, head, Show(id.num % 10 + 1));
  }

  /** The Python increment is the successor exactly on sequence numbers below 10 and on
      those whose last digit is not 9. */
  lemma IncrementPyIsSuccessorIff(id: Id)
    ensures IncrementPy(Render(id)) == Render(Successor(id)) <==> id.num < 10 || id.num % 10 != 9
  {
    IncrementPyDenotes(id);
    if IncrementPy(Render(id)) == Render(Successor(id)) {
      RenderInjective(PyNextId(id), Successor(id));
    }
  }

  /** The first sequence number where it fails: 19 becomes 110, stepping over 20 to 109. */
  lemma IncrementPyFails(ms: nat)
    ensures IncrementPy(Render(Id(ms, 19))) == Render(Id(ms, 110)) && Render(Id(ms, 110)) == Show(ms) + "-110"
    ensures forall num :: 20 <= num < 110 ==> Less(Id(ms, 19), Id(ms, num)) && Less(Id(ms, num), Id(ms, 110))
  {
    IncrementPyDenotes(Id(ms, 19));
    assert Show(110) == Show(11) + "0" && Show(11) == Show(1) + "1";
    assert "-" + Show(110) == "-110";
  }
}
