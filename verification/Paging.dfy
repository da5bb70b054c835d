/** The polling reader of the Python API: one page of at most 100 events of a channel,
    starting right behind the last event the client reports. */
module Paging {
  import opened Wrappers
  import opened Ordering
  import opened StreamIds
  import opened Streams

  const MAX_EVENT_COUNT: nat := 100

  datatype ReadError = CacheBackendNotInitialized | InvalidStreamId
  datatype Result<T> = Ok(value: T) | Err(error: ReadError)

  /** The event handed to the client: the entry's identifier merged into its data. */
  datatype Event<T> = Event(id: string, data: T)

  function ParseEvent<T>(e: Entry<T>): Event<T> {
    Event(Render(e.id), e.data)
  }

  function ParseEvents<T>(s: seq<Entry<T>>): seq<Event<T>> {
    seq(|s|, i requires 0 <= i < |s| => ParseEvent(s[i]))
  }

  /** `read_events`, given the backend's content of the channel stream, if there is one. */
  function ReadEvents<T>(cache: Option<seq<Entry<T>>>, lastId: Option<string>): Result<seq<Event<T>>> {
    if cache.None? then Err(CacheBackendNotInitialized)
    else if lastId.None? || lastId.value == "" then Ok(ParseEvents(FirstPage(cache.value)))
    else
      match ParseStart(IncrementPy(lastId.value))
      case None => Err(InvalidStreamId)
      case Some(start) => Ok(ParseEvents(FirstPage(From(cache.value, start))))
  }

  function FirstPage<T>(s: seq<Entry<T>>): seq<Entry<T>> {
    s[..Min(|s|, MAX_EVENT_COUNT)]
  }

  /** What a client still sees of the stream that last received the entry `last`. */
  function View<T>(cache: seq<Entry<T>>, last: Option<Id>): seq<Entry<T>> {
    if last.None? then cache else From(cache, PyNextId(last.value))
  }

  function Page<T>(cache: seq<Entry<T>>, last: Option<Id>): seq<Entry<T>> {
    FirstPage(View(cache, last))
  }

  function LastIdParam(last: Option<Id>): Option<string> {
    if last.None? then None else Some(Render(last.value))
  }

  /** The textual round trip of `ReadEvents`: passing back the identifier of an event that
      was received yields the page `Page`. */
  lemma ReadEventsIsPage<T>(cache: seq<Entry<T>>, last: Option<Id>)
    ensures ReadEvents(Some(cache), LastIdParam(last)) == Ok(ParseEvents(Page(cache, last)))
  {
    if last.Some? {
      IncrementPyDenotes(last.value);
      ParseRender(PyNextId(last.value));
      assert |Render(last.value)| > 0;
    }
  }

  lemma {:induction false} FromSplits<T>(s: seq<Entry<T>>, start: Id) returns (k: nat)
    requires Sorted(s)
    ensures k <= |s| && From(s, start) == s[k..]
    ensures forall j :: 0 <= j < |s| ==> (AtMost(start, s[j].id) <==> k <= j)
  {
    k := 0;
    while k < |s| && Less(s[k].id, start)
      invariant k <= |s| && From(s, start) == From(s[k..], start)
      invariant forall j :: 0 <= j < k ==> Less(s[j].id, start)
    {
      assert s[k..][1..] == s[k + 1..];
      k := k + 1;
    }
    forall j | k <= j < |s| ensures AtMost(start, s[j].id) {
      assert k == j || Less(s[k].id, s[j].id);
    }
  }

  /** The events of a page are the entries `k`, `k + 1`, ... of the stream, at most 100. */
  ghost predicate EventsAre<T>(events: seq<Event<T>>, cache: seq<Entry<T>>, k: nat) {
    && k <= |cache| && |events| == (if |cache| - k < 100 then |cache| - k else 100)
    && (forall i :: 0 <= i < |events| ==>
                    events[i].id == Render(cache[k + i].id) && events[i].data == cache[k + i].data)
  }

  /** What `read_events` returns: without a backend an error; without a last identifier the
      first events of the stream, at most 100; behind an identifier whose increment cannot be
      read an error, and otherwise the first events, at most 100, of those at or above the
      increment: with their identifiers and data, in the order of the stream. */
  lemma ReadEventsReturns<T>(cache: seq<Entry<T>>, lastId: Option<string>) returns (k: nat)
    requires Sorted(cache)
    ensures ReadEvents<T>(None, lastId) == Err(CacheBackendNotInitialized)
    ensures lastId.None? || lastId.value == "" ==>
              ReadEvents(Some(cache), lastId).Ok? && EventsAre(ReadEvents(Some(cache), lastId).value, cache, 0)
    ensures lastId.Some? && lastId.value != "" ==>
              match ParseStart(IncrementPy(lastId.value))
              case None => ReadEvents(Some(cache), lastId) == Err(InvalidStreamId)
              case Some(start) =>
                && ReadEvents(Some(cache), lastId).Ok?
                && EventsAre(ReadEvents(Some(cache), lastId).value, cache, k)
                && (forall j :: 0 <= j < |cache| ==> (AtMost(start, cache[j].id) <==> k <= j))
  {
    k := 0;
    if lastId.Some? && lastId.value != "" && ParseStart(IncrementPy(lastId.value)).Some? {
      k := FromSplits(cache, ParseStart(IncrementPy(lastId.value)).value);
    }
  }

  /** Passing back the identifier of an event that was received: its increment can be read. */
  lemma ReadEventsAfter<T>(cache: seq<Entry<T>>, last: Id) returns (k: nat)
    requires Sorted(cache)
    ensures ReadEvents(Some(cache), Some(Render(last))).Ok?
    ensures EventsAre(ReadEvents(Some(cache), Some(Render(last))).value, cache, k)
    ensures forall j :: 0 <= j < |cache| ==> (AtMost(PyNextId(last), cache[j].id) <==> k <= j)
  {
    k := ReadEventsReturns(cache, Some(Render(last)));
    IncrementPyDenotes(last);
    ParseRender(PyNextId(last));
    assert |Render(last)| > 0;
  }

  /** `read_events` of one stream. */
  function Reader<T>(cache: seq<Entry<T>>): Option<string> -> Result<seq<Event<T>>> {
    (lastId: Option<string>) => ReadEvents(Some(cache), lastId)
  }

  /** What a client collects that keeps asking with the last identifier it received, until
      a page comes back empty. */
  function Poll<T>(read: Option<string> -> Result<seq<Event<T>>>, lastId: Option<string>, rounds: nat)
    : seq<Event<T>>
    decreases rounds
  {
    match read(lastId)
    case Err(_) => []
    case Ok(events) =>
      if events == [] || rounds == 0 then events
      else events + Poll(read, Some(events[|events| - 1].id), rounds - 1)
  }

  /** The same in terms of entries and identifiers. */
  function PollEntries<T>(cache: seq<Entry<T>>, last: Option<Id>, rounds: nat): seq<Entry<T>>
    decreases rounds
  {
    var page := Page(cache, last);
    if page == [] || rounds == 0 then page
    else page + PollEntries(cache, Some(page[|page| - 1].id), rounds - 1)
  }

  /** A reader that returns the pages of the stream. */
  ghost predicate ReadsPages<T>(read: Option<string> -> Result<seq<Event<T>>>, cache: seq<Entry<T>>) {
    forall last :: ReadsPage(read, cache, last)
  }

  ghost predicate ReadsPage<T>(read: Option<string> -> Result<seq<Event<T>>>, cache: seq<Entry<T>>, last: Option<Id>) {
    read(LastIdParam(last)) == Ok(ParseEvents(Page(cache, last)))
  }

  lemma {:induction false} PollIsEntries<T>(read: Option<string> -> Result<seq<Event<T>>>, cache: seq<Entry<T>>,
                                            last: Option<Id>, rounds: nat)
    requires ReadsPages(read, cache)
    ensures Poll(read, LastIdParam(last), rounds) == ParseEvents(PollEntries(cache, last, rounds))
    decreases rounds
  {
    assert ReadsPage(read, cache, last);
    var page := Page(cache, last);
    if page != [] && rounds > 0 {
      var next := Some(page[|page| - 1].id);
      PollIsEntries(read, cache, next, rounds - 1);
      PollBoth(read, cache, last, rounds, page, next);
    }
  }

  lemma PollBoth<T>(read: Option<string> -> Result<seq<Event<T>>>, cache: seq<Entry<T>>, last: Option<Id>,
                    rounds: nat, page: seq<Entry<T>>, next: Option<Id>)
    requires read(LastIdParam(last)) == Ok(ParseEvents(page)) && page == Page(cache, last) && page != [] && rounds > 0
    requires next == Some(page[|page| - 1].id)
    requires Poll(read, LastIdParam(next), rounds - 1) == ParseEvents(PollEntries(cache, next, rounds - 1))
    ensures Poll(read, LastIdParam(last), rounds) == ParseEvents(PollEntries(cache, last, rounds))
  {
    PollNext(read, LastIdParam(last), page, rounds);
    PollStep(cache, last, rounds, page, |page|);
    ParseAppend(page, PollEntries(cache, next, rounds - 1));
  }

  lemma PollNext<T>(read: Option<string> -> Result<seq<Event<T>>>, lastId: Option<string>, page: seq<Entry<T>>,
                    rounds: nat)
    requires read(lastId) == Ok(ParseEvents(page)) && page != [] && rounds > 0
    ensures Poll(read, lastId, rounds) ==
            ParseEvents(page) + Poll(read, LastIdParam(Some(page[|page| - 1].id)), rounds - 1)
  {
    assert ParseEvents(page)[|page| - 1].id == Render(page[|page| - 1].id);
  }

  lemma PollOfStream<T>(cache: seq<Entry<T>>, rounds: nat)
    ensures Poll(Reader(cache), None, rounds) == ParseEvents(PollEntries(cache, None, rounds))
  {
    forall last ensures ReadsPage(Reader(cache), cache, last) {
      ReadEventsIsPage(cache, last);
    }
    PollIsEntries(Reader(cache), cache, None, rounds);
  }

  lemma ParseAppend<T>(a: seq<Entry<T>>, b: seq<Entry<T>>)
    ensures ParseEvents(a + b) == ParseEvents(a) + ParseEvents(b)
  {
  }

  /** The events are those of the entries, one by one. */
  ghost predicate Delivers<T>(events: seq<Event<T>>, entries: seq<Entry<T>>) {
    && |events| == |entries|
    && (forall i :: 0 <= i < |events| ==> events[i].id == Render(entries[i].id) && events[i].data == entries[i].data)
  }

  lemma DeliversSame<T>(a: seq<Entry<T>>, b: seq<Entry<T>>)
    ensures Delivers(ParseEvents(a), b) <==> a == b
  {
    if Delivers(ParseEvents(a), b) {
      forall i | 0 <= i < |a| ensures a[i] == b[i] {
        assert ParseEvents(a)[i].id == Render(b[i].id);
        RenderInjective(a[i].id, b[i].id);
      }
    }
  }

  /** The entries that survive the page boundaries, reading on from the suffix `s`. */
  ghost function Drain<T>(s: seq<Entry<T>>): seq<Entry<T>>
    requires Sorted(s)
    decreases |s|
  {
    if s == [] then []
    else
      var n := Min(|s|, MAX_EVENT_COUNT);
      PageRest(s, n);
      s[..n] + Drain(From(s, PyNextId(s[n - 1].id)))
  }

  lemma PageRest<T>(s: seq<Entry<T>>, n: nat)
    requires Sorted(s) && 0 < n <= |s|
    ensures var rest := From(s, PyNextId(s[n - 1].id));
            |rest| <= |s| - n && Sorted(rest)
  {
    FromSorted(s, PyNextId(s[n - 1].id));
    FromSkips(s, PyNextId(s[n - 1].id), n - 1);
  }

  lemma DrainStep<T>(s: seq<Entry<T>>, n: nat, rest: seq<Entry<T>>)
    requires Sorted(s) && s != [] && n == Min(|s|, MAX_EVENT_COUNT)
    requires rest == From(s, PyNextId(s[n - 1].id))
    ensures |rest| <= |s| - n && Sorted(rest)
    ensures Drain(s) == s[..n] + Drain(rest)
  {
    PageRest(s, n);
  }

  lemma PollStep<T>(cache: seq<Entry<T>>, last: Option<Id>, rounds: nat, page: seq<Entry<T>>, n: nat)
    requires page == Page(cache, last) && n > 0 && n == |page| && rounds > 0
    ensures PollEntries(cache, last, rounds) == page + PollEntries(cache, Some(page[n - 1].id), rounds - 1)
  {
  }

  /** The call behind a page of `n` entries sees what `From` leaves of the previous view. */
  lemma NextCall<T>(cache: seq<Entry<T>>, last: Option<Id>, n: nat)
    requires Sorted(cache) && 0 < n <= |View(cache, last)|
    ensures var s := View(cache, last);
            Sorted(s) && View(cache, Some(s[n - 1].id)) == From(s, PyNextId(s[n - 1].id))
  {
    if last.Some? {
      var start := PyNextId(last.value);
      FromSorted(cache, start);
      var s := From(cache, start);
      FromMember(cache, start, s[n - 1]);
      FromFrom(cache, start, PyNextId(s[n - 1].id));
    }
  }

  /** Polling collects exactly `Drain` of what the next call sees, given enough rounds. */
  lemma {:induction false} PollDrains<T>(cache: seq<Entry<T>>, last: Option<Id>, rounds: nat)
    requires Sorted(cache) && Sorted(View(cache, last)) && |View(cache, last)| <= rounds
    ensures PollEntries(cache, last, rounds) == Drain(View(cache, last))
    decreases rounds
  {
    var s := View(cache, last);
    if s != [] {
      var n := Min(|s|, MAX_EVENT_COUNT);
      var next := Some(s[n - 1].id);
      NextCall(cache, last, n);
      DrainStep(s, n, View(cache, next));
      PollDrains(cache, next, rounds - 1);
      PollStep(cache, last, rounds, FirstPage(s), n);
    }
  }

  /** Nothing lies between the identifier ending a page at boundary `b` and the start
      that the Python increment makes of it. */
  ghost predicate BoundaryExact<T>(s: seq<Entry<T>>, b: nat)
    requires 0 < b < |s|
  {
    AtMost(PyNextId(s[b - 1].id), s[b].id)
  }

  ghost predicate BoundariesExact<T>(s: seq<Entry<T>>) {
    forall b :: 0 < b < |s| && b % MAX_EVENT_COUNT == 0 ==> BoundaryExact(s, b)
  }

  lemma BoundariesExactStep<T>(s: seq<Entry<T>>)
    requires |s| > MAX_EVENT_COUNT
    ensures BoundariesExact(s) <==>
            BoundaryExact(s, MAX_EVENT_COUNT) && BoundariesExact(s[MAX_EVENT_COUNT..])
  {
    var n := MAX_EVENT_COUNT;
    var rest := s[n..];
    if BoundariesExact(s) {
      forall b | 0 < b < |rest| && b % n == 0 ensures BoundaryExact(rest, b) {
        assert BoundaryExact(s, n + b);
      }
    }
    if BoundaryExact(s, n) && BoundariesExact(rest) {
      forall b | 0 < b < |s| && b % n == 0 ensures BoundaryExact(s, b) {
        if b > n {
          assert (b - n) % n == 0;
          assert BoundaryExact(rest, b - n);
        }
      }
    }
  }

  /** The next page starts right behind this one exactly if the boundary is exact. */
  lemma NextPage<T>(s: seq<Entry<T>>, n: nat)
    requires Sorted(s) && 0 < n < |s|
    ensures BoundaryExact(s, n) ==> From(s, PyNextId(s[n - 1].id)) == s[n..]
    ensures !BoundaryExact(s, n) ==> |From(s, PyNextId(s[n - 1].id))| < |s| - n
  {
    var start := PyNextId(s[n - 1].id);
    if BoundaryExact(s, n) {
      FromCut(s, start, n);
    } else {
      FromSkips(s, start, n);
    }
  }

  lemma {:induction false} DrainSound<T>(s: seq<Entry<T>>)
    requires Sorted(s)
    ensures |Drain(s)| <= |s| && Sorted(Drain(s))
    ensures forall e :: e in Drain(s) ==> e in s
    decreases |s|
  {
    if s != [] {
      var n := Min(|s|, MAX_EVENT_COUNT);
      PageRest(s, n);
      var start := PyNextId(s[n - 1].id);
      var rest := From(s, start);
      DrainSound(rest);
      forall e | e in Drain(rest) ensures e in s && Less(s[n - 1].id, e.id) {
        FromMember(s, start, e);
      }
      SortedAppend(s[..n], Drain(rest));
    }
  }

  lemma AppendCancels<T>(a: seq<T>, b: seq<T>, c: seq<T>)
    ensures a + b == a + c <==> b == c
  {
    assert (a + b)[|a|..] == b && (a + c)[|a|..] == c;
  }

  lemma {:induction false} DrainComplete<T>(s: seq<Entry<T>>)
    requires Sorted(s)
    ensures Drain(s) == s <==> BoundariesExact(s)
    decreases |s|
  {
    var n := MAX_EVENT_COUNT;
    if |s| > n {
      var rest := From(s, PyNextId(s[n - 1].id));
      DrainStep(s, n, rest);
      NextPage(s, n);
      BoundariesExactStep(s);
      DrainSound(rest);
      if BoundaryExact(s, n) {
        DrainComplete(rest);
        AppendCancels(s[..n], Drain(rest), rest);
        SplitAt(s, n);
      }
    } else {
      DrainLastPage(s);
      NoBoundary(s);
    }
  }

  lemma SplitAt<T>(s: seq<T>, n: nat)
    requires n <= |s|
    ensures s == s[..n] + s[n..]
    ensures s[|s|..] == []
  {
  }

  lemma NoBoundary<T>(s: seq<Entry<T>>)
    requires |s| <= MAX_EVENT_COUNT
    ensures BoundariesExact(s)
  {
  }

  lemma DrainLastPage<T>(s: seq<Entry<T>>)
    requires Sorted(s) && |s| <= MAX_EVENT_COUNT
    ensures Drain(s) == s
  {
    if s != [] {
      SplitAt(s, |s|);
      DrainStep(s, |s|, From(s, PyNextId(s[|s| - 1].id)));
    }
  }

  lemma SortedAppend<T>(a: seq<Entry<T>>, b: seq<Entry<T>>)
    requires Sorted(a) && Sorted(b)
    requires forall e :: e in b && a != [] ==> Less(a[|a| - 1].id, e.id)
    ensures Sorted(a + b)
  {
    forall i, j | 0 <= i < j < |a + b| ensures Less((a + b)[i].id, (a + b)[j].id) {
      if i < |a| <= j {
        assert b[j - |a|] in b;
        assert i == |a| - 1 || Less(a[i].id, a[|a| - 1].id);
      }
    }
  }

  /** A client that polls a fixed stream from its beginning receives the events of the whole
      stream, in order and once each, if and only if no entry lies in the gap that the
      increment leaves behind the last entry of a full page. */
  lemma PollingIsCompleteIff<T>(cache: seq<Entry<T>>, rounds: nat)
    requires Sorted(cache) && |cache| <= rounds
    ensures Delivers(Poll(Reader(cache), None, rounds), cache) <==> BoundariesExact(cache)
  {
    PollOfStream(cache, rounds);
    PollDrains(cache, None, rounds);
    DrainComplete(cache);
    DeliversSame(Drain(cache), cache);
  }

  /** In particular it is complete when every full page ends where the Python increment is
      the successor. */
  lemma PollingIsComplete<T>(cache: seq<Entry<T>>, rounds: nat)
    requires Sorted(cache) && |cache| <= rounds
    requires forall b :: 0 < b < |cache| && b % 100 == 0 ==>
                           cache[b - 1].id.num < 10 || cache[b - 1].id.num % 10 != 9
    ensures Delivers(Poll(Reader(cache), None, rounds), cache)
  {
    forall b | 0 < b < |cache| && b % MAX_EVENT_COUNT == 0 ensures BoundaryExact(cache, b) {
      assert Less(cache[b - 1].id, cache[b].id);
    }
    PollingIsCompleteIff(cache, rounds);
  }

  /** Whatever the increments skip, no event is returned twice, out of order or from
      elsewhere. */
  lemma PollingNeverRepeats<T>(cache: seq<Entry<T>>, rounds: nat) returns (entries: seq<Entry<T>>)
    requires Sorted(cache) && |cache| <= rounds
    ensures Delivers(Poll(Reader(cache), None, rounds), entries)
    ensures Sorted(entries) && forall e :: e in entries ==> e in cache
  {
    entries := PollEntries(cache, None, rounds);
    PollOfStream(cache, rounds);
    PollDrains(cache, None, rounds);
    DrainSound(cache);
    DeliversSame(entries, entries);
  }

  /** A stream of 120 events of one millisecond, in which polling loses events: the first
      page ends at number 99, whose increment is read as 910. */
  lemma PollingLosesEvents(cache: seq<Entry<nat>>)
    requires |cache| == 120
    requires forall i :: 0 <= i < |cache| ==> cache[i] == Entry(Id(7, i), i)
    ensures !Delivers(Poll(Reader(cache), None, 120), cache)
    ensures ReadEvents(Some(cache), Some(Render(Id(7, 99)))) == Ok([])
  {
    assert !BoundaryExact(cache, 100);
    PollingIsCompleteIff(cache, 120);
    ReadEventsIsPage(cache, Some(Id(7, 99)));
    FromSkips(cache, PyNextId(Id(7, 99)), 119);
  }
}
