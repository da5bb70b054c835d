/** What the delivery protocol guarantees over every run from the initial state. */
module DeliveryTheorems {
  import opened Wrappers
  import opened StreamIds
  import opened Streams
  import opened SocketRegistry
  import opened WebSocketServer
  import opened DeliveryProtocol
  import opened DeliveryInvariants

  lemma Reachable(run: seq<Label>)
    requires Legal(INIT, run)
    ensures Inv(Final(INIT, run))
  {
    InitInv();
    RunInv(INIT, run);
  }

  /** Under any interleaving, the events in the global stream are those of the channel
      streams, less exactly the ones whose publisher is between its appends or failed
      there. */
  lemma PublishedAccounting(run: seq<Label>, c: ChannelId)
    requires Legal(INIT, run)
    ensures var s := Final(INIT, run);
            Numbers(Scoped(s, c)) == ChannelNumbers(s.full, c) + multiset(Pending(s, c))
  {
    Reachable(run);
  }

  /** The registry invariant holds whatever connects, answers, fails or is cleaned up. */
  lemma RegistryAlwaysValid(run: seq<Label>)
    requires Legal(INIT, run)
    ensures Valid(Final(INIT, run).reg)
  {
    Reachable(run);
  }

  /** The firehose hands over one contiguous segment of the global stream, in order and
      once each, ending at the cursor. */
  lemma FirehoseContiguous(run: seq<Label>)
    requires Legal(INIT, run)
    ensures var s := Final(INIT, run);
            CursorAt(s.full, FirehosePart(s.log), s.cursor, s.first, s.pos)
  {
    Reachable(run);
  }

  /** The cursor never moves back, and once it is concrete the segment keeps its start. */
  lemma {:induction false} CursorMonotone(s: System, run: seq<Label>)
    requires Inv(s) && Legal(s, run)
    ensures s.pos <= Final(s, run).pos
    ensures s.first < s.pos ==> Final(s, run).first == s.first
    decreases |run|
  {
    if run != [] {
      StepGrows(s, run[0]);
      StepCursor(s, run[0]);
      StepInv(s, run[0]);
      CursorMonotone(Next(s, run[0]), run[1..]);
    }
  }

  /** A live socket has been sent exactly what the listener was handed since the socket
      connected, restricted to its channel: in order, once per hand-over, nothing else. */
  lemma LiveSocketSees(run: seq<Label>, id: SocketId)
    requires Legal(INIT, run) && Live(Final(INIT, run).reg, id)
    ensures var s := Final(INIT, run);
            id in s.conns && s.conns[id].logFrom <= |s.log| &&
            SendsTo(s.sent, id) == ChannelMessages(Untag(s.log[s.conns[id].logFrom..]), s.conns[id].channel)
  {
    Reachable(run);
    var s := Final(INIT, run);
    assert ConnOk(s, id, s.conns[id]);
    assert SentOk(s, id);
  }

  /** The run `run` continued by one step. */
  lemma {:induction false} Snoc(s: System, run: seq<Label>, l: Label)
    requires Legal(s, run) && Enabled(Final(s, run), l)
    ensures Legal(s, run + [l]) && Final(s, run + [l]) == Next(Final(s, run), l)
    decreases |run|
  {
    if run == [] {
      assert [l][1..] == [];
    } else {
      Snoc(Next(s, run[0]), run[1..], l);
      assert (run + [l])[1..] == run[1..] + [l];
    }
  }

  // ---------- upkeep ----------

  lemma SnocTwice(run: seq<Label>, l: Label, k: Label)
    requires Legal(INIT, run) && Enabled(Final(INIT, run), l) && Enabled(Next(Final(INIT, run), l), k)
    ensures Legal(INIT, run + [l] + [k]) && Final(INIT, run + [l] + [k]) == Next(Next(Final(INIT, run), l), k)
  {
    Snoc(INIT, run, l);
    Snoc(INIT, run + [l], k);
  }

  /** In any run, a check followed by a collection pass leaves exactly the sockets that are
      open or connecting and answered in time, and `channels` groups them. */
  lemma UpkeepIsComplete(run: seq<Label>, clock: SocketId -> int, timeout: int)
    requires Legal(INIT, run)
    ensures var longer := run + [CheckAll(clock, timeout)] + [GcPass];
            && Legal(INIT, longer)
            && var before, after := Final(INIT, run).reg, Final(INIT, longer).reg;
               && IsGrouping(after)
               && (forall id :: id in after.sockets <==>
                     id in before.sockets && clock(id) - before.sockets[id].pongTs < timeout &&
                     (before.sockets[id].ready == ReadyState.Open || before.sockets[id].ready == ReadyState.Connecting))
  {
    Reachable(run);
    SnocTwice(run, CheckAll(clock, timeout), GcPass);
    CollectedIsGrouping(Final(INIT, run).reg, clock, timeout);
  }

  /** A pong carries an open socket over the next check, if that comes in time. */
  lemma PongCarriesOver(run: seq<Label>, id: SocketId, now: int, clock: SocketId -> int, timeout: int)
    requires Legal(INIT, run) && Live(Final(INIT, run).reg, id) && clock(id) - now < timeout
    ensures var longer := run + [PongReceived(id, now)] + [CheckAll(clock, timeout)];
            Legal(INIT, longer) && Live(Final(INIT, longer).reg, id)
  {
    SnocTwice(run, PongReceived(id, now), CheckAll(clock, timeout));
  }

  /** A closed socket is forgotten by the next check. */
  lemma ClosedIsForgotten(run: seq<Label>, id: SocketId, clock: SocketId -> int, timeout: int)
    requires Legal(INIT, run)
    ensures var longer := run + [SocketMoves(id, ReadyState.Closed)] + [CheckAll(clock, timeout)];
            Legal(INIT, longer) && id !in Final(INIT, longer).reg.sockets
  {
    Reachable(run);
    ChangeStateValid(Final(INIT, run).reg, id, ReadyState.Closed);
    SnocTwice(run, SocketMoves(id, ReadyState.Closed), CheckAll(clock, timeout));
  }

  /** So does the time of a connection. */
  lemma ConnectionCarriesOver(run: seq<Label>, id: SocketId, channel: ChannelId, last: Option<Id>, now: int,
                              clock: SocketId -> int, timeout: int)
    requires Legal(INIT, run) && id !in Final(INIT, run).conns && clock(id) - now < timeout
    ensures var longer := run + [Connect(id, channel, last, now)] + [CheckAll(clock, timeout)];
            Legal(INIT, longer) && Live(Final(INIT, longer).reg, id)
  {
    SnocTwice(run, Connect(id, channel, last, now), CheckAll(clock, timeout));
  }

  // ---------- failures ----------

  lemma {:induction false} FailedJobStays(s: System, run: seq<Label>, no: nat)
    requires Legal(s, run) && no in s.jobs && s.jobs[no].stage == Stage.Failed
    ensures no in Final(s, run).jobs && Final(s, run).jobs[no] == s.jobs[no]
    decreases |run|
  {
    if run != [] {
      StepGrows(s, run[0]);
      FailedJobStays(Next(s, run[0]), run[1..], no);
    }
  }

  /** A publisher may fail at any time between its appends. Its event then stays in the
      channel's stream alone, whatever happens later. */
  lemma FailedNeverPasses(run: seq<Label>, no: nat, more: seq<Label>)
    requires Legal(INIT, run) && no in Final(INIT, run).jobs && Final(INIT, run).jobs[no].stage.Appended?
    ensures Legal(INIT, run + [PublishFail(no)])
    ensures var s := Final(INIT, run + [PublishFail(no)]);
            Legal(s, more) ==>
              var t := Final(s, more);
              && (forall x :: x in t.full && x.data.Decoded? ==> x.data.event.no != no)
              && no in t.jobs && IsScoped(t, t.jobs[no].event)
  {
    Snoc(INIT, run, PublishFail(no));
    Reachable(run + [PublishFail(no)]);
    var s := Final(INIT, run + [PublishFail(no)]);
    if Legal(s, more) {
      FailedJobStays(s, more, no);
      RunInv(s, more);
    }
  }

  lemma FailedReadKept(s: System, l: Label, id: SocketId)
    requires Enabled(s, l) && id in s.conns && s.conns[id].catchUp.ReadFailed?
    ensures id in Next(s, l).conns && Next(s, l).conns[id] == s.conns[id]
  {
  }

  lemma {:induction false} FailedReadStays(s: System, run: seq<Label>, id: SocketId)
    requires Legal(s, run) && id in s.conns && s.conns[id].catchUp.ReadFailed?
    ensures id in Final(s, run).conns && Final(s, run).conns[id].catchUp.ReadFailed?
    decreases |run|
  {
    if run != [] {
      FailedReadKept(s, run[0], id);
      FailedReadStays(Next(s, run[0]), run[1..], id);
    }
  }

  /** A range read may fail instead of being answered. Nothing is then ever handed over on
      behalf of that connection. */
  lemma FailedReadBringsNothing(run: seq<Label>, id: SocketId, more: seq<Label>)
    requires Legal(INIT, run) && id in Final(INIT, run).conns && Final(INIT, run).conns[id].catchUp.Asked?
    ensures Legal(INIT, run + [FetchFails(id)])
    ensures var s := Final(INIT, run + [FetchFails(id)]);
            Legal(s, more) ==> forall h :: h in Final(s, more).log ==> h.source != CatchUpOf(id)
  {
    Snoc(INIT, run, FetchFails(id));
    Reachable(run + [FetchFails(id)]);
    var s := Final(INIT, run + [FetchFails(id)]);
    if Legal(s, more) {
      FailedReadStays(s, more, id);
      RunInv(s, more);
    }
  }

  /** Entries that nobody can decode may turn up in either stream, and change nothing else. */
  lemma ForeignTurnsUp(run: seq<Label>, stream: Option<ChannelId>, id: Id)
    requires Legal(INIT, run)
    requires CanAppend(if stream.None? then Final(INIT, run).full else Scoped(Final(INIT, run), stream.value), id)
    ensures Legal(INIT, run + [Foreign(stream, id)])
    ensures var s, t := Final(INIT, run), Final(INIT, run + [Foreign(stream, id)]);
            if stream.None? then t == s.(full := s.full + [Entry(id, Undecodable)])
            else t == s.(scoped := t.scoped) &&
                 Scoped(t, stream.value) == Scoped(s, stream.value) + [Entry(id, Undecodable)]
  {
    Snoc(INIT, run, Foreign(stream, id));
  }

  // ---------- catch-up ----------

  ghost predicate SentEvent(s: System, id: SocketId, event: Event) {
    exists m :: m in SendsTo(s.sent, id) && m.event == event
  }

  /** The event lies in the range that the connection asked its channel stream for. */
  ghost predicate InOwnRange(s: System, k: Conn, event: Event) {
    exists x :: x in Scoped(s, k.channel) && x.data == Decoded(event) && InRange(k, x.id)
  }

  /** Another connection of the channel was caught up with the event in the meantime. */
  ghost predicate CaughtUpByOther(s: System, id: SocketId, event: Event)
    requires id in s.conns && s.conns[id].logFrom <= |s.log|
  {
    exists h :: h in s.log[s.conns[id].logFrom..] && h.source.CatchUpOf? && h.source != CatchUpOf(id) &&
                h.entry.data == Decoded(event)
  }

  lemma SentEventIffHanded(s: System, id: SocketId, event: Event)
    requires Live(s.reg, id) && id in s.conns && s.conns[id].logFrom <= |s.log| && SentOk(s, id)
    requires event.channel == s.conns[id].channel
    ensures SentEvent(s, id, event) <==>
            exists h :: h in s.log[s.conns[id].logFrom..] && h.entry.data == Decoded(event)
  {
    var k := s.conns[id];
    var seen := s.log[k.logFrom..];
    if SentEvent(s, id, event) {
      var m :| m in SendsTo(s.sent, id) && m.event == event;
      ChannelMessagesMember(Untag(seen), k.channel, m);
      UntagMember(seen, Entry(m.id, Decoded(event)));
    }
    if h :| h in seen && h.entry.data == Decoded(event) {
      UntagMember(seen, h.entry);
      ChannelMessagesMember(Untag(seen), k.channel, Message(h.entry.id, event));
      assert Message(h.entry.id, event) in SendsTo(s.sent, id);
    }
  }

  /** A live connection, made at a concrete cursor, whose range read has been processed. */
  ghost predicate CaughtUp(s: System, id: SocketId) {
    && Live(s.reg, id) && id in s.conns && s.conns[id].logFrom <= |s.log|
    && s.conns[id].end.Some? && s.conns[id].catchUp.Replied?
  }

  /** The firehose has passed global entry `i`, an event of channel `c`. */
  ghost predicate Passed(s: System, i: nat, c: ChannelId) {
    i < s.pos <= |s.full| && s.full[i].data.Decoded? && s.full[i].data.event.channel == c
  }

  lemma SegmentMember<T>(s: seq<T>, a: nat, b: nat, x: T)
    requires a <= b <= |s|
    ensures x in s[a..b] <==> exists j :: a <= j < b && s[j] == x
  {
    if j :| a <= j < b && s[j] == x {
      assert s[a..b][j - a] == x;
    }
  }

  /** Entries from the firehose reached the connection exactly if they lie behind the
      cursor it was made at. */
  lemma FromFirehose(s: System, id: SocketId, i: nat)
    requires FullOk(s) && id in s.conns && ConnOk(s, id, s.conns[id]) && s.conns[id].end.Some?
    requires i < s.pos && s.full[i].data.Decoded?
    ensures (exists h :: h in s.log[s.conns[id].logFrom..] && h.source == Firehose && h.entry.data == s.full[i].data)
            <==> s.conns[id].readFrom <= i
  {
    var k := s.conns[id];
    var seen := s.log[k.logFrom..];
    if k.readFrom <= i {
      SegmentMember(s.full, k.readFrom, s.pos, s.full[i]);
      FirehosePartMember(seen, s.full[i]);
    }
    if h :| h in seen && h.source == Firehose && h.entry.data == s.full[i].data {
      assert h == Handed(h.entry, Firehose);
      FirehosePartMember(seen, h.entry);
      SegmentMember(s.full, k.readFrom, s.pos, h.entry);
      var j :| k.readFrom <= j < s.pos && s.full[j] == h.entry;
      assert s.full[j].data == s.full[i].data;
    }
  }

  /** The connection's own range read brought the event exactly if its scoped entry lies in
      the range, for events that the firehose had passed before. */
  lemma FromOwnRange(s: System, id: SocketId, i: nat)
    requires SourcesOk(s) && CaughtUp(s, id) && ConnOk(s, id, s.conns[id])
    requires Passed(s, i, s.conns[id].channel) && i < s.conns[id].readFrom
    ensures (exists h :: h in s.log[s.conns[id].logFrom..] && h.source == CatchUpOf(id) &&
                         h.entry.data == s.full[i].data)
            <==> InOwnRange(s, s.conns[id], s.full[i].data.event)
  {
    var k, event := s.conns[id], s.full[i].data.event;
    var seen := s.log[k.logFrom..];
    if InOwnRange(s, k, event) {
      var x :| x in Scoped(s, k.channel) && x.data == Decoded(event) && InRange(k, x.id);
      assert x in k.catchUp.reply;
      assert Handed(x, CatchUpOf(id)) in seen;
    }
    if h :| h in seen && h.source == CatchUpOf(id) && h.entry.data == Decoded(event) {
      assert h in s.log;
    }
  }

  lemma ConnOf(s: System, id: SocketId)
    requires Inv(s) && id in s.conns
    ensures ScopedOk(s) && FullOk(s) && SourcesOk(s) && ConnOk(s, id, s.conns[id]) && SentOk(s, id)
  {
  }

  /** Exactly which events a reconnected live socket is sent. For a connection made at a
      concrete cursor whose range read has been processed, an event that the firehose has
      passed is sent to the socket if and only if the firehose passed it after the
      connection, or its scoped entry lies in the range asked for, or another connection
      of the channel was caught up with it. */
  lemma DeliveredIff(run: seq<Label>, id: SocketId, i: nat)
    requires Legal(INIT, run) && CaughtUp(Final(INIT, run), id)
    requires Passed(Final(INIT, run), i, Final(INIT, run).conns[id].channel)
    ensures var s := Final(INIT, run);
            var k, event := s.conns[id], s.full[i].data.event;
            SentEvent(s, id, event) <==>
            k.readFrom <= i || InOwnRange(s, k, event) || CaughtUpByOther(s, id, event)
  {
    var s := Final(INIT, run);
    Reachable(run);
    ConnOf(s, id);
    SentEventIffHanded(s, id, s.full[i].data.event);
    FromFirehose(s, id, i);
    if i < s.conns[id].readFrom {
      FromOwnRange(s, id, i);
    }
  }

  /** The identifiers of a channel's events advance together in both streams: each event's
      scoped identifier is at most its global one, and above the global identifiers of all
      the channel's earlier events. */
  ghost predicate IdsInStep(s: System, c: ChannelId) {
    && (forall x, y {:trigger SameEvent(x, y)} ::
          x in Scoped(s, c) && y in s.full && SameEvent(x, y) ==> AtMost(x.id, y.id))
    && (forall x, y, z {:trigger SameEvent(x, y), IsEarlier(s, c, z, y)} ::
          x in Scoped(s, c) && y in s.full && SameEvent(x, y) && IsEarlier(s, c, z, y) ==> Less(z.id, x.id))
  }

  predicate SameEvent(x: Entry<Payload>, y: Entry<Payload>) {
    x.data.Decoded? && x.data == y.data
  }

  predicate IsEarlier(s: System, c: ChannelId, z: Entry<Payload>, y: Entry<Payload>) {
    z in s.full && z.data.Decoded? && z.data.event.channel == c && Less(z.id, y.id)
  }

  /** An identifier under which the event of global entry `m` may have reached a client. */
  ghost predicate IdOf(s: System, m: nat, id: Id)
    requires m < |s.full|
  {
    id == s.full[m].id ||
    (s.full[m].data.Decoded? &&
     exists x :: x in Scoped(s, s.full[m].data.event.channel) && SameEvent(x, s.full[m]) && x.id == id)
  }

  lemma IdsInStepAt(s: System, c: ChannelId, x: Entry<Payload>, y: Entry<Payload>, z: Entry<Payload>)
    requires IdsInStep(s, c) && x in Scoped(s, c) && y in s.full && SameEvent(x, y) && IsEarlier(s, c, z, y)
    ensures AtMost(x.id, y.id) && Less(z.id, x.id)
  {
  }

  lemma RangeOf(k: Conn, last: Id, m: Id, x: Id, y: Id, end: Id)
    requires k.start == Some(Successor(last)) && k.end == Some(end)
    requires AtMost(last, m) && Less(m, x) && AtMost(x, y) && AtMost(y, end)
    ensures InRange(k, x)
  {
  }

  lemma SortedAtMost(s: seq<Entry<Payload>>, i: nat, j: nat)
    requires Sorted(s) && i <= j < |s|
    ensures AtMost(s[i].id, s[j].id) && (i < j ==> Less(s[i].id, s[j].id))
  {
  }

  /** A client holds its last event under an identifier no higher than the global one. */
  lemma LastAtMost(s: System, m: nat, last: Id)
    requires m < |s.full| && s.full[m].data.Decoded? && IdOf(s, m, last)
    requires IdsInStep(s, s.full[m].data.event.channel)
    ensures AtMost(last, s.full[m].id)
  {
    assert s.full[m] in s.full;
  }

  /** While the identifiers keep in step, the range asked for after `last` covers every
      later event up to the cursor. */
  lemma LaterInRange(s: System, k: Conn, last: Id, m: nat, i: nat)
    requires ScopedOk(s) && FullOk(s) && IdsInStep(s, k.channel) && k.readFrom <= |s.full|
    requires m < i < k.readFrom && Passed(s, m, k.channel) && Passed(s, i, k.channel) && IdOf(s, m, last)
    requires k.start == Some(Successor(last)) && k.end == Some(s.full[k.readFrom - 1].id)
    ensures InOwnRange(s, k, s.full[i].data.event)
  {
    var x := ScopedEntry(s, i);
    LaterIdInRange(s, k, last, m, i, x);
  }

  /** An event of the global stream is in its channel's stream as well. */
  lemma ScopedEntry(s: System, i: nat) returns (x: Entry<Payload>)
    requires ScopedOk(s) && FullOk(s) && i < |s.full| && s.full[i].data.Decoded?
    ensures x in Scoped(s, s.full[i].data.event.channel) && x.data == s.full[i].data
  {
    assert s.full[i] in s.full;
    assert IsScoped(s, s.full[i].data.event);
    x :| x in Scoped(s, s.full[i].data.event.channel) && x.data == s.full[i].data;
  }

  lemma LaterIdInRange(s: System, k: Conn, last: Id, m: nat, i: nat, x: Entry<Payload>)
    requires Sorted(s.full) && IdsInStep(s, k.channel) && k.readFrom <= |s.full|
    requires m < i < k.readFrom && Passed(s, m, k.channel) && Passed(s, i, k.channel) && IdOf(s, m, last)
    requires k.start == Some(Successor(last)) && k.end == Some(s.full[k.readFrom - 1].id)
    requires x in Scoped(s, k.channel) && x.data == s.full[i].data
    ensures InRange(k, x.id)
  {
    assert s.full[i] in s.full && s.full[m] in s.full;
    SortedAtMost(s.full, m, i);
    SortedAtMost(s.full, i, k.readFrom - 1);
    IdsInStepAt(s, k.channel, x, s.full[i], s.full[m]);
    LastAtMost(s, m, last);
    RangeOf(k, last, s.full[m].id, x.id, s.full[i].id, s.full[k.readFrom - 1].id);
  }

  /** A later event that the firehose passed before the connection is in its range. */
  lemma LaterCovered(s: System, id: SocketId, last: Id, m: nat, i: nat)
    requires ScopedOk(s) && FullOk(s) && CaughtUp(s, id) && ConnOk(s, id, s.conns[id])
    requires s.conns[id].start == Some(Successor(last))
    requires m < i && Passed(s, m, s.conns[id].channel) && Passed(s, i, s.conns[id].channel)
    requires IdOf(s, m, last) && IdsInStep(s, s.conns[id].channel)
    ensures s.conns[id].readFrom <= i || InOwnRange(s, s.conns[id], s.full[i].data.event)
  {
    if i < s.conns[id].readFrom {
      LaterInRange(s, s.conns[id], last, m, i);
    }
  }

  /** No gap on reconnection: a client that last received the event of global entry `m` and
      reconnects while the cursor is concrete is sent every later event of its channel that
      the firehose passes, by catch-up or by the firehose, as long as its socket lives and
      its range read succeeds, provided the two streams' identifiers keep in step. */
  lemma NoGap(run: seq<Label>, id: SocketId, last: Id, m: nat, i: nat)
    requires Legal(INIT, run) && CaughtUp(Final(INIT, run), id)
    requires var s := Final(INIT, run);
             var c := s.conns[id].channel;
             && s.conns[id].start == Some(Successor(last))
             && m < i && Passed(s, m, c) && Passed(s, i, c) && IdOf(s, m, last) && IdsInStep(s, c)
    ensures SentEvent(Final(INIT, run), id, Final(INIT, run).full[i].data.event)
  {
    var s := Final(INIT, run);
    Reachable(run);
    ConnOf(s, id);
    LaterCovered(s, id, last, m, i);
    DeliveredIff(run, id, i);
  }

  // ---------- a run with a gap ----------

  /** An event of channel `c` published in both streams, nobody else publishing between. */
  function Publish(s: System, no: nat, c: ChannelId, scopedId: Id, fullId: Id): System {
    s.(scoped := s.scoped[c := Scoped(s, c) + [Entry(scopedId, Decoded(Event(no, c)))]],
       full := s.full + [Entry(fullId, Decoded(Event(no, c)))],
       jobs := s.jobs[no := Job(Event(no, c), Published)])
  }

  lemma PublishBoth(run: seq<Label>, no: nat, c: ChannelId, scopedId: Id, fullId: Id) returns (longer: seq<Label>)
    requires Legal(INIT, run)
    requires var s := Final(INIT, run);
             no !in s.jobs && CanAppend(Scoped(s, c), scopedId) && CanAppend(s.full, fullId)
    ensures Legal(INIT, longer) && Final(INIT, longer) == Publish(Final(INIT, run), no, c, scopedId, fullId)
  {
    var s := Final(INIT, run);
    var first, second := PublishScoped(no, c, scopedId), PublishFull(no, fullId);
    Snoc(INIT, run, first);
    Snoc(INIT, run + [first], second);
    longer := run + [first] + [second];
    assert Final(INIT, longer).jobs == Publish(s, no, c, scopedId, fullId).jobs;
  }

  const MINE := ChannelId("mine")
  const OTHER := ChannelId("other")
  const SOCKET := SocketId(0)

  /** Three events of one millisecond, the first on another channel: numbers in the global
      stream run ahead of those in the channel stream. */
  function ThreeEvents(): System {
    var s1 := Publish(INIT, 0, OTHER, Id(5, 0), Id(5, 0));
    var s2 := Publish(s1, 1, MINE, Id(5, 0), Id(5, 1));
    Publish(s2, 2, MINE, Id(5, 1), Id(5, 2))
  }

  lemma ThreeEventsReachable() returns (run: seq<Label>)
    ensures Legal(INIT, run) && Final(INIT, run) == ThreeEvents()
  {
    run := PublishBoth([], 0, OTHER, Id(5, 0), Id(5, 0));
    run := PublishBoth(run, 1, MINE, Id(5, 0), Id(5, 1));
    run := PublishBoth(run, 2, MINE, Id(5, 1), Id(5, 2));
  }

  /** With no socket connected, a batch changes nothing and is sent to nobody. */
  lemma {:induction false} ProcessNobody(entries: seq<Entry<Payload>>, faults: seq<set<SocketId>>)
    requires |faults| == |entries|
    ensures Process(INIT.reg, entries, faults) == INIT.reg
    ensures ProcessSends(INIT.reg, entries, faults) == []
    decreases |entries|
  {
    if entries != [] {
      assert ProcessOne(INIT.reg, entries[0], faults[0]) == INIT.reg;
      assert SendsOne(INIT.reg, entries[0]) == [];
      ProcessNobody(entries[1..], faults[1..]);
    }
  }

  /** The three events have passed the firehose. */
  function ThreePassed(): System {
    ThreeEvents().(cursor := Some(Id(5, 2)), pos := 3, log := Tag(ThreeEvents().full, Firehose))
  }

  lemma ThreePassedReachable() returns (run: seq<Label>)
    ensures Legal(INIT, run) && Final(INIT, run) == ThreePassed()
  {
    run := ThreeEventsReachable();
    ThreeDelivered();
    var l := FirehoseBatch(0, 3, [{}, {}, {}]);
    Snoc(INIT, run, l);
    run := run + [l];
  }

  lemma ThreeDelivered()
    ensures CanDeliver(ThreeEvents(), 0, 3, [{}, {}, {}])
    ensures Deliver(ThreeEvents(), 0, 3, [{}, {}, {}]) == ThreePassed()
  {
    var s := ThreeEvents();
    assert s.full == [Entry(Id(5, 0), Decoded(Event(0, OTHER))), Entry(Id(5, 1), Decoded(Event(1, MINE))),
                      Entry(Id(5, 2), Decoded(Event(2, MINE)))];
    assert Batch(s, 0, 3) == s.full;
    ProcessNobody(s.full, [{}, {}, {}]);
    assert s.log + Tag(s.full, Firehose) == Tag(s.full, Firehose);
  }

  /** The client that received the second event asks for what came after it. */
  function Reconnected(): Conn {
    Conn(MINE, Some(Id(5, 2)), Some(Id(5, 2)), Asked, 3, 3)
  }

  lemma ReconnectedReachable() returns (run: seq<Label>)
    ensures Legal(INIT, run)
    ensures Final(INIT, run) == OpenConn(ThreePassed(), SOCKET, MINE, Some(Id(5, 1)), 0)
    ensures Opened(ThreePassed(), MINE, Some(Id(5, 1))) == Reconnected()
  {
    run := ThreePassedReachable();
    var l := Connect(SOCKET, MINE, Some(Id(5, 1)), 0);
    Snoc(INIT, run, l);
    run := run + [l];
    assert |ThreeEvents().full| == 3;
  }

  /** Its range read comes back empty: the third event's scoped identifier is below the
      start of the range. */
  lemma NothingInRange(s: System)
    requires Scoped(s, MINE) == [Entry(Id(5, 0), Decoded(Event(1, MINE))), Entry(Id(5, 1), Decoded(Event(2, MINE)))]
    ensures RangeReply(s, Reconnected()) == []
  {
    var scoped := Scoped(s, MINE);
    if RangeReply(s, Reconnected()) != [] {
      RangeMember(scoped, Id(5, 2), Some(Id(5, 2)), RangeReply(s, Reconnected())[0]);
      assert false;
    }
  }

  /** The range read has been processed and brought nothing. */
  lemma GapAt(t: System)
    requires t.full == ThreeEvents().full && t.pos == 3 && |t.log| == 3 && SentOk(t, SOCKET)
    requires Live(t.reg, SOCKET) && SOCKET in t.conns && t.conns[SOCKET] == Reconnected().(catchUp := Replied([]))
    ensures CaughtUp(t, SOCKET) && t.conns[SOCKET].start == Some(Successor(Id(5, 1)))
    ensures Passed(t, 1, MINE) && Passed(t, 2, MINE) && IdOf(t, 1, Id(5, 1))
    ensures !SentEvent(t, SOCKET, t.full[2].data.event)
  {
    assert t.full[1] == Entry(Id(5, 1), Decoded(Event(1, MINE)));
    assert t.full[2] == Entry(Id(5, 2), Decoded(Event(2, MINE)));
    assert t.log[3..] == [];
    SentEventIffHanded(t, SOCKET, t.full[2].data.event);
  }

  /** Without identifiers in step there is a gap: a client that received the second of two
      events reconnects, its range read succeeds, its socket lives, and the later event of
      its channel is never sent to it. */
  lemma GapRun() returns (run: seq<Label>)
    ensures Legal(INIT, run)
    ensures var s := Final(INIT, run);
            && CaughtUp(s, SOCKET) && s.conns[SOCKET].start == Some(Successor(Id(5, 1)))
            && Passed(s, 1, MINE) && Passed(s, 2, MINE) && IdOf(s, 1, Id(5, 1))
            && !SentEvent(s, SOCKET, s.full[2].data.event)
  {
    run := ReconnectedReachable();
    var s := Final(INIT, run);
    NothingInRange(s);
    var fetch, reply := Fetch(SOCKET), ProcessReply(SOCKET, []);
    Snoc(INIT, run, fetch);
    Snoc(INIT, run + [fetch], reply);
    run := run + [fetch] + [reply];
    Reachable(run);
    ConnOf(Final(INIT, run), SOCKET);
    GapAt(Final(INIT, run));
  }
}
