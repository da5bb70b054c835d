/** Every step of the delivery protocol keeps its invariants, so they hold over all runs. */
module DeliveryInvariants {
  import opened Wrappers
  import opened StreamIds
  import opened Streams
  import opened SocketRegistry
  import opened WebSocketServer
  import opened DeliveryProtocol

  lemma SortedSnoc(entries: seq<Entry<Payload>>, e: Entry<Payload>)
    requires Sorted(entries) && CanAppend(entries, e.id)
    ensures Sorted(entries + [e])
  {
    forall i | 0 <= i < |entries| ensures Less(entries[i].id, e.id) {
      assert i == |entries| - 1 || Less(entries[i].id, entries[|entries| - 1].id);
    }
  }

  // ---------- streams and publishers ----------

  function Added(l: Label, c: ChannelId): seq<Entry<Payload>> {
    if l.PublishScoped? && l.channel == c then [Entry(l.id, Decoded(Event(l.no, c)))]
    else if l.Foreign? && l.stream == Some(c) then [Entry(l.id, Undecodable)]
    else []
  }

  function AddedFull(s: System, l: Label): seq<Entry<Payload>> {
    if l.PublishFull? && l.no in s.jobs then [Entry(l.id, Decoded(s.jobs[l.no].event))]
    else if l.Foreign? && l.stream.None? then [Entry(l.id, Undecodable)]
    else []
  }

  function JobsAfter(s: System, l: Label): map<nat, Job> {
    if l.PublishScoped? then s.jobs[l.no := Job(Event(l.no, l.channel), Appended)]
    else if l.PublishFull? && l.no in s.jobs then s.jobs[l.no := Job(s.jobs[l.no].event, Published)]
    else if l.PublishFail? && l.no in s.jobs then s.jobs[l.no := Job(s.jobs[l.no].event, Stage.Failed)]
    else s.jobs
  }

  /** How a step changes the streams and the publishers: it appends at most one entry to
      one stream, and only as `XADD` allows. */
  ghost predicate Grown(s: System, t: System, l: Label) {
    && (forall c :: Scoped(t, c) == Scoped(s, c) + Added(l, c))
    && (forall c, x :: x in Added(l, c) ==> CanAppend(Scoped(s, c), x.id))
    && t.full == s.full + AddedFull(s, l)
    && (forall x :: x in AddedFull(s, l) ==> CanAppend(s.full, x.id))
    && t.jobs == JobsAfter(s, l)
    && (l.PublishScoped? ==> l.no !in s.jobs)
    && (l.PublishFull? || l.PublishFail? ==> l.no in s.jobs && s.jobs[l.no].stage.Appended?)
  }

  lemma StepScoped(s: System, l: Label, c: ChannelId)
    requires Enabled(s, l)
    ensures Scoped(Next(s, l), c) == Scoped(s, c) + Added(l, c)
  {
    assert Scoped(s, c) + [] == Scoped(s, c);
  }

  lemma StepFull(s: System, l: Label)
    requires Enabled(s, l)
    ensures Next(s, l).full == s.full + AddedFull(s, l)
    ensures Next(s, l).jobs == JobsAfter(s, l)
  {
    assert s.full + [] == s.full;
  }

  lemma StepGrows(s: System, l: Label)
    requires Enabled(s, l)
    ensures Grown(s, Next(s, l), l)
  {
    var t := Next(s, l);
    forall c ensures Scoped(t, c) == Scoped(s, c) + Added(l, c) {
      StepScoped(s, l, c);
    }
    StepFull(s, l);
  }

  lemma AppendMember<T>(a: seq<T>, b: seq<T>, x: T)
    ensures x in a + b <==> x in a || x in b
  {
  }

  lemma KeepsScopedSorted(s: System, t: System, l: Label, c: ChannelId)
    requires ScopedOk(s) && Grown(s, t, l)
    ensures Sorted(Scoped(t, c))
  {
    var added := Added(l, c);
    if added != [] {
      assert added[0] in added;
      SortedSnoc(Scoped(s, c), added[0]);
    } else {
      assert Scoped(s, c) + [] == Scoped(s, c);
    }
  }

  lemma KeepsJob(s: System, t: System, l: Label, no: nat)
    requires ScopedOk(s) && Grown(s, t, l) && no in t.jobs
    ensures t.jobs[no].event.no == no && IsScoped(t, t.jobs[no].event)
  {
    var event := t.jobs[no].event;
    if no in s.jobs {
      var x :| x in Scoped(s, event.channel) && x.data == Decoded(event);
      AppendMember(Scoped(s, event.channel), Added(l, event.channel), x);
    } else {
      AppendMember(Scoped(s, event.channel), Added(l, event.channel), Entry(l.id, Decoded(event)));
    }
  }

  lemma KeepsScopedEvent(s: System, t: System, l: Label, c: ChannelId, x: Entry<Payload>)
    requires ScopedOk(s) && Grown(s, t, l) && x in Scoped(t, c) && x.data.Decoded?
    ensures x.data.event.channel == c && x.data.event.no in t.jobs && t.jobs[x.data.event.no].event == x.data.event
  {
    AppendMember(Scoped(s, c), Added(l, c), x);
  }

  lemma KeepsScoped(s: System, t: System, l: Label)
    requires ScopedOk(s) && Grown(s, t, l)
    ensures ScopedOk(t)
  {
    forall c ensures Sorted(Scoped(t, c)) {
      KeepsScopedSorted(s, t, l, c);
    }
    forall c, x | x in Scoped(t, c) && x.data.Decoded?
      ensures x.data.event.channel == c && x.data.event.no in t.jobs && t.jobs[x.data.event.no].event == x.data.event
    {
      KeepsScopedEvent(s, t, l, c, x);
    }
    forall no | no in t.jobs ensures t.jobs[no].event.no == no && IsScoped(t, t.jobs[no].event) {
      KeepsJob(s, t, l, no);
    }
  }

  lemma KeepsFullSorted(s: System, t: System, l: Label)
    requires Sorted(s.full) && Grown(s, t, l)
    ensures Sorted(t.full)
  {
    if AddedFull(s, l) != [] {
      assert AddedFull(s, l)[0] in AddedFull(s, l);
      SortedSnoc(s.full, AddedFull(s, l)[0]);
    } else {
      assert s.full + [] == s.full;
    }
  }

  lemma KeepsFullJob(s: System, t: System, l: Label, x: Entry<Payload>)
    requires ScopedOk(s) && FullOk(s) && Grown(s, t, l) && x in t.full && x.data.Decoded?
    ensures x.data.event.no in t.jobs && t.jobs[x.data.event.no] == Job(x.data.event, Published)
  {
    AppendMember(s.full, AddedFull(s, l), x);
  }

  lemma KeepsFullOnce(s: System, t: System, l: Label, i: nat, j: nat)
    requires ScopedOk(s) && FullOk(s) && Grown(s, t, l) && i < j < |t.full| && t.full[i].data.Decoded?
    ensures t.full[i].data != t.full[j].data
  {
    assert i < |s.full| && t.full[i] == s.full[i] && s.full[i] in s.full;
  }

  lemma KeepsFull(s: System, t: System, l: Label)
    requires ScopedOk(s) && FullOk(s) && Grown(s, t, l)
    ensures FullOk(t)
  {
    KeepsFullSorted(s, t, l);
    forall x | x in t.full && x.data.Decoded?
      ensures x.data.event.no in t.jobs && t.jobs[x.data.event.no] == Job(x.data.event, Published)
    {
      KeepsFullJob(s, t, l, x);
    }
    forall i, j | 0 <= i < j < |t.full| && t.full[i].data.Decoded? ensures t.full[i].data != t.full[j].data {
      KeepsFullOnce(s, t, l, i, j);
    }
  }

  lemma KeepsPublish(s: System, t: System, l: Label)
    requires ScopedOk(s) && PublishOk(s) && Grown(s, t, l)
    ensures PublishOk(t)
  {
    forall c ensures Numbers(Scoped(t, c)) == ChannelNumbers(t.full, c) + multiset(Pending(t, c)) {
      KeepsPublishOf(s, t, l, c);
    }
  }

  /** The numbers that a step adds to the two streams. */
  lemma NumbersGrow(s: System, t: System, l: Label, c: ChannelId)
    requires Grown(s, t, l)
    ensures Numbers(Scoped(t, c)) == Numbers(Scoped(s, c)) + Numbers(Added(l, c))
    ensures ChannelNumbers(t.full, c) == ChannelNumbers(s.full, c) + ChannelNumbers(AddedFull(s, l), c)
  {
    NumbersAppend(Scoped(s, c), Added(l, c));
    ChannelNumbersAppend(s.full, AddedFull(s, l), c);
  }

  /** They leave both sides of the account equal. */
  lemma PendingBalances(s: System, t: System, l: Label, c: ChannelId)
    requires ScopedOk(s) && Grown(s, t, l)
    ensures Numbers(Added(l, c)) + multiset(Pending(s, c)) ==
            ChannelNumbers(AddedFull(s, l), c) + multiset(Pending(t, c))
  {
    if l.PublishScoped? && l.channel == c {
      PendingScoped(s, t, l);
    } else if l.PublishFull? && s.jobs[l.no].event.channel == c {
      PendingFull(s, t, l);
    } else {
      PendingSame(s, t, l, c);
    }
  }

  lemma Balance(scoped: multiset<nat>, full: multiset<nat>, pending: multiset<nat>, pending': multiset<nat>,
                added: multiset<nat>, addedFull: multiset<nat>)
    requires scoped == full + pending && added + pending == addedFull + pending'
    ensures scoped + added == full + addedFull + pending'
  {
    assert full + pending + added == full + (added + pending);
    assert full + (addedFull + pending') == full + addedFull + pending';
  }

  lemma KeepsPublishOf(s: System, t: System, l: Label, c: ChannelId)
    requires ScopedOk(s) && PublishOk(s) && Grown(s, t, l)
    ensures Numbers(Scoped(t, c)) == ChannelNumbers(t.full, c) + multiset(Pending(t, c))
  {
    NumbersGrow(s, t, l, c);
    PendingBalances(s, t, l, c);
    Balance(Numbers(Scoped(s, c)), ChannelNumbers(s.full, c), multiset(Pending(s, c)), multiset(Pending(t, c)),
            Numbers(Added(l, c)), ChannelNumbers(AddedFull(s, l), c));
  }

  lemma MultisetInsert(s: set<nat>, x: nat)
    requires x !in s
    ensures multiset(s + {x}) == multiset(s) + multiset{x}
  {
  }

  lemma PendingScoped(s: System, t: System, l: Label)
    requires Grown(s, t, l) && l.PublishScoped?
    ensures multiset(Pending(t, l.channel)) == multiset(Pending(s, l.channel)) + multiset{l.no}
    ensures Numbers(Added(l, l.channel)) == multiset{l.no}
    ensures ChannelNumbers(AddedFull(s, l), l.channel) == multiset{}
  {
    assert Pending(t, l.channel) == Pending(s, l.channel) + {l.no};
    MultisetInsert(Pending(s, l.channel), l.no);
  }

  lemma PendingFull(s: System, t: System, l: Label)
    requires ScopedOk(s) && Grown(s, t, l) && l.PublishFull?
    ensures var c := s.jobs[l.no].event.channel;
            && multiset(Pending(s, c)) == multiset(Pending(t, c)) + multiset{l.no}
            && Numbers(Added(l, c)) == multiset{}
            && ChannelNumbers(AddedFull(s, l), c) == multiset{l.no}
  {
    var c := s.jobs[l.no].event.channel;
    PublishedLeaves(s, t, l);
    MultisetInsert(Pending(t, c), l.no);
  }

  lemma PublishedLeaves(s: System, t: System, l: Label)
    requires l.PublishFull? && l.no in s.jobs && s.jobs[l.no].stage.Appended? && t.jobs == JobsAfter(s, l)
    ensures var c := s.jobs[l.no].event.channel;
            l.no !in Pending(t, c) && Pending(s, c) == Pending(t, c) + {l.no}
  {
  }

  lemma PendingSame(s: System, t: System, l: Label, c: ChannelId)
    requires Grown(s, t, l) && !(l.PublishScoped? && l.channel == c)
    requires !(l.PublishFull? && s.jobs[l.no].event.channel == c)
    ensures Pending(t, c) == Pending(s, c)
    ensures Numbers(Added(l, c)) == multiset{} == ChannelNumbers(AddedFull(s, l), c)
  {
    PendingSameSet(s, t, l, c);
  }

  lemma PendingSameSet(s: System, t: System, l: Label, c: ChannelId)
    requires t.jobs == JobsAfter(s, l) && !(l.PublishScoped? && l.channel == c)
    requires l.PublishScoped? ==> l.no !in s.jobs
    requires l.PublishFull? || l.PublishFail? ==> l.no in s.jobs && s.jobs[l.no].stage.Appended?
    requires !(l.PublishFull? && s.jobs[l.no].event.channel == c)
    ensures Pending(t, c) == Pending(s, c)
  {
  }

  // ---------- cursor and registry ----------

  lemma BatchIsSegment(s: System, since: nat, count: nat)
    requires FullOk(s) && CursorOk(s) && since <= |s.full|
    ensures var from := if s.cursor.None? then since else s.pos;
            from + |Batch(s, since, count)| <= |s.full| &&
            Batch(s, since, count) == s.full[from..from + |Batch(s, since, count)|]
  {
    XReadIsSegment(s.full, s.full, since, s.cursor, count, s.pos);
  }

  /** The cursor and its log after the listener has been called, by the firehose with the
      next entries of the stream or with the reply of a range read. */
  lemma HandCursor(s: System, entries: seq<Entry<Payload>>, source: Source, faults: seq<set<SocketId>>)
    requires |faults| == |entries|
    ensures var t := Hand(s, entries, source, faults);
            FirehosePart(t.log) == FirehosePart(s.log) + (if source == Firehose then entries else [])
  {
    FirehosePartAppend(s.log, Tag(entries, source));
    FirehosePartTag(entries, source);
  }

  lemma CursorAdvances(full: seq<Entry<Payload>>, handed: seq<Entry<Payload>>, cursor: Option<Id>, first: nat, pos: nat,
                       from: nat, entries: seq<Entry<Payload>>)
    requires CursorAt(full, handed, cursor, first, pos) && (cursor.Some? ==> from == pos)
    requires from + |entries| <= |full| && entries == full[from..from + |entries|] && entries != []
    ensures CursorAt(full, handed + entries, Some(entries[|entries| - 1].id),
                     if cursor.None? then from else first, from + |entries|)
  {
    var first', pos' := Advance(full, handed, first, pos, from, entries);
  }

  lemma DeliverFields(s: System, since: nat, count: nat, faults: seq<set<SocketId>>)
    requires CanDeliver(s, since, count, faults)
    ensures var t, entries := Deliver(s, since, count, faults), Batch(s, since, count);
            && t.full == s.full && t.log == Hand(s, entries, Firehose, faults).log
            && t.cursor == Some(entries[|entries| - 1].id)
            && t.first == (if s.cursor.None? then since else s.first)
            && t.pos == BatchStart(s, since) + |entries|
  {
  }

  lemma BatchAdvances(s: System, t: System, since: nat, count: nat)
    requires FullOk(s) && CursorOk(s) && since <= |s.full| && Batch(s, since, count) != []
    requires t.full == s.full && FirehosePart(t.log) == FirehosePart(s.log) + Batch(s, since, count)
    requires t.cursor == Some(Batch(s, since, count)[|Batch(s, since, count)| - 1].id)
    requires t.first == (if s.cursor.None? then since else s.first)
    requires t.pos == BatchStart(s, since) + |Batch(s, since, count)|
    ensures CursorOk(t) && s.pos <= t.pos && (s.first < s.pos ==> t.first == s.first)
  {
    BatchIsSegment(s, since, count);
    CursorAdvances(s.full, FirehosePart(s.log), s.cursor, s.first, s.pos, BatchStart(s, since), Batch(s, since, count));
  }

  lemma DeliverCursor(s: System, since: nat, count: nat, faults: seq<set<SocketId>>)
    requires FullOk(s) && CursorOk(s) && CanDeliver(s, since, count, faults)
    ensures CursorOk(Deliver(s, since, count, faults))
    ensures s.pos <= Deliver(s, since, count, faults).pos
    ensures s.first < s.pos ==> Deliver(s, since, count, faults).first == s.first
  {
    HandCursor(s, Batch(s, since, count), Firehose, faults);
    DeliverFields(s, since, count, faults);
    BatchAdvances(s, Deliver(s, since, count, faults), since, count);
  }

  /** Only the firehose moves the cursor, and only it adds to its part of the log. */
  lemma CursorFrame(s: System, l: Label)
    requires Enabled(s, l) && !l.FirehoseBatch?
    ensures var t := Next(s, l);
            && t.cursor == s.cursor && t.first == s.first && t.pos == s.pos
            && FirehosePart(t.log) == FirehosePart(s.log)
  {
    if l.ProcessReply? {
      HandCursor(s, s.conns[l.socket].catchUp.reply, CatchUpOf(l.socket), l.faults);
    }
  }

  lemma GrownCursor(s: System, t: System, l: Label)
    requires CursorOk(s) && Grown(s, t, l) && FirehosePart(t.log) == FirehosePart(s.log)
    requires t.cursor == s.cursor && t.first == s.first && t.pos == s.pos
    ensures CursorOk(t)
  {
    assert s.full <= t.full;
  }

  lemma StepCursor(s: System, l: Label)
    requires FullOk(s) && CursorOk(s) && Enabled(s, l) && Grown(s, Next(s, l), l)
    ensures CursorOk(Next(s, l))
    ensures s.pos <= Next(s, l).pos && (s.first < s.pos ==> Next(s, l).first == s.first)
  {
    if l.FirehoseBatch? {
      DeliverCursor(s, l.since, l.count, l.faults);
    } else {
      CursorFrame(s, l);
      GrownCursor(s, Next(s, l), l);
    }
  }

  lemma StepReg(s: System, l: Label)
    requires RegOk(s) && Enabled(s, l)
    ensures RegOk(Next(s, l))
    ensures forall id :: Live(Next(s, l).reg, id) ==> Live(s.reg, id) || (l.Connect? && l.socket == id)
  {
    match l
    case Connect(socket, channel, _, now) =>
      TrackValid(s.reg, socket, SocketInstance(channel, now, ReadyState.Open));
      TrackListed(s.reg, socket, SocketInstance(channel, now, ReadyState.Open));
    case FirehoseBatch(since, count, faults) =>
      HandReg(s, Batch(s, since, count), Firehose, faults);
    case ProcessReply(socket, faults) =>
      HandReg(s, s.conns[socket].catchUp.reply, CatchUpOf(socket), faults);
    case PongReceived(socket, now) => PongValid(s.reg, socket, now);
    case SocketMoves(socket, ready) => ChangeStateValid(s.reg, socket, ready);
    case CheckAll(clock, timeout) => CheckValid(s.reg, clock, timeout);
    case GcPass =>
      GcValid(s.reg);
      forall c, id | c in Gc(s.reg).channels && id in Gc(s.reg).channels[c] ensures id in s.conns {
        GcMember(s.reg, c, id);
      }
    case _ =>
  }

  lemma TrackListed(reg: Registry, id: SocketId, instance: SocketInstance)
    ensures forall c, x :: c in Track(reg, id, instance).channels && x in Track(reg, id, instance).channels[c] ==>
                           x == id || x in Listed(reg, c)
  {
  }

  lemma {:induction false} ProcessListed(reg: Registry, entries: seq<Entry<Payload>>, faults: seq<set<SocketId>>,
                                         c: ChannelId, id: SocketId)
    requires |faults| == |entries|
    requires id in Listed(Process(reg, entries, faults), c)
    ensures id in Listed(reg, c)
    decreases |entries|
  {
    if entries != [] {
      var next := ProcessOne(reg, entries[0], faults[0]);
      ProcessListed(next, entries[1..], faults[1..], c, id);
      KeepMember(Listed(reg, c), LiveIds(reg), id);
    }
  }

  lemma HandReg(s: System, entries: seq<Entry<Payload>>, source: Source, faults: seq<set<SocketId>>)
    requires RegOk(s) && |faults| == |entries|
    ensures RegOk(Hand(s, entries, source, faults))
    ensures Hand(s, entries, source, faults).reg.sockets == s.reg.sockets
  {
    var t := Hand(s, entries, source, faults);
    ProcessValid(s.reg, entries, faults);
    forall c, id | c in t.reg.channels && id in t.reg.channels[c] ensures id in s.conns {
      ProcessListed(s.reg, entries, faults, c, id);
    }
    forall x | x in t.sent ensures x.socket in s.conns {
      if x !in s.sent {
        ProcessConfined(s.reg, entries, faults, x);
      }
    }
  }

  // ---------- connections ----------

  ghost predicate ConnsOk(s: System) {
    && SourcesOk(s)
    && (forall id :: id in s.conns ==> ConnOk(s, id, s.conns[id]))
  }

  lemma TailAppend<T>(a: seq<T>, b: seq<T>, k: nat)
    requires k <= |a|
    ensures (a + b)[k..] == a[k..] + b
  {
  }

  lemma SegmentAppend<T>(s: seq<T>, a: nat, b: nat, c: nat)
    requires a <= b <= c <= |s|
    ensures s[a..c] == s[a..b] + s[b..c]
  {
  }

  lemma UntagTag(entries: seq<Entry<Payload>>, source: Source)
    ensures Untag(Tag(entries, source)) == entries
  {
  }

  lemma UntagAppend(a: seq<Handed>, b: seq<Handed>)
    ensures Untag(a + b) == Untag(a) + Untag(b)
  {
  }

  /** Appends by publishers disturb no connection: a new scoped entry carries a new event,
      which no earlier entry of the global stream can carry. */
  lemma GrowReply(s: System, t: System, l: Label, k: Conn)
    requires ScopedOk(s) && FullOk(s) && Grown(s, t, l) && ReplyOk(s, k)
    ensures ReplyOk(t, k)
  {
    if k.catchUp.Fetched? || k.catchUp.Replied? {
      forall x | x in k.catchUp.reply ensures x in Scoped(t, k.channel) {
        AppendMember(Scoped(s, k.channel), Added(l, k.channel), x);
      }
      forall i, x | 0 <= i < k.readFrom && x in Scoped(t, k.channel) && InRange(k, x.id) &&
                    x.data.Decoded? && x.data == t.full[i].data
        ensures x in k.catchUp.reply
      {
        AppendMember(Scoped(s, k.channel), Added(l, k.channel), x);
        assert t.full[i] == s.full[i] && s.full[i] in s.full;
        assert x in Scoped(s, k.channel);
      }
    }
  }

  lemma GrowConns(s: System, t: System, l: Label)
    requires ScopedOk(s) && FullOk(s) && Grown(s, t, l) && ConnsOk(s)
    requires t.conns == s.conns && t.log == s.log && t.first == s.first && t.pos == s.pos
    ensures ConnsOk(t)
  {
    forall id | id in t.conns ensures ConnOk(t, id, t.conns[id]) {
      var k := s.conns[id];
      GrowReply(s, t, l, k);
      if k.end.Some? {
        assert t.full[k.readFrom - 1] == s.full[k.readFrom - 1];
        assert t.full[k.readFrom..t.pos] == s.full[k.readFrom..s.pos];
      }
    }
  }

  /** The log only grows at its end, so what a connection has seen stays seen. */
  lemma HandSeen(s: System, entries: seq<Entry<Payload>>, source: Source, faults: seq<set<SocketId>>, k: nat)
    requires |faults| == |entries| && k <= |s.log|
    ensures var t := Hand(s, entries, source, faults);
            && k <= |t.log|
            && FirehosePart(t.log[k..]) == FirehosePart(s.log[k..]) + (if source == Firehose then entries else [])
            && Untag(t.log[k..]) == Untag(s.log[k..]) + entries
            && (forall h :: h in s.log[k..] ==> h in t.log[k..])
            && (forall x :: x in entries ==> Handed(x, source) in t.log[k..])
  {
    var tagged := Tag(entries, source);
    TailAppend(s.log, tagged, k);
    FirehosePartAppend(s.log[k..], tagged);
    FirehosePartTag(entries, source);
    UntagAppend(s.log[k..], tagged);
    UntagTag(entries, source);
    forall x | x in entries ensures Handed(x, source) in tagged {
      var i :| 0 <= i < |entries| && entries[i] == x;
      assert tagged[i] == Handed(x, source);
    }
  }

  lemma HandSources(s: System, entries: seq<Entry<Payload>>, source: Source, faults: seq<set<SocketId>>, h: Handed)
    requires |faults| == |entries| && h in Hand(s, entries, source, faults).log
    ensures h in s.log || (h.source == source && h.entry in entries)
  {
    AppendMember(s.log, Tag(entries, source), h);
  }

  /** A connection that has seen the firehose up to `s.pos` and is handed what follows. */
  lemma ConnSees(s: System, t: System, id: SocketId, k: Conn, entries: seq<Entry<Payload>>)
    requires ConnOk(s, id, k) && t.scoped == s.scoped && t.full == s.full
    requires k.logFrom <= |t.log| && s.pos <= t.pos <= |s.full|
    requires FirehosePart(t.log[k.logFrom..]) == FirehosePart(s.log[k.logFrom..]) + entries
    requires forall h :: h in s.log[k.logFrom..] ==> h in t.log[k.logFrom..]
    requires k.end.Some? ==> t.first == s.first && entries == s.full[s.pos..t.pos]
    ensures ConnOk(t, id, k)
  {
    if k.end.Some? {
      SegmentAppend(s.full, k.readFrom, s.pos, t.pos);
    }
  }

  lemma DeliverConn(s: System, since: nat, count: nat, faults: seq<set<SocketId>>, id: SocketId)
    requires FullOk(s) && CursorOk(s) && CanDeliver(s, since, count, faults)
    requires id in s.conns && ConnOk(s, id, s.conns[id])
    ensures ConnOk(Deliver(s, since, count, faults), id, s.conns[id])
  {
    DeliverCursor(s, since, count, faults);
    HandSeen(s, Batch(s, since, count), Firehose, faults, s.conns[id].logFrom);
    BatchIsSegment(s, since, count);
    ConnSees(s, Deliver(s, since, count, faults), id, s.conns[id], Batch(s, since, count));
  }

  lemma DeliverConns(s: System, since: nat, count: nat, faults: seq<set<SocketId>>)
    requires FullOk(s) && CursorOk(s) && CanDeliver(s, since, count, faults) && ConnsOk(s)
    ensures ConnsOk(Deliver(s, since, count, faults))
  {
    var t := Deliver(s, since, count, faults);
    forall id | id in t.conns ensures ConnOk(t, id, t.conns[id]) {
      DeliverConn(s, since, count, faults, id);
    }
    forall h | h in t.log && h.source.CatchUpOf? ensures h in s.log {
      HandSources(s, Batch(s, since, count), Firehose, faults, h);
    }
  }

  lemma HandConn(s: System, entries: seq<Entry<Payload>>, from: SocketId, faults: seq<set<SocketId>>,
                 id: SocketId, k: Conn)
    requires |faults| == |entries| && ConnOk(s, id, k)
    ensures ConnOk(Hand(s, entries, CatchUpOf(from), faults), id, k)
  {
    HandSeen(s, entries, CatchUpOf(from), faults, k.logFrom);
    assert FirehosePart(s.log[k.logFrom..]) + [] == FirehosePart(s.log[k.logFrom..]);
  }

  /** What a connection has seen does not depend on the registries, the sends or the other
      connections. */
  lemma ConnFrame(s: System, t: System, id: SocketId, k: Conn)
    requires t.scoped == s.scoped && t.full == s.full && t.log == s.log && t.first == s.first && t.pos == s.pos
    requires ConnOk(s, id, k)
    ensures ConnOk(t, id, k)
  {
  }

  lemma RepliedConn(t: System, id: SocketId, k: Conn, reply: seq<Entry<Payload>>)
    requires ConnOk(t, id, k) && k.catchUp == Fetched(reply)
    requires forall x :: x in reply ==> Handed(x, CatchUpOf(id)) in t.log[k.logFrom..]
    ensures ConnOk(t, id, k.(catchUp := Replied(reply)))
  {
    assert ReplyOk(t, k.(catchUp := Replied(reply)));
  }

  lemma ReplyConn(s: System, socket: SocketId, faults: seq<set<SocketId>>, id: SocketId)
    requires CanReply(s, socket, faults) && id in s.conns && ConnOk(s, id, s.conns[id])
    ensures ConnOk(ReplyStep(s, socket, faults), id, ReplyStep(s, socket, faults).conns[id])
  {
    var reply, k := s.conns[socket].catchUp.reply, s.conns[id];
    var t := Hand(s, reply, CatchUpOf(socket), faults);
    HandConn(s, reply, socket, faults, id, k);
    if id == socket {
      HandSeen(s, reply, CatchUpOf(socket), faults, k.logFrom);
      RepliedConn(t, id, k, reply);
    }
    ConnFrame(t, ReplyStep(s, socket, faults), id, if id == socket then k.(catchUp := Replied(reply)) else k);
  }

  lemma ReplyConns(s: System, socket: SocketId, faults: seq<set<SocketId>>)
    requires CanReply(s, socket, faults) && ConnsOk(s)
    ensures ConnsOk(ReplyStep(s, socket, faults))
  {
    var t := ReplyStep(s, socket, faults);
    forall id | id in t.conns ensures ConnOk(t, id, t.conns[id]) {
      ReplyConn(s, socket, faults, id);
    }
    forall h | h in t.log && h.source.CatchUpOf?
      ensures h in s.log || (h.source == CatchUpOf(socket) && h.entry in s.conns[socket].catchUp.reply)
    {
      HandSources(s, s.conns[socket].catchUp.reply, CatchUpOf(socket), faults, h);
    }
  }

  lemma OpenedOk(s: System, socket: SocketId, channel: ChannelId, last: Option<Id>, now: int)
    requires CursorOk(s)
    ensures ConnOk(OpenConn(s, socket, channel, last, now), socket, Opened(s, channel, last))
  {
    assert s.log[|s.log|..] == [] && s.full[s.pos..s.pos] == [];
  }

  lemma OpenConns(s: System, socket: SocketId, channel: ChannelId, last: Option<Id>, now: int)
    requires CursorOk(s) && ConnsOk(s) && socket !in s.conns
    ensures ConnsOk(OpenConn(s, socket, channel, last, now))
  {
    var t := OpenConn(s, socket, channel, last, now);
    forall id | id in t.conns ensures ConnOk(t, id, t.conns[id]) {
      if id == socket {
        OpenedOk(s, socket, channel, last, now);
      } else {
        ConnFrame(s, t, id, s.conns[id]);
      }
    }
  }

  lemma FetchReply(s: System, k: Conn)
    requires ScopedOk(s) && k.readFrom <= |s.full|
    ensures ReplyOk(s, k.(catchUp := Fetched(RangeReply(s, k))))
  {
    forall x ensures x in RangeReply(s, k) <==> x in Scoped(s, k.channel) && InRange(k, x.id) {
      if k.start.Some? {
        RangeMember(Scoped(s, k.channel), k.start.value, k.end, x);
      }
    }
  }

  lemma FetchConns(s: System, socket: SocketId)
    requires ScopedOk(s) && ConnsOk(s) && socket in s.conns && s.conns[socket].catchUp.Asked?
    ensures ConnsOk(SetCatchUp(s, socket, Fetched(RangeReply(s, s.conns[socket]))))
    ensures ConnsOk(SetCatchUp(s, socket, ReadFailed))
  {
    assert ConnOk(s, socket, s.conns[socket]);
    FetchReply(s, s.conns[socket]);
    SetKeepsOthers(s, socket, Fetched(RangeReply(s, s.conns[socket])));
    SetKeepsOthers(s, socket, ReadFailed);
  }

  lemma SetKeepsOthers(s: System, socket: SocketId, catchUp: CatchUp)
    requires ConnsOk(s) && socket in s.conns && s.conns[socket].catchUp.Asked?
    requires ConnOk(s, socket, s.conns[socket].(catchUp := catchUp))
    ensures ConnsOk(SetCatchUp(s, socket, catchUp))
  {
    var t := SetCatchUp(s, socket, catchUp);
    forall id | id in t.conns ensures ConnOk(t, id, t.conns[id]) {
      ConnFrame(s, t, id, t.conns[id]);
    }
  }

  /** The steps that leave the connections, the log and the sends alone. */
  predicate Quiet(l: Label) {
    !l.FirehoseBatch? && !l.ProcessReply? && !l.Connect? && !l.Fetch? && !l.FetchFails?
  }

  lemma QuietFrame(s: System, l: Label)
    requires Enabled(s, l) && Quiet(l)
    ensures var t := Next(s, l);
            t.conns == s.conns && t.log == s.log && t.sent == s.sent && t.first == s.first && t.pos == s.pos
  {
  }

  lemma StepConns(s: System, l: Label)
    requires Inv(s) && Enabled(s, l)
    ensures ConnsOk(Next(s, l))
  {
    if l.FirehoseBatch? {
      DeliverConns(s, l.since, l.count, l.faults);
    } else if l.ProcessReply? {
      ReplyConns(s, l.socket, l.faults);
    } else if l.Connect? {
      OpenConns(s, l.socket, l.channel, l.last, l.now);
    } else if l.Fetch? || l.FetchFails? {
      FetchConns(s, l.socket);
    } else {
      StepGrows(s, l);
      QuietFrame(s, l);
      GrowConns(s, Next(s, l), l);
    }
  }

  // ---------- what was sent ----------

  lemma {:induction false} SendsToNone(sent: seq<Send>, id: SocketId)
    requires forall x :: x in sent ==> x.socket != id
    ensures SendsTo(sent, id) == []
  {
    if sent != [] {
      assert sent[0] in sent;
      SendsToNone(sent[1..], id);
    }
  }

  lemma HandSent(s: System, entries: seq<Entry<Payload>>, source: Source, faults: seq<set<SocketId>>, id: SocketId)
    requires RegOk(s) && |faults| == |entries| && SentOk(s, id)
    requires id in s.conns ==> s.conns[id].logFrom <= |s.log|
    ensures SentOk(Hand(s, entries, source, faults), id)
  {
    var t := Hand(s, entries, source, faults);
    ProcessValid(s.reg, entries, faults);
    if Live(t.reg, id) && id in s.conns {
      var k := s.conns[id];
      HandSeen(s, entries, source, faults, k.logFrom);
      ProcessReaches(s.reg, entries, faults, id);
      SendsToAppend(s.sent, ProcessSends(s.reg, entries, faults), id);
      ChannelMessagesAppend(Untag(s.log[k.logFrom..]), entries, k.channel);
    }
  }

  lemma OpenSent(s: System, socket: SocketId, channel: ChannelId, last: Option<Id>, now: int, id: SocketId)
    requires RegOk(s) && SentOk(s, id) && socket !in s.conns
    ensures SentOk(OpenConn(s, socket, channel, last, now), id)
  {
    if id == socket {
      SendsToNone(s.sent, id);
      assert s.log[|s.log|..] == [];
    }
  }

  lemma StepSent(s: System, l: Label, id: SocketId)
    requires Inv(s) && Enabled(s, l)
    ensures SentOk(Next(s, l), id)
  {
    assert SentOk(s, id);
    assert id in s.conns ==> ConnOk(s, id, s.conns[id]);
    if l.FirehoseBatch? {
      HandSent(s, Batch(s, l.since, l.count), Firehose, l.faults, id);
    } else if l.ProcessReply? {
      HandSent(s, s.conns[l.socket].catchUp.reply, CatchUpOf(l.socket), l.faults, id);
    } else if l.Connect? {
      OpenSent(s, l.socket, l.channel, l.last, l.now, id);
    } else if l.Fetch? || l.FetchFails? {
    } else {
      QuietFrame(s, l);
      StepReg(s, l);
    }
  }

  // ---------- runs ----------

  lemma StepInv(s: System, l: Label)
    requires Inv(s) && Enabled(s, l)
    ensures Inv(Next(s, l))
  {
    var t := Next(s, l);
    StepGrows(s, l);
    KeepsScoped(s, t, l);
    KeepsFull(s, t, l);
    KeepsPublish(s, t, l);
    StepCursor(s, l);
    StepReg(s, l);
    StepConns(s, l);
    forall id ensures SentOk(t, id) {
      StepSent(s, l, id);
    }
  }

  lemma InitInv()
    ensures Inv(INIT)
  {
    forall c ensures Numbers(Scoped(INIT, c)) == ChannelNumbers(INIT.full, c) + multiset(Pending(INIT, c)) {
      assert Pending(INIT, c) == {};
    }
  }

  lemma {:induction false} RunInv(s: System, run: seq<Label>)
    requires Inv(s) && Legal(s, run)
    ensures Inv(Final(s, run))
    decreases |run|
  {
    if run != [] {
      StepInv(s, run[0]);
      RunInv(Next(s, run[0]), run[1..]);
    }
  }
}
