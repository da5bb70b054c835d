/** The WebSocket server with its module variables as fields. Each method is one callback
    that runs to completion; what other components do to it arrives as parameters. */
module WebSocketServer {
  import opened Wrappers
  import opened Ordering
  import opened StreamIds
  import opened Streams
  import opened SocketRegistry

  /** The range read a reconnecting client triggers; `start` is `None` where the increment
      leaves the modelled domain, and `end` is `None` for the open end `+`. */
  datatype RangeRequest = RangeRequest(channel: ChannelId, start: Option<string>, end: Option<Id>)

  /** What one blocking read of the global stream comes back with. `stream` is the stream
      at that moment; `since` is where it ended when a read from `$` began to wait. */
  datatype Reading =
    | TimedOut
    | Failed
    | Reply(stream: seq<Entry<Payload>>, since: nat, faults: seq<set<SocketId>>)

  /** The entries `XREAD` returns: at most `count`, all behind the cursor. */
  function XRead(stream: seq<Entry<Payload>>, since: nat, cursor: Option<Id>, count: nat): seq<Entry<Payload>>
    requires since <= |stream|
  {
    var rest := if cursor.None? then stream[since..] else After(stream, cursor.value);
    rest[..Min(|rest|, count)]
  }

  /** A run of readings of one growing stream, as an append-only store produces them. */
  ghost predicate Readable(script: seq<Reading>, stream: seq<Entry<Payload>>) {
    && Sorted(stream)
    && (forall i :: 0 <= i < |script| && script[i].Reply? ==>
                    script[i].stream <= stream && script[i].since <= |script[i].stream| &&
                    |script[i].faults| == |script[i].stream|)
    && (forall i, j :: 0 <= i < j < |script| && script[i].Reply? && script[j].Reply? ==>
                       script[i].stream <= script[j].stream)
  }

  ghost predicate IsListed(channels: map<ChannelId, seq<SocketId>>, c: ChannelId, id: SocketId) {
    c in channels && id in channels[c]
  }

  ghost predicate SameAt(before: map<ChannelId, seq<SocketId>>, after: map<ChannelId, seq<SocketId>>, c: ChannelId) {
    (c in after <==> c in before) && (c in after ==> after[c] == before[c])
  }

  /** Of channel `c` exactly the tracked sockets that are open or connecting are left, in the
      order they had, and no list at all when there are none. */
  ghost predicate IsCleaned(before: map<ChannelId, seq<SocketId>>, sockets: map<SocketId, SocketInstance>,
                            after: map<ChannelId, seq<SocketId>>, c: ChannelId)
  {
    && (forall id :: IsListed(after, c, id) <==>
                     IsListed(before, c, id) && id in sockets &&
                     (sockets[id].ready == ReadyState.Open || sockets[id].ready == ReadyState.Connecting))
    && (c in after ==> after[c] != [] && c in before && IsWithin(after[c], before[c]))
  }

  lemma CleanIs(reg: Registry, c: ChannelId)
    ensures IsCleaned(reg.channels, reg.sockets, Clean(reg, c).channels, c)
    ensures forall d :: d != c ==> SameAt(reg.channels, Clean(reg, c).channels, d)
  {
    var listed := Listed(reg, c);
    forall id ensures id in Keep(listed, LiveIds(reg)) <==> id in listed && id in LiveIds(reg) {
      KeepMember(listed, LiveIds(reg), id);
    }
    KeepIsWithin(listed, LiveIds(reg));
  }

  lemma GcIs(reg: Registry)
    ensures forall c :: IsCleaned(reg.channels, reg.sockets, Gc(reg).channels, c)
  {
    forall c ensures IsCleaned(reg.channels, reg.sockets, Gc(reg).channels, c) {
      CleanIs(reg, c);
    }
  }

  /** Every reading from number `i` on is of a stream with at least `pos` entries. */
  ghost predicate Behind(script: seq<Reading>, i: nat, pos: nat) {
    forall j :: i <= j < |script| && script[j].Reply? ==> pos <= |script[j].stream|
  }

  class Server {
    var channels: map<ChannelId, seq<SocketId>>
    var sockets: map<SocketId, SocketInstance>
    /** `None` is the initial `$`. */
    var lastFirehoseId: Option<Id>
    /** Every `ws.send` that was attempted, in order. */
    var outbox: seq<Send>
    /** Every entry the firehose passed to its listener, in order. */
    var handed: seq<Entry<Payload>>

    ghost function Reg(): Registry
      reads this
    {
      Registry(channels, sockets)
    }

    constructor ()
      ensures Reg() == Registry(map[], map[]) && Valid(Reg())
      ensures lastFirehoseId == None && outbox == [] && handed == []
    {
      channels, sockets := map[], map[];
      lastFirehoseId, outbox, handed := None, [], [];
    }

    method TrackClient(socketId: SocketId, instance: SocketInstance)
      requires Valid(Reg()) && Unused(Reg(), socketId)
      modifies this`channels, this`sockets
      ensures Valid(Reg())
      ensures Reg() == Track(old(Reg()), socketId, instance)
      ensures sockets == old(sockets)[socketId := instance]
      ensures channels == old(channels)[instance.channel :=
                (if instance.channel in old(channels) then old(channels)[instance.channel] else []) + [socketId]]
    {
      TrackValid(Reg(), socketId, instance);
      sockets := sockets[socketId := instance];
      if instance.channel in channels {
        channels := channels[instance.channel := channels[instance.channel] + [socketId]];
      } else {
        assert [] + [socketId] == [socketId];
        channels := channels[instance.channel := [socketId]];
      }
    }

    method CleanChannel(channel: ChannelId)
      modifies this`channels
      ensures Reg() == Clean(old(Reg()), channel)
      ensures IsCleaned(old(channels), sockets, channels, channel)
      ensures forall c :: c != channel ==> SameAt(old(channels), channels, c)
    {
      CleanIs(Reg(), channel);
      ghost var before := Reg();
      ghost var live := LiveIds(before);
      var activeSockets := [];
      if channel in channels {
        var listed := channels[channel];
        for i := 0 to |listed|
          invariant channels == before.channels
          invariant activeSockets == Keep(listed[..i], live)
        {
          KeepAppend(listed[..i], [listed[i]], live);
          assert listed[..i + 1] == listed[..i] + [listed[i]];
          if listed[i] in sockets && sockets[listed[i]].ready.Active() {
            activeSockets := activeSockets + [listed[i]];
          }
        }
        assert listed[..|listed|] == listed;
      }
      assert activeSockets == Keep(Listed(before, channel), live);
      if |activeSockets| == 0 {
        channels := channels - {channel};
      } else {
        channels := channels[channel := activeSockets];
      }
    }

    /** The list being walked is the one found at the start: cleaning the channel on the
        way replaces it in the registry but not under the loop. */
    method SendToChannel(message: Message, faults: set<SocketId>)
      requires Valid(Reg())
      modifies this`channels, this`outbox
      ensures Valid(Reg())
      ensures Reg() == Broadcast(old(Reg()), message.event.channel, faults)
      ensures outbox == old(outbox) + BroadcastSends(old(Reg()), message)
      ensures var c := message.event.channel;
              if exists id :: IsListed(old(channels), c, id) && (id in faults || id !in sockets)
              then IsCleaned(old(channels), sockets, channels, c) &&
                   forall d :: d != c ==> SameAt(old(channels), channels, d)
              else channels == old(channels)
    {
      CleanIs(Reg(), message.event.channel);
      var channel := message.event.channel;
      BroadcastValid(Reg(), channel, faults);
      if channel !in channels {
        return;
      }
      ghost var before := Reg();
      var listed := channels[channel];
      VisitedNone(before, message, listed, faults);
      for i := 0 to |listed|
        invariant Reg() == Visited(before, channel, listed, i, faults)
        invariant outbox == old(outbox) + VisitedSends(before, message, listed, i)
      {
        var socketId := listed[i];
        VisitStep(before, message, listed, i, faults);
        VisitSends(old(outbox), before, message, listed, i);
        if socketId !in sockets {
          CleanChannel(channel);
        } else {
          outbox := outbox + [Send(socketId, message)];
          if socketId in faults {
            CleanChannel(channel);
          }
        }
      }
      VisitedAll(before, message, faults);
    }

    method ProcessStreamResults(results: seq<Entry<Payload>>, faults: seq<set<SocketId>>)
      requires Valid(Reg()) && |faults| == |results|
      modifies this`channels, this`outbox
      ensures Valid(Reg())
      ensures Reg() == Process(old(Reg()), results, faults)
      ensures outbox == old(outbox) + ProcessSends(old(Reg()), results, faults)
    {
      var i := 0;
      while i < |results|
        invariant 0 <= i <= |results| && Valid(Reg())
        invariant Process(old(Reg()), results, faults) == Process(Reg(), results[i..], faults[i..])
        invariant old(outbox) + ProcessSends(old(Reg()), results, faults) ==
                  outbox + ProcessSends(Reg(), results[i..], faults[i..])
      {
        var item := results[i];
        ProcessStep(Reg(), results, faults, i);
        ghost var sent := SendsOne(Reg(), item);
        ghost var more := ProcessSends(ProcessOne(Reg(), item, faults[i]), results[i + 1..], faults[i + 1..]);
        assert outbox + (sent + more) == (outbox + sent) + more;
        match item.data {
          case Undecodable =>
          case Decoded(event) =>
            SendToChannel(Message(item.id, event), faults[i]);
        }
        i := i + 1;
      }
    }

    /** `checkSockets`, reading the clock anew at every socket. */
    method CheckSockets(clock: SocketId -> int, timeout: int)
      returns (pinged: seq<SocketId>, terminated: set<SocketId>)
      modifies this`sockets
      ensures Reg() == Check(old(Reg()), clock, timeout)
      ensures forall id :: id in sockets <==>
                id in old(sockets) && clock(id) - old(sockets)[id].pongTs < timeout &&
                (old(sockets)[id].ready == ReadyState.Open || old(sockets)[id].ready == ReadyState.Connecting)
      ensures forall id :: id in sockets ==> sockets[id] == old(sockets)[id]
      ensures Distinct(pinged) && forall id :: id in pinged <==> id in sockets
      ensures forall id :: id in terminated <==>
                           id in old(sockets) && clock(id) - old(sockets)[id].pongTs >= timeout
    {
      var todo := sockets.Keys;
      pinged, terminated := [], {};
      while todo != {}
        invariant todo <= old(sockets).Keys
        invariant forall id :: id in sockets <==>
          id in old(sockets) && (id in todo || Survives(old(sockets)[id], clock(id), timeout))
        invariant forall id :: id in sockets ==> sockets[id] == old(sockets)[id]
        invariant Distinct(pinged)
        invariant forall id :: id in pinged <==> id in sockets && id !in todo
        invariant forall id :: id in terminated <==>
          id in old(sockets) && id !in todo && clock(id) - old(sockets)[id].pongTs >= timeout
        decreases |todo|
      {
        var socketId :| socketId in todo;
        var instance := sockets[socketId];
        var isActive := true;
        if clock(socketId) - instance.pongTs >= timeout {
          terminated := terminated + {socketId};
          isActive := false;
        } else if !instance.ready.Active() {
          isActive := false;
        }
        if isActive {
          pinged := pinged + [socketId];
        } else {
          sockets := sockets - {socketId};
        }
        todo := todo - {socketId};
      }
      assert sockets == Check(old(Reg()), clock, timeout).sockets;
    }

    /** The garbage collection interval: clean every channel, in whatever order. */
    method CollectChannels()
      requires Valid(Reg())
      modifies this`channels
      ensures Valid(Reg())
      ensures Reg() == Gc(old(Reg()))
      ensures forall c :: IsCleaned(old(channels), sockets, channels, c)
    {
      GcValid(Reg());
      GcIs(Reg());
      ghost var before := Reg();
      var todo := channels.Keys;
      CollectedNone(before);
      while todo != {}
        invariant Reg() == Collected(before, todo)
        decreases |todo|
      {
        var channel :| channel in todo;
        CollectStep(before, todo, channel);
        CleanChannel(channel);
        todo := todo - {channel};
      }
      CollectedAll(before);
    }

    method OnPong(socketId: SocketId, now: int)
      requires Valid(Reg())
      modifies this`sockets
      ensures Valid(Reg())
      ensures Reg() == Pong(old(Reg()), socketId, now)
      ensures sockets.Keys == old(sockets).Keys
      ensures socketId in sockets ==> sockets[socketId] == old(sockets)[socketId].(pongTs := now)
      ensures forall id :: id in sockets && id != socketId ==> sockets[id] == old(sockets)[id]
    {
      PongValid(Reg(), socketId, now);
      if socketId in sockets {
        sockets := sockets[socketId := sockets[socketId].(pongTs := now)];
      }
    }

    /** `wsConnection`: track the client first, then ask for what it missed. */
    method WsConnection(socketId: SocketId, instance: SocketInstance, lastId: Option<string>)
      returns (request: Option<RangeRequest>)
      requires Valid(Reg()) && Unused(Reg(), socketId)
      modifies this`channels, this`sockets
      ensures Valid(Reg())
      ensures sockets == old(sockets)[socketId := instance]
      ensures channels == old(channels)[instance.channel :=
                (if instance.channel in old(channels) then old(channels)[instance.channel] else []) + [socketId]]
      ensures request.Some? <==> lastId.Some? && lastId.value != ""
      ensures request.Some? ==>
                request.value == RangeRequest(instance.channel, IncrementTs(lastId.value), lastFirehoseId)
      ensures forall id :: lastId == Some(Render(id)) && id.num <= MAX_SAFE_INTEGER ==>
                           request.Some? && request.value.channel == instance.channel &&
                           request.value.end == lastFirehoseId && request.value.start.Some? &&
                           ParseStart(request.value.start.value) == Some(Successor(id))
    {
      TrackClient(socketId, instance);
      request := None;
      if lastId.Some? && lastId.value != "" {
        request := Some(RangeRequest(instance.channel, IncrementTs(lastId.value), lastFirehoseId));
      }
      forall id | lastId == Some(Render(id)) && id.num <= MAX_SAFE_INTEGER
        ensures IncrementTs(lastId.value) == Some(Render(Successor(id))) && lastId.value != ""
        ensures ParseStart(Render(Successor(id))) == Some(Successor(id))
      {
        IncrementTsIsSuccessor(id);
        ParseRender(Successor(id));
        assert |Render(id)| > 0;
      }
    }

    /** One reply of the firehose's read: the listener is called, then the cursor moves. */
    method HandOver(results: seq<Entry<Payload>>, faults: seq<set<SocketId>>)
      requires Valid(Reg()) && |faults| == |results| && results != []
      modifies this
      ensures Broadcasted(old(Reg()), old(outbox), results, faults, Reg(), outbox)
      ensures handed == old(handed) + results && lastFirehoseId == Some(results[|results| - 1].id)
    {
      ProcessValid(Reg(), results, faults);
      ProcessStreamResults(results, faults);
      handed := handed + results;
      lastFirehoseId := Some(results[|results| - 1].id);
    }

    /** One reading of the loop below: time-outs, errors and replies without entries change
        nothing. */
    method OnReading(script: seq<Reading>, i: nat, readCount: nat, ghost stream: seq<Entry<Payload>>,
                     ghost was: Start, ghost before: Progress)
      returns (ghost progress: Progress)
      requires Readable(script, stream) && i < |script|
      requires Polled(script, stream, i, was, before, handed, lastFirehoseId, Reg(), outbox)
      modifies this
      ensures Polled(script, stream, i + 1, was, progress, handed, lastFirehoseId, Reg(), outbox)
      ensures !script[i].Reply? ==>
                progress == before && Reg() == old(Reg()) && outbox == old(outbox) && handed == old(handed) &&
                lastFirehoseId == old(lastFirehoseId)
      ensures script[i].Reply? ==> Advanced(script[i], readCount, old(lastFirehoseId), before, progress)
    {
      progress := before;
      match script[i] {
        case TimedOut =>
        case Failed =>
        case Reply(current, since, faults) =>
          var results := XRead(current, since, lastFirehoseId, readCount);
          if |results| > 0 {
            ghost var handed0, cursor0, reg0, outbox0 := handed, lastFirehoseId, Reg(), outbox;
            HandOver(results, faults[..|results|]);
            progress := PolledMore(script, stream, i, was, before, handed0, cursor0, reg0, outbox0, readCount,
                                   Reg(), outbox);
          } else {
            NothingNew(script, stream, i, before, handed, lastFirehoseId, readCount);
          }
      }
    }

    /** `subscribeToGlobalStream` over any finite run of readings. Whatever times out or
        fails in between, the listener is handed one contiguous segment of the stream, in
        order and without repetition, that ends at the cursor; once the cursor is concrete,
        every later run extends that same segment. All that is handed over is broadcast,
        and nothing else. Nothing is held back: a last reply that holds the whole stream
        brings the segment to its end. */
    method SubscribeToGlobalStream(script: seq<Reading>, readCount: nat,
                                   ghost stream: seq<Entry<Payload>>, ghost first0: nat, ghost pos0: nat)
      returns (ghost first: nat, ghost pos: nat, ghost news: seq<Entry<Payload>>, ghost faults: seq<set<SocketId>>)
      requires Valid(Reg()) && Readable(script, stream) && readCount > 0
      requires Follows(stream, handed, lastFirehoseId, first0, pos0) && Behind(script, 0, pos0)
      modifies this
      ensures Follows(stream, handed, lastFirehoseId, first, pos)
      ensures first0 < pos0 ==> first == first0 && pos0 <= pos
      ensures handed == old(handed) + news
      ensures Broadcasted(old(Reg()), old(outbox), news, faults, Reg(), outbox)
      ensures script != [] && BringsAll(script[|script| - 1], stream, readCount, first0 < pos0) ==> pos == |stream|
    {
      ghost var was := Start(handed, Reg(), outbox, first0, pos0);
      ghost var progress := Progress(first0, pos0, [], []);
      for i := 0 to |script|
        invariant Polled(script, stream, i, was, progress, handed, lastFirehoseId, Reg(), outbox)
        invariant first0 < pos0 ==> progress.first < progress.pos
        invariant i > 0 && BringsAll(script[i - 1], stream, readCount, first0 < pos0) ==> progress.pos == |stream|
      {
        progress := OnReading(script, i, readCount, stream, was, progress);
      }
      first, pos, news, faults := progress.first, progress.pos, progress.news, progress.faults;
    }
  }

  /** Where a run of readings started. */
  datatype Start = Start(handed: seq<Entry<Payload>>, reg: Registry, outbox: seq<Send>, first: nat, pos: nat)

  /** How far it has got: the segment handed over in all, what of it is new, and which sends
      failed for that. */
  datatype Progress = Progress(first: nat, pos: nat, news: seq<Entry<Payload>>, faults: seq<set<SocketId>>)

  ghost predicate Polled(script: seq<Reading>, stream: seq<Entry<Payload>>, i: nat, was: Start, now: Progress,
                         handed: seq<Entry<Payload>>, cursor: Option<Id>, reg: Registry, outbox: seq<Send>)
  {
    && Follows(stream, handed, cursor, now.first, now.pos) && Behind(script, i, now.pos)
    && (was.first < was.pos ==> now.first == was.first && was.pos <= now.pos)
    && handed == was.handed + now.news
    && Broadcasted(was.reg, was.outbox, now.news, now.faults, reg, outbox)
  }

  /** How far one reply brings the segment: by `count` entries or to the end of what it holds,
      from the cursor, or from where the read from `$` began to wait. */
  ghost predicate Advanced(reply: Reading, count: nat, cursor: Option<Id>, before: Progress, after: Progress)
    requires reply.Reply?
  {
    var length := |reply.stream|;
    if cursor.Some? then
      && after.first == before.first
      && after.pos == if before.pos + count < length then before.pos + count else length
    else if count > 0 && reply.since < length then
      && after.first == reply.since
      && after.pos == if reply.since + count < length then reply.since + count else length
    else after == before
  }

  /** A reply that holds the whole stream and more than was there when a read from `$` began,
      in one batch. */
  ghost predicate BringsAll(reading: Reading, stream: seq<Entry<Payload>>, count: nat, concrete: bool) {
    reading.Reply? && reading.stream == stream && count >= |stream| && (concrete || reading.since < |stream|)
  }

  lemma NothingNew(script: seq<Reading>, stream: seq<Entry<Payload>>, i: nat, now: Progress,
                   handed: seq<Entry<Payload>>, cursor: Option<Id>, count: nat)
    requires Readable(script, stream) && i < |script| && script[i].Reply? && Behind(script, i, now.pos)
    requires Follows(stream, handed, cursor, now.first, now.pos)
    requires XRead(script[i].stream, script[i].since, cursor, count) == []
    ensures Advanced(script[i], count, cursor, now, now)
  {
    XReadIsSegment(script[i].stream, stream, script[i].since, cursor, count, now.pos);
  }

  lemma PolledMore(script: seq<Reading>, stream: seq<Entry<Payload>>, i: nat, was: Start, now: Progress,
                   handed: seq<Entry<Payload>>, cursor: Option<Id>, reg: Registry, outbox: seq<Send>, count: nat,
                   reg': Registry, outbox': seq<Send>)
    returns (next: Progress)
    requires Readable(script, stream) && i < |script| && script[i].Reply?
    requires Polled(script, stream, i, was, now, handed, cursor, reg, outbox)
    requires var results := XRead(script[i].stream, script[i].since, cursor, count);
             results != [] && |results| <= |script[i].faults| &&
             Broadcasted(reg, outbox, results, script[i].faults[..|results|], reg', outbox')
    ensures var results := XRead(script[i].stream, script[i].since, cursor, count);
            Polled(script, stream, i + 1, was, next, handed + results, Some(results[|results| - 1].id), reg', outbox')
    ensures Advanced(script[i], count, cursor, now, next)
  {
    var results := XRead(script[i].stream, script[i].since, cursor, count);
    var more := script[i].faults[..|results|];
    var first, pos := ReplyAdvances(script, i, stream, handed, now.first, now.pos, cursor, count);
    BroadcastMore(was.reg, was.outbox, now.news, now.faults, reg, outbox, results, more, reg', outbox');
    Assoc(was.handed, now.news, results);
    next := Progress(first, pos, now.news + results, now.faults + more);
  }

  /** The registry and the attempted sends after the broadcasts of `news`, which leave the
      tracked sockets as they are. */
  ghost predicate Broadcasted(before: Registry, sent: seq<Send>, news: seq<Entry<Payload>>, faults: seq<set<SocketId>>,
                              reg: Registry, outbox: seq<Send>)
  {
    && |faults| == |news| && Valid(reg) && reg.sockets == before.sockets
    && reg == Process(before, news, faults) && outbox == sent + ProcessSends(before, news, faults)
  }

  lemma BroadcastMore(before: Registry, sent: seq<Send>, news: seq<Entry<Payload>>, faults: seq<set<SocketId>>,
                      reg: Registry, outbox: seq<Send>, results: seq<Entry<Payload>>, more: seq<set<SocketId>>,
                      reg': Registry, outbox': seq<Send>)
    requires Broadcasted(before, sent, news, faults, reg, outbox)
    requires Broadcasted(reg, outbox, results, more, reg', outbox')
    ensures Broadcasted(before, sent, news + results, faults + more, reg', outbox')
  {
    ProcessAppend(before, news, faults, results, more);
    Assoc(sent, ProcessSends(before, news, faults), ProcessSends(reg, results, more));
  }

  lemma Assoc<T>(a: seq<T>, b: seq<T>, c: seq<T>)
    ensures a + (b + c) == a + b + c
  {
  }

  /** Where the cursor stands in the stream: behind entry `pos - 1`, everything from
      `first` up to there having been handed over. */
  ghost predicate Follows(stream: seq<Entry<Payload>>, handed: seq<Entry<Payload>>, cursor: Option<Id>,
                          first: nat, pos: nat)
  {
    && first <= pos <= |stream|
    && handed == stream[first..pos]
    && cursor == if first == pos then None else Some(stream[pos - 1].id)
  }

  /** Handing over the next entries of the stream extends the segment handed so far. */
  lemma Advance<T>(stream: seq<T>, handed: seq<T>, first: nat, pos: nat, from: nat, results: seq<T>)
    returns (first': nat, pos': nat)
    requires first <= pos <= |stream| && handed == stream[first..pos]
    requires from + |results| <= |stream| && results == stream[from..from + |results|] && results != []
    requires first < pos ==> from == pos
    ensures first' < pos' == from + |results| && (first < pos ==> first' == first)
    ensures handed + results == stream[first'..pos']
    ensures results[|results| - 1] == stream[pos' - 1]
  {
    first', pos' := if first < pos then first else from, from + |results|;
  }

  /** So does handing over what a read returns. */
  lemma ReadAdvances(stream: seq<Entry<Payload>>, handed: seq<Entry<Payload>>, first: nat, pos: nat,
                     current: seq<Entry<Payload>>, since: nat, cursor: Option<Id>, count: nat)
    returns (first': nat, pos': nat)
    requires Follows(stream, handed, cursor, first, pos)
    requires Sorted(stream) && current <= stream && since <= |current| && pos <= |current|
    requires XRead(current, since, cursor, count) != []
    ensures var results := XRead(current, since, cursor, count);
            Follows(stream, handed + results, Some(results[|results| - 1].id), first', pos') && pos' <= |current|
    ensures first < pos ==> first' == first && pos' == Min(|current|, pos + count)
    ensures first == pos ==> first' == since && pos' == Min(|current|, since + count)
  {
    XReadIsSegment(current, stream, since, cursor, count, pos);
    first', pos' := Advance(stream, handed, first, pos, if cursor.None? then since else pos,
                            XRead(current, since, cursor, count));
  }

  lemma ReplyAdvances(script: seq<Reading>, i: nat, stream: seq<Entry<Payload>>, handed: seq<Entry<Payload>>,
                      first: nat, pos: nat, cursor: Option<Id>, count: nat)
    returns (first': nat, pos': nat)
    requires Readable(script, stream) && i < |script| && script[i].Reply? && Behind(script, i, pos)
    requires Follows(stream, handed, cursor, first, pos)
    requires XRead(script[i].stream, script[i].since, cursor, count) != []
    ensures var results := XRead(script[i].stream, script[i].since, cursor, count);
            Follows(stream, handed + results, Some(results[|results| - 1].id), first', pos')
    ensures Behind(script, i + 1, pos')
    ensures first < pos ==> first' == first && pos' == Min(|script[i].stream|, pos + count)
    ensures first == pos ==> first' == script[i].since && pos' == Min(|script[i].stream|, script[i].since + count)
  {
    first', pos' := ReadAdvances(stream, handed, first, pos, script[i].stream, script[i].since, cursor, count);
  }

  /** The registry, and the sends attempted, after a broadcast has visited the first `i`
      of the identifiers it found listed. */
  ghost function Visited(reg: Registry, c: ChannelId, listed: seq<SocketId>, i: nat, faults: set<SocketId>): Registry
    requires i <= |listed|
  {
    if Disturbed(reg, listed[..i], faults) then Clean(reg, c) else reg
  }

  ghost function VisitedSends(reg: Registry, m: Message, listed: seq<SocketId>, i: nat): seq<Send>
    requires i <= |listed|
  {
    Sends(Keep(listed[..i], reg.sockets.Keys), m)
  }

  lemma VisitedNone(reg: Registry, m: Message, listed: seq<SocketId>, faults: set<SocketId>)
    ensures Visited(reg, m.event.channel, listed, 0, faults) == reg
    ensures VisitedSends(reg, m, listed, 0) == []
  {
  }

  lemma VisitStep(reg: Registry, m: Message, listed: seq<SocketId>, i: nat, faults: set<SocketId>)
    requires i < |listed|
    ensures var c, id := m.event.channel, listed[i];
            && Visited(reg, c, listed, i + 1, faults) ==
               (if id in faults || id !in reg.sockets then Clean(Visited(reg, c, listed, i, faults), c)
                else Visited(reg, c, listed, i, faults))
  {
    CleanTwice(reg, m.event.channel);
    DisturbedStep(reg, listed, i, faults);
  }

  lemma VisitSends(sent: seq<Send>, reg: Registry, m: Message, listed: seq<SocketId>, i: nat)
    requires i < |listed|
    ensures sent + VisitedSends(reg, m, listed, i + 1) ==
            sent + VisitedSends(reg, m, listed, i) + (if listed[i] in reg.sockets then [Send(listed[i], m)] else [])
  {
    KeepAppend(listed[..i], [listed[i]], reg.sockets.Keys);
    assert listed[..i + 1] == listed[..i] + [listed[i]];
  }

  lemma VisitedAll(reg: Registry, m: Message, faults: set<SocketId>)
    requires m.event.channel in reg.channels
    ensures var listed := reg.channels[m.event.channel];
            && Visited(reg, m.event.channel, listed, |listed|, faults) == Broadcast(reg, m.event.channel, faults)
            && VisitedSends(reg, m, listed, |listed|) == BroadcastSends(reg, m)
  {
    var listed := reg.channels[m.event.channel];
    assert listed[..|listed|] == listed;
  }

  lemma ProcessStep(reg: Registry, results: seq<Entry<Payload>>, faults: seq<set<SocketId>>, i: nat)
    requires i < |results| == |faults|
    ensures var next := ProcessOne(reg, results[i], faults[i]);
            && Process(reg, results[i..], faults[i..]) == Process(next, results[i + 1..], faults[i + 1..])
            && ProcessSends(reg, results[i..], faults[i..]) ==
               SendsOne(reg, results[i]) + ProcessSends(next, results[i + 1..], faults[i + 1..])
  {
    assert results[i..][1..] == results[i + 1..] && faults[i..][1..] == faults[i + 1..];
  }

  /** The registry when a collection pass has still to clean the channels in `todo`. */
  ghost function Collected(reg: Registry, todo: set<ChannelId>): Registry {
    reg.(channels := map c | c in reg.channels && (c in todo || Keep(reg.channels[c], LiveIds(reg)) != [])
                         :: if c in todo then reg.channels[c] else Keep(reg.channels[c], LiveIds(reg)))
  }

  lemma CollectedNone(reg: Registry)
    ensures Collected(reg, reg.channels.Keys) == reg
  {
    assert Collected(reg, reg.channels.Keys).channels == reg.channels;
  }

  lemma CollectedAll(reg: Registry)
    ensures Collected(reg, {}) == Gc(reg)
  {
    assert Collected(reg, {}).channels == Gc(reg).channels;
  }

  lemma CollectStep(reg: Registry, todo: set<ChannelId>, c: ChannelId)
    requires c in todo
    ensures Clean(Collected(reg, todo), c) == Collected(reg, todo - {c})
  {
    var r := Collected(reg, todo);
    assert LiveIds(r) == LiveIds(reg);
    assert c in reg.channels ==> Listed(r, c) == Listed(reg, c);
    assert Clean(r, c).channels == Collected(reg, todo - {c}).channels;
  }

  lemma CleanTwice(reg: Registry, c: ChannelId)
    ensures Clean(Clean(reg, c), c) == Clean(reg, c)
  {
    var live := LiveIds(reg);
    assert LiveIds(Clean(reg, c)) == live;
    KeepTwice(Listed(reg, c), live, live);
  }

  lemma DisturbedStep(reg: Registry, listed: seq<SocketId>, i: nat, faults: set<SocketId>)
    requires i < |listed|
    ensures Disturbed(reg, listed[..i + 1], faults) <==>
            Disturbed(reg, listed[..i], faults) || listed[i] in faults || listed[i] !in reg.sockets
  {
    assert listed[..i + 1] == listed[..i] + [listed[i]];
    assert forall id :: id in listed[..i + 1] <==> id in listed[..i] || id == listed[i];
    if listed[i] in faults || listed[i] !in reg.sockets {
      assert listed[i] in listed[..i + 1];
    }
  }

  lemma {:induction false} FromPrefix<T>(s: seq<Entry<T>>, later: seq<Entry<T>>, start: Id)
    requires s <= later
    ensures From(s, start) <= From(later, start)
  {
    if s != [] && !AtMost(start, s[0].id) {
      FromPrefix(s[1..], later[1..], start);
    }
  }

  /** A reply that was read from an earlier stream is the reply, with some smaller count, to
      the same read of a later one: the stream may grow between a read and its processing. */
  lemma EarlierRead(current: seq<Entry<Payload>>, later: seq<Entry<Payload>>, since: nat, cursor: Option<Id>,
                    count: nat)
    requires current <= later && since <= |current|
    ensures var reply := XRead(current, since, cursor, count);
            |reply| <= count && reply == XRead(later, since, cursor, |reply|)
  {
    if cursor.Some? {
      FromPrefix(current, later, Successor(cursor.value));
    }
  }

  /** A read behind the cursor returns the stream's next entries. */
  lemma XReadIsSegment(current: seq<Entry<Payload>>, stream: seq<Entry<Payload>>, since: nat,
                       cursor: Option<Id>, count: nat, pos: nat)
    requires Sorted(stream) && current <= stream && since <= |current| && pos <= |current|
    requires cursor.Some? ==> pos > 0 && cursor.value == stream[pos - 1].id
    ensures var from := if cursor.None? then since else pos;
            var results := XRead(current, since, cursor, count);
            && from + |results| <= |current| && results == stream[from..from + |results|]
            && |results| == Min(|current| - from, count)
  {
    if cursor.Some? {
      assert current[pos - 1] == stream[pos - 1];
      AfterEntry(current, pos - 1);
    }
  }
}
