/** Delivery of async job events from end to end, as a transition system: publishers that
    append to two streams one after the other, the WebSocket server's callbacks, and the
    sockets. Every step is one callback or one store operation; any interleaving is a run. */
module DeliveryProtocol {
  import opened Wrappers
  import opened StreamIds
  import opened Streams
  import opened SocketRegistry
  import opened WebSocketServer

  /** Where an `update_job` call stands after its first append. */
  datatype Stage = Appended | Published | Failed
  datatype Job = Job(event: Event, stage: Stage)

  /** The range read of one connection; the reply is fixed when the store answers and is
      processed later. */
  datatype CatchUp =
    | NotAsked
    | Asked
    | Fetched(reply: seq<Entry<Payload>>)
    | Replied(reply: seq<Entry<Payload>>)
    | ReadFailed

  /** A connection: its channel, the range `start..end` it asks for, and how far the log
      and the firehose had got when it was made. */
  datatype Conn = Conn(channel: ChannelId, start: Option<Id>, end: Option<Id>, catchUp: CatchUp,
                       logFrom: nat, readFrom: nat)

  /** The listener's input, with where it came from. */
  datatype Source = Firehose | CatchUpOf(socket: SocketId)
  datatype Handed = Handed(entry: Entry<Payload>, source: Source)

  datatype System = System(
    scoped: map<ChannelId, seq<Entry<Payload>>>,
    full: seq<Entry<Payload>>,
    jobs: map<nat, Job>,
    reg: Registry,
    cursor: Option<Id>,
    first: nat,
    pos: nat,
    conns: map<SocketId, Conn>,
    log: seq<Handed>,
    sent: seq<Send>)

  datatype Label =
    | PublishScoped(no: nat, channel: ChannelId, id: Id)
    | PublishFull(no: nat, id: Id)
    | PublishFail(no: nat)
    | Foreign(stream: Option<ChannelId>, id: Id)
    | FirehoseBatch(since: nat, count: nat, faults: seq<set<SocketId>>)
    | Connect(socket: SocketId, channel: ChannelId, last: Option<Id>, now: int)
    | Fetch(socket: SocketId)
    | FetchFails(socket: SocketId)
    | ProcessReply(socket: SocketId, faults: seq<set<SocketId>>)
    | PongReceived(socket: SocketId, now: int)
    | SocketMoves(socket: SocketId, ready: ReadyState)
    | CheckAll(clock: SocketId -> int, timeout: int)
    | GcPass

  const INIT := System(map[], [], map[], Registry(map[], map[]), None, 0, 0, map[], [], [])

  function Scoped(s: System, c: ChannelId): seq<Entry<Payload>> {
    if c in s.scoped then s.scoped[c] else []
  }

  predicate InRange(k: Conn, id: Id) {
    k.start.Some? && AtMost(k.start.value, id) && (k.end.Some? ==> AtMost(id, k.end.value))
  }

  // ---------- steps ----------

  function Batch(s: System, since: nat, count: nat): seq<Entry<Payload>>
    requires since <= |s.full|
  {
    XRead(s.full, since, s.cursor, count)
  }

  function Tag(entries: seq<Entry<Payload>>, source: Source): seq<Handed> {
    seq(|entries|, i requires 0 <= i < |entries| => Handed(entries[i], source))
  }

  /** One call of the listener. */
  ghost function Hand(s: System, entries: seq<Entry<Payload>>, source: Source, faults: seq<set<SocketId>>): System
    requires |faults| == |entries|
  {
    s.(reg := Process(s.reg, entries, faults),
       sent := s.sent + ProcessSends(s.reg, entries, faults),
       log := s.log + Tag(entries, source))
  }

  /** The firehose's read returns and its batch is handed over. This is one step although
      the read is awaited: by `EarlierRead`, what was read before other steps appended more
      is also what a read with some smaller count returns now, and any count is allowed. */
  ghost predicate CanDeliver(s: System, since: nat, count: nat, faults: seq<set<SocketId>>) {
    since <= |s.full| && Batch(s, since, count) != [] && |faults| == |Batch(s, since, count)|
  }

  function BatchStart(s: System, since: nat): nat {
    if s.cursor.None? then since else s.pos
  }

  ghost function Deliver(s: System, since: nat, count: nat, faults: seq<set<SocketId>>): System
    requires CanDeliver(s, since, count, faults)
  {
    var entries := Batch(s, since, count);
    Hand(s, entries, Firehose, faults)
    .(cursor := Some(entries[|entries| - 1].id),
      first := if s.cursor.None? then since else s.first,
      pos := BatchStart(s, since) + |entries|)
  }

  function Opened(s: System, channel: ChannelId, last: Option<Id>): Conn {
    Conn(channel, if last.None? then None else Some(Successor(last.value)), s.cursor,
         if last.None? then NotAsked else Asked, |s.log|, s.pos)
  }

  function OpenConn(s: System, socket: SocketId, channel: ChannelId, last: Option<Id>, now: int): System {
    s.(reg := Track(s.reg, socket, SocketInstance(channel, now, ReadyState.Open)),
       conns := s.conns[socket := Opened(s, channel, last)])
  }

  function RangeReply(s: System, k: Conn): seq<Entry<Payload>> {
    if k.start.None? then [] else Range(Scoped(s, k.channel), k.start.value, k.end)
  }

  function SetCatchUp(s: System, socket: SocketId, catchUp: CatchUp): System
    requires socket in s.conns
  {
    s.(conns := s.conns[socket := s.conns[socket].(catchUp := catchUp)])
  }

  /** The reply of a range read is processed. */
  ghost predicate CanReply(s: System, socket: SocketId, faults: seq<set<SocketId>>) {
    socket in s.conns && s.conns[socket].catchUp.Fetched? && |faults| == |s.conns[socket].catchUp.reply|
  }

  ghost function ReplyStep(s: System, socket: SocketId, faults: seq<set<SocketId>>): System
    requires CanReply(s, socket, faults)
  {
    var reply := s.conns[socket].catchUp.reply;
    SetCatchUp(Hand(s, reply, CatchUpOf(socket), faults), socket, Replied(reply))
  }

  ghost predicate Enabled(s: System, l: Label) {
    match l
    case PublishScoped(no, channel, id) => no !in s.jobs && CanAppend(Scoped(s, channel), id)
    case PublishFull(no, id) => no in s.jobs && s.jobs[no].stage.Appended? && CanAppend(s.full, id)
    case PublishFail(no) => no in s.jobs && s.jobs[no].stage.Appended?
    case Foreign(stream, id) => CanAppend(if stream.None? then s.full else Scoped(s, stream.value), id)
    case FirehoseBatch(since, count, faults) => CanDeliver(s, since, count, faults)
    case Connect(socket, _, _, _) => socket !in s.conns
    case Fetch(socket) => socket in s.conns && s.conns[socket].catchUp.Asked?
    case FetchFails(socket) => socket in s.conns && s.conns[socket].catchUp.Asked?
    case ProcessReply(socket, faults) => CanReply(s, socket, faults)
    case _ => true
  }

  ghost function Next(s: System, l: Label): System
    requires Enabled(s, l)
  {
    match l
    case PublishScoped(no, channel, id) =>
      var event := Event(no, channel);
      s.(scoped := s.scoped[channel := Scoped(s, channel) + [Entry(id, Decoded(event))]],
         jobs := s.jobs[no := Job(event, Appended)])
    case PublishFull(no, id) =>
      s.(full := s.full + [Entry(id, Decoded(s.jobs[no].event))],
         jobs := s.jobs[no := s.jobs[no].(stage := Published)])
    case PublishFail(no) =>
      s.(jobs := s.jobs[no := s.jobs[no].(stage := Stage.Failed)])
    case Foreign(stream, id) =>
      if stream.None? then s.(full := s.full + [Entry(id, Undecodable)])
      else s.(scoped := s.scoped[stream.value := Scoped(s, stream.value) + [Entry(id, Undecodable)]])
    case FirehoseBatch(since, count, faults) => Deliver(s, since, count, faults)
    case Connect(socket, channel, last, now) => OpenConn(s, socket, channel, last, now)
    case Fetch(socket) => SetCatchUp(s, socket, Fetched(RangeReply(s, s.conns[socket])))
    case FetchFails(socket) => SetCatchUp(s, socket, ReadFailed)
    case ProcessReply(socket, faults) => ReplyStep(s, socket, faults)
    case PongReceived(socket, now) => s.(reg := Pong(s.reg, socket, now))
    case SocketMoves(socket, ready) => s.(reg := ChangeState(s.reg, socket, ready))
    case CheckAll(clock, timeout) => s.(reg := Check(s.reg, clock, timeout))
    case GcPass => s.(reg := Gc(s.reg))
  }

  ghost predicate Legal(s: System, run: seq<Label>)
    decreases |run|
  {
    run == [] || (Enabled(s, run[0]) && Legal(Next(s, run[0]), run[1..]))
  }

  ghost function Final(s: System, run: seq<Label>): System
    requires Legal(s, run)
    decreases |run|
  {
    if run == [] then s else Final(Next(s, run[0]), run[1..])
  }

  // ---------- views of the log ----------

  function Untag(log: seq<Handed>): seq<Entry<Payload>> {
    seq(|log|, i requires 0 <= i < |log| => log[i].entry)
  }

  /** The entries that came from the firehose, in order. */
  function FirehosePart(log: seq<Handed>): seq<Entry<Payload>> {
    if log == [] then []
    else if log[0].source == Firehose then [log[0].entry] + FirehosePart(log[1..])
    else FirehosePart(log[1..])
  }

  lemma {:induction false} FirehosePartAppend(a: seq<Handed>, b: seq<Handed>)
    ensures FirehosePart(a + b) == FirehosePart(a) + FirehosePart(b)
  {
    if a == [] {
      assert a + b == b;
    } else {
      assert (a + b)[0] == a[0] && (a + b)[1..] == a[1..] + b;
      FirehosePartAppend(a[1..], b);
      ConsAppend(a[0].entry, FirehosePart(a[1..]), FirehosePart(b));
    }
  }

  lemma {:induction false} FirehosePartTag(entries: seq<Entry<Payload>>, source: Source)
    ensures FirehosePart(Tag(entries, source)) == if source == Firehose then entries else []
  {
    if entries != [] {
      FirehosePartTag(entries[1..], source);
      assert Tag(entries, source)[1..] == Tag(entries[1..], source);
    }
  }

  lemma FirehosePartMember(log: seq<Handed>, x: Entry<Payload>)
    ensures x in FirehosePart(log) <==> Handed(x, Firehose) in log
  {
  }

  lemma {:induction false} ChannelMessagesAppend(a: seq<Entry<Payload>>, b: seq<Entry<Payload>>, c: ChannelId)
    ensures ChannelMessages(a + b, c) == ChannelMessages(a, c) + ChannelMessages(b, c)
  {
    if a == [] {
      assert a + b == b;
    } else {
      assert (a + b)[0] == a[0] && (a + b)[1..] == a[1..] + b;
      ChannelMessagesAppend(a[1..], b, c);
      if IsEventOf(a[0], c) {
        ConsAppend(Message(a[0].id, a[0].data.event), ChannelMessages(a[1..], c), ChannelMessages(b, c));
      }
    }
  }

  lemma ChannelMessagesMember(entries: seq<Entry<Payload>>, c: ChannelId, m: Message)
    ensures m in ChannelMessages(entries, c) <==> m.event.channel == c && Entry(m.id, Decoded(m.event)) in entries
  {
  }

  lemma UntagMember(log: seq<Handed>, x: Entry<Payload>)
    ensures x in Untag(log) <==> exists h :: h in log && h.entry == x
  {
    if x in Untag(log) {
      var i :| 0 <= i < |log| && Untag(log)[i] == x;
      assert log[i] in log;
    }
    if h :| h in log && h.entry == x {
      var i :| 0 <= i < |log| && log[i] == h;
      assert Untag(log)[i] == x;
    }
  }

  /** The numbers of the job events among stream entries, with multiplicity. */
  function Numbers(entries: seq<Entry<Payload>>): multiset<nat> {
    if entries == [] then multiset{} else Number(entries[0]) + Numbers(entries[1..])
  }

  function Number(e: Entry<Payload>): multiset<nat> {
    if e.data.Decoded? then multiset{e.data.event.no} else multiset{}
  }

  /** Those of one channel. */
  function ChannelNumbers(entries: seq<Entry<Payload>>, c: ChannelId): multiset<nat> {
    if entries == [] then multiset{} else ChannelNumber(entries[0], c) + ChannelNumbers(entries[1..], c)
  }

  function ChannelNumber(e: Entry<Payload>, c: ChannelId): multiset<nat> {
    if e.data.Decoded? && e.data.event.channel == c then multiset{e.data.event.no} else multiset{}
  }

  lemma {:induction false} NumbersAppend(a: seq<Entry<Payload>>, b: seq<Entry<Payload>>)
    ensures Numbers(a + b) == Numbers(a) + Numbers(b)
  {
    if a == [] {
      assert a + b == b;
    } else {
      assert (a + b)[0] == a[0] && (a + b)[1..] == a[1..] + b;
      NumbersAppend(a[1..], b);
      assert Numbers(a + b) == Number(a[0]) + Numbers(a[1..] + b);
    }
  }

  lemma {:induction false} ChannelNumbersAppend(a: seq<Entry<Payload>>, b: seq<Entry<Payload>>, c: ChannelId)
    ensures ChannelNumbers(a + b, c) == ChannelNumbers(a, c) + ChannelNumbers(b, c)
  {
    if a == [] {
      assert a + b == b;
    } else {
      assert (a + b)[0] == a[0] && (a + b)[1..] == a[1..] + b;
      ChannelNumbersAppend(a[1..], b, c);
      assert ChannelNumbers(a + b, c) == ChannelNumber(a[0], c) + ChannelNumbers(a[1..] + b, c);
    }
  }

  /** The events of a channel whose publisher stands between its two appends or failed
      there. */
  function Pending(s: System, c: ChannelId): set<nat> {
    set no | no in s.jobs && s.jobs[no].event.channel == c && !s.jobs[no].stage.Published?
  }

  // ---------- invariants ----------

  ghost predicate IsScoped(s: System, event: Event) {
    exists x :: x in Scoped(s, event.channel) && x.data == Decoded(event)
  }

  ghost predicate ScopedOk(s: System) {
    && (forall c :: Sorted(Scoped(s, c)))
    && (forall c, x :: x in Scoped(s, c) && x.data.Decoded? ==>
                       x.data.event.channel == c && x.data.event.no in s.jobs &&
                       s.jobs[x.data.event.no].event == x.data.event)
    && (forall no :: no in s.jobs ==> s.jobs[no].event.no == no && IsScoped(s, s.jobs[no].event))
  }

  ghost predicate FullOk(s: System) {
    && Sorted(s.full)
    && (forall x :: x in s.full && x.data.Decoded? ==>
                    x.data.event.no in s.jobs && s.jobs[x.data.event.no] == Job(x.data.event, Published))
    && (forall i, j :: 0 <= i < j < |s.full| && s.full[i].data.Decoded? ==> s.full[i].data != s.full[j].data)
  }

  ghost predicate PublishOk(s: System) {
    forall c :: Numbers(Scoped(s, c)) == ChannelNumbers(s.full, c) + multiset(Pending(s, c))
  }

  ghost predicate CursorOk(s: System) {
    CursorAt(s.full, FirehosePart(s.log), s.cursor, s.first, s.pos)
  }

  /** The entries handed over so far end at the cursor. */
  ghost predicate CursorAt(full: seq<Entry<Payload>>, handed: seq<Entry<Payload>>, cursor: Option<Id>,
                           first: nat, pos: nat)
  {
    Follows(full, handed, cursor, first, pos) && (first == pos ==> pos == 0)
  }

  ghost predicate RegOk(s: System) {
    && Valid(s.reg)
    && (forall id :: id in s.reg.sockets ==> id in s.conns && s.reg.sockets[id].channel == s.conns[id].channel)
    && (forall c, id :: c in s.reg.channels && id in s.reg.channels[c] ==> id in s.conns)
    && (forall x :: x in s.sent ==> x.socket in s.conns)
  }

  /** Each connection made with a concrete cursor has since seen exactly the firehose from
      that cursor on. */
  ghost predicate ConnOk(s: System, id: SocketId, k: Conn) {
    && k.logFrom <= |s.log|
    && k.readFrom <= s.pos <= |s.full|
    && (k.end.Some? ==> s.first < k.readFrom && k.end == Some(s.full[k.readFrom - 1].id) &&
                        FirehosePart(s.log[k.logFrom..]) == s.full[k.readFrom..s.pos])
    && ReplyOk(s, k)
    && (k.catchUp.Replied? ==> forall x :: x in k.catchUp.reply ==> Handed(x, CatchUpOf(id)) in s.log[k.logFrom..])
  }

  /** The reply of a range read holds only entries of the range, and every event of the
      range that the firehose had delivered when the connection was made. */
  ghost predicate ReplyOk(s: System, k: Conn) {
    k.catchUp.Fetched? || k.catchUp.Replied? ==>
      && k.readFrom <= |s.full|
      && (forall x :: x in k.catchUp.reply ==> x in Scoped(s, k.channel) && InRange(k, x.id))
      && (forall i, x :: 0 <= i < k.readFrom && x in Scoped(s, k.channel) && InRange(k, x.id) ==>
                         (x.data.Decoded? && x.data == s.full[i].data ==> x in k.catchUp.reply))
  }

  ghost predicate SourcesOk(s: System) {
    forall h :: h in s.log && h.source.CatchUpOf? ==>
                h.source.socket in s.conns && s.conns[h.source.socket].catchUp.Replied? &&
                h.entry in s.conns[h.source.socket].catchUp.reply
  }

  /** What was sent to a live socket is what the listener was handed since it connected,
      restricted to its channel. */
  ghost predicate SentOk(s: System, id: SocketId) {
    Live(s.reg, id) && id in s.conns && s.conns[id].logFrom <= |s.log| ==>
      SendsTo(s.sent, id) == ChannelMessages(Untag(s.log[s.conns[id].logFrom..]), s.conns[id].channel)
  }

  ghost predicate Inv(s: System) {
    && ScopedOk(s) && FullOk(s) && PublishOk(s) && CursorOk(s) && RegOk(s) && SourcesOk(s)
    && (forall id :: id in s.conns ==> ConnOk(s, id, s.conns[id]))
    && (forall id :: SentOk(s, id))
  }
}
