/** The two registries of the WebSocket server as values: `sockets`, from identifier to
    instance, and `channels`, an index from channel to identifiers that is cleaned lazily
    and may therefore name sockets that are gone. */
module SocketRegistry {
  import opened StreamIds
  import opened Streams

  datatype ChannelId = ChannelId(name: string)
  datatype SocketId = SocketId(uuid: nat)

  /** WebSocket ready states, in the only order in which a socket moves through them. */
  datatype ReadyState = Connecting | Open | Closing | Closed {
    function Rank(): nat {
      match this
      case Connecting => 0
      case Open => 1
      case Closing => 2
      case Closed => 3
    }

    predicate Active() {
      Connecting? || Open?
    }
  }

  datatype SocketInstance = SocketInstance(channel: ChannelId, pongTs: int, ready: ReadyState)

  datatype Registry = Registry(channels: map<ChannelId, seq<SocketId>>, sockets: map<SocketId, SocketInstance>)

  /** An async job event, numbered by the `update_job` call that published it. */
  datatype Event = Event(no: nat, channel: ChannelId)
  datatype Payload = Undecodable | Decoded(event: Event)

  /** `{ id, ...data }`, and one attempt to send it to a socket. */
  datatype Message = Message(id: Id, event: Event)
  datatype Send = Send(socket: SocketId, message: Message)

  // ---------- sequences ----------

  /** The elements of `s` that lie in `keep`, in order. */
  function Keep<T(==)>(s: seq<T>, keep: set<T>): seq<T> {
    if s == [] then []
    else if s[0] in keep then [s[0]] + Keep(s[1..], keep)
    else Keep(s[1..], keep)
  }

  predicate Distinct<T(==)>(s: seq<T>) {
    forall i, j :: 0 <= i < j < |s| ==> s[i] != s[j]
  }

  lemma ConsAppend<T>(x: T, a: seq<T>, b: seq<T>)
    ensures [x] + (a + b) == ([x] + a) + b
  {
  }

  lemma KeepMember<T>(s: seq<T>, keep: set<T>, x: T)
    ensures x in Keep(s, keep) <==> x in s && x in keep
  {
  }

  lemma {:induction false} KeepAppend<T>(a: seq<T>, b: seq<T>, keep: set<T>)
    ensures Keep(a + b, keep) == Keep(a, keep) + Keep(b, keep)
  {
    if a == [] {
      assert a + b == b;
    } else {
      assert (a + b)[0] == a[0] && (a + b)[1..] == a[1..] + b;
      KeepAppend(a[1..], b, keep);
      ConsAppend(a[0], Keep(a[1..], keep), Keep(b, keep));
    }
  }

  lemma {:induction false} KeepDistinct<T>(s: seq<T>, keep: set<T>)
    requires Distinct(s)
    ensures Distinct(Keep(s, keep))
  {
    if s != [] {
      KeepDistinct(s[1..], keep);
      KeepMember(s[1..], keep, s[0]);
      assert s[0] !in s[1..];
    }
  }

  /** `a` consists of elements of `b`, at increasing positions. */
  ghost predicate IsWithin<T(!new)>(a: seq<T>, b: seq<T>) {
    exists at: seq<nat> :: IsWithinAt(a, b, at)
  }

  ghost predicate IsWithinAt<T>(a: seq<T>, b: seq<T>, at: seq<nat>) {
    && |at| == |a|
    && (forall i, j :: 0 <= i < j < |at| ==> at[i] < at[j])
    && (forall i :: 0 <= i < |a| ==> at[i] < |b| && b[at[i]] == a[i])
  }

  lemma {:induction false} KeepIsWithin<T(!new)>(s: seq<T>, keep: set<T>)
    ensures IsWithin(Keep(s, keep), s)
  {
    var at := KeepAt(s, keep);
  }

  lemma {:induction false} KeepAt<T>(s: seq<T>, keep: set<T>) returns (at: seq<nat>)
    ensures IsWithinAt(Keep(s, keep), s, at)
  {
    if s == [] {
      at := [];
    } else {
      at := KeepAt(s[1..], keep);
      if s[0] in keep {
        ConsWithin(Keep(s[1..], keep), s, at);
        at := [0] + Shift(at);
      } else {
        ShiftWithin(Keep(s[1..], keep), s, at);
        at := Shift(at);
      }
    }
  }

  function Shift(at: seq<nat>): seq<nat> {
    seq(|at|, i requires 0 <= i < |at| => at[i] + 1)
  }

  lemma ShiftWithin<T>(a: seq<T>, s: seq<T>, at: seq<nat>)
    requires s != [] && IsWithinAt(a, s[1..], at)
    ensures IsWithinAt(a, s, Shift(at))
  {
  }

  lemma ConsWithin<T>(a: seq<T>, s: seq<T>, at: seq<nat>)
    requires s != [] && IsWithinAt(a, s[1..], at)
    ensures IsWithinAt([s[0]] + a, s, [0] + Shift(at))
  {
    ShiftWithin(a, s, at);
  }

  lemma {:induction false} KeepTwice<T>(s: seq<T>, a: set<T>, b: set<T>)
    requires b <= a
    ensures Keep(Keep(s, a), b) == Keep(s, b)
  {
    if s != [] {
      KeepTwice(s[1..], a, b);
      if s[0] in a {
        assert Keep(s, a)[1..] == Keep(s[1..], a);
      }
    }
  }

  // ---------- the operations ----------

  function Listed(reg: Registry, c: ChannelId): seq<SocketId> {
    if c in reg.channels then reg.channels[c] else []
  }

  function LiveIds(reg: Registry): set<SocketId> {
    set id | id in reg.sockets && reg.sockets[id].ready.Active()
  }

  predicate Live(reg: Registry, id: SocketId) {
    id in reg.sockets && reg.sockets[id].ready.Active()
  }

  /** `trackClient` with the identifier it draws. */
  function Track(reg: Registry, id: SocketId, instance: SocketInstance): Registry {
    Registry(reg.channels[instance.channel := Listed(reg, instance.channel) + [id]],
             reg.sockets[id := instance])
  }

  /** `cleanChannel`: keep the live sockets, forget the channel when none is left. */
  function Clean(reg: Registry, c: ChannelId): Registry {
    var active := Keep(Listed(reg, c), LiveIds(reg));
    reg.(channels := if active == [] then reg.channels - {c} else reg.channels[c := active])
  }

  /** A full pass of the channel garbage collection. */
  function Gc(reg: Registry): Registry {
    reg.(channels := map c | c in reg.channels && Keep(reg.channels[c], LiveIds(reg)) != []
                         :: Keep(reg.channels[c], LiveIds(reg)))
  }

  /** The sockets that survive `checkSockets`, when it reads `clock(id)` at socket `id`. */
  predicate Survives(instance: SocketInstance, now: int, timeout: int) {
    now - instance.pongTs < timeout && instance.ready.Active()
  }

  function Check(reg: Registry, clock: SocketId -> int, timeout: int): Registry {
    reg.(sockets := map id | id in reg.sockets && Survives(reg.sockets[id], clock(id), timeout)
                        :: reg.sockets[id])
  }

  function Pong(reg: Registry, id: SocketId, now: int): Registry {
    if id in reg.sockets then reg.(sockets := reg.sockets[id := reg.sockets[id].(pongTs := now)])
    else reg
  }

  function ChangeState(reg: Registry, id: SocketId, ready: ReadyState): Registry {
    if id in reg.sockets && reg.sockets[id].ready.Rank() <= ready.Rank()
    then reg.(sockets := reg.sockets[id := reg.sockets[id].(ready := ready)])
    else reg
  }

  /** Whether a broadcast meets a stale identifier, or one in `faults` whose send throws. */
  ghost predicate Disturbed(reg: Registry, listed: seq<SocketId>, faults: set<SocketId>) {
    exists id :: id in listed && (id in faults || id !in reg.sockets)
  }

  ghost function Broadcast(reg: Registry, c: ChannelId, faults: set<SocketId>): Registry {
    if Disturbed(reg, Listed(reg, c), faults) then Clean(reg, c) else reg
  }

  /** One send to each of `ids`, in order. */
  function Sends(ids: seq<SocketId>, m: Message): seq<Send> {
    seq(|ids|, i requires 0 <= i < |ids| => Send(ids[i], m))
  }

  /** The sends a broadcast attempts: one to every tracked socket that is listed. */
  function BroadcastSends(reg: Registry, m: Message): seq<Send> {
    Sends(Keep(Listed(reg, m.event.channel), reg.sockets.Keys), m)
  }

  /** `processStreamResults`: one broadcast after the other; entries that do not decode
      are dropped. `faults[i]` are the sockets whose send throws for entry `i`. */
  ghost function Process(reg: Registry, entries: seq<Entry<Payload>>, faults: seq<set<SocketId>>): Registry
    requires |faults| == |entries|
    decreases |entries|
  {
    if entries == [] then reg
    else Process(ProcessOne(reg, entries[0], faults[0]), entries[1..], faults[1..])
  }

  ghost function ProcessOne(reg: Registry, e: Entry<Payload>, faults: set<SocketId>): Registry {
    if e.data.Decoded? then Broadcast(reg, e.data.event.channel, faults) else reg
  }

  ghost function ProcessSends(reg: Registry, entries: seq<Entry<Payload>>, faults: seq<set<SocketId>>): seq<Send>
    requires |faults| == |entries|
    decreases |entries|
  {
    if entries == [] then []
    else
      SendsOne(reg, entries[0]) +
      ProcessSends(ProcessOne(reg, entries[0], faults[0]), entries[1..], faults[1..])
  }

  function SendsOne(reg: Registry, e: Entry<Payload>): seq<Send> {
    if e.data.Decoded? then BroadcastSends(reg, Message(e.id, e.data.event)) else []
  }

  // ---------- the invariant ----------

  /** No channel is empty, no identifier is listed twice anywhere, a tracked socket is
      listed under no channel but its own, and every live socket is listed. */
  ghost predicate Valid(reg: Registry) {
    && (forall c :: c in reg.channels ==> reg.channels[c] != [] && Distinct(reg.channels[c]))
    && (forall c, d, id :: c in reg.channels && d in reg.channels && c != d && id in reg.channels[c] ==>
                           id !in reg.channels[d])
    && (forall c, id :: c in reg.channels && id in reg.channels[c] && id in reg.sockets ==>
                        reg.sockets[id].channel == c)
    && (forall id :: Live(reg, id) ==> id in Listed(reg, reg.sockets[id].channel))
  }

  ghost predicate Unused(reg: Registry, id: SocketId) {
    id !in reg.sockets && forall c :: c in reg.channels ==> id !in reg.channels[c]
  }

  lemma TrackValid(reg: Registry, id: SocketId, instance: SocketInstance)
    requires Valid(reg) && Unused(reg, id)
    ensures Valid(Track(reg, id, instance))
  {
    var r := Track(reg, id, instance);
    var old' := Listed(reg, instance.channel);
    forall c | c in r.channels ensures r.channels[c] != [] && Distinct(r.channels[c]) {
    }
    forall x ensures x in old' + [id] <==> x in old' || x == id {
    }
  }

  lemma CleanValid(reg: Registry, c: ChannelId)
    requires Valid(reg)
    ensures Valid(Clean(reg, c))
  {
    var listed := Listed(reg, c);
    KeepDistinct(listed, LiveIds(reg));
    forall id ensures id in Keep(listed, LiveIds(reg)) <==> id in listed && Live(reg, id) {
      KeepMember(listed, LiveIds(reg), id);
    }
  }

  lemma GcMember(reg: Registry, c: ChannelId, id: SocketId)
    ensures id in Listed(Gc(reg), c) <==> id in Listed(reg, c) && Live(reg, id)
  {
    KeepMember(Listed(reg, c), LiveIds(reg), id);
  }

  lemma GcValid(reg: Registry)
    requires Valid(reg)
    ensures Valid(Gc(reg))
  {
    var r := Gc(reg);
    forall c | c in r.channels ensures Distinct(r.channels[c]) {
      KeepDistinct(reg.channels[c], LiveIds(reg));
    }
    forall c, d, id | c in r.channels && d in r.channels && c != d && id in r.channels[c]
      ensures id !in r.channels[d]
    {
      GcMember(reg, c, id);
      GcMember(reg, d, id);
    }
    forall c, id | c in r.channels && id in r.channels[c] && id in r.sockets
      ensures r.sockets[id].channel == c
    {
      GcMember(reg, c, id);
    }
    forall id | Live(r, id) ensures id in Listed(r, r.sockets[id].channel) {
      assert Live(reg, id);
      GcMember(reg, reg.sockets[id].channel, id);
    }
  }

  lemma CheckValid(reg: Registry, clock: SocketId -> int, timeout: int)
    requires Valid(reg)
    ensures Valid(Check(reg, clock, timeout))
  {
  }

  lemma PongValid(reg: Registry, id: SocketId, now: int)
    requires Valid(reg)
    ensures Valid(Pong(reg, id, now))
  {
    assert forall x :: Live(Pong(reg, id, now), x) ==> Live(reg, x);
  }

  /** The ready states that a socket can be in after `a`. */
  predicate Forward(a: ReadyState, b: ReadyState) {
    match a
    case Connecting => true
    case Open => !b.Connecting?
    case Closing => b.Closing? || b.Closed?
    case Closed => b.Closed?
  }

  lemma ChangeStateValid(reg: Registry, id: SocketId, ready: ReadyState)
    requires Valid(reg)
    ensures Valid(ChangeState(reg, id, ready))
    ensures forall x :: Live(ChangeState(reg, id, ready), x) ==> Live(reg, x)
    ensures var r := ChangeState(reg, id, ready);
            && r.channels == reg.channels && r.sockets.Keys == reg.sockets.Keys
            && (forall x :: x in r.sockets && x != id ==> r.sockets[x] == reg.sockets[x])
            && (id in r.sockets ==>
                  r.sockets[id] == if Forward(reg.sockets[id].ready, ready) then reg.sockets[id].(ready := ready)
                                   else reg.sockets[id])
  {
  }

  lemma BroadcastValid(reg: Registry, c: ChannelId, faults: set<SocketId>)
    requires Valid(reg)
    ensures Valid(Broadcast(reg, c, faults))
  {
    CleanValid(reg, c);
  }

  lemma {:induction false} ProcessValid(reg: Registry, entries: seq<Entry<Payload>>, faults: seq<set<SocketId>>)
    requires Valid(reg) && |faults| == |entries|
    ensures Valid(Process(reg, entries, faults))
    ensures Process(reg, entries, faults).sockets == reg.sockets
    decreases |entries|
  {
    if entries != [] {
      if entries[0].data.Decoded? {
        BroadcastValid(reg, entries[0].data.event.channel, faults[0]);
      }
      ProcessValid(ProcessOne(reg, entries[0], faults[0]), entries[1..], faults[1..]);
    }
  }

  /** Batches one after the other are one longer batch. */
  lemma {:induction false} ProcessAppend(reg: Registry, a: seq<Entry<Payload>>, fa: seq<set<SocketId>>,
                                         b: seq<Entry<Payload>>, fb: seq<set<SocketId>>)
    requires |fa| == |a| && |fb| == |b|
    ensures Process(reg, a + b, fa + fb) == Process(Process(reg, a, fa), b, fb)
    ensures ProcessSends(reg, a + b, fa + fb) ==
            ProcessSends(reg, a, fa) + ProcessSends(Process(reg, a, fa), b, fb)
    decreases |a|
  {
    if a == [] {
      assert a + b == b && fa + fb == fb;
    } else {
      assert (a + b)[0] == a[0] && (a + b)[1..] == a[1..] + b;
      assert (fa + fb)[0] == fa[0] && (fa + fb)[1..] == fa[1..] + fb;
      ProcessAppend(ProcessOne(reg, a[0], fa[0]), a[1..], fa[1..], b, fb);
    }
  }

  // ---------- garbage collection is complete ----------

  /** `channels` groups `sockets` by channel: no empty list, no dangling identifier, none
      missing and none twice. */
  ghost predicate IsGrouping(reg: Registry) {
    && (forall c :: c in reg.channels ==> reg.channels[c] != [] && Distinct(reg.channels[c]))
    && (forall c, id :: id in Listed(reg, c) <==> id in reg.sockets && reg.sockets[id].channel == c)
  }

  lemma GcIsGrouping(reg: Registry)
    requires Valid(reg) && forall x :: x in reg.sockets ==> Live(reg, x)
    ensures IsGrouping(Gc(reg))
  {
    GcValid(reg);
    forall c, id ensures id in Listed(Gc(reg), c) <==> id in reg.sockets && reg.sockets[id].channel == c {
      CollectedMember(reg, c, id);
    }
  }

  /** After `checkSockets` and a full collection pass, `channels` is exactly the grouping
      of `sockets` by channel: the sockets that answered in time and are not closing, in
      the order in which they were listed before. */
  lemma CollectedIsGrouping(reg: Registry, clock: SocketId -> int, timeout: int)
    requires Valid(reg)
    ensures var r := Gc(Check(reg, clock, timeout));
            && Valid(r) && IsGrouping(r)
            && (forall id :: id in r.sockets <==>
                             id in reg.sockets && clock(id) - reg.sockets[id].pongTs < timeout &&
                             (reg.sockets[id].ready == ReadyState.Open ||
                              reg.sockets[id].ready == ReadyState.Connecting))
            && (forall id :: id in r.sockets ==> r.sockets[id] == reg.sockets[id])
            && (forall c :: c in r.channels ==> c in reg.channels && IsWithin(r.channels[c], reg.channels[c]))
  {
    var checked := Check(reg, clock, timeout);
    CheckValid(reg, clock, timeout);
    GcValid(checked);
    GcIsGrouping(checked);
    forall c | c in Gc(checked).channels ensures IsWithin(Gc(checked).channels[c], reg.channels[c]) {
      KeepIsWithin(reg.channels[c], LiveIds(checked));
    }
  }

  lemma CollectedMember(reg: Registry, c: ChannelId, id: SocketId)
    requires Valid(reg) && forall x :: x in reg.sockets ==> Live(reg, x)
    ensures id in Listed(Gc(reg), c) <==> id in reg.sockets && reg.sockets[id].channel == c
  {
    GcMember(reg, c, id);
  }

  // ---------- what is sent to whom ----------

  /** The messages attempted on one socket, in order. */
  function SendsTo(sent: seq<Send>, id: SocketId): seq<Message> {
    if sent == [] then []
    else if sent[0].socket == id then [sent[0].message] + SendsTo(sent[1..], id)
    else SendsTo(sent[1..], id)
  }

  /** The messages of one channel among stream entries, in order. */
  function ChannelMessages(entries: seq<Entry<Payload>>, c: ChannelId): seq<Message> {
    if entries == [] then []
    else if IsEventOf(entries[0], c)
    then [Message(entries[0].id, entries[0].data.event)] + ChannelMessages(entries[1..], c)
    else ChannelMessages(entries[1..], c)
  }

  predicate IsEventOf(e: Entry<Payload>, c: ChannelId) {
    e.data.Decoded? && e.data.event.channel == c
  }

  lemma {:induction false} SendsToAppend(a: seq<Send>, b: seq<Send>, id: SocketId)
    ensures SendsTo(a + b, id) == SendsTo(a, id) + SendsTo(b, id)
  {
    if a == [] {
      assert a + b == b;
    } else {
      assert (a + b)[0] == a[0] && (a + b)[1..] == a[1..] + b;
      SendsToAppend(a[1..], b, id);
      ConsAppend(a[0].message, SendsTo(a[1..], id), SendsTo(b, id));
    }
  }

  lemma {:induction false} SendsToOnce(ids: seq<SocketId>, m: Message, id: SocketId)
    requires Distinct(ids)
    ensures SendsTo(Sends(ids, m), id) == if id in ids then [m] else []
  {
    if ids != [] {
      SendsToOnce(ids[1..], m, id);
      assert Sends(ids, m)[1..] == Sends(ids[1..], m);
      assert ids[0] !in ids[1..];
    }
  }

  /** A broadcast sends once to each tracked socket that is listed, and to no socket of
      another channel. */
  lemma BroadcastReaches(reg: Registry, m: Message, id: SocketId)
    requires Valid(reg)
    ensures SendsTo(BroadcastSends(reg, m), id) ==
            if id in Listed(reg, m.event.channel) && id in reg.sockets then [m] else []
    ensures Live(reg, id) ==>
            SendsTo(BroadcastSends(reg, m), id) == if reg.sockets[id].channel == m.event.channel then [m] else []
    ensures SendsTo(BroadcastSends(reg, m), id) != [] ==>
            id in reg.sockets && reg.sockets[id].channel == m.event.channel
  {
    var listed := Listed(reg, m.event.channel);
    KeepDistinct(listed, reg.sockets.Keys);
    KeepMember(listed, reg.sockets.Keys, id);
    SendsToOnce(Keep(listed, reg.sockets.Keys), m, id);
  }

  lemma OneReaches(reg: Registry, e: Entry<Payload>, id: SocketId)
    requires Valid(reg) && Live(reg, id)
    ensures SendsTo(SendsOne(reg, e), id) ==
            if IsEventOf(e, reg.sockets[id].channel) then [Message(e.id, e.data.event)] else []
  {
    if e.data.Decoded? {
      BroadcastReaches(reg, Message(e.id, e.data.event), id);
    }
  }

  lemma OneKeeps(reg: Registry, e: Entry<Payload>, faults: set<SocketId>)
    requires Valid(reg)
    ensures Valid(ProcessOne(reg, e, faults)) && ProcessOne(reg, e, faults).sockets == reg.sockets
  {
    if e.data.Decoded? {
      BroadcastValid(reg, e.data.event.channel, faults);
    }
  }

  /** Every batch of entries reaches every live socket with exactly the messages of its
      channel, in order and once each, whatever sends throw and whatever is cleaned up
      on the way. */
  lemma {:induction false} ProcessReaches(reg: Registry, entries: seq<Entry<Payload>>, faults: seq<set<SocketId>>,
                                          id: SocketId)
    requires Valid(reg) && |faults| == |entries| && Live(reg, id)
    ensures SendsTo(ProcessSends(reg, entries, faults), id) == ChannelMessages(entries, reg.sockets[id].channel)
    decreases |entries|
  {
    if entries != [] {
      var e := entries[0];
      var next := ProcessOne(reg, e, faults[0]);
      OneReaches(reg, e, id);
      OneKeeps(reg, e, faults[0]);
      ProcessReaches(next, entries[1..], faults[1..], id);
      SendsToAppend(SendsOne(reg, e), ProcessSends(next, entries[1..], faults[1..]), id);
    }
  }

  /** No message ever goes to a socket of another channel than the event's. */
  lemma {:induction false} ProcessConfined(reg: Registry, entries: seq<Entry<Payload>>, faults: seq<set<SocketId>>,
                                           s: Send)
    requires Valid(reg) && |faults| == |entries| && s in ProcessSends(reg, entries, faults)
    ensures s.socket in reg.sockets && reg.sockets[s.socket].channel == s.message.event.channel
    decreases |entries|
  {
    var e := entries[0];
    var next := ProcessOne(reg, e, faults[0]);
    if s in SendsOne(reg, e) {
      KeepMember(Listed(reg, e.data.event.channel), reg.sockets.Keys, s.socket);
    } else {
      ProcessValid(reg, entries[..1], faults[..1]);
      if e.data.Decoded? {
        BroadcastValid(reg, e.data.event.channel, faults[0]);
      }
      ProcessConfined(next, entries[1..], faults[1..], s);
    }
  }
}
