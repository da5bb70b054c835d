/** The publishing side of async events. */
module AsyncQueryManager {
  import opened Wrappers
  import opened StreamIds
  import opened Streams
  import opened SocketRegistry

  datatype UpdateError = CacheBackendNotInitialized | NoChannelId | NoJobId | AppendFailed

  /** Which of the two appends the store refuses, if any. */
  datatype Refusal = NoRefusal | FirstRefused | SecondRefused

  class Store {
    var scoped: map<ChannelId, seq<Entry<Payload>>>
    var full: seq<Entry<Payload>>

    function ChannelStream(c: ChannelId): seq<Entry<Payload>>
      reads this
    {
      if c in scoped then scoped[c] else []
    }

    /** `XADD` with an identifier that the store picks above the last one. */
    method Append(c: Option<ChannelId>, id: Id, data: Payload)
      requires CanAppend(if c.None? then full else ChannelStream(c.value), id)
      requires Sorted(if c.None? then full else ChannelStream(c.value))
      modifies this
      ensures c.None? ==> full == old(full) + [Entry(id, data)] && scoped == old(scoped)
      ensures c.Some? ==> full == old(full) &&
                          scoped == old(scoped)[c.value := old(ChannelStream(c.value)) + [Entry(id, data)]]
      ensures Sorted(if c.None? then full else ChannelStream(c.value))
    {
      ghost var before := if c.None? then full else ChannelStream(c.value);
      forall i | 0 <= i < |before| ensures Less(before[i].id, id) {
        assert i == |before| - 1 || Less(before[i].id, before[|before| - 1].id);
      }
      if c.None? {
        full := full + [Entry(id, data)];
      } else {
        scoped := scoped[c.value := ChannelStream(c.value) + [Entry(id, data)]];
      }
    }
  }

  class Manager {
    var cache: Store?

    constructor (cache: Store?)
      ensures this.cache == cache
    {
      this.cache := cache;
    }

    /** `update_job`: the event goes to its channel's stream first and to the global stream
        second, so that no interruption leaves it in the global stream alone. */
    method UpdateJob(channelId: Option<ChannelId>, hasJobId: bool, no: nat, scopedId: Id, fullId: Id, refusal: Refusal)
      returns (error: Option<UpdateError>)
      requires cache != null && channelId.Some? ==>
                 CanAppend(cache.ChannelStream(channelId.value), scopedId) && CanAppend(cache.full, fullId) &&
                 Sorted(cache.ChannelStream(channelId.value)) && Sorted(cache.full)
      modifies cache
      ensures cache == old(cache)
      ensures error == if cache == null then Some(CacheBackendNotInitialized)
                       else if channelId.None? then Some(NoChannelId)
                       else if !hasJobId then Some(NoJobId)
                       else if !refusal.NoRefusal? then Some(AppendFailed) else None
      ensures cache != null && (channelId.None? || !hasJobId || refusal.FirstRefused?) ==>
                cache.scoped == old(cache.scoped) && cache.full == old(cache.full)
      ensures cache != null && channelId.Some? && hasJobId && !refusal.FirstRefused? ==>
                var event := Decoded(Event(no, channelId.value));
                && cache.scoped == old(cache.scoped)[channelId.value :=
                                     old(cache.ChannelStream(channelId.value)) + [Entry(scopedId, event)]]
                && cache.full == old(cache.full) + if refusal.SecondRefused? then [] else [Entry(fullId, event)]
    {
      if cache == null {
        return Some(CacheBackendNotInitialized);
      }
      if channelId.None? {
        return Some(NoChannelId);
      }
      if !hasJobId {
        return Some(NoJobId);
      }
      if refusal.FirstRefused? {
        return Some(AppendFailed);
      }
      var event := Decoded(Event(no, channelId.value));
      cache.Append(channelId, scopedId, event);
      if refusal.SecondRefused? {
        return Some(AppendFailed);
      }
      cache.Append(None, fullId, event);
      error := None;
    }
  }
}
