/**
 The record core's test scripts replayed on the model: the online suite
 (connected transport, cache miss, then the READ_RESPONSE fixture) and the
 offline suite (disconnected transport, cache hit at version 1).
 */
module Scenarios {
  import opened Wrappers
  import opened Json
  import opened Protocol
  import opened RecordCore
  import opened Lifecycle
  import Correlation

  /** The READ_RESPONSE fixture: version 1 and an empty tree */
  function ReadResponseFixture(name: string): (m: Message)
    ensures IsReadResponse(m) && m.name == name
    ensures m.version == Some(1) && m.parsedData == Some(JObject(map[]))
  {
    Message(RECORD, READ_RESPONSE, name, None, Some(JObject(map[])), Some(1), None)
  }

  /** The tree the offline cache holds for the record */
  function Wolfram(): Tree {
    map["firstname" := JString("wolfram")]
  }

  function Bob(): Tree {
    map["firstname" := JString("Bob")]
  }

  /** Online: construction subscribes once, the cache miss changes nothing, and writes before the read are dropped */
  lemma OnlineWritesBeforeReadyDropped(name: string, timeout: nat, req: SetRequest)
    ensures var s0 := Next(New(name, true, timeout), Open);
            var s1 := Next(s0.record, CacheLoaded(CacheMiss));
            var s2 := Next(s1.record, Set(req));
            && s0.effects == [CacheGet(name), Send(Plain(SUBSCRIBECREATEANDREAD, name))]
            && s1 == Step(s0.record, [])
            && s1.record.state == SUBSCRIBING && !IsReady(s1.record.state)
            && s2 == Step(s1.record, [])
  {
  }

  /** Online: a waiter registered before the read is released once, with its context, by the read response */
  lemma OnlineReadReleasesWaiter(name: string, timeout: nat, w: Waiter)
    ensures var s0 := Next(New(name, true, timeout), Open);
            var s1 := Next(s0.record, CacheLoaded(CacheMiss));
            var s2 := Next(s1.record, WhenReady(w));
            var s3 := Next(s2.record, Receive(ReadResponseFixture(name)));
            && s2.effects == []
            && s3.effects == [Notify(w)]
            && s3.record.state == READY && s3.record.version == 1 && s3.record.data == map[]
  {
    var s0 := Next(New(name, true, timeout), Open);
    var s1 := Next(s0.record, CacheLoaded(CacheMiss));
    var s2 := Next(s1.record, WhenReady(w));
    assert s2.record.waiters == [w];
  }

  /** The record of the online suite once the READ_RESPONSE fixture has arrived */
  function OnlineReady(name: string, timeout: nat): (r: Record)
    ensures Valid(r) && r.connected && r.name == name
    ensures r.state == READY && r.version == 1 && r.data == map[]
    ensures r.usages == 0 && r.nextCorrelationId == Correlation.FirstId
  {
    var s0 := Next(New(name, true, timeout), Open);
    var s1 := Next(s0.record, CacheLoaded(CacheMiss));
    NextPreservesValid(New(name, true, timeout), Open);
    NextPreservesValid(s0.record, CacheLoaded(CacheMiss));
    NextPreservesValid(s1.record, Receive(ReadResponseFixture(name)));
    Next(s1.record, Receive(ReadResponseFixture(name))).record
  }

  /**
   Online, once ready at version 1: each write shape sends exactly one
   message at version 2, and a write with a callback sends the
   write-acknowledged variant with correlation id "1".
   */
  lemma OnlineWriteAfterRead(name: string, timeout: nat, req: SetRequest)
    ensures Next(OnlineReady(name, timeout), Set(req)).effects
         == [Send(WriteMessage(name, 2, req.write, if req.callback.Some? then Some("1") else None))]
  {
    assert Correlation.Decimal(1) == "1";
  }

  /** The six envelopes the online suite expects for the writes of "Bob" */
  lemma OnlineWriteEnvelopes(name: string)
    ensures WriteMessage(name, 2, Update(Bob()), None)
         == Message(RECORD, UPDATE, name, None, Some(JObject(Bob())), Some(2), None)
    ensures WriteMessage(name, 2, Patch("firstname", JString("Bob")), None)
         == Message(RECORD, PATCH, name, Some("firstname"), Some(JString("Bob")), Some(2), None)
    ensures WriteMessage(name, 2, Update(Bob()), Some("1"))
         == Message(RECORD, UPDATE_WITH_WRITE_ACK, name, None, Some(JObject(Bob())), Some(2), Some("1"))
    ensures WriteMessage(name, 2, Patch("firstname", JString("Bob")), Some("1"))
         == Message(RECORD, PATCH_WITH_WRITE_ACK, name, Some("firstname"), Some(JString("Bob")), Some(2), Some("1"))
    ensures WriteMessage(name, 2, Erase("firstname"), None)
         == Message(RECORD, ERASE, name, Some("firstname"), None, Some(2), None)
    ensures WriteMessage(name, 2, Erase("firstname"), Some("1"))
         == Message(RECORD, ERASE_WITH_WRITE_ACK, name, Some("firstname"), None, Some(2), Some("1"))
  {
  }

  /** Discarding an unused ready record starts the grace period; the record stays ready */
  lemma DiscardQueued(r: Record)
    requires Valid(r) && r.state == READY && r.usages == 0
    ensures Next(r, Discard).record.state == UNSUBSCRIBING
    ensures IsReady(Next(r, Discard).record.state)
    ensures Next(r, Discard).effects == [StartDiscardTimer(r.discardTimeout)]
  {
  }

  /** A consumer attaching during the grace period cancels the discard: the timer is stopped and nothing is torn down */
  lemma DiscardCancelledByUsage(r: Record)
    requires Valid(r) && r.state == READY && r.usages == 0
    ensures var s1 := Next(r, Discard);
            var s2 := Next(s1.record, Attach);
            var s3 := Next(s2.record, DiscardTimerFired);
            && s2.effects == [CancelDiscardTimer]
            && s2.record.state == READY && IsReady(s2.record.state)
            && s3 == Step(s2.record, [])
  {
  }

  /**
   The grace period ends with no usage: the record is UNSUBSCRIBED and no
   longer ready, UNSUBSCRIBE is sent only when connected, and the owner is
   told once.
   */
  lemma DiscardCompleted(r: Record)
    requires Valid(r) && r.state == READY && r.usages == 0
    ensures var s1 := Next(r, Discard);
            var s2 := Next(s1.record, DiscardTimerFired);
            && s2.record.state == UNSUBSCRIBED && !IsReady(s2.record.state)
            && s2.effects == (if r.connected then [Send(Plain(UNSUBSCRIBE, r.name))] else []) + [Completed(r.name)]
  {
  }

  /**
   Online delete: DELETE is sent and the record waits in DELETING, still
   ready and not yet completed; DELETE_SUCCESS then deletes it and tells the
   owner once.
   */
  lemma DeleteConfirmed(r: Record)
    requires Valid(r) && r.state == READY && r.connected
    ensures var s1 := Next(r, Delete);
            var s2 := Next(s1.record, Receive(Plain(DELETE_SUCCESS, r.name)));
            && s1.effects == [Send(Plain(DELETE, r.name))]
            && s1.record.state == DELETING && IsReady(s1.record.state)
            && s2.record.state == RecordState.DELETED && !IsReady(s2.record.state)
            && s2.effects == [Completed(r.name)]
  {
  }

  /** An unsolicited DELETED notice deletes a ready record and tells the owner once */
  lemma DeletedRemotely(r: Record)
    requires Valid(r) && r.state == READY
    ensures var s := Next(r, Receive(Plain(Action.DELETED, r.name)));
            && s.record.state == RecordState.DELETED && !IsReady(s.record.state)
            && s.effects == [Completed(r.name)]
  {
  }

  /** Offline: the cache load alone makes the record ready, and a waiter is served at once */
  lemma OfflineReadyFromCache(name: string, timeout: nat, w: Waiter)
    ensures var s0 := Next(New(name, false, timeout), Open);
            var s1 := Next(s0.record, CacheLoaded(CacheHit(1, Wolfram())));
            var s2 := Next(s1.record, WhenReady(w));
            && s0.effects == [CacheGet(name)]
            && s1.record.state == READY && s1.record.version == 1 && s1.record.data == Wolfram()
            && s2.effects == [Notify(w)]
  {
  }

  /** The record of the offline suite once the cache has answered */
  function OfflineReady(name: string, timeout: nat): (r: Record)
    ensures Valid(r) && !r.connected && r.name == name
    ensures r.state == READY && r.version == 1 && r.data == Wolfram()
    ensures r.usages == 0 && r.deferredAcks == []
  {
    var s0 := Next(New(name, false, timeout), Open);
    NextPreservesValid(New(name, false, timeout), Open);
    NextPreservesValid(s0.record, CacheLoaded(CacheHit(1, Wolfram())));
    Next(s0.record, CacheLoaded(CacheHit(1, Wolfram()))).record
  }

  /**
   Offline, each write goes to the cache as the merged tree at version 2 and
   nothing is sent; a callback is not called by the write itself but once,
   with CLIENT_OFFLINE and the name, on the next tick.
   */
  lemma OfflineWrite(name: string, timeout: nat, req: SetRequest)
    ensures var s1 := Next(OfflineReady(name, timeout), Set(req));
            var s2 := Next(s1.record, Tick);
            && s1.effects == [CacheSet(name, 2, Apply(Wolfram(), req.write))]
            && s2.effects == (if req.callback.Some? then [WriteAckCallback(req.callback.value, CLIENT_OFFLINE, name)] else [])
  {
  }

  /** The trees the offline suite expects in the cache: Bob for an update or a patch, empty for the erase */
  lemma OfflineMergedTrees()
    ensures Apply(Wolfram(), Update(Bob())) == Bob()
    ensures Apply(Wolfram(), Patch("firstname", JString("Bob"))) == Bob()
    ensures Apply(Wolfram(), Erase("firstname")) == map[]
  {
  }
}
