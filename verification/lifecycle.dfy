/**
 Whole runs of a record: a sequence of events folded through `Next`, and the
 promises that hold over every run — the owner is told of completion exactly
 once, correlation ids are allocated "1", "2", ... without repetition, ready
 waiters are released once each and in order, offline write callbacks are
 answered once each, nothing is sent while offline, and the version only
 moves forward.
 */
module Lifecycle {
  import opened Json
  import opened Protocol
  import opened RecordCore
  import Correlation

  /** Folds a sequence of events through `Next`, collecting the effects in order */
  function Run(r: Record, evs: seq<Event>): (s: Step)
    ensures s.record.name == r.name && s.record.connected == r.connected
    ensures evs == [] ==> s == Step(r, [])
    decreases |evs|
  {
    if evs == [] then Step(r, [])
    else
      var first := Next(r, evs[0]);
      var rest := Run(first.record, evs[1..]);
      Step(rest.record, first.effects + rest.effects)
  }

  /** The items `f` picks out of each effect, in order */
  function Gather<T>(f: Effect -> seq<T>, es: seq<Effect>): seq<T>
    decreases |es|
  {
    if es == [] then [] else f(es[0]) + Gather(f, es[1..])
  }

  function CompletionOf(e: Effect): seq<string> {
    if e.Completed? then [e.name] else []
  }

  function MessageOf(e: Effect): seq<Message> {
    if e.Send? then [e.message] else []
  }

  function CorrelationIdOf(e: Effect): seq<string> {
    if e.Send? && e.message.correlationId.Some? then [e.message.correlationId.value] else []
  }

  function NotificationOf(e: Effect): seq<Waiter> {
    match e
    case ReadyCallback(cb, ctx) => [Callback(cb, ctx)]
    case ResolvePromise(p, ctx) => [Promise(p, ctx)]
    case _ => []
  }

  function OfflineAckOf(e: Effect): seq<Handle> {
    if e.WriteAckCallback? && e.event == CLIENT_OFFLINE then [e.callback] else []
  }

  lemma {:induction false} GatherAppend<T>(f: Effect -> seq<T>, a: seq<Effect>, b: seq<Effect>)
    ensures Gather(f, a + b) == Gather(f, a) + Gather(f, b)
    decreases |a|
  {
    if a == [] {
      assert a + b == b;
    } else {
      assert (a + b)[1..] == a[1..] + b;
      GatherAppend(f, a[1..], b);
    }
  }

  lemma GatherOne<T>(f: Effect -> seq<T>, e: Effect)
    ensures Gather(f, [e]) == f(e)
  {
    assert [e][1..] == [];
  }

  lemma GatherTwo<T>(f: Effect -> seq<T>, d: Effect, e: Effect)
    ensures Gather(f, [d, e]) == f(d) + f(e)
  {
    assert [d, e] == [d] + [e];
    GatherAppend(f, [d], [e]);
    GatherOne(f, d);
    GatherOne(f, e);
  }

  /** Releasing waiters notifies exactly those waiters, in order */
  lemma {:induction false} NotificationsOfRelease(ws: seq<Waiter>)
    ensures Gather(NotificationOf, Release(ws)) == ws
    decreases |ws|
  {
    if ws != [] {
      var head := Notify(ws[0]);
      assert Release(ws) == [head] + Release(ws[1..]);
      GatherAppend(NotificationOf, [head], Release(ws[1..]));
      GatherOne(NotificationOf, head);
      NotifyIsNotification(ws[0]);
      NotificationsOfRelease(ws[1..]);
      assert ws == [ws[0]] + ws[1..];
    }
  }

  /** Each release effect stands for exactly the waiter it releases */
  lemma NotifyIsNotification(w: Waiter)
    ensures NotificationOf(Notify(w)) == [w]
  {
    match w
    case Callback(cb, ctx) =>
    case Promise(p, ctx) =>
  }

  /** Flushing the deferred acknowledgements answers exactly the queued callbacks, in order */
  lemma {:induction false} AcksOfOfflineAcks(cbs: seq<Handle>, name: string)
    ensures Gather(OfflineAckOf, OfflineAcks(cbs, name)) == cbs
    decreases |cbs|
  {
    if cbs != [] {
      var first := WriteAckCallback(cbs[0], CLIENT_OFFLINE, name);
      GatherAppend(OfflineAckOf, [first], OfflineAcks(cbs[1..], name));
      GatherOne(OfflineAckOf, first);
      AcksOfOfflineAcks(cbs[1..], name);
      assert cbs == [cbs[0]] + cbs[1..];
    }
  }

  /** `f` picks nothing out of effects it ignores one by one */
  lemma {:induction false} GatherNothing<T>(f: Effect -> seq<T>, es: seq<Effect>)
    requires forall i :: 0 <= i < |es| ==> f(es[i]) == []
    ensures Gather(f, es) == []
    decreases |es|
  {
    if es != [] {
      assert f(es[0]) == [];
      GatherNothing(f, es[1..]);
    }
  }

  // ----- What one step contributes -----

  /** The waiter an event registers: a `whenReady` call the record accepts */
  function RegisteredBy(r: Record, e: Event): seq<Waiter> {
    if e.WhenReady? && !IsTerminal(r.state) then [e.waiter] else []
  }

  /** The callback an event defers: an offline `set` on a ready record that asks for an acknowledgement */
  function DeferredBy(r: Record, e: Event): seq<Handle> {
    if e.Set? && IsReady(r.state) && !r.connected && e.request.callback.Some? then [e.request.callback.value] else []
  }

  /**
   What every step promises about the effects it emits. The owner is told
   of completion exactly when the step enters a terminal state, and
   terminal states are final. The correlation ids sent are exactly the
   counter values the step allocates. No waiter is lost or released twice.
   No offline callback is lost or answered twice. An offline record sends
   nothing.
   */
  ghost predicate StepLaws(r: Record, e: Event, s: Step) {
    && (IsTerminal(r.state) ==> s.record.state == r.state)
    && Gather(CompletionOf, s.effects)
       == (if !IsTerminal(r.state) && IsTerminal(s.record.state) then [r.name] else [])
    && r.nextCorrelationId <= s.record.nextCorrelationId
    && Gather(CorrelationIdOf, s.effects)
       == Correlation.IdRange(r.nextCorrelationId, s.record.nextCorrelationId)
    && (Valid(r) ==> Gather(NotificationOf, s.effects) + s.record.waiters == r.waiters + RegisteredBy(r, e))
    && Gather(OfflineAckOf, s.effects) + s.record.deferredAcks == r.deferredAcks + DeferredBy(r, e)
    && (!r.connected ==> Gather(MessageOf, s.effects) == [])
  }

  lemma GatherEmpty()
    ensures Gather(CompletionOf, []) == [] && Gather(CorrelationIdOf, []) == []
    ensures Gather(NotificationOf, []) == [] && Gather(OfflineAckOf, []) == []
    ensures Gather(MessageOf, []) == []
  {
  }

  lemma GatherSingle(e: Effect)
    ensures Gather(CompletionOf, [e]) == CompletionOf(e)
    ensures Gather(CorrelationIdOf, [e]) == CorrelationIdOf(e)
    ensures Gather(NotificationOf, [e]) == NotificationOf(e)
    ensures Gather(OfflineAckOf, [e]) == OfflineAckOf(e)
    ensures Gather(MessageOf, [e]) == MessageOf(e)
  {
    GatherOne(CompletionOf, e);
    GatherOne(CorrelationIdOf, e);
    GatherOne(NotificationOf, e);
    GatherOne(OfflineAckOf, e);
    GatherOne(MessageOf, e);
  }

  lemma GatherPair(d: Effect, e: Effect)
    ensures Gather(CompletionOf, [d, e]) == CompletionOf(d) + CompletionOf(e)
    ensures Gather(CorrelationIdOf, [d, e]) == CorrelationIdOf(d) + CorrelationIdOf(e)
    ensures Gather(NotificationOf, [d, e]) == NotificationOf(d) + NotificationOf(e)
    ensures Gather(OfflineAckOf, [d, e]) == OfflineAckOf(d) + OfflineAckOf(e)
    ensures Gather(MessageOf, [d, e]) == MessageOf(d) + MessageOf(e)
  {
    GatherTwo(CompletionOf, d, e);
    GatherTwo(CorrelationIdOf, d, e);
    GatherTwo(NotificationOf, d, e);
    GatherTwo(OfflineAckOf, d, e);
    GatherTwo(MessageOf, d, e);
  }

  /** Releasing waiters notifies exactly them and does nothing else observable */
  lemma GatherRelease(ws: seq<Waiter>)
    ensures Gather(NotificationOf, Release(ws)) == ws
    ensures Gather(CompletionOf, Release(ws)) == [] && Gather(CorrelationIdOf, Release(ws)) == []
    ensures Gather(OfflineAckOf, Release(ws)) == [] && Gather(MessageOf, Release(ws)) == []
  {
    var es := Release(ws);
    NotificationsOfRelease(ws);
    assert forall i :: 0 <= i < |es| ==> es[i].ReadyCallback? || es[i].ResolvePromise?;
    GatherNothing(CompletionOf, es);
    GatherNothing(CorrelationIdOf, es);
    GatherNothing(OfflineAckOf, es);
    GatherNothing(MessageOf, es);
  }

  /** Flushing deferred acknowledgements answers exactly them and does nothing else observable */
  lemma GatherOfflineAcks(cbs: seq<Handle>, name: string)
    ensures Gather(OfflineAckOf, OfflineAcks(cbs, name)) == cbs
    ensures Gather(CompletionOf, OfflineAcks(cbs, name)) == [] && Gather(CorrelationIdOf, OfflineAcks(cbs, name)) == []
    ensures Gather(NotificationOf, OfflineAcks(cbs, name)) == [] && Gather(MessageOf, OfflineAcks(cbs, name)) == []
  {
    var es := OfflineAcks(cbs, name);
    AcksOfOfflineAcks(cbs, name);
    assert forall i :: 0 <= i < |es| ==> es[i].WriteAckCallback?;
    GatherNothing(CompletionOf, es);
    GatherNothing(CorrelationIdOf, es);
    GatherNothing(NotificationOf, es);
    GatherNothing(MessageOf, es);
  }

  lemma OpenLaws(r: Record)
    ensures StepLaws(r, Open, OnOpen(r))
  {
    GatherEmpty();
    GatherSingle(CacheGet(r.name));
    GatherPair(CacheGet(r.name), Send(Plain(SUBSCRIBECREATEANDREAD, r.name)));
  }

  lemma CacheLoadedLaws(r: Record, c: CacheResult)
    ensures StepLaws(r, CacheLoaded(c), OnCacheLoaded(r, c))
  {
    GatherEmpty();
    GatherRelease(r.waiters);
  }

  lemma ReceiveLaws(r: Record, m: Message)
    ensures StepLaws(r, Receive(m), OnReceive(r, m))
  {
    if r.state == SUBSCRIBING && IsReadResponse(m) {
      ReadResponseLaws(r, m);
    } else if r.state == DELETING && m.action == DELETE_SUCCESS {
      DeleteConfirmedLaws(r, m);
    } else if IsReady(r.state) && m.action == Action.DELETED {
      DeletedLaws(r, m);
    } else {
      assert OnReceive(r, m) == Step(r, []);
      GatherEmpty();
    }
  }

  lemma ReadResponseLaws(r: Record, m: Message)
    requires r.state == SUBSCRIBING && IsReadResponse(m)
    ensures StepLaws(r, Receive(m), OnReceive(r, m))
  {
    GatherRelease(r.waiters);
  }

  lemma DeleteConfirmedLaws(r: Record, m: Message)
    requires r.state == DELETING && m.action == DELETE_SUCCESS
    ensures StepLaws(r, Receive(m), OnReceive(r, m))
  {
    GatherSingle(Completed(r.name));
  }

  lemma DeletedLaws(r: Record, m: Message)
    requires IsReady(r.state) && m.action == Action.DELETED
    ensures StepLaws(r, Receive(m), OnReceive(r, m))
  {
    var s := OnReceive(r, m);
    assert s == Teardown(r, RecordState.DELETED, if r.discardTimer then [CancelDiscardTimer] else []);
    if r.discardTimer {
      assert s.effects == [CancelDiscardTimer, Completed(r.name)];
      GatherPair(CancelDiscardTimer, Completed(r.name));
    } else {
      assert s.effects == [Completed(r.name)];
      GatherSingle(Completed(r.name));
    }
  }

  lemma SetLaws(r: Record, req: SetRequest)
    ensures StepLaws(r, Set(req), OnSet(r, req))
  {
    var s := OnSet(r, req);
    GatherEmpty();
    if IsReady(r.state) {
      GatherSingle(s.effects[0]);
      assert s.effects == [s.effects[0]];
    }
  }

  lemma WhenReadyLaws(r: Record, w: Waiter)
    ensures StepLaws(r, WhenReady(w), OnWhenReady(r, w))
  {
    GatherEmpty();
    GatherSingle(Notify(w));
  }

  lemma DiscardLaws(r: Record)
    ensures StepLaws(r, Discard, OnDiscard(r))
  {
    GatherEmpty();
    GatherSingle(StartDiscardTimer(r.discardTimeout));
  }

  lemma AttachLaws(r: Record)
    ensures StepLaws(r, Attach, OnAttach(r))
  {
    GatherEmpty();
    GatherSingle(CancelDiscardTimer);
  }

  lemma DiscardTimerFiredLaws(r: Record)
    ensures StepLaws(r, DiscardTimerFired, OnDiscardTimerFired(r))
  {
    GatherEmpty();
    GatherSingle(Completed(r.name));
    GatherPair(Send(Plain(UNSUBSCRIBE, r.name)), Completed(r.name));
  }

  lemma DeleteLaws(r: Record)
    ensures StepLaws(r, Delete, OnDelete(r))
  {
    GatherEmpty();
    GatherSingle(Send(Plain(DELETE, r.name)));
    GatherSingle(CacheDelete(r.name));
  }

  lemma TickLaws(r: Record)
    ensures StepLaws(r, Tick, OnTick(r))
  {
    GatherOfflineAcks(r.deferredAcks, r.name);
  }

  /** Every step of the record obeys the step laws */
  lemma NextLaws(r: Record, e: Event)
    ensures StepLaws(r, e, Next(r, e))
  {
    match e
    case Open => OpenLaws(r);
    case CacheLoaded(c) => CacheLoadedLaws(r, c);
    case Receive(m) => ReceiveLaws(r, m);
    case Set(req) => SetLaws(r, req);
    case WhenReady(w) => WhenReadyLaws(r, w);
    case Discard => DiscardLaws(r);
    case Attach => AttachLaws(r);
    case DiscardTimerFired => DiscardTimerFiredLaws(r);
    case Delete => DeleteLaws(r);
    case Tick => TickLaws(r);
  }

  /** Only the acknowledgements of offline writes made before teardown */
  predicate OnlyOfflineAcks(es: seq<Effect>) {
    forall i :: 0 <= i < |es| ==> es[i].WriteAckCallback? && es[i].event == CLIENT_OFFLINE
  }

  /**
   A torn-down record processes nothing further: a step keeps its state,
   version, data, usages, ids and timer, and may only answer deferred offline
   callbacks.
   */
  lemma TerminalStepInert(r: Record, e: Event)
    requires IsTerminal(r.state)
    ensures Next(r, e).record == r.(deferredAcks := Next(r, e).record.deferredAcks)
    ensures OnlyOfflineAcks(Next(r, e).effects)
  {
  }

  /** Once loaded, a step never goes back to loading and never lowers the version */
  lemma NextVersion(r: Record, e: Event)
    requires !IsLoading(r.state)
    ensures !IsLoading(Next(r, e).record.state)
    ensures r.version <= Next(r, e).record.version
  {
  }

  // ----- What a whole run promises -----

  /** The waiters a run registers, in the order their `whenReady` calls are made */
  function Registered(r: Record, evs: seq<Event>): seq<Waiter>
    decreases |evs|
  {
    if evs == [] then [] else RegisteredBy(r, evs[0]) + Registered(Next(r, evs[0]).record, evs[1..])
  }

  /** The offline write callbacks a run defers, in the order of their `set` calls */
  function Deferred(r: Record, evs: seq<Event>): seq<Handle>
    decreases |evs|
  {
    if evs == [] then [] else DeferredBy(r, evs[0]) + Deferred(Next(r, evs[0]).record, evs[1..])
  }

  /** The writes carried by a run of `set` calls */
  function Writes(evs: seq<Event>): (ws: seq<Write>)
    requires forall i :: 0 <= i < |evs| ==> evs[i].Set?
    ensures |ws| == |evs|
    ensures forall i :: 0 <= i < |evs| ==> ws[i] == evs[i].request.write
  {
    seq(|evs|, i requires 0 <= i < |evs| => evs[i].request.write)
  }

  /** Chains two "emitted + still queued == queued before + added" balances */
  lemma Conserve<T>(out1: seq<T>, out2: seq<T>, mid: seq<T>, final: seq<T>, start: seq<T>, in1: seq<T>, in2: seq<T>)
    requires out1 + mid == start + in1
    requires out2 + final == mid + in2
    ensures (out1 + out2) + final == start + (in1 + in2)
  {
    calc {
      (out1 + out2) + final;
      out1 + (out2 + final);
      (out1 + mid) + in2;
      (start + in1) + in2;
    }
  }

  lemma {:induction false} RunPreservesValid(r: Record, evs: seq<Event>)
    requires Valid(r)
    ensures Valid(Run(r, evs).record)
    decreases |evs|
  {
    if evs != [] {
      NextPreservesValid(r, evs[0]);
      RunPreservesValid(Next(r, evs[0]).record, evs[1..]);
    }
  }

  /**
   Over any run of a torn-down record nothing is sent, nothing is written to
   or deleted from the cache, nobody is notified or completed again, and the
   record is unchanged apart from its queue of deferred offline callbacks.
   */
  lemma {:induction false} TerminalIsInert(r: Record, evs: seq<Event>)
    requires IsTerminal(r.state)
    ensures Run(r, evs).record.(deferredAcks := []) == r.(deferredAcks := [])
    ensures OnlyOfflineAcks(Run(r, evs).effects)
    ensures Gather(MessageOf, Run(r, evs).effects) == []
    decreases |evs|
  {
    if evs != [] {
      var first := Next(r, evs[0]);
      var rest := Run(first.record, evs[1..]);
      TerminalStepInert(r, evs[0]);
      TerminalIsInert(first.record, evs[1..]);
      assert Run(r, evs).effects == first.effects + rest.effects;
      NoMessages(first.effects);
      GatherAppend(MessageOf, first.effects, rest.effects);
    }
  }

  lemma {:induction false} NoMessages(es: seq<Effect>)
    requires OnlyOfflineAcks(es)
    ensures Gather(MessageOf, es) == []
    decreases |es|
  {
    if es != [] {
      NoMessages(es[1..]);
    }
  }

  /**
   However the events interleave, the owner's completion callback is invoked
   with the record's name once when the record reaches UNSUBSCRIBED or
   DELETED, and never otherwise.
   */
  lemma {:induction false} CompletesOnce(r: Record, evs: seq<Event>)
    ensures IsTerminal(r.state) ==> Run(r, evs).record.state == r.state
    ensures Gather(CompletionOf, Run(r, evs).effects)
         == if !IsTerminal(r.state) && IsTerminal(Run(r, evs).record.state) then [r.name] else []
    decreases |evs|
  {
    if evs != [] {
      var first := Next(r, evs[0]);
      var rest := Run(first.record, evs[1..]);
      NextLaws(r, evs[0]);
      CompletesOnce(first.record, evs[1..]);
      GatherAppend(CompletionOf, first.effects, rest.effects);
    }
  }

  /** The correlation ids a run sends are exactly the next ones in sequence */
  lemma {:induction false} CorrelationIdsSequential(r: Record, evs: seq<Event>)
    ensures r.nextCorrelationId <= Run(r, evs).record.nextCorrelationId
    ensures Gather(CorrelationIdOf, Run(r, evs).effects)
         == Correlation.IdRange(r.nextCorrelationId, Run(r, evs).record.nextCorrelationId)
    decreases |evs|
  {
    if evs != [] {
      var first := Next(r, evs[0]);
      var rest := Run(first.record, evs[1..]);
      NextLaws(r, evs[0]);
      CorrelationIdsSequential(first.record, evs[1..]);
      GatherAppend(CorrelationIdOf, first.effects, rest.effects);
      Correlation.IdRangeAppend(r.nextCorrelationId, first.record.nextCorrelationId, rest.record.nextCorrelationId);
    }
  }

  /** From a new record, the first id sent is "1" and no id is sent twice */
  lemma CorrelationIdsUnique(name: string, connected: bool, discardTimeout: nat, evs: seq<Event>)
    ensures var ids := Gather(CorrelationIdOf, Run(New(name, connected, discardTimeout), evs).effects);
      && (|ids| > 0 ==> ids[0] == "1")
      && (forall i, j :: 0 <= i < j < |ids| ==> ids[i] != ids[j])
  {
    var r := New(name, connected, discardTimeout);
    var final := Run(r, evs).record;
    CorrelationIdsSequential(r, evs);
    Correlation.IdRangeDistinct(r.nextCorrelationId, final.nextCorrelationId);
    assert Correlation.Decimal(1) == "1";
  }

  /**
   Every waiter registered with `whenReady` is released exactly once, in
   registration order, or is still queued; once the record has loaded none is
   left queued.
   */
  lemma {:induction false} WaitersReleasedInOrder(r: Record, evs: seq<Event>)
    requires Valid(r)
    ensures Gather(NotificationOf, Run(r, evs).effects) + Run(r, evs).record.waiters
         == r.waiters + Registered(r, evs)
    ensures !IsLoading(Run(r, evs).record.state) ==>
      Gather(NotificationOf, Run(r, evs).effects) == r.waiters + Registered(r, evs)
    decreases |evs|
  {
    RunPreservesValid(r, evs);
    if evs != [] {
      var first := Next(r, evs[0]);
      var rest := Run(first.record, evs[1..]);
      NextLaws(r, evs[0]);
      NextPreservesValid(r, evs[0]);
      WaitersReleasedInOrder(first.record, evs[1..]);
      GatherAppend(NotificationOf, first.effects, rest.effects);
      Conserve(Gather(NotificationOf, first.effects), Gather(NotificationOf, rest.effects),
               first.record.waiters, rest.record.waiters,
               r.waiters, RegisteredBy(r, evs[0]), Registered(first.record, evs[1..]));
    }
  }

  /**
   Every offline write callback is answered with CLIENT_OFFLINE exactly once,
   in the order of the writes, on a later tick, or is still waiting for it.
   */
  lemma {:induction false} OfflineAcksAnsweredOnce(r: Record, evs: seq<Event>)
    ensures Gather(OfflineAckOf, Run(r, evs).effects) + Run(r, evs).record.deferredAcks
         == r.deferredAcks + Deferred(r, evs)
    decreases |evs|
  {
    if evs != [] {
      var first := Next(r, evs[0]);
      var rest := Run(first.record, evs[1..]);
      NextLaws(r, evs[0]);
      OfflineAcksAnsweredOnce(first.record, evs[1..]);
      GatherAppend(OfflineAckOf, first.effects, rest.effects);
      Conserve(Gather(OfflineAckOf, first.effects), Gather(OfflineAckOf, rest.effects),
               first.record.deferredAcks, rest.record.deferredAcks,
               r.deferredAcks, DeferredBy(r, evs[0]), Deferred(first.record, evs[1..]));
    }
  }

  /** A record opened while disconnected never sends a message */
  lemma {:induction false} NeverSendsOffline(r: Record, evs: seq<Event>)
    requires !r.connected
    ensures Gather(MessageOf, Run(r, evs).effects) == []
    decreases |evs|
  {
    if evs != [] {
      var first := Next(r, evs[0]);
      NextLaws(r, evs[0]);
      NeverSendsOffline(first.record, evs[1..]);
      GatherAppend(MessageOf, first.effects, Run(first.record, evs[1..]).effects);
    }
  }

  /** Once the record has loaded, its version never decreases */
  lemma {:induction false} VersionNeverDecreases(r: Record, evs: seq<Event>)
    requires !IsLoading(r.state)
    ensures !IsLoading(Run(r, evs).record.state)
    ensures r.version <= Run(r, evs).record.version
    decreases |evs|
  {
    if evs != [] {
      NextVersion(r, evs[0]);
      VersionNeverDecreases(Next(r, evs[0]).record, evs[1..]);
    }
  }

  /** Writes before the first read leave no trace at all */
  lemma {:induction false} WritesBeforeReadyDropped(r: Record, evs: seq<Event>)
    requires IsLoading(r.state)
    requires forall i :: 0 <= i < |evs| ==> evs[i].Set?
    ensures Run(r, evs) == Step(r, [])
    decreases |evs|
  {
    if evs != [] {
      WritesBeforeReadyDropped(r, evs[1..]);
    }
  }

  /**
   N writes on a ready record raise the version by exactly N whatever their
   shape, leave the tree every write applied in turn, keep the state, and emit
   one effect each: a message online, a cache write offline.
   */
  lemma {:induction false} WritesBumpVersion(r: Record, evs: seq<Event>)
    requires IsReady(r.state)
    requires forall i :: 0 <= i < |evs| ==> evs[i].Set?
    ensures Run(r, evs).record.version == r.version + |evs|
    ensures Run(r, evs).record.data == ApplyAll(r.data, Writes(evs))
    ensures Run(r, evs).record.state == r.state
    ensures |Run(r, evs).effects| == |evs|
    ensures r.connected ==> |Gather(MessageOf, Run(r, evs).effects)| == |evs|
    ensures !r.connected ==> Gather(MessageOf, Run(r, evs).effects) == []
    decreases |evs|
  {
    if evs != [] {
      var first := Next(r, evs[0]);
      var rest := Run(first.record, evs[1..]);
      WritesBumpVersion(first.record, evs[1..]);
      assert Writes(evs) == [evs[0].request.write] + Writes(evs[1..]);
      GatherAppend(MessageOf, first.effects, rest.effects);
      GatherOne(MessageOf, first.effects[0]);
    }
  }
}
