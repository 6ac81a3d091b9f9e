/**
 The lifecycle of one record instance as a pure state machine. Every public
 call (`set`, `whenReady`, `discard`, `delete`, a consumer attaching) and
 every asynchronous completion (the cache read, an inbound message, the
 discard timer, the next scheduling tick) is an `Event`; `Next` maps a record
 and an event to the new record and the effects the step emits, in order.
 */
module RecordCore {
  import opened Wrappers
  import opened Json
  import opened Protocol
  import Correlation

  datatype RecordState =
    | VOID
    | SUBSCRIBING
    | LOADING
    | READY
    | UNSUBSCRIBING
    | UNSUBSCRIBED
    | DELETING
    | DELETED

  /** Still waiting for the first read */
  predicate IsLoading(s: RecordState) {
    s == VOID || s == SUBSCRIBING || s == LOADING
  }

  /**
   Readable and writable: a record mid-teardown stays ready until the
   teardown completes. Every state is exactly one of loading, ready or
   terminal.
   */
  predicate IsReady(s: RecordState)
    ensures IsReady(s) <==> !IsLoading(s) && !IsTerminal(s)
  {
    s == READY || s == UNSUBSCRIBING || s == DELETING
  }

  /** Handed back to the owner; nothing further happens */
  predicate IsTerminal(s: RecordState) {
    s == UNSUBSCRIBED || s == RecordState.DELETED
  }

  /** The identity of a callback or promise handed in by a caller */
  type Handle = nat

  /** The caller-supplied context a ready waiter is released with */
  type Context = nat

  /** A `whenReady` registration: a callback, or a promise to resolve */
  datatype Waiter =
    | Callback(callback: Handle, context: Context)
    | Promise(promise: Handle, context: Context)

  datatype ClientEvent = CLIENT_OFFLINE

  /** What the local cache returns for the record's name */
  datatype CacheResult =
    | CacheMiss
    | CacheHit(version: nat, data: Tree)

  datatype SetRequest = SetRequest(write: Write, callback: Option<Handle>)

  /** What a step asks of the outside world */
  datatype Effect =
    | Send(message: Message)
    | CacheGet(name: string)
    | CacheSet(name: string, version: int, data: Tree)
    | CacheDelete(name: string)
    | ReadyCallback(callback: Handle, context: Context)
    | ResolvePromise(promise: Handle, context: Context)
    | WriteAckCallback(callback: Handle, event: ClientEvent, name: string)
    | StartDiscardTimer(timeout: nat)
    | CancelDiscardTimer
    | Completed(name: string)

  datatype Record = Record(
    name: string,
    connected: bool,
    discardTimeout: nat,
    state: RecordState,
    version: int,
    data: Tree,
    usages: nat,
    nextCorrelationId: nat,
    pendingWrites: map<nat, Handle>,
    waiters: seq<Waiter>,
    deferredAcks: seq<Handle>,
    discardTimer: bool)

  datatype Event =
    | Open
    | CacheLoaded(result: CacheResult)
    | Receive(message: Message)
    | Set(request: SetRequest)
    | WhenReady(waiter: Waiter)
    | Discard
    | Attach
    | DiscardTimerFired
    | Delete
    | Tick

  datatype Step = Step(record: Record, effects: seq<Effect>)

  /** A record that has not been opened yet */
  function New(name: string, connected: bool, discardTimeout: nat): (r: Record)
    ensures r.state == VOID && r.usages == 0 && r.version == -1
    ensures r.nextCorrelationId == Correlation.FirstId
    ensures Valid(r)
  {
    Record(name, connected, discardTimeout, VOID, -1, map[], 0, Correlation.FirstId, map[], [], [], false)
  }

  /**
   What every reachable record satisfies. In particular a live discard timer
   belongs to an unused ready record, and a ready or terminal record holds no
   queued waiter.
   */
  predicate Valid(r: Record)
    ensures Valid(r) && r.discardTimer ==> IsReady(r.state) && r.usages == 0
    ensures Valid(r) && (IsReady(r.state) || IsTerminal(r.state)) ==> r.waiters == []
    ensures Valid(r) && IsTerminal(r.state) ==> !r.discardTimer
  {
    && r.nextCorrelationId >= Correlation.FirstId
    && (forall n :: n in r.pendingWrites ==> Correlation.FirstId <= n < r.nextCorrelationId)
    && (r.discardTimer <==> r.state == UNSUBSCRIBING)
    && (r.state == UNSUBSCRIBING ==> r.usages == 0)
    && (!IsLoading(r.state) ==> r.waiters == [])
    && (r.state == SUBSCRIBING ==> r.connected)
    && (r.state == LOADING ==> !r.connected)
    && (!r.connected ==> r.pendingWrites == map[])
    && (r.connected ==> r.deferredAcks == [])
  }

  /** The effect that releases one waiter */
  function Notify(w: Waiter): (e: Effect)
    ensures e.ReadyCallback? || e.ResolvePromise?
  {
    match w
    case Callback(cb, ctx) => ReadyCallback(cb, ctx)
    case Promise(p, ctx) => ResolvePromise(p, ctx)
  }

  /** Releases the queued waiters, in registration order */
  function Release(ws: seq<Waiter>): (es: seq<Effect>)
    ensures |es| == |ws|
    ensures forall i :: 0 <= i < |ws| ==> es[i] == Notify(ws[i])
    decreases |ws|
  {
    if ws == [] then [] else [Notify(ws[0])] + Release(ws[1..])
  }

  /** Invokes the deferred offline write callbacks, in the order they were queued */
  function OfflineAcks(cbs: seq<Handle>, name: string): (es: seq<Effect>)
    ensures |es| == |cbs|
    ensures forall i :: 0 <= i < |cbs| ==> es[i] == WriteAckCallback(cbs[i], CLIENT_OFFLINE, name)
    decreases |cbs|
  {
    if cbs == [] then [] else [WriteAckCallback(cbs[0], CLIENT_OFFLINE, name)] + OfflineAcks(cbs[1..], name)
  }

  /** Construction: ask the cache, and subscribe-and-read when connected */
  function OnOpen(r: Record): (s: Step)
    ensures r.state != VOID ==> s == Step(r, [])
    ensures r.state == VOID ==> s.record.state == (if r.connected then SUBSCRIBING else LOADING)
    ensures r.state == VOID ==>
      s.effects == [CacheGet(r.name)] + if r.connected then [Send(Plain(SUBSCRIBECREATEANDREAD, r.name))] else []
  {
    if r.state != VOID then Step(r, [])
    else if r.connected then
      Step(r.(state := SUBSCRIBING), [CacheGet(r.name), Send(Plain(SUBSCRIBECREATEANDREAD, r.name))])
    else
      Step(r.(state := LOADING), [CacheGet(r.name)])
  }

  /** The first successful read: adopt its version and data and release every waiter */
  function BecomeReady(r: Record, version: int, data: Tree): (s: Step)
    requires IsLoading(r.state)
    ensures s.record.state == READY && IsReady(s.record.state)
    ensures s.record.version == version && s.record.data == data
    ensures s.record.waiters == []
    ensures s.effects == Release(r.waiters)
  {
    Step(r.(state := READY, version := version, data := data, waiters := []), Release(r.waiters))
  }

  /**
   The cache's answer. Offline it is authoritative and a miss reads as an
   empty tree at version 0; while connected it is superseded by the read
   response and ignored.
   */
  function OnCacheLoaded(r: Record, c: CacheResult): (s: Step)
    ensures r.state != LOADING ==> s == Step(r, [])
    ensures r.state == LOADING ==> s.record.state == READY && s.effects == Release(r.waiters)
    ensures r.state == LOADING && c.CacheMiss? ==> s.record.version == 0 && s.record.data == map[]
    ensures r.state == LOADING && c.CacheHit? ==> s.record.version == c.version && s.record.data == c.data
  {
    if r.state != LOADING then Step(r, [])
    else
      match c
      case CacheMiss => BecomeReady(r, 0, map[])
      case CacheHit(v, d) => BecomeReady(r, v, d)
  }

  /** Leaves for a terminal state and hands the record back to its owner */
  function Teardown(r: Record, final: RecordState, before: seq<Effect>): (s: Step)
    requires IsTerminal(final)
    ensures s.record.state == final && !IsReady(s.record.state)
    ensures !s.record.discardTimer
    ensures s.effects == before + [Completed(r.name)]
  {
    Step(r.(state := final, discardTimer := false), before + [Completed(r.name)])
  }

  /** A well-formed read response: a version and an object tree */
  predicate IsReadResponse(m: Message) {
    m.action == READ_RESPONSE && m.version.Some? && m.parsedData.Some? && m.parsedData.value.JObject?
  }

  /** An inbound message on the record's topic */
  function OnReceive(r: Record, m: Message): (s: Step)
    ensures r.state == SUBSCRIBING && IsReadResponse(m) ==>
      s.record.state == READY && s.record.version == m.version.value
      && s.record.data == m.parsedData.value.fields && s.effects == Release(r.waiters)
    ensures r.state == DELETING && m.action == DELETE_SUCCESS ==>
      s.record.state == RecordState.DELETED && s.effects == [Completed(r.name)]
    ensures IsReady(r.state) && m.action == Action.DELETED ==>
      s.record.state == RecordState.DELETED && !s.record.discardTimer
      && s.effects == (if r.discardTimer then [CancelDiscardTimer] else []) + [Completed(r.name)]
    ensures !(r.state == SUBSCRIBING && IsReadResponse(m))
         && !(r.state == DELETING && m.action == DELETE_SUCCESS)
         && !(IsReady(r.state) && m.action == Action.DELETED)
         ==> s == Step(r, [])
  {
    match m.action
    case READ_RESPONSE =>
      if r.state == SUBSCRIBING && IsReadResponse(m) then BecomeReady(r, m.version.value, m.parsedData.value.fields)
      else Step(r, [])
    case DELETE_SUCCESS =>
      if r.state == DELETING then Teardown(r, RecordState.DELETED, []) else Step(r, [])
    case DELETED =>
      if IsReady(r.state) then Teardown(r, RecordState.DELETED, if r.discardTimer then [CancelDiscardTimer] else [])
      else Step(r, [])
    case _ => Step(r, [])
  }

  /**
   A local write. Before the record is ready it is dropped without trace.
   Once ready it is applied and the version goes up by one; online the write
   is sent (with a fresh correlation id when a callback asks for an
   acknowledgement), offline the merged tree goes to the cache and the
   callback is queued to be told CLIENT_OFFLINE on the next tick.
   */
  function OnSet(r: Record, req: SetRequest): (s: Step)
    ensures !IsReady(r.state) ==> s == Step(r, [])
    ensures IsReady(r.state) ==>
      && s.record.state == r.state
      && s.record.version == r.version + 1
      && s.record.data == Apply(r.data, req.write)
      && |s.effects| == 1
    ensures IsReady(r.state) && r.connected ==>
      s.effects == [Send(WriteMessage(r.name, r.version + 1, req.write,
        if req.callback.Some? then Some(Correlation.Decimal(r.nextCorrelationId)) else None))]
    ensures IsReady(r.state) && r.connected && req.callback.Some? ==>
      && s.record.nextCorrelationId == r.nextCorrelationId + 1
      && s.record.pendingWrites == r.pendingWrites[r.nextCorrelationId := req.callback.value]
    ensures IsReady(r.state) && r.connected && req.callback.None? ==>
      s.record.nextCorrelationId == r.nextCorrelationId && s.record.pendingWrites == r.pendingWrites
    ensures IsReady(r.state) && !r.connected ==>
      && s.effects == [CacheSet(r.name, r.version + 1, Apply(r.data, req.write))]
      && s.record.deferredAcks == r.deferredAcks + (if req.callback.Some? then [req.callback.value] else [])
      && s.record.nextCorrelationId == r.nextCorrelationId
  {
    if !IsReady(r.state) then Step(r, [])
    else
      var version := r.version + 1;
      var data := Apply(r.data, req.write);
      var written := r.(version := version, data := data);
      if r.connected then
        match req.callback
        case None =>
          Step(written, [Send(WriteMessage(r.name, version, req.write, None))])
        case Some(cb) =>
          var id := r.nextCorrelationId;
          Step(written.(nextCorrelationId := id + 1, pendingWrites := r.pendingWrites[id := cb]),
               [Send(WriteMessage(r.name, version, req.write, Some(Correlation.Decimal(id))))])
      else
        Step(written.(deferredAcks := r.deferredAcks + if req.callback.Some? then [req.callback.value] else []),
             [CacheSet(r.name, version, data)])
  }

  /** `whenReady`: served at once when ready, queued while loading */
  function OnWhenReady(r: Record, w: Waiter): (s: Step)
    ensures IsReady(r.state) ==> s == Step(r, [Notify(w)])
    ensures IsLoading(r.state) ==> s.effects == [] && s.record == r.(waiters := r.waiters + [w])
    ensures IsTerminal(r.state) ==> s == Step(r, [])
  {
    if IsReady(r.state) then Step(r, [Notify(w)])
    else if IsLoading(r.state) then Step(r.(waiters := r.waiters + [w]), [])
    else Step(r, [])
  }

  /**
   `discard`: the caller's usage ends; when no usage is left the record
   starts the debounce timer instead of unsubscribing at once.
   */
  function OnDiscard(r: Record): (s: Step)
    ensures r.state != READY ==> s == Step(r, [])
    ensures r.state == READY && r.usages <= 1 ==>
      && s.record.state == UNSUBSCRIBING && IsReady(s.record.state)
      && s.record.usages == 0 && s.record.discardTimer
      && s.effects == [StartDiscardTimer(r.discardTimeout)]
    ensures r.state == READY && r.usages > 1 ==>
      s == Step(r.(usages := r.usages - 1), [])
  {
    if r.state != READY then Step(r, [])
    else if r.usages <= 1 then
      Step(r.(usages := 0, state := UNSUBSCRIBING, discardTimer := true), [StartDiscardTimer(r.discardTimeout)])
    else
      Step(r.(usages := r.usages - 1), [])
  }

  /** A consumer attaches; during the grace period this cancels the pending discard */
  function OnAttach(r: Record): (s: Step)
    ensures IsTerminal(r.state) ==> s == Step(r, [])
    ensures !IsTerminal(r.state) ==> s.record.usages == r.usages + 1
    ensures r.state == UNSUBSCRIBING ==>
      s.record.state == READY && !s.record.discardTimer && s.effects == [CancelDiscardTimer]
    ensures !IsTerminal(r.state) && r.state != UNSUBSCRIBING ==>
      s.record.state == r.state && s.effects == []
  {
    if IsTerminal(r.state) then Step(r, [])
    else if r.state == UNSUBSCRIBING then
      Step(r.(usages := r.usages + 1, state := READY, discardTimer := false), [CancelDiscardTimer])
    else
      Step(r.(usages := r.usages + 1), [])
  }

  /** The debounce timer elapsed with no usage: unsubscribe (online only) and complete */
  function OnDiscardTimerFired(r: Record): (s: Step)
    ensures r.discardTimer && r.state == UNSUBSCRIBING && r.usages == 0 ==>
      && s.record.state == UNSUBSCRIBED && !IsReady(s.record.state)
      && s.effects == (if r.connected then [Send(Plain(UNSUBSCRIBE, r.name))] else []) + [Completed(r.name)]
    ensures !(r.discardTimer && r.state == UNSUBSCRIBING && r.usages == 0) ==> s == Step(r, [])
  {
    if r.discardTimer && r.state == UNSUBSCRIBING && r.usages == 0 then
      Teardown(r, UNSUBSCRIBED, if r.connected then [Send(Plain(UNSUBSCRIBE, r.name))] else [])
    else Step(r, [])
  }

  /** `delete`: ask for deletion and wait for its confirmation */
  function OnDelete(r: Record): (s: Step)
    ensures r.state != READY ==> s == Step(r, [])
    ensures r.state == READY ==>
      && s.record == r.(state := DELETING) && IsReady(s.record.state)
      && s.effects == [if r.connected then Send(Plain(DELETE, r.name)) else CacheDelete(r.name)]
  {
    if r.state != READY then Step(r, [])
    else Step(r.(state := DELETING), [if r.connected then Send(Plain(DELETE, r.name)) else CacheDelete(r.name)])
  }

  /** The next scheduling tick: deferred offline acknowledgements run */
  function OnTick(r: Record): (s: Step)
    ensures s.record == r.(deferredAcks := [])
    ensures s.effects == OfflineAcks(r.deferredAcks, r.name)
  {
    Step(r.(deferredAcks := []), OfflineAcks(r.deferredAcks, r.name))
  }

  /** One step of the record */
  function Next(r: Record, e: Event): (s: Step)
    ensures s.record.name == r.name && s.record.connected == r.connected
    ensures s.record.discardTimeout == r.discardTimeout
  {
    match e
    case Open => OnOpen(r)
    case CacheLoaded(c) => OnCacheLoaded(r, c)
    case Receive(m) => OnReceive(r, m)
    case Set(req) => OnSet(r, req)
    case WhenReady(w) => OnWhenReady(r, w)
    case Discard => OnDiscard(r)
    case Attach => OnAttach(r)
    case DiscardTimerFired => OnDiscardTimerFired(r)
    case Delete => OnDelete(r)
    case Tick => OnTick(r)
  }

  /** Every step keeps the record valid */
  lemma NextPreservesValid(r: Record, e: Event)
    requires Valid(r)
    ensures Valid(Next(r, e).record)
  {
  }
}
