/**
 The RECORD-topic envelopes the record core exchanges with the transport:
 the subscribe/unsubscribe/delete requests it sends, the three write shapes
 with and without write acknowledgement, and the inbound READ_RESPONSE,
 DELETE_SUCCESS and DELETED notices.
 */
module Protocol {
  import opened Wrappers
  import opened Json

  datatype Topic = RECORD

  datatype Action =
    | SUBSCRIBECREATEANDREAD
    | READ_RESPONSE
    | UPDATE
    | UPDATE_WITH_WRITE_ACK
    | PATCH
    | PATCH_WITH_WRITE_ACK
    | ERASE
    | ERASE_WITH_WRITE_ACK
    | UNSUBSCRIBE
    | DELETE
    | DELETE_SUCCESS
    | DELETED

  /** An envelope; fields a given action does not use are None */
  datatype Message = Message(
    topic: Topic,
    action: Action,
    name: string,
    path: Option<string>,
    parsedData: Option<Json>,
    version: Option<int>,
    correlationId: Option<string>)

  /** An envelope carrying only topic, action and record name */
  function Plain(action: Action, name: string): (m: Message)
    ensures m.topic == RECORD && m.action == action && m.name == name
    ensures m.path.None? && m.parsedData.None? && m.version.None? && m.correlationId.None?
  {
    Message(RECORD, action, name, None, None, None, None)
  }

  predicate IsWriteAction(a: Action) {
    a == UPDATE || a == PATCH || a == ERASE
  }

  predicate IsWriteAckAction(a: Action) {
    a == UPDATE_WITH_WRITE_ACK || a == PATCH_WITH_WRITE_ACK || a == ERASE_WITH_WRITE_ACK
  }

  /** The action that carries a write of the given shape */
  function WriteAction(w: Write): (a: Action)
    ensures IsWriteAction(a)
    ensures a == UPDATE <==> w.Update?
    ensures a == PATCH <==> w.Patch?
    ensures a == ERASE <==> w.Erase?
  {
    match w
    case Update(_) => UPDATE
    case Patch(_, _) => PATCH
    case Erase(_) => ERASE
  }

  /** The write-acknowledged variant of a write action */
  function WithWriteAck(a: Action): (r: Action)
    requires IsWriteAction(a)
    ensures IsWriteAckAction(r)
  {
    match a
    case UPDATE => UPDATE_WITH_WRITE_ACK
    case PATCH => PATCH_WITH_WRITE_ACK
    case ERASE => ERASE_WITH_WRITE_ACK
  }

  /** The plain write action a write-acknowledged action stands for */
  function WithoutWriteAck(a: Action): (r: Action)
    requires IsWriteAckAction(a)
    ensures IsWriteAction(r)
  {
    match a
    case UPDATE_WITH_WRITE_ACK => UPDATE
    case PATCH_WITH_WRITE_ACK => PATCH
    case ERASE_WITH_WRITE_ACK => ERASE
  }

  /** Adding and dropping the write-ack marker are inverse to each other */
  lemma WriteAckRoundTrip(a: Action, b: Action)
    requires IsWriteAction(a) && IsWriteAckAction(b)
    ensures WithoutWriteAck(WithWriteAck(a)) == a
    ensures WithWriteAck(WithoutWriteAck(b)) == b
  {
  }

  /**
   The envelope that carries write `w` at the new `version`. An update
   carries the whole new tree, a patch the path and the leaf value only, an
   erase the path and no data; with a correlation id the action becomes the
   write-acknowledged variant.
   */
  function WriteMessage(name: string, version: int, w: Write, correlationId: Option<string>): (m: Message)
    ensures m.topic == RECORD && m.name == name && m.version == Some(version)
    ensures m.correlationId == correlationId
    ensures m.action == if correlationId.Some? then WithWriteAck(WriteAction(w)) else WriteAction(w)
    ensures w.Update? ==> m.path.None? && m.parsedData == Some(JObject(w.data))
    ensures w.Patch? ==> m.path == Some(w.path) && m.parsedData == Some(w.value)
    ensures w.Erase? ==> m.path == Some(w.path) && m.parsedData.None?
  {
    var action := if correlationId.Some? then WithWriteAck(WriteAction(w)) else WriteAction(w);
    match w
    case Update(d) => Message(RECORD, action, name, None, Some(JObject(d)), Some(version), correlationId)
    case Patch(p, v) => Message(RECORD, action, name, Some(p), Some(v), Some(version), correlationId)
    case Erase(p) => Message(RECORD, action, name, Some(p), None, Some(version), correlationId)
  }

  /** Asking for an acknowledgement changes the action and adds the id, nothing else */
  lemma WriteAckChangesOnlyActionAndId(name: string, version: int, w: Write, id: string)
    ensures WriteMessage(name, version, w, Some(id))
         == WriteMessage(name, version, w, None).(action := WithWriteAck(WriteAction(w)), correlationId := Some(id))
  {
  }
}
