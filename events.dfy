/** The events the consumer broadcasts to a room, and the client frames the
    three outbound handlers (`chat_message`, `messages_read`,
    `message_deleted`) render from them. */
module Events {
  import opened Options
  import opened Payload

  /** A broadcast event; its constructor is the event's `type`. */
  datatype Event =
    | ChatMessage(message: string, sender: string, senderId: int, messageId: int)
    | MessagesRead(readIds: seq<int>, readerId: int)
    | MessageDeleted(messageId: int, deletedBy: int)

  function IntValues(ids: seq<int>): (vs: seq<Value>)
    ensures |vs| == |ids| && forall k :: 0 <= k < |ids| ==> vs[k] == Int(ids[k])
  {
    seq(|ids|, k requires 0 <= k < |ids| => Int(ids[k]))
  }

  /** The JSON object pushed to the client for an event: the event's fields
      under the protocol's key names, with `type` naming the event. */
  function Render(e: Event): (v: Value)
    ensures v.Object? && "type" in v.fields && v.fields["type"].Str?
  {
    match e
    case ChatMessage(message, sender, senderId, messageId) =>
      Object(map[
        "type" := Str("chat_message"),
        "message" := Str(message),
        "sender" := Str(sender),
        "sender_id" := Int(senderId),
        "message_id" := Int(messageId)])
    case MessagesRead(readIds, readerId) =>
      Object(map[
        "type" := Str("messages_read"),
        "read_ids" := List(IntValues(readIds)),
        "reader_id" := Int(readerId)])
    case MessageDeleted(messageId, deletedBy) =>
      Object(map[
        "type" := Str("message_deleted"),
        "message_id" := Int(messageId),
        "deleted_by" := Int(deletedBy)])
  }

  function IntField(fields: map<string, Value>, key: string): Option<int> {
    if key in fields && fields[key].Int? then Some(fields[key].i) else None
  }

  function StrField(fields: map<string, Value>, key: string): Option<string> {
    if key in fields && fields[key].Str? then Some(fields[key].s) else None
  }

  function IntListField(fields: map<string, Value>, key: string): Option<seq<int>> {
    if key in fields && fields[key].List? &&
       forall k :: 0 <= k < |fields[key].items| ==> fields[key].items[k].Int?
    then
      var items := fields[key].items;
      Some(seq(|items|, k requires 0 <= k < |items| => items[k].i))
    else None
  }

  /** How a client reads an outbound frame back into the event it carries. */
  function ReadFrame(v: Value): Option<Event> {
    if !v.Object? then None
    else
      var f := v.fields;
      var t := StrField(f, "type");
      if t == Some("chat_message") then
        var m, s, sid, mid := StrField(f, "message"), StrField(f, "sender"),
                              IntField(f, "sender_id"), IntField(f, "message_id");
        if m.Some? && s.Some? && sid.Some? && mid.Some?
        then Some(ChatMessage(m.value, s.value, sid.value, mid.value)) else None
      else if t == Some("messages_read") then
        var ids, rid := IntListField(f, "read_ids"), IntField(f, "reader_id");
        if ids.Some? && rid.Some? then Some(MessagesRead(ids.value, rid.value)) else None
      else if t == Some("message_deleted") then
        var mid, who := IntField(f, "message_id"), IntField(f, "deleted_by");
        if mid.Some? && who.Some? then Some(MessageDeleted(mid.value, who.value)) else None
      else None
  }

  /** Rendering loses nothing: the client recovers exactly the broadcast
      event, so distinct events are rendered as distinct frames. */
  lemma RenderRoundTrip(e: Event)
    ensures ReadFrame(Render(e)) == Some(e)
  {
    match e
    case MessagesRead(readIds, readerId) =>
      var f := Render(e).fields;
      var items := IntValues(readIds);
      assert f["read_ids"] == List(items);
      assert seq(|items|, k requires 0 <= k < |items| => items[k].i) == readIds;
    case _ =>
  }

  lemma RenderInjective(e1: Event, e2: Event)
    ensures Render(e1) == Render(e2) <==> e1 == e2
  {
    RenderRoundTrip(e1);
    RenderRoundTrip(e2);
  }
}
