/** `ChatConsumer`: the per-connection state machine of the private chat.
    `Connect` admits or rejects the connection, `Disconnect` tears it down,
    `Receive` routes an inbound frame to one of three handlers, and the three
    `On...` methods render broadcast events back to the client. The message
    and user tables and the channel layer are shared objects the consumer
    updates through their own methods. */
module Consumer {
  import opened Options
  import opened PyText
  import opened Payload
  import opened Events
  import opened Store
  import opened Layer
  import opened Gatekeeper
  import opened Effects

  /** `MAX_MESSAGE_LENGTH`: characters kept of a chat message. */
  const MaxMessageLength := 4000
  /** `MAX_READ_IDS`: entries considered of a read receipt. */
  const MaxReadIds := 500

  /** The parts of the connection scope the consumer reads: the user the
      authentication middleware resolved and the URL's `id` argument. */
  datatype Scope = Scope(user: Identity, urlId: Option<Value>)

  /** The WebSocket handshake as the consumer drives it. */
  datatype Status = Connecting | Accepted | Closed(code: int)

  // ---------------------------------------------------------------------------
  // What the handlers extract from a payload
  // ---------------------------------------------------------------------------

  /** The handler `receive` chooses for a JSON object. */
  datatype Route = ChatRoute | ReadReceiptRoute | DeleteRoute

  /** The two non-chat handlers run only for their exact `type` string. */
  function RouteOf(payload: map<string, Value>): (r: Route)
    ensures r == ReadReceiptRoute ==> "type" in payload && payload["type"] == Str("read_receipt")
    ensures r == DeleteRoute ==> "type" in payload && payload["type"] == Str("delete_message")
  {
    var t := Get(payload, "type", Str("message"));
    if t == Str("read_receipt") then ReadReceiptRoute
    else if t == Str("delete_message") then DeleteRoute
    else ChatRoute
  }

  /** The body `_handle_chat_message` stores, or `None` when it ignores the
      frame (the `message` field is not a string, or is only whitespace). */
  function ChatBody(payload: map<string, Value>): (r: Option<string>)
    ensures r.Some? ==> |r.value| <= MaxMessageLength
    ensures r.Some? ==> "message" in payload && payload["message"].Str?
  {
    var m := Get(payload, "message", Str(""));
    if !m.Str? || Strip(m.s) == [] then None
    else Some(Strip(Truncate(m.s)))
  }

  /** `text[:MAX_MESSAGE_LENGTH]`. */
  function Truncate(text: string): (r: string)
    ensures |r| <= MaxMessageLength
    ensures r == text[..if |text| < MaxMessageLength then |text| else MaxMessageLength]
  {
    if |text| > MaxMessageLength then text[..MaxMessageLength] else text
  }

  /** `raw[:MAX_READ_IDS]`: the first 500 entries, or all of a shorter list. */
  function Cap(raw: seq<Value>): (r: seq<Value>)
    ensures |r| <= MaxReadIds && |r| <= |raw| && r == raw[..|r|]
    ensures |raw| <= MaxReadIds ==> r == raw
  {
    if |raw| > MaxReadIds then raw[..MaxReadIds] else raw
  }

  /** The ids `_handle_read_receipt` coerces, or `None` when `read_ids` is
      not a list. */
  function ReadIds(payload: map<string, Value>): (r: Option<seq<int>>)
    ensures r.Some? ==> |r.value| <= MaxReadIds
    ensures r.None? <==> "read_ids" in payload && !payload["read_ids"].List?
  {
    var raw := Get(payload, "read_ids", List([]));
    if raw.List? then Some(CoerceAll(Cap(raw.items))) else None
  }

  /** The id `_handle_delete_message` acts on, or `None` when it ignores the
      frame (not coercible, or not positive). */
  function DeleteTarget(payload: map<string, Value>): (r: Option<int>)
    ensures r.Some? ==> r.value > 0 && "message_id" in payload
  {
    match IntOf(Get(payload, "message_id", Int(0)))
    case None => None
    case Some(k) => if k <= 0 then None else Some(k)
  }

  /** A missing or unrecognised `type` goes to the chat-message handler. */
  lemma RouteDefaultsToChat(payload: map<string, Value>)
    ensures RouteOf(payload) == ChatRoute <==>
      "type" !in payload || (payload["type"] != Str("read_receipt") && payload["type"] != Str("delete_message"))
  {
  }

  /** A chat body is kept exactly when the field is a string with some
      non-whitespace character; what is stored is the first 4000 characters,
      stripped, so it is never longer than 4000 characters and never starts
      or ends with whitespace. */
  lemma ChatBodySpec(payload: map<string, Value>)
    ensures var m := Get(payload, "message", Str(""));
      ChatBody(payload).Some? <==> m.Str? && !AllSpace(m.s)
    ensures ChatBody(payload).Some? ==>
      var text, body := Get(payload, "message", Str("")).s, ChatBody(payload).value;
      |body| <= MaxMessageLength &&
      body == Strip(Truncate(text)) &&
      (body != [] ==> !IsSpace(body[0]) && !IsSpace(body[|body| - 1]))
  {
  }

  /** A body of at most 4000 characters is stored stripped and non-empty. */
  lemma ShortBodyStoredWhole(payload: map<string, Value>, text: string)
    requires Get(payload, "message", Str("")) == Str(text)
    requires |text| <= MaxMessageLength && !AllSpace(text)
    ensures ChatBody(payload) == Some(Strip(text)) && Strip(text) != []
  {
  }

  /** Truncation happens after the blank check: text whose first 4000
      characters are whitespace passes the check and is stored empty. */
  lemma BlankPrefixStoredEmpty(payload: map<string, Value>, text: string)
    requires Get(payload, "message", Str("")) == Str(text)
    requires |text| > MaxMessageLength && AllSpace(text[..MaxMessageLength]) && !AllSpace(text)
    ensures ChatBody(payload) == Some([])
  {
    StripAllSpace(text[..MaxMessageLength]);
  }

  /** A read receipt yields at most 500 ids, each the coercion of one of the
      first 500 entries; entries after the 500th never matter. */
  lemma ReadIdsCapped(payload: map<string, Value>, other: map<string, Value>)
    ensures ReadIds(payload).Some? ==>
      var raw, ids := Get(payload, "read_ids", List([])).items, ReadIds(payload).value;
      |ids| <= MaxReadIds &&
      forall k :: 0 <= k < |ids| ==> exists j :: 0 <= j < |raw| && j < MaxReadIds && IntOf(raw[j]) == Some(ids[k])
    ensures var r1, r2 := Get(payload, "read_ids", List([])), Get(other, "read_ids", List([]));
      r1.List? && r2.List? && Cap(r1.items) == Cap(r2.items) ==> ReadIds(payload) == ReadIds(other)
  {
    var raw := Get(payload, "read_ids", List([]));
    if raw.List? {
      var capped := Cap(raw.items);
      CoerceAllSound(capped);
      var ids := CoerceAll(capped);
      forall k | 0 <= k < |ids|
        ensures exists j :: 0 <= j < |raw.items| && j < MaxReadIds && IntOf(raw.items[j]) == Some(ids[k])
      {
        var j :| 0 <= j < |capped| && IntOf(capped[j]) == Some(ids[k]);
        assert capped[j] == raw.items[j];
      }
    }
  }

  /** A receipt is a no-op exactly when no entry among the first 500 coerces. */
  lemma ReadIdsEmpty(payload: map<string, Value>)
    requires ReadIds(payload).Some?
    ensures ReadIds(payload) == Some([]) <==>
      var capped := Cap(Get(payload, "read_ids", List([])).items);
      forall j :: 0 <= j < |capped| ==> IntOf(capped[j]).None?
  {
    CoerceAllEmpty(Cap(Get(payload, "read_ids", List([])).items));
  }

  /** The delete handler acts only on a positive id; without a `message_id`
      field (default 0) it does nothing. */
  lemma DeleteTargetSpec(payload: map<string, Value>)
    ensures DeleteTarget(payload).Some? <==>
      IntOf(Get(payload, "message_id", Int(0))).Some? && IntOf(Get(payload, "message_id", Int(0))).value > 0
    ensures DeleteTarget(payload).Some? ==> DeleteTarget(payload) == IntOf(Get(payload, "message_id", Int(0)))
    ensures "message_id" !in payload ==> DeleteTarget(payload).None?
  {
  }

  // ---------------------------------------------------------------------------
  // The consumer
  // ---------------------------------------------------------------------------

  class ChatConsumer {
    const scope: Scope
    const channelName: string
    const db: Database
    const layer: ChannelLayer
    /** The journal the database and the channel layer record into. */
    const journal: Journal

    /** `self.user`: `None` until `connect` has run. */
    var user: Option<Identity>
    /** `self.room_group_name`: set only when admission succeeds. */
    var roomGroupName: Option<string>
    /** `self.other_user_id`. */
    var otherUserId: Option<int>
    var status: Status
    /** The frames `self.send` has written to this client. */
    var sent: seq<Value>
    constructor (scope: Scope, channelName: string, db: Database, layer: ChannelLayer)
      requires db.journal == layer.journal
      ensures this.scope == scope && this.channelName == channelName
      ensures this.db == db && this.layer == layer && journal == db.journal
      ensures Wired()
      ensures user.None? && roomGroupName.None? && otherUserId.None?
      ensures status == Connecting && sent == []
    {
      this.scope := scope;
      this.channelName := channelName;
      this.db := db;
      this.layer := layer;
      journal := db.journal;
      user := None;
      roomGroupName := None;
      otherUserId := None;
      status := Connecting;
      sent := [];
    }

    /** The database, the channel layer and the consumer record into one
        journal, so its order is the order of their calls. */
    ghost predicate Wired() {
      db.journal == journal && layer.journal == journal
    }

    /** An admitted connection: an authenticated user, a different peer and
        the pair's room. */
    ghost predicate Admitted()
      reads this, db
    {
      user.Some? && user.value.Authenticated? && otherUserId.Some? && roomGroupName.Some? &&
      otherUserId.value != user.value.id &&
      roomGroupName.value == RoomName(user.value.id, otherUserId.value) &&
      db.Valid() && Wired()
    }

    /** Neither table nor the channel layer changed, and nothing was done. */
    twostate predicate Unchanged()
      reads this, db, layer, journal
    {
      db.users == old(db.users) && db.messages == old(db.messages) && db.nextId == old(db.nextId) &&
      layer.groups == old(layer.groups) && layer.outbox == old(layer.outbox) &&
      journal.entries == old(journal.entries)
    }

    /** The chat-message handler's effect: nothing, or one unread message from
        the user to the peer, saved, and then broadcast to the room with the
        id the store gave it. */
    twostate predicate ChatHandled(payload: map<string, Value>)
      reads this, db, layer, journal
    {
      user.Some? && user.value.Authenticated? && otherUserId.Some? && roomGroupName.Some? &&
      var me, peer, room := user.value, otherUserId.value, roomGroupName.value;
      match ChatBody(payload)
      case None => Unchanged()
      case Some(body) =>
        if peer !in old(db.users) then Unchanged()
        else
          var id := old(db.nextId);
          var event := Events.ChatMessage(body, me.username, me.id, id);
          db.messages == old(db.messages) + [Message(id, me.id, peer, body, false)] &&
          db.nextId == id + 1 && db.users == old(db.users) &&
          layer.groups == old(layer.groups) &&
          layer.outbox == old(layer.outbox) + [Envelope(room, event)] &&
          journal.entries == old(journal.entries) + [Saved(id), Broadcast(room, event)]
    }

    /** The read-receipt handler's effect: nothing, or the filtered update
        for the reader followed by a `messages_read` broadcast of the ids. */
    twostate predicate ReadReceiptHandled(payload: map<string, Value>)
      reads this, db, layer, journal
    {
      user.Some? && user.value.Authenticated? && roomGroupName.Some? &&
      var me, room := user.value, roomGroupName.value;
      match ReadIds(payload)
      case None => Unchanged()
      case Some(ids) =>
        if ids == [] then Unchanged()
        else
          var event := Events.MessagesRead(ids, me.id);
          db.messages == MarkRead(old(db.messages), ids, me.id) &&
          db.nextId == old(db.nextId) && db.users == old(db.users) &&
          layer.groups == old(layer.groups) &&
          layer.outbox == old(layer.outbox) + [Envelope(room, event)] &&
          journal.entries == old(journal.entries) + [MarkedRead(ids), Broadcast(room, event)]
    }

    /** The delete handler's effect: nothing, or the owner-filtered delete,
        with a `message_deleted` broadcast only when a row went. */
    twostate predicate DeleteHandled(payload: map<string, Value>)
      reads this, db, layer, journal
    {
      user.Some? && user.value.Authenticated? && roomGroupName.Some? &&
      var me, room := user.value, roomGroupName.value;
      match DeleteTarget(payload)
      case None => Unchanged()
      case Some(id) =>
        var deleted := HasOwned(old(db.messages), id, me.id);
        var event := Events.MessageDeleted(id, me.id);
        db.messages == RemoveOwned(old(db.messages), id, me.id) &&
        db.nextId == old(db.nextId) && db.users == old(db.users) &&
        layer.groups == old(layer.groups) &&
        layer.outbox == old(layer.outbox) + (if deleted then [Envelope(room, event)] else []) &&
        journal.entries == old(journal.entries) + [DeleteTried(id, deleted)] + (if deleted then [Broadcast(room, event)] else [])
    }

    /** `self.close(code)`. */
    method Close(code: int)
      modifies this`status, journal
      ensures status == Closed(code) && journal.entries == old(journal.entries) + [CloseSent(code)]
    {
      status := Closed(code);
      journal.entries := journal.entries + [CloseSent(code)];
    }

    /** `self.accept()`. */
    method Accept()
      modifies this`status, journal
      ensures status == Accepted && journal.entries == old(journal.entries) + [AcceptSent]
    {
      status := Accepted;
      journal.entries := journal.entries + [AcceptSent];
    }

    /** `connect`: the ordered admission checks, each closing with its own
        code; on success the room is joined, then the user is marked online,
        then the connection is accepted. */
    method Connect()
      requires user.None? && otherUserId.None? && db.Valid() && Wired()
      modifies this, db, layer, journal
      ensures db.Valid() && user == Some(scope.user) && sent == old(sent)
      ensures db.messages == old(db.messages) && db.nextId == old(db.nextId)
      ensures layer.outbox == old(layer.outbox)
      ensures match Admission(scope.user, scope.urlId, old(db.users).Keys)
        case Rejected(code) =>
          status == Closed(code) && roomGroupName.None? && otherUserId.None? &&
          db.users == old(db.users) && layer.groups == old(layer.groups) &&
          journal.entries == old(journal.entries) + [CloseSent(code)]
        case Admitted(peer, room) =>
          Admitted() && status == Accepted &&
          roomGroupName == Some(room) && otherUserId == Some(peer) &&
          layer.groups == WithMember(old(layer.groups), room, channelName) &&
          db.users == WithPresence(old(db.users), scope.user.id, true) &&
          journal.entries == old(journal.entries) + [Joined(room, channelName), WentOnline(scope.user.id), AcceptSent]
    {
      user := Some(scope.user);
      roomGroupName := None;
      ghost var decision := Admission(scope.user, scope.urlId, db.users.Keys);

      // 1. Authentication
      if !scope.user.Authenticated? {
        Close(CloseUnauthenticated);
        return;
      }
      var me := scope.user.id;

      // 2. The target id from the URL
      var parsed := IntOf(scope.urlId.GetOr(Str("")));
      if parsed.None? {
        assert decision == Rejected(CloseBadTarget);
        Close(CloseBadTarget);
        return;
      }
      var other := parsed.value;

      // 3. No self-chat
      if other == me {
        assert decision == Rejected(CloseSelfChat);
        Close(CloseSelfChat);
        return;
      }

      // 4. The target exists
      var found := db.CheckUserExists(other);
      if !found {
        assert decision == Rejected(CloseUnknownTarget);
        Close(CloseUnknownTarget);
        return;
      }

      // 5. The room of the sorted pair, and the participant re-check
      otherUserId := Some(other);
      var userIds := SortedPair(me, other);
      var room := "chat_" + IntToString(userIds[0]) + "_" + IntToString(userIds[1]);
      roomGroupName := Some(room);
      if me !in userIds {
        // The re-check that would close with `CloseNotParticipant` cannot
        // fire: `me` is one of the two sorted ids.
        assert false;
      }
      assert decision == Decision.Admitted(other, room);
      Join(room);
    }

    /** The admitted tail of `connect`: join the room, mark the user online,
        accept, in that order. */
    method Join(room: string)
      requires user.Some? && user.value.Authenticated? && db.Valid() && Wired()
      modifies this`status, journal, db, layer
      ensures db.Valid() && status == Accepted
      ensures db.messages == old(db.messages) && db.nextId == old(db.nextId)
      ensures layer.outbox == old(layer.outbox)
      ensures layer.groups == WithMember(old(layer.groups), room, channelName)
      ensures db.users == WithPresence(old(db.users), user.value.id, true)
      ensures journal.entries == old(journal.entries) + [Joined(room, channelName), WentOnline(user.value.id), AcceptSent]
    {
      var me := user.value.id;
      layer.GroupAdd(room, channelName);
      db.SetUserOnline(me);
      Accept();
    }

    /** `disconnect`: leaves the room if one was joined, and marks an
        authenticated user offline. It reads `room_group_name` unguarded,
        so it needs `connect` to have run (which sets `user` and
        `room_group_name` before any check); Channels only calls it then. */
    method Disconnect(closeCode: int)
      requires user.Some? && Wired()
      modifies db, layer, journal
      ensures layer.groups ==
        if HasRoom() then WithoutMember(old(layer.groups), roomGroupName.value, channelName)
        else old(layer.groups)
      ensures db.users ==
        if SignedIn() then WithPresence(old(db.users), user.value.id, false)
        else old(db.users)
      ensures db.messages == old(db.messages) && db.nextId == old(db.nextId)
      ensures layer.outbox == old(layer.outbox)
      ensures journal.entries == old(journal.entries)
        + (if HasRoom() then [Left(roomGroupName.value, channelName)] else [])
        + (if SignedIn() then [WentOffline(user.value.id)] else [])
    {
      if roomGroupName.Some? && roomGroupName.value != "" {
        layer.GroupDiscard(roomGroupName.value, channelName);
      }
      if user.Some? && user.value.Authenticated? {
        db.SetUserOffline(user.value.id);
      }
    }

    /** `if self.room_group_name:` */
    predicate HasRoom()
      reads this
    {
      roomGroupName.Some? && roomGroupName.value != ""
    }

    /** `hasattr(self, 'user') and self.user.is_authenticated` */
    predicate SignedIn()
      reads this
    {
      user.Some? && user.value.Authenticated?
    }

    /** `receive`: a frame that is not JSON, or not a JSON object, does
        nothing; an object goes to the handler its `type` names. */
    method Receive(frame: Frame)
      requires Admitted()
      modifies db, layer, journal
      ensures Admitted()
      ensures frame.Invalid? || !frame.value.Object? ==> Unchanged()
      ensures frame.Decoded? && frame.value.Object? ==>
        match RouteOf(frame.value.fields)
        case ChatRoute => ChatHandled(frame.value.fields)
        case ReadReceiptRoute => ReadReceiptHandled(frame.value.fields)
        case DeleteRoute => DeleteHandled(frame.value.fields)
    {
      if frame.Invalid? {
        return;
      }
      if !frame.value.Object? {
        return;
      }
      var payload := frame.value.fields;
      var msgType := Get(payload, "type", Str("message"));
      if msgType == Str("read_receipt") {
        HandleReadReceipt(payload);
      } else if msgType == Str("delete_message") {
        HandleDeleteMessage(payload);
      } else {
        HandleChatMessage(payload);
      }
    }

    /** `_handle_chat_message`. */
    method HandleChatMessage(payload: map<string, Value>)
      requires Admitted()
      modifies db, layer, journal
      ensures Admitted() && ChatHandled(payload)
    {
      var messageText := Get(payload, "message", Str(""));
      if !messageText.Str? || Strip(messageText.s) == [] {
        assert ChatBody(payload).None?;
        return;
      }
      var text := messageText.s;
      if |text| > MaxMessageLength {
        text := text[..MaxMessageLength];
      }
      assert text == Truncate(messageText.s);
      var body := Strip(text);
      assert ChatBody(payload) == Some(body);
      SaveAndBroadcast(body);
    }

    /** The tail of `_handle_chat_message`: save `body` from the user to the
        peer, then broadcast it with the id it was given; nothing when the
        peer's row is gone. */
    method SaveAndBroadcast(body: string)
      requires Admitted()
      modifies db, layer, journal
      ensures Admitted()
      ensures otherUserId.value !in old(db.users) ==> Unchanged()
      ensures otherUserId.value in old(db.users) ==>
        var id := old(db.nextId);
        var event := Events.ChatMessage(body, user.value.username, user.value.id, id);
        db.messages == old(db.messages) + [Message(id, user.value.id, otherUserId.value, body, false)] &&
        db.nextId == id + 1 && db.users == old(db.users) &&
        layer.groups == old(layer.groups) &&
        layer.outbox == old(layer.outbox) + [Envelope(roomGroupName.value, event)] &&
        journal.entries == old(journal.entries) + [Saved(id), Broadcast(roomGroupName.value, event)]
    {
      var me, peer, room := user.value, otherUserId.value, roomGroupName.value;
      var saved := db.SaveMessage(me.id, peer, body);
      if saved.None? {
        return;
      }
      var id := saved.value;
      var event := Events.ChatMessage(body, me.username, me.id, id);
      layer.GroupSend(room, event);
    }

    /** `_handle_read_receipt`. */
    method HandleReadReceipt(payload: map<string, Value>)
      requires Admitted()
      modifies db, layer, journal
      ensures Admitted() && ReadReceiptHandled(payload)
    {
      var rawIds := Get(payload, "read_ids", List([]));
      if !rawIds.List? {
        return;
      }
      var raw := rawIds.items;
      if |raw| > MaxReadIds {
        raw := raw[..MaxReadIds];
      }
      var readIds: seq<int> := [];
      for i := 0 to |raw|
        invariant readIds == CoerceAll(raw[..i])
        modifies {}
      {
        CoerceAllAppend(raw[..i], raw[i]);
        assert raw[..i + 1] == raw[..i] + [raw[i]];
        match IntOf(raw[i]) {
          case Some(k) => readIds := readIds + [k];
          case None =>
        }
      }
      assert raw[..|raw|] == raw;
      assert ReadIds(payload) == Some(readIds);
      if readIds == [] {
        return;
      }
      MarkAndBroadcast(readIds);
    }

    /** The tail of `_handle_read_receipt`: mark `ids` read for the user,
        then broadcast them. */
    method MarkAndBroadcast(ids: seq<int>)
      requires Admitted()
      modifies db, layer, journal
      ensures Admitted()
      ensures var event := Events.MessagesRead(ids, user.value.id);
        db.messages == MarkRead(old(db.messages), ids, user.value.id) &&
        db.nextId == old(db.nextId) && db.users == old(db.users) &&
        layer.groups == old(layer.groups) &&
        layer.outbox == old(layer.outbox) + [Envelope(roomGroupName.value, event)] &&
        journal.entries == old(journal.entries) + [MarkedRead(ids), Broadcast(roomGroupName.value, event)]
    {
      var me, room := user.value, roomGroupName.value;
      db.MarkMessagesRead(ids, me.id);
      var event := Events.MessagesRead(ids, me.id);
      layer.GroupSend(room, event);
    }

    /** `_handle_delete_message`. */
    method HandleDeleteMessage(payload: map<string, Value>)
      requires Admitted()
      modifies db, layer, journal
      ensures Admitted() && DeleteHandled(payload)
    {
      var coerced := IntOf(Get(payload, "message_id", Int(0)));
      if coerced.None? {
        return;
      }
      var messageId := coerced.value;
      if messageId <= 0 {
        return;
      }
      var me := user.value;
      var deleted := db.DeleteMessageDb(messageId, me.id);
      if deleted {
        var event := Events.MessageDeleted(messageId, me.id);
        layer.GroupSend(roomGroupName.value, event);
      }
    }

    /** `chat_message`: forwards a chat event to the client. */
    method OnChatMessage(event: Event)
      requires event.ChatMessage?
      modifies this`sent
      ensures sent == old(sent) + [Render(event)]
    {
      sent := sent + [Render(event)];
    }

    /** `messages_read`: forwards a read event to the client. */
    method OnMessagesRead(event: Event)
      requires event.MessagesRead?
      modifies this`sent
      ensures sent == old(sent) + [Render(event)]
    {
      sent := sent + [Render(event)];
    }

    /** `message_deleted`: forwards a delete event to the client. */
    method OnMessageDeleted(event: Event)
      requires event.MessageDeleted?
      modifies this`sent
      ensures sent == old(sent) + [Render(event)]
    {
      sent := sent + [Render(event)];
    }
  }
}
