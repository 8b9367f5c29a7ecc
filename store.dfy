/** The message and user tables behind the consumer's database helpers
    (`check_user_exists`, `save_message`, `mark_messages_read`,
    `delete_message_db`, `set_user_online`, `set_user_offline`), and the
    filtered updates and deletes they issue. */
module Store {
  import opened Options
  import opened Effects

  /** One row of the message table. */
  datatype Message = Message(id: int, sender: int, receiver: int, body: string, isRead: bool)

  /** The columns of a user row the consumer reads or writes. */
  datatype UserRow = UserRow(username: string, isOnline: bool)

  /** Ids strictly increase along the table (creation order); in particular
      no id occurs twice. */
  predicate IdsAscending(ms: seq<Message>) {
    forall i, j :: 0 <= i < j < |ms| ==> ms[i].id < ms[j].id
  }

  // ---------------------------------------------------------------------------
  // filter(id__in=ids, receiver=reader, is_read=False).update(is_read=True)
  // ---------------------------------------------------------------------------

  /** The row filter of the read-receipt update. */
  predicate Marks(m: Message, ids: seq<int>, reader: int) {
    m.id in ids && m.receiver == reader && !m.isRead
  }

  /** The update's result: as many rows as before, in the same order. */
  function MarkRead(ms: seq<Message>, ids: seq<int>, reader: int): (r: seq<Message>)
    ensures |r| == |ms|
  {
    if ms == [] then []
    else [if Marks(ms[0], ids, reader) then ms[0].(isRead := true) else ms[0]]
         + MarkRead(ms[1..], ids, reader)
  }

  /** The update flips `isRead` on exactly the rows the filter selects and
      leaves every other row, and every other column, as it was. */
  lemma {:induction false} MarkReadEffect(ms: seq<Message>, ids: seq<int>, reader: int)
    ensures |MarkRead(ms, ids, reader)| == |ms|
    ensures forall k :: 0 <= k < |ms| ==>
      MarkRead(ms, ids, reader)[k] ==
        if Marks(ms[k], ids, reader) then ms[k].(isRead := true) else ms[k]
  {
    if ms != [] {
      MarkReadEffect(ms[1..], ids, reader);
      var r := MarkRead(ms, ids, reader);
      forall k | 0 < k < |ms|
        ensures r[k] == if Marks(ms[k], ids, reader) then ms[k].(isRead := true) else ms[k]
      {
        assert r[k] == MarkRead(ms[1..], ids, reader)[k - 1];
        assert ms[1..][k - 1] == ms[k];
      }
    }
  }

  /** Authorization: a row that changes is addressed to the reader, is named
      in the receipt and was unread. No one can mark another user's inbound
      messages, nor their own outbound ones. */
  lemma MarkReadOnlyOwnInbox(ms: seq<Message>, ids: seq<int>, reader: int, k: int)
    requires 0 <= k < |ms|
    ensures k < |MarkRead(ms, ids, reader)|
    ensures MarkRead(ms, ids, reader)[k] != ms[k] ==>
      ms[k].receiver == reader && ms[k].id in ids && !ms[k].isRead
    ensures ms[k].receiver == reader && ms[k].id in ids ==> MarkRead(ms, ids, reader)[k].isRead
  {
    MarkReadEffect(ms, ids, reader);
  }

  /** Repeating a read receipt changes nothing more. */
  lemma MarkReadIdempotent(ms: seq<Message>, ids: seq<int>, reader: int)
    ensures MarkRead(MarkRead(ms, ids, reader), ids, reader) == MarkRead(ms, ids, reader)
  {
    var once := MarkRead(ms, ids, reader);
    MarkReadEffect(ms, ids, reader);
    MarkReadEffect(once, ids, reader);
  }

  /** Marking keeps ids (and their order), senders and receivers. */
  lemma MarkReadKeepsIds(ms: seq<Message>, ids: seq<int>, reader: int)
    ensures |MarkRead(ms, ids, reader)| == |ms|
    ensures forall k :: 0 <= k < |ms| ==> MarkRead(ms, ids, reader)[k].id == ms[k].id
    ensures forall k :: 0 <= k < |ms| ==>
      MarkRead(ms, ids, reader)[k].sender == ms[k].sender &&
      MarkRead(ms, ids, reader)[k].receiver == ms[k].receiver
    ensures IdsAscending(ms) ==> IdsAscending(MarkRead(ms, ids, reader))
  {
    MarkReadEffect(ms, ids, reader);
  }

  // ---------------------------------------------------------------------------
  // filter(id=id, sender=sender).delete()
  // ---------------------------------------------------------------------------

  /** The row filter of the delete: the id matches and the caller wrote it. */
  predicate Owned(m: Message, id: int, sender: int) {
    m.id == id && m.sender == sender
  }

  /** Whether the delete's filter selects some row. */
  predicate HasOwned(ms: seq<Message>, id: int, sender: int) {
    exists k :: 0 <= k < |ms| && Owned(ms[k], id, sender)
  }

  function RemoveOwned(ms: seq<Message>, id: int, sender: int): (r: seq<Message>)
    ensures |r| <= |ms|
  {
    if ms == [] then []
    else if Owned(ms[0], id, sender) then RemoveOwned(ms[1..], id, sender)
    else [ms[0]] + RemoveOwned(ms[1..], id, sender)
  }

  /** A row survives the delete exactly when it was there and the filter
      does not select it. */
  lemma {:induction false} RemoveOwnedMembers(ms: seq<Message>, id: int, sender: int)
    ensures forall m :: m in RemoveOwned(ms, id, sender) <==> m in ms && !Owned(m, id, sender)
  {
    if ms != [] {
      RemoveOwnedMembers(ms[1..], id, sender);
      assert forall m :: m in ms <==> m == ms[0] || m in ms[1..];
    }
  }

  /** Deleting keeps the survivors in their order. */
  lemma {:induction false} RemoveOwnedAscending(ms: seq<Message>, id: int, sender: int)
    requires IdsAscending(ms)
    ensures IdsAscending(RemoveOwned(ms, id, sender))
  {
    if ms != [] {
      var tail := RemoveOwned(ms[1..], id, sender);
      RemoveOwnedAscending(ms[1..], id, sender);
      RemoveOwnedMembers(ms[1..], id, sender);
      if !Owned(ms[0], id, sender) {
        var r := [ms[0]] + tail;
        forall i, j | 0 <= i < j < |r| ensures r[i].id < r[j].id {
          if i == 0 {
            assert r[j] in tail;
            var k :| 0 <= k < |ms[1..]| && ms[1..][k] == r[j];
            assert ms[k + 1] == r[j];
          } else {
            assert r[i] == tail[i - 1] && r[j] == tail[j - 1];
          }
        }
      }
    }
  }

  /** Nothing is deleted when no row matches both the id and the sender. */
  lemma {:induction false} RemoveOwnedNone(ms: seq<Message>, id: int, sender: int)
    requires forall k :: 0 <= k < |ms| ==> !Owned(ms[k], id, sender)
    ensures RemoveOwned(ms, id, sender) == ms
  {
    if ms != [] {
      assert forall k :: 0 <= k < |ms[1..]| ==> ms[1..][k] == ms[k + 1];
      RemoveOwnedNone(ms[1..], id, sender);
      assert [ms[0]] + ms[1..] == ms;
    }
  }

  /** Since ids are unique, a matching row is the only row removed, and the
      rest of the table is kept as it was. */
  lemma {:induction false} RemoveOwnedAt(ms: seq<Message>, id: int, sender: int, k: int)
    requires IdsAscending(ms)
    requires 0 <= k < |ms| && Owned(ms[k], id, sender)
    ensures RemoveOwned(ms, id, sender) == ms[..k] + ms[k + 1..]
  {
    if k == 0 {
      assert forall j :: 0 <= j < |ms[1..]| ==> ms[1..][j] == ms[j + 1];
      RemoveOwnedNone(ms[1..], id, sender);
    } else {
      assert IdsAscending(ms[1..]) by {
        forall i, j | 0 <= i < j < |ms[1..]| ensures ms[1..][i].id < ms[1..][j].id {
          assert ms[1..][i] == ms[i + 1] && ms[1..][j] == ms[j + 1];
        }
      }
      assert ms[1..][k - 1] == ms[k];
      RemoveOwnedAt(ms[1..], id, sender, k - 1);
      assert ms[0].id < ms[k].id;
      assert ms[..k] == [ms[0]] + ms[1..][..k - 1];
      assert ms[k + 1..] == ms[1..][k..];
    }
  }

  /** `deleted_count > 0` holds exactly when some row matched. */
  lemma {:induction false} RemoveOwnedShrinks(ms: seq<Message>, id: int, sender: int)
    ensures |RemoveOwned(ms, id, sender)| < |ms| <==> HasOwned(ms, id, sender)
  {
    if ms != [] {
      RemoveOwnedShrinks(ms[1..], id, sender);
      if exists k :: 0 <= k < |ms[1..]| && Owned(ms[1..][k], id, sender) {
        var k :| 0 <= k < |ms[1..]| && Owned(ms[1..][k], id, sender);
        assert ms[k + 1] == ms[1..][k];
      }
      if exists k :: 0 <= k < |ms| && Owned(ms[k], id, sender) {
        var k :| 0 <= k < |ms| && Owned(ms[k], id, sender);
        if k > 0 { assert ms[1..][k - 1] == ms[k]; }
      }
    }
  }

  // ---------------------------------------------------------------------------
  // filter(pk=uid).update(is_online=...)
  // ---------------------------------------------------------------------------

  /** The presence update: the row of `uid`, if there is one, gets the new
      flag; a missing row means the update touches nothing. */
  function WithPresence(users: map<int, UserRow>, uid: int, online: bool): (r: map<int, UserRow>)
    ensures r.Keys == users.Keys
    ensures uid in users ==> r[uid] == users[uid].(isOnline := online)
    ensures forall u :: u in users && u != uid ==> r[u] == users[u]
  {
    if uid in users then users[uid := users[uid].(isOnline := online)] else users
  }

  /** The store the consumer talks to. Every write is also recorded in the
      shared journal. */
  class Database {
    var users: map<int, UserRow>
    var messages: seq<Message>
    /** The id the next created message gets (ids are never reused). */
    var nextId: int
    const journal: Journal

    /** Ids are positive, ascending and below `nextId`; no one has a
        message addressed to themselves. */
    ghost predicate Valid()
      reads this
    {
      nextId >= 1 && IdsAscending(messages) &&
      (forall k :: 0 <= k < |messages| ==> 1 <= messages[k].id < nextId) &&
      forall k :: 0 <= k < |messages| ==> messages[k].sender != messages[k].receiver
    }

    constructor (initialUsers: map<int, UserRow>, journal: Journal)
      ensures Valid()
      ensures users == initialUsers && messages == [] && nextId == 1
      ensures this.journal == journal
    {
      users := initialUsers;
      messages := [];
      nextId := 1;
      this.journal := journal;
    }

    /** `User.objects.filter(id=uid).exists()`. */
    method CheckUserExists(uid: int) returns (b: bool)
      ensures b <==> uid in users
    {
      b := uid in users;
    }

    /** `save_message`: looks up the receiver (`User.objects.get`, which
        raises when the row is gone: `None`), then creates an unread row and
        returns its id. Its caller is a consumer admitted to a room with
        someone else, so the two parties differ. */
    method SaveMessage(sender: int, receiver: int, text: string) returns (id: Option<int>)
      requires Valid() && sender != receiver
      modifies this, journal
      ensures Valid() && users == old(users)
      ensures receiver !in old(users) ==>
        id.None? && messages == old(messages) && nextId == old(nextId) &&
        journal.entries == old(journal.entries)
      ensures receiver in old(users) ==>
        id == Some(old(nextId)) && nextId == old(nextId) + 1 &&
        messages == old(messages) + [Message(old(nextId), sender, receiver, text, false)] &&
        journal.entries == old(journal.entries) + [Saved(old(nextId))]
    {
      if receiver !in users {
        id := None;
        return;
      }
      messages := messages + [Message(nextId, sender, receiver, text, false)];
      id := Some(nextId);
      journal.entries := journal.entries + [Saved(nextId)];
      nextId := nextId + 1;
    }

    /** `mark_messages_read`: one filtered update. */
    method MarkMessagesRead(ids: seq<int>, reader: int)
      requires Valid()
      modifies this, journal
      ensures Valid() && users == old(users) && nextId == old(nextId)
      ensures messages == MarkRead(old(messages), ids, reader)
      ensures journal.entries == old(journal.entries) + [MarkedRead(ids)]
    {
      MarkReadKeepsIds(messages, ids, reader);
      messages := MarkRead(messages, ids, reader);
      journal.entries := journal.entries + [MarkedRead(ids)];
    }

    /** `delete_message_db`: one filtered delete; reports whether a row went. */
    method DeleteMessageDb(id: int, sender: int) returns (deleted: bool)
      requires Valid()
      modifies this, journal
      ensures Valid() && users == old(users) && nextId == old(nextId)
      ensures messages == RemoveOwned(old(messages), id, sender)
      ensures deleted == HasOwned(old(messages), id, sender)
      ensures journal.entries == old(journal.entries) + [DeleteTried(id, deleted)]
    {
      var kept := RemoveOwned(messages, id, sender);
      RemoveOwnedShrinks(messages, id, sender);
      RemoveOwnedAscending(messages, id, sender);
      RemoveOwnedMembers(messages, id, sender);
      forall k | 0 <= k < |kept|
        ensures 1 <= kept[k].id < nextId && kept[k].sender != kept[k].receiver
      {
        assert kept[k] in messages;
      }
      deleted := |messages| - |kept| > 0;
      messages := kept;
      journal.entries := journal.entries + [DeleteTried(id, deleted)];
    }

    /** `set_user_online`. */
    method SetUserOnline(uid: int)
      modifies this, journal
      ensures users == WithPresence(old(users), uid, true)
      ensures messages == old(messages) && nextId == old(nextId)
      ensures journal.entries == old(journal.entries) + [WentOnline(uid)]
    {
      users := WithPresence(users, uid, true);
      journal.entries := journal.entries + [WentOnline(uid)];
    }

    /** `set_user_offline`. */
    method SetUserOffline(uid: int)
      modifies this, journal
      ensures users == WithPresence(old(users), uid, false)
      ensures messages == old(messages) && nextId == old(nextId)
      ensures journal.entries == old(journal.entries) + [WentOffline(uid)]
    {
      users := WithPresence(users, uid, false);
      journal.entries := journal.entries + [WentOffline(uid)];
    }
  }
}
