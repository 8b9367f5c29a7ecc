/** The admission decision `ChatConsumer.connect` takes, as a function of the
    scope's user, the URL's `id` argument and the set of existing user ids:
    the ordered checks with their close codes and the room name built from
    the sorted pair of ids. */
module Gatekeeper {
  import opened Options
  import opened PyText
  import opened Payload

  /** `scope['user']`: Django's anonymous user, or an authenticated one. */
  datatype Identity = Anonymous | Authenticated(id: int, username: string)

  const CloseUnauthenticated := 4001
  const CloseBadTarget := 4002
  const CloseSelfChat := 4003
  const CloseUnknownTarget := 4004
  const CloseNotParticipant := 4005

  /** `sorted([a, b])`. */
  function SortedPair(a: int, b: int): (p: seq<int>)
    ensures |p| == 2 && p[0] <= p[1]
    ensures (p[0] == a && p[1] == b) || (p[0] == b && p[1] == a)
  {
    if a <= b then [a, b] else [b, a]
  }

  /** `f'chat_{user_ids[0]}_{user_ids[1]}'` for the sorted pair: never
      empty, always under the `chat_` prefix. */
  function RoomName(a: int, b: int): (r: string)
    ensures |r| >= 8 && r[..5] == "chat_"
  {
    var p := SortedPair(a, b);
    "chat_" + IntToString(p[0]) + "_" + IntToString(p[1])
  }

  /** Both participants compute the same room, whoever connects. */
  lemma RoomNameSymmetric(a: int, b: int)
    ensures RoomName(a, b) == RoomName(b, a)
  {
  }

  predicate NoUnderscore(s: string) {
    forall i :: 0 <= i < |s| ==> s[i] != '_'
  }

  /** A string with a single separator splits in only one way. */
  lemma SplitUnique(x: string, y: string, x': string, y': string)
    requires NoUnderscore(x) && NoUnderscore(x')
    requires x + "_" + y == x' + "_" + y'
    ensures x == x' && y == y'
  {
    var s, s' := x + "_" + y, x' + "_" + y';
    assert s[|x|] == '_' && s'[|x'|] == '_';
    assert forall i :: 0 <= i < |x| ==> s[i] == x[i];
    assert forall i :: 0 <= i < |x'| ==> s'[i] == x'[i];
    assert |x| == |x'|;
    assert x == s[..|x|] && x' == s'[..|x|];
    assert y == s[|x| + 1..] && y' == s'[|x| + 1..];
  }

  /** Room names never collide: two pairs of ids share a room name exactly
      when they are the same unordered pair. */
  lemma RoomNameInjective(a: int, b: int, c: int, d: int)
    ensures RoomName(a, b) == RoomName(c, d) <==> (a == c && b == d) || (a == d && b == c)
  {
    if RoomName(a, b) == RoomName(c, d) {
      var p, q := SortedPair(a, b), SortedPair(c, d);
      var x, y := IntToString(p[0]), IntToString(p[1]);
      var x', y' := IntToString(q[0]), IntToString(q[1]);
      assert "chat_" + x + "_" + y == "chat_" + (x + "_" + y);
      assert "chat_" + x' + "_" + y' == "chat_" + (x' + "_" + y');
      assert x + "_" + y == ("chat_" + (x + "_" + y))[5..];
      assert x' + "_" + y' == ("chat_" + (x' + "_" + y'))[5..];
      SplitUnique(x, y, x', y');
      IntToStringInjective(p[0], q[0]);
      IntToStringInjective(p[1], q[1]);
    }
  }

  /** What `connect` decides: close with a code, or join a room with a peer. */
  datatype Decision = Rejected(code: int) | Admitted(peer: int, room: string)

  /** `int(kwargs.get('id', ''))`; a missing argument is `int('')`, which
      raises. */
  function TargetId(urlId: Option<Value>): (r: Option<int>)
    ensures urlId.None? ==> r.None?
  {
    IntOf(urlId.GetOr(Str("")))
  }

  /** The checks of `connect`, in their order, each with its close code. */
  function Admission(user: Identity, urlId: Option<Value>, existing: set<int>): (r: Decision)
    ensures !user.Authenticated? ==> r == Rejected(CloseUnauthenticated)
    ensures r.Admitted? ==> r.peer != user.id && r.peer in existing && |r.room| >= 8
  {
    if !user.Authenticated? then Rejected(CloseUnauthenticated)
    else
      match TargetId(urlId)
      case None => Rejected(CloseBadTarget)
      case Some(other) =>
        if other == user.id then Rejected(CloseSelfChat)
        else if other !in existing then Rejected(CloseUnknownTarget)
        else if user.id !in SortedPair(user.id, other) then Rejected(CloseNotParticipant)
        else Admitted(other, RoomName(user.id, other))
  }

  /** The defence-in-depth re-check can never fire: the connecting id is
      always one of the two sorted ids. So every rejection carries one of
      the first four codes. */
  lemma NotParticipantUnreachable(user: Identity, urlId: Option<Value>, existing: set<int>)
    ensures Admission(user, urlId, existing) != Rejected(CloseNotParticipant)
    ensures Admission(user, urlId, existing).Rejected? ==>
      Admission(user, urlId, existing).code in {CloseUnauthenticated, CloseBadTarget, CloseSelfChat, CloseUnknownTarget}
  {
  }

  /** Admission is granted exactly when all four checks pass, and then the
      peer is the requested id, a different existing user, and the room is the
      pair's room. */
  lemma AdmittedExactly(user: Identity, urlId: Option<Value>, existing: set<int>)
    ensures Admission(user, urlId, existing).Admitted? <==>
      user.Authenticated? && TargetId(urlId).Some? &&
      TargetId(urlId).value != user.id && TargetId(urlId).value in existing
    ensures Admission(user, urlId, existing).Admitted? ==>
      var d := Admission(user, urlId, existing);
      d.peer == TargetId(urlId).value && d.peer != user.id && d.peer in existing &&
      d.room == RoomName(user.id, d.peer)
  {
  }

  /** Each rejection code belongs to exactly one failed check, taken in
      order: 4001 for an anonymous user, 4002 for an id that is not an
      integer, 4003 for one's own id, 4004 for an id with no user. */
  lemma AdmissionCodes(user: Identity, urlId: Option<Value>, existing: set<int>)
    ensures Admission(user, urlId, existing) == Rejected(CloseUnauthenticated) <==> !user.Authenticated?
    ensures Admission(user, urlId, existing) == Rejected(CloseBadTarget) <==>
      user.Authenticated? && TargetId(urlId).None?
    ensures Admission(user, urlId, existing) == Rejected(CloseSelfChat) <==>
      user.Authenticated? && TargetId(urlId) == Some(user.id)
    ensures Admission(user, urlId, existing) == Rejected(CloseUnknownTarget) <==>
      user.Authenticated? && TargetId(urlId).Some? &&
      TargetId(urlId).value != user.id && TargetId(urlId).value !in existing
  {
  }

  /** Self-chat is always refused with its own code, never admitted. */
  lemma SelfChatRejected(uid: int, name: string, urlId: Option<Value>, existing: set<int>)
    requires TargetId(urlId) == Some(uid)
    ensures Admission(Authenticated(uid, name), urlId, existing) == Rejected(CloseSelfChat)
  {
  }

  /** When two users each open the conversation with the other, both are
      put in one room; and admitted connections of any other pair are put
      in a different room. */
  lemma AdmittedRoomsMatchPairs(u1: Identity, url1: Option<Value>, u2: Identity, url2: Option<Value>, existing: set<int>)
    requires Admission(u1, url1, existing).Admitted? && Admission(u2, url2, existing).Admitted?
    ensures var d1, d2 := Admission(u1, url1, existing), Admission(u2, url2, existing);
      d1.room == d2.room <==>
        (u1.id == u2.id && d1.peer == d2.peer) || (u1.id == d2.peer && d1.peer == u2.id)
  {
    var d1, d2 := Admission(u1, url1, existing), Admission(u2, url2, existing);
    RoomNameInjective(u1.id, d1.peer, u2.id, d2.peer);
  }
}
