/** The side effects of a connection — the channel layer's group calls and
    sends, the database writes, and the handshake frames — in one shared,
    ordered journal. Each object that performs an effect appends it to the
    journal itself, so the journal's order is the order of the calls. */
module Effects {
  import opened Events

  /** One side effect. */
  datatype Effect =
    | Joined(group: string, channel: string)
    | Left(group: string, channel: string)
    | WentOnline(uid: int)
    | WentOffline(uid: int)
    | AcceptSent
    | CloseSent(code: int)
    | Saved(id: int)
    | MarkedRead(ids: seq<int>)
    | DeleteTried(id: int, deleted: bool)
    | Broadcast(group: string, event: Event)

  /** The ordered record the database, the channel layer and the consumer
      share. */
  class Journal {
    ghost var entries: seq<Effect>

    constructor ()
      ensures entries == []
    {
      entries := [];
    }
  }
}
