/** The channel layer as the consumer sees it: a map from group name to the
    channels joined under it (`group_add`, `group_discard`) and an ordered
    outbox of the events handed to `group_send`. Fan-out delivery itself is
    not modelled; an outbox entry stands for one delivery to every member.
    Every call is also recorded in the shared journal. */
module Layer {
  import opened Events
  import opened Effects

  /** One `group_send` call: the group and the event. */
  datatype Envelope = Envelope(group: string, event: Event)

  /** The channels currently joined under `group`. */
  function Members(groups: map<string, set<string>>, group: string): set<string> {
    if group in groups then groups[group] else {}
  }

  /** The membership map after `channel` joins `group`. */
  function WithMember(groups: map<string, set<string>>, group: string, channel: string): (r: map<string, set<string>>)
    ensures r.Keys == groups.Keys + {group}
    ensures Members(r, group) == Members(groups, group) + {channel}
    ensures forall g :: g != group ==> Members(r, g) == Members(groups, g)
  {
    groups[group := Members(groups, group) + {channel}]
  }

  /** The membership map after `channel` leaves `group`. */
  function WithoutMember(groups: map<string, set<string>>, group: string, channel: string): (r: map<string, set<string>>)
    ensures r.Keys == groups.Keys
    ensures Members(r, group) == Members(groups, group) - {channel}
    ensures forall g :: g != group ==> Members(r, g) == Members(groups, g)
  {
    if group in groups then groups[group := groups[group] - {channel}] else groups
  }

  /** Leaving undoes joining: a channel that was not in the group before
      joining leaves every group's membership as it found it. */
  lemma LeaveUndoesJoin(groups: map<string, set<string>>, group: string, channel: string)
    requires channel !in Members(groups, group)
    ensures forall g :: Members(WithoutMember(WithMember(groups, group, channel), group, channel), g) == Members(groups, g)
  {
  }

  class ChannelLayer {
    var groups: map<string, set<string>>
    var outbox: seq<Envelope>
    const journal: Journal

    constructor (journal: Journal)
      ensures groups == map[] && outbox == [] && this.journal == journal
    {
      groups := map[];
      outbox := [];
      this.journal := journal;
    }

    /** `group_add`: `channel` joins `group`; no other group changes. */
    method GroupAdd(group: string, channel: string)
      modifies this, journal
      ensures groups == WithMember(old(groups), group, channel)
      ensures outbox == old(outbox)
      ensures journal.entries == old(journal.entries) + [Joined(group, channel)]
    {
      groups := groups[group := Members(groups, group) + {channel}];
      journal.entries := journal.entries + [Joined(group, channel)];
    }

    /** `group_discard`: `channel` leaves `group`; no other group changes. */
    method GroupDiscard(group: string, channel: string)
      modifies this, journal
      ensures groups == WithoutMember(old(groups), group, channel)
      ensures outbox == old(outbox)
      ensures journal.entries == old(journal.entries) + [Left(group, channel)]
    {
      if group in groups {
        groups := groups[group := groups[group] - {channel}];
      }
      journal.entries := journal.entries + [Left(group, channel)];
    }

    /** `group_send`: queues `event` for every member of `group`. */
    method GroupSend(group: string, event: Event)
      modifies this, journal
      ensures outbox == old(outbox) + [Envelope(group, event)]
      ensures groups == old(groups)
      ensures journal.entries == old(journal.entries) + [Broadcast(group, event)]
    {
      outbox := outbox + [Envelope(group, event)];
      journal.entries := journal.entries + [Broadcast(group, event)];
    }
  }
}
