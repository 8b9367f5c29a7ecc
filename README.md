# Private chat consumer — a Dafny model

This project models the server side of a one-to-one chat application built on
Django Channels. It has two parts.

- **The WebSocket consumer `ChatConsumer`.** `connect` admits or rejects a
  connection. It runs ordered checks, each with its own close code:
  4001 unauthenticated, 4002 target id not an integer, 4003 self-chat, and
  4004 target user missing. It then derives the room `chat_<low>_<high>` from
  the sorted pair of ids, joins that group, marks the user online and accepts.
  `disconnect` undoes the join and the online flag. `receive` routes a JSON
  object by its `type` to one of three handlers:
  - a chat message is truncated to 4000 characters, stripped, saved and
    broadcast;
  - a read receipt is capped at 500 entries, coerced to integers, and marks
    read only the messages addressed to the reader;
  - a delete removes a message only if the caller sent it, and broadcasts
    only when a row went.

  Three renderers turn broadcast events back into client frames. The
  database helpers are modelled as methods of a `Database` class over a
  message table and a user table. The channel layer is a `ChannelLayer`
  class with a group-membership map and an outbox of `group_send` calls.
- **The `last_seen_display` template filter.** It maps the whole seconds since
  a user was last seen to a label, through increasing thresholds: "Unknown",
  "Just now", "N minute(s) ago", "N hour(s) ago", "Yesterday at …", and a
  date.

Modules, in dependency order:

- `Options`: the option type.
- `PyText`: Python's `str.isspace` and `strip`, `int(str)`, and the decimal
  rendering used by f-strings.
- `Payload`: decoded JSON values, `dict.get` with a default, and `int(value)`
  coercion.
- `Events`: broadcast events and the client frames rendered from them.
- `Effects`: the shared journal of side effects.
- `Store`: message and user rows, the filtered update and delete, and the
  `Database` class.
- `Layer`: the `ChannelLayer` class.
- `Gatekeeper`: the admission decision and the room name.
- `Consumer`: the `ChatConsumer` class.
- `ChatFilters`: `last_seen_display`.

The database, the channel layer and the consumer share one ghost `Journal`.
Every write method of `Database`, every method of `ChannelLayer` and the
consumer's `accept` and `close` append their own effect to it. The journal's
order is therefore the order of the calls, and it is how the contracts state
order: join, then online, then accept; save, then broadcast; mark, then
broadcast. The twostate predicates `ChatHandled`, `ReadReceiptHandled` and
`DeleteHandled` give each handler's whole effect on the tables, the layer and
the journal. `Receive` is specified by those same predicates.

`connect`'s fifth check (close 4005 when the connecting id is not in the
sorted pair) is the one defensive check. It appears as a branch of the pure
`Admission` function, and `NotParticipantUnreachable` proves that branch never
fires. In `Connect` that branch is an `assert false`.

## Model

| member | source | states |
|---|---|---|
| PyText.Strip | chat/consumers.py:161-172 | `strip()`: the result is a slice of the text with only whitespace before and after it; it is empty exactly when the text is all whitespace, and otherwise it neither starts nor ends with whitespace |
| PyText.StripSlice | chat/consumers.py:161-172 | what `rstrip(lstrip(s))` keeps is a slice of `s` with only whitespace on either side |
| PyText.StripLeft | chat/consumers.py:161 | the result is a suffix of the input and everything removed is whitespace |
| PyText.StripRight | chat/consumers.py:161 | the result is a prefix of the input and everything removed is whitespace |
| PyText.StripKeeps | chat/consumers.py:172 | text with no whitespace at either end is stored unchanged |
| PyText.StripAllSpace | chat/consumers.py:161 | whitespace-only text, such as the truncated prefix, strips to the empty string |
| PyText.NatToString | chat/consumers.py:94 | decimal rendering: at least one digit, all digits, and no leading zero except for 0 |
| PyText.IntToString | chat/consumers.py:94 | `f"{n}"`: digits, with a leading `-` exactly for negative numbers |
| PyText.DigitsRoundTrip | chat/consumers.py:94 | the digits of a natural number read back as that number |
| PyText.ParseDigits | chat/consumers.py:71 | the digit part of `int()`: accepted exactly when it is one to 4300 ASCII digits |
| PyText.ParseInt | chat/consumers.py:71 | `int(s)` fails on blank text and on more than 4300 digits, and a negative result was written with a minus sign |
| PyText.ParseIntRoundTrip | chat/consumers.py:71 | `int(str(n)) == n` for every integer of at most 4300 digits, negative ones included |
| PyText.IntToStringInjective | chat/consumers.py:93-94 | distinct ids render as distinct strings |
| Payload.Get | chat/consumers.py:142 | `dict.get` returns the stored value when the key is present, and the default otherwise |
| Payload.IntOf | chat/consumers.py:202-205 | `int(v)` refuses `None`, lists, objects and blank strings, and turns booleans into 1 and 0 |
| Payload.CoerceOne | chat/consumers.py:203-206 | one loop iteration: the entry's `int()` when it has one, otherwise nothing |
| Payload.CoerceAll | chat/consumers.py:201-206 | the coerced list is never longer than the input |
| Payload.Trunc | chat/consumers.py:204 | `int(float)` rounds toward zero, for both signs |
| Payload.CoerceAllAppend | chat/consumers.py:201-206 | one loop iteration appends exactly the coercion of one entry to the list built so far |
| Payload.CoerceAllSound | chat/consumers.py:201-206 | there are never more ids than entries, and each id is `int()` of some entry |
| Payload.CoerceAllEmpty | chat/consumers.py:201-208 | the coerced list is empty exactly when no entry coerces |
| Payload.CoerceAllInts | chat/consumers.py:201-206 | a list of JSON integers is kept whole and in order |
| Events.Render | chat/consumers.py:260-284 | every frame is a JSON object with a string `type` |
| Events.RenderRoundTrip | chat/consumers.py:260-284 | a client reading a rendered frame recovers exactly the broadcast event |
| Events.RenderInjective | chat/consumers.py:260-284 | two events render to the same frame exactly when they are equal |
| Store.MarkRead | chat/consumers.py:312-316 | the update keeps the number of rows |
| Store.MarkReadEffect | chat/consumers.py:312-316 | the update flips `is_read` on exactly the rows with an id in the list, addressed to the reader and unread; every other row and column is kept |
| Store.MarkReadOnlyOwnInbox | chat/consumers.py:312-316 | a changed row was addressed to the reader, named in the receipt and unread; every named message addressed to the reader ends up read |
| Store.MarkReadIdempotent | chat/consumers.py:312-316 | repeating a receipt changes nothing more |
| Store.MarkReadKeepsIds | chat/consumers.py:312-316 | the update keeps the rows, their ids, senders and receivers, and their order |
| Store.RemoveOwned | chat/consumers.py:325-328 | the delete never adds rows |
| Store.RemoveOwnedMembers | chat/consumers.py:325-328 | a row survives exactly when it was present and is not the caller's message with that id |
| Store.RemoveOwnedAscending | chat/consumers.py:325-328 | survivors keep their order |
| Store.RemoveOwnedNone | chat/consumers.py:325-328 | with no matching row, the table is unchanged, whoever else sent that id |
| Store.RemoveOwnedAt | chat/consumers.py:325-328 | since ids are unique, a match removes exactly that one row |
| Store.RemoveOwnedShrinks | chat/consumers.py:325-329 | `deleted_count > 0` exactly when some row matched both the id and the sender |
| Store.WithPresence | chat/consumers.py:331-345 | only the user's own row gets the new flag; a missing row means nothing changes |
| Store.Database.constructor | chat/consumers.py:290-345 | an empty message table over the given users satisfies the table invariant; writes are recorded in the given journal |
| Store.Database.CheckUserExists | chat/consumers.py:290-292 | `exists()` is true exactly when the id has a row |
| Store.Database.SaveMessage | chat/consumers.py:294-303 | with the receiver missing nothing is saved; otherwise one unread message is appended under the next id, and that id is returned, and the save alone is recorded in the journal; sender and receiver differ, so the table never holds a message to oneself |
| Store.Database.MarkMessagesRead | chat/consumers.py:305-316 | the table becomes the filtered update of the old one; the invariant holds; the update is recorded in the journal |
| Store.Database.DeleteMessageDb | chat/consumers.py:318-329 | the table becomes the owner-filtered delete; the result says whether a row matched; the attempt and its outcome are recorded in the journal |
| Store.Database.SetUserOnline | chat/consumers.py:331-337 | presence becomes online for that user only, recorded in the journal |
| Store.Database.SetUserOffline | chat/consumers.py:339-345 | presence becomes offline for that user only, recorded in the journal |
| Layer.WithMember | chat/consumers.py:107 | joining adds the channel to that group and changes no other group |
| Layer.WithoutMember | chat/consumers.py:117 | leaving removes the channel from that group and changes no other group |
| Layer.LeaveUndoesJoin | chat/consumers.py:107-117 | a leave after a join restores every group's membership |
| Layer.ChannelLayer.constructor | chat/consumers.py:107 | no groups and no sends; effects are recorded in the given journal |
| Layer.ChannelLayer.GroupAdd | chat/consumers.py:107 | membership becomes `WithMember`; nothing is sent; the join is recorded in the journal |
| Layer.ChannelLayer.GroupDiscard | chat/consumers.py:117 | membership becomes `WithoutMember`; nothing is sent; the leave is recorded in the journal |
| Layer.ChannelLayer.GroupSend | chat/consumers.py:174-183 | exactly one send, to that group and with that event, is appended to the outbox and to the journal |
| Gatekeeper.SortedPair | chat/consumers.py:93 | `sorted([a, b])` is ordered and holds both ids |
| Gatekeeper.RoomName | chat/consumers.py:93-94 | the room name is never empty and starts with `chat_` |
| Gatekeeper.RoomNameSymmetric | chat/consumers.py:93-94 | both participants compute the same room name |
| Gatekeeper.RoomNameInjective | chat/consumers.py:93-94 | two pairs share a room name exactly when they are the same unordered pair |
| Gatekeeper.TargetId | chat/consumers.py:69-71 | a missing `id` argument is `int('')` and is refused |
| Gatekeeper.Admission | chat/consumers.py:62-104 | an anonymous user is closed with 4001; an admitted peer is another, existing user, and the room is named |
| Gatekeeper.AdmissionCodes | chat/consumers.py:62-87 | each rejection code belongs to exactly one failed check in order: 4001 anonymous, 4002 id not an integer, 4003 own id, 4004 no such user |
| Gatekeeper.NotParticipantUnreachable | chat/consumers.py:96-104 | the 4005 re-check never fires; every rejection is 4001, 4002, 4003 or 4004 |
| Gatekeeper.AdmittedExactly | chat/consumers.py:62-94 | admission happens exactly when all four checks pass; then the peer is the requested, existing, different user and the room is the pair's |
| Gatekeeper.SelfChatRejected | chat/consumers.py:77-81 | a user asking for their own id is closed with 4003 |
| Gatekeeper.AdmittedRoomsMatchPairs | chat/consumers.py:89-94 | two admitted connections share a room exactly when they are the same pair of users, in either direction |
| Consumer.RouteOf | chat/consumers.py:142-150 | the read-receipt and delete handlers run only when `type` is exactly their string |
| Consumer.ChatBody | chat/consumers.py:158-172 | a stored body comes from a string `message` field and is at most 4000 characters |
| Consumer.Truncate | chat/consumers.py:165-170 | the kept text is the first 4000 characters, or the whole text when it is shorter |
| Consumer.RouteDefaultsToChat | chat/consumers.py:142-150 | a missing or unrecognised `type` goes to the chat handler, and only then |
| Consumer.ChatBodySpec | chat/consumers.py:156-172 | a body is stored exactly when `message` is a string with some non-whitespace character; what is stored is `strip(text[:4000])`, at most 4000 characters with no whitespace at either end |
| Consumer.ShortBodyStoredWhole | chat/consumers.py:161-172 | a body of at most 4000 characters is stored stripped and non-empty |
| Consumer.BlankPrefixStoredEmpty | chat/consumers.py:161-172 | the blank check runs before truncation, so a text whose first 4000 characters are whitespace is stored as an empty body |
| Consumer.Cap | chat/consumers.py:198 | `raw_ids[:500]`: a prefix of at most 500 entries, the whole list when it is shorter |
| Consumer.ReadIds | chat/consumers.py:191-206 | the receipt is ignored exactly when `read_ids` is present and not a list; otherwise at most 500 ids |
| Consumer.ReadIdsCapped | chat/consumers.py:191-206 | at most 500 ids, each the coercion of one of the first 500 entries; entries after the 500th never matter |
| Consumer.ReadIdsEmpty | chat/consumers.py:201-209 | a receipt is a no-op exactly when none of the first 500 entries coerces |
| Consumer.DeleteTarget | chat/consumers.py:228-234 | the id acted on is positive and was given in `message_id` |
| Consumer.DeleteTargetSpec | chat/consumers.py:228-234 | the delete acts only on an id that coerces to a positive integer; without `message_id` it does nothing |
| Consumer.ChatConsumer.constructor | chat/consumers.py:47-60 | no user, room or peer yet; nothing sent or done |
| Consumer.ChatConsumer.Close | chat/consumers.py:65 | `close(code)` records the code, in the status and in the journal |
| Consumer.ChatConsumer.Accept | chat/consumers.py:109 | `accept()` sets the status to accepted and records the accept in the journal |
| Consumer.ChatConsumer.Connect | chat/consumers.py:53-109 | a rejection closes with the code `Admission` gives, with no room, no join and no presence change; an admission records the peer and room, joins, marks online and accepts, in that order |
| Consumer.ChatConsumer.Join | chat/consumers.py:106-109 | the journal gains join, then online, then accept, each appended by the call that performs it; messages and sends are untouched |
| Consumer.ChatConsumer.Disconnect | chat/consumers.py:115-120 | after `connect` has run: leaves the group only when a room was set, and marks offline only an authenticated user; nothing else changes |
| Consumer.ChatConsumer.HasRoom | chat/consumers.py:116 | `if self.room_group_name:` — a room name is set and non-empty; its effect is stated by `Disconnect` |
| Consumer.ChatConsumer.SignedIn | chat/consumers.py:119 | `hasattr(self, 'user') and self.user.is_authenticated`; its effect is stated by `Disconnect` |
| Consumer.ChatConsumer.Receive | chat/consumers.py:131-150 | an invalid frame or a non-object changes nothing; an object gets exactly the effect of the handler its `type` selects |
| Consumer.ChatConsumer.HandleChatMessage | chat/consumers.py:156-183 | `ChatHandled`: an ignored body changes nothing; otherwise one unread message from the user to the peer is saved, then broadcast with the same text and the store's id |
| Consumer.ChatConsumer.SaveAndBroadcast | chat/consumers.py:172-183 | the save comes before the broadcast, and the broadcast carries the saved id |
| Consumer.ChatConsumer.HandleReadReceipt | chat/consumers.py:185-220 | `ReadReceiptHandled`: nothing when `read_ids` is not a list or nothing coerces; otherwise the reader-filtered update, then one `messages_read` broadcast of the coerced ids |
| Consumer.ChatConsumer.MarkAndBroadcast | chat/consumers.py:211-220 | the update comes before the broadcast, and the broadcast carries the reader's id |
| Consumer.ChatConsumer.HandleDeleteMessage | chat/consumers.py:222-254 | `DeleteHandled`: nothing for a non-positive or uncoercible id; otherwise the owner-filtered delete, and a `message_deleted` broadcast exactly when a row went |
| Consumer.ChatConsumer.OnChatMessage | chat/consumers.py:260-268 | the client is sent exactly the rendered chat event |
| Consumer.ChatConsumer.OnMessagesRead | chat/consumers.py:270-276 | the client is sent exactly the rendered read event |
| Consumer.ChatConsumer.OnMessageDeleted | chat/consumers.py:278-284 | the client is sent exactly the rendered delete event |
| ChatFilters.MonthAbbr | chat/templatetags/chat_filters.py:41 | `%b` is three letters beginning with a month's initial, and reading them back gives the month, so no two months share one |
| ChatFilters.Pad2 | chat/templatetags/chat_filters.py:37-41 | `%02d` is exactly two digits, and they read back as the number |
| ChatFilters.Hour12 | chat/templatetags/chat_filters.py:37 | the `%I` hour is the one in 1..12 that agrees with the hour modulo 12, so 0 and 12 both show 12 |
| ChatFilters.ClockRest | chat/templatetags/chat_filters.py:37 | `:%M %p` is a colon, two digits reading back as the minute, a space, and AM before noon or PM from noon on |
| ChatFilters.Meridiem | chat/templatetags/chat_filters.py:37 | `%p`: "AM" before noon, "PM" from noon on, as `ClockRest` states |
| ChatFilters.Clock | chat/templatetags/chat_filters.py:37 | `strftime("%I:%M %p")`: the padded 12-hour hour and `ClockRest`; its stripped form is given by `StrippedClock` |
| ChatFilters.LStripZeros | chat/templatetags/chat_filters.py:37-41 | `lstrip("0")` removes only leading zeros, and the result does not start with one |
| ChatFilters.StrippedClock | chat/templatetags/chat_filters.py:37 | the stripped clock shows the 12-hour hour without padding |
| ChatFilters.Ago | chat/templatetags/chat_filters.py:29-33 | the counted label `f"{n} unit{'s'} ago"`; its exact text for the shown counts is stated by `CountedBands`, its read-back by `AgoCount` and `AgoPlural` |
| ChatFilters.YesterdayLabel | chat/templatetags/chat_filters.py:36-38 | "Yesterday at " and the stripped clock; its shape is given by `YesterdayShape` |
| ChatFilters.DateLabel | chat/templatetags/chat_filters.py:40-41 | the stripped `%b %d at %I:%M %p`; its shape is given by `DateShape` |
| ChatFilters.LastSeenDisplay | chat/templatetags/chat_filters.py:19-42 | the filter always shows some text |
| ChatFilters.UnknownExactlyWhenMissing | chat/templatetags/chat_filters.py:19-20 | "Unknown" exactly when there is no last-seen value |
| ChatFilters.JustNowExactlyUnderMinute | chat/templatetags/chat_filters.py:26-27 | "Just now" exactly under 60 seconds, future moments included |
| ChatFilters.AgoCount | chat/templatetags/chat_filters.py:30-33 | the label's first word reads back as the count, for the counts below 100 that the filter shows |
| ChatFilters.AgoPlural | chat/templatetags/chat_filters.py:30-33 | the unit is singular exactly when the count is 1 |
| ChatFilters.CountedBands | chat/templatetags/chat_filters.py:28-33 | in the minutes and hours bands the label is exactly the count in plain decimal, a space, the unit, `s` exactly when the count is not 1, and " ago"; the count is the elapsed whole units (1..59 or 1..23) |
| ChatFilters.YesterdayShape | chat/templatetags/chat_filters.py:34-38 | the yesterday label starts with "Yesterday at " and ends with the unpadded clock |
| ChatFilters.YesterdayClock | chat/templatetags/chat_filters.py:34-38 | from one to two days the label is "Yesterday at " and the clock with its hour unpadded |
| ChatFilters.DateShape | chat/templatetags/chat_filters.py:39-42 | `lstrip("0")` leaves the date label untouched, since it begins with a month's initial |
| ChatFilters.DateLabelPadded | chat/templatetags/chat_filters.py:39-42 | from two days on the label is month, padded day, and padded clock, and never starts with "Yesterday" |
| ChatFilters.ReadMinutes | chat/templatetags/chat_filters.py:28-30 | a minutes label reads back as the minutes band |
| ChatFilters.ReadHours | chat/templatetags/chat_filters.py:31-33 | an hours label reads back as the hours band |
| ChatFilters.ReadYesterday | chat/templatetags/chat_filters.py:34-38 | a yesterday label reads back as the yesterday band |
| ChatFilters.ReadDate | chat/templatetags/chat_filters.py:39-42 | a date label reads back as the oldest band |
| ChatFilters.NotCounted | chat/templatetags/chat_filters.py:28-42 | a label ending in a clock's `M` is never read as a minutes or hours label |
| ChatFilters.BandReadBack | chat/templatetags/chat_filters.py:19-42 | the label alone tells which branch produced it, so the branches are mutually exclusive |
| ChatFilters.BandsMonotone | chat/templatetags/chat_filters.py:26-42 | the thresholds rise: a longer absence never lands in a younger band |

## Left out

- Transport: the WebSocket handshake, `accept` and `close` frames, `self.send`, JSON wire encoding and the channel layer's fan-out. These are modelled as a status field, a `sent` list, a membership map and an outbox.
- Binary frames: `receive(self, text_data)` at chat/consumers.py:131 takes no `bytes_data`, so a binary frame makes Channels call it without `text_data` and the call raises `TypeError`. `Frame` models text frames only.
- Concurrency: `database_sync_to_async` scheduling and interleaving between connections. Each handler is one sequential, atomic step.
- Logging calls.
- `timezone.now()`: the `last_seen` timestamps written by the presence helpers. Presence is the `isOnline` flag only.
- `json.loads` itself. A frame arrives already decoded, or as `Invalid`.
- JSON `NaN` and `Infinity`: floats are finite reals. `int(NaN)` raises `ValueError`, which the handlers catch. `int(inf)` raises `OverflowError`, which the `except (TypeError, ValueError)` clauses at chat/consumers.py:205 and :230 do not catch, so such a receipt or delete ends the handler with an exception. Neither is modelled.
- PyText.ParseInt: underscores between digits and non-ASCII decimal digits are refused, where Python accepts them. Python's 4300-digit limit on `int(str)` is modelled: longer digit strings are refused, as Python refuses them with `ValueError`.
- Database id range: an id that parses but lies outside the database's integer column range is passed on to the lookup as is. The database engine's handling of such an id is not modelled.
- Consumer.ChatConsumer.SaveAndBroadcast: when the peer's row has gone, `User.objects.get` raises out of the handler. The model ends the handler with no save and no broadcast. It does not model the connection being torn down by the uncaught exception.
- Consumer.ChatConsumer.HandleChatMessage: inherits that gap from `SaveAndBroadcast`. `ChatHandled` says nothing is saved or broadcast when the peer's row has gone, but not that the handler raised.
- Consumer.ChatConsumer.Receive: inherits the same gap for chat frames, through `ChatHandled`.
- Consumer.ChatConsumer.Receive: requires an admitted connection, as do the three handlers. Channels delivers frames only after `accept`, and every rejected connection is closed before it accepts. Frames on a connection that was never accepted are not modelled.
- Consumer.ChatConsumer.Disconnect: presence is a single flag per user, so one device disconnecting marks the user offline even while another connection is open. An authenticated user whose connection was rejected is also marked offline. Both behaviours are kept as the source has them.
- ChatFilters.LastSeenDisplay: `elapsed` is the whole seconds, already truncated toward zero from `total_seconds()`. The local time is a parameter, not a timezone conversion. `%p` uses the C locale's "AM"/"PM".
- Context files with no logic of their own: `accounts/*`, `chat/views.py` (including the deprecated `start_chat`), `chat/urls.py`, `core/urls.py` and `core/asgi.py` (`AllowedHostsOriginValidator` and the authentication middleware). These are not part of this model; the authenticated user arrives as `Scope.user`.
