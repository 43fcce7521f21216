# Presence relay of a collaborative document editor

A Dafny model of the WebSocket presence relay in `src/websocket/server.ts`.
Editor clients connect with `?docId=…&userId=…`; the server keeps a
module-level `roomMap` from room id `doc:<docId>` to a JavaScript `Set` of
sockets, each socket tagged with its `userId`. The relay publishes
`presence.joined` on the bus channel of the room when a socket is admitted and
`presence.left` when it closes. A `pmessage` handler receives every message on
a `doc:*` channel and forwards it to the local members of that room. Joined and
annotation events skip every member tagged with the originating `userId`. Left
events go to every member.

The project has six modules:

- `Codec` (`codec.dfy`): the three event shapes and the flat wire object that
  carries them. `Decode` is a strict reference decoder used to say what the
  relay preserves.
- `Fanout` (`fanout.dfy`): the recipient rule of the `pmessage` handler as
  pure functions (`Outbound`, `Sent`), and the inbox of one member over a run
  of dispatches (`Inbox`).
- `Rooms` (`rooms.dfy`): the registry as a value `map<string, set<T>>`. It
  defines the join update `Enter` and the close/error update `Settle`.
- `Connections` (`connections.dfy`): the room `Set` (`RoomSet`, compared by
  identity), the admitted socket (`Conn`, with its outbox) and the relay's
  invariant over its state. The lemmas there prove that every handler keeps
  the invariant.
- `Server` (`server.dfy`): the `Relay` class. It holds `roomMap`, the
  contents of every room `Set` (`sets`), the publish log (`published`) and a
  ghost `Registry`, the registry as a value. Its methods are the
  connection, `close`, `error` and `pmessage` handlers.
- `Scenarios` (`scenarios.dfy`): short runs from an empty relay. These are
  the presence exchanges and the close-after-error interleaving described
  under Findings.

Each handler runs as one atomic step. Publishing appends to `published`;
delivery from the bus is a call of `Dispatch` with a channel and a message,
in any order and as often as the caller chooses. The message may come from
`published` or from any other publisher on that channel. `ws.send` appends to the socket's `outbox`; `ws.close()` on a
rejected handshake is a `null` result of `OnConnection`.

Where symmetric handling or validation would be expected, the code differs,
and the model follows the code:

- The `error` handler publishes nothing. It does not emit `presence.left`.
- The server has no handler for messages sent by a client, so a client
  cannot originate an annotation. Annotations reach a room only as bus
  messages.
- The access check counts every document the user owns or is a member of.
  It does not look at the requested `docId`.
- The dispatcher does not validate what it relays. Any bus object whose
  `type` is one of the three is forwarded, even without a `userId`.

## Model

| member | source | states |
|---|---|---|
| Codec.Encode | src/websocket/server.ts:30-51 | the wire object of an event carries the event's `userId`, one of the three `type`s, and an `annotation` exactly for an annotation, holding its payload |
| Codec.DecodeEncode | src/websocket/server.ts:30-51 | every event survives encoding then decoding unchanged |
| Codec.EncodeDecode | src/websocket/server.ts:90-105 | whatever decodes re-encodes to the same wire object |
| Codec.EncodeInjective | src/websocket/server.ts:25-55 | distinct events have distinct wire objects |
| Fanout.Outbound | src/websocket/server.ts:25-55 | a message is forwarded exactly when its `type` is one of the three; `type` and `userId` are copied, and `annotation` is copied for an annotation and dropped otherwise |
| Fanout.Receives | src/websocket/server.ts:25-55 | only a presence `type` is ever received, and a left message is received by every member; joined and annotation messages skip members tagged with the event's `userId` |
| Fanout.Sent | src/websocket/server.ts:28-54 | one dispatch sends a member at most one message, exactly when the recipient rule selects it, and that message is the forwarded form |
| Fanout.SelfExclusion | src/websocket/server.ts:28-54 | for joined and annotation messages a member gets nothing if and only if its `userId` equals the event's |
| Fanout.LeftReachesAll | src/websocket/server.ts:36-42 | a left message reaches every member, including one tagged with the leaving user |
| Fanout.UnknownTypeSendsNothing | src/websocket/server.ts:25-55 | any other `type` reaches nobody and is not forwarded |
| Fanout.RelayPreservesEvent | src/websocket/server.ts:25-55 | a bus message that decodes to an event is forwarded as exactly that event's encoding, payload included |
| Fanout.Inbox | src/websocket/server.ts:19-57 | over a run of dispatches a member receives no more messages than were dispatched, each of a presence type and none about its own user except left messages; a run of left messages is received in full |
| Fanout.InboxAppend | src/websocket/server.ts:19-57 | delivery keeps dispatch order: the inbox of two runs is the inbox of the first followed by that of the second |
| Fanout.NoEchoOfOwnEvents | src/websocket/server.ts:29-34 | joined and annotation events looped back about a member's own user are never delivered to it |
| Fanout.InboxSingle | src/websocket/server.ts:25-55 | the inbox of a single dispatch is exactly what the recipient rule sends for it |
| Fanout.LeftDelivered | src/websocket/server.ts:36-42 | every left message of a run is delivered, in order, as a left message with the same `userId` |
| Fanout.NoEchoInMixedRun | src/websocket/server.ts:28-54 | the member's own joined and annotation events, wherever they fall in a run, leave what it receives unchanged |
| Rooms.Enter | src/websocket/server.ts:84-88 | joining stores the room under its id with the new member added and nothing else removed; every other room is unchanged and no room becomes empty |
| Rooms.Settle | src/websocket/server.ts:97-100 | after the re-store and the emptiness test, the room id is present exactly when the set is non-empty and then holds that set; other rooms are unchanged; no empty room is created |
| Rooms.SettleWithout | src/websocket/server.ts:96-100 | a removed member is no longer stored under its room id |
| Connections.RoomSet.constructor | src/websocket/server.ts:85 | a new room `Set` is created for its room id, holding no socket yet (its contents live in `Relay.sets`) |
| Connections.Conn.constructor | src/websocket/server.ts:84-86 | an admitted socket keeps the `userId`, the room id and the room `Set` it was given, with an empty outbox |
| Connections.JoinKeeps | src/websocket/server.ts:84-88 | a join keeps the relay invariant and keeps every live socket reachable |
| Connections.JoinMirrors | src/websocket/server.ts:85-88 | storing the captured `Set`, grown by the socket, under its room id is `Enter` on the registry value |
| Connections.JoinTracked | src/websocket/server.ts:86-87 | adding a new socket to the `Set` it captured keeps each `Set` equal to its live sockets |
| Connections.LeaveKeeps | src/websocket/server.ts:95-100 | the removal as written keeps the invariant and turns the registry into `Settle` of the captured `Set` minus the socket |
| Connections.LeaveReachable | src/websocket/server.ts:96-100 | removing a live, reachable socket as written keeps every other live socket reachable: its `Set` is the stored one and is emptied only when no other socket shares it |
| Connections.LeaveGuardedKeeps | src/websocket/server.ts:95-100 | the guarded removal keeps the invariant and every live socket reachable, and settles the registry only for a live socket |
| Server.RoomId | src/websocket/server.ts:84 | the room id is `doc:` followed by the document id |
| Server.RoomIdInjective | src/websocket/server.ts:84 | two documents share a room id only if they are the same document |
| Server.HandshakeComplete | src/websocket/server.ts:64 | both query parameters are present and non-empty strings, as JavaScript truthiness requires |
| Server.Admitted | src/websocket/server.ts:64-82 | the handshake is complete and the access lookup found at least one document |
| Server.Relay.Members | src/websocket/server.ts:23-28 | the sockets a dispatch on a channel iterates: those of the `Set` stored under it, and none when no room is stored |
| Server.Relay.constructor | src/websocket/server.ts:13 | the relay starts with no rooms, no sockets and nothing published |
| Server.Relay.MembersMirror | src/websocket/server.ts:23 | the members a dispatch on a channel reaches are the registry's room under that id |
| Server.Relay.NoEmptyStoredRoom | src/websocket/server.ts:98-100 | no room id is stored with an empty `Set` |
| Server.Relay.OnConnection | src/websocket/server.ts:59-93 | the socket is closed (null) exactly when `docId` or `userId` is missing or empty or no document is accessible, and then nothing changes; otherwise the socket is admitted as `Join` says, tagged with the given `userId` and placed under the room id of the given `docId` |
| Server.Relay.Join | src/websocket/server.ts:84-93 | the stored `Set` is reused, or a new one is created when absent; it gains the socket; the registry becomes `Enter` of the old one; exactly one `presence.joined` is published on `doc:<docId>`; reachability is kept |
| Server.Relay.Admit | src/websocket/server.ts:85-88 | the socket is added to the `Set` it captured, which is stored under its room id; the invariant is kept |
| Server.Relay.OnClose | src/websocket/server.ts:95-106 | the socket leaves its captured `Set`, which is stored again under the room id and deleted if empty; the registry becomes `Settle`; exactly one `presence.left` with its `userId` is published; closing a live socket keeps every other live socket reachable |
| Server.Relay.OnError | src/websocket/server.ts:108-115 | the same removal as `close`, and nothing is published; erroring a live socket keeps every other live socket reachable |
| Server.Relay.Leave | src/websocket/server.ts:96-100 | the removal of both handlers as written, keeping the invariant, and keeping every other live socket reachable when the removed socket was live |
| Server.Relay.OnCloseGuarded | src/websocket/server.ts:95-106 | the corrected `close`: deletes the entry only if it still holds the socket's own `Set` and that `Set` is empty, and keeps every live socket reachable |
| Server.Relay.OnErrorGuarded | src/websocket/server.ts:108-115 | the corrected `error`: the same guarded removal, publishing nothing |
| Server.Relay.LeaveGuarded | src/websocket/server.ts:96-100 | the guarded removal keeps the invariant and reachability |
| Server.Relay.Dispatch | src/websocket/server.ts:19-57 | every member of the room stored under the channel gets exactly what the recipient rule gives for its `userId`; only those members' outboxes may change, and an absent room changes nothing |
| Server.Relay.DispatchAll | src/websocket/server.ts:19-57 | delivering a run of messages on a channel appends to each member's outbox exactly its `Inbox` of that run |
| Server.Relay.Broadcast | src/websocket/server.ts:28-35 | one loop over a room sends the message to each member once, skipping those tagged with the origin when asked |
| Scenarios.TwoPeersJoin | src/websocket/server.ts:25-35 | A and B join document 1 and both joined events are delivered after both admissions: A is told about B, B about A, and neither about itself |
| Scenarios.JoinedBeforePeer | src/websocket/server.ts:25-35 | when A's joined event is delivered while A is still alone and B's after B joins, A is told about B and B is told nothing |
| Scenarios.AnnotationReachesPeers | src/websocket/server.ts:43-54 | an annotation by A reaches B with A's `userId` and the payload unchanged, and does not reach A |
| Scenarios.PeerLeaves | src/websocket/server.ts:95-106 | A's close publishes one left event for A, which reaches B; after B closes, `doc:1` is no longer stored |
| Scenarios.NoAccessRejected | src/websocket/server.ts:78-82 | a user with no accessible document gets no socket and nothing is published |
| Scenarios.CloseAfterErrorDropsRoom | src/websocket/server.ts:95-115 | as written, error then rejoin by B then close of A leaves `doc:1` unstored while B is still live, so the relay no longer reaches every live socket, and a later annotation does not reach B |
| Scenarios.CloseAfterErrorGuarded | src/websocket/server.ts:95-115 | with the guarded handlers the same run keeps `doc:1` stored and every live socket reachable, and B receives the annotation |

## Left out

- Redis client setup, `psubscribe` and the `publish` transport (lines 14-18, 90, 102) are network I/O. Publishing is an append to `published`. Bus delivery is a call of `Dispatch`, in any order and as often as the caller chooses.
- The Prisma access query (lines 69-76) is a database call. Its result enters as `accessibleDocuments`, the number of documents found.
- URL parsing and `JSON.parse`/`JSON.stringify` (lines 20, 30, 60-62) are library calls. Messages are the `Message` datatype. A missing key is `None`. A `userId` that is a JSON value other than a string is not represented, so the difference between `!==` (line 29) and `!=` (line 46) does not arise.
- The connection handler's failure path is not modelled. The handler is an `async` listener (line 59) whose promise nothing awaits. If the access query at line 69 rejects (an unreachable database, say) or `new URL` at line 60 throws on a malformed `Host`, the handler rejects uncaught: the socket is neither closed nor registered, and the rejection is unhandled. `OnConnection` always either returns `null` or admits the socket.
- The `pmessage` handler's failure path is not modelled. `JSON.parse` at line 20 throws on a bus payload that is not JSON, and reading `data.userId` at line 21 throws when the payload is `null`. Nothing in lines 19-57 catches either, so such a message escapes the handler rather than being dropped. `Dispatch` receives an already parsed `Message`.
- Fanout.RelayPreservesEvent: payloads are preserved only for the JSON the `Json` datatype holds, whose numbers are integers (`JNumber(n: int)`). A fractional number is not represented. A non-finite number, such as `1e400` parsed to infinity, is turned into `null` by `JSON.stringify`; in that case the payload is not passed on unchanged. Integers are preserved only up to 2^53 in magnitude: `JSON.parse` reads every number as a double, so a larger integer is rounded to the nearest double before it is forwarded (`9007199254740993` arrives as `9007199254740992`), while `JNumber` is unbounded.
- Sockets are reduced to their `userId` tag and an outbox. Send failures, the socket's own `close()`, and logging (lines 79, 109) are not modelled.
- Handlers run atomically one after another. Asynchronous interleaving inside the connection handler (the `await` at line 69) is not modelled, and neither is concurrency across server processes.
- The contents of each JavaScript `Set` are kept in `Relay.sets`, keyed by the `Set`'s identity (`RoomSet`), not in the `Set` object itself. The registry as a value (`Registry`) is a ghost mirror of `roomMap` and `sets`.
- The `close` and `error` handlers are only called for sockets this relay admitted (`c in Conns`), since the source registers them at admission (lines 95 and 108).

## Findings

| source | as written | input that shows it | evidently intended | confidence | as-written member | corrected member |
|---|---|---|---|---|---|---|
| src/websocket/server.ts:97 | `close` (and `error`, line 111) store the `Set` captured at join under the room id again before testing emptiness, whatever `Set` is stored there now | A joins `doc:1`; A's `error` handler runs and deletes the room; B joins and gets a new `Set`; A's `close` handler runs, re-stores A's empty `Set` over B's and deletes the entry. B stays connected but is no longer in `roomMap`, so no later event for `doc:1` reaches B | removing a socket never detaches the room of another live socket: the entry is deleted only when it still holds this socket's own `Set` and that `Set` is empty | not executed | Scenarios.CloseAfterErrorDropsRoom | Server.Relay.OnCloseGuarded |
