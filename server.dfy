/**
  The WebSocket presence relay: the connection handler that admits a
  socket into room `doc:<docId>`, the `close` and `error` handlers that
  take it out again, and the `pmessage` handler that fans bus messages out
  to the members of a room. Each handler runs as one atomic step; the bus
  is the append-only log `published`, and delivery from the bus is a call
  of `Dispatch`.
 */
module Server {
  import opened Codec
  import opened Fanout
  import opened Rooms
  import opened Connections

  /** The bus channel and registry key of a document. */
  function RoomId(docId: string): (r: string)
    ensures |r| == |docId| + 4 && r[..4] == "doc:" && r[4..] == docId
  {
    "doc:" + docId
  }

  /** Different documents never share a room. */
  lemma RoomIdInjective(a: string, b: string)
    ensures RoomId(a) == RoomId(b) <==> a == b
  {
  }

  /** Both query parameters are present and non-empty (JavaScript truthiness of a string or null). */
  predicate HandshakeComplete(docId: Option<string>, userId: Option<string>)
  {
    docId.Some? && docId.value != "" && userId.Some? && userId.value != ""
  }

  /** The handshake is complete and the user owns or is a member of at least one document. */
  predicate Admitted(docId: Option<string>, userId: Option<string>, accessibleDocuments: nat)
  {
    HandshakeComplete(docId, userId) && accessibleDocuments != 0
  }


  /** A message handed to the bus publisher on a channel. */
  datatype Publication = Publication(channel: string, message: Message)

  class Relay {
    /** `roomMap`: room id to the `Set` stored under it. */
    var roomMap: map<string, RoomSet>
    /** The contents of every room `Set` created so far. */
    var sets: map<RoomSet, set<Conn>>
    /** Everything handed to the bus publisher, in order. */
    var published: seq<Publication>

    /** The registry as a value: room id to the members of the `Set` stored under it. */
    ghost var Registry: map<string, set<Conn>>
    /** Every connection ever admitted. */
    ghost var Conns: set<Conn>
    /** The admitted connections that neither `close` nor `error` has removed yet. */
    ghost var live: set<Conn>

    /** The members of the `Set` stored under `channel`, or none. */
    function Members(channel: string): (r: set<Conn>)
      reads this
      ensures channel !in roomMap ==> r == {}
    {
      if channel in roomMap && roomMap[channel] in sets then sets[roomMap[channel]] else {}
    }

    ghost predicate Valid()
      reads this
    {
      Consistent(roomMap, sets, Registry, Conns, live)
    }

    /** What `Dispatch` reaches on a channel is the registry's room under that id. */
    lemma MembersMirror(channel: string)
      requires Valid()
      ensures Members(channel) == MembersOf(Registry, channel)
    {
    }

    /** No room id is stored with an empty `Set`: an emptied room is always deleted. */
    lemma NoEmptyStoredRoom(channel: string)
      requires Valid() && channel in roomMap
      ensures Members(channel) != {}
    {
      MembersMirror(channel);
    }

    /** Every connection not yet removed is reachable through `roomMap` under its own room id. */
    ghost predicate Registered()
      reads this
    {
      Reachable(roomMap, live)
    }

    constructor ()
      ensures Valid() && Registered()
      ensures roomMap == map[] && sets == map[] && published == [] && Registry == map[]
      ensures Conns == {} && live == {}
    {
      roomMap := map[];
      sets := map[];
      published := [];
      Registry := map[];
      Conns, live := {}, {};
    }

    /**
      The `connection` handler. A missing or empty `docId` or `userId`, or
      an access lookup that found no document, closes the socket (null)
      and changes nothing. Otherwise the connection is admitted by `Join`.
     */
    method OnConnection(docId: Option<string>, userId: Option<string>, accessibleDocuments: nat)
      returns (c: Conn?)
      requires Valid()
      modifies this
      ensures Valid()
      ensures c == null <==> !Admitted(docId, userId, accessibleDocuments)
      ensures c == null ==>
                roomMap == old(roomMap) && sets == old(sets) && published == old(published) &&
                Registry == old(Registry) && Conns == old(Conns) && live == old(live)
      ensures c != null ==> fresh(c) && c.outbox == []
      ensures c != null ==> userId.Some? && c.userId == userId.value
      ensures c != null ==> docId.Some? && c.roomId == RoomId(docId.value)
      ensures c != null && c.roomId in old(roomMap) ==> c.room == old(roomMap)[c.roomId]
      ensures c != null && c.roomId !in old(roomMap) ==> fresh(c.room)
      ensures c != null ==> roomMap == old(roomMap)[c.roomId := c.room]
      ensures c != null ==> sets == old(sets)[c.room := Contents(old(sets), c.room) + {c}]
      ensures c != null ==> Registry == Enter(old(Registry), c.roomId, c)
      ensures c != null ==>
                published == old(published) + [Publication(c.roomId, Encode(Joined(c.userId)))]
      ensures c != null ==> Conns == old(Conns) + {c} && live == old(live) + {c}
      ensures old(Registered()) ==> Registered()
    {
      if docId.None? || docId.value == "" || userId.None? || userId.value == "" {
        return null;
      }
      if accessibleDocuments == 0 {
        return null;
      }
      c := Join(docId.value, userId.value);
    }

    /**
      Registration of an admitted socket: the room `Set` stored under
      `doc:<docId>` (a new one if absent) gains the connection, tagged
      with `userId`, and one `presence.joined` is published on that channel.
     */
    method Join(docId: string, userId: string) returns (c: Conn)
      requires Valid() && docId != "" && userId != ""
      modifies this
      ensures Valid()
      ensures fresh(c) && c.outbox == []
      ensures c.userId == userId && c.roomId == RoomId(docId)
      ensures c.roomId in old(roomMap) ==> c.room == old(roomMap)[c.roomId]
      ensures c.roomId !in old(roomMap) ==> fresh(c.room)
      ensures roomMap == old(roomMap)[c.roomId := c.room]
      ensures sets == old(sets)[c.room := Contents(old(sets), c.room) + {c}]
      ensures Registry == Enter(old(Registry), c.roomId, c)
      ensures published == old(published) + [Publication(c.roomId, Encode(Joined(userId)))]
      ensures Conns == old(Conns) + {c} && live == old(live) + {c}
      ensures old(Registered()) ==> Registered()
    {
      var roomId := RoomId(docId);
      var room: RoomSet;
      if roomId in roomMap {
        room := roomMap[roomId];
      } else {
        room := new RoomSet(roomId);
      }
      c := new Conn(userId, roomId, room);
      Admit(c);
      published := published + [Publication(roomId, Encode(Joined(userId)))];
    }

    /** Add the new connection `c` to the `Set` it captured and store that `Set` under its room id. */
    method Admit(c: Conn)
      requires Valid() && c !in Conns && c.userId != "" && c.room.roomId == c.roomId
      requires c.roomId in roomMap ==> roomMap[c.roomId] == c.room
      requires c.roomId !in roomMap ==> c.room !in sets
      modifies this
      ensures Valid()
      ensures roomMap == old(roomMap)[c.roomId := c.room]
      ensures sets == old(sets)[c.room := Contents(old(sets), c.room) + {c}]
      ensures Registry == Enter(old(Registry), c.roomId, c)
      ensures published == old(published)
      ensures Conns == old(Conns) + {c} && live == old(live) + {c}
      ensures old(Registered()) ==> Registered()
    {
      JoinKeeps(roomMap, sets, Registry, Conns, live, c);
      roomMap, sets := roomMap[c.roomId := c.room], sets[c.room := Contents(sets, c.room) + {c}];
      Registry, Conns, live := Enter(Registry, c.roomId, c), Conns + {c}, live + {c};
    }

    /**
      The `close` handler, as written: remove the connection from the room
      `Set` captured at join, store that `Set` under the room id again
      (whatever is stored there now), delete the entry if the `Set` is
      empty, and publish one `presence.left`.
     */
    method OnClose(c: Conn)
      requires Valid() && c in Conns
      modifies this
      ensures Valid()
      ensures sets == old(sets)[c.room := old(sets[c.room]) - {c}]
      ensures roomMap == if sets[c.room] == {} then old(roomMap)[c.roomId := c.room] - {c.roomId}
                         else old(roomMap)[c.roomId := c.room]
      ensures Registry == Settle(old(Registry), c.roomId, old(sets[c.room]) - {c})
      ensures c !in MembersOf(Registry, c.roomId)
      ensures published == old(published) + [Publication(c.roomId, Encode(Left(c.userId)))]
      ensures live == old(live) - {c} && Conns == old(Conns)
      ensures old(Registered()) && c in old(live) ==> Registered()
    {
      Leave(c);
      published := published + [Publication(c.roomId, Encode(Left(c.userId)))];
    }

    /** The `error` handler, as written: the same removal as `close`, and nothing is published. */
    method OnError(c: Conn)
      requires Valid() && c in Conns
      modifies this
      ensures Valid()
      ensures sets == old(sets)[c.room := old(sets[c.room]) - {c}]
      ensures roomMap == if sets[c.room] == {} then old(roomMap)[c.roomId := c.room] - {c.roomId}
                         else old(roomMap)[c.roomId := c.room]
      ensures Registry == Settle(old(Registry), c.roomId, old(sets[c.room]) - {c})
      ensures c !in MembersOf(Registry, c.roomId)
      ensures published == old(published)
      ensures live == old(live) - {c} && Conns == old(Conns)
      ensures old(Registered()) && c in old(live) ==> Registered()
    {
      Leave(c);
    }

    /** The removal both handlers perform: `room.delete(ws)`, `roomMap.set(roomId, room)`, delete if empty. */
    method Leave(c: Conn)
      requires Valid() && c in Conns
      modifies this
      ensures Valid()
      ensures sets == old(sets)[c.room := old(sets[c.room]) - {c}]
      ensures roomMap == if sets[c.room] == {} then old(roomMap)[c.roomId := c.room] - {c.roomId}
                         else old(roomMap)[c.roomId := c.room]
      ensures Registry == Settle(old(Registry), c.roomId, old(sets[c.room]) - {c})
      ensures c !in MembersOf(Registry, c.roomId)
      ensures published == old(published)
      ensures live == old(live) - {c} && Conns == old(Conns)
      ensures old(Registered()) && c in old(live) ==> Registered()
    {
      var room := c.room;
      LeaveKeeps(roomMap, sets, Registry, Conns, live, c);
      if Registered() && c in live {
        LeaveReachable(roomMap, sets, Registry, Conns, live, c);
      }
      sets := sets[room := sets[room] - {c}];
      roomMap := roomMap[c.roomId := room];
      if sets[room] == {} {
        roomMap := roomMap - {c.roomId};
      }
      Registry := Settle(Registry, c.roomId, sets[room]);
      live := live - {c};
    }

    /**
      The `close` handler with the re-store removed: the entry is deleted
      only when it still holds this connection's room `Set` and that `Set`
      has become empty. Keeps every live connection registered.
     */
    method OnCloseGuarded(c: Conn)
      requires Valid() && Registered() && c in Conns
      modifies this
      ensures Valid() && Registered()
      ensures sets == old(sets)[c.room := old(sets[c.room]) - {c}]
      ensures roomMap ==
                if c.roomId in old(roomMap) && old(roomMap)[c.roomId] == c.room && sets[c.room] == {}
                then old(roomMap) - {c.roomId} else old(roomMap)
      ensures Registry ==
                if c in old(live) then Settle(old(Registry), c.roomId, old(sets[c.room]) - {c})
                else old(Registry)
      ensures c !in MembersOf(Registry, c.roomId)
      ensures published == old(published) + [Publication(c.roomId, Encode(Left(c.userId)))]
      ensures live == old(live) - {c} && Conns == old(Conns)
    {
      LeaveGuarded(c);
      published := published + [Publication(c.roomId, Encode(Left(c.userId)))];
    }

    /** The `error` handler with the re-store removed; publishes nothing. */
    method OnErrorGuarded(c: Conn)
      requires Valid() && Registered() && c in Conns
      modifies this
      ensures Valid() && Registered()
      ensures sets == old(sets)[c.room := old(sets[c.room]) - {c}]
      ensures roomMap ==
                if c.roomId in old(roomMap) && old(roomMap)[c.roomId] == c.room && sets[c.room] == {}
                then old(roomMap) - {c.roomId} else old(roomMap)
      ensures Registry ==
                if c in old(live) then Settle(old(Registry), c.roomId, old(sets[c.room]) - {c})
                else old(Registry)
      ensures c !in MembersOf(Registry, c.roomId)
      ensures published == old(published)
      ensures live == old(live) - {c} && Conns == old(Conns)
    {
      LeaveGuarded(c);
    }

    /** The removal of the guarded handlers. */
    method LeaveGuarded(c: Conn)
      requires Valid() && Registered() && c in Conns
      modifies this
      ensures Valid() && Registered()
      ensures sets == old(sets)[c.room := old(sets[c.room]) - {c}]
      ensures roomMap ==
                if c.roomId in old(roomMap) && old(roomMap)[c.roomId] == c.room && sets[c.room] == {}
                then old(roomMap) - {c.roomId} else old(roomMap)
      ensures Registry ==
                if c in old(live) then Settle(old(Registry), c.roomId, old(sets[c.room]) - {c})
                else old(Registry)
      ensures c !in MembersOf(Registry, c.roomId)
      ensures published == old(published)
      ensures live == old(live) - {c} && Conns == old(Conns)
    {
      var room := c.room;
      LeaveGuardedKeeps(roomMap, sets, Registry, Conns, live, c);
      sets := sets[room := sets[room] - {c}];
      if c.roomId in roomMap && roomMap[c.roomId] == room {
        if sets[room] == {} {
          roomMap := roomMap - {c.roomId};
        }
        Registry := Settle(Registry, c.roomId, sets[room]);
      }
      live := live - {c};
    }

    /**
      The `pmessage` handler for a bus message `m` on `channel`: every
      member of the room stored under `channel` is sent what the
      recipient rule gives for its `userId`; nothing else changes.
     */
    method Dispatch(channel: string, m: Message)
      modifies Members(channel)
      ensures forall c | c in Members(channel) :: c.outbox == old(c.outbox) + Sent(c.userId, m)
    {
      var room := Members(channel);
      if m.kind == JoinedType {
        Broadcast(room, Message(JoinedType, m.userId, None), m.userId, true);
      } else if m.kind == LeftType {
        Broadcast(room, Message(LeftType, m.userId, None), m.userId, false);
      } else if m.kind == AnnotationType {
        Broadcast(room, Message(AnnotationType, m.userId, m.annotation), m.userId, true);
      }
    }

    /**
      The bus delivers the messages `ms`, in order, on `channel`: every
      member of the room stored there receives its `Inbox` of the run.
     */
    method DispatchAll(channel: string, ms: seq<Message>)
      modifies Members(channel)
      ensures forall c | c in Members(channel) :: c.outbox == old(c.outbox) + Inbox(c.userId, ms)
    {
      for i := 0 to |ms|
        invariant forall c | c in Members(channel) :: c.outbox == old(c.outbox) + Inbox(c.userId, ms[..i])
      {
        assert ms[..i + 1][..i] == ms[..i];
        Dispatch(channel, ms[i]);
      }
      assert ms[..|ms|] == ms;
    }

    /** One `for (ws of room)` loop: send `msg` to each member, skipping those tagged `origin` when `skipOrigin`. */
    static method Broadcast(room: set<Conn>, msg: Message, origin: Option<string>, skipOrigin: bool)
      modifies room
      ensures forall c | c in room ::
                c.outbox == old(c.outbox) + (if skipOrigin && origin == Some(c.userId) then [] else [msg])
    {
      var todo := room;
      while todo != {}
        invariant todo <= room
        invariant forall c | c in room && c !in todo ::
                    c.outbox == old(c.outbox) + (if skipOrigin && origin == Some(c.userId) then [] else [msg])
        invariant forall c | c in todo :: c.outbox == old(c.outbox)
        decreases todo
      {
        var ws :| ws in todo;
        if !skipOrigin || origin != Some(ws.userId) {
          ws.outbox := ws.outbox + [msg];
        }
        todo := todo - {ws};
      }
    }
  }
}
