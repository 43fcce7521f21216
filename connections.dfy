/**
  The objects the relay's handlers share: a room `Set` (by identity), an
  admitted socket, and the invariant the relay keeps over the registry
  that links them, stated on values so that each handler's effect on it
  is proved once, here.
 */
module Connections {
  import opened Codec
  import opened Rooms

  /**
    The identity of one JavaScript `Set` of sockets. The `Set` stored in
    `roomMap` and the one captured by its members' handlers are the same
    object; its contents are kept by the relay in `Relay.sets`.
   */
  class RoomSet {
    /** The room id the `Set` was created for. */
    ghost const roomId: string

    constructor (ghost roomId: string)
      ensures this.roomId == roomId
    {
      this.roomId := roomId;
    }
  }

  /**
    An admitted socket: the `userId` it is tagged with, the room id and the
    room `Set` its `close` and `error` handlers captured, and the messages
    sent to it so far.
   */
  class Conn {
    const userId: string
    const roomId: string
    const room: RoomSet
    var outbox: seq<Message>

    constructor (userId: string, roomId: string, room: RoomSet)
      ensures this.userId == userId && this.roomId == roomId && this.room == room
      ensures outbox == []
    {
      this.userId := userId;
      this.roomId := roomId;
      this.room := room;
      outbox := [];
    }
  }

  /** The contents of the `Set` `r`: empty for a `Set` just created. */
  function Contents(sets: map<RoomSet, set<Conn>>, r: RoomSet): set<Conn>
  {
    if r in sets then sets[r] else {}
  }

  /**
    The relay's invariant over its state: `Registry` mirrors `roomMap` and
    the `Set` contents, no stored room is empty, every `Set` is keyed by
    the room id it was created for, and a connection is in a `Set` exactly
    when it is live and that `Set` is the one it captured.
   */
  ghost predicate Consistent(roomMap: map<string, RoomSet>, sets: map<RoomSet, set<Conn>>,
                             reg: map<string, set<Conn>>, conns: set<Conn>, live: set<Conn>)
  {
    Mirrors(roomMap, sets, reg) && Tracked(sets, conns, live)
  }

  /** `reg` is `roomMap` with each stored `Set` replaced by its contents, and has no empty room. */
  ghost predicate Mirrors(roomMap: map<string, RoomSet>, sets: map<RoomSet, set<Conn>>,
                          reg: map<string, set<Conn>>)
  {
    && reg.Keys == roomMap.Keys
    && (forall k | k in roomMap :: roomMap[k] in sets && roomMap[k].roomId == k)
    && (forall k | k in roomMap :: sets[roomMap[k]] == reg[k])
    && NoEmptyRoom(reg)
  }

  /** The members of every `Set` are exactly the live connections that captured it. */
  ghost predicate Tracked(sets: map<RoomSet, set<Conn>>, conns: set<Conn>, live: set<Conn>)
  {
    && (forall r, c | r in sets && c in sets[r] :: c in live && c.room == r)
    && live <= conns
    && (forall c | c in conns :: c.room in sets && c.room.roomId == c.roomId && c.userId != "")
    && (forall c | c in live :: c in sets[c.room])
  }

  /** Every live connection's `Set` is the one stored under its room id. */
  ghost predicate Reachable(roomMap: map<string, RoomSet>, live: set<Conn>)
  {
    forall c | c in live :: c.roomId in roomMap && roomMap[c.roomId] == c.room
  }

  /** A join keeps the invariant, and keeps every live connection reachable. */
  lemma JoinKeeps(roomMap: map<string, RoomSet>, sets: map<RoomSet, set<Conn>>,
                  reg: map<string, set<Conn>>, conns: set<Conn>, live: set<Conn>, c: Conn)
    requires Consistent(roomMap, sets, reg, conns, live)
    requires c !in conns && c.userId != "" && c.room.roomId == c.roomId
    requires c.roomId in roomMap ==> roomMap[c.roomId] == c.room
    requires c.roomId !in roomMap ==> c.room !in sets
    ensures Consistent(roomMap[c.roomId := c.room], sets[c.room := Contents(sets, c.room) + {c}],
                       Enter(reg, c.roomId, c), conns + {c}, live + {c})
    ensures Reachable(roomMap, live) ==> Reachable(roomMap[c.roomId := c.room], live + {c})
  {
    JoinMirrors(roomMap, sets, reg, c);
    JoinTracked(sets, conns, live, c);
  }

  /** Storing the captured `Set`, grown by `c`, under `c`'s room id is `Enter` on the registry. */
  lemma JoinMirrors(roomMap: map<string, RoomSet>, sets: map<RoomSet, set<Conn>>,
                    reg: map<string, set<Conn>>, c: Conn)
    requires Mirrors(roomMap, sets, reg) && c.room.roomId == c.roomId
    requires c.roomId in roomMap ==> roomMap[c.roomId] == c.room
    requires c.roomId !in roomMap ==> c.room !in sets
    ensures Mirrors(roomMap[c.roomId := c.room], sets[c.room := Contents(sets, c.room) + {c}],
                    Enter(reg, c.roomId, c))
  {
    var roomMap', reg' := roomMap[c.roomId := c.room], Enter(reg, c.roomId, c);
    var sets' := sets[c.room := Contents(sets, c.room) + {c}];
    forall k | k in roomMap'
      ensures sets'[roomMap'[k]] == reg'[k]
    {
      if k != c.roomId {
        assert roomMap'[k] == roomMap[k] != c.room;
      }
    }
  }

  /** Adding a new connection to the `Set` it captured keeps the membership bookkeeping. */
  lemma JoinTracked(sets: map<RoomSet, set<Conn>>, conns: set<Conn>, live: set<Conn>, c: Conn)
    requires Tracked(sets, conns, live)
    requires c !in conns && c.userId != "" && c.room.roomId == c.roomId
    ensures Tracked(sets[c.room := Contents(sets, c.room) + {c}], conns + {c}, live + {c})
  {
  }

  /** The as-written removal keeps the invariant (though not reachability). */
  lemma LeaveKeeps(roomMap: map<string, RoomSet>, sets: map<RoomSet, set<Conn>>,
                   reg: map<string, set<Conn>>, conns: set<Conn>, live: set<Conn>, c: Conn)
    requires Consistent(roomMap, sets, reg, conns, live) && c in conns
    ensures var rest, stored := sets[c.room] - {c}, roomMap[c.roomId := c.room];
            Consistent(if rest == {} then stored - {c.roomId} else stored,
                       sets[c.room := rest], Settle(reg, c.roomId, rest), conns, live - {c})
  {
    var rest, stored := sets[c.room] - {c}, roomMap[c.roomId := c.room];
    var roomMap' := if rest == {} then stored - {c.roomId} else stored;
    var sets', reg' := sets[c.room := rest], Settle(reg, c.roomId, rest);
    forall k | k in roomMap'
      ensures sets'[roomMap'[k]] == reg'[k]
    {
      if k != c.roomId {
        assert roomMap'[k] == roomMap[k] != c.room;
      }
    }
  }

  /**
    The removal as written keeps every other live connection reachable when
    the removed connection was itself live and reachable: its `Set` is then
    the one stored, and it is emptied only when no other live connection shares it.
   */
  lemma LeaveReachable(roomMap: map<string, RoomSet>, sets: map<RoomSet, set<Conn>>,
                       reg: map<string, set<Conn>>, conns: set<Conn>, live: set<Conn>, c: Conn)
    requires Consistent(roomMap, sets, reg, conns, live) && Reachable(roomMap, live)
    requires c in live
    ensures var rest, stored := sets[c.room] - {c}, roomMap[c.roomId := c.room];
            Reachable(if rest == {} then stored - {c.roomId} else stored, live - {c})
  {
    var rest, stored := sets[c.room] - {c}, roomMap[c.roomId := c.room];
    assert stored == roomMap;
    forall d | d in live - {c}
      ensures d.roomId in (if rest == {} then stored - {c.roomId} else stored)
    {
      if d.roomId == c.roomId {
        assert d in rest;
      }
    }
  }

  /** The guarded removal keeps the invariant and keeps every live connection reachable. */
  lemma LeaveGuardedKeeps(roomMap: map<string, RoomSet>, sets: map<RoomSet, set<Conn>>,
                          reg: map<string, set<Conn>>, conns: set<Conn>, live: set<Conn>, c: Conn)
    requires Consistent(roomMap, sets, reg, conns, live) && Reachable(roomMap, live) && c in conns
    ensures var rest := sets[c.room] - {c};
            var stored := c.roomId in roomMap && roomMap[c.roomId] == c.room;
            var roomMap' := if stored && rest == {} then roomMap - {c.roomId} else roomMap;
            var reg' := if stored then Settle(reg, c.roomId, rest) else reg;
            Consistent(roomMap', sets[c.room := rest], reg', conns, live - {c}) &&
            Reachable(roomMap', live - {c}) &&
            reg' == if c in live then Settle(reg, c.roomId, rest) else reg
  {
    var rest := sets[c.room] - {c};
    var stored := c.roomId in roomMap && roomMap[c.roomId] == c.room;
    var roomMap' := if stored && rest == {} then roomMap - {c.roomId} else roomMap;
    var sets' := sets[c.room := rest];
    var reg' := if stored then Settle(reg, c.roomId, rest) else reg;
    forall k | k in roomMap'
      ensures sets'[roomMap'[k]] == reg'[k]
    {
      if k != c.roomId {
        assert roomMap'[k] == roomMap[k] != c.room;
      }
    }
    if stored && c !in live {
      assert rest == reg[c.roomId] != {};
      assert reg[c.roomId := rest] == reg;
    }
  }
}
