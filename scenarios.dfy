/**
  Runs of the relay from an empty registry: the ordinary presence
  exchanges, and the interleaving of an `error` and a later `close` on
  one socket that the guarded handlers survive and the handlers as
  written do not. Bus delivery is a call of `Dispatch` with a message
  taken from the publish log or put on the channel by another publisher.
 */
module Scenarios {
  import opened Codec
  import opened Connections
  import opened Server

  /**
    A and then B join document 1, and the bus delivers both `presence.joined`
    events in order: each member is told about the other and never about itself.
   */
  method TwoPeersJoin() returns (a: Conn, b: Conn)
    ensures a.userId == "A" && b.userId == "B" && a.roomId == b.roomId == "doc:1"
    ensures a.outbox == [Encode(Joined("B"))]
    ensures b.outbox == [Encode(Joined("A"))]
  {
    var relay;
    relay, a, b := TwoInRoom(false);
    relay.Dispatch(relay.published[0].channel, relay.published[0].message);
    relay.Dispatch(relay.published[1].channel, relay.published[1].message);
  }

  /**
    A joins document 1 and A's `presence.joined` is delivered while A is
    alone; then B joins and B's is delivered: A is told about B, and B is
    told nothing about A.
   */
  method JoinedBeforePeer() returns (a: Conn, b: Conn)
    ensures a.userId == "A" && b.userId == "B" && a.roomId == b.roomId == "doc:1"
    ensures a.outbox == [Encode(Joined("B"))]
    ensures b.outbox == []
  {
    var relay;
    relay, a, b := TwoInRoom(true);
    relay.Dispatch(relay.published[1].channel, relay.published[1].message);
  }

  /** A fresh relay with A admitted to document 1 and nothing delivered yet. */
  method OneInRoom() returns (relay: Relay, a: Conn)
    ensures fresh(relay) && fresh(a) && fresh(a.room) && relay.Valid() && relay.Registered()
    ensures a.userId == "A" && a.roomId == "doc:1" && a.outbox == []
    ensures relay.Conns == {a} && relay.live == {a}
    ensures relay.roomMap == map["doc:1" := a.room] && relay.Registry == map["doc:1" := {a}]
    ensures relay.Members("doc:1") == relay.sets[a.room] == {a}
    ensures relay.published == [Publication("doc:1", Encode(Joined("A")))]
  {
    relay := new Relay();
    var ca := relay.OnConnection(Some("1"), Some("A"), 1);
    assert ca != null && ca.roomId == "doc:1";
    relay.MembersMirror("doc:1");
    a := ca;
  }

  /**
    A fresh relay with A and then B admitted to document 1. When
    `notifyFirst`, A's `presence.joined` is delivered before B joins (A,
    alone, receives nothing); otherwise nothing is delivered yet.
   */
  method TwoInRoom(notifyFirst: bool) returns (relay: Relay, a: Conn, b: Conn)
    ensures fresh(relay) && fresh(a) && fresh(b) && relay.Valid() && relay.Registered()
    ensures a.userId == "A" && b.userId == "B" && a.roomId == b.roomId == "doc:1" && a != b
    ensures a.outbox == [] && b.outbox == []
    ensures a in relay.Conns && b in relay.Conns && relay.live == {a, b}
    ensures relay.Members("doc:1") == relay.sets[a.room] == {a, b} && a.room == b.room
    ensures relay.published ==
              [Publication("doc:1", Encode(Joined("A"))), Publication("doc:1", Encode(Joined("B")))]
  {
    var ca;
    relay, ca := OneInRoom();
    if notifyFirst {
      relay.Dispatch(relay.published[0].channel, relay.published[0].message);
    }
    var cb := relay.OnConnection(Some("1"), Some("B"), 1);
    assert cb != null && cb.roomId == "doc:1";
    relay.MembersMirror("doc:1");
    a, b := ca, cb;
  }

  /**
    A and B are in document 1 and the bus delivers an annotation by A: B
    receives it with A's `userId` and the payload unchanged, A receives nothing.
   */
  method AnnotationReachesPeers(payload: Json) returns (a: Conn, b: Conn)
    ensures a.userId == "A" && b.userId == "B"
    ensures a.outbox == []
    ensures b.outbox == [Message(AnnotationType, Some("A"), Some(payload))]
  {
    var relay;
    relay, a, b := TwoInRoom(false);
    relay.Dispatch("doc:1", Encode(Annotated("A", payload)));
  }

  /**
    A and B are in document 1 and A's socket closes: one `presence.left`
    for A is published and reaches B. When B closes too, the room entry
    is gone.
   */
  method PeerLeaves() returns (b: Conn, left: Publication, roomKept: bool)
    ensures b.userId == "B" && b.outbox == [Encode(Left("A"))]
    ensures left == Publication("doc:1", Encode(Left("A")))
    ensures !roomKept
  {
    var relay, ca, cb := TwoInRoom(false);
    relay.OnClose(ca);
    relay.MembersMirror("doc:1");
    assert relay.Members("doc:1") == {cb};
    left := relay.published[|relay.published| - 1];
    relay.Dispatch(left.channel, left.message);
    relay.OnClose(cb);
    b, roomKept := cb, "doc:1" in relay.roomMap;
  }

  /** A user with no accessible document is turned away: no socket is kept and nothing is published. */
  method NoAccessRejected() returns (c: Conn?, published: seq<Publication>)
    ensures c == null && published == []
  {
    var relay := new Relay();
    c := relay.OnConnection(Some("1"), Some("A"), 0);
    published := relay.published;
  }

  /**
    A joins document 1 and A's `error` handler runs (as written, or
    guarded): the room is removed and A's old `Set` is left empty.
   */
  method ErrorAlone(guarded: bool) returns (relay: Relay, a: Conn)
    ensures fresh(relay) && fresh(a) && fresh(a.room) && relay.Valid() && relay.Registered()
    ensures a.userId == "A" && a.roomId == "doc:1" && a in relay.Conns && relay.live == {}
    ensures relay.roomMap == map[] && relay.sets[a.room] == {}
  {
    relay, a := OneInRoom();
    if guarded {
      relay.OnErrorGuarded(a);
    } else {
      relay.OnError(a);
    }
  }

  /**
    A joins document 1, A's `error` handler runs (as written, or guarded)
    and removes the room, and B joins: B is in a new room `Set` stored
    under `doc:1`, while A's handlers still hold A's old, now empty, `Set`.
   */
  method ErrorThenRejoin(guarded: bool) returns (relay: Relay, a: Conn, b: Conn)
    ensures fresh(relay) && fresh(a) && fresh(b) && relay.Valid() && relay.Registered()
    ensures a.userId == "A" && b.userId == "B" && a.roomId == b.roomId == "doc:1"
    ensures b.outbox == [] && a in relay.Conns && b in relay.Conns && relay.live == {b}
    ensures a.room != b.room && relay.sets[a.room] == {} && relay.roomMap["doc:1"] == b.room
    ensures relay.Members("doc:1") == {b}
  {
    var ca;
    relay, ca := ErrorAlone(guarded);
    var cb := relay.OnConnection(Some("1"), Some("B"), 1);
    assert cb != null && cb.roomId == "doc:1";
    relay.MembersMirror("doc:1");
    a, b := ca, cb;
  }

  /**
    The handlers as written: A joins document 1, A's `error` handler runs
    and removes the room, B joins and gets a new room `Set`, then A's
    `close` handler runs. It re-stores A's old, empty `Set` under
    `doc:1` and deletes the entry, so B is still connected but no longer
    reachable: a later annotation on `doc:1` does not reach B.
   */
  method CloseAfterErrorDropsRoom(payload: Json) returns (relay: Relay, b: Conn, roomKept: bool)
    ensures b.userId == "B" && !roomKept && b.outbox == []
    ensures relay.Valid() && b in relay.live && !relay.Registered()
  {
    var ca, cb;
    relay, ca, cb := ErrorThenRejoin(false);
    relay.OnClose(ca);
    relay.Dispatch("doc:1", Encode(Annotated("C", payload)));
    b, roomKept := cb, "doc:1" in relay.roomMap;
  }

  /** The same run with the guarded handlers: B stays registered and receives the annotation. */
  method CloseAfterErrorGuarded(payload: Json) returns (relay: Relay, b: Conn, roomKept: bool)
    ensures b.userId == "B" && roomKept
    ensures b.outbox == [Message(AnnotationType, Some("C"), Some(payload))]
    ensures relay.Valid() && b in relay.live && relay.Registered()
  {
    var ca, cb;
    relay, ca, cb := ErrorThenRejoin(true);
    relay.OnCloseGuarded(ca);
    relay.MembersMirror("doc:1");
    relay.Dispatch("doc:1", Encode(Annotated("C", payload)));
    b, roomKept := cb, "doc:1" in relay.roomMap;
  }
}
