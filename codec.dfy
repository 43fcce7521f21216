/**
  The three presence events and the flat JSON object that carries each of
  them on the bus channel `doc:<docId>` and on a client socket.
 */
module Codec {

  datatype Option<+T> = None | Some(value: T)

  /** A JSON value. Annotation payloads are carried as one and never inspected. */
  datatype Json =
    | JNull
    | JBool(b: bool)
    | JNumber(n: int)
    | JString(s: string)
    | JArray(items: seq<Json>)
    | JObject(fields: seq<(string, Json)>)

  const JoinedType: string := "presence.joined"
  const LeftType: string := "presence.left"
  const AnnotationType: string := "presence.annotation"

  /** The three `type` discriminators the relay understands. */
  predicate IsPresenceType(kind: string) {
    kind == JoinedType || kind == LeftType || kind == AnnotationType
  }

  /**
    A parsed wire object: its `type`, `userId` and `annotation` keys.
    A key the object does not have is None.
   */
  datatype Message = Message(kind: string, userId: Option<string>, annotation: Option<Json>)

  /** A presence event about one peer. */
  datatype Event =
    | Joined(user: string)
    | Left(user: string)
    | Annotated(user: string, payload: Json)

  /** The object literal the relay builds for an event. */
  function Encode(e: Event): (m: Message)
    ensures m.userId == Some(e.user)
    ensures IsPresenceType(m.kind)
    ensures m.annotation.Some? <==> e.Annotated?
    ensures e.Annotated? ==> m.annotation == Some(e.payload)
  {
    match e
    case Joined(u) => Message(JoinedType, Some(u), None)
    case Left(u) => Message(LeftType, Some(u), None)
    case Annotated(u, p) => Message(AnnotationType, Some(u), Some(p))
  }

  /**
    Strict decoding: an unknown `type`, a missing `userId`, an annotation
    without a payload or a joined/left object with one is rejected.
   */
  function Decode(m: Message): (r: Option<Event>)
    ensures r.Some? <==>
              IsPresenceType(m.kind) && m.userId.Some? &&
              (m.annotation.Some? <==> m.kind == AnnotationType)
    ensures r.Some? ==> m.userId == Some(r.value.user)
  {
    if m.userId.None? then None
    else if m.kind == JoinedType && m.annotation.None? then Some(Joined(m.userId.value))
    else if m.kind == LeftType && m.annotation.None? then Some(Left(m.userId.value))
    else if m.kind == AnnotationType && m.annotation.Some? then
      Some(Annotated(m.userId.value, m.annotation.value))
    else None
  }

  /** Every event survives a trip through the wire form unchanged. */
  lemma DecodeEncode(e: Event)
    ensures Decode(Encode(e)) == Some(e)
  {
  }

  /** Decoding is the strict inverse: whatever decodes re-encodes to the same object. */
  lemma EncodeDecode(m: Message)
    ensures Decode(m).Some? ==> Encode(Decode(m).value) == m
  {
  }

  /** Distinct events have distinct wire forms. */
  lemma EncodeInjective(e1: Event, e2: Event)
    ensures Encode(e1) == Encode(e2) ==> e1 == e2
  {
    DecodeEncode(e1);
    DecodeEncode(e2);
  }
}
