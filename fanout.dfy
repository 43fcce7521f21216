/**
  The recipient-selection rule of the `pmessage` handler: for a bus message
  on a room's channel, which member receives what. A member is identified
  only by the `userId` it was tagged with when it joined, never by its
  connection, so every tab of the originating user is skipped.
 */
module Fanout {
  import opened Codec

  /**
    The object sent to a receiving member for the bus message `m`, or None
    for a `type` the handler has no branch for. `userId` is copied as it
    arrived, and so is `annotation` for an annotation; any other key is dropped.
   */
  function Outbound(m: Message): (r: Option<Message>)
    ensures r.Some? <==> IsPresenceType(m.kind)
    ensures r.Some? ==> r.value.kind == m.kind && r.value.userId == m.userId
    ensures r.Some? ==> (r.value.annotation.Some? ==> m.kind == AnnotationType)
    ensures r.Some? && m.kind == AnnotationType ==> r.value.annotation == m.annotation
  {
    if m.kind == JoinedType then Some(Message(JoinedType, m.userId, None))
    else if m.kind == LeftType then Some(Message(LeftType, m.userId, None))
    else if m.kind == AnnotationType then Some(Message(AnnotationType, m.userId, m.annotation))
    else None
  }

  /**
    Whether a member tagged `tag` is sent anything for `m`: joined and
    annotation messages skip the originator's user, left messages reach
    everyone, other types reach nobody.
   */
  predicate Receives(tag: string, m: Message)
    ensures Receives(tag, m) ==> IsPresenceType(m.kind)
    ensures m.kind == LeftType ==> Receives(tag, m)
  {
    if m.kind == JoinedType || m.kind == AnnotationType then m.userId != Some(tag)
    else m.kind == LeftType
  }

  /** What one dispatch appends to the outbox of a member tagged `tag`. */
  function Sent(tag: string, m: Message): (r: seq<Message>)
    ensures |r| <= 1
    ensures r != [] <==> Receives(tag, m)
    ensures r != [] ==> Outbound(m) == Some(r[0])
  {
    if Receives(tag, m) then [Outbound(m).value] else []
  }

  /** A joined or annotation message never reaches a member of the originating user, and reaches every other one. */
  lemma SelfExclusion(tag: string, m: Message)
    requires m.kind == JoinedType || m.kind == AnnotationType
    ensures Sent(tag, m) == [] <==> m.userId == Some(tag)
  {
  }

  /** A left message reaches every member, including one tagged with the leaving user. */
  lemma LeftReachesAll(tag: string, m: Message)
    requires m.kind == LeftType
    ensures Sent(tag, m) == [Message(LeftType, m.userId, None)]
  {
  }

  /** A message of any other type reaches nobody. */
  lemma UnknownTypeSendsNothing(tag: string, m: Message)
    requires !IsPresenceType(m.kind)
    ensures Sent(tag, m) == [] && Outbound(m) == None
  {
  }

  /**
    Relaying does not alter an event: a bus message that decodes to `e` is
    sent on as exactly the encoding of `e` (same `userId`, same payload).
   */
  lemma RelayPreservesEvent(m: Message, e: Event)
    requires Decode(m) == Some(e)
    ensures Outbound(m) == Some(Encode(e))
  {
  }

  /** What a member tagged `tag` receives, in order, while the messages `ms` are dispatched on its room's channel. */
  function Inbox(tag: string, ms: seq<Message>): (r: seq<Message>)
    ensures |r| <= |ms|
    ensures forall i | 0 <= i < |r| :: IsPresenceType(r[i].kind)
    ensures forall i | 0 <= i < |r| :: r[i].kind == LeftType || r[i].userId != Some(tag)
    ensures (forall i | 0 <= i < |ms| :: ms[i].kind == LeftType) ==> |r| == |ms|
  {
    if ms == [] then [] else Inbox(tag, ms[..|ms| - 1]) + Sent(tag, ms[|ms| - 1])
  }

  /** Order is kept: the inbox for two runs of dispatches is the inbox for the first followed by that for the second. */
  lemma {:induction false} InboxAppend(tag: string, ms: seq<Message>, ns: seq<Message>)
    ensures Inbox(tag, ms + ns) == Inbox(tag, ms) + Inbox(tag, ns)
    decreases |ns|
  {
    if ns == [] {
      assert ms + ns == ms;
    } else {
      var last := ns[|ns| - 1];
      var init := ns[..|ns| - 1];
      assert (ms + ns)[..|ms + ns| - 1] == ms + init;
      InboxAppend(tag, ms, init);
    }
  }

  /** A looped-back event about the member's own user is never delivered, however many messages arrive. */
  lemma {:induction false} NoEchoOfOwnEvents(tag: string, ms: seq<Message>)
    requires forall i | 0 <= i < |ms| :: ms[i].userId == Some(tag) && ms[i].kind != LeftType
    ensures Inbox(tag, ms) == []
    decreases |ms|
  {
    if ms != [] {
      NoEchoOfOwnEvents(tag, ms[..|ms| - 1]);
    }
  }

  /** A single dispatch delivers to the member exactly what `Sent` says. */
  lemma InboxSingle(tag: string, m: Message)
    ensures Inbox(tag, [m]) == Sent(tag, m)
  {
    assert [m][..0] == [];
  }

  /** Every left message is delivered, in order, stripped to its `type` and `userId`. */
  lemma {:induction false} LeftDelivered(tag: string, ms: seq<Message>)
    requires forall i | 0 <= i < |ms| :: ms[i].kind == LeftType
    ensures Inbox(tag, ms) == seq(|ms|, i requires 0 <= i < |ms| => Message(LeftType, ms[i].userId, None))
    decreases |ms|
  {
    if ms != [] {
      LeftDelivered(tag, ms[..|ms| - 1]);
    }
  }

  /**
    Own events interleaved anywhere in a run change nothing the member
    receives: dropping them from the middle of the run leaves its inbox as it was.
   */
  lemma NoEchoInMixedRun(tag: string, ms: seq<Message>, ns: seq<Message>, ks: seq<Message>)
    requires forall i | 0 <= i < |ns| :: ns[i].userId == Some(tag) && ns[i].kind != LeftType
    ensures Inbox(tag, ms + ns + ks) == Inbox(tag, ms + ks)
  {
    calc {
      Inbox(tag, ms + ns + ks);
      { InboxAppend(tag, ms + ns, ks); }
      Inbox(tag, ms + ns) + Inbox(tag, ks);
      { NoEchoOfOwnEvents(tag, ns); InboxAppend(tag, ms, ns); }
      Inbox(tag, ms) + Inbox(tag, ks);
      { InboxAppend(tag, ms, ks); }
      Inbox(tag, ms + ks);
    }
  }
}
