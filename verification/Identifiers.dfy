/** Portal and message identifiers, and everybody who builds or parses them. */
module Identifiers {
  import opened Strings
  import opened Onebot

  const USER := "user"
  const GROUP := "group"
  const SEPARATOR: char := '\U{0001}'

  // ----- pkg/ids -----

  function MakeMessageID(peerID: string, msgID: string): string {
    peerID + [':'] + msgID
  }

  function MakeFakeMessageID(peerID: string, data: string): string {
    "fake" + [':'] + (peerID + [':'] + data)
  }

  function ParseMessageID(id: string): Result<(string, string), string> {
    match Cut(id, ':')
    case None => Err("invalid message ID")
    case Some(parts) => if parts.0 == "fake" then Err("fake message ID") else Ok(parts)
  }

  function ParsePortalID(portalID: string): (string, string) {
    match Cut(portalID, SEPARATOR)
    case None => (USER, portalID)
    case Some(parts) => parts
  }

  predicate IsPrivate(m: Message) {
    m.messageType == "private"
  }

  function GetPeerID(m: Message): string {
    if IsPrivate(m) then
      if m.postType == "message_sent" then m.targetID else m.sender.userID
    else m.groupID
  }

  // ----- portals -----

  datatype PortalKey = PortalKey(id: string, receiver: string)

  function MakePortalKey(login: string, peerType: string, peerID: string): PortalKey {
    if peerType == GROUP then PortalKey(peerType + [SEPARATOR] + peerID, "") else PortalKey(peerID, login)
  }

  function MakeDMPortalKey(login: string, identifier: string): PortalKey {
    PortalKey(identifier, login)
  }

  // ----- incoming events -----

  datatype Event = Event(message: Message, isFake: bool)

  function PeerType(m: Message): string {
    if IsPrivate(m) then USER else GROUP
  }

  function GetPortalKey(login: string, e: Event): PortalKey {
    MakePortalKey(login, PeerType(e.message), GetPeerID(e.message))
  }

  function GetID(e: Event): string {
    if e.isFake then MakeFakeMessageID(GetPeerID(e.message), "fake-" + e.message.messageID)
    else MakeMessageID(GetPeerID(e.message), e.message.messageID)
  }

  function GetTargetMessage(e: Event): string {
    MakeMessageID(GetPeerID(e.message), e.message.messageID)
  }

  /** The reply target of an incoming message that quotes message `quoted`. */
  function ReplyTarget(m: Message, quoted: string): string {
    MakeMessageID(GetPeerID(m), quoted)
  }

  datatype Recall =
    | FriendRecall(selfID: string, userID: string, messageID: string)
    | GroupRecall(groupID: string, userID: string, messageID: string)

  /** The stand-in message for a recall: a reply to the recalled message, saying it was revoked. */
  function RecallEvent(r: Recall): Option<Event> {
    var payload := Items([Seg(Reply(r.messageID)), Seg(Text("[revoke]"))]);
    match r
    case FriendRecall(selfID, userID, messageID) =>
      if selfID == userID then None
      else Some(Event(Message("", "private", messageID, "", "", Sender(userID, ""), payload), true))
    case GroupRecall(groupID, userID, messageID) =>
      Some(Event(Message("", "group", messageID, groupID, "", Sender(userID, ""), payload), true))
  }

  // ----- outgoing messages -----

  datatype Sent = Sent(peerType: string, peerID: string, segments: seq<Segment>)

  /** What handling a Matrix message comes to: what was sent, if anything, and the ID to store. */
  datatype Handled = Handled(sent: Option<Sent>, result: Result<string, string>)

  /** `HandleMatrixMessage`: `converted` is the converted content, `replyTo` the stored ID of the
      message replied to, and `response` what the agent answers to the send. */
  method HandleMatrixMessage(loggedIn: bool, converted: Result<seq<Segment>, string>, replyTo: Option<string>,
                             portalID: string, response: Result<string, string>) returns (h: Handled)
    ensures h.sent.Some? <==> loggedIn && converted.Ok? && ParsePortalID(portalID).0 in {"user", "group"}
    ensures h.sent.Some? ==> (h.sent.value.peerType, h.sent.value.peerID) == ParsePortalID(portalID)
    ensures h.sent.Some? ==> h.sent.value.segments == QuoteOf(replyTo) + converted.value
    ensures h.sent.Some? && (replyTo.None? || ':' !in replyTo.value || "fake:" <= replyTo.value) ==>
      h.sent.value.segments == converted.value
    ensures h.sent.Some? && replyTo.Some? && ':' in replyTo.value && !("fake:" <= replyTo.value) ==>
      exists peerID: string, msgID ::
        && ':' !in peerID && replyTo.value == peerID + ":" + msgID
        && h.sent.value.segments == [Reply(msgID)] + converted.value
    ensures !loggedIn ==> h.result == Err("not logged in")
    ensures loggedIn && converted.Err? ==> h.result == Err("failed to convert message: " + converted.error)
    ensures loggedIn && converted.Ok? && h.sent.None? ==> h.result == Err("unsupported chat type " + ParsePortalID(portalID).0)
    ensures h.sent.Some? && response.Err? ==> h.result == Err(response.error)
    ensures h.result.Ok? <==> h.sent.Some? && response.Ok?
    ensures h.result.Ok? ==> h.result.value == MakeMessageID(ParsePortalID(portalID).1, response.value)
  {
    if !loggedIn {
      return Handled(None, Err("not logged in"));
    }
    if converted.Err? {
      return Handled(None, Err("failed to convert message: " + converted.error));
    }
    var segments := converted.value;
    if replyTo.Some? {
      ParseMessageMeans(replyTo.value);
      var parsed := ParseMessageID(replyTo.value);
      if parsed.Ok? {
        segments := [Reply(parsed.value.1)] + segments;
      }
    }
    var (peerType, peerID) := ParsePortalID(portalID);
    if peerType != USER && peerType != GROUP {
      return Handled(None, Err("unsupported chat type " + peerType));
    }
    var sent := Some(Sent(peerType, peerID, segments));
    if response.Err? {
      return Handled(sent, Err(response.error));
    }
    return Handled(sent, Ok(MakeMessageID(peerID, response.value)));
  }

  /** The quote put in front of an outgoing message. */
  function QuoteOf(replyTo: Option<string>): seq<Segment> {
    if replyTo.Some? && ParseMessageID(replyTo.value).Ok? then [Reply(ParseMessageID(replyTo.value).value.1)] else []
  }

  // ----- laws -----

  /** Peers whose message IDs can be told apart again. */
  predicate PlainPeer(peerID: string) {
    ':' !in peerID && peerID != "fake"
  }

  /** Parsing undoes making exactly for plain peers; the message part may contain anything. */
  lemma MessageIDRoundTrip(peerID: string, msgID: string)
    ensures ParseMessageID(MakeMessageID(peerID, msgID)) == Ok((peerID, msgID)) <==> PlainPeer(peerID)
  {
    CutJoined(peerID, ':', msgID);
  }

  /** Exactly the IDs with a colon that do not start with "fake:" are accepted, and they are split at
      their first colon. */
  lemma ParseMessageMeans(id: string)
    ensures ParseMessageID(id).Ok? <==> ':' in id && !("fake:" <= id)
    ensures ParseMessageID(id).Ok? ==>
      var (peerID, msgID) := ParseMessageID(id).value; id == peerID + ":" + msgID && ':' !in peerID
    ensures ':' !in id ==> ParseMessageID(id) == Err("invalid message ID")
    ensures "fake:" <= id ==> ParseMessageID(id) == Err("fake message ID")
  {
    var i := IndexOf(id, ':');
    if i < |id| {
      assert id == id[..i] + [':'] + id[i + 1..];
      assert "fake:" <= id <==> id[..i] == "fake" by {
        if "fake:" <= id {
          assert id[..5] == "fake:" && id[4] == ':';
          assert forall j | 0 <= j < 4 :: id[j] == "fake:"[j];
          assert i == 4;
        }
      }
    } else {
      assert forall j | 0 <= j < |id| :: id[j] != ':';
      assert "fake:"[4] == ':';
    }
  }

  /** A portal's ID names a type and a peer, split at the first separator; without one it names a user. */
  lemma ParsePortalMeans(id: string)
    ensures '\U{0001}' !in id ==> ParsePortalID(id) == ("user", id)
    ensures '\U{0001}' in id ==>
      var (peerType, peerID) := ParsePortalID(id); id == peerType + "\U{0001}" + peerID && '\U{0001}' !in peerType
  {
  }

  /** Fake IDs are refused whatever they are made of, and are not the ID of any message of a plain peer. */
  lemma FakeRefused(peerID: string, data: string, realPeer: string, msgID: string)
    ensures ParseMessageID(MakeFakeMessageID(peerID, data)).Err?
    ensures PlainPeer(realPeer) ==> MakeFakeMessageID(peerID, data) != MakeMessageID(realPeer, msgID)
  {
    CutJoined("fake", ':', peerID + [':'] + data);
    MessageIDRoundTrip(realPeer, msgID);
  }

  /** A portal's ID parses back to its peer for every group, and for exactly the users whose ID has no separator in it. */
  lemma PortalRoundTrip(login: string, peerType: string, peerID: string)
    requires peerType in {USER, GROUP}
    ensures ParsePortalID(MakePortalKey(login, peerType, peerID).id) == (peerType, peerID)
      <==> peerType == GROUP || SEPARATOR !in peerID
  {
    if peerType == GROUP {
      assert SEPARATOR !in GROUP;
      CutJoined(GROUP, SEPARATOR, peerID);
    } else {
      var i := IndexOf(peerID, SEPARATOR);
      if SEPARATOR !in peerID {
        assert i == |peerID|;
      } else {
        assert |peerID[i + 1..]| < |peerID|;
      }
    }
  }

  /** Within a login, two messages of plain peers share an ID exactly when peer and message ID agree.
      Whether the peer is a user or a group is not part of the ID: that is left to the portal. */
  lemma EventIDsDistinct(e: Event, f: Event)
    requires PlainPeer(GetPeerID(e.message)) && PlainPeer(GetPeerID(f.message))
    ensures GetID(e) == GetID(f) <==>
      e.isFake == f.isFake && GetPeerID(e.message) == GetPeerID(f.message) && e.message.messageID == f.message.messageID
  {
    var p, q := GetPeerID(e.message), GetPeerID(f.message);
    var d, g := "fake-" + e.message.messageID, "fake-" + f.message.messageID;
    MessageIDRoundTrip(p, e.message.messageID);
    MessageIDRoundTrip(q, f.message.messageID);
    FakeRefused(p, d, q, f.message.messageID);
    FakeRefused(q, g, p, e.message.messageID);
    CutJoined("fake", ':', p + [':'] + d);
    CutJoined("fake", ':', q + [':'] + g);
    CutJoined(p, ':', d);
    CutJoined(q, ':', g);
    assert d[5..] == e.message.messageID && g[5..] == f.message.messageID;
  }

  predicate GoodPeer(peerType: string, peerID: string) {
    peerType in {USER, GROUP} && PlainPeer(peerID) && (peerType == USER ==> SEPARATOR !in peerID)
  }

  /** An event lands in a portal exactly when it is about that portal's peer (a login has a non-empty ID). */
  lemma PortalOfEvent(login: string, e: Event, peerType: string, peerID: string)
    requires login != "" && peerType in {USER, GROUP}
    ensures GetPortalKey(login, e) == MakePortalKey(login, peerType, peerID)
      <==> PeerType(e.message) == peerType && GetPeerID(e.message) == peerID
  {
    var a, b := MakePortalKey(login, GROUP, GetPeerID(e.message)).id, MakePortalKey(login, GROUP, peerID).id;
    assert a[6..] == GetPeerID(e.message) && b[6..] == peerID;
  }

  /** End to end: for message `msgID` of a portal, the ID of the incoming event or of the echo of a
      message sent here, the ID stored after a send, the target of a reply written by either side, the
      target of a recall and the argument of a redaction all agree; recalls themselves never pass for
      messages. */
  lemma MessageIDAgreement(login: string, peerType: string, peerID: string, msgID: string)
    requires login != "" && GoodPeer(peerType, peerID)
    ensures var id := MakeMessageID(peerID, msgID); var key := MakePortalKey(login, peerType, peerID);
      // an event of this portal, received or echoed, carries it
      && (forall e: Event | GetPortalKey(login, e) == key && e.message.messageID == msgID ::
            GetTargetMessage(e) == id && (!e.isFake ==> GetID(e) == id))
      // a send into this portal stores it
      && MakeMessageID(ParsePortalID(key.id).1, msgID) == id
      // a Matrix reply to it, or a redaction of it, names the message to the agent
      && QuoteOf(Some(id)) == [Reply(msgID)] && ParseMessageID(id) == Ok((peerID, msgID))
      // a reply arriving in this portal and quoting the message points back to it
      && (forall e: Event | GetPortalKey(login, e) == key :: ReplyTarget(e.message, msgID) == id)
      // a direct chat opened from Matrix is the same portal
      && (peerType == USER ==> MakeDMPortalKey(login, peerID) == key)
  {
    MessageIDRoundTrip(peerID, msgID);
    PortalRoundTrip(login, peerType, peerID);
    forall e: Event | GetPortalKey(login, e) == MakePortalKey(login, peerType, peerID)
      ensures GetPeerID(e.message) == peerID
    {
      PortalOfEvent(login, e, peerType, peerID);
    }
  }

  /** Read off an event's fields: whose chat it belongs to and under which ID. A private message belongs
      to its sender's chat, one sent by this account to its target's, anything else to the group's. */
  lemma EventFields(login: string, e: Event)
    ensures var m := e.message;
      var peer :=
        if m.messageType != "private" then m.groupID
        else if m.postType == "message_sent" then m.targetID
        else m.sender.userID;
      && GetPortalKey(login, e) == (if m.messageType == "private" then PortalKey(peer, login) else PortalKey("group\U{0001}" + peer, ""))
      && GetID(e) == (if e.isFake then "fake:" + peer + ":fake-" + m.messageID else peer + ":" + m.messageID)
      && GetTargetMessage(e) == peer + ":" + m.messageID
      && forall quoted :: ReplyTarget(m, quoted) == peer + ":" + quoted
  {
    var m := e.message;
    var peer := GetPeerID(m);
    assert "group" + [SEPARATOR] + peer == "group\U{0001}" + peer;
    assert "fake" + [':'] + (peer + [':'] + ("fake-" + m.messageID)) == "fake:" + peer + ":fake-" + m.messageID;
  }

  /** Read off a recall's fields: this account's own recall in a private chat is dropped, any other shows
      up in the chat of the friend or group, as a reply to the recalled message there. */
  lemma RecallFields(login: string, r: Recall)
    ensures RecallEvent(r).None? <==> r.FriendRecall? && r.selfID == r.userID
    ensures r.FriendRecall? && r.selfID != r.userID ==>
      var e := RecallEvent(r).value;
      && GetPortalKey(login, e) == PortalKey(r.userID, login)
      && ReplyTarget(e.message, r.messageID) == r.userID + ":" + r.messageID
      && GetID(e) == "fake:" + r.userID + ":fake-" + r.messageID
    ensures r.GroupRecall? ==>
      var e := RecallEvent(r).value;
      && GetPortalKey(login, e) == PortalKey("group\U{0001}" + r.groupID, "")
      && ReplyTarget(e.message, r.messageID) == r.groupID + ":" + r.messageID
      && GetID(e) == "fake:" + r.groupID + ":fake-" + r.messageID
    ensures RecallEvent(r).Some? ==>
      && RecallEvent(r).value.message.sender.userID == r.userID
      && RecallEvent(r).value.message.payload == Items([Seg(Reply(r.messageID)), Seg(Text("[revoke]"))])
  {
    if RecallEvent(r).Some? {
      EventFields(login, RecallEvent(r).value);
    }
  }

  /** Message `m` is one of those that `r` can be about: a private message from the recalling friend or
      sent to them, or a message of the group. */
  predicate InChatOf(r: Recall, m: Message) {
    match r
    case FriendRecall(_, userID, _) =>
      m.messageType == "private" && (if m.postType == "message_sent" then m.targetID == userID else m.sender.userID == userID)
    case GroupRecall(groupID, _, _) => m.messageType != "private" && m.groupID == groupID
  }

  /** A recall shows up in the portal of the recalled message as a reply to it, under an ID that can
      be neither replied to nor redacted and that no message of a plain peer has. */
  lemma RecallAgreement(login: string, r: Recall, original: Event, other: Event)
    requires RecallEvent(r).Some? && !original.isFake && !other.isFake && PlainPeer(GetPeerID(other.message))
    requires original.message.messageID == r.messageID && InChatOf(r, original.message)
    ensures var e := RecallEvent(r).value;
      && GetPortalKey(login, e) == GetPortalKey(login, original)
      && e.message.payload.items[0] == Seg(Reply(r.messageID))
      && ReplyTarget(e.message, r.messageID) == GetID(original)
      && ParseMessageID(GetID(e)).Err? && QuoteOf(Some(GetID(e))) == []
      && GetID(e) != GetID(other)
  {
    var e := RecallEvent(r).value;
    EventFields(login, original);
    RecallFields(login, r);
    FakeRefused(GetPeerID(e.message), "fake-" + e.message.messageID, GetPeerID(other.message), other.message.messageID);
  }
}
