/** OneBot segments to a Matrix message: the shared per-segment rendering and the loop of
    `OnebotToMatrix`. */
module FromOnebot {
  import opened Strings
  import opened Onebot
  import Identifiers

  datatype Agent = NapCat | LLOneBot | WeChat

  /** The libraries and tables behind rendering: WeChat emoji replacement, face names, Markdown escaping. */
  datatype Env = Env(agent: Agent, wechatEmoji: string -> string, faceName: string -> string, escape: string -> string)

  /** The outcome of re-uploading one media segment; an empty `url` is a failure. */
  datatype Upload = Upload(url: string, fileName: string)

  datatype Content =
    | Words(body: string)
    | Media(segment: Segment, upload: Upload)
    | Card(card: Segment)

  datatype Part = Part(id: string, content: Content)

  /** What `renderSegment` leaves to its caller. */
  predicate CallerOnly(s: Segment) {
    s.At? || s.Image? || s.MarketFace? || s.Reply? || s.Forward?
  }

  /** The text `renderSegment` writes. */
  function SharedText(env: Env, s: Segment): string {
    match s
    case Text(t) => if env.agent.WeChat? then env.wechatEmoji(t) else t
    case Face(id) => "/" + env.faceName(id)
    case Record(_) => "[Voice]"
    case Video(_) => "[Video]"
    case File(_) => "[File]"
    case Location(_) => "[location]"
    case Node(_) => "[node]"
    case XML(_) => "[xml]"
    case _ => ""
  }

  predicate SharedMedia(s: Segment) {
    s.Record? || s.Video? || s.File?
  }

  /** Segments that replace the whole message. */
  predicate IsCard(s: Segment) {
    s.Share? || s.JSON?
  }

  class Builder {
    var text: string
    var media: seq<Part>

    constructor ()
      ensures text == "" && media == []
    {
      text, media := "", [];
    }

    method WriteString(s: string)
      modifies this
      ensures text == old(text) + s && media == old(media)
    {
      text := text + s;
    }

    method AppendMedia(p: Part)
      modifies this
      ensures media == old(media) + [p] && text == old(text)
    {
      media := media + [p];
    }
  }

  method RenderSegment(env: Env, s: Segment, upload: Upload, b: Builder) returns (part: Option<Part>, handled: bool)
    modifies b
    ensures handled == !CallerOnly(s)
    ensures part == if IsCard(s) then Some(Part("", Card(s))) else None
    ensures b.text == old(b.text) + SharedText(env, s)
    ensures b.media == old(b.media) + if SharedMedia(s) then [Part("", Media(s, upload))] else []
  {
    part, handled := None, true;
    match s {
      case At(_) => handled := false;
      case Image(_) => handled := false;
      case MarketFace(_) => handled := false;
      case Reply(_) => handled := false;
      case Forward(_, _) => handled := false;
      case Text(t) => b.WriteString(if env.agent.WeChat? then env.wechatEmoji(t) else t);
      case Face(id) => b.WriteString("/" + env.faceName(id));
      case Record(_) =>
        b.AppendMedia(Part("", Media(s, upload)));
        b.WriteString("[Voice]");
      case Video(_) =>
        b.AppendMedia(Part("", Media(s, upload)));
        b.WriteString("[Video]");
      case File(_) =>
        b.AppendMedia(Part("", Media(s, upload)));
        b.WriteString("[File]");
      case Share(_, _, _) => part := Some(Part("", Card(s)));
      case JSON(_) => part := Some(Part("", Card(s)));
      case Location(_) => b.WriteString("[location]");
      case Node(_) => b.WriteString("[node]");
      case XML(_) => b.WriteString("[xml]");
    }
  }

  // ----- the loop of OnebotToMatrix -----

  /** "all" on the OneBot side is "room" on the Matrix side. */
  function MatrixTarget(target: string): string {
    if target == "all" then "room" else target
  }

  /** What one segment contributes to the body of a plain message. */
  function BodyOf(env: Env, s: Segment): string {
    match s
    case At(target) => "@" + MatrixTarget(target)
    case Image(_) => "[Image]"
    case MarketFace(_) => "[Image]"
    case _ => SharedText(env, s)
  }

  function Body(env: Env, segments: seq<Segment>): string {
    if segments == [] then "" else Body(env, segments[..|segments| - 1]) + BodyOf(env, segments[|segments| - 1])
  }

  /** Whom the message mentions, in order. */
  function MentionsIn(segments: seq<Segment>): seq<string> {
    if segments == [] then [] else
      var s := segments[|segments| - 1];
      MentionsIn(segments[..|segments| - 1]) + (if s.At? then [MatrixTarget(s.target)] else [])
  }

  function MediaIn(segments: seq<Segment>, uploads: seq<Upload>): seq<Part>
    requires |uploads| == |segments|
  {
    if segments == [] then []
    else
      var n := |segments| - 1;
      MediaIn(segments[..n], uploads[..n]) +
        if SharedMedia(segments[n]) || segments[n].Image? || segments[n].MarketFace?
        then [Part("", Media(segments[n], uploads[n]))] else []
  }

  predicate NoneAfter(segments: seq<Segment>, p: Segment -> bool, i: int) {
    forall j | 0 <= j < |segments| && i < j :: !p(segments[j])
  }

  /** The segment of the given kind that comes last, if any. */
  function LastWhere(segments: seq<Segment>, p: Segment -> bool): (r: Option<Segment>)
    ensures r.Some? ==> p(r.value) && exists i :: 0 <= i < |segments| && segments[i] == r.value && NoneAfter(segments, p, i)
    ensures r.None? ==> forall s | s in segments :: !p(s)
  {
    if segments == [] then None
    else if p(segments[|segments| - 1]) then
      assert NoneAfter(segments, p, |segments| - 1);
      Some(segments[|segments| - 1])
    else
      var r := LastWhere(segments[..|segments| - 1], p);
      assert r.Some? ==> exists i :: 0 <= i < |segments| && segments[i] == r.value && NoneAfter(segments, p, i) by {
        if r.Some? {
          var i :| 0 <= i < |segments| - 1 && segments[i] == r.value && NoneAfter(segments[..|segments| - 1], p, i);
          assert NoneAfter(segments, p, i);
        }
      }
      r
  }

  lemma NothingLast(segments: seq<Segment>, p: Segment -> bool)
    requires forall s | s in segments :: !p(s)
    ensures LastWhere(segments, p).None?
  {
    assert forall i | 0 <= i < |segments| :: segments[i] in segments;
  }

  predicate IsReply(s: Segment) {
    s.Reply?
  }

  /** The parts of the first, then those of the second; nothing only when there is nothing in either. */
  function Both(a: Option<seq<Part>>, b: Option<seq<Part>>): Option<seq<Part>> {
    if a.None? then b else if b.None? then a else Some(a.value + b.value)
  }

  /** The parts of all forwards that could be converted, in order; nothing if there was none.
      `forwards[i]` is the result of fetching and converting the forward at position `i`. */
  function ForwardParts(segments: seq<Segment>, forwards: seq<Option<seq<Part>>>): Option<seq<Part>>
    requires |forwards| == |segments|
  {
    if segments == [] then None else
      var n := |segments| - 1;
      var before := ForwardParts(segments[..n], forwards[..n]);
      if !segments[n].Forward? || forwards[n].None? then before
      else if before.None? then forwards[n]
      else Some(before.value + forwards[n].value)
  }

  datatype Converted = Converted(parts: seq<Part>, mentions: seq<string>, replyTo: Option<string>)

  /** A message without forwards becomes one part: the last card if there is one, a mixed or plain
      text, or its only media. */
  function PlainPart(env: Env, segments: seq<Segment>, uploads: seq<Upload>): Part
    requires |uploads| == |segments|
  {
    var card := LastWhere(segments, IsCard);
    var media := MediaIn(segments, uploads);
    if card.Some? then Part("0", Card(card.value))
    else if |media| == 1 && |segments| <= 1 then media[0].(id := "0")
    else Part("0", Words(Body(env, segments)))
  }

  predicate HasMedia(s: Segment) {
    SharedMedia(s) || s.Image? || s.MarketFace?
  }

  /** What the segments the shared rendering leaves alone contribute. */
  method RenderOwn(env: Env, m: Message, s: Segment, upload: Upload, b: Builder)
    returns (mentions: seq<string>, replyTo: Option<string>)
    requires CallerOnly(s)
    modifies b
    ensures b.text == old(b.text) + BodyOf(env, s)
    ensures b.media == old(b.media) + if HasMedia(s) then [Part("", Media(s, upload))] else []
    ensures mentions == if s.At? then [MatrixTarget(s.target)] else []
    ensures replyTo == if s.Reply? then Some(Identifiers.ReplyTarget(m, s.id)) else None
  {
    mentions, replyTo := [], None;
    match s {
      case At(target) =>
        var t := if target == "all" then "room" else target;
        b.WriteString("@" + t);
        mentions := [t];
      case Image(_) =>
        b.AppendMedia(Part("", Media(s, upload)));
        b.WriteString("[Image]");
      case MarketFace(_) =>
        b.AppendMedia(Part("", Media(s, upload)));
        b.WriteString("[Image]");
      case Reply(id) =>
        replyTo := Some(Identifiers.MakeMessageID(Identifiers.GetPeerID(m), id));
      case Forward(_, _) =>
    }
  }

  /** One round of the loop: the shared rendering, and what it leaves to `OnebotToMatrix`. */
  method RenderAny(env: Env, m: Message, s: Segment, upload: Upload, b: Builder)
    returns (card: Option<Part>, mentions: seq<string>, replyTo: Option<string>)
    modifies b
    ensures b.text == old(b.text) + BodyOf(env, s)
    ensures b.media == old(b.media) + if HasMedia(s) then [Part("", Media(s, upload))] else []
    ensures card == if IsCard(s) then Some(Part("", Card(s))) else None
    ensures mentions == if s.At? then [MatrixTarget(s.target)] else []
    ensures replyTo == if s.Reply? then Some(Identifiers.ReplyTarget(m, s.id)) else None
  {
    var handled: bool;
    mentions, replyTo := [], None;
    card, handled := RenderSegment(env, s, upload, b);
    if !handled {
      mentions, replyTo := RenderOwn(env, m, s, upload, b);
    }
  }

  /** What the loop over the segments has gathered. */
  datatype Gathered = Gathered(
    text: string, media: seq<Part>, card: Option<Segment>, mentions: seq<string>,
    reply: Option<Segment>, forwards: Option<seq<Part>>)

  function Gather(env: Env, segments: seq<Segment>, uploads: seq<Upload>, forwards: seq<Option<seq<Part>>>): Gathered
    requires |uploads| == |forwards| == |segments|
  {
    Gathered(Body(env, segments), MediaIn(segments, uploads), LastWhere(segments, IsCard), MentionsIn(segments),
             LastWhere(segments, IsReply), ForwardParts(segments, forwards))
  }

  /** What one more segment adds. */
  function AddSegment(g: Gathered, env: Env, s: Segment, upload: Upload, forward: Option<seq<Part>>): Gathered {
    Gathered(
      g.text + BodyOf(env, s),
      g.media + (if HasMedia(s) then [Part("", Media(s, upload))] else []),
      if IsCard(s) then Some(s) else g.card,
      g.mentions + (if s.At? then [MatrixTarget(s.target)] else []),
      if IsReply(s) then Some(s) else g.reply,
      Both(g.forwards, if s.Forward? then forward else None))
  }

  lemma OneMore(env: Env, segments: seq<Segment>, uploads: seq<Upload>, forwards: seq<Option<seq<Part>>>, i: nat)
    requires |uploads| == |forwards| == |segments| && i < |segments|
    ensures Gather(env, segments[..i + 1], uploads[..i + 1], forwards[..i + 1]) ==
      AddSegment(Gather(env, segments[..i], uploads[..i], forwards[..i]), env, segments[i], uploads[i], forwards[i])
  {
    assert segments[..i + 1][..i] == segments[..i] && uploads[..i + 1][..i] == uploads[..i] && forwards[..i + 1][..i] == forwards[..i];
  }

  /** The loop's variables show what was gathered. */
  ghost predicate Tracks(m: Message, g: Gathered, part: Option<Part>, mentions: seq<string>, replyTo: Option<string>,
                         forwardParts: Option<seq<Part>>, b: Builder)
    reads b
  {
    && b.text == g.text && b.media == g.media && mentions == g.mentions && forwardParts == g.forwards
    && part == (if g.card.Some? then Some(Part("", Card(g.card.value))) else None)
    && (g.reply.Some? ==> g.reply.value.Reply?)
    && replyTo == (if g.reply.Some? then Some(Identifiers.ReplyTarget(m, g.reply.value.id)) else None)
  }

  /** One round of the loop. */
  method GatherOne(env: Env, m: Message, s: Segment, upload: Upload, forward: Option<seq<Part>>, ghost g: Gathered,
                   part0: Option<Part>, mentions0: seq<string>, replyTo0: Option<string>, forwardParts0: Option<seq<Part>>, b: Builder)
    returns (part: Option<Part>, mentions: seq<string>, replyTo: Option<string>, forwardParts: Option<seq<Part>>)
    requires Tracks(m, g, part0, mentions0, replyTo0, forwardParts0, b)
    modifies b
    ensures Tracks(m, AddSegment(g, env, s, upload, forward), part, mentions, replyTo, forwardParts, b)
  {
    part, replyTo, forwardParts := part0, replyTo0, forwardParts0;
    var card, more, reply := RenderAny(env, m, s, upload, b);
    mentions := mentions0 + more;
    if card.Some? {
      part := card;
    }
    if reply.Some? {
      replyTo := reply;
    }
    if s.Forward? && forward.Some? {
      forwardParts := if forwardParts.Some? then Some(forwardParts.value + forward.value) else forward;
    }
  }

  /** The loop of `OnebotToMatrix` over the segments. */
  method GatherSegments(env: Env, m: Message, segments: seq<Segment>, uploads: seq<Upload>, forwards: seq<Option<seq<Part>>>, b: Builder)
    returns (part: Option<Part>, mentions: seq<string>, replyTo: Option<string>, forwardParts: Option<seq<Part>>)
    requires |uploads| == |forwards| == |segments|
    requires b.text == "" && b.media == []
    modifies b
    ensures Tracks(m, Gather(env, segments, uploads, forwards), part, mentions, replyTo, forwardParts, b)
  {
    part, mentions, replyTo, forwardParts := None, [], None, None;
    ghost var g := Gather(env, [], [], []);
    for i := 0 to |segments|
      invariant g == Gather(env, segments[..i], uploads[..i], forwards[..i])
      invariant Tracks(m, g, part, mentions, replyTo, forwardParts, b)
    {
      OneMore(env, segments, uploads, forwards, i);
      part, mentions, replyTo, forwardParts :=
        GatherOne(env, m, segments[i], uploads[i], forwards[i], g, part, mentions, replyTo, forwardParts, b);
      g := AddSegment(g, env, segments[i], uploads[i], forwards[i]);
    }
    assert segments[..|segments|] == segments && uploads[..|uploads|] == uploads && forwards[..|forwards|] == forwards;
  }

  /** Picks the part of a message without converted forwards and makes sure it has an ID. */
  method Choose(card: Option<Part>, count: nat, b: Builder) returns (part: Part)
    requires card.Some? ==> card.value.id == ""
    requires forall p | p in b.media :: p.id == ""
    ensures part == if card.Some? then card.value.(id := "0")
      else if |b.media| == 1 && count <= 1 then b.media[0].(id := "0")
      else Part("0", Words(b.text))
  {
    if card.Some? {
      part := card.value;
    } else if count > 1 && |b.media| >= 1 {
      part := Part("", Words(b.text));
    } else if |b.media| == 1 {
      assert b.media[0] in b.media;
      part := b.media[0];
    } else {
      part := Part("", Words(b.text));
    }
    if part.id == "" {
      part := part.(id := "0");
    }
  }

  method OnebotToMatrix(env: Env, m: Message, segments: seq<Segment>, uploads: seq<Upload>, forwards: seq<Option<seq<Part>>>)
    returns (cm: Converted)
    requires |uploads| == |forwards| == |segments|
    ensures ForwardParts(segments, forwards).Some? ==> cm.parts == ForwardParts(segments, forwards).value && cm.mentions == []
    ensures ForwardParts(segments, forwards).None? ==>
      cm.parts == [PlainPart(env, segments, uploads)] && cm.mentions == MentionsIn(segments)
    ensures cm.replyTo ==
      var r := LastWhere(segments, IsReply);
      if r.Some? then Some(Identifiers.ReplyTarget(m, r.value.id)) else None
  {
    var b := new Builder();
    var part, mentions, replyTo, forwardParts := GatherSegments(env, m, segments, uploads, forwards, b);
    if forwardParts.Some? {
      return Converted(forwardParts.value, [], replyTo);
    }
    MediaUnnamed(segments, uploads);
    var chosen := Choose(part, |segments|, b);
    cm := Converted([chosen], mentions, replyTo);
  }

  lemma MediaUnnamed(segments: seq<Segment>, uploads: seq<Upload>)
    requires |uploads| == |segments|
    ensures forall p | p in MediaIn(segments, uploads) :: p.id == ""
  {
  }

  // ----- what each kind of segment becomes -----

  lemma BodyLast(env: Env, segments: seq<Segment>, s: Segment)
    ensures Body(env, segments + [s]) == Body(env, segments) + BodyOf(env, s)
  {
    assert (segments + [s])[..|segments|] == segments;
  }

  lemma {:induction false} BodyAppend(env: Env, a: seq<Segment>, b: seq<Segment>)
    ensures Body(env, a + b) == Body(env, a) + Body(env, b)
  {
    if b == [] {
      assert a + b == a;
    } else {
      var front, s := b[..|b| - 1], b[|b| - 1];
      assert b == front + [s];
      Regroup(a, front, [s]);
      BodyAppend(env, a, front);
      BodyLast(env, a + front, s);
      BodyLast(env, front, s);
      Regroup(Body(env, a), Body(env, front), BodyOf(env, s));
    }
  }

  lemma BodyAround(env: Env, segments: seq<Segment>, i: nat)
    requires i < |segments|
    ensures Body(env, segments) == Body(env, segments[..i]) + BodyOf(env, segments[i]) + Body(env, segments[i + 1..])
  {
    assert segments == segments[..i + 1] + segments[i + 1..] && segments[..i + 1] == segments[..i] + [segments[i]];
    BodyAppend(env, segments[..i + 1], segments[i + 1..]);
    BodyLast(env, segments[..i], segments[i]);
  }

  /** The body of a plain message shows each segment in its place: text as it is, mentions by name with
      everybody as "@room", pictures and other media by a word in brackets. */
  lemma BodyShows(env: Env, segments: seq<Segment>, i: nat)
    requires i < |segments|
    ensures Body(env, segments) == Body(env, segments[..i])
      + (match segments[i]
         case Text(t) => if env.agent == WeChat then env.wechatEmoji(t) else t
         case At(target) => if target == "all" then "@room" else "@" + target
         case Face(id) => "/" + env.faceName(id)
         case Image(_) => "[Image]"
         case MarketFace(_) => "[Image]"
         case Record(_) => "[Voice]"
         case Video(_) => "[Video]"
         case File(_) => "[File]"
         case Location(_) => "[location]"
         case Node(_) => "[node]"
         case XML(_) => "[xml]"
         case Share(_, _, _) => ""
         case JSON(_) => ""
         case Reply(_) => ""
         case Forward(_, _) => "")
      + Body(env, segments[i + 1..])
  {
    BodyAround(env, segments, i);
  }

  function MentionOf(s: Segment): seq<string> {
    if s.At? then [MatrixTarget(s.target)] else []
  }

  lemma {:induction false} MentionsAround(segments: seq<Segment>, i: nat)
    requires i < |segments|
    ensures MentionsIn(segments) == MentionsIn(segments[..i]) + MentionOf(segments[i]) + MentionsIn(segments[i + 1..])
    decreases |segments|
  {
    var n := |segments| - 1;
    if i < n {
      var front, after := segments[..n], segments[i + 1..];
      MentionsAround(front, i);
      SlicesAround(segments, i);
      Woven(MentionsIn(segments[..i]), MentionOf(segments[i]), MentionsIn(front[i + 1..]), MentionOf(segments[n]),
        MentionsIn(front), MentionsIn(segments), MentionsIn(after));
    } else {
      assert segments[i + 1..] == [];
    }
  }

  /** Each mention is reported in its place, everybody as "room"; nothing else is a mention. */
  lemma MentionsShow(segments: seq<Segment>, i: nat)
    requires i < |segments|
    ensures MentionsIn(segments) == MentionsIn(segments[..i])
      + (match segments[i] case At(target) => [if target == "all" then "room" else target] case _ => [])
      + MentionsIn(segments[i + 1..])
  {
    MentionsAround(segments, i);
  }

  function MediaOf(s: Segment, upload: Upload): seq<Part> {
    if HasMedia(s) then [Part("", Media(s, upload))] else []
  }

  lemma {:induction false} MediaAround(segments: seq<Segment>, uploads: seq<Upload>, i: nat)
    requires |uploads| == |segments| && i < |segments|
    ensures MediaIn(segments, uploads) == MediaIn(segments[..i], uploads[..i]) + MediaOf(segments[i], uploads[i])
      + MediaIn(segments[i + 1..], uploads[i + 1..])
    decreases |segments|
  {
    var n := |segments| - 1;
    if i < n {
      var front, after := segments[..n], segments[i + 1..];
      var frontUploads, afterUploads := uploads[..n], uploads[i + 1..];
      MediaAround(front, frontUploads, i);
      SlicesAround(segments, i);
      SlicesAround(uploads, i);
      Woven(MediaIn(segments[..i], uploads[..i]), MediaOf(segments[i], uploads[i]), MediaIn(front[i + 1..], frontUploads[i + 1..]),
        MediaOf(segments[n], uploads[n]), MediaIn(front, frontUploads), MediaIn(segments, uploads), MediaIn(after, afterUploads));
    } else {
      assert segments[i + 1..] == [] && uploads[i + 1..] == [];
    }
  }

  /** Each picture, market face, record, video and file is uploaded, with its own outcome and in its place;
      nothing else is. */
  lemma MediaShow(segments: seq<Segment>, uploads: seq<Upload>, i: nat)
    requires |uploads| == |segments| && i < |segments|
    ensures MediaIn(segments, uploads) == MediaIn(segments[..i], uploads[..i])
      + (match segments[i]
         case Image(_) => [Part("", Media(segments[i], uploads[i]))]
         case MarketFace(_) => [Part("", Media(segments[i], uploads[i]))]
         case Record(_) => [Part("", Media(segments[i], uploads[i]))]
         case Video(_) => [Part("", Media(segments[i], uploads[i]))]
         case File(_) => [Part("", Media(segments[i], uploads[i]))]
         case _ => [])
      + MediaIn(segments[i + 1..], uploads[i + 1..])
  {
    MediaAround(segments, uploads, i);
  }

  /** What one forward contributes. */
  function PartsFrom(s: Segment, forward: Option<seq<Part>>): Option<seq<Part>> {
    if s.Forward? then forward else None
  }

  lemma BothRegroup(a: Option<seq<Part>>, b: Option<seq<Part>>, c: Option<seq<Part>>)
    ensures Both(Both(a, b), c) == Both(a, Both(b, c))
  {
    if a.Some? && b.Some? && c.Some? {
      Regroup(a.value, b.value, c.value);
    }
  }

  /** Converted forwards contribute their parts each in its place, in the order of the forwards; segments
      that are no forwards, and forwards that could not be converted, contribute none. */
  lemma {:induction false} ForwardsShow(segments: seq<Segment>, forwards: seq<Option<seq<Part>>>, i: nat)
    requires |forwards| == |segments| && i < |segments|
    ensures ForwardParts(segments, forwards) == Both(
      Both(ForwardParts(segments[..i], forwards[..i]), if segments[i].Forward? then forwards[i] else None),
      ForwardParts(segments[i + 1..], forwards[i + 1..]))
    decreases |segments|
  {
    var n := |segments| - 1;
    var last := PartsFrom(segments[n], forwards[n]);
    assert ForwardParts(segments, forwards) == Both(ForwardParts(segments[..n], forwards[..n]), last);
    if i < n {
      var front, after := segments[..n], segments[i + 1..];
      var frontForwards, afterForwards := forwards[..n], forwards[i + 1..];
      ForwardsShow(front, frontForwards, i);
      SlicesAround(segments, i);
      SlicesAround(forwards, i);
      assert ForwardParts(after, afterForwards) == Both(ForwardParts(front[i + 1..], frontForwards[i + 1..]), last);
      BothRegroup(Both(ForwardParts(segments[..i], forwards[..i]), PartsFrom(segments[i], forwards[i])),
        ForwardParts(front[i + 1..], frontForwards[i + 1..]), last);
    } else {
      assert segments[i + 1..] == [] && forwards[i + 1..] == [];
    }
  }

  /** A segment that is the whole message: a picture, record, video or file becomes that media, a card
      that card, anything else its text; always as part "0". */
  lemma AloneBecomes(env: Env, s: Segment, upload: Upload)
    ensures PlainPart(env, [s], [upload]) == Part("0",
      match s
      case Image(_) => Media(s, upload)
      case MarketFace(_) => Media(s, upload)
      case Record(_) => Media(s, upload)
      case Video(_) => Media(s, upload)
      case File(_) => Media(s, upload)
      case Share(_, _, _) => Card(s)
      case JSON(_) => Card(s)
      case _ => Words(Body(env, [s])))
  {
    assert [s][..0] == [] && [upload][..0] == [];
    assert MediaIn([], []) == [];
    if HasMedia(s) {
      assert MediaIn([s], [upload]) == [] + [Part("", Media(s, upload))] == [Part("", Media(s, upload))];
    } else {
      assert MediaIn([s], [upload]) == [];
    }
  }

  /** Several segments: the last card if there is one, otherwise all their text. */
  lemma SeveralBecome(env: Env, segments: seq<Segment>, uploads: seq<Upload>)
    requires |uploads| == |segments| != 1
    ensures (forall s | s in segments :: !s.Share? && !s.JSON?) ==>
      PlainPart(env, segments, uploads) == Part("0", Words(Body(env, segments)))
    ensures forall i | 0 <= i < |segments| && (segments[i].Share? || segments[i].JSON?)
      && (forall j | i < j < |segments| :: !segments[j].Share? && !segments[j].JSON?) ::
        PlainPart(env, segments, uploads) == Part("0", Card(segments[i]))
  {
    var card := LastWhere(segments, IsCard);
    match card {
      case Some(s) =>
        var k :| 0 <= k < |segments| && segments[k] == s && NoneAfter(segments, IsCard, k);
        assert IsCard(s) && s in segments;
        forall i | 0 <= i < |segments| && (segments[i].Share? || segments[i].JSON?)
          && (forall j | i < j < |segments| :: !segments[j].Share? && !segments[j].JSON?)
          ensures PlainPart(env, segments, uploads) == Part("0", Card(segments[i]))
        {
          assert IsCard(segments[i]);
        }
      case None =>
        forall i | 0 <= i < |segments| ensures !segments[i].Share? && !segments[i].JSON? {
          assert segments[i] in segments && !IsCard(segments[i]);
        }
        assert |MediaIn(segments, uploads)| == 1 ==> segments != [];
    }
  }
}
