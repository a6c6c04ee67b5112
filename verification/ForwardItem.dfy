/** Converting one flattened forward item (`convertMessageItem`), and the IDs of its parts. */
module ForwardItem {
  import opened Strings
  import opened Onebot
  import opened FromOnebot
  import Forward

  function Header(env: Env, sender: Sender): string {
    "[Forward]" + env.escape(sender.nickname) + "(" + env.escape(sender.userID) + ")\n"
  }

  function ImageMarkdownLine(env: Env, alt: string, url: string): string {
    "![" + env.escape(alt) + "](" + env.escape(url) + ")\n"
  }

  function PictureText(env: Env, upload: Upload, failure: string): string {
    if upload.url == "" then failure
    else ImageMarkdownLine(env, if upload.fileName == "" then "image" else upload.fileName, upload.url)
  }

  /** What one segment adds to the text of an item. */
  function ItemText(env: Env, s: Segment, upload: Upload): string {
    match s
    case At(target) => "@" + MatrixTarget(target)
    case Image(_) => PictureText(env, upload, "[图片-上传失败]\n")
    case MarketFace(_) => PictureText(env, upload, "[表情-上传失败]\n")
    case _ => SharedText(env, s)
  }

  const EMPTY_ITEM := "[空消息]\n"

  function Written(env: Env, segments: seq<Segment>, uploads: seq<Upload>): string
    requires |uploads| == |segments|
  {
    if segments == [] then "" else
      var n := |segments| - 1;
      Written(env, segments[..n], uploads[..n]) + ItemText(env, segments[n], uploads[n])
  }

  predicate AnyImage(segments: seq<Segment>) {
    exists s | s in segments :: s.Image?
  }

  function PartID(forwardId: nat, i: nat): string {
    Natural(forwardId) + ['-'] + Natural(i)
  }

  function SubPartID(forwardId: nat, i: nat, k: nat): string {
    Natural(forwardId) + ['-'] + (Natural(i) + ['-'] + Natural(k))
  }

  /** The text of an item; something visible even when nothing could be rendered. */
  function ItemBody(env: Env, sender: Sender, segments: seq<Segment>, uploads: seq<Upload>): string
    requires |uploads| == |segments|
  {
    var written := Written(env, segments, uploads);
    Header(env, sender) +
      if written == "" && MediaIn(segments, uploads) == [] && LastWhere(segments, IsCard).None? then EMPTY_ITEM else written
  }

  /** The parts of an item: the last card alone, the header and the only media, or one text. */
  function ItemParts(env: Env, sender: Sender, segments: seq<Segment>, uploads: seq<Upload>, forwardId: nat, i: nat): seq<Part>
    requires |uploads| == |segments|
  {
    var card := LastWhere(segments, IsCard);
    var media := MediaIn(segments, uploads);
    if card.Some? then [Part("", Card(card.value))]
    else if !AnyImage(segments) && |media| == 1 then
      [Part(SubPartID(forwardId, i, 0), Words(Header(env, sender))), media[0].(id := SubPartID(forwardId, i, 1))]
    else [Part(PartID(forwardId, i), Words(ItemBody(env, sender, segments, uploads)))]
  }

  // ----- the method -----

  /** What the segments the shared rendering leaves alone contribute to an item. */
  method RenderItemOwn(env: Env, s: Segment, upload: Upload, b: Builder)
    requires CallerOnly(s)
    modifies b
    ensures b.text == old(b.text) + ItemText(env, s, upload)
    ensures b.media == old(b.media) + if HasMedia(s) then [Part("", Media(s, upload))] else []
  {
    match s {
      case At(target) =>
        var t := if target == "all" then "room" else target;
        b.WriteString("@" + t);
      case Image(_) =>
        b.AppendMedia(Part("", Media(s, upload)));
        if upload.url != "" {
          var filename := if upload.fileName == "" then "image" else upload.fileName;
          b.WriteString(ImageMarkdownLine(env, filename, upload.url));
        } else {
          b.WriteString("[图片-上传失败]\n");
        }
      case MarketFace(_) =>
        b.AppendMedia(Part("", Media(s, upload)));
        if upload.url != "" {
          var filename := if upload.fileName == "" then "image" else upload.fileName;
          b.WriteString(ImageMarkdownLine(env, filename, upload.url));
        } else {
          b.WriteString("[表情-上传失败]\n");
        }
      case Reply(_) =>
      case Forward(_, _) =>
    }
  }

  method RenderItemSegment(env: Env, s: Segment, upload: Upload, b: Builder) returns (card: Option<Part>)
    modifies b
    ensures b.text == old(b.text) + ItemText(env, s, upload)
    ensures b.media == old(b.media) + if HasMedia(s) then [Part("", Media(s, upload))] else []
    ensures card == if IsCard(s) then Some(Part("", Card(s))) else None
  {
    var handled: bool;
    card, handled := RenderSegment(env, s, upload, b);
    if !handled {
      RenderItemOwn(env, s, upload, b);
    }
  }

  /** What the loop over an item's segments has gathered. */
  datatype ItemGathered = ItemGathered(written: string, media: seq<Part>, card: Option<Segment>, hasImage: bool)

  ghost function GatherItem(env: Env, segments: seq<Segment>, uploads: seq<Upload>): ItemGathered
    requires |uploads| == |segments|
  {
    ItemGathered(Written(env, segments, uploads), MediaIn(segments, uploads), LastWhere(segments, IsCard), AnyImage(segments))
  }

  function AddToItem(g: ItemGathered, env: Env, s: Segment, upload: Upload): ItemGathered {
    ItemGathered(
      g.written + ItemText(env, s, upload),
      g.media + (if HasMedia(s) then [Part("", Media(s, upload))] else []),
      if IsCard(s) then Some(s) else g.card,
      g.hasImage || s.Image?)
  }

  lemma OneMoreItem(env: Env, segments: seq<Segment>, uploads: seq<Upload>, i: nat)
    requires |uploads| == |segments| && i < |segments|
    ensures GatherItem(env, segments[..i + 1], uploads[..i + 1]) ==
      AddToItem(GatherItem(env, segments[..i], uploads[..i]), env, segments[i], uploads[i])
  {
    assert segments[..i + 1][..i] == segments[..i] && uploads[..i + 1][..i] == uploads[..i];
    assert segments[..i + 1] == segments[..i] + [segments[i]];
    assert segments[i] in segments[..i + 1];
  }

  /** The loop over the segments of an item. */
  method RenderItem(env: Env, segments: seq<Segment>, uploads: seq<Upload>, b: Builder) returns (part: Option<Part>, hasImage: bool)
    requires |uploads| == |segments| && b.media == []
    modifies b
    ensures var g := GatherItem(env, segments, uploads);
      && b.text == old(b.text) + g.written && b.media == g.media && hasImage == g.hasImage
      && part == (if g.card.Some? then Some(Part("", Card(g.card.value))) else None)
  {
    part, hasImage := None, false;
    ghost var g := GatherItem(env, [], []);
    for i := 0 to |segments|
      invariant g == GatherItem(env, segments[..i], uploads[..i])
      invariant b.text == old(b.text) + g.written && b.media == g.media && hasImage == g.hasImage
      invariant part == if g.card.Some? then Some(Part("", Card(g.card.value))) else None
    {
      OneMoreItem(env, segments, uploads, i);
      Regroup(old(b.text), g.written, ItemText(env, segments[i], uploads[i]));
      g := AddToItem(g, env, segments[i], uploads[i]);
      var p := RenderItemSegment(env, segments[i], uploads[i], b);
      if p.Some? {
        part := p;
      }
      if segments[i].Image? {
        hasImage := true;
      }
    }
    assert segments[..|segments|] == segments && uploads[..|uploads|] == uploads;
  }

  /** Puts the parts together once the segments are rendered. */
  method AssembleItem(card: Option<Part>, hasImage: bool, forwardInfo: string, forwardId: nat, i: nat, b: Builder)
    returns (local: seq<Part>)
    modifies b
    ensures local ==
      if card.Some? then [card.value]
      else if !hasImage && |old(b.media)| == 1 then
        [Part(SubPartID(forwardId, i, 0), Words(forwardInfo)), old(b.media)[0].(id := SubPartID(forwardId, i, 1))]
      else
        [Part(PartID(forwardId, i), Words(
          if old(b.media) == [] && |old(b.text)| == |forwardInfo| then old(b.text) + EMPTY_ITEM else old(b.text)))]
  {
    var part := card;
    local := [];
    if part.None? && |b.media| == 0 && |b.text| == |forwardInfo| {
      b.WriteString(EMPTY_ITEM);
    }
    if part.None? {
      if !hasImage && |b.media| == 1 {
        local := local + [Part(SubPartID(forwardId, i, 0), Words(forwardInfo))];
        part := Some(b.media[0].(id := SubPartID(forwardId, i, 1)));
      } else {
        part := Some(Part(PartID(forwardId, i), Words(b.text)));
      }
    }
    local := local + [part.value];
  }

  lemma HeaderAlone(header: string, written: string)
    ensures |header + written| == |header| <==> written == ""
    ensures "" + header == header && header + "" == header
  {
  }

  /** `convertMessageItem`: fails exactly on a payload that is not a list. */
  method ConvertMessageItem(env: Env, msg: Message, uploads: seq<Upload>, forwardId: nat, i: nat) returns (r: Result<seq<Part>, string>)
    requires |uploads| == |Forward.SegmentsOf(msg)|
    ensures r == ItemOutcome(env, msg, uploads, forwardId, i)
  {
    var b := new Builder();
    var forwardInfo := Header(env, msg.sender);
    b.WriteString(forwardInfo);
    if msg.payload.NotAList? {
      return Err(Forward.FAILED);
    }
    var segments := GenerateSegments(msg.payload.items);
    var part, hasImage := RenderItem(env, segments, uploads, b);
    HeaderAlone(forwardInfo, Written(env, segments, uploads));
    var local := AssembleItem(part, hasImage, forwardInfo, forwardId, i, b);
    r := Ok(local);
  }

  function ItemOutcome(env: Env, msg: Message, uploads: seq<Upload>, forwardId: nat, i: nat): Result<seq<Part>, string>
    requires |uploads| == |Forward.SegmentsOf(msg)|
  {
    if msg.payload.NotAList? then Err(Forward.FAILED)
    else Ok(ItemParts(env, msg.sender, Forward.SegmentsOf(msg), uploads, forwardId, i))
  }

  // ----- every item shows something -----

  lemma {:induction false} MediaShows(env: Env, segments: seq<Segment>, uploads: seq<Upload>)
    requires |uploads| == |segments|
    ensures MediaIn(segments, uploads) != [] ==> Written(env, segments, uploads) != ""
  {
    if segments != [] {
      var n := |segments| - 1;
      MediaShows(env, segments[..n], uploads[..n]);
    }
  }

  /** For every segment list an item gives one or two parts, and a single part that is not a card is a
      text that starts with the sender header and goes on after it. */
  lemma ItemShows(env: Env, sender: Sender, segments: seq<Segment>, uploads: seq<Upload>, forwardId: nat, i: nat)
    requires |uploads| == |segments|
    ensures var parts := ItemParts(env, sender, segments, uploads, forwardId, i);
      && 1 <= |parts| <= 2
      && (|parts| == 2 ==> parts[0].content == Words(Header(env, sender)) && parts[1].content.Media?)
      && (|parts| == 1 && !parts[0].content.Card? ==>
            parts[0].content.Words? && Header(env, sender) < parts[0].content.body)
    ensures ItemParts(env, sender, segments, uploads, forwardId, i)[0].content.Card? <==> exists s | s in segments :: IsCard(s)
  {
    MediaShows(env, segments, uploads);
    MediaAreMedia(segments, uploads);
  }

  lemma MediaAreMedia(segments: seq<Segment>, uploads: seq<Upload>)
    requires |uploads| == |segments|
    ensures forall p | p in MediaIn(segments, uploads) :: p.content.Media?
  {
  }

  /** Text is not always kept: the rendered text of an item is in one of its parts exactly when the item
      has no card and is not made of a single non-image media and other segments. */
  lemma ItemKeepsText(env: Env, sender: Sender, segments: seq<Segment>, uploads: seq<Upload>, forwardId: nat, i: nat)
    requires |uploads| == |segments|
    ensures (exists p | p in ItemParts(env, sender, segments, uploads, forwardId, i) ::
               p.content == Words(ItemBody(env, sender, segments, uploads)))
      <==> (forall s | s in segments :: !IsCard(s)) && (AnyImage(segments) || |MediaIn(segments, uploads)| != 1)
  {
    MediaShows(env, segments, uploads);
    MediaAreMedia(segments, uploads);
    var parts := ItemParts(env, sender, segments, uploads, forwardId, i);
    var body := ItemBody(env, sender, segments, uploads);
    assert |body| > |Header(env, sender)| || LastWhere(segments, IsCard).Some?;
    if LastWhere(segments, IsCard).None? && (AnyImage(segments) || |MediaIn(segments, uploads)| != 1) {
      assert parts[0] in parts;
    }
  }

  // ----- what each kind of segment becomes in an item -----

  lemma WrittenLast(env: Env, segments: seq<Segment>, uploads: seq<Upload>, s: Segment, upload: Upload)
    requires |uploads| == |segments|
    ensures Written(env, segments + [s], uploads + [upload]) == Written(env, segments, uploads) + ItemText(env, s, upload)
  {
    assert (segments + [s])[..|segments|] == segments && (uploads + [upload])[..|segments|] == uploads;
  }

  lemma {:induction false} WrittenAppend(env: Env, a: seq<Segment>, ua: seq<Upload>, b: seq<Segment>, ub: seq<Upload>)
    requires |ua| == |a| && |ub| == |b|
    ensures Written(env, a + b, ua + ub) == Written(env, a, ua) + Written(env, b, ub)
    decreases |b|
  {
    if b == [] {
      assert a + b == a && ua + ub == ua;
    } else {
      var n := |b| - 1;
      var front, s, frontUploads, upload := b[..n], b[n], ub[..n], ub[n];
      assert b == front + [s] && ub == frontUploads + [upload];
      Regroup(a, front, [s]);
      Regroup(ua, frontUploads, [upload]);
      WrittenAppend(env, a, ua, front, frontUploads);
      WrittenLast(env, a + front, ua + frontUploads, s, upload);
      WrittenLast(env, front, frontUploads, s, upload);
      Regroup(Written(env, a, ua), Written(env, front, frontUploads), ItemText(env, s, upload));
    }
  }

  lemma WrittenAround(env: Env, segments: seq<Segment>, uploads: seq<Upload>, k: nat)
    requires |uploads| == |segments| && k < |segments|
    ensures Written(env, segments, uploads) ==
      Written(env, segments[..k], uploads[..k]) + ItemText(env, segments[k], uploads[k]) + Written(env, segments[k + 1..], uploads[k + 1..])
  {
    assert segments == segments[..k + 1] + segments[k + 1..] && segments[..k + 1] == segments[..k] + [segments[k]];
    assert uploads == uploads[..k + 1] + uploads[k + 1..] && uploads[..k + 1] == uploads[..k] + [uploads[k]];
    WrittenAppend(env, segments[..k + 1], uploads[..k + 1], segments[k + 1..], uploads[k + 1..]);
    WrittenLast(env, segments[..k], uploads[..k], segments[k], uploads[k]);
  }

  /** The text of an item shows each segment in its place; quotes, forwards and cards leave no trace. */
  lemma WrittenShows(env: Env, segments: seq<Segment>, uploads: seq<Upload>, k: nat)
    requires |uploads| == |segments| && k < |segments|
    ensures Written(env, segments, uploads) == Written(env, segments[..k], uploads[..k])
      + (match segments[k]
         case Text(t) => if env.agent == WeChat then env.wechatEmoji(t) else t
         case At(target) => if target == "all" then "@room" else "@" + target
         case Face(id) => "/" + env.faceName(id)
         case Image(_) => if uploads[k].url == "" then "[图片-上传失败]\n" else PictureLine(env, uploads[k])
         case MarketFace(_) => if uploads[k].url == "" then "[表情-上传失败]\n" else PictureLine(env, uploads[k])
         case Record(_) => "[Voice]"
         case Video(_) => "[Video]"
         case File(_) => "[File]"
         case Location(_) => "[location]"
         case Node(_) => "[node]"
         case XML(_) => "[xml]"
         case Share(_, _, _) => ""
         case JSON(_) => ""
         case Reply(_) => ""
         case Forward(_, _) => "")
      + Written(env, segments[k + 1..], uploads[k + 1..])
  {
    WrittenAround(env, segments, uploads, k);
  }

  /** The Markdown line of an uploaded picture. */
  function PictureLine(env: Env, upload: Upload): string {
    "![" + env.escape(if upload.fileName == "" then "image" else upload.fileName) + "](" + env.escape(upload.url) + ")\n"
  }

  /** An item without card that is not a lone media other than a picture is one text: the sender's header and
      what the segments wrote, or a notice if that is nothing. */
  lemma TextItem(env: Env, sender: Sender, segments: seq<Segment>, uploads: seq<Upload>, forwardId: nat, i: nat)
    requires |uploads| == |segments| && forall s | s in segments :: !s.Share? && !s.JSON?
    requires (exists s :: s in segments && s.Image?) || |MediaIn(segments, uploads)| != 1
    ensures var header := "[Forward]" + env.escape(sender.nickname) + "(" + env.escape(sender.userID) + ")\n";
      var written := Written(env, segments, uploads);
      ItemParts(env, sender, segments, uploads, forwardId, i) ==
        [Part(Natural(forwardId) + "-" + Natural(i), Words(if written == "" then header + "[空消息]\n" else header + written))]
  {
    MediaShows(env, segments, uploads);
  }

  /** A picture or market face in such an item: with its link if the upload has a URL, after what the
      segments before it wrote and before what those after it wrote, and otherwise with its own notice. */
  lemma PicturesShow(env: Env, sender: Sender, segments: seq<Segment>, uploads: seq<Upload>, forwardId: nat, i: nat, k: nat)
    requires |uploads| == |segments| && forall s | s in segments :: !s.Share? && !s.JSON?
    requires (exists s :: s in segments && s.Image?) || |MediaIn(segments, uploads)| != 1
    requires k < |segments| && (segments[k].Image? || segments[k].MarketFace?)
    ensures var header := "[Forward]" + env.escape(sender.nickname) + "(" + env.escape(sender.userID) + ")\n";
      var before, after := Written(env, segments[..k], uploads[..k]), Written(env, segments[k + 1..], uploads[k + 1..]);
      var name := if uploads[k].fileName == "" then "image" else uploads[k].fileName;
      var picture :=
        if uploads[k].url != "" then "![" + env.escape(name) + "](" + env.escape(uploads[k].url) + ")\n"
        else if segments[k].Image? then "[图片-上传失败]\n" else "[表情-上传失败]\n";
      ItemParts(env, sender, segments, uploads, forwardId, i) ==
        [Part(Natural(forwardId) + "-" + Natural(i), Words(header + (before + picture + after)))]
  {
    TextItem(env, sender, segments, uploads, forwardId, i);
    WrittenShows(env, segments, uploads, k);
    assert Written(env, segments, uploads) != "" by {
      WrittenAround(env, segments, uploads, k);
    }
  }

  lemma {:induction false} NoMediaHere(segments: seq<Segment>, uploads: seq<Upload>)
    requires |uploads| == |segments| && forall s | s in segments :: !HasMedia(s)
    ensures MediaIn(segments, uploads) == []
  {
    if segments != [] {
      var n := |segments| - 1;
      assert segments[n] in segments;
      NoMediaHere(segments[..n], uploads[..n]);
    }
  }

  /** A lone record, video, file or market face becomes two parts: the header, and that media. */
  lemma LoneMedia(env: Env, sender: Sender, segments: seq<Segment>, uploads: seq<Upload>, forwardId: nat, i: nat, k: nat)
    requires |uploads| == |segments| && k < |segments|
    requires segments[k].Record? || segments[k].Video? || segments[k].File? || segments[k].MarketFace?
    requires forall j | 0 <= j < |segments| && j != k :: !HasMedia(segments[j]) && !segments[j].Share? && !segments[j].JSON?
    ensures ItemParts(env, sender, segments, uploads, forwardId, i) ==
      [ Part(Natural(forwardId) + "-" + Natural(i) + "-0",
          Words("[Forward]" + env.escape(sender.nickname) + "(" + env.escape(sender.userID) + ")\n")),
        Part(Natural(forwardId) + "-" + Natural(i) + "-1", Media(segments[k], uploads[k])) ]
  {
    LoneMediaIn(segments, uploads, k);
    forall s | s in segments ensures !IsCard(s) && !s.Image? {
      var j :| 0 <= j < |segments| && segments[j] == s;
    }
    SubPartIDsAre(forwardId, i);
  }

  lemma LoneMediaIn(segments: seq<Segment>, uploads: seq<Upload>, k: nat)
    requires |uploads| == |segments| && k < |segments| && HasMedia(segments[k])
    requires forall j | 0 <= j < |segments| && j != k :: !HasMedia(segments[j])
    ensures MediaIn(segments, uploads) == [Part("", Media(segments[k], uploads[k]))]
  {
    NoMediaHere(segments[..k], uploads[..k]);
    NoMediaHere(segments[k + 1..], uploads[k + 1..]);
    MediaAround(segments, uploads, k);
  }

  lemma SubPartIDsAre(forwardId: nat, i: nat)
    ensures SubPartID(forwardId, i, 0) == Natural(forwardId) + "-" + Natural(i) + "-0"
    ensures SubPartID(forwardId, i, 1) == Natural(forwardId) + "-" + Natural(i) + "-1"
  {
    var f, n := Natural(forwardId), Natural(i);
    assert Natural(0) == "0" && Natural(1) == "1";
    assert f + ['-'] + (n + ['-'] + "0") == f + "-" + n + "-0";
    assert f + ['-'] + (n + ['-'] + "1") == f + "-" + n + "-1";
  }

  /** An item with cards is its last card alone. */
  lemma CardItem(env: Env, sender: Sender, segments: seq<Segment>, uploads: seq<Upload>, forwardId: nat, i: nat, k: nat)
    requires |uploads| == |segments| && k < |segments| && (segments[k].Share? || segments[k].JSON?)
    requires forall j | k < j < |segments| :: !segments[j].Share? && !segments[j].JSON?
    ensures ItemParts(env, sender, segments, uploads, forwardId, i) == [Part("", Card(segments[k]))]
  {
    assert IsCard(segments[k]) && segments[k] in segments;
  }

  // ----- part IDs -----

  lemma PartIDParse(forwardId: nat, i: nat, k: nat)
    ensures Cut(PartID(forwardId, i), '-') == Some((Natural(forwardId), Natural(i))) && Cut(Natural(i), '-') == None
    ensures Cut(SubPartID(forwardId, i, k), '-') == Some((Natural(forwardId), Natural(i) + ['-'] + Natural(k)))
    ensures Cut(Natural(i) + ['-'] + Natural(k), '-') == Some((Natural(i), Natural(k)))
  {
    assert '-' !in Natural(forwardId) && '-' !in Natural(i);
    CutJoined(Natural(forwardId), '-', Natural(i));
    CutJoined(Natural(forwardId), '-', Natural(i) + ['-'] + Natural(k));
    CutJoined(Natural(i), '-', Natural(k));
  }

  /** What a part ID says: which item, and which of its parts. */
  datatype Address = Whole(i: nat) | Sub(i: nat, k: nat)

  function AddressID(forwardId: nat, a: Address): string {
    match a
    case Whole(i) => PartID(forwardId, i)
    case Sub(i, k) => SubPartID(forwardId, i, k)
  }

  lemma AddressInjective(forwardId: nat, a: Address, b: Address)
    ensures AddressID(forwardId, a) == AddressID(forwardId, b) <==> a == b
  {
    PartIDParse(forwardId, a.i, if a.Sub? then a.k else 0);
    PartIDParse(forwardId, b.i, if b.Sub? then b.k else 0);
    NaturalRoundTrip(a.i);
    NaturalRoundTrip(b.i);
    if a.Sub? && b.Sub? {
      NaturalRoundTrip(a.k);
      NaturalRoundTrip(b.k);
    }
  }

  /** The root of a forward's thread is stored under part "0". */
  const ROOT := "0"

  lemma AfterRoot(forwardId: nat, a: Address)
    ensures Before(ROOT, AddressID(forwardId, a)) && AddressID(forwardId, a) != ROOT
  {
    var id := AddressID(forwardId, a);
    var n := Natural(forwardId);
    assert |id| > |n| && id[..|n|] == n;
    assert id[0] == n[0] && IsDigit(n[0]);
    if forwardId == 0 {
      assert ROOT[1..] == "" && id[1..] != "";
    }
  }

  /** One flattened item as the parts see it. */
  datatype Item = Item(sender: Sender, segments: seq<Segment>, uploads: seq<Upload>)

  predicate ItemOk(x: Item) {
    |x.uploads| == |x.segments|
  }

  predicate HasCard(x: Item) {
    exists s | s in x.segments :: IsCard(s)
  }

  function PartsOf(env: Env, items: seq<Item>, forwardId: nat, i: nat): seq<Part>
    requires i < |items| && ItemOk(items[i])
  {
    ItemParts(env, items[i].sender, items[i].segments, items[i].uploads, forwardId, i)
  }

  ghost predicate DistinctIDs(env: Env, items: seq<Item>, forwardId: nat)
    requires forall x | x in items :: ItemOk(x)
  {
    forall i: nat, p: nat, j: nat, q: nat |
      && i < |items| && p < |PartsOf(env, items, forwardId, i)|
      && j < |items| && q < |PartsOf(env, items, forwardId, j)| && (i != j || p != q) ::
        PartsOf(env, items, forwardId, i)[p].id != PartsOf(env, items, forwardId, j)[q].id
  }

  ghost predicate AllAfterRoot(env: Env, items: seq<Item>, forwardId: nat)
    requires forall x | x in items :: ItemOk(x)
  {
    forall i: nat, p: nat | i < |items| && p < |PartsOf(env, items, forwardId, i)| ::
      PartsOf(env, items, forwardId, i)[p].id != ROOT && Before(ROOT, PartsOf(env, items, forwardId, i)[p].id)
  }

  function AddressOf(env: Env, items: seq<Item>, forwardId: nat, i: nat, p: nat): Address
    requires i < |items| && ItemOk(items[i])
  {
    if |PartsOf(env, items, forwardId, i)| == 2 then Sub(i, p) else Whole(i)
  }

  lemma IDOf(env: Env, items: seq<Item>, forwardId: nat, i: nat, p: nat)
    requires i < |items| && ItemOk(items[i]) && p < |PartsOf(env, items, forwardId, i)|
    ensures PartsOf(env, items, forwardId, i)[p].id ==
      if HasCard(items[i]) then "" else AddressID(forwardId, AddressOf(env, items, forwardId, i, p))
    ensures HasCard(items[i]) ==> |PartsOf(env, items, forwardId, i)| == 1
    ensures |PartsOf(env, items, forwardId, i)| <= 2
  {
    ItemShows(env, items[i].sender, items[i].segments, items[i].uploads, forwardId, i);
  }

  /** The part IDs of one forward are pairwise distinct exactly when at most one item is a card: cards
      carry no ID of their own. */
  lemma PartIDsDistinct(env: Env, items: seq<Item>, forwardId: nat)
    requires forall x | x in items :: ItemOk(x)
    ensures DistinctIDs(env, items, forwardId) <==>
      forall i, j | 0 <= i < j < |items| :: !HasCard(items[i]) || !HasCard(items[j])
  {
    if forall i, j | 0 <= i < j < |items| :: !HasCard(items[i]) || !HasCard(items[j]) {
      forall i: nat, p: nat, j: nat, q: nat |
        && i < |items| && p < |PartsOf(env, items, forwardId, i)|
        && j < |items| && q < |PartsOf(env, items, forwardId, j)| && (i != j || p != q)
        ensures PartsOf(env, items, forwardId, i)[p].id != PartsOf(env, items, forwardId, j)[q].id
      {
        IDOf(env, items, forwardId, i, p);
        IDOf(env, items, forwardId, j, q);
        AfterRoot(forwardId, AddressOf(env, items, forwardId, i, p));
        AfterRoot(forwardId, AddressOf(env, items, forwardId, j, q));
        AddressInjective(forwardId, AddressOf(env, items, forwardId, i, p), AddressOf(env, items, forwardId, j, q));
      }
    } else {
      var i, j :| 0 <= i < j < |items| && HasCard(items[i]) && HasCard(items[j]);
      assert |PartsOf(env, items, forwardId, i)| > 0 && |PartsOf(env, items, forwardId, j)| > 0;
      IDOf(env, items, forwardId, i, 0);
      IDOf(env, items, forwardId, j, 0);
    }
  }

  /** Every part differs from the thread root and sorts after it exactly when no item is a card. */
  lemma PartIDsAfterRoot(env: Env, items: seq<Item>, forwardId: nat)
    requires forall x | x in items :: ItemOk(x)
    ensures AllAfterRoot(env, items, forwardId) <==> forall x | x in items :: !HasCard(x)
  {
    if forall x | x in items :: !HasCard(x) {
      forall i: nat, p: nat | i < |items| && p < |PartsOf(env, items, forwardId, i)|
        ensures PartsOf(env, items, forwardId, i)[p].id != ROOT && Before(ROOT, PartsOf(env, items, forwardId, i)[p].id)
      {
        IDOf(env, items, forwardId, i, p);
        AfterRoot(forwardId, AddressOf(env, items, forwardId, i, p));
      }
    } else {
      var x :| x in items && HasCard(x);
      var i :| 0 <= i < |items| && items[i] == x;
      assert |PartsOf(env, items, forwardId, i)| > 0;
      IDOf(env, items, forwardId, i, 0);
    }
  }
}
