/** The OneBot data model: segments, messages, and the decoding of a message payload. */
module Onebot {

  /** A decoded segment. `Forward.content` is empty when the inline content is missing, empty or undecodable. */
  datatype Segment =
    | Text(text: string)
    | Face(id: string)
    | MarketFace(file: string)
    | Image(file: string)
    | Record(file: string)
    | Video(file: string)
    | File(file: string)
    | At(target: string)
    | Share(title: string, desc: string, url: string)
    | Location(title: string)
    | Reply(id: string)
    | Forward(id: string, content: seq<Message>)
    | Node(id: string)
    | XML(data: string)
    | JSON(data: string)

  /** One element of a weakly typed payload list: `Junk` is anything that decodes to no segment. */
  datatype Raw = Junk | Seg(segment: Segment)

  /** `NotAList` is any payload that is not a list. */
  datatype Payload = Items(items: seq<Raw>) | NotAList

  datatype Sender = Sender(userID: string, nickname: string)

  datatype Message = Message(
    postType: string, messageType: string, messageID: string, groupID: string, targetID: string,
    sender: Sender, payload: Payload)

  /** `generateSegments`: the decodable elements, in order. */
  function GenerateSegments(items: seq<Raw>): seq<Segment> {
    if items == [] then [] else
      var n := |items| - 1;
      GenerateSegments(items[..n]) + if items[n].Seg? then [items[n].segment] else []
  }

  lemma {:induction false} GenerateAppend(a: seq<Raw>, b: seq<Raw>)
    ensures GenerateSegments(a + b) == GenerateSegments(a) + GenerateSegments(b)
  {
    if b == [] {
      assert a + b == a;
    } else {
      var n := |b| - 1;
      assert (a + b)[..|a| + n] == a + b[..n];
      GenerateAppend(a, b[..n]);
    }
  }

  /** A lone element is decoded as it stands, whatever its kind, or skipped. */
  lemma GenerateOne(x: Raw)
    ensures GenerateSegments([x]) == match x case Seg(s) => [s] case Junk => []
  {
    assert [x][..0] == [];
  }

  /** Nothing is dropped or reordered when everything decodes. */
  lemma {:induction false} GenerateAll(items: seq<Raw>)
    requires forall x | x in items :: x.Seg?
    ensures |GenerateSegments(items)| == |items|
    ensures forall i | 0 <= i < |items| :: items[i] == Seg(GenerateSegments(items)[i])
  {
    if items != [] {
      var n := |items| - 1;
      assert items[n] in items;
      GenerateAll(items[..n]);
    }
  }

  lemma {:induction false} GeneratedFrom(items: seq<Raw>)
    ensures forall s | s in GenerateSegments(items) :: Seg(s) in items
  {
    if items != [] {
      GeneratedFrom(items[..|items| - 1]);
    }
  }

  /** The decoding loop: whatever decodes to no segment is skipped. */
  method DecodeSegments(items: seq<Raw>) returns (segments: seq<Segment>)
    ensures segments == GenerateSegments(items)
  {
    segments := [];
    for i := 0 to |items|
      invariant segments == GenerateSegments(items[..i])
    {
      assert items[..i + 1][..i] == items[..i];
      if items[i].Seg? {
        segments := segments + [items[i].segment];
      }
    }
    assert items[..|items|] == items;
  }
}
