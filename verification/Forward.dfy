/** Flattening nested merge-forwards into one list (`flattenForward`). */
module Forward {
  import opened Strings
  import opened Onebot

  const MAX_FORWARD_DEPTH := 10

  const FAILED := "failed msg.Message as []any"

  /** Stands in for a forward whose content is missing. */
  function Placeholder(forwardID: string): Message {
    var text := "[Chat History] 嵌套转发消息加载失败" + (if forwardID == "" then "" else " (id: " + forwardID + ")");
    Message("", "", "", "", "", Sender("", "unknown"), Items([Seg(Text(text))]))
  }

  /** The stand-in names the forward, if it has an ID, and says that it could not be loaded. */
  lemma PlaceholderSays(id: string)
    ensures Placeholder(id).sender == Sender("", "unknown")
    ensures SegmentsOf(Placeholder("")) == [Text("[Chat History] 嵌套转发消息加载失败")]
    ensures id != "" ==> SegmentsOf(Placeholder(id)) == [Text("[Chat History] 嵌套转发消息加载失败 (id: " + id + ")")]
  {
    var failed := "[Chat History] 嵌套转发消息加载失败";
    assert failed + "" == failed;
    assert failed + (" (id: " + id + ")") == "[Chat History] 嵌套转发消息加载失败 (id: " + id + ")";
    GenerateOne(Placeholder("").payload.items[0]);
    GenerateOne(Placeholder(id).payload.items[0]);
  }

  predicate IsPlaceholder(m: Message) {
    m.payload.Items? && |m.payload.items| == 1 && m.payload.items[0].Seg? && m.payload.items[0].segment.Text?
  }

  function SegmentsOf(m: Message): seq<Segment> {
    if m.payload.Items? then GenerateSegments(m.payload.items) else []
  }

  predicate AnyForward(segments: seq<Segment>) {
    exists s | s in segments :: s.Forward?
  }

  predicate HasForward(m: Message) {
    AnyForward(SegmentsOf(m))
  }

  /** The messages the forwards among `segments` hold, in order. */
  function Inner(segments: seq<Segment>): seq<Message> {
    if segments == [] then []
    else InnerOf(segments[0]) + Inner(segments[1..])
  }

  function InnerOf(s: Segment): seq<Message> {
    if !s.Forward? then [] else if s.content == [] then [Placeholder(s.id)] else s.content
  }

  // ----- what flattening computes -----

  /** In-order expansion of a list found at `depth`; lists deeper than the limit are left as they are. */
  function Expand(msgs: seq<Message>, depth: nat): Result<seq<Message>, string>
    decreases MAX_FORWARD_DEPTH + 1 - depth, |msgs|, 1
  {
    if depth > MAX_FORWARD_DEPTH then Ok(msgs)
    else if msgs == [] then Ok([])
    else
      var head := ExpandOne(msgs[0], depth);
      var tail := Expand(msgs[1..], depth);
      if head.Err? then head else if tail.Err? then tail else Ok(head.value + tail.value)
  }

  function ExpandOne(m: Message, depth: nat): Result<seq<Message>, string>
    requires depth <= MAX_FORWARD_DEPTH
    decreases MAX_FORWARD_DEPTH + 1 - depth, 0, 0
  {
    if m.payload.NotAList? then Err(FAILED)
    else if !HasForward(m) then Ok([m])
    else Expand(Inner(SegmentsOf(m)), depth + 1)
  }

  lemma {:induction false} InnerAppend(a: seq<Segment>, b: seq<Segment>)
    ensures Inner(a + b) == Inner(a) + Inner(b)
  {
    if a == [] {
      assert a + b == b;
    } else {
      assert (a + b)[1..] == a[1..] + b;
      InnerAppend(a[1..], b);
    }
  }

  lemma InnerNext(done: seq<Segment>, s: Segment)
    ensures Inner(done + [s]) == Inner(done) + InnerOf(s)
    ensures AnyForward(done + [s]) <==> AnyForward(done) || s.Forward?
  {
    InnerAppend(done, [s]);
    assert [s][1..] == [] && Inner([s]) == InnerOf(s) + Inner([]);
    assert s in done + [s];
  }

  /** Flattening distributes over concatenation: it fails when one half does, and otherwise yields the
      halves' results one after the other. */
  lemma {:induction false} ExpandAppend(a: seq<Message>, b: seq<Message>, depth: nat)
    ensures Expand(a + b, depth).Ok? <==> Expand(a, depth).Ok? && Expand(b, depth).Ok?
    ensures Expand(a + b, depth).Ok? ==> Expand(a + b, depth).value == Expand(a, depth).value + Expand(b, depth).value
  {
    if depth <= MAX_FORWARD_DEPTH {
      if a == [] {
        assert a + b == b;
      } else {
        assert (a + b)[1..] == a[1..] + b;
        ExpandAppend(a[1..], b, depth);
      }
    }
  }

  lemma ExpandSingle(m: Message, depth: nat)
    requires depth <= MAX_FORWARD_DEPTH
    ensures Expand([m], depth) == ExpandOne(m, depth)
  {
    assert [m][1..] == [] && Expand([], depth) == Ok([]);
    var head := ExpandOne(m, depth);
    if head.Ok? {
      assert head.value + [] == head.value;
    }
  }

  lemma ExpandNext(msgs: seq<Message>, i: nat, depth: nat)
    requires i < |msgs| && depth <= MAX_FORWARD_DEPTH && Expand(msgs[..i], depth).Ok?
    ensures Expand(msgs[..i + 1], depth).Ok? <==> ExpandOne(msgs[i], depth).Ok?
    ensures ExpandOne(msgs[i], depth).Ok? ==>
      Expand(msgs[..i + 1], depth) == Ok(Expand(msgs[..i], depth).value + ExpandOne(msgs[i], depth).value)
    ensures ExpandOne(msgs[i], depth).Err? ==> Expand(msgs, depth).Err?
  {
    assert msgs[..i + 1] == msgs[..i] + [msgs[i]] && msgs == msgs[..i + 1] + msgs[i + 1..];
    ExpandSingle(msgs[i], depth);
    ExpandAppend(msgs[..i], [msgs[i]], depth);
    ExpandAppend(msgs[..i + 1], msgs[i + 1..], depth);
  }

  lemma {:induction false} ErrorIsFailed(msgs: seq<Message>, depth: nat)
    ensures Expand(msgs, depth).Err? ==> Expand(msgs, depth).error == FAILED
    decreases MAX_FORWARD_DEPTH + 1 - depth, |msgs|
  {
    if depth <= MAX_FORWARD_DEPTH && msgs != [] {
      ErrorIsFailed(msgs[1..], depth);
      if HasForward(msgs[0]) {
        ErrorIsFailed(Inner(SegmentsOf(msgs[0])), depth + 1);
      }
    }
  }

  // ----- the walk -----

  class Flattener {
    var result: seq<Message>

    constructor ()
      ensures result == []
    {
      result := [];
    }

    /** The recursive walk appending to `result`; `ok` is false when it stopped with an error. */
    method Walk(msgs: seq<Message>, depth: nat) returns (ok: bool)
      modifies this
      ensures ok <==> Expand(msgs, depth).Ok?
      ensures ok ==> result == old(result) + Expand(msgs, depth).value
      decreases MAX_FORWARD_DEPTH + 1 - depth, 1
    {
      if depth > MAX_FORWARD_DEPTH {
        result := result + msgs;
        return true;
      }
      ghost var done: seq<Message> := [];
      for i := 0 to |msgs|
        invariant Expand(msgs[..i], depth) == Ok(done)
        invariant result == old(result) + done
      {
        ExpandNext(msgs, i, depth);
        var walked := WalkOne(msgs[i], depth);
        if !walked {
          return false;
        }
        Regroup(old(result), done, ExpandOne(msgs[i], depth).value);
        done := done + ExpandOne(msgs[i], depth).value;
      }
      assert msgs[..|msgs|] == msgs;
      return true;
    }

    /** The body of the walk's loop. */
    method WalkOne(msg: Message, depth: nat) returns (ok: bool)
      requires depth <= MAX_FORWARD_DEPTH
      modifies this
      ensures ok <==> ExpandOne(msg, depth).Ok?
      ensures ok ==> result == old(result) + ExpandOne(msg, depth).value
      decreases MAX_FORWARD_DEPTH + 1 - depth, 0
    {
      if msg.payload.NotAList? {
        return false;
      }
      var hasForward, inner := CollectInner(GenerateSegments(msg.payload.items));
      if hasForward {
        ok := Walk(inner, depth + 1);
      } else {
        result := result + [msg];
        ok := true;
      }
    }

    /** The loop over one message's segments. */
    static method CollectInner(segments: seq<Segment>) returns (hasForward: bool, inner: seq<Message>)
      ensures hasForward == AnyForward(segments)
      ensures inner == Inner(segments)
    {
      hasForward, inner := false, [];
      ghost var done: seq<Segment> := [];
      for i := 0 to |segments|
        invariant done == segments[..i]
        invariant hasForward == AnyForward(done)
        invariant inner == Inner(done)
      {
        var s := segments[i];
        InnerNext(done, s);
        if s.Forward? {
          hasForward := true;
          if s.content == [] {
            inner := inner + [Placeholder(s.id)];
          } else {
            inner := inner + s.content;
          }
        }
        done := done + [s];
      }
      assert segments[..|segments|] == segments;
    }
  }

  method FlattenForward(data: seq<Message>) returns (r: Result<seq<Message>, string>)
    ensures r == Expand(data, 0)
  {
    var f := new Flattener();
    var ok := f.Walk(data, 0);
    ErrorIsFailed(data, 0);
    if ok {
      assert [] + Expand(data, 0).value == Expand(data, 0).value;
      r := Ok(f.result);
    } else {
      r := Err(FAILED);
    }
  }

  // ----- which messages there are at which depth -----

  /** The messages directly inside the forwards of `msgs`. */
  function Below(msgs: seq<Message>): seq<Message> {
    if msgs == [] then [] else Inner(SegmentsOf(msgs[0])) + Below(msgs[1..])
  }

  /** All messages nested `depth` forwards deep. */
  function Level(msgs: seq<Message>, depth: nat): seq<Message>
    decreases depth
  {
    if depth == 0 then msgs else Level(Below(msgs), depth - 1)
  }

  ghost predicate BadWithin(msgs: seq<Message>, depth: nat) {
    exists d: nat :: d <= depth && exists m :: m in Level(msgs, d) && m.payload.NotAList?
  }

  lemma {:induction false} BelowAppend(a: seq<Message>, b: seq<Message>)
    ensures Below(a + b) == Below(a) + Below(b)
  {
    if a == [] {
      assert a + b == b;
    } else {
      assert (a + b)[1..] == a[1..] + b;
      BelowAppend(a[1..], b);
    }
  }

  lemma {:induction false} LevelAppend(a: seq<Message>, b: seq<Message>, depth: nat)
    ensures Level(a + b, depth) == Level(a, depth) + Level(b, depth)
    decreases depth
  {
    if depth > 0 {
      BelowAppend(a, b);
      LevelAppend(Below(a), Below(b), depth - 1);
    }
  }

  lemma {:induction false} InnerEmpty(segments: seq<Segment>)
    ensures Inner(segments) == [] <==> !AnyForward(segments)
  {
    if segments != [] {
      InnerEmpty(segments[1..]);
      assert forall s | s in segments :: s == segments[0] || s in segments[1..];
    }
  }

  lemma {:induction false} EmptyLevel(depth: nat)
    ensures Level([], depth) == []
  {
    if depth > 0 {
      EmptyLevel(depth - 1);
    }
  }

  lemma BadAppend(a: seq<Message>, b: seq<Message>, depth: nat)
    ensures BadWithin(a + b, depth) <==> BadWithin(a, depth) || BadWithin(b, depth)
  {
    forall d: nat ensures Level(a + b, d) == Level(a, d) + Level(b, d) {
      LevelAppend(a, b, d);
    }
  }

  lemma BadBelow(m: Message, depth: nat)
    ensures BadWithin([m], depth) <==> m.payload.NotAList? || (depth > 0 && BadWithin(Inner(SegmentsOf(m)), depth - 1))
  {
    assert Below([m]) == Inner(SegmentsOf(m)) + [];
    assert Level([m], 0) == [m];
    assert Below([m]) == Inner(SegmentsOf(m));
    assert forall d: nat | d > 0 :: Level([m], d) == Level(Inner(SegmentsOf(m)), d - 1);
    if m.payload.NotAList? {
      assert m in Level([m], 0);
    } else if depth > 0 && BadWithin(Inner(SegmentsOf(m)), depth - 1) {
      var d: nat :| d <= depth - 1 && exists x :: x in Level(Inner(SegmentsOf(m)), d) && x.payload.NotAList?;
      assert Level([m], d + 1) == Level(Inner(SegmentsOf(m)), d);
    }
  }

  lemma NothingBad(depth: nat)
    ensures !BadWithin([], depth)
  {
    forall d: nat ensures Level([], d) == [] {
      EmptyLevel(d);
    }
  }

  /** Flattening fails exactly when some message nested at most ten forwards deep has a payload that is not a list. */
  lemma {:induction false} ExpandFails(msgs: seq<Message>, depth: nat)
    requires depth <= MAX_FORWARD_DEPTH
    ensures Expand(msgs, depth).Err? <==> BadWithin(msgs, MAX_FORWARD_DEPTH - depth)
    decreases MAX_FORWARD_DEPTH + 1 - depth, |msgs|, 1
  {
    if msgs == [] {
      NothingBad(MAX_FORWARD_DEPTH - depth);
    } else {
      ExpandOneFails(msgs[0], depth);
      ExpandFails(msgs[1..], depth);
      BadAppend([msgs[0]], msgs[1..], MAX_FORWARD_DEPTH - depth);
      assert msgs == [msgs[0]] + msgs[1..];
    }
  }

  lemma {:induction false} ExpandOneFails(m: Message, depth: nat)
    requires depth <= MAX_FORWARD_DEPTH
    ensures ExpandOne(m, depth).Err? <==> BadWithin([m], MAX_FORWARD_DEPTH - depth)
    decreases MAX_FORWARD_DEPTH + 1 - depth, 0, 0
  {
    BadBelow(m, MAX_FORWARD_DEPTH - depth);
    if !HasForward(m) {
      InnerEmpty(SegmentsOf(m));
      NothingBad(if depth < MAX_FORWARD_DEPTH then MAX_FORWARD_DEPTH - depth - 1 else 0);
    } else if depth < MAX_FORWARD_DEPTH {
      ExpandFails(Inner(SegmentsOf(m)), depth + 1);
    }
  }

  /** The whole flattening: it fails exactly for a bad payload nested at most ten forwards deep. */
  lemma FlattenFails(msgs: seq<Message>)
    ensures Expand(msgs, 0).Err? <==> BadWithin(msgs, 10)
  {
    ExpandFails(msgs, 0);
  }

  // ----- completeness -----

  lemma InsideSmaller(m: Message)
    ensures forall s | s in SegmentsOf(m) && s.Forward? :: forall c | c in s.content :: c < m
  {
    if m.payload.Items? {
      GeneratedFrom(m.payload.items);
      forall s | s in SegmentsOf(m) && s.Forward? ensures forall c | c in s.content :: c < m {
        assert Seg(s) in m.payload.items;
      }
    }
  }

  /** Every message without forwards below `m`, left to right, however deep. */
  ghost function Leaves(m: Message): seq<Message>
    decreases m, 2, 0
  {
    InsideSmaller(m);
    if HasForward(m) then SegmentLeaves(m, SegmentsOf(m)) else [m]
  }

  ghost function SegmentLeaves(m: Message, segments: seq<Segment>): seq<Message>
    requires forall s | s in segments && s.Forward? :: forall c | c in s.content :: c < m
    decreases m, 1, |segments|
  {
    if segments == [] then []
    else
      var s := segments[0];
      (if !s.Forward? then [] else if s.content == [] then [Placeholder(s.id)] else MessageLeaves(m, s.content))
        + SegmentLeaves(m, segments[1..])
  }

  ghost function MessageLeaves(outer: Message, msgs: seq<Message>): seq<Message>
    requires forall c | c in msgs :: c < outer
    decreases outer, 0, |msgs|
  {
    if msgs == [] then []
    else
      assert msgs[0] in msgs && forall c | c in msgs[1..] :: c in msgs;
      Leaves(msgs[0]) + MessageLeaves(outer, msgs[1..])
  }

  ghost function AllLeaves(msgs: seq<Message>): seq<Message> {
    if msgs == [] then [] else Leaves(msgs[0]) + AllLeaves(msgs[1..])
  }

  lemma {:induction false} AllLeavesAppend(a: seq<Message>, b: seq<Message>)
    ensures AllLeaves(a + b) == AllLeaves(a) + AllLeaves(b)
  {
    if a == [] {
      assert a + b == b;
    } else {
      assert (a + b)[1..] == a[1..] + b;
      AllLeavesAppend(a[1..], b);
    }
  }

  lemma {:induction false} MessageLeavesAll(outer: Message, msgs: seq<Message>)
    requires forall c | c in msgs :: c < outer
    ensures MessageLeaves(outer, msgs) == AllLeaves(msgs)
  {
    if msgs != [] {
      assert msgs[0] in msgs && forall c | c in msgs[1..] :: c in msgs;
      MessageLeavesAll(outer, msgs[1..]);
    }
  }

  lemma PlaceholderLeaf(id: string)
    ensures !HasForward(Placeholder(id)) && AllLeaves([Placeholder(id)]) == [Placeholder(id)]
  {
    var items := Placeholder(id).payload.items;
    assert items[..0] == [] && GenerateSegments(items) == [] + [items[0].segment];
    assert AllLeaves([Placeholder(id)]) == Leaves(Placeholder(id)) + AllLeaves([]);
  }

  lemma {:induction false} SegmentLeavesAll(m: Message, segments: seq<Segment>)
    requires forall s | s in segments && s.Forward? :: forall c | c in s.content :: c < m
    ensures SegmentLeaves(m, segments) == AllLeaves(Inner(segments))
  {
    if segments != [] {
      var s := segments[0];
      SegmentLeavesAll(m, segments[1..]);
      AllLeavesAppend(InnerOf(s), Inner(segments[1..]));
      if s.Forward? {
        if s.content == [] {
          PlaceholderLeaf(s.id);
        } else {
          MessageLeavesAll(m, s.content);
        }
      }
    }
  }

  lemma LeavesBelow(m: Message)
    ensures HasForward(m) ==> Leaves(m) == AllLeaves(Inner(SegmentsOf(m)))
  {
    if HasForward(m) {
      InsideSmaller(m);
      SegmentLeavesAll(m, SegmentsOf(m));
    }
  }

  ghost predicate NoForward(msgs: seq<Message>) {
    forall m | m in msgs :: !HasForward(m)
  }

  lemma {:induction false} FlatLeaves(msgs: seq<Message>)
    requires NoForward(msgs)
    ensures AllLeaves(msgs) == msgs
  {
    if msgs != [] {
      assert msgs[0] in msgs && forall m | m in msgs[1..] :: m in msgs;
      FlatLeaves(msgs[1..]);
    }
  }

  lemma LevelOne(m: Message, depth: nat)
    requires depth > 0
    ensures Level([m], depth) == Level(Inner(SegmentsOf(m)), depth - 1)
  {
    assert [m][1..] == [] && Below([m]) == Inner(SegmentsOf(m)) + Below([]) == Inner(SegmentsOf(m));
  }

  /** When flattening succeeds and nothing eleven forwards deep holds a further forward, the result is
      the complete left-to-right sequence of leaves, and no message in it holds a forward. */
  lemma {:induction false} ExpandComplete(msgs: seq<Message>, depth: nat)
    requires depth <= MAX_FORWARD_DEPTH + 1 && Expand(msgs, depth).Ok?
    requires NoForward(Level(msgs, MAX_FORWARD_DEPTH + 1 - depth))
    ensures Expand(msgs, depth).value == AllLeaves(msgs) && NoForward(AllLeaves(msgs))
    decreases MAX_FORWARD_DEPTH + 1 - depth, |msgs|, 1
  {
    var left := MAX_FORWARD_DEPTH + 1 - depth;
    if left == 0 {
      FlatLeaves(msgs);
    } else if msgs != [] {
      assert msgs == [msgs[0]] + msgs[1..];
      LevelAppend([msgs[0]], msgs[1..], left);
      ExpandComplete(msgs[1..], depth);
      ExpandOneComplete(msgs[0], depth);
    }
  }

  lemma {:induction false} ExpandOneComplete(m: Message, depth: nat)
    requires depth <= MAX_FORWARD_DEPTH && ExpandOne(m, depth).Ok?
    requires NoForward(Level([m], MAX_FORWARD_DEPTH + 1 - depth))
    ensures ExpandOne(m, depth).value == Leaves(m) && NoForward(Leaves(m))
    decreases MAX_FORWARD_DEPTH + 1 - depth, 0, 0
  {
    if HasForward(m) {
      LevelOne(m, MAX_FORWARD_DEPTH + 1 - depth);
      ExpandComplete(Inner(SegmentsOf(m)), depth + 1);
      LeavesBelow(m);
    }
  }

  /** The whole flattening: when it succeeds and nothing eleven forwards deep holds a further forward, it
      gives all leaves. */
  lemma FlattenComplete(msgs: seq<Message>)
    requires Expand(msgs, 0).Ok? && NoForward(Level(msgs, 11))
    ensures Expand(msgs, 0).value == AllLeaves(msgs) && NoForward(AllLeaves(msgs))
  {
    ExpandComplete(msgs, 0);
  }

  /** No message is lost: a result is at least as long as the list it came from. */
  lemma {:induction false} ExpandLonger(msgs: seq<Message>, depth: nat)
    requires Expand(msgs, depth).Ok?
    ensures |Expand(msgs, depth).value| >= |msgs|
    decreases MAX_FORWARD_DEPTH + 1 - depth, |msgs|
  {
    if depth <= MAX_FORWARD_DEPTH && msgs != [] {
      ExpandLonger(msgs[1..], depth);
      if HasForward(msgs[0]) {
        InnerEmpty(SegmentsOf(msgs[0]));
        ExpandLonger(Inner(SegmentsOf(msgs[0])), depth + 1);
      }
    }
  }

  // ----- what is in the result -----

  /** `y` is a leaf less than `k` forwards deep, or any message exactly `k` forwards deep. */
  ghost predicate Kept(msgs: seq<Message>, k: nat, y: Message) {
    (!HasForward(y) && exists d: nat :: d < k && y in Level(msgs, d)) || y in Level(msgs, k)
  }

  lemma KeptAppend(a: seq<Message>, b: seq<Message>, k: nat, y: Message)
    ensures Kept(a + b, k, y) <==> Kept(a, k, y) || Kept(b, k, y)
  {
    forall d: nat ensures Level(a + b, d) == Level(a, d) + Level(b, d) {
      LevelAppend(a, b, d);
    }
  }

  lemma KeptOne(m: Message, k: nat, y: Message)
    requires k > 0
    ensures HasForward(m) ==> (Kept([m], k, y) <==> Kept(Inner(SegmentsOf(m)), k - 1, y))
    ensures !HasForward(m) ==> (Kept([m], k, y) <==> y == m)
  {
    var inner := Inner(SegmentsOf(m));
    assert Level([m], 0) == [m];
    forall d: nat | d > 0 ensures Level([m], d) == Level(inner, d - 1) {
      LevelOne(m, d);
    }
    if HasForward(m) {
      assert forall d: nat :: y in Level(inner, d) ==> y in Level([m], d + 1);
    } else {
      InnerEmpty(SegmentsOf(m));
      forall d: nat ensures Level(inner, d) == [] {
        EmptyLevel(d);
      }
    }
  }

  lemma NothingKept(k: nat, y: Message)
    ensures !Kept([], k, y)
  {
    forall d: nat ensures Level([], d) == [] {
      EmptyLevel(d);
    }
  }

  /** Whatever is nested how deep: a result holds exactly the leaves above the limit and all that is at it. */
  lemma {:induction false} ExpandHolds(msgs: seq<Message>, depth: nat, k: nat, y: Message)
    requires depth + k == MAX_FORWARD_DEPTH + 1 && Expand(msgs, depth).Ok?
    ensures y in Expand(msgs, depth).value <==> Kept(msgs, k, y)
    decreases k, |msgs|, 1
  {
    if k > 0 && msgs == [] {
      NothingKept(k, y);
    } else if k > 0 {
      ExpandOneHolds(msgs[0], depth, k, y);
      ExpandHolds(msgs[1..], depth, k, y);
      KeptAppend([msgs[0]], msgs[1..], k, y);
      assert msgs == [msgs[0]] + msgs[1..];
    }
  }

  lemma {:induction false} ExpandOneHolds(m: Message, depth: nat, k: nat, y: Message)
    requires depth + k == MAX_FORWARD_DEPTH + 1 && k > 0 && ExpandOne(m, depth).Ok?
    ensures y in ExpandOne(m, depth).value <==> Kept([m], k, y)
    decreases k, 0, 0
  {
    KeptOne(m, k, y);
    if HasForward(m) {
      ExpandHolds(Inner(SegmentsOf(m)), depth + 1, k - 1, y);
    }
  }

  // ----- stability -----

  /** A message that flattening leaves alone. */
  ghost predicate Settled(m: Message) {
    m.payload.Items? && !HasForward(m)
  }

  lemma {:induction false} InnerSmaller(m: Message, segments: seq<Segment>)
    requires forall s | s in segments && s.Forward? :: forall c | c in s.content :: c < m
    ensures forall x | x in Inner(segments) :: x < m || IsPlaceholder(x)
  {
    if segments != [] {
      InnerSmaller(m, segments[1..]);
    }
  }

  lemma {:induction false} ExpandSmaller(outer: Message, msgs: seq<Message>, depth: nat)
    requires Expand(msgs, depth).Ok?
    requires forall x | x in msgs :: x < outer || IsPlaceholder(x)
    ensures forall y | y in Expand(msgs, depth).value :: y < outer || IsPlaceholder(y)
    decreases MAX_FORWARD_DEPTH + 1 - depth, |msgs|
  {
    if depth <= MAX_FORWARD_DEPTH && msgs != [] {
      var m := msgs[0];
      assert m in msgs && forall x | x in msgs[1..] :: x in msgs;
      ExpandSmaller(outer, msgs[1..], depth);
      if HasForward(m) {
        PlaceholderFlat(m);
        InsideSmaller(m);
        InnerSmaller(m, SegmentsOf(m));
        forall x | x in Inner(SegmentsOf(m)) ensures x < outer || IsPlaceholder(x) {
          assert x < m || IsPlaceholder(x);
        }
        ExpandSmaller(outer, Inner(SegmentsOf(m)), depth + 1);
      }
    }
  }

  lemma PlaceholderFlat(m: Message)
    ensures IsPlaceholder(m) ==> !HasForward(m)
  {
    if IsPlaceholder(m) {
      var items := m.payload.items;
      assert items[..0] == [] && GenerateSegments(items) == [] + [items[0].segment];
    }
  }

  lemma OneIsChanged(m: Message)
    requires ExpandOne(m, 0) == Ok([m])
    ensures Settled(m)
  {
    if HasForward(m) {
      PlaceholderFlat(m);
      InsideSmaller(m);
      InnerSmaller(m, SegmentsOf(m));
      ExpandSmaller(m, Inner(SegmentsOf(m)), 1);
    }
  }

  /** Flattening again returns a list unchanged exactly when every message in it is a list payload
      without forwards. */
  lemma {:induction false} FlattenStable(msgs: seq<Message>)
    ensures Expand(msgs, 0) == Ok(msgs) <==> forall m | m in msgs :: Settled(m)
  {
    if msgs != [] {
      var m, rest := msgs[0], msgs[1..];
      assert msgs == [m] + rest;
      FlattenStable(rest);
      assert forall x | x in msgs :: x == m || x in rest;
      assert m in msgs && forall x | x in rest :: x in msgs;
      if Expand(msgs, 0) == Ok(msgs) {
        var head, tail := ExpandOne(m, 0).value, Expand(rest, 0).value;
        ExpandSingle(m, 0);
        ExpandLonger([m], 0);
        ExpandLonger(rest, 0);
        assert head + tail == [m] + rest;
        assert head == [m] && tail == rest;
        OneIsChanged(m);
      }
    }
  }
}
