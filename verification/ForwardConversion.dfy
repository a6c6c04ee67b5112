/** A whole merge-forward: flatten, convert the items in parallel, merge. */
module ForwardConversion {
  import opened Strings
  import opened Onebot
  import opened FromOnebot
  import opened Forward
  import opened ForwardItem
  import W = ForwardWorkers

  ghost predicate AnyBad(msgs: seq<Message>) {
    exists m :: m in msgs && m.payload.NotAList?
  }

  lemma AnyBadAppend(a: seq<Message>, b: seq<Message>)
    ensures AnyBad(a + b) <==> AnyBad(a) || AnyBad(b)
  {
  }

  /** What flattening lets through without looking: the bad payloads in its result are those nested
      one forward deeper than the limit. */
  lemma {:induction false} BadLeftOver(msgs: seq<Message>, depth: nat)
    requires depth <= MAX_FORWARD_DEPTH + 1 && Expand(msgs, depth).Ok?
    ensures AnyBad(Expand(msgs, depth).value) <==> AnyBad(Level(msgs, MAX_FORWARD_DEPTH + 1 - depth))
    decreases MAX_FORWARD_DEPTH + 1 - depth, |msgs|, 1
  {
    var left := MAX_FORWARD_DEPTH + 1 - depth;
    if left > 0 {
      if msgs == [] {
        EmptyLevel(left);
      } else {
        assert msgs == [msgs[0]] + msgs[1..];
        LevelAppend([msgs[0]], msgs[1..], left);
        BadLeftOver(msgs[1..], depth);
        BadLeftOverOne(msgs[0], depth);
        AnyBadAppend(ExpandOne(msgs[0], depth).value, Expand(msgs[1..], depth).value);
        AnyBadAppend(Level([msgs[0]], left), Level(msgs[1..], left));
      }
    }
  }

  lemma {:induction false} BadLeftOverOne(m: Message, depth: nat)
    requires depth <= MAX_FORWARD_DEPTH && ExpandOne(m, depth).Ok?
    ensures AnyBad(ExpandOne(m, depth).value) <==> AnyBad(Level([m], MAX_FORWARD_DEPTH + 1 - depth))
    decreases MAX_FORWARD_DEPTH + 1 - depth, 0, 0
  {
    LevelOne(m, MAX_FORWARD_DEPTH + 1 - depth);
    if HasForward(m) {
      BadLeftOver(Inner(SegmentsOf(m)), depth + 1);
    } else {
      InnerEmpty(SegmentsOf(m));
      EmptyLevel(MAX_FORWARD_DEPTH - depth);
    }
  }

  /** `uploads[i]` are the upload outcomes of the media of flattened message `i`. */
  predicate UploadsFit(flat: seq<Message>, uploads: seq<seq<Upload>>) {
    |uploads| == |flat| && forall i | 0 <= i < |flat| :: |uploads[i]| == |SegmentsOf(flat[i])|
  }

  function Outcomes(env: Env, flat: seq<Message>, uploads: seq<seq<Upload>>, forwardId: nat): (r: seq<W.Outcome>)
    requires UploadsFit(flat, uploads)
    ensures |r| == |flat|
  {
    seq(|flat|, i requires 0 <= i < |flat| => ItemOutcome(env, flat[i], uploads[i], forwardId, i))
  }

  /** Item `i` of the flattened list is converted on its own, with its own uploads and under its own number. */
  lemma OutcomeOf(env: Env, flat: seq<Message>, uploads: seq<seq<Upload>>, forwardId: nat, i: nat)
    requires UploadsFit(flat, uploads) && i < |flat|
    ensures flat[i].payload.NotAList? ==> Outcomes(env, flat, uploads, forwardId)[i] == Err("failed msg.Message as []any")
    ensures flat[i].payload.Items? ==>
      Outcomes(env, flat, uploads, forwardId)[i] ==
        Ok(ItemParts(env, flat[i].sender, GenerateSegments(flat[i].payload.items), uploads[i], forwardId, i))
  {
  }

  /** A bad payload left in a flattened list was nested one forward deeper than flattening looks. */
  lemma BadAtLast(data: seq<Message>)
    requires Expand(data, 0).Ok?
    ensures AnyBad(Expand(data, 0).value) <==> BadWithin(data, MAX_FORWARD_DEPTH + 1)
  {
    BadLeftOver(data, 0);
    ExpandFails(data, 0);
    var n := MAX_FORWARD_DEPTH + 1;
    if BadWithin(data, n) {
      var d: nat :| d <= n && exists m :: m in Level(data, d) && m.payload.NotAList?;
      assert d == n;
    }
  }

  /** What the workers answer, whatever the schedule and the uploads. */
  lemma WorkersAnswer(env: Env, data: seq<Message>, uploads: seq<seq<Upload>>, forwardId: nat,
                      states: seq<W.State>, labels: seq<W.Label>)
    requires Expand(data, 0).Ok? && UploadsFit(Expand(data, 0).value, uploads)
    requires var outcomes := Outcomes(env, Expand(data, 0).value, uploads, forwardId);
      W.IsRun(outcomes, states, labels) && states[|labels|].answer.Some?
    ensures var a := states[|labels|].answer.value;
      && (a.Err? <==> BadWithin(data, MAX_FORWARD_DEPTH + 1))
      && (a.Err? ==> a.error == FAILED)
      && (a.Ok? ==> a.value == W.Sequence(Outcomes(env, Expand(data, 0).value, uploads, forwardId)) && |a.value| >= |data|)
  {
    var flat := Expand(data, 0).value;
    var outcomes := Outcomes(env, flat, uploads, forwardId);
    W.ParallelIsSequential(outcomes, states, labels, |labels|);
    BadAtLast(data);
    SomeError(env, flat, uploads, forwardId);
    if states[|labels|].answer.value.Ok? {
      ExpandLonger(data, 0);
      SequenceLonger(outcomes);
    }
  }

  /** `convertForwardMessage` can come to `a`: flattening may fail, an empty forward needs no root, sending
      the thread root may fail with `rootErr`, and the workers may run in any order. */
  ghost predicate Converts(env: Env, data: seq<Message>, rootErr: Option<string>, uploads: seq<seq<Upload>>,
                           forwardId: nat, a: W.Outcome)
  {
    match Expand(data, 0)
    case Err(e) => a == Err(e)
    case Ok(flat) =>
      if flat == [] then a == Ok([])
      else if rootErr.Some? then a == Err(rootErr.value)
      else UploadsFit(flat, uploads) && exists states: seq<W.State>, labels: seq<W.Label> ::
        W.IsRun(Outcomes(env, flat, uploads, forwardId), states, labels) && states[|labels|].answer == Some(a)
  }

  /** There is always something the conversion comes to. */
  lemma SomeAnswer(env: Env, data: seq<Message>, rootErr: Option<string>, uploads: seq<seq<Upload>>, forwardId: nat)
    requires Expand(data, 0).Ok? ==> UploadsFit(Expand(data, 0).value, uploads)
    ensures exists a :: Converts(env, data, rootErr, uploads, forwardId, a)
  {
    match Expand(data, 0) {
      case Err(e) => assert Converts(env, data, rootErr, uploads, forwardId, Err(e));
      case Ok(flat) =>
        if flat == [] {
          assert Converts(env, data, rootErr, uploads, forwardId, Ok([]));
        } else if rootErr.Some? {
          assert Converts(env, data, rootErr, uploads, forwardId, Err(rootErr.value));
        } else {
          var outcomes := Outcomes(env, flat, uploads, forwardId);
          var states, labels := W.CarryOn(outcomes, [W.Init(|outcomes|)], []);
          assert Converts(env, data, rootErr, uploads, forwardId, states[|labels|].answer.value);
        }
    }
  }

  /** Whatever the schedule and the uploads, converting a forward ends in an error exactly when some
      message nested at most eleven forwards deep has a payload that is not a list, or there is
      something to convert and the thread root could not be sent. Otherwise the answer is the parts of
      the flattened items in order, at least one for each message of the forward. */
  lemma ForwardAnswer(env: Env, data: seq<Message>, rootErr: Option<string>, uploads: seq<seq<Upload>>, forwardId: nat, a: W.Outcome)
    requires Converts(env, data, rootErr, uploads, forwardId, a)
    ensures a.Err? <==> BadWithin(data, 11) || (data != [] && rootErr.Some?)
    ensures a.Err? ==> a.error == FAILED || Some(a.error) == rootErr
    ensures a.Ok? && data != [] ==>
      && Expand(data, 0).Ok? && UploadsFit(Expand(data, 0).value, uploads)
      && a.value == W.Sequence(Outcomes(env, Expand(data, 0).value, uploads, forwardId))
      && |a.value| >= |data|
    ensures data == [] ==> a == Ok([])
  {
    match Expand(data, 0) {
      case Err(_) =>
        ErrorIsFailed(data, 0);
        ExpandFails(data, 0);
        BadDeeper(data);
      case Ok(flat) =>
        ExpandLonger(data, 0);
        NothingBad(MAX_FORWARD_DEPTH + 1);
        if data != [] && rootErr.None? {
          var states: seq<W.State>, labels: seq<W.Label> :|
            W.IsRun(Outcomes(env, flat, uploads, forwardId), states, labels) && states[|labels|].answer == Some(a);
          WorkersAnswer(env, data, uploads, forwardId, states, labels);
        }
    }
  }

  lemma BadDeeper(data: seq<Message>)
    ensures BadWithin(data, MAX_FORWARD_DEPTH) ==> BadWithin(data, MAX_FORWARD_DEPTH + 1)
  {
  }

  lemma SomeError(env: Env, flat: seq<Message>, uploads: seq<seq<Upload>>, forwardId: nat)
    requires UploadsFit(flat, uploads)
    ensures var outcomes := Outcomes(env, flat, uploads, forwardId);
      && ((exists o | o in outcomes :: o.Err?) <==> AnyBad(flat))
      && (forall o | o in outcomes && o.Err? :: o.error == FAILED)
      && (forall o | o in outcomes && o.Ok? :: |o.value| >= 1)
  {
    var outcomes := Outcomes(env, flat, uploads, forwardId);
    forall o | o in outcomes ensures (o.Err? ==> AnyBad(flat) && o.error == FAILED) && (o.Ok? ==> |o.value| >= 1) {
      var i :| 0 <= i < |outcomes| && outcomes[i] == o;
      assert flat[i] in flat;
    }
    if AnyBad(flat) {
      var i :| 0 <= i < |flat| && flat[i].payload.NotAList?;
      assert outcomes[i].Err? && outcomes[i] in outcomes;
    }
  }

  lemma {:induction false} SequenceLonger(outcomes: seq<W.Outcome>)
    requires forall o | o in outcomes :: o.Ok? && |o.value| >= 1
    ensures |W.Sequence(outcomes)| >= |outcomes|
  {
    if outcomes != [] {
      var n := |outcomes| - 1;
      assert outcomes[n] in outcomes && forall o | o in outcomes[..n] :: o in outcomes;
      SequenceLonger(outcomes[..n]);
    }
  }
}
