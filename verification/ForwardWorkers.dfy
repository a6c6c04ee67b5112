/** Converting the items of a forward in parallel: one goroutine an item, at most eight of them
    converting, results stored by index, the first error kept, then the in-order merge. */
module ForwardWorkers {
  import opened Strings
  import opened FromOnebot

  const FORWARD_CONCURRENCY := 8

  /** What converting one item comes to, whenever it is done. */
  type Outcome = Result<seq<Part>, string>

  /** `Failed` has an error to record; `Settled` has stored its result or recorded its error and still
      holds its semaphore slot; `Left` has given the slot back and not yet told the wait group. */
  datatype Worker = Unspawned | Spawned | Running | Failed | Settled | Left | Done

  datatype State = State(
    spawned: nat, workers: seq<Worker>, sem: nat, waitGroup: int,
    results: seq<Option<seq<Part>>>, firstErr: Option<string>, answer: Option<Outcome>)

  datatype Label =
    | Spawn
    | Acquire(i: nat)
    | Convert(i: nat)
    | Record(i: nat)
    | Release(i: nat)
    | Finish(i: nat)
    | Merge

  function Init(n: nat): State {
    State(0, seq(n, _ => Unspawned), 0, 0, seq(n, _ => None), None, None)
  }

  predicate At(s: State, i: nat, w: Worker) {
    i < |s.workers| && s.workers[i] == w
  }

  predicate Enabled(outcomes: seq<Outcome>, s: State, l: Label) {
    match l
    case Spawn => s.spawned < |s.workers|
    case Acquire(i) => At(s, i, Spawned) && s.sem < FORWARD_CONCURRENCY
    case Convert(i) => At(s, i, Running) && i < |outcomes| && i < |s.results|
    case Record(i) => At(s, i, Failed) && i < |outcomes| && outcomes[i].Err?
    case Release(i) => At(s, i, Settled) && s.sem > 0
    case Finish(i) => At(s, i, Left)
    case Merge => s.spawned == |s.workers| && s.waitGroup == 0 && s.answer.None?
  }

  function Move(s: State, i: nat, w: Worker): State
    requires i < |s.workers|
  {
    s.(workers := s.workers[i := w])
  }

  function Apply(outcomes: seq<Outcome>, s: State, l: Label): State
    requires Enabled(outcomes, s, l)
  {
    match l
    case Spawn => Move(s, s.spawned, Spawned).(spawned := s.spawned + 1, waitGroup := s.waitGroup + 1)
    case Acquire(i) => Move(s, i, Running).(sem := s.sem + 1)
    case Convert(i) =>
      if outcomes[i].Err? then Move(s, i, Failed)
      else Move(s, i, Settled).(results := s.results[i := Some(outcomes[i].value)])
    case Record(i) => Move(s, i, Settled).(firstErr := if s.firstErr.None? then Some(outcomes[i].error) else s.firstErr)
    case Release(i) => Move(s, i, Left).(sem := s.sem - 1)
    case Finish(i) => Move(s, i, Done).(waitGroup := s.waitGroup - 1)
    case Merge => s.(answer := Some(if s.firstErr.Some? then Err(s.firstErr.value) else Ok(Joined(s.results))))
  }

  /** The stored results one after the other; a missing result is an empty list. */
  function Joined(results: seq<Option<seq<Part>>>): seq<Part> {
    if results == [] then []
    else Joined(results[..|results| - 1]) + results[|results| - 1].GetOr([])
  }

  /** The merge loop. */
  method MergeResults(results: seq<Option<seq<Part>>>) returns (result: seq<Part>)
    ensures result == Joined(results)
  {
    result := [];
    for i := 0 to |results|
      invariant result == Joined(results[..i])
    {
      assert results[..i + 1][..i] == results[..i];
      result := result + results[i].GetOr([]);
    }
    assert results[..|results|] == results;
  }

  // ----- the sequential answer -----

  /** One item after the other. */
  function Sequence(outcomes: seq<Outcome>): seq<Part> {
    if outcomes == [] then []
    else Sequence(outcomes[..|outcomes| - 1]) +
         if outcomes[|outcomes| - 1].Ok? then outcomes[|outcomes| - 1].value else []
  }

  /** `a` is an answer sequential conversion could give: the error of some failing item if any item
      fails, and otherwise all results in order. */
  ghost predicate Answers(outcomes: seq<Outcome>, a: Outcome) {
    match a
    case Err(e) => Err(e) in outcomes
    case Ok(v) => v == Sequence(outcomes) && forall o | o in outcomes :: o.Ok?
  }

  // ----- invariant -----

  predicate InSlot(w: Worker) {
    w.Running? || w.Failed? || w.Settled?
  }

  predicate Pending(w: Worker) {
    !w.Unspawned? && !w.Done?
  }

  predicate Through(w: Worker) {
    w.Settled? || w.Left? || w.Done?
  }

  function Holders(workers: seq<Worker>): set<nat> {
    set i: nat | i < |workers| && InSlot(workers[i])
  }

  function Waited(workers: seq<Worker>): set<nat> {
    set i: nat | i < |workers| && Pending(workers[i])
  }

  ghost predicate Shape(outcomes: seq<Outcome>, s: State) {
    && |s.workers| == |s.results| == |outcomes|
    && s.spawned <= |s.workers|
    && (forall i | 0 <= i < |s.workers| :: s.workers[i].Unspawned? <==> s.spawned <= i)
    && (forall i | 0 <= i < |s.workers| && s.workers[i].Failed? :: outcomes[i].Err?)
  }

  ghost predicate Counted(s: State) {
    s.sem == |Holders(s.workers)| <= FORWARD_CONCURRENCY && s.waitGroup == |Waited(s.workers)|
  }

  ghost predicate Stored(outcomes: seq<Outcome>, s: State)
    requires |s.workers| == |s.results| == |outcomes|
  {
    && (forall i | 0 <= i < |s.workers| ::
          s.results[i] == if Through(s.workers[i]) && outcomes[i].Ok? then Some(outcomes[i].value) else None)
    && (s.firstErr.None? ==> forall i | 0 <= i < |s.workers| && Through(s.workers[i]) :: outcomes[i].Ok?)
    && (s.firstErr.Some? ==> Err(s.firstErr.value) in outcomes)
  }

  ghost predicate Inv(outcomes: seq<Outcome>, s: State) {
    && Shape(outcomes, s) && Counted(s) && Stored(outcomes, s)
    && (s.answer.Some? ==> Answers(outcomes, s.answer.value) && forall i | 0 <= i < |s.workers| :: s.workers[i].Done?)
  }

  lemma InitInv(outcomes: seq<Outcome>)
    ensures Inv(outcomes, Init(|outcomes|))
  {
    assert Holders(Init(|outcomes|).workers) == {} && Waited(Init(|outcomes|).workers) == {};
  }

  lemma StepKeepsShape(outcomes: seq<Outcome>, s: State, l: Label)
    requires Shape(outcomes, s) && Enabled(outcomes, s, l)
    ensures Shape(outcomes, Apply(outcomes, s, l))
  {
  }

  lemma StepKeepsStored(outcomes: seq<Outcome>, s: State, l: Label)
    requires Shape(outcomes, s) && Stored(outcomes, s) && Enabled(outcomes, s, l)
    ensures Shape(outcomes, Apply(outcomes, s, l)) && Stored(outcomes, Apply(outcomes, s, l))
  {
    StepKeepsShape(outcomes, s, l);
    if l.Record? {
      assert outcomes[l.i] == Err(outcomes[l.i].error);
    }
  }

  lemma HoldersMove(workers: seq<Worker>, i: nat, w: Worker)
    requires i < |workers|
    ensures |Holders(workers[i := w])| ==
      |Holders(workers)| - (if InSlot(workers[i]) then 1 else 0) + (if InSlot(w) then 1 else 0)
  {
    var rest := Holders(workers) - {i};
    assert Holders(workers) == if InSlot(workers[i]) then rest + {i} else rest;
    assert Holders(workers[i := w]) == if InSlot(w) then rest + {i} else rest;
  }

  lemma WaitedMove(workers: seq<Worker>, i: nat, w: Worker)
    requires i < |workers|
    ensures |Waited(workers[i := w])| ==
      |Waited(workers)| - (if Pending(workers[i]) then 1 else 0) + (if Pending(w) then 1 else 0)
  {
    var rest := Waited(workers) - {i};
    assert Waited(workers) == if Pending(workers[i]) then rest + {i} else rest;
    assert Waited(workers[i := w]) == if Pending(w) then rest + {i} else rest;
  }

  lemma StepKeepsCounted(outcomes: seq<Outcome>, s: State, l: Label)
    requires Shape(outcomes, s) && Counted(s) && Enabled(outcomes, s, l)
    ensures Counted(Apply(outcomes, s, l))
  {
    if !l.Merge? {
      var i := if l.Spawn? then s.spawned else l.i;
      var w := Apply(outcomes, s, l).workers[i];
      HoldersMove(s.workers, i, w);
      WaitedMove(s.workers, i, w);
    }
  }

  lemma {:induction false} JoinedIsSequence(outcomes: seq<Outcome>, results: seq<Option<seq<Part>>>)
    requires |results| == |outcomes|
    requires forall i | 0 <= i < |outcomes| :: outcomes[i].Ok? && results[i] == Some(outcomes[i].value)
    ensures Joined(results) == Sequence(outcomes)
  {
    if outcomes != [] {
      JoinedIsSequence(outcomes[..|outcomes| - 1], results[..|results| - 1]);
    }
  }

  lemma AllDone(outcomes: seq<Outcome>, s: State)
    requires Shape(outcomes, s) && Counted(s) && s.spawned == |s.workers| && s.waitGroup == 0
    ensures forall i | 0 <= i < |s.workers| :: s.workers[i].Done?
  {
    forall i: nat | i < |s.workers| ensures s.workers[i].Done? {
      assert i !in Waited(s.workers);
    }
  }

  lemma StepKeepsInv(outcomes: seq<Outcome>, s: State, l: Label)
    requires Inv(outcomes, s) && Enabled(outcomes, s, l)
    ensures Inv(outcomes, Apply(outcomes, s, l))
  {
    StepKeepsShape(outcomes, s, l);
    StepKeepsStored(outcomes, s, l);
    StepKeepsCounted(outcomes, s, l);
    if l.Merge? {
      AllDone(outcomes, s);
      if s.firstErr.None? {
        JoinedIsSequence(outcomes, s.results);
      }
    }
  }

  lemma SequenceLast(a: seq<Outcome>, o: Outcome)
    requires o.Ok?
    ensures Sequence(a + [o]) == Sequence(a) + o.value
  {
    assert (a + [o])[..|a|] == a;
  }

  /** The answer of sequential conversion has the first item's parts first. */
  lemma {:induction false} SequenceAppend(a: seq<Outcome>, b: seq<Outcome>)
    requires forall o | o in b :: o.Ok?
    ensures Sequence(a + b) == Sequence(a) + Sequence(b)
  {
    if b == [] {
      assert a + b == a;
    } else {
      var front, o := b[..|b| - 1], b[|b| - 1];
      assert b == front + [o] && o in b;
      Regroup(a, front, [o]);
      SequenceAppend(a, front);
      SequenceLast(a + front, o);
      SequenceLast(front, o);
      Regroup(Sequence(a), Sequence(front), o.value);
    }
  }

  lemma SequenceOne(o: Outcome)
    requires o.Ok?
    ensures Sequence([o]) == o.value
  {
    assert [o][..0] == [];
  }

  // ----- every schedule -----

  ghost predicate IsRun(outcomes: seq<Outcome>, states: seq<State>, labels: seq<Label>) {
    && |states| == |labels| + 1
    && states[0] == Init(|outcomes|)
    && forall i | 0 <= i < |labels| ::
         Enabled(outcomes, states[i], labels[i]) && states[i + 1] == Apply(outcomes, states[i], labels[i])
  }

  lemma {:induction false} RunKeepsInv(outcomes: seq<Outcome>, states: seq<State>, labels: seq<Label>, i: nat)
    requires IsRun(outcomes, states, labels) && i < |states|
    ensures Inv(outcomes, states[i])
  {
    if i == 0 {
      InitInv(outcomes);
    } else {
      RunKeepsInv(outcomes, states, labels, i - 1);
      StepKeepsInv(outcomes, states[i - 1], labels[i - 1]);
    }
  }

  /** Under every schedule at most eight items are being converted; when there is an answer all workers
      have finished, and it is an answer of sequential conversion. */
  lemma ParallelIsSequential(outcomes: seq<Outcome>, states: seq<State>, labels: seq<Label>, i: nat)
    requires IsRun(outcomes, states, labels) && i < |states|
    ensures |set w: nat | w < |states[i].workers| && InSlot(states[i].workers[w])| <= 8
    ensures states[i].answer.Some? ==>
      Answers(outcomes, states[i].answer.value) && forall w | 0 <= w < |states[i].workers| :: states[i].workers[w].Done?
    ensures states[i].answer.Some? ==> (states[i].answer.value.Err? <==> exists o | o in outcomes :: o.Err?)
  {
    RunKeepsInv(outcomes, states, labels, i);
    assert Holders(states[i].workers) == set w: nat | w < |states[i].workers| && InSlot(states[i].workers[w]);
  }

  // ----- every schedule ends -----

  function Remaining(w: Worker): nat {
    match w
    case Unspawned => 6
    case Spawned => 5
    case Running => 4
    case Failed => 3
    case Settled => 2
    case Left => 1
    case Done => 0
  }

  function Work(workers: seq<Worker>): nat {
    if workers == [] then 0 else Remaining(workers[0]) + Work(workers[1..])
  }

  function Rank(s: State): nat {
    Work(s.workers) + if s.answer.None? then 1 else 0
  }

  lemma {:induction false} WorkUpdate(workers: seq<Worker>, i: nat, w: Worker)
    requires i < |workers|
    ensures Work(workers[i := w]) == Work(workers) - Remaining(workers[i]) + Remaining(w)
  {
    if i > 0 {
      assert workers[i := w][1..] == workers[1..][i - 1 := w];
      WorkUpdate(workers[1..], i - 1, w);
    } else {
      assert workers[i := w][1..] == workers[1..];
    }
  }

  lemma {:induction false} WorkAtStart(n: nat)
    ensures Work(seq(n, _ => Unspawned)) == 6 * n
  {
    if n > 0 {
      assert seq(n, _ => Unspawned)[1..] == seq(n - 1, _ => Unspawned);
      WorkAtStart(n - 1);
    }
  }

  lemma StepLowersRank(outcomes: seq<Outcome>, s: State, l: Label)
    requires Shape(outcomes, s) && Enabled(outcomes, s, l)
    ensures Rank(Apply(outcomes, s, l)) < Rank(s)
  {
    match l {
      case Spawn => WorkUpdate(s.workers, s.spawned, Spawned);
      case Acquire(i) => WorkUpdate(s.workers, i, Running);
      case Convert(i) => WorkUpdate(s.workers, i, if outcomes[i].Err? then Failed else Settled);
      case Record(i) => WorkUpdate(s.workers, i, Settled);
      case Release(i) => WorkUpdate(s.workers, i, Left);
      case Finish(i) => WorkUpdate(s.workers, i, Done);
      case Merge =>
    }
  }

  lemma {:induction false} RunLowersRank(outcomes: seq<Outcome>, states: seq<State>, labels: seq<Label>, i: nat)
    requires IsRun(outcomes, states, labels) && i < |states|
    ensures Rank(states[i]) + i <= 6 * |outcomes| + 1
  {
    if i == 0 {
      WorkAtStart(|outcomes|);
    } else {
      RunLowersRank(outcomes, states, labels, i - 1);
      RunKeepsInv(outcomes, states, labels, i - 1);
      StepLowersRank(outcomes, states[i - 1], labels[i - 1]);
    }
  }

  /** Some goroutine can always move until there is an answer. */
  lemma NotStuck(outcomes: seq<Outcome>, s: State) returns (l: Label)
    requires Inv(outcomes, s) && s.answer.None?
    ensures Enabled(outcomes, s, l)
  {
    if s.spawned < |s.workers| {
      l := Spawn;
    } else if Holders(s.workers) != {} {
      var i :| i in Holders(s.workers);
      l := if s.workers[i].Running? then Convert(i) else if s.workers[i].Failed? then Record(i) else Release(i);
      if s.workers[i].Settled? {
        assert |Holders(s.workers)| > 0;
      }
    } else if Waited(s.workers) != {} {
      var i :| i in Waited(s.workers);
      assert !InSlot(s.workers[i]) by {
        assert i !in Holders(s.workers);
      }
      l := if s.workers[i].Left? then Finish(i) else Acquire(i);
    } else {
      l := Merge;
    }
  }

  /** Any schedule so far can be carried on until there is an answer. */
  lemma {:induction false} CarryOn(outcomes: seq<Outcome>, states: seq<State>, labels: seq<Label>)
    returns (more: seq<State>, done: seq<Label>)
    requires IsRun(outcomes, states, labels)
    ensures IsRun(outcomes, more, done) && states <= more && labels <= done && more[|done|].answer.Some?
    decreases Rank(states[|labels|])
  {
    var s := states[|labels|];
    if s.answer.Some? {
      return states, labels;
    }
    RunKeepsInv(outcomes, states, labels, |labels|);
    var l := NotStuck(outcomes, s);
    StepLowersRank(outcomes, s, l);
    more, done := CarryOn(outcomes, states + [Apply(outcomes, s, l)], labels + [l]);
  }

  /** Every schedule gives the sequential answer: no schedule takes more than six steps an item and one
      more, and one that cannot be continued has given its answer. */
  lemma EveryScheduleEnds(outcomes: seq<Outcome>, states: seq<State>, labels: seq<Label>)
    requires IsRun(outcomes, states, labels)
    ensures |labels| <= 6 * |outcomes| + 1
    ensures (forall l :: !Enabled(outcomes, states[|labels|], l)) ==>
      states[|labels|].answer.Some? && Answers(outcomes, states[|labels|].answer.value)
  {
    RunLowersRank(outcomes, states, labels, |labels|);
    RunKeepsInv(outcomes, states, labels, |labels|);
    if states[|labels|].answer.None? {
      var l := NotStuck(outcomes, states[|labels|]);
    }
  }
}
