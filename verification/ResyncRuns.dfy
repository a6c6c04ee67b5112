/** The background resync queue under any interleaving: enqueues, loops that start, stop each other,
    rotate the queue at their timer and work through their batch, refreshes from elsewhere, and a clock. */
module ResyncRuns {
  import opened Strings

  const SECOND := 1_000_000_000

  /** 7 * 24 hours and 4 hours, in nanoseconds. */
  const MIN_INTERVAL := 604800 * SECOND
  const LOOP_INTERVAL := 14400 * SECOND

  /** A ghost that was found due: when it was checked, and how many refreshes had been logged by then. */
  datatype Due = Due(ghostID: string, checkedAt: int, seen: nat)

  /** Where a loop is: spawned; about to set its timer, with a batch to do or none; at its select;
      filtering its batch; refreshing the ghosts found due; returned. */
  datatype Phase =
    | Fresh
    | Arming(todo: set<string>)
    | Idle
    | Checking(todo: set<string>, due: seq<Due>)
    | Updating(due: seq<Due>)
    | Gone
  {
    function Dues(): seq<Due> { if Checking? || Updating? then due else [] }
    function Todo(): set<string> { if Checking? || Arming? then todo else {} }
  }

  /** `wakeAt` is when the loop's timer fires. */
  datatype Loop = Loop(phase: Phase, cancelled: bool, wakeAt: int)

  /** A queue-driven refresh that ran at time `at`. */
  datatype Refresh = Refresh(due: Due, at: int)

  /** Every accepted enqueue gets the next ticket; `accepted[t]` is the key it was accepted under.
      `queue` and each of `batches` map keys to tickets. `current` is the loop whose cancel function is
      in `stopLoops`; `nextResync` is shared by all loops. */
  datatype State = State(
    now: int, lastSync: map<string, int>, nextResync: int, current: Option<nat>,
    accepted: seq<string>, queue: map<string, nat>, batches: seq<map<string, nat>>,
    loops: seq<Loop>, log: seq<Refresh>)

  /** `Enqueue` is the region under the queue lock; the freshness test before it may be long out of date.
      `Begin` stores the first resync time, `jitter` seconds early. A loop may rotate although it is
      cancelled, since a select with both channels ready takes either. `GiveUp` drops a batch because
      the login is gone. A checked key that is not a ghost adds nothing to refresh. `Elsewhere` is any
      other update of a ghost's last sync time. */
  datatype Label =
    | StartLoop
    | StopLoop
    | Begin(l: nat, jitter: nat)
    | Arm(l: nat)
    | Quit(l: nat)
    | Enqueue(key: string)
    | Rotate(l: nat)
    | GiveUp(l: nat)
    | Check(l: nat, key: string, isGhost: bool)
    | EndCheck(l: nat)
    | Update(l: nat, ok: bool)
    | EndUpdate(l: nat)
    | Elsewhere(ghostID: string)
    | Tick(now: int)

  function Start(now: int, lastSync: map<string, int>): State {
    State(now, lastSync, 0, None, [], map[], [], [], [])
  }

  predicate TooRecent(s: State, g: string) {
    g in s.lastSync && s.lastSync[g] + MIN_INTERVAL > s.now
  }

  predicate Enabled(s: State, l: Label) {
    match l
    case StartLoop => true
    case StopLoop => true
    case Begin(i, jitter) => i < |s.loops| && s.loops[i].phase.Fresh? && jitter < 3600
    case Arm(i) => i < |s.loops| && s.loops[i].phase.Arming?
    case Quit(i) => i < |s.loops| && s.loops[i].phase.Idle? && s.loops[i].cancelled
    case Enqueue(_) => true
    case Rotate(i) => i < |s.loops| && s.loops[i].phase.Idle? && s.loops[i].wakeAt <= s.now
    case GiveUp(i) => i < |s.loops| && s.loops[i].phase.Checking?
    case Check(i, key, _) => i < |s.loops| && s.loops[i].phase.Checking? && key in s.loops[i].phase.todo
    case EndCheck(i) => i < |s.loops| && s.loops[i].phase.Checking? && s.loops[i].phase.todo == {}
    case Update(i, _) => i < |s.loops| && s.loops[i].phase.Updating? && s.loops[i].phase.due != []
    case EndUpdate(i) => i < |s.loops| && s.loops[i].phase == Updating([])
    case Elsewhere(_) => true
    case Tick(now) => s.now <= now
  }

  function Enqueued<T>(queue: map<string, T>, key: string, item: T): map<string, T> {
    if key in queue then queue else queue[key := item]
  }

  /** Calls the cancel function in `stopLoops`, if there is one. */
  function CancelCurrent(s: State): seq<Loop> {
    if s.current.Some? && s.current.value < |s.loops|
    then s.loops[s.current.value := s.loops[s.current.value].(cancelled := true)] else s.loops
  }

  function Move(s: State, i: nat, p: Phase): State
    requires i < |s.loops|
  {
    s.(loops := s.loops[i := s.loops[i].(phase := p)])
  }

  function Apply(s: State, l: Label): State
    requires Enabled(s, l)
  {
    match l
    case StartLoop => s.(loops := CancelCurrent(s) + [Loop(Fresh, false, 0)], current := Some(|s.loops|))
    case StopLoop => s.(loops := CancelCurrent(s), current := None)
    case Begin(i, jitter) => Move(s, i, Arming({})).(nextResync := s.now + LOOP_INTERVAL - jitter * SECOND)
    case Arm(i) =>
      var todo := s.loops[i].phase.todo;
      s.(loops := s.loops[i := s.loops[i].(wakeAt := s.nextResync, phase := if todo == {} then Idle else Checking(todo, []))])
    case Quit(i) => Move(s, i, Gone)
    case Enqueue(key) =>
      s.(queue := Enqueued(s.queue, key, |s.accepted|), accepted := if key in s.queue then s.accepted else s.accepted + [key])
    case Rotate(i) =>
      var t := Move(s, i, Arming(s.queue.Keys)).(nextResync := s.now + LOOP_INTERVAL);
      if |s.queue| == 0 then t else t.(queue := map[], batches := s.batches + [s.queue])
    case GiveUp(i) => Move(s, i, Idle)
    case Check(i, key, isGhost) =>
      var due := s.loops[i].phase.due;
      Move(s, i, Checking(s.loops[i].phase.todo - {key},
        if isGhost && !TooRecent(s, key) then due + [Due(key, s.now, |s.log|)] else due))
    case EndCheck(i) => Move(s, i, Updating(s.loops[i].phase.due))
    case Update(i, ok) =>
      var d := s.loops[i].phase.due[0];
      var t := Move(s, i, Updating(s.loops[i].phase.due[1..]));
      if ok then t.(lastSync := s.lastSync[d.ghostID := s.now], log := s.log + [Refresh(d, s.now)]) else t
    case EndUpdate(i) => Move(s, i, Idle)
    case Elsewhere(g) => s.(lastSync := s.lastSync[g := s.now])
    case Tick(now) => s.(now := now)
  }

  // ----- conservation of enqueues -----

  ghost predicate PendingAt(s: State, t: nat) {
    t < |s.accepted| && s.accepted[t] in s.queue && s.queue[s.accepted[t]] == t
  }

  ghost predicate InBatch(s: State, t: nat, b: nat) {
    t < |s.accepted| && b < |s.batches| && s.accepted[t] in s.batches[b] && s.batches[b][s.accepted[t]] == t
  }

  ghost predicate Filed(s: State, t: nat) {
    PendingAt(s, t) || exists b: nat :: InBatch(s, t, b)
  }

  ghost predicate Conserved(s: State) {
    && (forall k | k in s.queue :: s.queue[k] < |s.accepted| && s.accepted[s.queue[k]] == k)
    && (forall b: nat, k | b < |s.batches| && k in s.batches[b] :: s.batches[b][k] < |s.accepted| && s.accepted[s.batches[b][k]] == k)
    && (forall t: nat | t < |s.accepted| :: Filed(s, t))
    && (forall t: nat, b: nat | InBatch(s, t, b) :: !PendingAt(s, t))
    && (forall t: nat, b: nat, c: nat | InBatch(s, t, b) && InBatch(s, t, c) :: b == c)
  }

  lemma EnqueueKeepsConserved(s: State, key: string)
    requires Conserved(s)
    ensures Conserved(Apply(s, Enqueue(key)))
  {
    var t := Apply(s, Enqueue(key));
    if key !in s.queue {
      forall n: nat, b: nat ensures InBatch(t, n, b) <==> InBatch(s, n, b) {
      }
      forall n: nat | n < |s.accepted| ensures PendingAt(t, n) <==> PendingAt(s, n) {
      }
      forall n: nat | n < |t.accepted| ensures Filed(t, n) {
        if n < |s.accepted| {
          assert Filed(s, n);
        } else {
          assert PendingAt(t, n);
        }
      }
    }
  }

  lemma SameBooks(s: State, t: State)
    requires Conserved(s) && t.queue == s.queue && t.batches == s.batches && t.accepted == s.accepted
    ensures Conserved(t)
  {
    forall n: nat ensures PendingAt(t, n) <==> PendingAt(s, n) {
    }
    forall n: nat, b: nat ensures InBatch(t, n, b) <==> InBatch(s, n, b) {
    }
    forall n: nat | n < |t.accepted| ensures Filed(t, n) {
      assert Filed(s, n);
    }
  }

  lemma RotateKeepsConserved(s: State, i: nat)
    requires Conserved(s) && Enabled(s, Rotate(i))
    ensures Conserved(Apply(s, Rotate(i)))
  {
    var t := Apply(s, Rotate(i));
    if |s.queue| == 0 {
      SameBooks(s, t);
    } else {
      forall n: nat, b: nat ensures InBatch(t, n, b) <==> InBatch(s, n, b) || (b == |s.batches| && PendingAt(s, n)) {
      }
      forall n: nat | n < |t.accepted| ensures Filed(t, n) {
        assert Filed(s, n);
        if PendingAt(s, n) {
          assert InBatch(t, n, |s.batches|);
        } else {
          var b: nat :| InBatch(s, n, b);
          assert InBatch(t, n, b);
        }
      }
    }
  }

  lemma StepKeepsConserved(s: State, l: Label)
    requires Conserved(s) && Enabled(s, l)
    ensures Conserved(Apply(s, l))
  {
    match l {
      case Enqueue(key) => EnqueueKeepsConserved(s, key);
      case Rotate(i) => RotateKeepsConserved(s, i);
      case _ => SameBooks(s, Apply(s, l));
    }
  }

  // ----- throttling -----

  /** `d` was found due knowing all refreshes logged before it. */
  ghost predicate Waited(s: State, d: Due) {
    && d.seen <= |s.log| && d.checkedAt <= s.now
    && forall i | 0 <= i < d.seen && s.log[i].due.ghostID == d.ghostID :: s.log[i].at + MIN_INTERVAL <= d.checkedAt
  }

  ghost predicate LogSynced(s: State) {
    forall i | 0 <= i < |s.log| :: s.log[i].at <= s.now &&
      s.log[i].due.ghostID in s.lastSync && s.log[i].at <= s.lastSync[s.log[i].due.ghostID]
  }

  ghost predicate Throttled(s: State) {
    && LogSynced(s)
    && (forall i, d | 0 <= i < |s.loops| && d in s.loops[i].phase.Dues() :: Waited(s, d))
    && (forall i | 0 <= i < |s.log| :: Waited(s, s.log[i].due) && s.log[i].due.seen <= i && s.log[i].due.checkedAt <= s.log[i].at)
  }

  lemma StepKeepsSynced(s: State, l: Label)
    requires LogSynced(s) && Enabled(s, l)
    ensures LogSynced(Apply(s, l))
  {
  }

  lemma StepKeepsWaited(s: State, l: Label, d: Due)
    requires Waited(s, d) && Enabled(s, l)
    ensures Waited(Apply(s, l), d)
  {
    assert s.log <= Apply(s, l).log;
  }

  lemma DueFrom(s: State, l: Label, i: nat, d: Due)
    requires LogSynced(s) && Enabled(s, l) && i < |Apply(s, l).loops| && d in Apply(s, l).loops[i].phase.Dues()
    ensures (i < |s.loops| && d in s.loops[i].phase.Dues()) || Waited(s, d)
  {
  }

  lemma StepKeepsThrottled(s: State, l: Label)
    requires Throttled(s) && Enabled(s, l)
    ensures Throttled(Apply(s, l))
  {
    var t := Apply(s, l);
    StepKeepsSynced(s, l);
    forall d | Waited(s, d) ensures Waited(t, d) {
      StepKeepsWaited(s, l, d);
    }
    forall i, d | 0 <= i < |t.loops| && d in t.loops[i].phase.Dues()
      ensures Waited(t, d)
    {
      DueFrom(s, l, i, d);
    }
    forall i | 0 <= i < |t.log|
      ensures Waited(t, t.log[i].due) && t.log[i].due.seen <= i && t.log[i].due.checkedAt <= t.log[i].at
    {
      if i == |s.log| {
        assert t.log[i].due in s.loops[l.l].phase.Dues();
      } else {
        assert Waited(s, s.log[i].due);
      }
    }
  }

  // ----- one loop -----

  /** Within a loop's batch each ghost is handled once, and nothing was logged for it since its check. */
  ghost predicate InOrder(due: seq<Due>, todo: set<string>, log: seq<Refresh>) {
    && (forall a, b | 0 <= a < b < |due| :: due[a].ghostID != due[b].ghostID)
    && (forall a | 0 <= a < |due| :: due[a].ghostID !in todo)
    && (forall a, j | 0 <= a < |due| && due[a].seen <= j < |log| :: log[j].due.ghostID != due[a].ghostID)
  }

  /** Every refresh was checked with all earlier refreshes of its ghost already logged. */
  ghost predicate LogInOrder(log: seq<Refresh>) {
    forall i, j | 0 <= i < j < |log| && log[i].due.ghostID == log[j].due.ghostID :: i < log[j].due.seen
  }

  /** The loops that have not returned. */
  function Alive(s: State): set<nat> {
    set i: nat | i < |s.loops| && !s.loops[i].phase.Gone?
  }

  ghost predicate Orderly(s: State) {
    && |Alive(s)| <= 1
    && (forall i | 0 <= i < |s.loops| :: InOrder(s.loops[i].phase.Dues(), s.loops[i].phase.Todo(), s.log))
    && LogInOrder(s.log)
  }

  lemma {:induction false} SubsetSize(a: set<nat>, b: set<nat>)
    requires a <= b
    ensures |a| <= |b|
  {
    if a != {} {
      var x :| x in a;
      SubsetSize(a - {x}, b - {x});
    }
  }

  lemma OneAlive(s: State, i: nat, j: nat)
    requires |Alive(s)| <= 1 && i in Alive(s) && j in Alive(s)
    ensures i == j
  {
    SubsetSize({i, j}, Alive(s));
    assert i != j ==> |{i, j}| == 2;
  }

  lemma CheckInOrder(due: seq<Due>, todo: set<string>, log: seq<Refresh>, key: string, now: int)
    requires InOrder(due, todo, log) && key in todo
    ensures InOrder(due + [Due(key, now, |log|)], todo - {key}, log)
  {
  }

  lemma UpdateInOrder(due: seq<Due>, log: seq<Refresh>, now: int)
    requires InOrder(due, {}, log) && due != []
    ensures InOrder(due[1..], {}, log) && InOrder(due[1..], {}, log + [Refresh(due[0], now)])
    ensures LogInOrder(log) ==> LogInOrder(log + [Refresh(due[0], now)])
  {
    var rest := due[1..];
    assert forall a | 0 <= a < |rest| :: rest[a] == due[a + 1];
  }

  lemma StepKeepsOrderly(s: State, l: Label)
    requires Orderly(s) && Enabled(s, l) && |Alive(Apply(s, l))| <= 1
    ensures Orderly(Apply(s, l))
  {
    var t := Apply(s, l);
    match l {
      case Check(i, key, isGhost) =>
        CheckInOrder(s.loops[i].phase.due, s.loops[i].phase.todo, s.log, key, s.now);
      case Update(i, ok) =>
        UpdateKeepsOrderly(s, i, ok);
      case _ =>
    }
  }

  lemma UpdateKeepsOrderly(s: State, i: nat, ok: bool)
    requires Orderly(s) && Enabled(s, Update(i, ok)) && |Alive(Apply(s, Update(i, ok)))| <= 1
    ensures Orderly(Apply(s, Update(i, ok)))
  {
    UpdateInOrder(s.loops[i].phase.due, s.log, s.now);
    forall j: nat | j < |s.loops| && j != i ensures s.loops[j].phase.Gone? {
      if !s.loops[j].phase.Gone? {
        OneAlive(s, i, j);
      }
    }
  }

  // ----- runs -----

  ghost predicate IsRun(states: seq<State>, labels: seq<Label>) {
    && |states| == |labels| + 1
    && (exists now, lastSync :: states[0] == Start(now, lastSync))
    && forall i | 0 <= i < |labels| :: Enabled(states[i], labels[i]) && states[i + 1] == Apply(states[i], labels[i])
  }

  lemma {:induction false} RunKeepsInv(states: seq<State>, labels: seq<Label>, i: nat)
    requires IsRun(states, labels) && i < |states|
    ensures Conserved(states[i]) && Throttled(states[i])
  {
    if i > 0 {
      RunKeepsInv(states, labels, i - 1);
      StepKeepsConserved(states[i - 1], labels[i - 1]);
      StepKeepsThrottled(states[i - 1], labels[i - 1]);
    }
  }

  /** Where these steps lead from `s`, if each is enabled in its turn. */
  function After(s: State, steps: seq<Label>): Option<State> {
    if steps == [] then Some(s) else
      var n := |steps| - 1;
      match After(s, steps[..n])
      case None => None
      case Some(t) => if Enabled(t, steps[n]) then Some(Apply(t, steps[n])) else None
  }

  lemma AfterOne(s: State, l: Label)
    requires Enabled(s, l)
    ensures After(s, [l]) == Some(Apply(s, l))
  {
    assert [l][..0] == [];
  }

  lemma AfterTwo(s: State, l: Label, m: Label)
    requires Enabled(s, l) && Enabled(Apply(s, l), m)
    ensures After(s, [l, m]) == Some(Apply(Apply(s, l), m))
  {
    AfterOne(s, l);
    assert [l, m][..1] == [l];
  }

  lemma {:induction false} AfterJoin(s: State, first: seq<Label>, t: State, second: seq<Label>)
    requires After(s, first) == Some(t)
    ensures After(s, first + second) == After(t, second)
  {
    var all, n := first + second, |second|;
    if first == [] {
      assert all == second;
    } else if n == 0 {
      assert all == first;
    } else {
      assert all[..|first| + n - 1] == first + second[..n - 1];
      AfterJoin(s, first, t, second[..n - 1]);
    }
  }

  /** Some interleaving leads to `s`. */
  ghost predicate Reachable(s: State) {
    exists now: int, lastSync: map<string, int>, steps: seq<Label> :: After(Start(now, lastSync), steps) == Some(s)
  }

  lemma StartReachable(now: int, lastSync: map<string, int>)
    ensures Reachable(Start(now, lastSync))
  {
    assert After(Start(now, lastSync), []) == Some(Start(now, lastSync));
  }

  lemma StepReachable(s: State, l: Label)
    requires Reachable(s) && Enabled(s, l)
    ensures Reachable(Apply(s, l))
  {
    var now: int, lastSync: map<string, int>, steps: seq<Label> :| After(Start(now, lastSync), steps) == Some(s);
    assert (steps + [l])[..|steps|] == steps;
    assert After(Start(now, lastSync), steps + [l]) == Some(Apply(s, l));
  }

  /** Steps from a start make a run. */
  lemma {:induction false} AfterIsRun(now: int, lastSync: map<string, int>, steps: seq<Label>) returns (states: seq<State>)
    requires After(Start(now, lastSync), steps).Some?
    ensures IsRun(states, steps) && states[|steps|] == After(Start(now, lastSync), steps).value
  {
    if steps == [] {
      states := [Start(now, lastSync)];
    } else {
      var n := |steps| - 1;
      var before := AfterIsRun(now, lastSync, steps[..n]);
      states := before + [Apply(before[n], steps[n])];
    }
  }

  lemma ReachableInv(s: State)
    requires Reachable(s)
    ensures Conserved(s) && Throttled(s)
  {
    var now: int, lastSync: map<string, int>, steps: seq<Label> :| After(Start(now, lastSync), steps) == Some(s);
    var states := AfterIsRun(now, lastSync, steps);
    RunKeepsInv(states, steps, |steps|);
  }

  /** No accepted enqueue is lost or duplicated: in every run each is either pending, once and under its
      own key, or in exactly one rotated batch. */
  lemma EnqueuesConserved(states: seq<State>, labels: seq<Label>, i: nat, t: nat)
    requires IsRun(states, labels) && i < |states| && t < |states[i].accepted|
    ensures PendingAt(states[i], t) <==> !exists b: nat :: InBatch(states[i], t, b)
    ensures forall b: nat, c: nat | InBatch(states[i], t, b) && InBatch(states[i], t, c) :: b == c
    ensures forall k | k in states[i].queue && states[i].queue[k] == t :: k == states[i].accepted[t]
  {
    RunKeepsInv(states, labels, i);
    assert Filed(states[i], t);
  }

  /** With any number of loops: two refreshes of one ghost are at least seven days apart unless the later
      one's check came before the earlier refresh. */
  lemma RefreshesSpaced(states: seq<State>, labels: seq<Label>, n: nat, i: nat, j: nat)
    requires IsRun(states, labels) && n < |states| && i < j < |states[n].log|
    requires states[n].log[i].due.ghostID == states[n].log[j].due.ghostID
    ensures states[n].log[j].due.seen > i ==> states[n].log[j].at - states[n].log[i].at >= 604_800_000_000_000
  {
    RunKeepsInv(states, labels, n);
    assert Waited(states[n], states[n].log[j].due);
  }

  /** In no state of the run are more than `n` loops alive. */
  ghost predicate AtMost(states: seq<State>, n: nat) {
    forall k | 0 <= k < |states| :: |Alive(states[k])| <= n
  }

  /** Refreshes of the same ghost are at least seven days apart. */
  ghost predicate Spaced(log: seq<Refresh>) {
    forall i, j | 0 <= i < j < |log| && log[i].due.ghostID == log[j].due.ghostID ::
      log[j].at - log[i].at >= 604_800_000_000_000
  }

  lemma {:induction false} RunKeepsOrderly(states: seq<State>, labels: seq<Label>, i: nat)
    requires IsRun(states, labels) && i < |states| && AtMost(states, 1)
    ensures Orderly(states[i])
  {
    if i > 0 {
      RunKeepsOrderly(states, labels, i - 1);
      StepKeepsOrderly(states[i - 1], labels[i - 1]);
    }
  }

  /** While no two loops are alive at once, queue-driven refreshes of the same ghost are at least seven
      days apart, even when it is enqueued again while its batch is being worked through. */
  lemma SingleLoopThrottles(states: seq<State>, labels: seq<Label>, n: nat)
    requires IsRun(states, labels) && n < |states| && AtMost(states, 1)
    ensures Spaced(states[n].log)
  {
    RunKeepsOrderly(states, labels, n);
    var log := states[n].log;
    forall i, j | 0 <= i < j < |log| && log[i].due.ghostID == log[j].due.ghostID
      ensures log[j].at - log[i].at >= 604_800_000_000_000
    {
      RefreshesSpaced(states, labels, n, i, j);
    }
  }

  /** Since step `i`, at which loop `l` stored a resync time: that time or a later one is stored or set. */
  ghost predicate TimerLate(s: State, l: nat, since: int) {
    && s.now >= since && s.nextResync - since >= 10_801_000_000_000
    && l < |s.loops| && !s.loops[l].phase.Fresh?
    && (s.loops[l].phase.Arming? || s.loops[l].wakeAt - since >= 10_801_000_000_000)
  }

  lemma StepStaysLate(s: State, m: Label, l: nat, since: int)
    requires TimerLate(s, l, since) && Enabled(s, m)
    ensures TimerLate(Apply(s, m), l, since)
  {
  }

  lemma StoresLate(s: State, m: Label, l: nat)
    requires Enabled(s, m) && ((m.Begin? && m.l == l) || m == Rotate(l))
    ensures TimerLate(Apply(s, m), l, s.now)
  {
  }

  lemma {:induction false} StaysLate(states: seq<State>, labels: seq<Label>, i: nat, j: nat, l: nat)
    requires IsRun(states, labels) && i < j < |states|
    requires (labels[i].Begin? && labels[i].l == l) || labels[i] == Rotate(l)
    ensures TimerLate(states[j], l, states[i].now)
    decreases j
  {
    var s, m := states[j - 1], labels[j - 1];
    assert Enabled(s, m) && states[j] == Apply(s, m);
    if j == i + 1 {
      StoresLate(s, m, l);
    } else {
      StaysLate(states, labels, i, j - 1, l);
      StepStaysLate(s, m, l, states[i].now);
    }
  }

  /** A loop rotates the queue at the earliest three hours and one second after it began, and as long
      after its last rotation, whatever other loops store meanwhile. */
  lemma RotationsApart(states: seq<State>, labels: seq<Label>, i: nat, j: nat, l: nat)
    requires IsRun(states, labels) && i < j < |labels| && labels[j] == Rotate(l)
    requires (labels[i].Begin? && labels[i].l == l) || labels[i] == Rotate(l)
    ensures states[j].now - states[i].now >= 10_801_000_000_000
  {
    StaysLate(states, labels, i, j, l);
    assert Enabled(states[j], labels[j]);
  }

  /** The loop whose cancel function is in `stopLoops` is the only one that is not cancelled. */
  ghost predicate OnlyCurrent(s: State) {
    && (s.current.Some? ==> s.current.value < |s.loops|)
    && forall i | 0 <= i < |s.loops| :: !s.loops[i].cancelled <==> s.current == Some(i)
  }

  lemma StepKeepsOnlyCurrent(s: State, l: Label)
    requires OnlyCurrent(s) && Enabled(s, l)
    ensures OnlyCurrent(Apply(s, l))
  {
  }

  /** Starting a loop cancels every other, stopping cancels all: in every run at most one loop is not
      cancelled, the one that can still be stopped. */
  lemma {:induction false} CurrentRuns(states: seq<State>, labels: seq<Label>, i: nat)
    requires IsRun(states, labels) && i < |states|
    ensures OnlyCurrent(states[i])
    ensures i > 0 && labels[i - 1].StopLoop? ==> forall j | 0 <= j < |states[i].loops| :: states[i].loops[j].cancelled
    ensures i > 0 && labels[i - 1].StartLoop? ==>
      && |states[i].loops| == |states[i - 1].loops| + 1 && !states[i].loops[|states[i - 1].loops|].cancelled
      && forall j | 0 <= j < |states[i - 1].loops| :: states[i].loops[j].cancelled
  {
    if i > 0 {
      CurrentRuns(states, labels, i - 1);
      assert Enabled(states[i - 1], labels[i - 1]) && states[i] == Apply(states[i - 1], labels[i - 1]);
      StepKeepsOnlyCurrent(states[i - 1], labels[i - 1]);
    }
  }

  ghost predicate SyncedSince(s: State, g: string, at: int) {
    s.now >= at && g in s.lastSync && s.lastSync[g] >= at
  }

  lemma StepStaysSynced(s: State, l: Label, g: string, at: int)
    requires SyncedSince(s, g, at) && Enabled(s, l)
    ensures SyncedSince(Apply(s, l), g, at)
  {
  }

  lemma {:induction false} StaysSynced(states: seq<State>, labels: seq<Label>, i: nat, j: nat, g: string, at: int)
    requires IsRun(states, labels) && i <= j < |states| && SyncedSince(states[i], g, at)
    ensures SyncedSince(states[j], g, at)
    decreases j
  {
    if i < j {
      StaysSynced(states, labels, i, j - 1, g, at);
      assert Enabled(states[j - 1], labels[j - 1]) && states[j] == Apply(states[j - 1], labels[j - 1]);
      StepStaysSynced(states[j - 1], labels[j - 1], g, at);
    }
  }

  /** Whoever synced a ghost, a loop of the queue or anything else: no loop finds it due within seven days. */
  lemma SyncedIsLeftAlone(states: seq<State>, labels: seq<Label>, i: nat, j: nat, g: string, l: nat)
    requires IsRun(states, labels) && i < j < |labels|
    requires labels[i] == Elsewhere(g) || (labels[i].Update? && labels[i].ok && states[i].loops[labels[i].l].phase.due[0].ghostID == g)
    requires labels[j] == Check(l, g, true) && states[j].now - states[i].now < 604_800_000_000_000
    ensures states[j + 1].loops[l].phase.due == states[j].loops[l].phase.due
  {
    StaysSynced(states, labels, i + 1, j, g, states[i].now);
  }

  // ----- why one loop -----

  /** Two loops at work, the first of them cancelled, have refreshed the same ghost at the same time. */
  predicate Collided(s: State) {
    && |s.loops| == 2 && s.loops[0].phase.Updating? && s.loops[1].phase.Updating?
    && s.loops[0].cancelled && !s.loops[1].cancelled
    && |s.log| == 2 && s.log[0].due.ghostID == s.log[1].due.ghostID && s.log[0].at == s.log[1].at
  }

  /** A run with at most two loops in which only loops that are not cancelled rotate the queue. */
  ghost predicate TwoLoopRun(states: seq<State>, labels: seq<Label>) {
    && IsRun(states, labels)
    && (forall k | 0 <= k < |states| :: |states[k].loops| <= 2)
    && (forall k | 0 <= k < |labels| && labels[k].Rotate? && labels[k].l < |states[k].loops| ::
          !states[k].loops[labels[k].l].cancelled)
  }

  /** One more step. */
  lemma Extend(states: seq<State>, labels: seq<Label>, l: Label) returns (more: seq<State>, done: seq<Label>)
    requires TwoLoopRun(states, labels) && Enabled(states[|labels|], l) && |Apply(states[|labels|], l).loops| <= 2
    requires l.Rotate? ==> !states[|labels|].loops[l.l].cancelled
    ensures TwoLoopRun(more, done) && more[|done|] == Apply(states[|labels|], l)
  {
    more, done := states + [Apply(states[|labels|], l)], labels + [l];
  }

  /** A spawned loop stores the next resync time, sets its timer to it and waits. */
  lemma ArmLoop(states: seq<State>, labels: seq<Label>, i: nat) returns (more: seq<State>, done: seq<Label>)
    requires TwoLoopRun(states, labels) && i < |states[|labels|].loops| && states[|labels|].loops[i].phase.Fresh?
    ensures TwoLoopRun(more, done)
    ensures var s := states[|labels|]; var next := s.now + LOOP_INTERVAL;
      more[|done|] == s.(nextResync := next, loops := s.loops[i := s.loops[i].(phase := Idle, wakeAt := next)])
  {
    more, done := Extend(states, labels, Begin(i, 0));
    more, done := Extend(more, done, Arm(i));
  }

  /** A key is queued, and an idle loop that is not cancelled sleeps until its timer fires and takes it. */
  lemma TakeBatch(states: seq<State>, labels: seq<Label>, i: nat, g: string) returns (more: seq<State>, done: seq<Label>)
    requires TwoLoopRun(states, labels)
    requires var s := states[|labels|];
      i < |s.loops| && s.loops[i].phase.Idle? && !s.loops[i].cancelled && s.now <= s.loops[i].wakeAt && s.queue == map[]
    ensures TwoLoopRun(more, done)
    ensures var s, t := states[|labels|], more[|done|];
      && t.loops == s.loops[i := Loop(Checking({g}, []), false, t.now + LOOP_INTERVAL)]
      && t.now == s.loops[i].wakeAt && t.queue == map[] && t.lastSync == s.lastSync && t.log == s.log && t.current == s.current
  {
    more, done := Extend(states, labels, Enqueue(g));
    more, done := Extend(more, done, Tick(states[|labels|].loops[i].wakeAt));
    assert more[|done|].queue.Keys == {g};
    more, done := Extend(more, done, Rotate(i));
    more, done := Extend(more, done, Arm(i));
  }

  /** The one key of a batch is found due. */
  lemma FindDue(states: seq<State>, labels: seq<Label>, i: nat, g: string) returns (more: seq<State>, done: seq<Label>)
    requires TwoLoopRun(states, labels)
    requires var s := states[|labels|]; i < |s.loops| && s.loops[i].phase == Checking({g}, []) && g !in s.lastSync
    ensures TwoLoopRun(more, done)
    ensures var s := states[|labels|];
      more[|done|] == s.(loops := s.loops[i := s.loops[i].(phase := Updating([Due(g, s.now, |s.log|)]))])
  {
    var s := states[|labels|];
    var due := [Due(g, s.now, |s.log|)];
    assert {g} - {g} == {} && [] + due == due;
    more, done := Extend(states, labels, Check(i, g, true));
    more, done := Extend(more, done, EndCheck(i));
  }

  /** The first loop, four hours on, with its batch checked and nothing refreshed yet. */
  lemma FirstLoopAtWork(g: string) returns (states: seq<State>, labels: seq<Label>)
    ensures TwoLoopRun(states, labels)
    ensures var s := states[|labels|];
      && s.loops == [Loop(Updating([Due(g, LOOP_INTERVAL, 0)]), false, 2 * LOOP_INTERVAL)] && s.current == Some(0)
      && s.now == LOOP_INTERVAL && s.queue == map[] && s.lastSync == map[] && s.log == []
  {
    states, labels := [Start(0, map[])], [];
    states, labels := Extend(states, labels, StartLoop);
    states, labels := ArmLoop(states, labels, 0);
    states, labels := TakeBatch(states, labels, 0, g);
    states, labels := FindDue(states, labels, 0, g);
  }

  /** A second loop, started while the first is still working through its batch and cancelling it, can
      refresh a ghost again at once. */
  lemma TwoLoopsCollide(g: string)
    ensures exists states: seq<State>, labels: seq<Label> :: TwoLoopRun(states, labels) && Collided(states[|labels|])
  {
    var states, labels := FirstLoopAtWork(g);
    states, labels := Extend(states, labels, StartLoop);
    states, labels := ArmLoop(states, labels, 1);
    states, labels := TakeBatch(states, labels, 1, g);
    states, labels := FindDue(states, labels, 1, g);
    states, labels := Extend(states, labels, Update(0, true));
    states, labels := Extend(states, labels, Update(1, true));
    assert TwoLoopRun(states, labels) && Collided(states[|labels|]);
  }

  lemma TwoAlive(s: State)
    requires |s.loops| <= 2
    ensures |Alive(s)| <= 2
  {
    SubsetSize(Alive(s), {0, 1});
  }

  /** The exact condition: a bound on the loops alive at once guarantees the seven days if and only if
      it is one. */
  lemma SpacedExactly(n: nat)
    ensures (forall states: seq<State>, labels: seq<Label> | IsRun(states, labels) && AtMost(states, n) ::
               Spaced(states[|labels|].log)) <==> n <= 1
  {
    if n <= 1 {
      forall states: seq<State>, labels: seq<Label> | IsRun(states, labels) && AtMost(states, n)
        ensures Spaced(states[|labels|].log)
      {
        SingleLoopThrottles(states, labels, |labels|);
      }
    } else {
      TwoLoopsCollide("");
      var states: seq<State>, labels: seq<Label> :| TwoLoopRun(states, labels) && Collided(states[|labels|]);
      forall k | 0 <= k < |states| ensures |Alive(states[k])| <= n {
        TwoAlive(states[k]);
      }
      assert !Spaced(states[|labels|].log);
    }
  }
}
