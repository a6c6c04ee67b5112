/** The connection half of the OneBot client: read loops, replacement of connections, heartbeat
    delivery over the unbuffered status channel, the login checkers, `Release`, and a clock. */
module Session {
  import opened Strings

  /** Where a read loop is. From `Checking` to `Unlocking` it holds `cancelCheckerLock`; at `Sending`
      it blocks on the status channel. */
  datatype LoopPhase =
    | Starting
    | Reading
    | WantLock(online: bool, interval: int)
    | Checking(online: bool, interval: int)
    | Sending(online: bool)
    | Unlocking
    | Exiting
    | Ended
  {
    predicate HoldsLock() { Checking? || Sending? || Unlocking? }
  }

  /** `closed`: closed by `updateConnection`, for a newer connection or a `Release`. */
  datatype Conn = Conn(loop: LoopPhase, closed: bool)

  /** Where a call of `Release` is; it holds the lock at `Locked` and `Cancelled`. */
  datatype ReleasePhase = Begun | Detached | Locked | Cancelled | Released
  {
    predicate HoldsLock() { Locked? || Cancelled? }
  }

  datatype CheckerPhase = AtSelect | Storing(status: bool) | Stopped

  /** `interval` is the heartbeat's own field; `armed` is when the checker last entered its select. */
  datatype Checker = Checker(interval: int, cancelled: bool, phase: CheckerPhase, armed: nat)

  datatype Holder = ByLoop(c: nat) | ByRelease(r: nat)

  /** `latest` is the connection attached last; `evidence` is the time of the last online heartbeat
      accepted, lifecycle connect, or checker start. */
  datatype State = State(
    conns: seq<Conn>, conn: Option<nat>, latest: Option<nat>,
    releases: seq<ReleasePhase>, lock: Option<Holder>,
    cancelChecker: Option<nat>, checkers: seq<Checker>,
    isLoggedIn: bool, now: nat, evidence: nat)

  const TWO_32 := 0x1_0000_0000

  /** The check interval in milliseconds: `uint32(interval)`, tripled in uint32. */
  function CheckInterval(interval: int): (ms: nat) {
    (3 * (interval % TWO_32)) % TWO_32
  }

  datatype Label =
    | Spawn
    | Attach(c: nat)
    | LifecycleConnect(c: nat)
    | Heartbeat(c: nat, online: bool, interval: int)
    | LockByLoop(c: nat)
    | EnsureChecker(c: nat)
    | Deliver(c: nat, k: nat)
    | UnlockByLoop(c: nat)
    | Exit(c: nat)
    | Detach(c: nat)
    | BeginRelease
    | ReleaseConn(r: nat)
    | LockByRelease(r: nat)
    | CancelChecker(r: nat)
    | UnlockByRelease(r: nat)
    | Expire(k: nat)
    | Store(k: nat)
    | StopChecker(k: nat)
    | Tick(now: nat)

  const INIT := State([], None, None, [], None, None, [], false, 0, 0)

  predicate LoopAt(s: State, c: nat, p: LoopPhase) {
    c < |s.conns| && s.conns[c].loop == p
  }

  predicate ReleaseAt(s: State, r: nat, p: ReleasePhase) {
    r < |s.releases| && s.releases[r] == p
  }

  /** Time passes only while no checker is between its select and the store that follows, and never
      beyond the point where an uncancelled checker's timer is due. */
  predicate MayTick(s: State, now: nat) {
    && s.now <= now
    && forall k | 0 <= k < |s.checkers| ::
         && !s.checkers[k].phase.Storing?
         && (!s.checkers[k].cancelled ==> now <= s.checkers[k].armed + CheckInterval(s.checkers[k].interval))
  }

  predicate Enabled(s: State, l: Label) {
    match l
    case Spawn => true
    case Attach(c) => LoopAt(s, c, Starting)
    case LifecycleConnect(c) => LoopAt(s, c, Reading)
    case Heartbeat(c, _, _) => LoopAt(s, c, Reading)
    case LockByLoop(c) => c < |s.conns| && s.conns[c].loop.WantLock? && s.lock.None?
    case EnsureChecker(c) => c < |s.conns| && s.conns[c].loop.Checking?
    case Deliver(c, k) => c < |s.conns| && s.conns[c].loop.Sending? && k < |s.checkers| && s.checkers[k].phase.AtSelect?
    case UnlockByLoop(c) => LoopAt(s, c, Unlocking)
    case Exit(c) => LoopAt(s, c, Reading)
    case Detach(c) => LoopAt(s, c, Exiting)
    case BeginRelease => true
    case ReleaseConn(r) => ReleaseAt(s, r, Begun)
    case LockByRelease(r) => ReleaseAt(s, r, ReleasePhase.Detached) && s.lock.None?
    case CancelChecker(r) => ReleaseAt(s, r, Locked) && (s.cancelChecker.Some? ==> s.cancelChecker.value < |s.checkers|)
    case UnlockByRelease(r) => ReleaseAt(s, r, Cancelled)
    case Expire(k) => k < |s.checkers| && s.checkers[k].phase.AtSelect?
        && s.checkers[k].armed + CheckInterval(s.checkers[k].interval) <= s.now
    case Store(k) => k < |s.checkers| && s.checkers[k].phase.Storing?
    case StopChecker(k) => k < |s.checkers| && s.checkers[k].phase.AtSelect? && s.checkers[k].cancelled
    case Tick(now) => MayTick(s, now)
  }

  function MoveLoop(s: State, c: nat, p: LoopPhase): State
    requires c < |s.conns|
  {
    s.(conns := s.conns[c := s.conns[c].(loop := p)])
  }

  function MoveRelease(s: State, r: nat, p: ReleasePhase): State
    requires r < |s.releases|
  {
    s.(releases := s.releases[r := p])
  }

  function MoveChecker(s: State, k: nat, p: CheckerPhase): State
    requires k < |s.checkers|
  {
    s.(checkers := s.checkers[k := s.checkers[k].(phase := p)])
  }

  /** `updateConnection`: closes the current connection, if any, and installs the new one. */
  function UpdateConnection(s: State, next: Option<nat>): State {
    var last := s.conn;
    s.(conns := if last.Some? && last.value < |s.conns| then s.conns[last.value := s.conns[last.value].(closed := true)] else s.conns,
       conn := next, latest := if next.Some? then next else s.latest)
  }

  function Apply(s: State, l: Label): State
    requires Enabled(s, l)
  {
    match l
    case Spawn => s.(conns := s.conns + [Conn(Starting, false)])
    case Attach(c) => MoveLoop(UpdateConnection(s, Some(c)), c, Reading)
    case LifecycleConnect(c) => s.(isLoggedIn := true, evidence := s.now)
    case Heartbeat(c, online, interval) => MoveLoop(s, c, WantLock(online, interval))
    case LockByLoop(c) =>
      MoveLoop(s, c, Checking(s.conns[c].loop.online, s.conns[c].loop.interval)).(lock := Some(ByLoop(c)))
    case EnsureChecker(c) =>
      var t := MoveLoop(s, c, Sending(s.conns[c].loop.online));
      if s.cancelChecker.Some? then t
      else t.(cancelChecker := Some(|s.checkers|), evidence := s.now,
              checkers := s.checkers + [Checker(s.conns[c].loop.interval, false, AtSelect, s.now)])
    case Deliver(c, k) =>
      var online := s.conns[c].loop.online;
      MoveChecker(MoveLoop(s, c, Unlocking), k, Storing(online)).(evidence := if online then s.now else s.evidence)
    case UnlockByLoop(c) => MoveLoop(s, c, Reading).(lock := None)
    case Exit(c) => MoveLoop(s, c, Exiting)
    case Detach(c) => MoveLoop(s, c, Ended).(conn := if s.conn == Some(c) then None else s.conn)
    case BeginRelease => s.(releases := s.releases + [Begun])
    case ReleaseConn(r) => MoveRelease(UpdateConnection(s, None), r, ReleasePhase.Detached)
    case LockByRelease(r) => MoveRelease(s, r, Locked).(lock := Some(ByRelease(r)))
    case CancelChecker(r) =>
      var t := MoveRelease(s, r, Cancelled);
      if s.cancelChecker.None? then t
      else t.(checkers := s.checkers[s.cancelChecker.value := s.checkers[s.cancelChecker.value].(cancelled := true)])
    case UnlockByRelease(r) => MoveRelease(s, r, Released).(cancelChecker := None, lock := None)
    case Expire(k) => MoveChecker(s, k, Storing(false))
    case Store(k) =>
      s.(isLoggedIn := s.checkers[k].phase.status, checkers := s.checkers[k := s.checkers[k].(phase := AtSelect, armed := s.now)])
    case StopChecker(k) => MoveChecker(s, k, Stopped)
    case Tick(now) => s.(now := now)
  }

  // ----- connection handoff -----

  ghost predicate CurrentIsLatest(s: State) {
    && (s.conn.Some? ==>
          s.conn == s.latest && s.conn.value < |s.conns| && !s.conns[s.conn.value].closed && !s.conns[s.conn.value].loop.Ended?)
    && (s.latest.Some? ==> s.latest.value < |s.conns| && !s.conns[s.latest.value].loop.Starting?)
  }

  ghost predicate OthersGone(s: State) {
    && (forall c | 0 <= c < |s.conns| && !s.conns[c].loop.Starting? && s.conn != Some(c) ::
          s.conns[c].closed || s.conns[c].loop.Ended?)
    && (forall c | 0 <= c < |s.conns| && s.conns[c].loop.Starting? :: !s.conns[c].closed)
  }

  /** The current connection is the one attached last, open, with its loop running; every other
      connection ever attached has been closed or its loop has ended. */
  ghost predicate Handoff(s: State) {
    CurrentIsLatest(s) && OthersGone(s)
  }

  lemma StepKeepsCurrent(s: State, l: Label)
    requires Handoff(s) && Enabled(s, l)
    ensures CurrentIsLatest(Apply(s, l))
  {
  }

  lemma StepKeepsHandoff(s: State, l: Label)
    requires Handoff(s) && Enabled(s, l)
    ensures Handoff(Apply(s, l))
  {
    StepKeepsCurrent(s, l);
    assert OthersGone(Apply(s, l));
  }

  // ----- the checker lock -----

  ghost predicate LoopsHold(s: State) {
    && (forall c | 0 <= c < |s.conns| :: s.conns[c].loop.HoldsLock() <==> s.lock == Some(ByLoop(c)))
    && (s.lock.Some? && s.lock.value.ByLoop? ==> s.lock.value.c < |s.conns|)
  }

  ghost predicate ReleasesHold(s: State) {
    && (forall r | 0 <= r < |s.releases| :: s.releases[r].HoldsLock() <==> s.lock == Some(ByRelease(r)))
    && (s.lock.Some? && s.lock.value.ByRelease? ==> s.lock.value.r < |s.releases|)
  }

  /** Whoever is between locking and unlocking is the one holder. */
  ghost predicate LockInv(s: State) {
    LoopsHold(s) && ReleasesHold(s)
  }

  /** A `Release` has called the cancel function and not yet cleared the field. */
  predicate Cancelling(s: State) {
    s.lock.Some? && s.lock.value.ByRelease? && ReleaseAt(s, s.lock.value.r, Cancelled)
  }

  predicate CurrentUncancelled(s: State) {
    && (s.cancelChecker.Some? ==> s.cancelChecker.value < |s.checkers|)
    && (s.cancelChecker.Some? && !Cancelling(s) ==> !s.checkers[s.cancelChecker.value].cancelled)
  }

  /** `cancelChecker` cancels the one checker not yet cancelled. */
  ghost predicate OneChecker(s: State) {
    && CurrentUncancelled(s)
    && (forall k | 0 <= k < |s.checkers| && !s.checkers[k].cancelled :: s.cancelChecker == Some(k) && !s.checkers[k].phase.Stopped?)
  }

  ghost predicate CheckerInv(s: State) {
    && OneChecker(s)
    && (Cancelling(s) ==> forall k | 0 <= k < |s.checkers| :: s.checkers[k].cancelled)
    && (forall c | 0 <= c < |s.conns| && s.conns[c].loop.Sending? :: s.cancelChecker.Some?)
  }

  lemma StepKeepsLoopsHold(s: State, l: Label)
    requires LockInv(s) && Enabled(s, l)
    ensures LoopsHold(Apply(s, l))
  {
  }

  lemma StepKeepsLockInv(s: State, l: Label)
    requires LockInv(s) && Enabled(s, l)
    ensures LockInv(Apply(s, l))
  {
    StepKeepsLoopsHold(s, l);
    assert ReleasesHold(Apply(s, l));
  }

  lemma StepKeepsUncancelled(s: State, l: Label)
    requires LockInv(s) && CheckerInv(s) && Enabled(s, l)
    ensures CurrentUncancelled(Apply(s, l))
  {
  }

  lemma StepKeepsOneChecker(s: State, l: Label)
    requires LockInv(s) && CheckerInv(s) && Enabled(s, l)
    ensures OneChecker(Apply(s, l))
  {
    StepKeepsUncancelled(s, l);
  }

  lemma StepKeepsCheckerInv(s: State, l: Label)
    requires LockInv(s) && CheckerInv(s) && Enabled(s, l)
    ensures CheckerInv(Apply(s, l))
  {
    StepKeepsOneChecker(s, l);
  }

  // ----- timed login freshness -----

  /** No clock is in the future, and an online heartbeat is stored the moment it is taken. */
  ghost predicate Timed(s: State) {
    && s.evidence <= s.now
    && (forall k | 0 <= k < |s.checkers| :: s.checkers[k].armed <= s.now)
    && (forall k | 0 <= k < |s.checkers| && s.checkers[k].phase == Storing(true) :: s.evidence == s.now)
  }

  /** An uncancelled checker is not overdue, and a login flag it left standing has evidence newer than
      its last wait. */
  ghost predicate Fresh(s: State) {
    && Timed(s)
    && (forall k | 0 <= k < |s.checkers| && !s.checkers[k].cancelled ::
          && s.now <= s.checkers[k].armed + CheckInterval(s.checkers[k].interval)
          && (s.isLoggedIn ==> s.checkers[k].armed <= s.evidence))
  }

  lemma StepKeepsTimed(s: State, l: Label)
    requires CheckerInv(s) && Fresh(s) && Enabled(s, l)
    ensures Timed(Apply(s, l))
  {
  }

  lemma StepKeepsFresh(s: State, l: Label)
    requires CheckerInv(s) && Fresh(s) && Enabled(s, l)
    ensures Fresh(Apply(s, l))
  {
    StepKeepsTimed(s, l);
  }

  /** For any announced interval the check interval is three times as long modulo 2^32. */
  lemma IntervalWraps(interval: int)
    ensures 0 <= CheckInterval(interval) < 0x1_0000_0000 && (CheckInterval(interval) - 3 * interval) % 0x1_0000_0000 == 0
    ensures 0 <= interval <= 1431655765 ==> CheckInterval(interval) == 3 * interval
  {
    var low := interval % TWO_32;
    assert interval == TWO_32 * (interval / TWO_32) + low;
    assert CheckInterval(interval) == 3 * low - TWO_32 * (3 * low / TWO_32);
    assert CheckInterval(interval) - 3 * interval == TWO_32 * (-(3 * low / TWO_32) - 3 * (interval / TWO_32));
  }

  /** The uint32 product is three times the announced interval exactly in this range. */
  lemma IntervalExact(interval: int)
    ensures CheckInterval(interval) == 3 * interval <==> 0 <= interval <= 1431655765
  {
  }

  // ----- runs -----

  ghost predicate Inv(s: State) {
    Handoff(s) && LockInv(s) && CheckerInv(s) && Fresh(s)
  }

  predicate StepAt(states: seq<State>, labels: seq<Label>, i: nat)
    requires |states| == |labels| + 1 && i < |labels|
  {
    Enabled(states[i], labels[i]) && states[i + 1] == Apply(states[i], labels[i])
  }

  ghost predicate IsRun(states: seq<State>, labels: seq<Label>) {
    && |states| == |labels| + 1
    && states[0] == INIT
    && forall i: nat | i < |labels| :: StepAt(states, labels, i)
  }

  lemma StepOf(states: seq<State>, labels: seq<Label>, i: nat)
    requires IsRun(states, labels) && i < |labels|
    ensures Enabled(states[i], labels[i]) && states[i + 1] == Apply(states[i], labels[i]) && states[i].now <= states[i + 1].now
  {
    assert StepAt(states, labels, i);
  }

  /** One more step after the first `i`. */
  lemma RunExtends(states: seq<State>, labels: seq<Label>, i: nat, l: Label)
    requires IsRun(states, labels) && i < |states| && Enabled(states[i], l)
    ensures IsRun(states[..i + 1] + [Apply(states[i], l)], labels[..i] + [l])
  {
    var more, done := states[..i + 1] + [Apply(states[i], l)], labels[..i] + [l];
    forall j: nat | j < |done| ensures StepAt(more, done, j) {
      assert j < i ==> StepAt(states, labels, j);
    }
  }

  lemma {:induction false} RunKeepsInv(states: seq<State>, labels: seq<Label>, i: nat)
    requires IsRun(states, labels) && i < |states|
    ensures Inv(states[i])
  {
    if i > 0 {
      RunKeepsInv(states, labels, i - 1);
      StepOf(states, labels, i - 1);
      StepKeepsHandoff(states[i - 1], labels[i - 1]);
      StepKeepsLockInv(states[i - 1], labels[i - 1]);
      StepKeepsCheckerInv(states[i - 1], labels[i - 1]);
      StepKeepsFresh(states[i - 1], labels[i - 1]);
    }
  }

  /** In every run the current connection is none or the one attached last, still open; any other
      connection ever attached is closed or its loop is over; and a loop's exit changes the current
      connection only if that loop's connection is the one attached last. */
  lemma ConnectionHandoff(states: seq<State>, labels: seq<Label>, i: nat)
    requires IsRun(states, labels) && i < |states|
    ensures states[i].conn.Some? ==>
      states[i].conn == states[i].latest && states[i].conn.value < |states[i].conns| && !states[i].conns[states[i].conn.value].closed
    ensures forall c | 0 <= c < |states[i].conns| && !states[i].conns[c].loop.Starting? && states[i].conn != Some(c) ::
      states[i].conns[c].closed || states[i].conns[c].loop.Ended?
    ensures i < |labels| && labels[i].Detach? && states[i + 1].conn != states[i].conn ==>
      states[i].latest == Some(labels[i].c) && states[i + 1].conn == None
  {
    RunKeepsInv(states, labels, i);
    if i < |labels| {
      StepOf(states, labels, i);
    }
  }

  /** What counts: `latest` is the connection whose loop attached last, and the evidence for the login flag
      is renewed only by a lifecycle connect, a status "online" taken by a checker, and the start of a
      checker. */
  lemma HistoryMeans(states: seq<State>, labels: seq<Label>, i: nat)
    requires IsRun(states, labels) && i < |labels|
    ensures states[i + 1].latest == if labels[i].Attach? then Some(labels[i].c) else states[i].latest
    ensures states[i + 1].evidence != states[i].evidence ==>
      && states[i + 1].evidence == states[i].now
      && (labels[i].LifecycleConnect? || (labels[i].Deliver? && LoopAt(states[i], labels[i].c, Sending(true)))
          || (labels[i].EnsureChecker? && states[i].cancelChecker.None?))
  {
    StepOf(states, labels, i);
  }

  /** In every run a true login flag was vouched for within the current checker's interval. */
  lemma LoginFresh(states: seq<State>, labels: seq<Label>, i: nat, k: nat)
    requires IsRun(states, labels) && i < |states|
    requires k < |states[i].checkers| && !states[i].checkers[k].cancelled
    ensures states[i].isLoggedIn ==>
      states[i].now - states[i].evidence <= CheckInterval(states[i].checkers[k].interval)
  {
    RunKeepsInv(states, labels, i);
  }

  /** Checker `k`, of this interval, has entered its select at time `since` or later. */
  predicate ArmedSince(s: State, k: nat, since: nat, interval: int) {
    k < |s.checkers| && s.checkers[k].interval == interval && since <= s.checkers[k].armed && since <= s.now
  }

  lemma StepKeepsArmed(s: State, l: Label, k: nat, since: nat, interval: int)
    requires ArmedSince(s, k, since, interval) && Enabled(s, l)
    ensures ArmedSince(Apply(s, l), k, since, interval)
  {
  }

  lemma {:induction false} StaysArmed(states: seq<State>, labels: seq<Label>, i: nat, j: nat, k: nat, since: nat, interval: int)
    requires IsRun(states, labels) && i <= j < |states| && ArmedSince(states[i], k, since, interval)
    ensures ArmedSince(states[j], k, since, interval)
    decreases j
  {
    if i < j {
      StaysArmed(states, labels, i, j - 1, k, since, interval);
      StepOf(states, labels, j - 1);
      StepKeepsArmed(states[j - 1], labels[j - 1], k, since, interval);
    }
  }

  /** A checker's timer never fires before a whole check interval has passed since it last stored a status. */
  lemma ExpiryIsLate(states: seq<State>, labels: seq<Label>, i: nat, j: nat, k: nat)
    requires IsRun(states, labels) && i < j < |labels| && labels[i] == Store(k) && labels[j] == Expire(k)
    ensures k < |states[i].checkers| && states[j].now - states[i].now >= CheckInterval(states[i].checkers[k].interval)
  {
    StepOf(states, labels, i);
    StepOf(states, labels, j);
    StaysArmed(states, labels, i + 1, j, k, states[i].now, states[i].checkers[k].interval);
  }

  /** The flag is set, and the one checker that has not stopped, `k`, will not reset it before its timer. */
  predicate Quiet(s: State, k: nat, since: nat, interval: int) {
    && s.isLoggedIn && ArmedSince(s, k, since, interval) && !s.checkers[k].cancelled
    && (s.checkers[k].phase.AtSelect? || s.checkers[k].phase == Storing(true))
    && (forall j | 0 <= j < |s.checkers| && j != k :: s.checkers[j].phase.Stopped?)
  }

  /** This step takes no offline heartbeat and cancels no checker. */
  predicate LeavesUp(s: State, l: Label) {
    !l.CancelChecker? && (l.Deliver? ==> l.c < |s.conns| && s.conns[l.c].loop == Sending(true))
  }

  lemma StepKeepsQuiet(s: State, l: Label, k: nat, since: nat, interval: int)
    requires LockInv(s) && CheckerInv(s) && Enabled(s, l) && Quiet(s, k, since, interval) && LeavesUp(s, l)
    requires s.now < since + CheckInterval(interval)
    ensures Quiet(Apply(s, l), k, since, interval)
  {
    if l.UnlockByRelease? {
      assert s.releases[l.r].HoldsLock();
    }
  }

  /** A flag set by an online heartbeat stays up until the checker's interval has passed: as long as no
      offline heartbeat is taken, the checker is not cancelled, and none cancelled before is still
      running. */
  lemma {:induction false} FlagStays(states: seq<State>, labels: seq<Label>, i: nat, n: nat, k: nat, since: nat, interval: int)
    requires IsRun(states, labels) && i <= n < |states| && Quiet(states[i], k, since, interval)
    requires forall j: nat | i <= j < n :: LeavesUp(states[j], labels[j])
    requires states[n].now < since + CheckInterval(interval)
    ensures Quiet(states[n], k, since, interval) && states[n].isLoggedIn
    decreases n
  {
    if i < n {
      StepOf(states, labels, n - 1);
      FlagStays(states, labels, i, n - 1, k, since, interval);
      RunKeepsInv(states, labels, n - 1);
      StepKeepsQuiet(states[n - 1], labels[n - 1], k, since, interval);
    }
  }

  // ----- heartbeat delivery cannot deadlock -----

  /** How many of its own steps checker `k` needs before it can accept a send. */
  function StepsToAccept(s: State, k: nat): nat
    requires k < |s.checkers|
  {
    match s.checkers[k].phase
    case AtSelect => 0
    case Storing(_) => 1
    case Stopped => 2
  }

  /** In every run, a read loop waiting at the status send holds the checker lock and faces exactly
      one uncancelled checker, which can take the send now or after its one pending store. */
  lemma SendFindsChecker(states: seq<State>, labels: seq<Label>, i: nat, c: nat) returns (k: nat)
    requires IsRun(states, labels) && i < |states|
    requires c < |states[i].conns| && states[i].conns[c].loop.Sending?
    ensures states[i].lock == Some(ByLoop(c))
    ensures states[i].cancelChecker == Some(k) && k < |states[i].checkers|
    ensures forall j | 0 <= j < |states[i].checkers| :: !states[i].checkers[j].cancelled <==> j == k
    ensures StepsToAccept(states[i], k) <= 1
    ensures StepsToAccept(states[i], k) == 0 ==> Enabled(states[i], Deliver(c, k))
    ensures StepsToAccept(states[i], k) == 1 ==>
      Enabled(states[i], Store(k)) && Enabled(Apply(states[i], Store(k)), Deliver(c, k))
  {
    RunKeepsInv(states, labels, i);
    assert states[i].conns[c].loop.HoldsLock();
    k := states[i].cancelChecker.value;
  }

  lemma StepKeepsSend(s: State, l: Label, c: nat, k: nat)
    requires LockInv(s) && CheckerInv(s) && Enabled(s, l)
    requires c < |s.conns| && s.conns[c].loop.Sending? && s.cancelChecker == Some(k)
    requires l.Deliver? ==> l.c != c
    ensures var t := Apply(s, l);
      && c < |t.conns| && t.conns[c].loop == s.conns[c].loop
      && t.cancelChecker == Some(k) && k < |s.checkers| <= |t.checkers| && !t.checkers[k].cancelled
      && (l != Expire(k) ==> StepsToAccept(t, k) <= StepsToAccept(s, k))
  {
    assert s.conns[c].loop.HoldsLock();
    assert s.lock == Some(ByLoop(c));
  }

  /** Whatever else happens, a waiting send keeps its checker: until some checker takes the status,
      nobody cancels that checker or moves the loop, and only the checker's own timer can send it
      back to its one-step store. */
  lemma SendKeepsChecker(states: seq<State>, labels: seq<Label>, i: nat, c: nat, k: nat)
    requires IsRun(states, labels) && i < |labels|
    requires c < |states[i].conns| && states[i].conns[c].loop.Sending? && states[i].cancelChecker == Some(k)
    requires labels[i].Deliver? ==> labels[i].c != c
    ensures c < |states[i + 1].conns| && states[i + 1].conns[c].loop == states[i].conns[c].loop
    ensures states[i + 1].cancelChecker == Some(k) && k < |states[i].checkers| <= |states[i + 1].checkers|
    ensures !states[i + 1].checkers[k].cancelled
    ensures labels[i] != Expire(k) ==> StepsToAccept(states[i + 1], k) <= StepsToAccept(states[i], k)
  {
    RunKeepsInv(states, labels, i);
    StepOf(states, labels, i);
    StepKeepsSend(states[i], labels[i], c, k);
  }

  /** Steps of whoever holds the lock, or the store of a checker; nothing from outside. */
  predicate HolderStep(l: Label) {
    l.EnsureChecker? || l.Deliver? || l.Store? || l.UnlockByLoop? || l.CancelChecker? || l.UnlockByRelease?
  }

  /** At most `n` such steps free the lock. */
  ghost predicate FreeIn(s: State, n: nat)
    decreases n
  {
    s.lock.None? || (n > 0 && exists l: Label :: HolderStep(l) && Enabled(s, l) && FreeIn(Apply(s, l), n - 1))
  }

  lemma OneStepSooner(s: State, l: Label, n: nat)
    requires HolderStep(l) && Enabled(s, l) && FreeIn(Apply(s, l), n)
    ensures FreeIn(s, n + 1)
  {
  }

  lemma {:induction false} FreeLater(s: State, n: nat, m: nat)
    requires FreeIn(s, n) && n <= m
    ensures FreeIn(s, m)
    decreases n
  {
    if s.lock.Some? {
      var l :| HolderStep(l) && Enabled(s, l) && FreeIn(Apply(s, l), n - 1);
      FreeLater(Apply(s, l), n - 1, m - 1);
    }
  }

  /** From a blocked or unblocked send: the current checker stores if it has to, takes the status,
      and the loop unlocks. */
  lemma SendGoesThrough(s: State, c: nat)
    requires Inv(s) && c < |s.conns| && s.conns[c].loop.Sending?
    ensures FreeIn(s, 3)
  {
    assert s.lock == Some(ByLoop(c));
    var k := s.cancelChecker.value;
    var u := if s.checkers[k].phase.Storing? then Apply(s, Store(k)) else s;
    var v := Apply(u, Deliver(c, k));
    assert FreeIn(Apply(v, UnlockByLoop(c)), 0);
    OneStepSooner(v, UnlockByLoop(c), 0);
    OneStepSooner(u, Deliver(c, k), 1);
    if s.checkers[k].phase.Storing? {
      OneStepSooner(s, Store(k), 2);
    } else {
      FreeLater(s, 2, 3);
    }
  }

  /** The lock is never stuck: from every reachable state, at most four steps of its holder and the
      current checker free it, without waiting for time or for anybody else. */
  lemma LockIsReleased(states: seq<State>, labels: seq<Label>, i: nat)
    requires IsRun(states, labels) && i < |states|
    ensures FreeIn(states[i], 4)
  {
    RunKeepsInv(states, labels, i);
    var s := states[i];
    if s.lock.Some? {
      match s.lock.value {
        case ByLoop(c) => LoopUnlocks(s, c);
        case ByRelease(r) => ReleaseUnlocks(s, r);
      }
    }
  }

  lemma LoopUnlocks(s: State, c: nat)
    requires Inv(s) && s.lock == Some(ByLoop(c))
    ensures FreeIn(s, 4)
  {
    assert s.conns[c].loop.HoldsLock();
    if s.conns[c].loop.Sending? {
      SendGoesThrough(s, c);
      FreeLater(s, 3, 4);
    } else if s.conns[c].loop.Checking? {
      var l := EnsureChecker(c);
      StepKeepsHandoff(s, l);
      StepKeepsLockInv(s, l);
      StepKeepsCheckerInv(s, l);
      StepKeepsFresh(s, l);
      SendGoesThrough(Apply(s, l), c);
      OneStepSooner(s, l, 3);
    } else {
      OneStepSooner(s, UnlockByLoop(c), 0);
      FreeLater(s, 1, 4);
    }
  }

  lemma ReleaseUnlocks(s: State, r: nat)
    requires Inv(s) && s.lock == Some(ByRelease(r))
    ensures FreeIn(s, 4)
  {
    assert s.releases[r].HoldsLock();
    var u := if s.releases[r].Locked? then Apply(s, CancelChecker(r)) else s;
    OneStepSooner(u, UnlockByRelease(r), 0);
    if s.releases[r].Locked? {
      OneStepSooner(s, CancelChecker(r), 1);
      FreeLater(s, 2, 4);
    } else {
      FreeLater(s, 1, 4);
    }
  }

  // ----- what freshness needs the checker for -----

  predicate NoPendingStore(s: State) {
    forall k | 0 <= k < |s.checkers| :: !s.checkers[k].phase.Storing?
  }

  predicate Unchecked(s: State) {
    forall k | 0 <= k < |s.checkers| :: s.checkers[k].cancelled
  }

  /** However long time is left to pass, the evidence gets no older than `age`. */
  ghost predicate AgesAtMost(s: State, age: nat) {
    forall t: nat | Enabled(s, Tick(t)) :: t - s.evidence <= age
  }

  /** Any reachable state with the flag set and all checkers cancelled, if there ever were any: the run
      can go on by letting any length of time pass, and the flag still stands. */
  lemma StaleWithoutChecker(states: seq<State>, labels: seq<Label>, i: nat, age: nat)
    requires IsRun(states, labels) && i < |states|
    requires states[i].isLoggedIn && Unchecked(states[i]) && NoPendingStore(states[i])
    ensures var l := Tick(states[i].now + age);
      && Enabled(states[i], l)
      && IsRun(states[..i + 1] + [Apply(states[i], l)], labels[..i] + [l])
      && Apply(states[i], l).isLoggedIn && Apply(states[i], l).now - Apply(states[i], l).evidence >= age
  {
    RunKeepsInv(states, labels, i);
    RunExtends(states, labels, i, Tick(states[i].now + age));
  }

  /** In a reachable state with the flag set and no store pending, the age of the evidence stays bounded
      as time passes exactly when some checker is not cancelled, and then by that checker's interval. */
  lemma FreshExactly(states: seq<State>, labels: seq<Label>, i: nat)
    requires IsRun(states, labels) && i < |states|
    requires states[i].isLoggedIn && NoPendingStore(states[i])
    ensures (exists age: nat :: AgesAtMost(states[i], age)) <==> !Unchecked(states[i])
    ensures forall k | 0 <= k < |states[i].checkers| && !states[i].checkers[k].cancelled ::
      AgesAtMost(states[i], CheckInterval(states[i].checkers[k].interval))
  {
    RunKeepsInv(states, labels, i);
    var s := states[i];
    forall k | 0 <= k < |s.checkers| && !s.checkers[k].cancelled
      ensures AgesAtMost(s, CheckInterval(s.checkers[k].interval))
    {
    }
    if Unchecked(s) {
      forall age: nat ensures !AgesAtMost(s, age) {
        StaleWithoutChecker(states, labels, i, age + 1);
      }
    }
  }

  /** One more step. */
  lemma Extend(states: seq<State>, labels: seq<Label>, l: Label) returns (more: seq<State>, done: seq<Label>)
    requires IsRun(states, labels) && Enabled(states[|labels|], l)
    ensures IsRun(more, done) && more[|done|] == Apply(states[|labels|], l)
  {
    more, done := states + [Apply(states[|labels|], l)], labels + [l];
    RunExtends(states, labels, |labels|, l);
    assert states[..|labels| + 1] == states && labels[..|labels|] == labels;
  }

  /** A connected client that has taken an online heartbeat. */
  lemma OneHeartbeat(interval: int) returns (states: seq<State>, labels: seq<Label>)
    ensures IsRun(states, labels)
    ensures states[|labels|] == INIT.(conns := [Conn(Reading, false)], conn := Some(0), latest := Some(0),
      cancelChecker := Some(0), checkers := [Checker(interval, false, AtSelect, 0)], isLoggedIn := true)
  {
    states, labels := [INIT], [];
    states, labels := Extend(states, labels, Spawn);
    states, labels := Extend(states, labels, Attach(0));
    states, labels := Extend(states, labels, Heartbeat(0, true, interval));
    states, labels := Extend(states, labels, LockByLoop(0));
    states, labels := Extend(states, labels, EnsureChecker(0));
    states, labels := Extend(states, labels, Deliver(0, 0));
    states, labels := Extend(states, labels, Store(0));
    states, labels := Extend(states, labels, UnlockByLoop(0));
  }

  predicate LeftLoggedIn(s: State) {
    && s.releases == [Released] && s.conn.None? && s.cancelChecker.None?
    && |s.checkers| == 1 && Unchecked(s) && NoPendingStore(s) && s.isLoggedIn
  }

  /** A `Release` after that heartbeat, up to the lock. */
  lemma LockAfterHeartbeat(interval: int) returns (states: seq<State>, labels: seq<Label>)
    ensures IsRun(states, labels)
    ensures states[|labels|] == INIT.(conns := [Conn(Reading, true)], latest := Some(0), releases := [Locked],
      lock := Some(ByRelease(0)), cancelChecker := Some(0), checkers := [Checker(interval, false, AtSelect, 0)], isLoggedIn := true)
  {
    states, labels := OneHeartbeat(interval);
    states, labels := Extend(states, labels, BeginRelease);
    states, labels := Extend(states, labels, ReleaseConn(0));
    states, labels := Extend(states, labels, LockByRelease(0));
  }

  lemma ReleaseAfterHeartbeat(interval: int) returns (states: seq<State>, labels: seq<Label>)
    ensures IsRun(states, labels) && LeftLoggedIn(states[|labels|])
  {
    states, labels := LockAfterHeartbeat(interval);
    states, labels := Extend(states, labels, CancelChecker(0));
    states, labels := Extend(states, labels, UnlockByRelease(0));
  }

  /** The ordinary way there: a heartbeat, then `Release`. The client has neither connection nor checker
      and is still marked as logged in. */
  lemma ReleasedStillLoggedIn()
    ensures exists states: seq<State>, labels: seq<Label> :: IsRun(states, labels) && LeftLoggedIn(states[|labels|])
  {
    var states, labels := ReleaseAfterHeartbeat(30000);
  }

  // ----- what a release guarantees -----

  predicate Inactive(s: State) {
    s.conn.None? && s.cancelChecker.None?
  }

  /** A continuation of `s` in which no further connection is admitted. */
  ghost predicate Continues(s: State, states: seq<State>, labels: seq<Label>) {
    && |states| == |labels| + 1
    && states[0] == s
    && forall i | 0 <= i < |labels| ::
         !labels[i].Spawn? && Enabled(states[i], labels[i]) && states[i + 1] == Apply(states[i], labels[i])
  }

  ghost predicate StaysInactive(s: State) {
    forall states: seq<State>, labels: seq<Label> | Continues(s, states, labels) :: Inactive(states[|labels|])
  }

  predicate LoopsOver(s: State) {
    forall c | 0 <= c < |s.conns| :: s.conns[c].loop.Exiting? || s.conns[c].loop.Ended?
  }

  lemma {:induction false} OverAndInactive(s: State, states: seq<State>, labels: seq<Label>, i: nat)
    requires Continues(s, states, labels) && i < |states| && Inactive(s) && LoopsOver(s)
    ensures Inactive(states[i]) && LoopsOver(states[i])
  {
    if i > 0 {
      OverAndInactive(s, states, labels, i - 1);
      assert Enabled(states[i - 1], labels[i - 1]);
    }
  }

  lemma ActiveNow(s: State)
    requires !Inactive(s)
    ensures !StaysInactive(s)
  {
    assert Continues(s, [s], []);
  }

  lemma ActiveAfter(s: State, l: Label)
    requires Enabled(s, l) && !l.Spawn? && !StaysInactive(Apply(s, l))
    ensures !StaysInactive(s)
  {
    var states: seq<State>, labels: seq<Label> :| Continues(Apply(s, l), states, labels) && !Inactive(states[|labels|]);
    assert Continues(s, [s] + states, [l] + labels);
    assert ([s] + states)[|labels| + 1] == states[|labels|];
  }

  /** A loop that is not over makes the client active again by its own steps. */
  lemma LoopReactivates(s: State, c: nat)
    requires s.lock.None? && c < |s.conns| && s.conns[c].loop.WantLock?
    ensures !StaysInactive(s)
  {
    var t := Apply(s, LockByLoop(c));
    ActiveNow(Apply(t, EnsureChecker(c)));
    ActiveAfter(t, EnsureChecker(c));
    ActiveAfter(s, LockByLoop(c));
  }

  /** No read loop is still to attach, reading, or waiting for the lock. */
  predicate NoLoopLeft(s: State) {
    forall c | 0 <= c < |s.conns| :: !s.conns[c].loop.Starting? && !s.conns[c].loop.Reading? && !s.conns[c].loop.WantLock?
  }

  /** What `Release` guarantees in an interleaving: the client stays without connection and checker, however
      the run goes on without a new connection being admitted, exactly when at the unlocking none is
      installed and no read loop is left. */
  lemma ReleaseHolds(states: seq<State>, labels: seq<Label>, i: nat)
    requires IsRun(states, labels) && i < |labels| && labels[i].UnlockByRelease?
    ensures StaysInactive(states[i + 1]) <==> states[i + 1].conn.None? && NoLoopLeft(states[i + 1])
  {
    RunKeepsInv(states, labels, i + 1);
    StepOf(states, labels, i);
    var s := states[i + 1];
    assert forall c | 0 <= c < |s.conns| :: !s.conns[c].loop.HoldsLock();
    if !Inactive(s) {
      ActiveNow(s);
    } else if NoLoopLeft(s) {
      forall ss: seq<State>, ls: seq<Label> | Continues(s, ss, ls) ensures Inactive(ss[|ls|]) {
        OverAndInactive(s, ss, ls, |ls|);
      }
    } else {
      var c: nat :| c < |s.conns| && (s.conns[c].loop.Starting? || s.conns[c].loop.Reading? || s.conns[c].loop.WantLock?);
      match s.conns[c].loop {
        case Starting =>
          ActiveNow(Apply(s, Attach(c)));
          ActiveAfter(s, Attach(c));
        case Reading =>
          LoopReactivates(Apply(s, Heartbeat(c, true, 0)), c);
          ActiveAfter(s, Heartbeat(c, true, 0));
        case WantLock(_, _) =>
          LoopReactivates(s, c);
      }
    }
  }
}
