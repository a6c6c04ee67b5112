/** Who may stop which resync loop: `startLoops` and `Disconnect` race on one atomic pointer. */
module LoopOwnership {
  import opened Strings

  /** A caller of `startLoops` makes a context, swaps its cancel function in, cancels what it swapped
      out, and only then spawns the loop; a caller of `Disconnect` swaps nothing in. */
  datatype Caller =
    | Created(own: nat)
    | Starting(own: nat, victim: Option<nat>)
    | Spawning(own: nat)
    | Stopping(victim: Option<nat>)
    | Returned

  /** Loops are named by their contexts; `stopLoops` holds the cancel function of one of them. */
  datatype State = State(stopLoops: Option<nat>, cancelled: seq<bool>, spawned: set<nat>, callers: seq<Caller>)

  datatype Label =
    | Create
    | SwapIn(t: nat)
    | CancelOld(t: nat)
    | SpawnLoop(t: nat)
    | SwapOut
    | CancelLast(t: nat)

  const INIT := State(None, [], {}, [])

  predicate Enabled(s: State, l: Label) {
    match l
    case Create => true
    case SwapIn(t) => t < |s.callers| && s.callers[t].Created?
    case CancelOld(t) => t < |s.callers| && s.callers[t].Starting?
    case SpawnLoop(t) => t < |s.callers| && s.callers[t].Spawning?
    case SwapOut => true
    case CancelLast(t) => t < |s.callers| && s.callers[t].Stopping?
  }

  function Cancel(cancelled: seq<bool>, victim: Option<nat>): seq<bool> {
    if victim.Some? && victim.value < |cancelled| then cancelled[victim.value := true] else cancelled
  }

  function Apply(s: State, l: Label): State
    requires Enabled(s, l)
  {
    match l
    case Create => s.(cancelled := s.cancelled + [false], callers := s.callers + [Created(|s.cancelled|)])
    case SwapIn(t) =>
      var own := s.callers[t].own;
      s.(stopLoops := Some(own), callers := s.callers[t := Starting(own, s.stopLoops)])
    case CancelOld(t) =>
      s.(cancelled := Cancel(s.cancelled, s.callers[t].victim), callers := s.callers[t := Spawning(s.callers[t].own)])
    case SpawnLoop(t) => s.(spawned := s.spawned + {s.callers[t].own}, callers := s.callers[t := Returned])
    case SwapOut => s.(stopLoops := None, callers := s.callers + [Stopping(s.stopLoops)])
    case CancelLast(t) => s.(cancelled := Cancel(s.cancelled, s.callers[t].victim), callers := s.callers[t := Returned])
  }

  /** Caller `t` holds the cancel function of loop `l` and has yet to call it or to hand it over. */
  predicate Holds(s: State, t: nat, l: nat) {
    t < |s.callers| &&
    match s.callers[t]
    case Created(own) => own == l
    case Starting(_, victim) => victim == Some(l)
    case Stopping(victim) => victim == Some(l)
    case _ => false
  }

  /** Caller `t` is about to cancel loop `l`. */
  predicate WillCancel(s: State, t: nat, l: nat) {
    t < |s.callers| && (s.callers[t].Starting? || s.callers[t].Stopping?) && s.callers[t].victim == Some(l)
  }

  /** Caller `t` has made loop `l` and not yet spawned it. */
  predicate Makes(s: State, t: nat, l: nat) {
    t < |s.callers| && (s.callers[t].Created? || s.callers[t].Starting? || s.callers[t].Spawning?) && s.callers[t].own == l
  }

  ghost predicate Owned(s: State, l: nat) {
    s.stopLoops == Some(l) || exists t: nat :: Holds(s, t, l)
  }

  ghost predicate Inv(s: State) {
    && (s.stopLoops.Some? ==> s.stopLoops.value < |s.cancelled|)
    && (forall t: nat, l: nat | Holds(s, t, l) :: l < |s.cancelled|)
    && (forall l: nat | l < |s.cancelled| && !s.cancelled[l] :: Owned(s, l))
    && (forall l | l in s.spawned :: l < |s.cancelled|)
    && (forall t: nat, l: nat | Makes(s, t, l) :: l < |s.cancelled| && l !in s.spawned)
    && (forall t: nat, u: nat, l: nat | Makes(s, t, l) && Makes(s, u, l) :: t == u)
  }

  lemma StepKeepsInv(s: State, l: Label)
    requires Inv(s) && Enabled(s, l)
    ensures Inv(Apply(s, l))
  {
    var t := Apply(s, l);
    if l.SwapIn? || l.CancelOld? || l.SpawnLoop? {
      assert Makes(s, l.t, s.callers[l.t].own);
    }
    forall x: nat | x < |t.cancelled| && !t.cancelled[x] ensures Owned(t, x) {
      if x < |s.cancelled| {
        assert Owned(s, x);
        if s.stopLoops == Some(x) {
          match l {
            case SwapIn(c) => assert Holds(t, c, x);
            case SwapOut => assert Holds(t, |s.callers|, x);
            case _ =>
          }
        } else {
          var c: nat :| Holds(s, c, x);
          assert Holds(t, c, x) || t.stopLoops == Some(x);
        }
      } else {
        assert Holds(t, |s.callers|, x);
      }
    }
    assert forall c: nat, x: nat | Makes(t, c, x) :: Makes(s, c, x) || (l.Create? && x == |s.cancelled| && c == |s.callers|);
    forall c: nat, x: nat | Holds(t, c, x) ensures x < |t.cancelled| {
      assert Holds(s, c, x) || s.stopLoops == Some(x) || x == |s.cancelled|;
    }
  }

  ghost predicate IsRun(states: seq<State>, labels: seq<Label>) {
    && |states| == |labels| + 1
    && states[0] == INIT
    && forall i | 0 <= i < |labels| :: Enabled(states[i], labels[i]) && states[i + 1] == Apply(states[i], labels[i])
  }

  lemma {:induction false} RunKeepsInv(states: seq<State>, labels: seq<Label>, i: nat)
    requires IsRun(states, labels) && i < |states|
    ensures Inv(states[i])
  {
    if i > 0 {
      RunKeepsInv(states, labels, i - 1);
      StepKeepsInv(states[i - 1], labels[i - 1]);
    }
  }

  /** The last swap of `stopLoops` before step `i` was a disconnect's. */
  predicate DisconnectCameLast(labels: seq<Label>, i: nat)
    requires i <= |labels|
  {
    exists k | 0 <= k < i :: labels[k].SwapOut? && forall j | k < j < i :: !labels[j].SwapIn?
  }

  lemma {:induction false} NothingInstalled(states: seq<State>, labels: seq<Label>, k: nat, i: nat)
    requires IsRun(states, labels) && k < i < |states|
    requires labels[k].SwapOut? && forall j | k < j < i :: !labels[j].SwapIn?
    ensures states[i].stopLoops == None
  {
    assert Enabled(states[i - 1], labels[i - 1]);
    if k < i - 1 {
      NothingInstalled(states, labels, k, i - 1);
      assert !labels[i - 1].SwapIn?;
    }
  }

  /** In every interleaving each spawned loop that is not cancelled can still be stopped: its cancel
      function is in `stopLoops` or with a caller about to call it. Once all callers have returned at
      most the loop in `stopLoops` is left, and none if a disconnect came last. */
  lemma LoopsOwned(states: seq<State>, labels: seq<Label>, i: nat)
    requires IsRun(states, labels) && i < |states|
    ensures forall l | l in states[i].spawned :: l < |states[i].cancelled|
    ensures forall l | l in states[i].spawned && l < |states[i].cancelled| && !states[i].cancelled[l] ::
      states[i].stopLoops == Some(l) || exists t: nat :: WillCancel(states[i], t, l)
    ensures (forall t | 0 <= t < |states[i].callers| :: states[i].callers[t].Returned?) ==>
      forall l: nat | l < |states[i].cancelled| && !states[i].cancelled[l] :: states[i].stopLoops == Some(l)
    ensures (forall t | 0 <= t < |states[i].callers| :: states[i].callers[t].Returned?) && DisconnectCameLast(labels, i) ==>
      forall l: nat | l < |states[i].cancelled| :: states[i].cancelled[l]
  {
    RunKeepsInv(states, labels, i);
    var s := states[i];
    forall l | l in s.spawned && !s.cancelled[l]
      ensures s.stopLoops == Some(l) || exists t: nat :: WillCancel(s, t, l)
    {
      assert Owned(s, l);
      if s.stopLoops != Some(l) {
        var t: nat :| Holds(s, t, l);
        assert !Makes(s, t, l);
        assert WillCancel(s, t, l);
      }
    }
    forall l: nat | l < |s.cancelled| && !s.cancelled[l]
      ensures s.stopLoops == Some(l) || exists t: nat :: Holds(s, t, l)
    {
      assert Owned(s, l);
    }
    if DisconnectCameLast(labels, i) {
      var k :| 0 <= k < i && labels[k].SwapOut? && forall j | k < j < i :: !labels[j].SwapIn?;
      NothingInstalled(states, labels, k, i);
    }
  }

  /** Where these steps lead from `s`, if each is enabled in its turn. */
  function After(s: State, steps: seq<Label>): Option<State> {
    if steps == [] then Some(s) else
      var n := |steps| - 1;
      match After(s, steps[..n])
      case None => None
      case Some(t) => if Enabled(t, steps[n]) then Some(Apply(t, steps[n])) else None
  }

  /** Some interleaving leads to `s`. */
  ghost predicate Reachable(s: State) {
    exists steps: seq<Label> :: After(INIT, steps) == Some(s)
  }

  lemma StartReachable()
    ensures Reachable(INIT)
  {
    assert After(INIT, []) == Some(INIT);
  }

  lemma StepReachable(s: State, l: Label)
    requires Reachable(s) && Enabled(s, l)
    ensures Reachable(Apply(s, l))
  {
    var steps: seq<Label> :| After(INIT, steps) == Some(s);
    assert (steps + [l])[..|steps|] == steps;
    assert After(INIT, steps + [l]) == Some(Apply(s, l));
  }

  lemma {:induction false} AfterIsRun(steps: seq<Label>) returns (states: seq<State>)
    requires After(INIT, steps).Some?
    ensures IsRun(states, steps) && states[|steps|] == After(INIT, steps).value
  {
    if steps == [] {
      states := [INIT];
    } else {
      var n := |steps| - 1;
      var before := AfterIsRun(steps[..n]);
      states := before + [Apply(before[n], steps[n])];
    }
  }

  lemma ReachableInv(s: State)
    requires Reachable(s)
    ensures Inv(s)
  {
    var steps: seq<Label> :| After(INIT, steps) == Some(s);
    var states := AfterIsRun(steps);
    RunKeepsInv(states, steps, |steps|);
  }

  /** The steps of a caller of `startLoops` with nothing in between, and where they lead. */
  function StartSteps(s: State): seq<Label> {
    var t := |s.callers|;
    [Create, SwapIn(t), CancelOld(t), SpawnLoop(t)]
  }

  function Started(s: State): State {
    State(Some(|s.cancelled|), Cancel(s.cancelled, s.stopLoops) + [false], s.spawned + {|s.cancelled|}, s.callers + [Returned])
  }

  lemma AfterTwo(s: State, l: Label, t: State, m: Label, u: State)
    requires Enabled(s, l) && t == Apply(s, l) && Enabled(t, m) && u == Apply(t, m)
    ensures After(s, [l, m]) == Some(u)
    ensures Reachable(s) ==> Reachable(u)
  {
    assert [l, m][..1] == [l] && [l][..0] == [];
    assert After(s, [l]) == Some(t);
    if Reachable(s) {
      StepReachable(s, l);
      StepReachable(t, m);
    }
  }

  lemma AfterFour(s: State, l: Label, m: Label, t: State, n: Label, o: Label, u: State)
    requires After(s, [l, m]) == Some(t) && After(t, [n, o]) == Some(u)
    ensures After(s, [l, m, n, o]) == Some(u)
  {
    assert [n, o][..1] == [n] && [n][..0] == [] && After(t, []) == Some(t);
    var v := After(t, [n]).value;
    assert [l, m, n][..2] == [l, m];
    assert After(s, [l, m, n]) == Some(v);
    assert [l, m, n, o][..3] == [l, m, n];
  }

  lemma StartAlone(s: State)
    requires Reachable(s)
    ensures After(s, StartSteps(s)) == Some(Started(s)) && Reachable(Started(s))
  {
    ReachableInv(s);
    assert Cancel(s.cancelled + [false], s.stopLoops) == Cancel(s.cancelled, s.stopLoops) + [false];
    var t, own := |s.callers|, |s.cancelled|;
    var a := s.(cancelled := s.cancelled + [false], callers := s.callers + [Created(own)]);
    var b := a.(stopLoops := Some(own), callers := s.callers + [Starting(own, s.stopLoops)]);
    assert a.callers[t := Starting(own, s.stopLoops)] == b.callers;
    AfterTwo(s, Create, a, SwapIn(t), b);
    var c := b.(cancelled := Cancel(a.cancelled, s.stopLoops), callers := s.callers + [Spawning(own)]);
    assert b.callers[t := Spawning(own)] == c.callers;
    assert c.callers[t := Returned] == s.callers + [Returned];
    AfterTwo(b, CancelOld(t), c, SpawnLoop(t), Started(s));
    AfterFour(s, Create, SwapIn(t), b, CancelOld(t), SpawnLoop(t), Started(s));
  }

  /** The steps of a caller of `Disconnect` with nothing in between, and where they lead. */
  function StopSteps(s: State): seq<Label> {
    [SwapOut, CancelLast(|s.callers|)]
  }

  function Stopped(s: State): State {
    State(None, Cancel(s.cancelled, s.stopLoops), s.spawned, s.callers + [Returned])
  }

  lemma StopAlone(s: State)
    requires Reachable(s)
    ensures After(s, StopSteps(s)) == Some(Stopped(s)) && Reachable(Stopped(s))
  {
    var t := |s.callers|;
    var a := Apply(s, SwapOut);
    assert a.callers[t := Returned] == s.callers + [Returned];
    AfterTwo(s, SwapOut, a, CancelLast(t), Stopped(s));
  }
}
