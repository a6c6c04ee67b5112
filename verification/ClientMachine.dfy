/** The whole client: requests and connections interleaved arbitrarily, meeting where a request is
    written to the current connection under the connection lock. */
module ClientMachine {
  import opened Strings
  import Requests
  import Session

  datatype State = State(asks: Requests.State, net: Session.State)

  datatype Label = Ask(ask: Requests.Label) | Net(net: Session.Label)

  const INIT := State(Requests.INIT, Session.INIT)

  predicate Enabled(s: State, l: Label) {
    match l
    case Ask(a) => Requests.Enabled(s.asks, a) && (a.Write? ==> a.connected == s.net.conn.Some?)
    case Net(n) => Session.Enabled(s.net, n)
  }

  function Apply(s: State, l: Label): State
    requires Enabled(s, l)
  {
    match l
    case Ask(a) => s.(asks := Requests.Apply(s.asks, a))
    case Net(n) => s.(net := Session.Apply(s.net, n))
  }

  predicate StepAt(states: seq<State>, labels: seq<Label>, i: nat)
    requires |states| == |labels| + 1 && i < |labels|
  {
    Enabled(states[i], labels[i]) && states[i + 1] == Apply(states[i], labels[i])
  }

  ghost predicate IsRun(states: seq<State>, labels: seq<Label>) {
    && |states| == |labels| + 1
    && states[0] == INIT
    && forall i: nat | i < |labels| :: StepAt(states, labels, i)
  }

  lemma {:induction false} RunKeepsInv(states: seq<State>, labels: seq<Label>, i: nat)
    requires IsRun(states, labels) && i < |states|
    ensures Requests.Inv(states[i].asks) && Session.Inv(states[i].net)
  {
    if i > 0 {
      RunKeepsInv(states, labels, i - 1);
      assert StepAt(states, labels, i - 1);
      match labels[i - 1] {
        case Ask(a) =>
          Requests.StepKeepsOwnership(states[i - 1].asks, a);
          Requests.StepKeepsConserved(states[i - 1].asks, a);
          Requests.StepKeepsAnswers(states[i - 1].asks, a);
        case Net(n) =>
          Session.StepKeepsHandoff(states[i - 1].net, n);
          Session.StepKeepsLockInv(states[i - 1].net, n);
          Session.StepKeepsCheckerInv(states[i - 1].net, n);
          Session.StepKeepsFresh(states[i - 1].net, n);
      }
    }
  }

  /** Where these steps lead from `s`, if each is enabled in its turn. */
  function After(s: State, steps: seq<Label>): Option<State> {
    if steps == [] then Some(s) else
      var n := |steps| - 1;
      match After(s, steps[..n])
      case None => None
      case Some(t) => if Enabled(t, steps[n]) then Some(Apply(t, steps[n])) else None
  }

  lemma AfterOne(s: State, l: Label)
    requires Enabled(s, l)
    ensures After(s, [l]) == Some(Apply(s, l))
  {
    assert [l][..0] == [];
  }

  lemma AfterMore(s: State, steps: seq<Label>, t: State, l: Label)
    requires After(s, steps) == Some(t) && Enabled(t, l)
    ensures After(s, steps + [l]) == Some(Apply(t, l))
  {
    assert (steps + [l])[..|steps|] == steps;
  }

  lemma AfterTwo(s: State, l: Label, t: State, m: Label)
    requires Enabled(s, l) && t == Apply(s, l) && Enabled(t, m)
    ensures After(s, [l, m]) == Some(Apply(t, m))
  {
    AfterOne(s, l);
    assert [l, m][..1] == [l];
  }

  lemma AfterThree(s: State, l: Label, t: State, m: Label, u: State, n: Label)
    requires Enabled(s, l) && t == Apply(s, l) && Enabled(t, m) && u == Apply(t, m) && Enabled(u, n)
    ensures After(s, [l, m, n]) == Some(Apply(u, n))
  {
    AfterTwo(s, l, t, m);
    assert [l, m, n][..2] == [l, m];
  }

  lemma {:induction false} AfterJoin(s: State, first: seq<Label>, t: State, second: seq<Label>)
    requires After(s, first) == Some(t)
    ensures After(s, first + second) == After(t, second)
  {
    var all, n := first + second, |second|;
    if first == [] {
      assert all == second;
    } else if n == 0 {
      assert all == first;
    } else {
      assert all[..|first| + n - 1] == first + second[..n - 1];
      AfterJoin(s, first, t, second[..n - 1]);
    }
  }

  /** Some interleaving leads to `s`. */
  ghost predicate Reachable(s: State) {
    exists states: seq<State>, labels: seq<Label> :: IsRun(states, labels) && states[|labels|] == s
  }

  lemma StartReachable()
    ensures Reachable(INIT)
  {
    assert IsRun([INIT], []);
  }

  lemma StepReachable(s: State, l: Label)
    requires Reachable(s) && Enabled(s, l)
    ensures Reachable(Apply(s, l))
  {
    var states: seq<State>, labels: seq<Label> :| IsRun(states, labels) && states[|labels|] == s;
    var more, done := states + [Apply(s, l)], labels + [l];
    forall i: nat | i < |done| ensures StepAt(more, done, i) {
      assert i < |labels| ==> StepAt(states, labels, i);
    }
    assert IsRun(more, done) && more[|done|] == Apply(s, l);
  }

  lemma ReachableInv(s: State)
    requires Reachable(s)
    ensures Requests.Inv(s.asks) && Session.Inv(s.net)
  {
    var states: seq<State>, labels: seq<Label> :| IsRun(states, labels) && states[|labels|] == s;
    RunKeepsInv(states, labels, |labels|);
  }

  /** A request is written only to the connection attached last, while it is open and its loop has not
      ended; the caller learns that it is not connected exactly when there is no current connection. */
  lemma WritesGoToNewest(states: seq<State>, labels: seq<Label>, i: nat)
    requires IsRun(states, labels) && i < |labels| && labels[i].Ask? && labels[i].ask.Write?
    ensures var net := states[i].net; var c := labels[i].ask.c;
      var after := states[i + 1].asks.calls;
      && c < |after|
      && (after[c] == Requests.Finishing(Requests.NotConnected) <==> net.conn.None?)
      && (after[c] != Requests.Finishing(Requests.NotConnected) ==>
            net.conn.Some? && net.conn == net.latest && net.conn.value < |net.conns|
            && !net.conns[net.conn.value].closed && !net.conns[net.conn.value].loop.Ended?)
  {
    RunKeepsInv(states, labels, i);
    assert StepAt(states, labels, i);
  }

  /** The request guarantees survive any mixture with reconnects, heartbeats and releases. */
  lemma AnswersKeepTheirEcho(states: seq<State>, labels: seq<Label>, i: nat, h: nat, c: nat)
    requires IsRun(states, labels) && i < |states| && Requests.Consumed(states[i].asks, h, c)
    ensures h < |states[i].asks.handlers| && states[i].asks.handlers[h].resp.echo == Requests.Echo(c)
  {
    RunKeepsInv(states, labels, i);
    assert Requests.CallOf(states[i].asks, h, c);
  }
}
