/** The request/response half of the OneBot client: callers number and register their requests,
    every incoming response gets its own handler, and the two meet in one-slot channels.
    One label is one atomic operation or one lock region of the program. */
module Requests {
  import opened Strings

  datatype Response = Response(status: string, retcode: int, data: string, echo: string)

  /** What a caller of `request` ends with; `Answered(h)` is the response of handler `h`. */
  datatype Outcome = NotConnected | WriteFailed | TimedOut | Answered(h: nat)

  datatype Phase = Numbered | Registered | Waiting | Finishing(outcome: Outcome) | Done(outcome: Outcome)
  {
    predicate Live() { Registered? || Waiting? || Finishing? }
    predicate Ended() { Finishing? || Done? }
  }

  /** `Holding(c)`: the handler looked the echo up, found the channel of call `c` and has left the lock. */
  datatype HandlerPhase = Arrived | Holding(c: nat) | Sent(c: nat) | DroppedFull(c: nat) | DroppedUnknown

  datatype Handler = Handler(resp: Response, phase: HandlerPhase)

  /** Calls are named by the order in which they advanced the counter; each makes its own channel,
      so a channel is named by its call. `slots[c]` is the handler whose response is buffered there. */
  datatype State = State(calls: seq<Phase>, slots: seq<Option<nat>>, waiters: map<string, nat>, handlers: seq<Handler>)

  const TWO_64 := 0x1_0000_0000_0000_0000

  /** The value of an int64 counter that was incremented `n` times. */
  function Wrap64(n: int): int {
    (n + TWO_64 / 2) % TWO_64 - TWO_64 / 2
  }

  /** Adding one to an int64. */
  function Incremented(n: int): int {
    if n == 0x7FFF_FFFF_FFFF_FFFF then -0x8000_0000_0000_0000 else n + 1
  }

  lemma NextCount(n: nat)
    ensures Wrap64(n + 1) == Incremented(Wrap64(n))
  {
  }

  function Echo(c: nat): string {
    Sprint(Wrap64(c + 1))
  }

  function Removed(table: map<string, nat>, echo: string, waiter: nat): map<string, nat> {
    if echo in table && table[echo] == waiter then table - {echo} else table
  }

  datatype Label =
    | Number
    | Register(c: nat)
    | Write(c: nat, connected: bool, ok: bool)
    | Receive(c: nat)
    | Expire(c: nat)
    | Unregister(c: nat)
    | Arrive(resp: Response)
    | Lookup(h: nat)
    | Send(h: nat)

  const INIT := State([], [], map[], [])

  predicate Enabled(s: State, l: Label) {
    match l
    case Number => true
    case Register(c) => c < |s.calls| && s.calls[c].Numbered?
    case Write(c, _, _) => c < |s.calls| && s.calls[c].Registered?
    case Receive(c) => c < |s.calls| && c < |s.slots| && s.calls[c].Waiting? && s.slots[c].Some?
    case Expire(c) => c < |s.calls| && s.calls[c].Waiting?
    case Unregister(c) => c < |s.calls| && s.calls[c].Finishing?
    case Arrive(_) => true
    case Lookup(h) => h < |s.handlers| && s.handlers[h].phase.Arrived?
    case Send(h) => h < |s.handlers| && s.handlers[h].phase.Holding? && s.handlers[h].phase.c < |s.slots|
  }

  function Apply(s: State, l: Label): State
    requires Enabled(s, l)
  {
    match l
    case Number => s.(calls := s.calls + [Numbered], slots := s.slots + [None])
    case Register(c) => s.(calls := s.calls[c := Registered], waiters := s.waiters[Echo(c) := c])
    case Write(c, connected, ok) =>
      s.(calls := s.calls[c := if !connected then Finishing(NotConnected) else if !ok then Finishing(WriteFailed) else Waiting])
    case Receive(c) =>
      s.(calls := s.calls[c := Finishing(Answered(s.slots[c].value))], slots := s.slots[c := None])
    case Expire(c) => s.(calls := s.calls[c := Finishing(TimedOut)])
    case Unregister(c) =>
      s.(calls := s.calls[c := Done(s.calls[c].outcome)], waiters := Removed(s.waiters, Echo(c), c))
    case Arrive(resp) => s.(handlers := s.handlers + [Handler(resp, Arrived)])
    case Lookup(h) =>
      var echo := s.handlers[h].resp.echo;
      SetPhase(s, h, if echo in s.waiters then Holding(s.waiters[echo]) else DroppedUnknown)
    case Send(h) =>
      var c := s.handlers[h].phase.c;
      if s.slots[c].None? then SetPhase(s, h, Sent(c)).(slots := s.slots[c := Some(h)])
      else SetPhase(s, h, DroppedFull(c))
  }

  function SetPhase(s: State, h: nat, p: HandlerPhase): State
    requires h < |s.handlers|
  {
    s.(handlers := s.handlers[h := s.handlers[h].(phase := p)])
  }

  // ----- what holds in every reachable state -----

  ghost predicate CallOf(s: State, h: nat, c: nat)
    requires h < |s.handlers|
  {
    c < |s.calls| && !s.calls[c].Numbered? && s.handlers[h].resp.echo == Echo(c)
  }

  /** Every table entry and every channel a handler holds belongs to the call whose echo was looked up. */
  ghost predicate Ownership(s: State) {
    && |s.slots| == |s.calls|
    && (forall e | e in s.waiters :: s.waiters[e] < |s.calls| && s.calls[s.waiters[e]].Live() && Echo(s.waiters[e]) == e)
    && (forall h | 0 <= h < |s.handlers| ::
          var p := s.handlers[h].phase; p.Arrived? || p.DroppedUnknown? || CallOf(s, h, p.c))
  }

  /** `h` was the answer call `c` got. */
  ghost predicate Consumed(s: State, h: nat, c: nat) {
    c < |s.calls| && s.calls[c].Ended() && s.calls[c].outcome == Answered(h)
  }

  /** `h` sits in the channel of call `c`. */
  ghost predicate Buffered(s: State, h: nat, c: nat) {
    c < |s.slots| && s.slots[c] == Some(h)
  }

  /** A sent response is in exactly one of two places; nothing else is in either. */
  ghost predicate Conserved(s: State) {
    && (forall h: nat, c: nat | Buffered(s, h, c) :: h < |s.handlers| && s.handlers[h].phase == Sent(c) && !Consumed(s, h, c))
    && (forall h: nat, c: nat | Consumed(s, h, c) :: h < |s.handlers| && s.handlers[h].phase == Sent(c))
    && (forall h: nat | h < |s.handlers| && s.handlers[h].phase.Sent? ::
          Buffered(s, h, s.handlers[h].phase.c) || Consumed(s, h, s.handlers[h].phase.c))
  }

  /** Some response did get into the channel of `c`. */
  ghost predicate HasSent(s: State, c: nat) {
    exists h: nat :: h < |s.handlers| && s.handlers[h].phase == Sent(c)
  }

  ghost predicate NoLostAnswer(s: State) {
    forall h: nat | h < |s.handlers| && s.handlers[h].phase.DroppedFull? :: HasSent(s, s.handlers[h].phase.c)
  }

  ghost predicate Inv(s: State) {
    Ownership(s) && Conserved(s) && NoLostAnswer(s)
  }

  lemma StepKeepsOwnership(s: State, l: Label)
    requires Ownership(s) && Enabled(s, l)
    ensures Ownership(Apply(s, l))
  {
    var t := Apply(s, l);
    forall h | 0 <= h < |t.handlers|
      ensures var p := t.handlers[h].phase; p.Arrived? || p.DroppedUnknown? || CallOf(t, h, p.c)
    {
      if h < |s.handlers| {
        var p := s.handlers[h].phase;
        assert p.Arrived? || p.DroppedUnknown? || CallOf(s, h, p.c);
      }
    }
  }

  lemma StepKeepsConserved(s: State, l: Label)
    requires Ownership(s) && Conserved(s) && Enabled(s, l)
    ensures Conserved(Apply(s, l))
  {
    var t := Apply(s, l);
    forall h: nat, c: nat | Buffered(t, h, c)
      ensures h < |t.handlers| && t.handlers[h].phase == Sent(c) && !Consumed(t, h, c)
    {
      assert Buffered(s, h, c) || (l == Send(h) && !Consumed(s, h, c));
      assert Consumed(t, h, c) ==> Consumed(s, h, c) || (l == Receive(c) && Buffered(s, h, c));
    }
    forall h: nat, c: nat | Consumed(t, h, c)
      ensures h < |t.handlers| && t.handlers[h].phase == Sent(c)
    {
      assert Consumed(s, h, c) || (l == Receive(c) && Buffered(s, h, c));
    }
    forall h: nat | h < |t.handlers| && t.handlers[h].phase.Sent?
      ensures Buffered(t, h, t.handlers[h].phase.c) || Consumed(t, h, t.handlers[h].phase.c)
    {
      var c := t.handlers[h].phase.c;
      if l != Send(h) {
        assert Buffered(s, h, c) || Consumed(s, h, c);
      }
    }
  }

  lemma StepKeepsAnswers(s: State, l: Label)
    requires Inv(s) && Enabled(s, l)
    ensures NoLostAnswer(Apply(s, l))
  {
    var t := Apply(s, l);
    forall h: nat | h < |t.handlers| && t.handlers[h].phase.DroppedFull?
      ensures HasSent(t, t.handlers[h].phase.c)
    {
      var c := t.handlers[h].phase.c;
      if l == Send(h) {
        assert Buffered(s, s.slots[c].value, c);
      }
      assert HasSent(s, c);
      var g: nat :| g < |s.handlers| && s.handlers[g].phase == Sent(c);
      assert t.handlers[g].phase == Sent(c);
    }
  }

  // ----- runs -----

  /** Any interleaving at all: `states[i]` becomes `states[i + 1]` by one enabled operation. */
  ghost predicate IsRun(states: seq<State>, labels: seq<Label>) {
    && |states| == |labels| + 1
    && states[0] == INIT
    && forall i | 0 <= i < |labels| :: Enabled(states[i], labels[i]) && states[i + 1] == Apply(states[i], labels[i])
  }

  lemma {:induction false} RunKeepsInv(states: seq<State>, labels: seq<Label>, i: nat)
    requires IsRun(states, labels) && i < |states|
    ensures Inv(states[i])
  {
    if i > 0 {
      RunKeepsInv(states, labels, i - 1);
      StepKeepsOwnership(states[i - 1], labels[i - 1]);
      StepKeepsConserved(states[i - 1], labels[i - 1]);
      StepKeepsAnswers(states[i - 1], labels[i - 1]);
    }
  }

  /** Another response `g` to the echo of `h` did get into the channel. */
  ghost predicate TurnedAwayBy(s: State, h: nat, g: nat)
    requires h < |s.handlers|
  {
    g < |s.handlers| && g != h && s.handlers[g].resp.echo == s.handlers[h].resp.echo && s.handlers[g].phase.Sent?
  }

  /** In every interleaving, a call that returns a response returns one carrying its own echo, no
      other call returns that same response, and a response that was turned away by a full channel
      was turned away by another response to the same echo. No bound on the number of calls is needed. */
  lemma OwnEcho(states: seq<State>, labels: seq<Label>, i: nat)
    requires IsRun(states, labels) && i < |states|
    ensures forall h: nat, c: nat | Consumed(states[i], h, c) ::
      h < |states[i].handlers| && states[i].handlers[h].resp.echo == Echo(c)
    ensures forall h: nat, c: nat, d: nat | Consumed(states[i], h, c) && Consumed(states[i], h, d) :: c == d
    ensures forall h: nat | h < |states[i].handlers| && states[i].handlers[h].phase.DroppedFull? ::
      exists g: nat :: TurnedAwayBy(states[i], h, g)
  {
    RunKeepsInv(states, labels, i);
    var s := states[i];
    forall h: nat | h < |s.handlers| && s.handlers[h].phase.DroppedFull?
      ensures exists g: nat :: TurnedAwayBy(s, h, g)
    {
      var c := s.handlers[h].phase.c;
      assert CallOf(s, h, c) && HasSent(s, c);
      var g: nat :| g < |s.handlers| && s.handlers[g].phase == Sent(c);
      assert CallOf(s, g, c);
      assert TurnedAwayBy(s, h, g);
    }
  }

  /** Response conservation: in every interleaving, once no handler is still on its way, each
      response has exactly one of four fates. */
  lemma ResponsesConserved(states: seq<State>, labels: seq<Label>, i: nat, h: nat)
    requires IsRun(states, labels) && i < |states| && h < |states[i].handlers|
    requires !states[i].handlers[h].phase.Arrived? && !states[i].handlers[h].phase.Holding?
    ensures var s := states[i]; var p := s.handlers[h].phase;
      var consumed := exists c: nat :: Consumed(s, h, c);
      var unread := exists c: nat :: Buffered(s, h, c);
      && !(consumed && unread) && !(consumed && p.DroppedUnknown?) && !(consumed && p.DroppedFull?)
      && !(unread && p.DroppedUnknown?) && !(unread && p.DroppedFull?)
      && (consumed || unread || p.DroppedUnknown? || p.DroppedFull?)
    ensures forall c: nat, d: nat | Buffered(states[i], h, c) && Buffered(states[i], h, d) :: c == d
  {
    RunKeepsInv(states, labels, i);
    var s := states[i];
    if s.handlers[h].phase.Sent? {
      assert Buffered(s, h, s.handlers[h].phase.c) || Consumed(s, h, s.handlers[h].phase.c);
    }
  }

  // ----- the waiter table -----

  /** No call outlives the next 2^64 - 1 numberings: the int64 counter has not come round to its number again. */
  ghost predicate InWindow(s: State) {
    forall c | 0 <= c < |s.calls| :: s.calls[c].Done? || |s.calls| - c <= TWO_64
  }

  ghost predicate Exact(s: State) {
    forall c | 0 <= c < |s.calls| && s.calls[c].Live() :: Echo(c) in s.waiters && s.waiters[Echo(c)] == c
  }

  lemma WrapShared(a: int, b: int)
    ensures Wrap64(a) == Wrap64(b) <==> (a - b) % TWO_64 == 0
  {
    var half := TWO_64 / 2;
    assert (a - b) % TWO_64 == ((a + half) - (b + half)) % TWO_64;
  }

  /** Two calls share an echo exactly when a multiple of 2^64 numberings lies between them. */
  lemma EchoShared(a: nat, b: nat)
    ensures Echo(a) == Echo(b) <==> (a - b) % TWO_64 == 0
  {
    WrapShared(a + 1, b + 1);
    SprintInjective(Wrap64(a + 1), Wrap64(b + 1));
  }

  /** Until the counter wraps the echoes are the decimal numbers from one on. */
  lemma EchoCounts(c: nat)
    requires c < 0x7FFF_FFFF_FFFF_FFFF
    ensures Echo(c) == Natural(c + 1) && Value(Natural(c + 1)) == c + 1
    ensures c == 0 ==> Echo(c) == "1"
  {
    NaturalRoundTrip(c + 1);
  }

  lemma EchoOwn(c: nat, d: nat)
    requires -TWO_64 < c - d < TWO_64
    ensures Echo(c) == Echo(d) ==> c == d
  {
    EchoShared(c, d);
  }

  lemma StepKeepsExact(s: State, l: Label)
    requires Ownership(s) && Exact(s) && Enabled(s, l) && InWindow(s)
    ensures Exact(Apply(s, l))
  {
    var t := Apply(s, l);
    forall c | 0 <= c < |t.calls| && t.calls[c].Live()
      ensures Echo(c) in t.waiters && t.waiters[Echo(c)] == c
    {
      match l {
        case Register(d) =>
          EchoOwn(c, d);
        case Unregister(d) =>
          EchoOwn(c, d);
        case _ =>
      }
    }
  }

  lemma {:induction false} RunKeepsExact(states: seq<State>, labels: seq<Label>, i: nat)
    requires IsRun(states, labels) && i < |states|
    requires forall j | 0 <= j <= i :: InWindow(states[j])
    ensures Exact(states[i])
  {
    if i > 0 {
      RunKeepsExact(states, labels, i - 1);
      RunKeepsInv(states, labels, i - 1);
      assert InWindow(states[i - 1]);
      StepKeepsExact(states[i - 1], labels[i - 1]);
    }
  }

  /** The table's keys are exactly the echoes of the calls between registration and removal, each
      entry leads to the channel of that very call, and with no such call the table is empty. */
  lemma TableExact(states: seq<State>, labels: seq<Label>, i: nat)
    requires IsRun(states, labels) && i < |states|
    requires forall j | 0 <= j <= i :: InWindow(states[j])
    ensures states[i].waiters.Keys == set c | 0 <= c < |states[i].calls| && states[i].calls[c].Live() :: Echo(c)
    ensures forall c | 0 <= c < |states[i].calls| && states[i].calls[c].Live() ::
      Echo(c) in states[i].waiters && states[i].waiters[Echo(c)] == c
    ensures (forall c | 0 <= c < |states[i].calls| :: !states[i].calls[c].Live()) ==> states[i].waiters == map[]
  {
    RunKeepsExact(states, labels, i);
    RunKeepsInv(states, labels, i);
    var s := states[i];
    forall e | e in s.waiters
      ensures e in set c | 0 <= c < |s.calls| && s.calls[c].Live() :: Echo(c)
    {
      assert Echo(s.waiters[e]) == e;
    }
  }

  /** Removal takes out the caller's own entry and nothing else, in every interleaving and even
      after the counter has wrapped. */
  lemma RemovalIsOwn(states: seq<State>, labels: seq<Label>, i: nat)
    requires IsRun(states, labels) && i < |labels| && labels[i].Unregister?
    ensures states[i + 1].waiters ==
      map e | e in states[i].waiters && states[i].waiters[e] != labels[i].c :: states[i].waiters[e]
  {
    RunKeepsInv(states, labels, i);
  }

  /** A response is dropped as unknown exactly when no call with its echo is registered at the lookup. */
  lemma UnknownMeansNoCall(states: seq<State>, labels: seq<Label>, i: nat)
    requires IsRun(states, labels) && i < |labels| && labels[i].Lookup?
    requires forall j | 0 <= j <= i :: InWindow(states[j])
    ensures states[i + 1].handlers[labels[i].h].phase.DroppedUnknown? <==>
      !exists c :: 0 <= c < |states[i].calls| && states[i].calls[c].Live() && Echo(c) == states[i].handlers[labels[i].h].resp.echo
  {
    var s, h := states[i], labels[i].h;
    assert Enabled(s, labels[i]);
    TableExact(states, labels, i);
    var e := s.handlers[h].resp.echo;
    if exists c :: 0 <= c < |s.calls| && s.calls[c].Live() && Echo(c) == e {
      var c :| 0 <= c < |s.calls| && s.calls[c].Live() && Echo(c) == e;
      assert e in s.waiters;
    }
  }

  // ----- why removal must not close the channel -----

  /** A handler is about to send on the channel of a call that has returned and left the table. */
  predicate LateSend(s: State) {
    && s.waiters == map[]
    && |s.calls| == 1 && s.calls[0].Done?
    && |s.handlers| == 1 && s.handlers[0].phase == Holding(0)
    && Enabled(s, Send(0))
  }

  /** The states of a run in which the answer is looked up and the caller then times out. */
  function LateStates(e: string, r: Response): seq<State> {
    [ INIT,
      State([Numbered], [None], map[], []),
      State([Registered], [None], map[e := 0], []),
      State([Waiting], [None], map[e := 0], []),
      State([Waiting], [None], map[e := 0], [Handler(r, Arrived)]),
      State([Waiting], [None], map[e := 0], [Handler(r, Holding(0))]),
      State([Finishing(TimedOut)], [None], map[e := 0], [Handler(r, Holding(0))]),
      State([Done(TimedOut)], [None], map[], [Handler(r, Holding(0))]) ]
  }

  function LateLabels(r: Response): seq<Label> {
    [Number, Register(0), Write(0, true, true), Arrive(r), Lookup(0), Expire(0), Unregister(0)]
  }

  lemma LateStep(e: string, r: Response, i: nat)
    requires e == Echo(0) && r.echo == e && i < 7
    ensures Enabled(LateStates(e, r)[i], LateLabels(r)[i])
    ensures LateStates(e, r)[i + 1] == Apply(LateStates(e, r)[i], LateLabels(r)[i])
  {
    var s, l := LateStates(e, r)[i], LateLabels(r)[i];
    match l {
      case Unregister(c) =>
        assert Removed(s.waiters, e, 0) == map[];
      case _ =>
    }
  }

  /** The late-response race is real. Were the channel closed on removal, that send would panic. */
  lemma LateSendReachable()
    ensures exists states: seq<State>, labels: seq<Label> :: IsRun(states, labels) && LateSend(states[|labels|])
  {
    var e := Echo(0);
    var r := Response("ok", 0, "", e);
    var states, labels := LateStates(e, r), LateLabels(r);
    forall i | 0 <= i < |labels| ensures Enabled(states[i], labels[i]) && states[i + 1] == Apply(states[i], labels[i]) {
      LateStep(e, r, i);
    }
    assert IsRun(states, labels) && |labels| == 7;
    assert states[7].handlers[0].phase == Holding(0);
    assert LateSend(states[7]);
  }
}
