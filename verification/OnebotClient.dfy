/** The client object. Every method is one or more steps of `ClientMachine`: `state` is where they have led
    to from the machine's initial state, and `Valid` says that the fields show that state, so what is
    proved of all runs holds of the object. */
module OnebotClient {
  import opened Strings
  import opened FromOnebot
  import opened ClientMachine
  import Q = Requests
  import S = Session

  class Connection {
    var closed: bool

    constructor ()
      ensures !closed
    {
      closed := false;
    }
  }

  class Checker {
    const interval: nat
    var cancelled: bool

    constructor (interval: nat)
      ensures this.interval == interval && !cancelled
    {
      this.interval := interval;
      cancelled := false;
    }
  }

  /** A channel of capacity one. */
  class Channel {
    var slot: Option<Q.Response>

    constructor ()
      ensures slot.None?
    {
      slot := None;
    }
  }

  predicate Differ<T(==)>(s: seq<T>, i: nat, j: nat)
    requires i < |s| && j < |s|
  {
    s[i] != s[j]
  }

  ghost predicate Distinct<T>(s: seq<T>) {
    forall i: nat, j: nat | i < |s| && j < |s| && i != j :: Differ(s, i, j)
  }

  lemma Others<T>(s: seq<T>, c: nat)
    requires Distinct(s) && c < |s|
    ensures forall d | 0 <= d < |s| && d != c :: s[d] != s[c]
  {
    forall d: nat | d < |s| && d != c ensures s[d] != s[c] {
      assert Differ(s, d, c);
    }
  }

  lemma StillDistinct<T>(s: seq<T>, x: T)
    requires Distinct(s) && x !in s
    ensures Distinct(s + [x])
  {
    forall i: nat, j: nat | i < |s| + 1 && j < |s| + 1 && i != j ensures Differ(s + [x], i, j) {
      if i < |s| && j < |s| {
        assert Differ(s, i, j);
      }
    }
  }

  /** The table leads to the channels of the calls that the machine's table names. */
  ghost predicate Matches(table: map<string, Channel>, waiters: map<string, nat>, channels: seq<Channel>) {
    && table.Keys == waiters.Keys
    && (forall e | e in table :: waiters[e] < |channels| && table[e] == channels[waiters[e]])
  }

  function Without(table: map<string, Channel>, echo: string, waiter: Channel): map<string, Channel> {
    if echo in table && table[echo] == waiter then table - {echo} else table
  }

  lemma PutAndTaken(table: map<string, Channel>, echo: string, waiter: Channel)
    ensures Without(table[echo := waiter], echo, waiter) == table - {echo}
  {
  }

  /** Telling waiters apart by their channels is telling calls apart. */
  lemma WithoutMatches(table: map<string, Channel>, waiters: map<string, nat>, channels: seq<Channel>, echo: string, c: nat)
    requires Matches(table, waiters, channels) && c < |channels|
    requires Distinct(channels)
    ensures Matches(Without(table, echo, channels[c]), Q.Removed(waiters, echo, c), channels)
  {
    Others(channels, c);
  }

  lemma MoreChannels(table: map<string, Channel>, waiters: map<string, nat>, channels: seq<Channel>, next: Channel)
    requires Matches(table, waiters, channels)
    ensures Matches(table, waiters, channels + [next])
  {
  }

  /** Buffered responses are known ones. */
  ghost predicate SlotsOk(a: Q.State) {
    forall c | 0 <= c < |a.slots| && a.slots[c].Some? :: a.slots[c].value < |a.handlers|
  }

  /** What the channel of call `c` holds. */
  function Held(a: Q.State, c: nat): Option<Q.Response>
    requires c < |a.slots| && (a.slots[c].Some? ==> a.slots[c].value < |a.handlers|)
  {
    if a.slots[c].Some? then Some(a.handlers[a.slots[c].value].resp) else None
  }

  /** Every label but `Number`, `Receive` and `Send` leaves the channels alone. */
  lemma HeldKept(a: Q.State, l: Q.Label)
    requires SlotsOk(a) && Q.Enabled(a, l) && !l.Number? && !l.Receive? && !l.Send?
    ensures var t := Q.Apply(a, l);
      && t.slots == a.slots && SlotsOk(t) && forall c | 0 <= c < |a.slots| :: Held(t, c) == Held(a, c)
  {
  }

  lemma LookupFinds(a: Q.State, resp: Q.Response)
    ensures var b, h := Q.Apply(a, Q.Arrive(resp)), |a.handlers|;
      Q.Enabled(b, Q.Lookup(h)) && Q.Apply(b, Q.Lookup(h)).handlers ==
        a.handlers + [Q.Handler(resp, if resp.echo in a.waiters then Q.Holding(a.waiters[resp.echo]) else Q.DroppedUnknown)]
  {
  }

  lemma HeldAfterNumber(a: Q.State)
    requires SlotsOk(a) && |a.slots| == |a.calls|
    ensures var t := Q.Apply(a, Q.Number);
      && |t.slots| == |t.calls| == |a.slots| + 1 && SlotsOk(t) && Held(t, |a.slots|).None?
      && forall c | 0 <= c < |a.slots| :: Held(t, c) == Held(a, c)
  {
  }

  lemma HeldAfterReceive(a: Q.State, c: nat)
    requires SlotsOk(a) && Q.Enabled(a, Q.Receive(c))
    ensures var t := Q.Apply(a, Q.Receive(c));
      && |t.slots| == |a.slots| && SlotsOk(t)
      && forall d | 0 <= d < |a.slots| :: Held(t, d) == if d == c then None else Held(a, d)
  {
  }

  lemma HeldAfterSend(a: Q.State, h: nat)
    requires SlotsOk(a) && Q.Enabled(a, Q.Send(h))
    ensures var t, d := Q.Apply(a, Q.Send(h)), a.handlers[h].phase.c;
      && |t.slots| == |a.slots| && SlotsOk(t)
      && forall c | 0 <= c < |a.slots| :: Held(t, c) == if c == d then Some(Held(a, d).GetOr(a.handlers[h].resp)) else Held(a, c)
  {
  }

  lemma DeliverStoreUnlock(n: S.State, c: nat, k: nat)
    requires S.Enabled(n, S.Deliver(c, k))
    ensures var a := S.Apply(n, S.Deliver(c, k));
      && S.Enabled(a, S.Store(k)) && a.checkers[k].phase == S.Storing(n.conns[c].loop.online)
      && var b := S.Apply(a, S.Store(k));
      && S.Enabled(b, S.UnlockByLoop(c))
      && var d := S.Apply(b, S.UnlockByLoop(c));
      && |d.conns| == |n.conns| && d.conns[c].loop == S.Reading && d.lock.None?
  {
  }

  /** A heartbeat up to the send, when nobody is inside the lock. */
  function HeartbeatSteps(c: nat, online: bool, interval: int): seq<Label> {
    [Net(S.Heartbeat(c, online, interval)), Net(S.LockByLoop(c)), Net(S.EnsureChecker(c))]
  }

  lemma HeartbeatLeads(s: State, c: nat, online: bool, interval: int)
    requires S.LoopAt(s.net, c, S.Reading) && s.net.lock.None?
    ensures var t := Apply(s, Net(S.Heartbeat(c, online, interval)));
      && Enabled(t, Net(S.LockByLoop(c)))
      && var u := Apply(t, Net(S.LockByLoop(c)));
      && u.net.conns[c].loop == S.Checking(online, interval) && |u.net.conns| == |s.net.conns|
      && After(s, HeartbeatSteps(c, online, interval)) == Some(Apply(u, Net(S.EnsureChecker(c))))
  {
    var l, m := Net(S.Heartbeat(c, online, interval)), Net(S.LockByLoop(c));
    var t := Apply(s, l);
    AfterThree(s, l, t, m, Apply(t, m), Net(S.EnsureChecker(c)));
  }

  /** A release with nothing in between. */
  function ReleaseSteps(r: nat): seq<Label> {
    [Net(S.BeginRelease), Net(S.ReleaseConn(r))] + [Net(S.LockByRelease(r)), Net(S.CancelChecker(r)), Net(S.UnlockByRelease(r))]
  }

  lemma BegunLast(n: S.State)
    ensures S.Enabled(S.Apply(n, S.BeginRelease), S.ReleaseConn(|n.releases|))
  {
  }

  lemma ReleaseBegins(s: State)
    ensures var r := |s.net.releases|; var t := Apply(s, Net(S.BeginRelease));
      && Enabled(t, Net(S.ReleaseConn(r)))
      && After(s, [Net(S.BeginRelease), Net(S.ReleaseConn(r))]) == Some(Apply(t, Net(S.ReleaseConn(r))))
  {
    var l, r := Net(S.BeginRelease), |s.net.releases|;
    var t := Apply(s, l);
    BegunLast(s.net);
    assert Enabled(t, Net(S.ReleaseConn(r)));
    AfterTwo(s, l, t, Net(S.ReleaseConn(r)));
  }

  lemma ReleaseEnds(s: State, r: nat)
    requires S.ReleaseAt(s.net, r, S.Detached) && s.net.lock.None?
    requires s.net.cancelChecker.Some? ==> s.net.cancelChecker.value < |s.net.checkers|
    ensures var t := Apply(s, Net(S.LockByRelease(r)));
      && Enabled(t, Net(S.CancelChecker(r)))
      && var u := Apply(t, Net(S.CancelChecker(r)));
      && Enabled(u, Net(S.UnlockByRelease(r)))
      && After(s, [Net(S.LockByRelease(r)), Net(S.CancelChecker(r)), Net(S.UnlockByRelease(r))]) == Some(Apply(u, Net(S.UnlockByRelease(r))))
  {
    var l, m, n := Net(S.LockByRelease(r)), Net(S.CancelChecker(r)), Net(S.UnlockByRelease(r));
    var t := Apply(s, l);
    AfterThree(s, l, t, m, Apply(t, m), n);
  }

  /** The send, the store and the unlocking. */
  function DeliverySteps(c: nat, k: nat): seq<Label> {
    [Net(S.Deliver(c, k)), Net(S.Store(k)), Net(S.UnlockByLoop(c))]
  }

  lemma DeliveryLeads(s: State, c: nat, k: nat)
    requires S.Enabled(s.net, S.Deliver(c, k))
    ensures var t := Apply(s, Net(S.Deliver(c, k)));
      && Enabled(t, Net(S.Store(k)))
      && var u := Apply(t, Net(S.Store(k)));
      && Enabled(u, Net(S.UnlockByLoop(c)))
      && After(s, DeliverySteps(c, k)) == Some(Apply(u, Net(S.UnlockByLoop(c))))
  {
    DeliverStoreUnlock(s.net, c, k);
    var l, m, n := Net(S.Deliver(c, k)), Net(S.Store(k)), Net(S.UnlockByLoop(c));
    var t := Apply(s, l);
    assert Enabled(t, m);
    var u := Apply(t, m);
    assert Enabled(u, n);
    AfterThree(s, l, t, m, u, n);
  }

  /** What a caller of `request` gets: the data of a response that says "ok", or why there is none. */
  datatype Reply = Data(data: string) | Refused(status: string, retcode: int) | Unanswered

  /** Steps that touch no field of the object. */
  predicate FieldFree(l: S.Label) {
    l.Heartbeat? || l.LockByLoop? || l.Deliver? || l.UnlockByLoop? || l.Exit? || l.BeginRelease? || l.LockByRelease?
    || l.Expire? || l.StopChecker? || l.Tick?
  }

  /** The steps of a handler. */
  function Handling(resp: Q.Response, h: nat, found: bool): seq<Label> {
    if found then [Ask(Q.Arrive(resp)), Ask(Q.Lookup(h)), Ask(Q.Send(h))] else [Ask(Q.Arrive(resp)), Ask(Q.Lookup(h))]
  }

  lemma HandlingJoins(s: State, t: State, u: State, resp: Q.Response, h: nat)
    requires After(s, Handling(resp, h, false)) == Some(t) && After(t, [Ask(Q.Send(h))]) == Some(u)
    ensures After(s, Handling(resp, h, true)) == Some(u)
  {
    AfterJoin(s, Handling(resp, h, false), t, [Ask(Q.Send(h))]);
    assert Handling(resp, h, false) + [Ask(Q.Send(h))] == Handling(resp, h, true);
  }

  /** The step a select took. */
  function Selected(c: nat, resp: Option<Q.Response>): Label {
    Ask(if resp.Some? then Q.Receive(c) else Q.Expire(c))
  }

  class Client {
    const id: string
    const token: string
    var agentType: Agent
    var conn: Connection?
    var isLoggedIn: bool
    var cancelChecker: Checker?
    var websocketRequests: map<string, Channel>
    var websocketRequestID: int

    ghost var state: State
    /** The channel of each call, the connection of each read loop, and each checker's cancel function. */
    ghost var channels: seq<Channel>
    ghost var conns: seq<Connection>
    ghost var checkers: seq<Checker>
    ghost var Repr: set<object>

    ghost predicate ShowsTable(a: Q.State)
      reads this`websocketRequestID, this`websocketRequests, this`channels
    {
      && websocketRequestID == Q.Wrap64(|a.calls|)
      && |channels| == |a.slots| == |a.calls|
      && Matches(websocketRequests, a.waiters, channels)
    }

    ghost predicate ShowsSlots(a: Q.State)
      reads this`channels, channels
    {
      && |channels| == |a.slots| && SlotsOk(a)
      && Distinct(channels)
      && (forall c | 0 <= c < |channels| :: channels[c].slot == Held(a, c))
    }

    ghost predicate ShowsConns(n: S.State)
      reads this`conns, this`conn, conns
    {
      && |conns| == |n.conns|
      && Distinct(conns)
      && (forall c | 0 <= c < |conns| :: conns[c].closed == n.conns[c].closed)
      && (n.conn.Some? ==> n.conn.value < |conns| && conn == conns[n.conn.value])
      && (n.conn.None? ==> conn == null)
    }

    ghost predicate ShowsCheckers(n: S.State)
      reads this`checkers, this`cancelChecker, this`isLoggedIn, checkers
    {
      && |checkers| == |n.checkers|
      && Distinct(checkers)
      && (forall k | 0 <= k < |checkers| ::
            checkers[k].cancelled == n.checkers[k].cancelled && checkers[k].interval == S.CheckInterval(n.checkers[k].interval))
      && (n.cancelChecker.Some? ==> n.cancelChecker.value < |checkers| && cancelChecker == checkers[n.cancelChecker.value])
      && (n.cancelChecker.None? ==> cancelChecker == null)
      && isLoggedIn == n.isLoggedIn
    }

    ghost predicate Owns()
      reads this
    {
      && this in Repr
      && (forall x | x in channels :: x in Repr)
      && (forall x | x in conns :: x in Repr)
      && (forall x | x in checkers :: x in Repr)
    }

    ghost predicate Valid()
      reads this, Repr
    {
      && Owns()
      && Reachable(state)
      && ShowsTable(state.asks) && ShowsSlots(state.asks) && ShowsConns(state.net) && ShowsCheckers(state.net)
    }

    lemma OwnsItsOwn()
      requires Valid()
      ensures (conn != null ==> conn in Repr) && (cancelChecker != null ==> cancelChecker in Repr) && this in Repr
    {
    }

    constructor (id: string, token: string)
      ensures this.id == id && this.token == token && agentType == NapCat
      ensures conn == null && !isLoggedIn && cancelChecker == null && websocketRequests == map[]
      ensures Valid() && fresh(Repr) && state == INIT
    {
      this.id := id;
      this.token := token;
      agentType := NapCat;
      conn, isLoggedIn, cancelChecker := null, false, null;
      websocketRequests, websocketRequestID := map[], 0;
      state := INIT;
      channels, conns, checkers := [], [], [];
      Repr := {this};
      StartReachable();
    }

    /** What the machine guarantees, read off the fields: a channel only ever holds a response to its own
        call's echo, and the table leads from an echo only to the channel of a call that printed it. */
    lemma HoldsOwnEcho()
      requires Valid()
      ensures forall c | 0 <= c < |channels| && channels[c].slot.Some? :: channels[c].slot.value.echo == Q.Echo(c)
      ensures forall e | e in websocketRequests :: exists c: nat :: LeadsTo(e, c)
    {
      ReachableInv(state);
      forall c | 0 <= c < |channels| && channels[c].slot.Some? ensures channels[c].slot.value.echo == Q.Echo(c) {
        assert Q.Buffered(state.asks, state.asks.slots[c].value, c);
        assert Q.CallOf(state.asks, state.asks.slots[c].value, c);
      }
      forall e | e in websocketRequests ensures exists c: nat :: LeadsTo(e, c) {
        assert LeadsTo(e, state.asks.waiters[e]);
      }
    }

    ghost predicate LeadsTo(e: string, c: nat)
      reads this`websocketRequests, this`channels
    {
      e in websocketRequests && c < |channels| && websocketRequests[e] == channels[c] && Q.Echo(c) == e
    }

    /** The current connection has not been closed, and outside the lock a current checker has not been
        cancelled. */
    lemma CurrentIsOpen()
      requires Valid()
      ensures conn != null ==> !conn.closed
      ensures state.net.lock.None? && cancelChecker != null ==> !cancelChecker.cancelled
    {
      ReachableInv(state);
    }

    /** One step. */
    ghost method First(l: Label)
      requires Reachable(state) && Enabled(state, l)
      modifies this`state
      ensures Reachable(state) && state == Apply(old(state), l) && After(old(state), [l]) == Some(state)
    {
      StepReachable(state, l);
      AfterOne(state, l);
      state := Apply(state, l);
    }

    /** One more step, after those that led here from `from`. */
    ghost method Step(from: State, steps: seq<Label>, l: Label)
      requires Reachable(state) && After(from, steps) == Some(state) && Enabled(state, l)
      modifies this`state
      ensures Reachable(state) && state == Apply(old(state), l) && After(from, steps + [l]) == Some(state)
    {
      StepReachable(state, l);
      AfterMore(from, steps, state, l);
      state := Apply(state, l);
    }

    // ----- requests -----

    /** Call `c`, whose channel is `respChan`, is here in `request`. */
    ghost predicate CallAt(c: nat, respChan: Channel, p: Q.Phase)
      reads this`state, this`channels
    {
      && c < |state.asks.calls| == |state.asks.slots| == |channels|
      && channels[c] == respChan && state.asks.calls[c] == p
    }

    /** Call `c` has its outcome and only its deferred removal left. */
    ghost predicate CallEnds(c: nat, respChan: Channel)
      reads this`state, this`channels
    {
      && c < |state.asks.calls| == |state.asks.slots| == |channels|
      && channels[c] == respChan && state.asks.calls[c].Finishing?
    }

    /** The counter, incremented, and how it prints. */
    method NextEcho(ghost n: nat) returns (echo: string)
      requires websocketRequestID == Q.Wrap64(n)
      modifies this`websocketRequestID
      ensures websocketRequestID == Q.Wrap64(n + 1) && echo == Q.Echo(n)
    {
      Q.NextCount(n);
      websocketRequestID := Q.Incremented(websocketRequestID);
      echo := Sprint(websocketRequestID);
    }

    /** `request` up to the channel: counts, prints the echo, makes the channel. */
    method Number() returns (echo: string, respChan: Channel)
      requires Valid()
      modifies this`websocketRequestID, this`channels, this`Repr, this`state
      ensures Valid() && state == Apply(old(state), Ask(Q.Number)) && Repr == old(Repr) + {respChan}
      ensures fresh(respChan) && channels == old(channels) + [respChan] && echo == Q.Echo(|old(channels)|)
      ensures CallAt(|old(channels)|, respChan, Q.Numbered)
    {
      HeldAfterNumber(state.asks);
      echo := NextEcho(|channels|);
      respChan := new Channel();
      MoreChannels(websocketRequests, state.asks.waiters, channels, respChan);
      StillDistinct(channels, respChan);
      channels, Repr := channels + [respChan], Repr + {respChan};
      First(Ask(Q.Number));
    }

    /** `addWebsocketResponseWaiter`. */
    method AddWaiter(echo: string, waiter: Channel, ghost c: nat)
      requires Valid() && CallAt(c, waiter, Q.Numbered) && echo == Q.Echo(c)
      modifies this`websocketRequests, this`state
      ensures Valid() && state == Apply(old(state), Ask(Q.Register(c))) && CallAt(c, waiter, Q.Registered)
      ensures websocketRequests == old(websocketRequests)[echo := waiter]
    {
      HeldKept(state.asks, Q.Register(c));
      websocketRequests := websocketRequests[echo := waiter];
      First(Ask(Q.Register(c)));
    }

    /** `_request`: `ok` says whether writing to the connection worked. */
    method Write(ok: bool, ghost respChan: Channel, ghost c: nat) returns (sent: bool)
      requires Valid() && CallAt(c, respChan, Q.Registered)
      modifies this`state
      ensures Valid() && state == Apply(old(state), Ask(Q.Write(c, conn != null, ok))) && (sent <==> conn != null && ok)
      ensures if sent then CallAt(c, respChan, Q.Waiting) else CallEnds(c, respChan)
    {
      HeldKept(state.asks, Q.Write(c, conn != null, ok));
      First(Ask(Q.Write(c, conn != null, ok)));
      sent := conn != null && ok;
    }

    /** The select: the response in the channel, unless there is none or the timeout is taken instead. */
    method Await(respChan: Channel, timedOut: bool, ghost c: nat) returns (resp: Option<Q.Response>)
      requires Valid() && CallAt(c, respChan, Q.Waiting)
      modifies respChan, this`state
      ensures Valid() && Enabled(old(state), Selected(c, resp)) && state == Apply(old(state), Selected(c, resp))
      ensures CallEnds(c, respChan)
      ensures resp == if timedOut then None else old(respChan.slot)
      ensures resp.Some? ==> resp.value.echo == Q.Echo(c)
    {
      HoldsOwnEcho();
      resp := if timedOut then None else respChan.slot;
      if resp.Some? {
        HeldAfterReceive(state.asks, c);
        Others(channels, c);
        respChan.slot := None;
      } else {
        HeldKept(state.asks, Q.Expire(c));
      }
      First(Selected(c, resp));
    }

    /** `removeWebsocketResponseWaiter`. */
    method RemoveWaiter(echo: string, waiter: Channel, ghost c: nat)
      requires Valid() && CallEnds(c, waiter) && echo == Q.Echo(c)
      modifies this`websocketRequests, this`state
      ensures Valid() && state == Apply(old(state), Ask(Q.Unregister(c)))
      ensures websocketRequests == Without(old(websocketRequests), echo, waiter)
    {
      HeldKept(state.asks, Q.Unregister(c));
      WithoutMatches(websocketRequests, state.asks.waiters, channels, echo, c);
      if echo in websocketRequests {
        var existing := websocketRequests[echo];
        if existing == waiter {
          websocketRequests := websocketRequests - {echo};
        }
      }
      assert websocketRequests == Without(old(websocketRequests), echo, waiter);
      First(Ask(Q.Unregister(c)));
    }

    /** The first half of `handleResponse`: the channel registered for the echo, if any. */
    method Lookup(resp: Q.Response) returns (respChan: Channel?, ghost h: nat)
      requires Valid()
      modifies this`state
      ensures Valid() && After(old(state), Handling(resp, h, false)) == Some(state) && h == |old(state).asks.handlers|
      ensures state.asks.calls == old(state).asks.calls && state.asks.slots == old(state).asks.slots
      ensures respChan == if resp.echo in websocketRequests then websocketRequests[resp.echo] else null
      ensures respChan != null ==> MayOffer(respChan, resp, h)
    {
      h := |state.asks.handlers|;
      LookupFinds(state.asks, resp);
      HeldKept(state.asks, Q.Arrive(resp));
      First(Ask(Q.Arrive(resp)));
      HeldKept(state.asks, Q.Lookup(h));
      Step(old(state), [Ask(Q.Arrive(resp))], Ask(Q.Lookup(h)));
      respChan := null;
      if resp.echo in websocketRequests {
        respChan := websocketRequests[resp.echo];
      }
    }

    /** Handler `h` has response `resp` and found `respChan`. */
    ghost predicate MayOffer(respChan: Channel, resp: Q.Response, h: nat)
      reads this`state, this`channels
    {
      && h < |state.asks.handlers| && state.asks.handlers[h].resp == resp && state.asks.handlers[h].phase.Holding?
      && state.asks.handlers[h].phase.c < |state.asks.slots| && state.asks.handlers[h].phase.c < |channels|
      && respChan == channels[state.asks.handlers[h].phase.c]
    }

    /** The second half, possibly much later: offers the response to the channel then found. */
    method Offer(respChan: Channel, resp: Q.Response, ghost h: nat)
      requires Valid() && MayOffer(respChan, resp, h)
      modifies respChan, this`state
      ensures Valid() && After(old(state), [Ask(Q.Send(h))]) == Some(state)
      ensures state.asks.calls == old(state).asks.calls && |state.asks.slots| == |old(state).asks.slots|
      ensures respChan.slot == Some(old(respChan.slot).GetOr(resp))
    {
      HeldAfterSend(state.asks, h);
      Others(channels, state.asks.handlers[h].phase.c);
      if respChan.slot.None? {
        respChan.slot := Some(resp);
      }
      First(Ask(Q.Send(h)));
    }

    /** `handleResponse` with nothing in between: the channel found ends with the response exactly if it
        was empty. */
    method HandleResponse(resp: Q.Response)
      requires Valid()
      modifies this`state, if resp.echo in websocketRequests then {websocketRequests[resp.echo]} else {}
      ensures Valid() && state.asks.calls == old(state).asks.calls && |state.asks.slots| == |old(state).asks.slots|
      ensures After(old(state), Handling(resp, |old(state).asks.handlers|, resp.echo in websocketRequests)) == Some(state)
      ensures resp.echo in websocketRequests ==>
        websocketRequests[resp.echo].slot == Some(old(websocketRequests[resp.echo].slot).GetOr(resp))
    {
      var respChan, h := Lookup(resp);
      if respChan != null {
        ghost var between := state;
        Offer(respChan, resp, h);
        HandlingJoins(old(state), between, state, resp, h);
      }
    }

    /** `request` up to the select. */
    method StartRequest(ok: bool) returns (sent: bool, echo: string, respChan: Channel)
      requires Valid()
      modifies this`websocketRequestID, this`websocketRequests, this`channels, this`Repr, this`state
      ensures Valid() && Repr == old(Repr) + {respChan} && fresh(respChan) && respChan.slot.None?
      ensures channels == old(channels) + [respChan]
      ensures echo == Q.Echo(|old(channels)|) && (sent <==> conn != null && ok)
      ensures websocketRequests == old(websocketRequests)[echo := respChan]
      ensures OnlyAt(echo, respChan)
      ensures if sent then CallAt(|old(channels)|, respChan, Q.Waiting) else CallEnds(|old(channels)|, respChan)
    {
      ghost var c := |channels|;
      echo, respChan := Number();
      AddWaiter(echo, respChan, c);
      sent := Write(ok, respChan, c);
    }

    /** What arrives while call `c` waits: `answer`, or nothing. */
    method Meanwhile(echo: string, ghost respChan: Channel, answer: Option<Q.Response>, ghost c: nat)
      requires Valid() && CallAt(c, respChan, Q.Waiting) && respChan.slot.None? && OnlyAt(echo, respChan)
      modifies this`state, set x | x in channels
      ensures Valid() && CallAt(c, respChan, Q.Waiting)
      ensures respChan.slot == if answer.Some? && answer.value.echo == echo then answer else None
    {
      if answer.Some? {
        HandleResponse(answer.value);
      }
    }

    /** The table leads to `respChan` under `echo` and under nothing else. */
    ghost predicate OnlyAt(echo: string, respChan: Channel)
      reads this`websocketRequests
    {
      echo in websocketRequests && forall e | e in websocketRequests :: websocketRequests[e] == respChan <==> e == echo
    }

    /** The rest of `request`, with its deferred removal. */
    method FinishRequest(sent: bool, echo: string, respChan: Channel, answer: Option<Q.Response>, timedOut: bool, ghost c: nat)
      returns (resp: Option<Q.Response>)
      requires Valid() && respChan.slot.None? && OnlyAt(echo, respChan) && echo == Q.Echo(c)
      requires if sent then CallAt(c, respChan, Q.Waiting) else CallEnds(c, respChan)
      modifies this`websocketRequests, this`state, set x | x in channels
      ensures Valid() && websocketRequests == Without(old(websocketRequests), echo, respChan)
      ensures resp == if sent && !timedOut && answer.Some? && answer.value.echo == echo then answer else None
    {
      resp := None;
      if sent {
        Meanwhile(echo, respChan, answer, c);
        resp := Await(respChan, timedOut, c);
      }
      RemoveWaiter(echo, respChan, c);
    }

    /** `request` against an agent that meanwhile sends `answer`, or nothing. The answer is received exactly
        when there is a connection, the write works, the timeout is not taken and the answer has the
        request's own echo; if it says "ok" its data are returned, otherwise its status and code. The table
        is left without an entry for that echo and otherwise as it was. */
    method Request(ok: bool, answer: Option<Q.Response>, timedOut: bool) returns (reply: Reply)
      requires Valid()
      modifies this`websocketRequestID, this`websocketRequests, this`channels, this`Repr, this`state, set x | x in channels
      ensures Valid() && |channels| == |old(channels)| + 1
      ensures fresh(channels[|old(channels)|]) && Repr == old(Repr) + {channels[|old(channels)|]}
      ensures var echo := Q.Echo(|old(channels)|);
        && websocketRequests == old(websocketRequests) - {echo}
        && reply ==
          if conn == null || !ok || timedOut || answer.None? || answer.value.echo != echo then Unanswered
          else if answer.value.status == "ok" then Data(answer.value.data)
          else Refused(answer.value.status, answer.value.retcode)
    {
      ghost var c := |channels|;
      var sent, echo, respChan := StartRequest(ok);
      var resp := FinishRequest(sent, echo, respChan, answer, timedOut, c);
      PutAndTaken(old(websocketRequests), echo, respChan);
      match resp {
        case None => reply := Unanswered;
        case Some(r) =>
          if r.status != "ok" {
            reply := Refused(r.status, r.retcode);
          } else {
            reply := Data(r.data);
          }
      }
    }

    // ----- connections and checkers -----

    /** The connection of read loop `c` is `own`, and the loop is here. */
    ghost predicate LoopAt(c: nat, own: Connection, p: S.LoopPhase)
      reads this`state, this`conns
    {
      c < |state.net.conns| == |conns| && conns[c] == own && state.net.conns[c].loop == p
    }

    /** `updateConnection`: closes the current connection, if any, and installs the new one. */
    method UpdateConnection(next: Connection?)
      modifies this`conn, (if conn == null then {} else {conn})`closed
      ensures conn == next
      ensures old(conn) != null ==> old(conn).closed
    {
      if conn != null {
        conn.closed := true;
      }
      conn := next;
    }

    /** A connection just upgraded gets a read loop. */
    ghost method Spawn(own: Connection)
      requires Valid() && own !in Repr && !own.closed
      modifies this`conns, this`Repr, this`state
      ensures Valid() && conns == old(conns) + [own] && Repr == old(Repr) + {own}
      ensures LoopAt(|old(conns)|, own, S.Starting) && state == Apply(old(state), Net(S.Spawn))
    {
      StillDistinct(conns, own);
      conns, Repr := conns + [own], Repr + {own};
      First(Net(S.Spawn));
    }

    /** `StartLoop` up to its first read. */
    method Attach(own: Connection, ghost c: nat)
      requires Valid() && LoopAt(c, own, S.Starting)
      modifies this`conn, this`state, (if conn == null then {} else {conn})`closed
      ensures Valid() && conn == own && LoopAt(c, own, S.Reading) && state == Apply(old(state), Net(S.Attach(c)))
      ensures old(conn) != null ==> old(conn).closed
    {
      if conn != null {
        Others(conns, state.net.conn.value);
      }
      UpdateConnection(own);
      First(Net(S.Attach(c)));
    }

    /** `StartLoop` up to its first read, on a connection just upgraded: the connection it replaces is
        closed. */
    method StartLoop() returns (own: Connection, ghost c: nat)
      requires Valid()
      modifies this`conn, this`conns, this`Repr, this`state, (if conn == null then {} else {conn})`closed
      ensures Valid() && fresh(own) && conn == own && Repr == old(Repr) + {own} && LoopAt(c, own, S.Reading)
      ensures old(conn) != null ==> old(conn).closed
      ensures c == |old(conns)| && After(old(state), [Net(S.Spawn), Net(S.Attach(c))]) == Some(state)
    {
      own := new Connection();
      c := |conns|;
      AfterTwo(state, Net(S.Spawn), Apply(state, Net(S.Spawn)), Net(S.Attach(c)));
      Spawn(own);
      Attach(own, c);
    }

    /** The deferred end of a read loop: forgets the loop's own connection, never a newer one. */
    method EndLoop(own: Connection, ghost c: nat)
      requires Valid() && LoopAt(c, own, S.Exiting)
      modifies this`conn, this`state
      ensures Valid() && state == Apply(old(state), Net(S.Detach(c)))
      ensures conn == if old(state).net.latest == Some(c) then null else old(conn)
    {
      ReachableInv(state);
      if conn != null {
        Others(conns, c);
      }
      if conn == own {
        conn := null;
      }
      First(Net(S.Detach(c)));
    }

    /** A lifecycle connect. */
    method LifecycleConnect(ghost own: Connection, ghost c: nat)
      requires Valid() && LoopAt(c, own, S.Reading)
      modifies this`isLoggedIn, this`state
      ensures Valid() && state == Apply(old(state), Net(S.LifecycleConnect(c))) && isLoggedIn
    {
      isLoggedIn := true;
      First(Net(S.LifecycleConnect(c)));
    }

    /** A step that only moves a goroutine, or lets time pass. */
    ghost method Local(l: S.Label)
      requires Valid() && FieldFree(l) && S.Enabled(state.net, l)
      modifies this`state
      ensures Valid() && state == Apply(old(state), Net(l))
    {
      First(Net(l));
    }

    /** Inside the checker lock: there is a checker afterwards, an old one if there was one. */
    method EnsureChecker(interval: int, ghost online: bool, ghost own: Connection, ghost c: nat)
      requires Valid() && LoopAt(c, own, S.Checking(online, interval))
      modifies this`cancelChecker, this`checkers, this`Repr, this`state
      ensures Valid() && fresh(Repr - old(Repr)) && state == Apply(old(state), Net(S.EnsureChecker(c)))
      ensures old(cancelChecker) != null ==> cancelChecker == old(cancelChecker)
      ensures cancelChecker != null && LoopAt(c, own, S.Sending(online))
      ensures old(cancelChecker) == null ==> fresh(cancelChecker) && cancelChecker.interval == S.CheckInterval(interval)
    {
      if cancelChecker == null {
        var next := new Checker(S.CheckInterval(interval));
        assert next !in Repr;
        StillDistinct(checkers, next);
        cancelChecker, checkers, Repr := next, checkers + [next], Repr + {next};
      }
      First(Net(S.EnsureChecker(c)));
    }

    /** A checker stores the status it took, or false when its timer fired. */
    method Store(status: bool, ghost k: nat)
      requires Valid() && k < |state.net.checkers| && state.net.checkers[k].phase == S.Storing(status)
      modifies this`isLoggedIn, this`state
      ensures Valid() && isLoggedIn == status && state == Apply(old(state), Net(S.Store(k)))
    {
      isLoggedIn := status;
      First(Net(S.Store(k)));
    }

    /** The first half of `Release`. */
    method ReleaseConn(ghost r: nat)
      requires Valid() && S.ReleaseAt(state.net, r, S.Begun)
      modifies this`conn, this`state, (if conn == null then {} else {conn})`closed
      ensures Valid() && conn == null && state == Apply(old(state), Net(S.ReleaseConn(r)))
      ensures S.ReleaseAt(state.net, r, S.Detached) && state.net.lock == old(state).net.lock
      ensures old(conn) != null ==> old(conn).closed
    {
      if conn != null {
        Others(conns, state.net.conn.value);
      }
      UpdateConnection(null);
      First(Net(S.ReleaseConn(r)));
    }

    /** Inside the checker lock: calls the cancel function, if there is one. */
    method CallCancel(ghost r: nat)
      requires Valid() && S.ReleaseAt(state.net, r, S.Locked)
      modifies this`state, (if cancelChecker == null then {} else {cancelChecker})`cancelled
      ensures Valid() && state == Apply(old(state), Net(S.CancelChecker(r))) && S.ReleaseAt(state.net, r, S.Cancelled)
      ensures cancelChecker != null ==> cancelChecker.cancelled
    {
      if cancelChecker != null {
        Others(checkers, state.net.cancelChecker.value);
        cancelChecker.cancelled := true;
      }
      First(Net(S.CancelChecker(r)));
    }

    /** Forgets it and unlocks. */
    method ForgetChecker(ghost r: nat)
      requires Valid() && S.ReleaseAt(state.net, r, S.Cancelled)
      modifies this`cancelChecker, this`state
      ensures Valid() && state == Apply(old(state), Net(S.UnlockByRelease(r))) && cancelChecker == null
      ensures state.net.lock.None?
    {
      cancelChecker := null;
      First(Net(S.UnlockByRelease(r)));
    }

    /** `Release` up to the lock. */
    method Disconnect() returns (ghost r: nat)
      requires Valid()
      modifies this`conn, this`state, (if conn == null then {} else {conn})`closed
      ensures Valid() && conn == null && S.ReleaseAt(state.net, r, S.Detached) && state.net.lock == old(state).net.lock
      ensures old(conn) != null ==> old(conn).closed
      ensures r == |old(state).net.releases|
      ensures After(old(state), [Net(S.BeginRelease), Net(S.ReleaseConn(r))]) == Some(state)
    {
      r := |state.net.releases|;
      ReleaseBegins(state);
      Local(S.BeginRelease);
      ReleaseConn(r);
    }

    /** `Release` from the lock on. */
    method DropChecker(ghost r: nat)
      requires Valid() && S.ReleaseAt(state.net, r, S.Detached) && state.net.lock.None?
      modifies this`cancelChecker, this`state, (if cancelChecker == null then {} else {cancelChecker})`cancelled
      ensures Valid() && cancelChecker == null && state.net.lock.None?
      ensures old(cancelChecker) != null ==> old(cancelChecker).cancelled
      ensures After(old(state), [Net(S.LockByRelease(r)), Net(S.CancelChecker(r)), Net(S.UnlockByRelease(r))]) == Some(state)
    {
      ReleaseEnds(state, r);
      Local(S.LockByRelease(r));
      CallCancel(r);
      ForgetChecker(r);
    }

    /** `Release` as far as the client itself is concerned, with nothing in between. */
    method LetGo()
      requires Valid() && state.net.lock.None?
      modifies this`conn, this`cancelChecker, this`state
      modifies (if conn == null then {} else {conn})`closed, (if cancelChecker == null then {} else {cancelChecker})`cancelled
      ensures Valid() && conn == null && cancelChecker == null && state.net.lock.None?
      ensures old(conn) != null ==> old(conn).closed
      ensures old(cancelChecker) != null ==> old(cancelChecker).cancelled
      ensures After(old(state), ReleaseSteps(|old(state).net.releases|)) == Some(state)
    {
      ghost var r := Disconnect();
      AfterJoin(old(state), [Net(S.BeginRelease), Net(S.ReleaseConn(r))], state,
        [Net(S.LockByRelease(r)), Net(S.CancelChecker(r)), Net(S.UnlockByRelease(r))]);
      DropChecker(r);
    }

    /** A heartbeat up to the send: the loop has the lock and there is a checker, an old one if there was
        one, and otherwise one that waits three times the announced interval. */
    method StartHeartbeat(online: bool, interval: int, ghost own: Connection, ghost c: nat)
      requires Valid() && LoopAt(c, own, S.Reading) && state.net.lock.None?
      modifies this`cancelChecker, this`checkers, this`Repr, this`state
      ensures Valid() && fresh(Repr - old(Repr)) && LoopAt(c, own, S.Sending(online)) && cancelChecker != null
      ensures old(cancelChecker) != null ==> cancelChecker == old(cancelChecker)
      ensures old(cancelChecker) == null ==> fresh(cancelChecker) && cancelChecker.interval == S.CheckInterval(interval)
      ensures old(cancelChecker) == null && 0 <= interval <= 1431655765 ==> cancelChecker.interval == 3 * interval
      ensures After(old(state), HeartbeatSteps(c, online, interval)) == Some(state)
    {
      HeartbeatLeads(state, c, online, interval);
      Local(S.Heartbeat(c, online, interval));
      Local(S.LockByLoop(c));
      EnsureChecker(interval, online, own, c);
      S.IntervalWraps(interval);
    }

    /** The send: when the current checker is at its select, it takes the status and stores it. */
    method FinishHeartbeat(online: bool, ghost own: Connection, ghost c: nat, ghost k: nat)
      requires Valid() && LoopAt(c, own, S.Sending(online)) && S.Enabled(state.net, S.Deliver(c, k))
      modifies this`isLoggedIn, this`state
      ensures Valid() && LoopAt(c, own, S.Reading) && state.net.lock.None? && isLoggedIn == online
      ensures After(old(state), DeliverySteps(c, k)) == Some(state)
    {
      DeliverStoreUnlock(state.net, c, k);
      DeliveryLeads(state, c, k);
      Local(S.Deliver(c, k));
      Store(online, k);
      Local(S.UnlockByLoop(c));
    }
  }
}
