/** The bridge's client object: the resync queue, the work on one batch, and the stop pointer. `book` and
    `owner` are the states of `ResyncRuns` and `LoopOwnership` that its methods have led to, so what is
    proved of all runs holds of the object. */
module Connector {
  import opened Strings
  import Identifiers
  import R = ResyncRuns
  import L = LoopOwnership

  class Clock {
    var now: int

    /** Any amount of time may have passed since the last reading. */
    method Now() returns (t: int)
      modifies this
      ensures t == now >= old(now)
    {
      var passed: int := *;
      if passed > 0 {
        now := now + passed;
      }
      t := now;
    }
  }

  class Ghost {
    const id: string
    var lastSync: int

    constructor (id: string, lastSync: int)
      ensures this.id == id && this.lastSync == lastSync
    {
      this.id := id;
      this.lastSync := lastSync;
    }
  }

  class Portal {
    const id: string
    var lastSync: int

    constructor (id: string, lastSync: int)
      ensures this.id == id && this.lastSync == lastSync
    {
      this.id := id;
      this.lastSync := lastSync;
    }
  }

  datatype Item = GhostItem(puppet: Ghost) | PortalItem(portal: Portal)
  {
    function ID(): string { if GhostItem? then puppet.id else portal.id }
  }

  /** `lastSync.Add(resyncMinInterval).After(now)`. */
  predicate TooRecent(lastSync: int, now: int) {
    lastSync + R.MIN_INTERVAL > now
  }

  function LastSync(item: Item): int
    reads if item.GhostItem? then {item.puppet} else {}, if item.PortalItem? then {item.portal} else {}
  {
    if item.GhostItem? then item.puppet.lastSync else item.portal.lastSync
  }

  function LastSyncs(batch: map<string, Item>): map<string, int>
    reads set k | k in batch && batch[k].GhostItem? :: batch[k].puppet, set k | k in batch && batch[k].PortalItem? :: batch[k].portal
  {
    map k | k in batch :: LastSync(batch[k])
  }

  class CancelFunc {
    var called: bool

    constructor ()
      ensures !called
    {
      called := false;
    }

    method Call()
      modifies this
      ensures called
    {
      called := true;
    }
  }

  /** Steps of loop `i` on its batch, and time. */
  predicate OfLoop(l: R.Label, i: nat) {
    match l
    case Tick(_) => true
    case Check(j, _, _) => j == i
    case GiveUp(j) => j == i
    case EndCheck(j) => j == i
    case Update(j, _) => j == i
    case EndUpdate(j) => j == i
    case _ => false
  }

  /** Loop `i` has worked its way from `s` to `t`. */
  ghost predicate Worked(s: R.State, t: R.State, i: nat) {
    exists steps: seq<R.Label> :: R.After(s, steps) == Some(t) && forall l | l in steps :: OfLoop(l, i)
  }

  lemma NotYetWorked(s: R.State, i: nat)
    ensures Worked(s, s, i)
  {
    assert R.After(s, []) == Some(s);
  }

  lemma WorkedOn(s: R.State, t: R.State, i: nat, l: R.Label)
    requires Worked(s, t, i) && R.Enabled(t, l) && OfLoop(l, i)
    ensures Worked(s, R.Apply(t, l), i)
  {
    var steps: seq<R.Label> :| R.After(s, steps) == Some(t) && forall m | m in steps :: OfLoop(m, i);
    assert (steps + [l])[..|steps|] == steps;
    assert R.After(s, steps + [l]) == Some(R.Apply(t, l));
  }

  lemma WorkedThrough(s: R.State, t: R.State, u: R.State, i: nat)
    requires Worked(s, t, i) && Worked(t, u, i)
    ensures Worked(s, u, i)
  {
    var first: seq<R.Label> :| R.After(s, first) == Some(t) && forall l | l in first :: OfLoop(l, i);
    var second: seq<R.Label> :| R.After(t, second) == Some(u) && forall l | l in second :: OfLoop(l, i);
    R.AfterJoin(s, first, t, second);
  }

  /** The ghosts found due, in order. */
  predicate Named(due: seq<R.Due>, ghosts: seq<Ghost>) {
    |due| == |ghosts| && forall a | 0 <= a < |due| :: due[a].ghostID == ghosts[a].id
  }

  /** `ghosts` are those of the items looked at so far, each at its time, that were due. */
  ghost predicate PickedGhosts(batch: map<string, Item>, last: map<string, int>, times: map<string, int>, ghosts: seq<Ghost>) {
    && (forall g | g in ghosts :: g.id in times && g.id in batch && batch[g.id] == GhostItem(g) && IsDue(last, times, g.id))
    && (forall k | k in times && k in batch && batch[k].GhostItem? && IsDue(last, times, k) :: batch[k].puppet in ghosts)
    && (forall a, b | 0 <= a < b < |ghosts| :: ghosts[a] != ghosts[b])
  }

  ghost predicate PickedPortals(batch: map<string, Item>, last: map<string, int>, times: map<string, int>, portals: seq<Portal>) {
    && (forall p | p in portals :: p.id in times && p.id in batch && batch[p.id] == PortalItem(p) && IsDue(last, times, p.id))
    && (forall k | k in times && k in batch && batch[k].PortalItem? && IsDue(last, times, k) :: batch[k].portal in portals)
    && (forall a, b | 0 <= a < b < |portals| :: portals[a] != portals[b])
  }

  predicate IsDue(last: map<string, int>, times: map<string, int>, k: string) {
    k in last && k in times && last[k] + 604_800_000_000_000 <= times[k]
  }

  function MoreGhosts(ghosts: seq<Ghost>, item: Item, due: bool): seq<Ghost> {
    if due && item.GhostItem? then ghosts + [item.puppet] else ghosts
  }

  function MorePortals(portals: seq<Portal>, item: Item, due: bool): seq<Portal> {
    if due && item.PortalItem? then portals + [item.portal] else portals
  }

  predicate Between(from: int, times: map<string, int>, to: int) {
    forall k | k in times :: from <= times[k] <= to
  }

  /** A ghost's sync time after its turn came between `from` and `to`: that moment if it was refreshed. */
  predicate Synced(refreshed: bool, before: int, after: int, from: int, to: int) {
    if refreshed then from <= after <= to else after == before
  }

  lemma PickOne(batch: map<string, Item>, last: map<string, int>, times: map<string, int>, ghosts: seq<Ghost>, portals: seq<Portal>,
                k: string, at: int)
    requires PickedGhosts(batch, last, times, ghosts) && PickedPortals(batch, last, times, portals)
    requires k in batch && k in last && k !in times && batch[k].ID() == k
    ensures var due := !TooRecent(last[k], at);
      && PickedGhosts(batch, last, times[k := at], MoreGhosts(ghosts, batch[k], due))
      && PickedPortals(batch, last, times[k := at], MorePortals(portals, batch[k], due))
  {
  }

  ghost predicate ShowsFlag(cancels: seq<CancelFunc>, flags: seq<bool>, l: nat)
    requires l < |cancels| && l < |flags|
    reads cancels
  {
    cancels[l].called == flags[l]
  }

  /** The cancel functions called are those of the cancelled loops. */
  ghost predicate ShowsFlags(cancels: seq<CancelFunc>, flags: seq<bool>)
    reads cancels
  {
    |cancels| == |flags| && forall l: nat | l < |flags| :: ShowsFlag(cancels, flags, l)
  }

  predicate Other(cancels: seq<CancelFunc>, stop: CancelFunc?, l: nat)
    requires l < |cancels|
  {
    cancels[l] != stop
  }

  /** `stop` is the cancel function of loop `current` and of no other, or there is none. */
  ghost predicate StopsOnly(cancels: seq<CancelFunc>, stop: CancelFunc?, current: Option<nat>) {
    && (current.Some? ==> current.value < |cancels| && stop == cancels[current.value])
    && (current.None? ==> stop == null)
    && (forall l: nat | l < |cancels| && current != Some(l) :: Other(cancels, stop, l))
  }

  lemma MoreFlags(cancels: seq<CancelFunc>, flags: seq<bool>, own: CancelFunc)
    requires ShowsFlags(cancels, flags) && !own.called
    ensures ShowsFlags(cancels + [own], flags + [false])
  {
    forall l: nat | l < |flags| + 1 ensures ShowsFlag(cancels + [own], flags + [false], l) {
      if l < |flags| {
        assert ShowsFlag(cancels, flags, l);
      }
    }
  }

  lemma StopsOwn(cancels: seq<CancelFunc>, own: CancelFunc)
    requires own !in cancels
    ensures StopsOnly(cancels + [own], own, Some(|cancels|))
  {
    forall l: nat | l < |cancels| ensures Other(cancels + [own], own, l) {
      assert cancels[l] in cancels;
    }
  }

  class PylonClient {
    const clock: Clock
    /** All ghosts there are, by ID. */
    ghost const known: map<string, Ghost>
    var resyncQueue: map<string, Item>
    var nextResync: int
    var stopLoops: CancelFunc?

    ghost var book: R.State
    ghost var owner: L.State
    /** The cancel function of each loop. */
    ghost var cancels: seq<CancelFunc>

    /** An item is under its own ID, and a ghost is the one of that ID. */
    ghost predicate Proper(k: string, item: Item) {
      item.ID() == k && (item.GhostItem? ==> k in known && known[k] == item.puppet)
    }

    ghost predicate ShowsQueue()
      reads this, clock
    {
      && resyncQueue.Keys == book.queue.Keys && nextResync == book.nextResync && book.now <= clock.now
      && (forall k | k in resyncQueue :: Proper(k, resyncQueue[k]))
    }

    ghost predicate ShowsGhosts()
      reads this, known.Values
    {
      forall id | id in known :: known[id].id == id && id in book.lastSync && book.lastSync[id] == known[id].lastSync
    }

    ghost predicate ShowsLoops()
      reads this, cancels
    {
      && |owner.cancelled| == |book.loops| && book.current == owner.stopLoops
      && ShowsFlags(cancels, owner.cancelled) && StopsOnly(cancels, stopLoops, owner.stopLoops)
    }

    ghost predicate Valid()
      reads this, clock, known.Values, cancels
    {
      R.Reachable(book) && L.Reachable(owner) && ShowsQueue() && ShowsGhosts() && ShowsLoops()
    }

    constructor (clock: Clock, ghost known: map<string, Ghost>)
      requires forall id | id in known :: known[id].id == id
      ensures Valid() && this.clock == clock && this.known == known
      ensures resyncQueue == map[] && stopLoops == null
    {
      ghost var lastSync := map id | id in known :: known[id].lastSync;
      this.clock, this.known := clock, known;
      resyncQueue, nextResync, stopLoops := map[], 0, null;
      book := R.Start(clock.now, lastSync);
      owner, cancels := L.INIT, [];
      R.StartReachable(clock.now, lastSync);
      L.StartReachable();
    }

    /** What the machines guarantee, read off the object: each queued key has an accepted enqueue that is in
        no batch, refreshes were seven days apart from all those known at their check, and every loop can
        still be stopped. */
    lemma InOrder()
      requires Valid()
      ensures forall k | k in resyncQueue :: R.PendingAt(book, book.queue[k]) && forall b: nat :: !R.InBatch(book, book.queue[k], b)
      ensures R.Throttled(book) && L.Inv(owner)
    {
      R.ReachableInv(book);
      L.ReachableInv(owner);
    }

    ghost method Step(l: R.Label)
      requires R.Reachable(book) && R.Enabled(book, l)
      modifies this`book
      ensures R.Reachable(book) && book == R.Apply(old(book), l)
    {
      R.StepReachable(book, l);
      book := R.Apply(book, l);
    }

    method Now() returns (t: int)
      requires Valid()
      modifies this`book, clock
      ensures Valid() && t == clock.now >= old(clock.now)
      ensures R.Enabled(old(book), R.Tick(t)) && book == R.Apply(old(book), R.Tick(t))
    {
      t := clock.Now();
      Step(R.Tick(t));
    }

    /** A ghost synced within the last seven days is not queued; a key already queued stays as it is. */
    method EnqueueGhostResync(g: Ghost) returns (queued: bool)
      requires Valid() && g.id in known && known[g.id] == g
      modifies this`resyncQueue, this`book, clock
      ensures Valid() && (queued <==> g.lastSync + 604_800_000_000_000 <= clock.now)
      ensures resyncQueue == if queued && g.id !in old(resyncQueue) then old(resyncQueue)[g.id := GhostItem(g)] else old(resyncQueue)
      ensures R.After(old(book), if queued then [R.Tick(clock.now), R.Enqueue(g.id)] else [R.Tick(clock.now)]) == Some(book)
    {
      var now := Now();
      R.AfterOne(old(book), R.Tick(now));
      if TooRecent(g.lastSync, now) {
        return false;
      }
      if g.id !in resyncQueue {
        resyncQueue := resyncQueue[g.id := GhostItem(g)];
      }
      R.AfterTwo(old(book), R.Tick(now), R.Enqueue(g.id));
      Step(R.Enqueue(g.id));
      return true;
    }

    /** Only groups are queued, under the same conditions. */
    method EnqueuePortalResync(p: Portal) returns (queued: bool)
      requires Valid()
      modifies this`resyncQueue, this`book, clock
      ensures Valid()
      ensures queued <==> Identifiers.ParsePortalID(p.id).0 == "group" && p.lastSync + 604_800_000_000_000 <= clock.now
      ensures resyncQueue == if queued && p.id !in old(resyncQueue) then old(resyncQueue)[p.id := PortalItem(p)] else old(resyncQueue)
      ensures R.After(old(book), if queued then [R.Tick(clock.now), R.Enqueue(p.id)] else [R.Tick(clock.now)]) == Some(book)
    {
      var now := Now();
      R.AfterOne(old(book), R.Tick(now));
      var (peerType, _) := Identifiers.ParsePortalID(p.id);
      if peerType != Identifiers.GROUP || TooRecent(p.lastSync, now) {
        return false;
      }
      if p.id !in resyncQueue {
        resyncQueue := resyncQueue[p.id := PortalItem(p)];
      }
      R.AfterTwo(old(book), R.Tick(now), R.Enqueue(p.id));
      Step(R.Enqueue(p.id));
      return true;
    }

    /** Loop `i` is here. */
    ghost predicate LoopAt(i: nat, p: R.Phase)
      reads this`book
    {
      i < |book.loops| && book.loops[i].phase == p
    }

    /** The batch gets everything that was queued and the queue starts over empty. */
    method RotateResyncQueue(ghost i: nat) returns (batch: map<string, Item>)
      requires Valid() && LoopAt(i, R.Idle) && book.loops[i].wakeAt <= clock.now
      modifies this`resyncQueue, this`nextResync, this`book, clock
      ensures Valid() && batch == old(resyncQueue) && resyncQueue == map[] && nextResync == clock.now + 14_400_000_000_000
      ensures LoopAt(i, R.Arming(batch.Keys)) && forall k | k in batch :: Proper(k, batch[k])
      ensures R.After(old(book), [R.Tick(clock.now), R.Rotate(i)]) == Some(book)
    {
      var now := Now();
      R.AfterTwo(old(book), R.Tick(now), R.Rotate(i));
      nextResync := now + R.LOOP_INTERVAL;
      Step(R.Rotate(i));
      if |resyncQueue| == 0 {
        return map[];
      }
      batch := resyncQueue;
      resyncQueue := map[];
    }

    /** One round of the filtering loop. */
    method CheckItem(id: string, item: Item, ghost i: nat) returns (due: bool)
      requires Valid() && i < |book.loops| && book.loops[i].phase.Checking? && id in book.loops[i].phase.todo && Proper(id, item)
      modifies this`book, clock
      ensures Valid() && Worked(old(book), book, i) && clock.now >= old(clock.now)
      ensures due <==> LastSync(item) + 604_800_000_000_000 <= clock.now
      ensures var p := old(book).loops[i].phase;
        LoopAt(i, R.Checking(p.todo - {id}, if due && item.GhostItem? then p.due + [R.Due(id, clock.now, |old(book).log|)] else p.due))
    {
      var now := Now();
      NotYetWorked(old(book), i);
      WorkedOn(old(book), old(book), i, R.Tick(now));
      ghost var l := R.Check(i, id, item.GhostItem?);
      WorkedOn(old(book), book, i, l);
      Step(l);
      match item {
        case GhostItem(g) => due := !TooRecent(g.lastSync, now);
        case PortalItem(p) => due := !TooRecent(p.lastSync, now);
      }
    }

    /** One round of the loop over the ghosts: `fetched` says whether the ghost's information came. */
    method UpdateGhost(g: Ghost, fetched: bool, ghost i: nat)
      requires Valid() && g.id in known && known[g.id] == g
      requires i < |book.loops| && book.loops[i].phase.Updating? && book.loops[i].phase.due != [] && book.loops[i].phase.due[0].ghostID == g.id
      modifies g`lastSync, this`book, clock
      ensures Valid() && Worked(old(book), book, i) && LoopAt(i, R.Updating(old(book).loops[i].phase.due[1..]))
      ensures g.lastSync == (if fetched then clock.now else old(g.lastSync)) && clock.now >= old(clock.now)
    {
      var now := Now();
      NotYetWorked(old(book), i);
      WorkedOn(old(book), old(book), i, R.Tick(now));
      WorkedOn(old(book), book, i, R.Update(i, fetched));
      if fetched {
        g.lastSync := now;
      }
      Step(R.Update(i, fetched));
    }

    /** Loop `i` is filtering its batch, with `todo` still to look at. */
    ghost predicate Filtering(start: R.State, i: nat, todo: set<string>, ghosts: seq<Ghost>)
      reads this`book
    {
      && Worked(start, book, i) && i < |book.loops| && book.loops[i].phase.Checking? && book.loops[i].phase.todo == todo
      && Named(book.loops[i].phase.due, ghosts)
    }

    /** Checks an item and files it if it is due. */
    method FilterItem(id: string, item: Item, before: seq<Ghost>, others: seq<Portal>, ghost start: R.State, ghost i: nat, ghost todo: set<string>)
      returns (ghosts: seq<Ghost>, portals: seq<Portal>)
      requires Valid() && Filtering(start, i, todo, before) && id in todo && Proper(id, item)
      modifies this`book, clock
      ensures Valid() && Filtering(start, i, todo - {id}, ghosts) && clock.now >= old(clock.now)
      ensures ghosts == MoreGhosts(before, item, !TooRecent(LastSync(item), clock.now))
      ensures portals == MorePortals(others, item, !TooRecent(LastSync(item), clock.now))
    {
      ghosts, portals := before, others;
      var due := CheckItem(id, item, i);
      WorkedThrough(start, old(book), book, i);
      if due {
        match item {
          case GhostItem(g) => ghosts := ghosts + [g];
          case PortalItem(p) => portals := portals + [p];
        }
      }
    }

    /** What has been looked at and found due so far. */
    ghost predicate Picked(batch: map<string, Item>, last: map<string, int>, todo: set<string>, times: map<string, int>,
                           from: int, ghosts: seq<Ghost>, portals: seq<Portal>)
      reads clock
    {
      && from <= clock.now && Between(from, times, clock.now)
      && todo <= batch.Keys == last.Keys && times.Keys == batch.Keys - todo && (forall k | k in batch :: Proper(k, batch[k]))
      && PickedGhosts(batch, last, times, ghosts) && PickedPortals(batch, last, times, portals)
    }

    /** One round of the first loop. */
    method FilterRound(batch: map<string, Item>, id: string, before: seq<Ghost>, others: seq<Portal>,
                       ghost last: map<string, int>, ghost times: map<string, int>, ghost from: int, ghost start: R.State, ghost i: nat, ghost todo: set<string>)
      returns (ghosts: seq<Ghost>, portals: seq<Portal>)
      requires Valid() && Filtering(start, i, todo, before) && Picked(batch, last, todo, times, from, before, others)
      requires id in todo && LastSync(batch[id]) == last[id]
      modifies this`book, clock
      ensures Valid() && Filtering(start, i, todo - {id}, ghosts)
      ensures Picked(batch, last, todo - {id}, times[id := clock.now], from, ghosts, portals)
    {
      ghosts, portals := FilterItem(id, batch[id], before, others, start, i, todo);
      PickOne(batch, last, times, before, others, id, clock.now);
    }

    /** The first loop and the way out of it: the map is visited in some order, each item at its own time,
        and those synced too recently are skipped. */
    method FilterPhase(batch: map<string, Item>, ghost last: map<string, int>, ghost i: nat)
      returns (ghosts: seq<Ghost>, portals: seq<Portal>, ghost times: map<string, int>)
      requires LastSyncs(batch) == last
      requires Valid() && LoopAt(i, R.Checking(batch.Keys, [])) && forall k | k in batch :: Proper(k, batch[k])
      modifies this`book, clock
      ensures Valid() && Updating(old(book), i, ghosts) && LastSyncs(batch) == last && clock.now >= old(clock.now)
      ensures times.Keys == batch.Keys && PickedGhosts(batch, last, times, ghosts) && PickedPortals(batch, last, times, portals)
      ensures Between(old(clock.now), times, clock.now)
    {
      ghosts, portals, times := Filter(batch, last, i);
      NextPhase(old(book), i, ghosts);
    }

    ghost method NextPhase(start: R.State, i: nat, found: seq<Ghost>)
      requires Valid() && Filtering(start, i, {}, found)
      modifies this`book
      ensures Valid() && Updating(start, i, found)
    {
      WorkedOn(start, book, i, R.EndCheck(i));
      Step(R.EndCheck(i));
    }

    lemma NothingPicked(batch: map<string, Item>, last: map<string, int>, i: nat)
      requires LoopAt(i, R.Checking(batch.Keys, [])) && last.Keys == batch.Keys && forall k | k in batch :: Proper(k, batch[k])
      ensures Filtering(book, i, batch.Keys, []) && Picked(batch, last, batch.Keys, map[], clock.now, [], [])
    {
      NotYetWorked(book, i);
    }

    /** The first loop. */
    method Filter(batch: map<string, Item>, ghost last: map<string, int>, ghost i: nat)
      returns (ghosts: seq<Ghost>, portals: seq<Portal>, ghost times: map<string, int>)
      requires LastSyncs(batch) == last
      requires Valid() && LoopAt(i, R.Checking(batch.Keys, [])) && forall k | k in batch :: Proper(k, batch[k])
      modifies this`book, clock
      ensures Valid() && Filtering(old(book), i, {}, ghosts) && LastSyncs(batch) == last
      ensures Picked(batch, last, {}, times, old(clock.now), ghosts, portals)
    {
      ghosts, portals, times := [], [], map[];
      NothingPicked(batch, last, i);
      var todo := batch.Keys;
      while todo != {}
        invariant Valid() && Filtering(old(book), i, todo, ghosts)
        invariant LastSyncs(batch) == last && Picked(batch, last, todo, times, old(clock.now), ghosts, portals)
      {
        var id :| id in todo;
        ghosts, portals := FilterRound(batch, id, ghosts, portals, last, times, old(clock.now), old(book), i, todo);
        todo, times := todo - {id}, times[id := clock.now];
      }
    }

    /** The loop over the ghosts found due. */
    method UpdateAll(found: seq<Ghost>, fetched: string -> bool, ghost start: R.State, ghost i: nat)
      requires Valid() && Updating(start, i, found)
      requires forall a, b | 0 <= a < b < |found| :: found[a] != found[b]
      requires forall g | g in found :: g.id in known && known[g.id] == g
      modifies (set g | g in found)`lastSync, this`book, clock
      ensures Valid() && Updating(start, i, []) && clock.now >= old(clock.now)
      ensures forall g | g in found :: Synced(fetched(g.id), old(g.lastSync), g.lastSync, old(clock.now), clock.now)
    {
      var j := 0;
      while j < |found|
        invariant j <= |found| && Valid() && Updating(start, i, found[j..]) && clock.now >= old(clock.now)
        invariant forall a | 0 <= a < j ::
          Synced(fetched(found[a].id), old(found[a].lastSync), found[a].lastSync, old(clock.now), clock.now)
        invariant forall a | j <= a < |found| :: found[a].lastSync == old(found[a].lastSync)
      {
        var g := found[j];
        assert g in found && found[j..][0] == g && found[j..][1..] == found[j + 1..];
        UpdateNext(g, fetched(g.id), start, i, found[j..]);
        j := j + 1;
      }
    }

    /** Loop `i` has `left` still to refresh. */
    ghost predicate Updating(start: R.State, i: nat, left: seq<Ghost>)
      reads this`book
    {
      Worked(start, book, i) && i < |book.loops| && book.loops[i].phase.Updating? && Named(book.loops[i].phase.due, left)
    }

    method UpdateNext(g: Ghost, fetched: bool, ghost start: R.State, ghost i: nat, ghost left: seq<Ghost>)
      requires Valid() && Updating(start, i, left) && left != [] && left[0] == g && g.id in known && known[g.id] == g
      modifies g`lastSync, this`book, clock
      ensures Valid() && Updating(start, i, left[1..]) && clock.now >= old(clock.now)
      ensures g.lastSync == if fetched then clock.now else old(g.lastSync)
    {
      UpdateGhost(g, fetched, i);
      WorkedThrough(start, old(book), book, i);
    }

    /** The loop over the ghosts found due, seen from the batch. */
    method UpdateDue(ghost batch: map<string, Item>, found: seq<Ghost>, fetched: string -> bool,
                     ghost last: map<string, int>, ghost times: map<string, int>, ghost start: R.State, ghost i: nat)
      requires Valid() && Updating(start, i, found) && LastSyncs(batch) == last && PickedGhosts(batch, last, times, found)
      requires times.Keys == batch.Keys && forall k | k in batch :: Proper(k, batch[k])
      modifies (set g | g in found)`lastSync, this`book, clock
      ensures Valid() && Updating(start, i, []) && clock.now >= old(clock.now)
      ensures forall k | k in batch && batch[k].GhostItem? ::
        Synced(IsDue(last, times, k) && fetched(k), last[k], batch[k].puppet.lastSync, old(clock.now), clock.now)
    {
      forall g | g in found ensures g.id in known && known[g.id] == g {
        assert Proper(g.id, batch[g.id]);
      }
      UpdateAll(found, fetched, start, i);
      forall k | k in batch && batch[k].GhostItem?
        ensures Synced(IsDue(last, times, k) && fetched(k), last[k], batch[k].puppet.lastSync, old(clock.now), clock.now)
      {
        assert Proper(k, batch[k]) && old(LastSync(batch[k])) == last[k];
        assert IsDue(last, times, k) <==> batch[k].puppet in found;
      }
    }

    ghost method LastPhase(start: R.State, i: nat)
      requires Valid() && Updating(start, i, [])
      modifies this`book
      ensures Valid() && Worked(start, book, i) && LoopAt(i, R.Idle)
    {
      WorkedOn(start, book, i, R.EndUpdate(i));
      Step(R.EndUpdate(i));
    }

    /** Both loops of `doGhostResync`. Exactly the due portals are queued for a chat resync, once each, and
        exactly the due ghosts whose information came are marked as synced, each when its turn comes. */
    method WorkThrough(batch: map<string, Item>, fetched: string -> bool, ghost i: nat)
      returns (queued: seq<Portal>, ghost times: map<string, int>)
      requires Valid() && LoopAt(i, R.Checking(batch.Keys, [])) && forall k | k in batch :: Proper(k, batch[k])
      modifies (set k | k in batch && batch[k].GhostItem? :: batch[k].puppet)`lastSync, this`book, clock
      ensures Valid() && Worked(old(book), book, i) && LoopAt(i, R.Idle)
      ensures times.Keys == batch.Keys && PickedPortals(batch, old(LastSyncs(batch)), times, queued)
      ensures Between(old(clock.now), times, clock.now)
      ensures forall k | k in batch && batch[k].GhostItem? ::
        Synced(IsDue(old(LastSyncs(batch)), times, k) && fetched(k), old(LastSyncs(batch))[k],
          batch[k].puppet.lastSync, old(clock.now), clock.now)
    {
      var found: seq<Ghost>;
      ghost var start, last := book, LastSyncs(batch);
      found, queued, times := FilterPhase(batch, last, i);
      UpdateDue(batch, found, fetched, last, times, start, i);
      LastPhase(start, i);
    }

    /** `doGhostResync`: nothing without a login. */
    method DoGhostResync(batch: map<string, Item>, loggedIn: bool, fetched: string -> bool, ghost i: nat)
      returns (queued: seq<Portal>, ghost times: map<string, int>)
      requires Valid() && LoopAt(i, R.Checking(batch.Keys, [])) && forall k | k in batch :: Proper(k, batch[k])
      modifies (set k | k in batch && batch[k].GhostItem? :: batch[k].puppet)`lastSync, this`book, clock
      ensures Valid() && Worked(old(book), book, i) && LoopAt(i, R.Idle)
      ensures if loggedIn then times.Keys == batch.Keys && PickedPortals(batch, old(LastSyncs(batch)), times, queued) else queued == []
      ensures Between(old(clock.now), times, clock.now)
      ensures forall k | k in batch && batch[k].GhostItem? ::
        Synced(loggedIn && IsDue(old(LastSyncs(batch)), times, k) && fetched(k), old(LastSyncs(batch))[k],
          batch[k].puppet.lastSync, old(clock.now), clock.now)
    {
      if loggedIn {
        queued, times := WorkThrough(batch, fetched, i);
      } else {
        NotYetWorked(book, i);
        WorkedOn(book, book, i, R.GiveUp(i));
        Step(R.GiveUp(i));
        queued, times := [], map[];
      }
    }

    /** Calls the cancel function that was in `stopLoops`. */
    method CallOld(oldStop: CancelFunc?)
      requires ShowsFlags(cancels, owner.cancelled) && StopsOnly(cancels, oldStop, owner.stopLoops)
      modifies if oldStop == null then {} else {oldStop}
      ensures oldStop != null ==> oldStop.called
      ensures ShowsFlags(cancels, L.Cancel(owner.cancelled, owner.stopLoops))
    {
      if oldStop != null {
        oldStop.Call();
      }
      forall l: nat | l < |cancels| ensures ShowsFlag(cancels, L.Cancel(owner.cancelled, owner.stopLoops), l) {
        assert old(ShowsFlag(cancels, owner.cancelled, l));
        assert owner.stopLoops != Some(l) ==> Other(cancels, oldStop, l);
      }
    }

    /** The new stop function is that of the loop just spawned. */
    ghost method Adopt(own: CancelFunc)
      requires R.Reachable(book) && L.Reachable(owner) && ShowsQueue() && ShowsGhosts()
      requires |owner.cancelled| == |book.loops| && book.current == owner.stopLoops
      requires ShowsFlags(cancels, L.Cancel(owner.cancelled, owner.stopLoops))
      requires stopLoops == own && own !in cancels && !own.called
      modifies this`cancels, this`book, this`owner
      ensures Valid() && book == R.Apply(old(book), R.StartLoop)
      ensures L.After(old(owner), L.StartSteps(old(owner))) == Some(owner) && owner == L.Started(old(owner))
    {
      L.StartAlone(owner);
      MoreFlags(cancels, L.Cancel(owner.cancelled, owner.stopLoops), own);
      StopsOwn(cancels, own);
      owner, cancels := L.Started(owner), cancels + [own];
      Step(R.StartLoop);
    }

    /** `startLoops`, with nothing in between: installs a new stop function, calls the one it replaces, and
        spawns the loop. */
    method StartLoops() returns (own: CancelFunc)
      requires Valid()
      modifies this`stopLoops, this`cancels, this`book, this`owner, if stopLoops == null then {} else {stopLoops}
      ensures Valid() && fresh(own) && stopLoops == own && !own.called
      ensures old(stopLoops) != null ==> old(stopLoops).called
      ensures book == R.Apply(old(book), R.StartLoop)
      ensures L.After(old(owner), L.StartSteps(old(owner))) == Some(owner) && owner == L.Started(old(owner))
    {
      own := new CancelFunc();
      var oldStop := stopLoops;
      stopLoops := own;
      CallOld(oldStop);
      Adopt(own);
    }

    /** The first half of `Disconnect`: takes the stop function out and calls it. */
    method StopLoops()
      requires Valid()
      modifies this`stopLoops, this`book, this`owner, if stopLoops == null then {} else {stopLoops}
      ensures Valid() && stopLoops == null && (old(stopLoops) != null ==> old(stopLoops).called)
      ensures book == R.Apply(old(book), R.StopLoop)
      ensures L.After(old(owner), L.StopSteps(old(owner))) == Some(owner) && owner == L.Stopped(old(owner))
    {
      L.StopAlone(owner);
      var oldStop := stopLoops;
      stopLoops := null;
      CallOld(oldStop);
      owner := L.Stopped(owner);
      assert StopsOnly(cancels, null, None) by {
        forall l: nat | l < |cancels| ensures Other(cancels, null, l) {
        }
      }
      Step(R.StopLoop);
    }
  }
}
