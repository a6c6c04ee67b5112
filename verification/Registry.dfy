/** The registry of clients by token, and the login flow that registers twice under one token. */
module Registry {
  import opened Strings
  import opened FromOnebot
  import opened OnebotClient
  import S = Session
  import M = ClientMachine

  predicate Inactive(c: Client)
    reads c
  {
    c.conn == null && c.cancelChecker == null
  }

  /** Nobody is inside the checker lock, so taking it does not wait. */
  ghost predicate Unlocked(c: Client)
    reads c
  {
    c.state.net.lock.None?
  }

  ghost predicate Apart(c: Client, d: Client)
    reads c, d
  {
    c.Repr !! d.Repr
  }

  class Service {
    var clients: map<string, Client>

    constructor ()
      ensures clients == map[] && Registered()
    {
      clients := map[];
    }

    /** Every entry's client carries its key as token. */
    ghost predicate Registered()
      reads this
    {
      forall t | t in clients :: clients[t].token == t
    }

    method NewClient(id: string, token: string) returns (client: Client)
      requires Registered()
      modifies this
      ensures Registered() && clients == old(clients)[token := client]
      ensures client.Valid() && fresh(client.Repr)
      ensures client.id == id && client.token == token && Inactive(client) && Unlocked(client) && client.state == M.INIT
      ensures !client.isLoggedIn && client.websocketRequests == map[]
    {
      client := new Client(id, token);
      clients := clients[token := client];
    }

    method RemoveClient(token: string)
      modifies this
      ensures clients == old(clients) - {token}
    {
      clients := clients - {token};
    }

    /** `Release` of `c`, with nothing in between: it closes and cancels what `c` owns and drops the
        registration of its token. It spares every other client's registration exactly when its token is
        not by then somebody else's. */
    method Release(c: Client)
      requires Registered() && c.Valid() && Unlocked(c) && this !in c.Repr
      modifies this, c.Repr
      ensures Registered() && c.Valid() && Unlocked(c) && c.Repr == old(c.Repr)
      ensures Inactive(c) && (old(c.conn) != null ==> old(c.conn).closed)
      ensures old(c.cancelChecker) != null ==> old(c.cancelChecker).cancelled
      ensures clients == old(clients) - {c.token}
      ensures (forall t | t in old(clients) && old(clients)[t] != c :: t in clients)
        <==> (c.token in old(clients) ==> old(clients)[c.token] == c)
    {
      c.OwnsItsOwn();
      c.LetGo();
      RemoveClient(c.token);
    }

    /** `c` can be released. */
    ghost predicate Ready(c: Client)
      reads c, c.Repr
    {
      c.Valid() && Unlocked(c) && this !in c.Repr && c in c.Repr
    }

    /** A client is as it was if nothing of its own has changed. */
    twostate lemma Kept(d: Client)
      requires old(Ready(d)) && forall o | o in old(d.Repr) :: unchanged(o)
      ensures Ready(d) && d.Repr == old(d.Repr) && (old(Inactive(d)) ==> Inactive(d))
    {
    }

    /** Of the clients in `all`, which share nothing, those under `todo` are still registered and the
        others are inactive. */
    ghost predicate Stopping(all: map<string, Client>, reprs: map<string, set<object>>, todo: set<string>)
      reads this, all.Values, set t, o | t in all && o in all[t].Repr :: o
    {
      && Registered() && todo == clients.Keys <= all.Keys == reprs.Keys
      && (forall t | t in todo :: clients[t] == all[t])
      && (forall t | t in all :: Ready(all[t]) && all[t].Repr == reprs[t])
      && (forall t, u | t in all && u in all && t != u :: reprs[t] !! reprs[u])
      && (forall t | t in all && t !in todo :: Inactive(all[t]))
    }

    method StopOne(t: string, ghost all: map<string, Client>, ghost reprs: map<string, set<object>>, ghost todo: set<string>)
      requires Stopping(all, reprs, todo) && t in todo
      modifies this, reprs[t]
      ensures Stopping(all, reprs, todo - {t})
    {
      label Before:
      Release(clients[t]);
      forall u | u in all && u != t
        ensures Ready(all[u]) && all[u].Repr == reprs[u] && (u !in todo ==> Inactive(all[u]))
      {
        assert reprs[u] !! reprs[t];
        Kept@Before(all[u]);
      }
    }

    /** `Stop`, with nobody else using the registry: every client is released and none is left. */
    method Stop()
      requires Registered() && (forall t | t in clients :: Ready(clients[t]))
      requires forall t, u | t in clients && u in clients && t != u :: Apart(clients[t], clients[u])
      modifies this, set t, o | t in clients && o in clients[t].Repr :: o
      ensures clients == map[]
      ensures forall t | t in old(clients) :: Inactive(old(clients)[t]) && old(clients)[t].Valid()
    {
      ghost var all, reprs := clients, map t | t in clients :: clients[t].Repr;
      var todo := clients.Keys;
      while todo != {}
        invariant Stopping(all, reprs, todo)
      {
        var t :| t in todo;
        StopOne(t, all, reprs, todo);
        todo := todo - {t};
      }
    }

    /** `ServeHTTP` up to the upgrade: the client admitted, if any, and its agent type. */
    method Admit(authHeader: string, selfID: string, userAgent: string) returns (client: Client?)
      modifies clients.Values`agentType
      ensures client != null <==>
        && "Bearer " <= authHeader && authHeader[7..] in clients
        && (clients[authHeader[7..]].id == "" || clients[authHeader[7..]].id == selfID)
      ensures client != null ==> client == clients[authHeader[7..]]
      ensures client != null && "LLOneBot" <= userAgent ==> client.agentType == LLOneBot
      ensures client != null && !("LLOneBot" <= userAgent) && "WeChat" <= userAgent ==> client.agentType == WeChat
      ensures client != null && !("LLOneBot" <= userAgent) && !("WeChat" <= userAgent) ==> client.agentType == NapCat
      ensures forall c | c in clients.Values && c != client :: c.agentType == old(c.agentType)
    {
      if !("Bearer " <= authHeader) {
        return null;
      }
      var token := authHeader[7..];
      if token !in clients {
        return null;
      }
      client := clients[token];
      if client.id != "" && client.id != selfID {
        return null;
      }
      assert client in clients.Values;
      if "LLOneBot" <= userAgent {
        client.agentType := LLOneBot;
      } else if "WeChat" <= userAgent {
        client.agentType := WeChat;
      } else {
        client.agentType := NapCat;
      }
    }
  }

  /** What one round of `Wait` sees. */
  datatype Poll = Poll(cancelled: bool, loggedIn: bool, loginID: Option<string>)
  {
    predicate Settles() { cancelled || (loggedIn && loginID.Some?) }
  }

  datatype WaitResult = NotStarted | StillWaiting | Cancelled | LoginFailed | LoggedIn(id: string)

  /** The first round that settles the wait. */
  function Settled(polls: seq<Poll>): (r: Option<nat>)
    ensures r.Some? ==> r.value < |polls| && polls[r.value].Settles() && forall j | 0 <= j < r.value :: !polls[j].Settles()
    ensures r.None? ==> forall j | 0 <= j < |polls| :: !polls[j].Settles()
  {
    if polls == [] then None
    else if polls[0].Settles() then Some(0)
    else
      match Settled(polls[1..])
      case None => None
      case Some(i) => Some(i + 1)
  }

  /** None of the first `n` rounds is cancelled or finds a logged-in client that reports its ID. */
  predicate NothingBefore(polls: seq<Poll>, n: int) {
    forall j | 0 <= j < |polls| && j < n :: !polls[j].cancelled && !(polls[j].loggedIn && polls[j].loginID.Some?)
  }

  /** What the wait comes to when round `i` settles it; `stored` says whether the login could be stored. */
  function ResultOf(poll: Poll, stored: bool): WaitResult
    requires poll.Settles()
  {
    if poll.cancelled then Cancelled else if !stored then LoginFailed else LoggedIn(poll.loginID.value)
  }

  /** The registrations that disconnecting another login takes away. */
  function Gone(evicted: Client?): set<string> {
    if evicted == null then {} else {evicted.token}
  }

  ghost function ReprOf(c: Client?): set<object>
    reads if c == null then {} else {c}
  {
    if c == null then {} else c.Repr
  }

  class TokenLogin {
    const service: Service
    var client: Client?

    constructor (service: Service)
      ensures this.service == service && client == null
    {
      this.service := service;
      client := null;
    }

    ghost predicate Valid()
      reads this, service, ReprOf(client), if client == null then {} else {client}
    {
      service.Registered() && (client != null ==> service.Ready(client) && this !in client.Repr)
    }

    method Start(token: string)
      requires service.Registered()
      modifies this, service
      ensures Valid() && client != null && fresh(client) && client.id == "" && client.token == token && Inactive(client)
      ensures service.clients == old(service.clients)[token := client]
    {
      client := service.NewClient("", token);
    }

    method Cancel()
      requires Valid()
      modifies service, ReprOf(client)
      ensures Valid() && client == old(client) && (client != null ==> client.Repr == old(client.Repr))
      ensures service.clients == old(service.clients) - Gone(client)
      ensures client != null ==> Inactive(client) && (old(client.conn) != null ==> old(client.conn).closed)
    {
      if client != null {
        service.Release(client);
      }
    }

    /** `Wait`, with nobody else using the registry. `stored` says whether the new login could be stored;
        storing it disconnects the login it conflicts with, whose client is `evicted`, and registers a
        client again under the token, now bound to the login's ID. On success the token leads to that new
        client, and no other registration has changed but the evicted one's. */
    method Wait(polls: seq<Poll>, stored: bool, evicted: Client?) returns (r: WaitResult)
      requires Valid()
      requires evicted != null ==> service.Ready(evicted) && this !in evicted.Repr && client != null && Apart(client, evicted)
      modifies service, ReprOf(client), ReprOf(evicted)
      ensures Valid() && client == old(client) && (client != null ==> client.Repr == old(client.Repr))
      ensures r ==
        if client == null then NotStarted
        else if Settled(polls).None? then StillWaiting
        else ResultOf(polls[Settled(polls).value], stored)
      ensures r.LoggedIn? ==>
        exists i :: 0 <= i < |polls| && NothingBefore(polls, i) && polls[i] == Poll(false, true, Some(r.id))
      ensures r.LoginFailed? ==>
        !stored && exists i :: 0 <= i < |polls| && NothingBefore(polls, i) && polls[i].loggedIn && polls[i].loginID.Some?
      ensures r.Cancelled? ==>
        exists i :: 0 <= i < |polls| && NothingBefore(polls, i) && polls[i].cancelled
      ensures r.StillWaiting? ==> NothingBefore(polls, |polls|)
      ensures r.LoggedIn? ==>
        && client != null && client.token in service.clients && fresh(service.clients[client.token])
        && service.clients[client.token].id == r.id && service.clients[client.token].token == client.token
        && service.clients - {client.token} == old(service.clients) - {client.token} - Gone(evicted)
      ensures r.LoginFailed? ==> service.clients == old(service.clients) - {client.token} - Gone(evicted)
      ensures r.Cancelled? ==> service.clients == old(service.clients) - {client.token}
      ensures r.NotStarted? || r.StillWaiting? ==> service.clients == old(service.clients)
      ensures r.LoggedIn? || r.Cancelled? || r.LoginFailed? ==> Inactive(client)
      ensures (r.LoggedIn? || r.LoginFailed?) && evicted != null ==> Inactive(evicted)
    {
      if client == null {
        return NotStarted;
      }
      var i := 0;
      while i < |polls| && !polls[i].Settles()
        invariant i <= |polls| && forall j | 0 <= j < i :: !polls[j].Settles()
      {
        i := i + 1;
      }
      if i == |polls| {
        return StillWaiting;
      }
      if polls[i].cancelled {
        Cancel();
        return Cancelled;
      }
      Replace(polls[i].loginID.value, stored, evicted);
      r := if stored then LoggedIn(polls[i].loginID.value) else LoginFailed;
    }

    /** Disconnects a conflicting login. */
    method Evict(evicted: Client?)
      requires Valid() && client != null && Inactive(client)
      requires evicted != null ==> service.Ready(evicted) && this !in evicted.Repr && Apart(client, evicted)
      modifies service, ReprOf(evicted)
      ensures Valid() && client == old(client) && Inactive(client) && client.Repr == old(client.Repr)
      ensures service.clients == old(service.clients) - Gone(evicted)
      ensures evicted != null ==> Inactive(evicted)
    {
      if evicted != null {
        label Before:
        service.Release(evicted);
        service.Kept@Before(client);
      }
    }

    /** `Cancel` leaves others alone. */
    method LetGoOf(ghost evicted: Client?)
      requires Valid() && client != null
      requires evicted != null ==> service.Ready(evicted) && this !in evicted.Repr && Apart(client, evicted)
      modifies service, ReprOf(client)
      ensures Valid() && client == old(client) && Inactive(client) && client.Repr == old(client.Repr)
      ensures evicted != null ==> service.Ready(evicted) && evicted.Repr == old(evicted.Repr)
      ensures service.clients == old(service.clients) - {client.token}
    {
      label Before:
      service.Release(client);
      if evicted != null {
        service.Kept@Before(evicted);
      }
    }

    /** What a successful round does. */
    method Replace(loginID: string, stored: bool, evicted: Client?)
      requires Valid() && client != null
      requires evicted != null ==> service.Ready(evicted) && this !in evicted.Repr && Apart(client, evicted)
      modifies service, ReprOf(client), ReprOf(evicted)
      ensures Valid() && client == old(client) && Inactive(client) && client.Repr == old(client.Repr)
      ensures service.clients - {client.token} == old(service.clients) - {client.token} - Gone(evicted)
      ensures client.token in service.clients <==> stored
      ensures stored ==> fresh(service.clients[client.token]) && service.clients[client.token].id == loginID
      ensures evicted != null ==> Inactive(evicted)
    {
      LetGoOf(evicted);
      Evict(evicted);
      if stored {
        LoadUserLogin(loginID);
      }
    }

    /** `LoadUserLogin`: the new login's client goes under the token it was stored with. */
    method LoadUserLogin(loginID: string)
      requires Valid() && client != null && Inactive(client)
      modifies service
      ensures Valid() && client == old(client) && Inactive(client)
      ensures client.token in service.clients && fresh(service.clients[client.token]) && service.clients[client.token].id == loginID
      ensures service.clients == old(service.clients)[client.token := service.clients[client.token]]
    {
      var bound := service.NewClient(loginID, client.token);
    }

    /** The clash of two clients under one token at work: cancelling a login that has succeeded takes the
        registration away from the new login's client, which nobody has released. */
    method WaitThenCancel(polls: seq<Poll>) returns (r: WaitResult, bound: Client?)
      requires Valid()
      modifies service, ReprOf(client)
      ensures Valid() && client == old(client)
      ensures r.LoggedIn? ==>
        && client != null && bound != null && fresh(bound) && bound.id == r.id && bound.token == client.token && bound.token !in service.clients
    {
      r := Wait(polls, true, null);
      bound := if r.LoggedIn? then service.clients[client.token] else null;
      Cancel();
    }
  }
}
