/** packages/websocket/hub.go: the loop that fans events and presence out to
    browser clients over bounded queues, and what a client is sure to receive. */
module Hub {
  import opened Wrappers
  import opened Slices

  /** A client is known by a number; each WebSocket connection has its own. */
  datatype Client = Client(id: nat)

  const CAPACITY := 16

  datatype Payload = Event(data: string) | Presence(viewers: set<string>, editors: set<string>)

  datatype Outbound = Outbound(path: string, payload: Payload)

  /** A send channel: what is waiting in it, and whether it was closed. */
  datatype Channel = Channel(queue: seq<Outbound>, closed: bool)

  /** What the hub is given: user names and the access function (None is Go's
      nil: everything is allowed). */
  datatype Config = Config(user: Client -> string, access: Option<(string, string) -> bool>)

  predicate Allowed(cfg: Config, c: Client, path: string) {
    cfg.access.None? || path == "" || cfg.access.value(cfg.user(c), path)
  }

  /** The hub's maps, and beside them what an observer has seen: every message
      the loop sent out, where each client came in, what was put in and taken
      from each channel, how often it was closed, and whether the program ever
      sent on or closed a closed channel. */
  datatype State = State(
    clients: set<Client>,
    presence: map<string, map<Client, string>>,
    channels: map<Client, Channel>,
    sent: seq<Outbound>,
    joined: map<Client, nat>,
    queued: map<Client, seq<Outbound>>,
    taken: map<Client, seq<Outbound>>,
    closes: map<Client, nat>,
    panicked: bool)

  const START := State({}, map[], map[], [], map[], map[], map[], map[], false)

  // --------------------------------------------------------------- sending

  function Close(s: State, c: Client): State
    requires c in s.channels && c in s.closes
  {
    s.(clients := s.clients - {c},
       channels := s.channels[c := s.channels[c].(closed := true)],
       closes := s.closes[c := s.closes[c] + 1],
       panicked := s.panicked || s.channels[c].closed)
  }

  /** trySend: queue the message, or disconnect the client whose queue is full. */
  function TrySend(s: State, c: Client, m: Outbound): State
    requires c in s.channels && c in s.closes && c in s.queued
  {
    var ch := s.channels[c];
    if ch.closed then s.(panicked := true)
    else if |ch.queue| < CAPACITY then
      s.(channels := s.channels[c := ch.(queue := ch.queue + [m])],
         queued := s.queued[c := s.queued[c] + [m]])
    else Close(s, c)
  }

  /** Every connected client has its channel and its record. */
  predicate Wired(s: State) {
    && s.clients <= s.channels.Keys
    && s.channels.Keys == s.closes.Keys == s.queued.Keys == s.taken.Keys == s.joined.Keys
  }

  function Receivers(s: State, cfg: Config, path: string): set<Client> {
    set c | c in s.clients && Allowed(cfg, c, path)
  }

  predicate Takes(ch: Channel) {
    !ch.closed && |ch.queue| < CAPACITY
  }

  predicate Drops(ch: Channel) {
    !ch.closed && |ch.queue| >= CAPACITY
  }

  function Offered(ch: Channel, m: Outbound): Channel {
    if Takes(ch) then ch.(queue := ch.queue + [m])
    else ch.(closed := true)
  }

  function ChannelsAfter(channels: map<Client, Channel>, to: set<Client>, m: Outbound): map<Client, Channel> {
    map c | c in channels :: if c in to then Offered(channels[c], m) else channels[c]
  }

  function QueuedAfter(queued: map<Client, seq<Outbound>>, channels: map<Client, Channel>, to: set<Client>, m: Outbound)
    : map<Client, seq<Outbound>>
    requires queued.Keys == channels.Keys
  {
    map c | c in queued :: if c in to && Takes(channels[c]) then queued[c] + [m] else queued[c]
  }

  function ClosesAfter(closes: map<Client, nat>, channels: map<Client, Channel>, to: set<Client>): map<Client, nat>
    requires closes.Keys == channels.Keys
  {
    map c | c in closes :: if c in to && Drops(channels[c]) then closes[c] + 1 else closes[c]
  }

  function ClientsAfter(clients: set<Client>, channels: map<Client, Channel>, to: set<Client>): set<Client>
    requires clients <= channels.Keys
  {
    set c | c in clients && !(c in to && Drops(channels[c]))
  }

  predicate AnyClosed(channels: map<Client, Channel>, to: set<Client>)
    requires to <= channels.Keys
  {
    exists c :: c in to && channels[c].closed
  }

  /** One message given to each client of a set, whatever the order. */
  function SendTo(s: State, to: set<Client>, m: Outbound): (r: State)
    requires Wired(s) && to <= s.channels.Keys
    ensures Wired(r)
  {
    s.(clients := ClientsAfter(s.clients, s.channels, to),
       channels := ChannelsAfter(s.channels, to, m),
       queued := QueuedAfter(s.queued, s.channels, to, m),
       closes := ClosesAfter(s.closes, s.channels, to),
       panicked := s.panicked || AnyClosed(s.channels, to))
  }

  /** The loop sends one message out to every client that may see its path. */
  function SendOut(s: State, cfg: Config, m: Outbound): State
    requires Wired(s)
  {
    SendTo(s, Receivers(s, cfg, m.path), m).(sent := s.sent + [m])
  }

  // -------------------------------------------------------------- presence

  function Members(s: State, path: string): map<Client, string> {
    if path in s.presence then s.presence[path] else map[]
  }

  function Viewers(members: map<Client, string>, cfg: Config): set<string> {
    set c | c in members && cfg.user(c) != "" && members[c] != "editing" :: cfg.user(c)
  }

  function Editors(members: map<Client, string>, cfg: Config): set<string> {
    set c | c in members && cfg.user(c) != "" && members[c] == "editing" :: cfg.user(c)
  }

  function Notice(s: State, cfg: Config, path: string): Outbound {
    var members := Members(s, path);
    Outbound(path, Presence(Viewers(members, cfg), Editors(members, cfg)))
  }

  function NotifyAll(s: State, cfg: Config, paths: seq<string>): (r: State)
    requires Wired(s)
    ensures Wired(r)
  {
    if paths == [] then s
    else
      var r := NotifyAll(s, cfg, paths[..|paths| - 1]);
      SendOut(r, cfg, Notice(r, cfg, paths[|paths| - 1]))
  }

  /** The paths a client is present on. */
  function Affected(s: State, c: Client): set<string> {
    set p | p in s.presence && c in s.presence[p]
  }

  function Without(members: map<Client, string>, c: Client): map<Client, string> {
    map d | d in members && d != c :: members[d]
  }

  /** Presence after a client is gone: empty paths are dropped. */
  function Absent(presence: map<string, map<Client, string>>, c: Client): map<string, map<Client, string>> {
    map p | p in presence && (c in presence[p] ==> Without(presence[p], c) != map[]) :: Without(presence[p], c)
  }

  function Placed(presence: map<string, map<Client, string>>, c: Client, path: string, state: string)
    : map<string, map<Client, string>>
  {
    var members := if path in presence then presence[path] else map[];
    if state == "viewing" || state == "editing" then presence[path := members[c := state]]
    else if path !in presence then presence
    else if Without(members, c) == map[] then presence - {path}
    else presence[path := Without(members, c)]
  }

  // ------------------------------------------------------------------ steps

  /** What reaches the loop, and what a client's writer takes. Leaving carries
      the order in which the map of affected paths was walked. */
  datatype Step =
    | Register(c: Client)
    | Unregister(c: Client, walk: seq<string>)
    | Inbox(c: Client, kind: string, path: string, state: string)
    | Broadcast(path: string, data: string)
    | Take(c: Client)

  /** Each connection registers once, with a client made for it; a writer takes
      what is waiting; a walk visits every affected path once. */
  predicate Legal(s: State, e: Step) {
    match e
    case Register(c) => c !in s.channels
    case Unregister(c, walk) =>
      && (set p | p in walk) == Affected(s, c)
      && forall i, j :: 0 <= i < j < |walk| ==> walk[i] != walk[j]
    case Take(c) => c in s.channels && s.channels[c].queue != []
    case _ => true
  }

  function Joined(s: State, c: Client): State {
    s.(clients := s.clients + {c},
       channels := s.channels[c := Channel([], false)],
       joined := s.joined[c := |s.sent|],
       queued := s.queued[c := []],
       taken := s.taken[c := []],
       closes := s.closes[c := 0])
  }

  lemma RegisterJoins(s: State, cfg: Config, c: Client)
    requires Wired(s) && Legal(s, Step.Register(c))
    ensures Next(s, cfg, Step.Register(c)) == Joined(s, c)
  {
  }

  function Next(s: State, cfg: Config, e: Step): State
    requires Wired(s) && Legal(s, e)
    ensures Wired(Next(s, cfg, e))
  {
    match e
    case Register(c) => Joined(s, c)
    case Unregister(c, walk) =>
      if c !in s.clients then s
      else NotifyAll(Close(s, c).(presence := Absent(s.presence, c)), cfg, walk)
    case Inbox(c, kind, path, state) =>
      if kind != "presence" || path == "" then s
      else
        var placed := s.(presence := Placed(s.presence, c, path, state));
        SendOut(placed, cfg, Notice(placed, cfg, path))
    case Broadcast(path, data) => SendOut(s, cfg, Outbound(path, Event(data)))
    case Take(c) =>
      var ch := s.channels[c];
      s.(channels := s.channels[c := ch.(queue := ch.queue[1..])],
         taken := s.taken[c := s.taken[c] + [ch.queue[0]]])
  }

  // -------------------------------------------------------------- invariant

  function VisibleTo(cfg: Config, c: Client): Outbound -> bool {
    (m: Outbound) => Allowed(cfg, c, m.path)
  }

  /** The messages sent out since the client came in that it may see. */
  function Due(s: State, cfg: Config, c: Client): seq<Outbound>
    requires c in s.joined && s.joined[c] <= |s.sent|
  {
    Filter(VisibleTo(cfg, c), s.sent[s.joined[c]..])
  }

  /** Connected means open, closed means closed exactly once, and nothing was
      ever sent on a closed channel. A connected client has been queued exactly
      what it was due; one that was cut off, an initial part of it. What was
      queued is what was taken followed by what still waits. */
  ghost predicate Invariant(s: State, cfg: Config) {
    && Wired(s)
    && !s.panicked
    && forall c :: c in s.channels ==> ClientInvariant(s, cfg, c)
  }

  ghost predicate ClientInvariant(s: State, cfg: Config, c: Client)
    requires Wired(s) && c in s.channels
  {
    && (c in s.clients <==> !s.channels[c].closed)
    && s.closes[c] == (if s.channels[c].closed then 1 else 0)
    && |s.channels[c].queue| <= CAPACITY
    && s.joined[c] <= |s.sent|
    && s.queued[c] == s.taken[c] + s.channels[c].queue
    && s.queued[c] <= Due(s, cfg, c)
    && (c in s.clients ==> s.queued[c] == Due(s, cfg, c))
  }

  lemma DueGrows(s: State, cfg: Config, c: Client, m: Outbound)
    requires c in s.joined && s.joined[c] <= |s.sent|
    ensures Due(s.(sent := s.sent + [m]), cfg, c)
         == Due(s, cfg, c) + if Allowed(cfg, c, m.path) then [m] else []
  {
    assert (s.sent + [m])[s.joined[c]..] == s.sent[s.joined[c]..] + [m];
    FilterSnoc(VisibleTo(cfg, c), s.sent[s.joined[c]..], m);
  }

  /** What is queued to one client, by its place among the receivers. */
  lemma SendOutQueues(s: State, cfg: Config, m: Outbound, c: Client)
    requires Wired(s) && c in s.channels && ClientInvariant(s, cfg, c)
    ensures var r, takes := SendOut(s, cfg, m), c in Receivers(s, cfg, m.path) && Takes(s.channels[c]);
            && r.channels[c].queue == (if takes then s.channels[c].queue + [m] else s.channels[c].queue)
            && r.queued[c] == (if takes then s.queued[c] + [m] else s.queued[c])
            && r.taken[c] == s.taken[c] && r.joined[c] == s.joined[c] && r.sent == s.sent + [m]
            && (r.channels[c].closed <==> s.channels[c].closed || (c in Receivers(s, cfg, m.path) && !takes))
            && (c in r.clients <==> !r.channels[c].closed)
            && r.closes[c] == (if r.channels[c].closed then 1 else 0)
  {
  }

  lemma SendOutDue(s: State, cfg: Config, m: Outbound, c: Client)
    requires Wired(s) && c in s.channels && ClientInvariant(s, cfg, c)
    ensures Due(SendOut(s, cfg, m), cfg, c) == Due(s, cfg, c) + if Allowed(cfg, c, m.path) then [m] else []
  {
    DueGrows(s, cfg, c, m);
  }

  lemma QueueGrows(taken: seq<Outbound>, queue: seq<Outbound>, m: Outbound)
    ensures taken + (queue + [m]) == taken + queue + [m]
  {
  }

  lemma SendOutKeepsClient(s: State, cfg: Config, m: Outbound, c: Client)
    requires Wired(s) && c in s.channels && ClientInvariant(s, cfg, c)
    ensures ClientInvariant(SendOut(s, cfg, m), cfg, c)
  {
    SendOutQueues(s, cfg, m, c);
    SendOutDue(s, cfg, m, c);
    QueueGrows(s.taken[c], s.channels[c].queue, m);
  }

  lemma SendOutKeeps(s: State, cfg: Config, m: Outbound)
    requires Invariant(s, cfg)
    ensures Invariant(SendOut(s, cfg, m), cfg)
  {
    var r := SendOut(s, cfg, m);
    forall c | c in r.channels ensures ClientInvariant(r, cfg, c) {
      SendOutKeepsClient(s, cfg, m, c);
    }
    forall c | c in Receivers(s, cfg, m.path) ensures !s.channels[c].closed {
      assert ClientInvariant(s, cfg, c);
    }
  }

  lemma CloseKeeps(s: State, cfg: Config, c: Client)
    requires Invariant(s, cfg) && c in s.clients
    ensures Invariant(Close(s, c), cfg)
  {
    var r := Close(s, c);
    forall d | d in r.channels ensures ClientInvariant(r, cfg, d) {
      assert ClientInvariant(s, cfg, d);
      assert Due(r, cfg, d) == Due(s, cfg, d);
    }
  }

  lemma PresenceKeeps(s: State, cfg: Config, presence: map<string, map<Client, string>>)
    requires Invariant(s, cfg)
    ensures Invariant(s.(presence := presence), cfg)
  {
    var r := s.(presence := presence);
    forall c | c in r.channels ensures ClientInvariant(r, cfg, c) {
      assert ClientInvariant(s, cfg, c);
      assert Due(r, cfg, c) == Due(s, cfg, c);
    }
  }

  lemma {:induction false} NotifyAllKeeps(s: State, cfg: Config, paths: seq<string>)
    requires Invariant(s, cfg)
    ensures Invariant(NotifyAll(s, cfg, paths), cfg)
  {
    if paths == [] {
    } else {
      NotifyAllKeeps(s, cfg, paths[..|paths| - 1]);
      var r := NotifyAll(s, cfg, paths[..|paths| - 1]);
      SendOutKeeps(r, cfg, Notice(r, cfg, paths[|paths| - 1]));
    }
  }

  lemma RegisterKeeps(s: State, cfg: Config, e: Step)
    requires Invariant(s, cfg) && Legal(s, e) && e.Register?
    ensures Invariant(Next(s, cfg, e), cfg)
  {
    var r := Next(s, cfg, e);
    forall c | c in r.channels ensures ClientInvariant(r, cfg, c) {
      if c == e.c {
        assert r.sent[r.joined[c]..] == [];
      } else {
        assert ClientInvariant(s, cfg, c);
        assert Due(r, cfg, c) == Due(s, cfg, c);
      }
    }
  }

  lemma TakeKeeps(s: State, cfg: Config, e: Step)
    requires Invariant(s, cfg) && Legal(s, e) && e.Take?
    ensures Invariant(Next(s, cfg, e), cfg)
  {
    var r := Next(s, cfg, e);
    forall c | c in r.channels ensures ClientInvariant(r, cfg, c) {
      TakeKeepsClient(s, cfg, e.c, c);
    }
  }

  lemma TakeKeepsClient(s: State, cfg: Config, taker: Client, c: Client)
    requires Wired(s) && Legal(s, Take(taker)) && c in s.channels && ClientInvariant(s, cfg, c)
    ensures ClientInvariant(Next(s, cfg, Take(taker)), cfg, c)
  {
    var r := Next(s, cfg, Take(taker));
    assert r.sent == s.sent && r.joined == s.joined && r.queued == s.queued;
    assert Due(r, cfg, c) == Due(s, cfg, c);
    if c == taker {
      Shift(s.taken[c], s.channels[c].queue);
    }
  }

  lemma Shift<T>(taken: seq<T>, queue: seq<T>)
    requires queue != []
    ensures taken + queue == taken + [queue[0]] + queue[1..]
  {
  }

  lemma NextKeeps(s: State, cfg: Config, e: Step)
    requires Invariant(s, cfg) && Legal(s, e)
    ensures Invariant(Next(s, cfg, e), cfg)
  {
    match e
    case Register(_) => RegisterKeeps(s, cfg, e);
    case Unregister(c, walk) =>
      if c in s.clients {
        CloseKeeps(s, cfg, c);
        PresenceKeeps(Close(s, c), cfg, Absent(s.presence, c));
        NotifyAllKeeps(Close(s, c).(presence := Absent(s.presence, c)), cfg, walk);
      }
    case Inbox(c, kind, path, state) =>
      if kind == "presence" && path != "" {
        PresenceKeeps(s, cfg, Placed(s.presence, c, path, state));
        var placed := s.(presence := Placed(s.presence, c, path, state));
        SendOutKeeps(placed, cfg, Notice(placed, cfg, path));
      }
    case Broadcast(path, data) => SendOutKeeps(s, cfg, Outbound(path, Event(data)));
    case Take(_) => TakeKeeps(s, cfg, e);
  }

  /** The hub after a run; a step that cannot happen leaves it as it is. */
  function Run(steps: seq<Step>, cfg: Config): (s: State)
    ensures Wired(s)
  {
    if steps == [] then START
    else
      var s := Run(steps[..|steps| - 1], cfg);
      if Legal(s, steps[|steps| - 1]) then Next(s, cfg, steps[|steps| - 1]) else s
  }

  lemma {:induction false} RunInvariant(steps: seq<Step>, cfg: Config)
    ensures Invariant(Run(steps, cfg), cfg)
  {
    if steps == [] {
    } else {
      RunInvariant(steps[..|steps| - 1], cfg);
      var s := Run(steps[..|steps| - 1], cfg);
      if Legal(s, steps[|steps| - 1]) {
        NextKeeps(s, cfg, steps[|steps| - 1]);
      }
    }
  }

  /** In every reachable state, what a connected client has taken and what waits
      for it are together exactly the messages sent out since it came in that it
      may see, in order; a client that was cut off has an initial part of them;
      no channel was closed twice and nothing was sent on a closed one. */
  lemma DeliveryWithoutGaps(steps: seq<Step>, cfg: Config, c: Client)
    requires c in Run(steps, cfg).channels
    ensures var s := Run(steps, cfg);
            && !s.panicked
            && s.closes[c] <= 1
            && s.joined[c] <= |s.sent|
            && s.taken[c] + s.channels[c].queue <= Due(s, cfg, c)
            && (c in s.clients ==> s.taken[c] + s.channels[c].queue == Due(s, cfg, c))
  {
    RunInvariant(steps, cfg);
    assert ClientInvariant(Run(steps, cfg), cfg, c);
  }

  // --------------------------------------------------------------- the loop

  /** The run loop's maps and channels, with the observer's record as ghosts.
      Each method is one turn of the select, proved to be the step above. */
  class Loop {
    const cfg: Config
    var clients: set<Client>
    var presence: map<string, map<Client, string>>
    var channels: map<Client, Channel>
    ghost var sent: seq<Outbound>
    ghost var joined: map<Client, nat>
    ghost var queued: map<Client, seq<Outbound>>
    ghost var taken: map<Client, seq<Outbound>>
    ghost var closes: map<Client, nat>
    ghost var panicked: bool

    ghost function Abs(): State
      reads this
    {
      State(clients, presence, channels, sent, joined, queued, taken, closes, panicked)
    }

    constructor (cfg: Config)
      ensures Abs() == START && this.cfg == cfg
    {
      this.cfg := cfg;
      clients, presence, channels := {}, map[], map[];
      sent, joined, queued, taken, closes, panicked := [], map[], map[], map[], map[], false;
    }

    method CloseChannel(c: Client)
      requires Wired(Abs()) && c in channels
      modifies this
      ensures Abs() == Close(old(Abs()), c)
    {
      ghost var was := channels[c].closed;
      clients := clients - {c};
      channels := channels[c := channels[c].(closed := true)];
      closes := closes[c := closes[c] + 1];
      panicked := panicked || was;
    }

    /** trySend. */
    method Offer(c: Client, m: Outbound)
      requires Wired(Abs()) && c in channels
      modifies this
      ensures Abs() == TrySend(old(Abs()), c, m) && Wired(Abs())
    {
      var ch := channels[c];
      if ch.closed {
        panicked := true;
      } else if |ch.queue| < CAPACITY {
        channels := channels[c := ch.(queue := ch.queue + [m])];
        queued := queued[c := queued[c] + [m]];
      } else {
        CloseChannel(c);
      }
    }

    /** The range over clients that tries each one allowed to see the path; the
        map is walked in any order. */
    method Fan(m: Outbound)
      requires Wired(Abs())
      modifies this
      ensures Abs() == SendOut(old(Abs()), cfg, m)
    {
      ghost var before := Abs();
      var todo := clients;
      ghost var reached: set<Client> := {};
      SendToNobody(before, m);
      while todo != {}
        invariant todo !! reached && reached <= Receivers(before, cfg, m.path)
        invariant todo + reached >= Receivers(before, cfg, m.path) && todo <= before.clients
        invariant Wired(Abs()) && Abs() == SendTo(before, reached, m)
        decreases todo
      {
        var c :| c in todo;
        todo := todo - {c};
        if Allowed(cfg, c, m.path) {
          SendToOneMore(before, reached, c, m);
          Offer(c, m);
          reached := reached + {c};
        }
      }
      assert reached == Receivers(before, cfg, m.path);
      sent := sent + [m];
    }

    /** notifyPresence. */
    method Notify(path: string)
      requires Wired(Abs())
      modifies this
      ensures Abs() == SendOut(old(Abs()), cfg, Notice(old(Abs()), cfg, path))
    {
      var members := if path in presence then presence[path] else map[];
      var viewers, editors := WhoIsThere(members);
      Fan(Outbound(path, Presence(viewers, editors)));
    }

    method WhoIsThere(members: map<Client, string>) returns (viewers: set<string>, editors: set<string>)
      ensures viewers == Viewers(members, cfg) && editors == Editors(members, cfg)
    {
      viewers, editors := {}, {};
      var todo := members.Keys;
      var seen: map<Client, string> := map[];
      while todo != {}
        invariant todo <= members.Keys
        invariant seen == map c | c in members && c !in todo :: members[c]
        invariant viewers == Viewers(seen, cfg) && editors == Editors(seen, cfg)
        decreases todo
      {
        SomeMember(todo);
        var c :| c in todo;
        todo := todo - {c};
        OneMoreMember(seen, c, members[c], cfg);
        seen := seen[c := members[c]];
        if cfg.user(c) == "" {
          continue;
        }
        if members[c] == "editing" {
          editors := editors + {cfg.user(c)};
        } else {
          viewers := viewers + {cfg.user(c)};
        }
      }
      assert seen == members;
    }

    method Register(c: Client)
      requires Wired(Abs()) && Legal(Abs(), Step.Register(c))
      modifies this
      ensures Abs() == Next(old(Abs()), cfg, Step.Register(c))
    {
      clients := clients + {c};
      channels := channels[c := Channel([], false)];
      joined := joined[c := |sent|];
      queued, taken, closes := queued[c := []], taken[c := []], closes[c := 0];
      RegisterJoins(old(Abs()), cfg, c);
    }

    /** removeFromPresence: the affected paths in the order they were met. */
    method RemoveFromPresence(c: Client) returns (affected: seq<string>)
      modifies this`presence
      ensures presence == Absent(old(presence), c)
      ensures (set p | p in affected) == Affected(old(Abs()), c)
      ensures forall i, j :: 0 <= i < j < |affected| ==> affected[i] != affected[j]
    {
      affected := [];
      var todo := presence.Keys;
      ghost var before := presence;
      while todo != {}
        invariant todo <= before.Keys
        invariant forall p :: p in affected <==> p in before && p !in todo && c in before[p]
        invariant forall i, j :: 0 <= i < j < |affected| ==> affected[i] != affected[j]
        invariant forall p :: p in todo ==> p in presence && presence[p] == before[p]
        invariant forall p :: p !in todo ==> (p in presence <==> p in Absent(before, c))
        invariant forall p :: p !in todo && p in presence ==> presence[p] == Absent(before, c)[p]
        decreases todo
      {
        var path :| path in todo;
        todo := todo - {path};
        var members := presence[path];
        if c in members {
          members := Without(members, c);
          presence := if members == map[] then presence - {path} else presence[path := members];
          affected := affected + [path];
        } else {
          assert Without(members, c) == members;
        }
      }
      assert presence == Absent(before, c);
    }

    method NotifyEach(walk: seq<string>)
      requires Wired(Abs())
      modifies this
      ensures Wired(Abs()) && Abs() == NotifyAll(old(Abs()), cfg, walk)
    {
      assert walk[..0] == [];
      for i := 0 to |walk|
        invariant Wired(Abs()) && Abs() == NotifyAll(old(Abs()), cfg, walk[..i])
      {
        assert walk[..i + 1][..i] == walk[..i];
        Notify(walk[i]);
      }
      assert walk[..|walk|] == walk;
    }

    /** The unregister case; returns the walk it took. */
    method Unregister(c: Client) returns (walk: seq<string>)
      requires Wired(Abs())
      modifies this
      ensures Legal(old(Abs()), Step.Unregister(c, walk)) || c !in old(clients)
      ensures c in old(clients) ==> Abs() == Next(old(Abs()), cfg, Step.Unregister(c, walk))
      ensures c !in old(clients) ==> Abs() == old(Abs())
    {
      walk := [];
      if c in clients {
        CloseChannel(c);
        walk := RemoveFromPresence(c);
        NotifyEach(walk);
      }
    }

    method Receive(c: Client, kind: string, path: string, state: string)
      requires Wired(Abs())
      modifies this
      ensures Abs() == Next(old(Abs()), cfg, Step.Inbox(c, kind, path, state))
    {
      if kind != "presence" || path == "" {
        return;
      }
      if state == "viewing" || state == "editing" {
        if path !in presence {
          presence := presence[path := map[]];
        }
        presence := presence[path := presence[path][c := state]];
      } else if path in presence {
        var members := Without(presence[path], c);
        presence := if members == map[] then presence - {path} else presence[path := members];
      }
      assert presence == Placed(old(presence), c, path, state);
      Notify(path);
    }

    method Broadcast(path: string, data: string)
      requires Wired(Abs())
      modifies this
      ensures Abs() == Next(old(Abs()), cfg, Step.Broadcast(path, data))
    {
      Fan(Outbound(path, Event(data)));
    }
  }

  lemma SendToNobody(s: State, m: Outbound)
    requires Wired(s)
    ensures SendTo(s, {}, m) == s
  {
    assert ChannelsAfter(s.channels, {}, m) == s.channels;
    assert QueuedAfter(s.queued, s.channels, {}, m) == s.queued;
    assert ClosesAfter(s.closes, s.channels, {}) == s.closes;
    assert ClientsAfter(s.clients, s.channels, {}) == s.clients;
  }

  lemma OneMoreMember(members: map<Client, string>, c: Client, state: string, cfg: Config)
    requires c !in members
    ensures Viewers(members[c := state], cfg)
         == Viewers(members, cfg) + if cfg.user(c) != "" && state != "editing" then {cfg.user(c)} else {}
    ensures Editors(members[c := state], cfg)
         == Editors(members, cfg) + if cfg.user(c) != "" && state == "editing" then {cfg.user(c)} else {}
  {
    var more := members[c := state];
    assert forall d :: d in members ==> d in more && more[d] == members[d];
    assert c in more && more[c] == state;
  }

  lemma SomeMember(clients: set<Client>)
    requires clients != {}
    ensures exists c :: c in clients
  {
  }

  lemma OneMoreOffered(channels: map<Client, Channel>, to: set<Client>, c: Client, m: Outbound)
    requires c in channels
    ensures ChannelsAfter(channels, to + {c}, m) == ChannelsAfter(channels, to, m)[c := Offered(channels[c], m)]
  {
  }

  lemma OneMoreQueued(queued: map<Client, seq<Outbound>>, channels: map<Client, Channel>, to: set<Client>, c: Client,
      m: Outbound)
    requires queued.Keys == channels.Keys && c in channels && c !in to
    ensures var q := QueuedAfter(queued, channels, to, m);
            QueuedAfter(queued, channels, to + {c}, m) == if Takes(channels[c]) then q[c := queued[c] + [m]] else q
  {
  }

  lemma OneMoreClosed(s: State, to: set<Client>, c: Client)
    requires Wired(s) && to <= s.channels.Keys && c in s.channels && c !in to
    ensures ClosesAfter(s.closes, s.channels, to + {c})
         == var t := ClosesAfter(s.closes, s.channels, to);
            if Drops(s.channels[c]) then t[c := s.closes[c] + 1] else t
    ensures ClientsAfter(s.clients, s.channels, to + {c})
         == ClientsAfter(s.clients, s.channels, to) - if Drops(s.channels[c]) then {c} else {}
    ensures AnyClosed(s.channels, to + {c}) <==> AnyClosed(s.channels, to) || s.channels[c].closed
  {
  }

  /** What one more receiver adds. */
  function WithOneMore(mid: State, s: State, c: Client, m: Outbound): State
    requires c in s.channels && c in s.queued && c in s.closes
  {
    var ch := s.channels[c];
    mid.(channels := mid.channels[c := Offered(ch, m)],
         queued := if Takes(ch) then mid.queued[c := s.queued[c] + [m]] else mid.queued,
         closes := if Drops(ch) then mid.closes[c := s.closes[c] + 1] else mid.closes,
         clients := mid.clients - if Drops(ch) then {c} else {},
         panicked := mid.panicked || ch.closed)
  }

  lemma AddsToQueues(s: State, to: set<Client>, c: Client, m: Outbound)
    requires Wired(s) && to <= s.channels.Keys && c in s.channels && c !in to
    ensures var more, r := SendTo(s, to + {c}, m), WithOneMore(SendTo(s, to, m), s, c, m);
            more.channels == r.channels && more.queued == r.queued
  {
    OneMoreOffered(s.channels, to, c, m);
    OneMoreQueued(s.queued, s.channels, to, c, m);
  }

  lemma AddsToCloses(s: State, to: set<Client>, c: Client, m: Outbound)
    requires Wired(s) && to <= s.channels.Keys && c in s.channels && c !in to
    ensures var more, r := SendTo(s, to + {c}, m), WithOneMore(SendTo(s, to, m), s, c, m);
            more.closes == r.closes && more.clients == r.clients && more.panicked == r.panicked
  {
    OneMoreClosed(s, to, c);
  }

  lemma AddsNothingElse(s: State, to: set<Client>, c: Client, m: Outbound)
    requires Wired(s) && to <= s.channels.Keys && c in s.channels && c !in to
    ensures var more, r := SendTo(s, to + {c}, m), WithOneMore(SendTo(s, to, m), s, c, m);
            more.presence == r.presence && more.sent == r.sent && more.joined == r.joined && more.taken == r.taken
  {
  }

  lemma SameState(a: State, b: State)
    requires a.clients == b.clients && a.presence == b.presence && a.channels == b.channels && a.sent == b.sent
    requires a.joined == b.joined && a.queued == b.queued && a.taken == b.taken && a.closes == b.closes
    requires a.panicked == b.panicked
    ensures a == b
  {
  }

  lemma SendToAdds(s: State, to: set<Client>, c: Client, m: Outbound)
    requires Wired(s) && to <= s.channels.Keys && c in s.channels && c !in to
    ensures SendTo(s, to + {c}, m) == WithOneMore(SendTo(s, to, m), s, c, m)
  {
    AddsToQueues(s, to, c, m);
    AddsToCloses(s, to, c, m);
    AddsNothingElse(s, to, c, m);
    SameState(SendTo(s, to + {c}, m), WithOneMore(SendTo(s, to, m), s, c, m));
  }

  /** One trySend on a client in the same condition adds the same. */
  lemma TryAdds(mid: State, s: State, c: Client, m: Outbound)
    requires c in s.channels && c in s.queued && c in s.closes
    requires c in mid.channels && c in mid.queued && c in mid.closes
    requires mid.channels[c] == s.channels[c] && mid.queued[c] == s.queued[c] && mid.closes[c] == s.closes[c]
    ensures TrySend(mid, c, m) == WithOneMore(mid, s, c, m)
  {
    assert mid.channels[c := s.channels[c]] == mid.channels;
  }

  /** Sending to a set and then trying one more client is sending to the larger
      set: the order of the walk does not show. */
  lemma SendToOneMore(s: State, to: set<Client>, c: Client, m: Outbound)
    requires Wired(s) && to <= s.channels.Keys && c in s.channels && c !in to
    ensures TrySend(SendTo(s, to, m), c, m) == SendTo(s, to + {c}, m)
  {
    SendToAdds(s, to, c, m);
    Untouched(s, to, c, m);
    TryAdds(SendTo(s, to, m), s, c, m);
  }

  lemma Untouched(s: State, to: set<Client>, c: Client, m: Outbound)
    requires Wired(s) && to <= s.channels.Keys && c in s.channels && c !in to
    ensures var mid := SendTo(s, to, m);
            && mid.channels[c] == s.channels[c] && mid.queued[c] == s.queued[c] && mid.closes[c] == s.closes[c]
            && mid.channels[c := s.channels[c]] == mid.channels
  {
  }
}
