/** packages/websocket/hub.go: who is shown as present on a path, who is sent
    what, and the clients that stay on show after they are gone. */
module HubPresence {
  import opened Wrappers
  import opened Slices
  import opened Hub

  // ----------------------------------------------------------- what is sent out

  /** The notices of a row of paths. */
  function Notices(s: State, cfg: Config, paths: seq<string>): seq<Outbound> {
    seq(|paths|, i requires 0 <= i < |paths| => Notice(s, cfg, paths[i]))
  }

  /** What each step sends: a broadcast its event, a presence message what it makes
      of the path, the leaving of a connected client what that makes of each path it
      was on, and any other step nothing. */
  lemma StepSends(s: State, cfg: Config, e: Step)
    requires Wired(s) && Legal(s, e)
    ensures var r := Next(s, cfg, e);
            r.sent == s.sent + match e
                               case Broadcast(path, data) => [Outbound(path, Event(data))]
                               case Inbox(_, kind, path, _) =>
                                 if kind == "presence" && path != "" then [Notice(r, cfg, path)] else []
                               case Unregister(c, walk) => if c in s.clients then Notices(r, cfg, walk) else []
                               case _ => []
  {
    if e.Unregister? && e.c in s.clients {
      AllNotified(Close(s, e.c).(presence := Absent(s.presence, e.c)), cfg, e.walk);
    }
  }

  /** Notifying changes no presence and sends one notice per path. */
  lemma {:induction false} AllNotified(s: State, cfg: Config, paths: seq<string>)
    requires Wired(s)
    ensures var r := NotifyAll(s, cfg, paths);
            r.presence == s.presence && r.sent == s.sent + Notices(s, cfg, paths) == s.sent + Notices(r, cfg, paths)
  {
    if paths == [] {
    } else {
      AllNotified(s, cfg, paths[..|paths| - 1]);
    }
  }

  /** Who may see a path, said of the access function itself. */
  predicate MaySee(cfg: Config, c: Client, path: string) {
    path == "" || match cfg.access
                  case None => true
                  case Some(access) => access(cfg.user(c), path)
  }

  /** Over every run, a client is sent nothing it may not see, and while it is
      connected all that it may see of what was sent out since it came in. */
  lemma SentWhatMaySee(steps: seq<Step>, cfg: Config, c: Client, m: Outbound)
    requires c in Run(steps, cfg).channels
    ensures var s := Run(steps, cfg);
            var got := s.taken[c] + s.channels[c].queue;
            && (m in got ==> MaySee(cfg, c, m.path) && m in s.sent)
            && s.joined[c] <= |s.sent|
            && (c in s.clients && m in s.sent[s.joined[c]..] && MaySee(cfg, c, m.path) ==> m in got)
  {
    DeliveryWithoutGaps(steps, cfg, c);
    var s := Run(steps, cfg);
    FilterMembers(VisibleTo(cfg, c), s.sent[s.joined[c]..]);
    assert m in s.taken[c] + s.channels[c].queue ==> m in Due(s, cfg, c);
  }

  // ------------------------------------------------------------- who is present

  /** Where the client stands on the path. */
  function StateOn(s: State, c: Client, path: string): Option<string> {
    if path in s.presence && c in s.presence[path] then Some(s.presence[path][c]) else None
  }

  /** What the client last said of the path, taken back when it left while it was
      connected. */
  function LastSaid(steps: seq<Step>, cfg: Config, c: Client, path: string): Option<string> {
    if steps == [] then None
    else
      var init, e := steps[..|steps| - 1], steps[|steps| - 1];
      if e == Inbox(c, "presence", path, "viewing") && path != "" then Some("viewing")
      else if e == Inbox(c, "presence", path, "editing") && path != "" then Some("editing")
      else if e.Inbox? && e.c == c && e.kind == "presence" && e.path == path && path != "" then None
      else if e.Unregister? && e.c == c && Legal(Run(init, cfg), e) && c in Run(init, cfg).clients then None
      else LastSaid(init, cfg, c, path)
  }

  lemma StepPresence(s: State, cfg: Config, e: Step, c: Client, path: string)
    requires Wired(s) && Legal(s, e)
    ensures var r := StateOn(Next(s, cfg, e), c, path);
            r == if e.Inbox? && e.c == c && e.kind == "presence" && e.path == path && path != "" then
                   (if e.state == "viewing" || e.state == "editing" then Some(e.state) else None)
                 else if e.Unregister? && e.c == c && c in s.clients then None
                 else StateOn(s, c, path)
  {
    match e
    case Unregister(d, walk) =>
      if d in s.clients {
        AllNotified(Close(s, d).(presence := Absent(s.presence, d)), cfg, walk);
        AbsentStates(s, d, c, path);
      }
    case Inbox(d, kind, p, state) =>
      if kind == "presence" && p != "" {
        PlacedStates(s, d, p, state, c, path);
      }
    case _ =>
  }

  lemma AbsentStates(s: State, d: Client, c: Client, path: string)
    ensures StateOn(s.(presence := Absent(s.presence, d)), c, path) == if c == d then None else StateOn(s, c, path)
  {
    if path in s.presence && c in s.presence[path] && c != d {
      assert c in Without(s.presence[path], d);
    }
  }

  lemma PlacedStates(s: State, d: Client, p: string, state: string, c: Client, path: string)
    ensures StateOn(s.(presence := Placed(s.presence, d, p, state)), c, path)
         == if c == d && path == p then (if state == "viewing" || state == "editing" then Some(state) else None)
            else StateOn(s, c, path)
  {
    if p in s.presence && path == p && c != d && c in s.presence[p] {
      assert c in Without(s.presence[p], d);
    }
  }

  /** Over every run, a client is present on a path exactly as it last said. */
  lemma {:induction false} PresentAsSaid(steps: seq<Step>, cfg: Config, c: Client, path: string)
    ensures StateOn(Run(steps, cfg), c, path) == LastSaid(steps, cfg, c, path)
  {
    if steps == [] {
    } else {
      var init, e := steps[..|steps| - 1], steps[|steps| - 1];
      PresentAsSaid(init, cfg, c, path);
      if Legal(Run(init, cfg), e) {
        StepPresence(Run(init, cfg), cfg, e, c, path);
      }
    }
  }

  ghost predicate Says(steps: seq<Step>, cfg: Config, c: Client, path: string, state: string) {
    LastSaid(steps, cfg, c, path) == Some(state)
  }

  /** So a notice names as editors the users who last said they were editing, as
      viewers those who last said they were viewing. */
  lemma NoticeNames(steps: seq<Step>, cfg: Config, path: string, user: string)
    ensures var notice := Notice(Run(steps, cfg), cfg, path);
            && notice.path == path && notice.payload.Presence?
            && (user in notice.payload.editors
                <==> user != "" && exists c :: cfg.user(c) == user && Says(steps, cfg, c, path, "editing"))
            && (user in notice.payload.viewers
                <==> user != "" && exists c :: cfg.user(c) == user && Says(steps, cfg, c, path, "viewing"))
  {
    var s := Run(steps, cfg);
    forall c ensures StateOn(s, c, path) == LastSaid(steps, cfg, c, path) {
      PresentAsSaid(steps, cfg, c, path);
    }
    forall c ensures LastSaid(steps, cfg, c, path) in [None, Some("viewing"), Some("editing")] {
      SaidStates(steps, cfg, c, path);
    }
    NamesMembers(s, cfg, path, user);
    forall c | cfg.user(c) == user && StateOn(s, c, path).Some?
      ensures Says(steps, cfg, c, path, StateOn(s, c, path).value)
    {
    }
  }

  lemma NamesMembers(s: State, cfg: Config, path: string, user: string)
    ensures user in Editors(Members(s, path), cfg)
       <==> user != "" && exists c :: cfg.user(c) == user && StateOn(s, c, path) == Some("editing")
    ensures user in Viewers(Members(s, path), cfg)
       <==> user != "" && exists c :: cfg.user(c) == user && StateOn(s, c, path).Some?
                                      && StateOn(s, c, path) != Some("editing")
  {
  }

  lemma {:induction false} SaidStates(steps: seq<Step>, cfg: Config, c: Client, path: string)
    ensures LastSaid(steps, cfg, c, path) in [None, Some("viewing"), Some("editing")]
  {
    if steps == [] {
    } else {
      SaidStates(steps[..|steps| - 1], cfg, c, path);
    }
  }

  // ------------------------------------------------------- clients left on show

  /** A client that leaves is off every path afterwards if and only if it was still
      connected, or on none: one that was cut off as slow is not taken off. */
  lemma LeavesExactly(s: State, cfg: Config, c: Client, walk: seq<string>)
    requires Wired(s) && Legal(s, Step.Unregister(c, walk))
    ensures Affected(Next(s, cfg, Step.Unregister(c, walk)), c) == {} <==> c in s.clients || Affected(s, c) == {}
  {
    var r := Next(s, cfg, Step.Unregister(c, walk));
    forall p ensures p in Affected(r, c) <==> StateOn(r, c, p).Some? {
    }
    forall p ensures StateOn(r, c, p) == if c in s.clients then None else StateOn(s, c, p) {
      StepPresence(s, cfg, Step.Unregister(c, walk), c, p);
    }
    if Affected(s, c) != {} {
      var p :| p in Affected(s, c);
      assert StateOn(s, c, p).Some?;
    }
  }

  lemma OneMoreStep(steps: seq<Step>, cfg: Config, e: Step)
    requires Legal(Run(steps, cfg), e)
    ensures Run(steps + [e], cfg) == Next(Run(steps, cfg), cfg, e)
  {
    assert (steps + [e])[..|steps|] == steps;
  }

  /** A lone client with n messages waiting, present nowhere. */
  lemma {:induction false} Waiting(c: Client, cfg: Config, n: nat) returns (steps: seq<Step>)
    requires n <= CAPACITY
    ensures var s := Run(steps, cfg);
            s.clients == {c} && c in s.channels && !s.channels[c].closed && |s.channels[c].queue| == n
                && s.presence == map[]
  {
    if n == 0 {
      steps := [Step.Register(c)];
      OneMoreStep([], cfg, Step.Register(c));
      assert [] + steps == steps;
    } else {
      steps := Waiting(c, cfg, n - 1);
      var s := Run(steps, cfg);
      OneMoreStep(steps, cfg, Step.Broadcast("", ""));
      Offers(s, c, cfg, "");
      steps := steps + [Step.Broadcast("", "")];
    }
  }

  lemma Offers(s: State, c: Client, cfg: Config, data: string)
    requires Wired(s) && s.clients == {c} && !s.channels[c].closed
    ensures var r, full := Next(s, cfg, Step.Broadcast("", data)), |s.channels[c].queue| >= CAPACITY;
            && r.clients == (if full then {} else {c}) && r.presence == s.presence
            && (!full ==> !r.channels[c].closed && |r.channels[c].queue| == |s.channels[c].queue| + 1)
  {
    assert Receivers(s, cfg, "") == {c};
  }

  /** Such a run exists, whoever the client is: it looks at a path, stops reading,
      is cut off, unregisters, and is still shown. */
  lemma StaysOnShow(c: Client, cfg: Config, path: string)
    requires path != ""
    ensures exists steps ::
              && Legal(Run(steps, cfg), Step.Unregister(c, [path]))
              && var s := Run(steps + [Step.Unregister(c, [path])], cfg);
                 s.clients == {} && StateOn(s, c, path) == Some("viewing")
  {
    var steps := CutOff(c, cfg, path);
    var leave := Step.Unregister(c, [path]);
    var s := Run(steps, cfg);
    assert Affected(s, c) == {path};
    assert (set p | p in [path]) == {path};
    OneMoreStep(steps, cfg, leave);
    assert Legal(Run(steps, cfg), leave) && Run(steps + [leave], cfg) == s;
  }

  lemma CutOff(c: Client, cfg: Config, path: string) returns (steps: seq<Step>)
    requires path != ""
    ensures var s := Run(steps, cfg); s.clients == {} && s.presence == map[path := map[c := "viewing"]]
  {
    steps := Waiting(c, cfg, CAPACITY);
    var look, more := Step.Inbox(c, "presence", path, "viewing"), Step.Broadcast("", "");
    OneMoreStep(steps, cfg, look);
    Looks(Run(steps, cfg), c, cfg, path);
    steps := steps + [look];
    OneMoreStep(steps, cfg, more);
    if Run(steps, cfg).clients == {c} {
      Offers(Run(steps, cfg), c, cfg, "");
    }
    steps := steps + [more];
  }

  lemma Looks(s: State, c: Client, cfg: Config, path: string)
    requires Wired(s) && s.clients == {c} && !s.channels[c].closed && |s.channels[c].queue| == CAPACITY
    requires s.presence == map[] && path != ""
    ensures var r := Next(s, cfg, Step.Inbox(c, "presence", path, "viewing"));
            && r.presence == map[path := map[c := "viewing"]]
            && (r.clients == {} || (r.clients == {c} && !r.channels[c].closed && |r.channels[c].queue| == CAPACITY))
  {
    assert Receivers(s, cfg, path) <= {c};
  }
}
