/** packages/plugins/manager.go and packages/plugins/builtin/git_history.go, one
    call at a time: the manager's `active` map, the plugin's field and the note
    service's attached history move together. PluginLifecycle has the same calls
    interleaved. */
module PluginManager {
  import opened Wrappers
  import Lock = HistoryLock

  type Handle = Lock.Handle

  const GIT: string := "git-history"

  /** The history plugin, or one that cannot be toggled (its Enable and Disable do
      not exist). */
  datatype Plugin = Git | Plain(id: string)

  function Id(p: Plugin): string {
    if p.Git? then GIT else p.id
  }

  /** What a lifecycle call reads from outside: the configured mode, the parsed
      debounce seconds, and the backend that opening the vault's repository gives. */
  datatype Setup = Setup(mode: string, debounce: Option<int>, backend: Option<Handle>)

  predicate Usable(setup: Setup) {
    && setup.mode != "" && setup.mode != "off"
    && setup.debounce.Some? && setup.debounce.value >= 0
    && setup.backend.Some?
  }

  /** All that the lifecycle changes. */
  datatype Life = Life(attached: Option<Handle>, debounce: int, owned: Option<Handle>, active: map<string, bool>)

  predicate IsActive(l: Life, id: string) {
    id in l.active && l.active[id]
  }

  function Enabled(l: Life, setup: Setup): (Life, bool) {
    if Usable(setup)
    then (l.(attached := setup.backend, debounce := setup.debounce.value, owned := setup.backend), true)
    else (l, false)
  }

  function Disabled(l: Life): Life {
    if l.owned.Some? && l.attached == l.owned then l.(attached := None, debounce := 0, owned := None)
    else l.(owned := None)
  }

  /** setActiveLocked: an error leaves everything as it was. */
  function Switched(l: Life, p: Plugin, on: bool, setup: Setup): (Life, bool) {
    if p.Plain? then (l.(active := l.active[p.id := on]), true)
    else if IsActive(l, GIT) == on then (l, true)
    else if on then
      var (r, ok) := Enabled(l, setup);
      (if ok then r.(active := l.active[GIT := true]) else l, ok)
    else (Disabled(l).(active := l.active[GIT := false]), true)
  }

  function Find(plugins: seq<Plugin>, id: string): (r: Option<Plugin>)
    ensures r.Some? <==> exists i :: 0 <= i < |plugins| && Id(plugins[i]) == id
    ensures r.Some? ==> r.value in plugins && Id(r.value) == id
  {
    if plugins == [] then None
    else if Id(plugins[0]) == id then Some(plugins[0])
    else
      var rest := Find(plugins[1..], id);
      assert forall i :: 0 < i < |plugins| ==> plugins[i] == plugins[1..][i - 1];
      rest
  }

  /** Restart: an inactive plugin stays inactive. */
  function Restarted(l: Life, p: Plugin, setup: Setup): (Life, bool) {
    if !IsActive(l, Id(p)) then (l, true)
    else Switched(Switched(l, p, false, setup).0, p, true, setup)
  }

  /** The two loops of CloseAll over the first plugins. */
  function ShutOff(l: Life, plugins: seq<Plugin>, setup: Setup): Life {
    if plugins == [] then l
    else
      var r := ShutOff(l, plugins[..|plugins| - 1], setup);
      var p := plugins[|plugins| - 1];
      if IsActive(r, Id(p)) then Switched(r, p, false, setup).0 else r
  }

  function Closed(l: Life, plugins: seq<Plugin>): Life {
    if plugins == [] then l
    else
      var r := Closed(l, plugins[..|plugins| - 1]);
      if plugins[|plugins| - 1].Git? then Disabled(r) else r
  }

  datatype Call =
    | SetEnabled(id: string, on: bool, setup: Setup)
    | Restart(id: string, setup: Setup)
    | CloseAll(setup: Setup)

  function Next(l: Life, plugins: seq<Plugin>, call: Call): (Life, bool) {
    match call
    case SetEnabled(id, on, setup) =>
      var p := Find(plugins, id);
      if p.Some? then Switched(l, p.value, on, setup) else (l, false)
    case Restart(id, setup) =>
      var p := Find(plugins, id);
      if p.Some? then Restarted(l, p.value, setup) else (l, false)
    case CloseAll(setup) => (Closed(ShutOff(l, plugins, setup), plugins), true)
  }

  // ------------------------------------------------------------ whole runs

  /** The service's history, the plugin's field and the manager's flag say the
      same, and a detached service has no debounce. */
  predicate Agree(l: Life) {
    l.attached == l.owned && (l.attached.Some? <==> IsActive(l, GIT)) && (l.attached.None? ==> l.debounce == 0)
  }

  predicate NoDouble(plugins: seq<Plugin>) {
    forall p :: p in plugins && p.Plain? ==> p.id != GIT
  }

  lemma SwitchedAgrees(l: Life, p: Plugin, on: bool, setup: Setup)
    requires Agree(l) && (p.Plain? ==> p.id != GIT)
    ensures Agree(Switched(l, p, on, setup).0)
    ensures Switched(l, p, on, setup).1 ==> IsActive(Switched(l, p, on, setup).0, Id(p)) == on
  {
  }

  lemma {:induction false} ShutOffAgrees(l: Life, plugins: seq<Plugin>, setup: Setup)
    requires Agree(l) && NoDouble(plugins)
    ensures var r := ShutOff(l, plugins, setup);
            Agree(r) && forall p :: p in plugins ==> !IsActive(r, Id(p))
  {
    if plugins == [] {
    } else {
      var n := |plugins| - 1;
      ShutOffAgrees(l, plugins[..n], setup);
      var before := ShutOff(l, plugins[..n], setup);
      SwitchedAgrees(before, plugins[n], false, setup);
      assert plugins == plugins[..n] + [plugins[n]];
      assert forall p :: p in plugins ==> p in plugins[..n] || p == plugins[n];
    }
  }

  lemma {:induction false} ClosedAgrees(l: Life, plugins: seq<Plugin>)
    requires Agree(l) && (Git in plugins ==> !IsActive(l, GIT))
    ensures Closed(l, plugins) == l
  {
    if plugins == [] {
    } else {
      ClosedAgrees(l, plugins[..|plugins| - 1]);
    }
  }

  lemma NextAgrees(l: Life, plugins: seq<Plugin>, call: Call)
    requires Agree(l) && NoDouble(plugins)
    ensures Agree(Next(l, plugins, call).0)
  {
    match call
    case SetEnabled(id, on, setup) =>
      if Find(plugins, id).Some? {
        SwitchedAgrees(l, Find(plugins, id).value, on, setup);
      }
    case Restart(id, setup) =>
      var p := Find(plugins, id);
      if p.Some? && IsActive(l, Id(p.value)) {
        SwitchedAgrees(l, p.value, false, setup);
        SwitchedAgrees(Switched(l, p.value, false, setup).0, p.value, true, setup);
      }
    case CloseAll(setup) =>
      ShutOffAgrees(l, plugins, setup);
      ClosedAgrees(ShutOff(l, plugins, setup), plugins);
  }

  function Run(l: Life, plugins: seq<Plugin>, calls: seq<Call>): Life {
    if calls == [] then l else Next(Run(l, plugins, calls[..|calls| - 1]), plugins, calls[|calls| - 1]).0
  }

  /** After any sequence of calls, failed ones included, a history is attached
      exactly while the manager says the plugin is active, and it is the one the
      plugin will detach. */
  lemma {:induction false} RunAgrees(plugins: seq<Plugin>, calls: seq<Call>)
    requires NoDouble(plugins)
    ensures Agree(Run(Life(None, 0, None, map[]), plugins, calls))
  {
    if calls == [] {
    } else {
      RunAgrees(plugins, calls[..|calls| - 1]);
      NextAgrees(Run(Life(None, 0, None, map[]), plugins, calls[..|calls| - 1]), plugins, calls[|calls| - 1]);
    }
  }

  /** After any sequence of calls, switching the history off succeeds and detaches
      it; switching it on succeeds exactly when it is on already or its settings
      are usable; closing everything leaves nothing active or attached. */
  lemma LastCallDecides(plugins: seq<Plugin>, calls: seq<Call>, setup: Setup)
    requires NoDouble(plugins) && Git in plugins
    ensures var l := Run(Life(None, 0, None, map[]), plugins, calls);
            && (var (r, ok) := Next(l, plugins, SetEnabled(GIT, false, setup)); ok && r.attached.None? && r.owned.None?)
            && (var (r, ok) := Next(l, plugins, SetEnabled(GIT, true, setup));
                (ok <==> IsActive(l, GIT) || Usable(setup)) && (ok <==> r.attached.Some?))
            && (var r := Next(l, plugins, CloseAll(setup)).0;
                r.attached.None? && forall p :: p in plugins ==> !IsActive(r, Id(p)))
  {
    RunAgrees(plugins, calls);
    var l := Run(Life(None, 0, None, map[]), plugins, calls);
    FindGit(plugins);
    SwitchedAgrees(l, Git, false, setup);
    SwitchedAgrees(l, Git, true, setup);
    ShutOffAgrees(l, plugins, setup);
    ClosedAgrees(ShutOff(l, plugins, setup), plugins);
  }

  /** After any sequence of calls, switching the history on when it is off is
      refused for an empty or "off" mode, a debounce that is no number or negative,
      and a repository that does not open; else the backend just opened is attached
      with that debounce. When it is on already, or refused, nothing changes; and a
      restart of a running history attaches the new backend, or none. */
  lemma SwitchOnOutcome(plugins: seq<Plugin>, calls: seq<Call>, setup: Setup)
    requires NoDouble(plugins) && Git in plugins
    ensures var l := Run(Life(None, 0, None, map[]), plugins, calls);
            var opens := setup.mode != "" && setup.mode != "off" && setup.debounce.Some? && setup.debounce.value >= 0
                         && setup.backend.Some?;
            && (var (r, ok) := Next(l, plugins, SetEnabled(GIT, true, setup));
                && (ok <==> l.attached.Some? || opens)
                && (l.attached.None? && opens ==>
                      r.attached == setup.backend && r.debounce == setup.debounce.value
                      && r.active == l.active[GIT := true])
                && (l.attached.Some? || !opens ==> r == l))
            && (var (r, ok) := Next(l, plugins, Restart(GIT, setup));
                && (l.attached.None? ==> ok && r == l)
                && (l.attached.Some? ==>
                      && (ok <==> opens)
                      && r.attached == (if opens then setup.backend else None)
                      && r.debounce == (if opens then setup.debounce.value else 0)
                      && (IsActive(r, GIT) <==> opens)))
  {
    RunAgrees(plugins, calls);
    FindGit(plugins);
  }

  lemma FindGit(plugins: seq<Plugin>)
    requires NoDouble(plugins) && Git in plugins
    ensures Find(plugins, GIT) == Some(Git)
  {
    var i :| 0 <= i < |plugins| && plugins[i] == Git;
    assert Id(plugins[i]) == GIT;
  }

  /** CloseAll over the history plugin alone: both loops. */
  lemma CloseAllOfOne(l: Life, setup: Setup)
    requires IsActive(l, GIT) && l.attached.Some? && l.attached == l.owned
    ensures Next(l, [Git], CloseAll(setup)).0 == Life(None, 0, None, l.active[GIT := false])
  {
    assert [Git][..0] == [];
    var r := ShutOff(l, [Git], setup);
    assert ShutOff(l, [Git][..0], setup) == l;
    assert r == Switched(l, Git, false, setup).0;
    assert r == Life(None, 0, None, l.active[GIT := false]);
    assert Closed(r, [Git]) == Disabled(r);
  }

  /** A plugin that cannot be toggled is only noted as on or off. */
  lemma PlainOnlyNoted(plugins: seq<Plugin>, l: Life, id: string, on: bool, setup: Setup)
    requires Find(plugins, id).Some? && Find(plugins, id).value.Plain?
    ensures Next(l, plugins, SetEnabled(id, on, setup)) == (l.(active := l.active[id := on]), true)
  {
  }

  // -------------------------------------------------------------- the objects

  /** The attached history of the note service. */
  class NoteHistory {
    var history: Option<Handle>
    var debounce: int

    method SetHistory(h: Handle, seconds: int)
      modifies this
      ensures history == Some(h) && debounce == seconds
    {
      history := Some(h);
      debounce := seconds;
    }

    method DetachHistory(h: Handle)
      modifies this
      ensures history == Lock.Applied(old(history), Lock.Detach(h))
      ensures history == if old(history) == Some(h) then None else old(history)
      ensures debounce == if old(history) == Some(h) then 0 else old(debounce)
    {
      if history != Some(h) {
        return;
      }
      history := None;
      debounce := 0;
    }
  }

  class HistoryPlugin {
    const notes: NoteHistory
    var history: Option<Handle>

    constructor (service: NoteHistory)
      ensures notes == service && history.None?
    {
      notes := service;
      history := None;
    }

    function With(active: map<string, bool>): Life
      reads this, notes
    {
      Life(notes.history, notes.debounce, history, active)
    }

    method Enable(setup: Setup) returns (ok: bool)
      modifies this, notes
      ensures forall active :: (With(active), ok) == Enabled(old(With(active)), setup)
    {
      if setup.mode == "" || setup.mode == "off" {
        return false;
      }
      if setup.debounce.None? || setup.debounce.value < 0 {
        return false;
      }
      if setup.backend.None? {
        return false;
      }
      history := setup.backend;
      notes.SetHistory(setup.backend.value, setup.debounce.value);
      return true;
    }

    method Disable()
      modifies this, notes
      ensures forall active :: With(active) == Disabled(old(With(active)))
    {
      if history.Some? {
        notes.DetachHistory(history.value);
      }
      history := None;
    }
  }

  class Manager {
    var plugins: seq<Plugin>
    const git: HistoryPlugin
    var active: map<string, bool>

    constructor (plugin: HistoryPlugin)
      ensures git == plugin && plugins == [] && active == map[]
    {
      git := plugin;
      plugins := [];
      active := map[];
    }

    function State(): Life
      reads this, git, git.notes
    {
      git.With(active)
    }

    method Register(p: Plugin)
      modifies this
      ensures plugins == old(plugins) + [p] && active == old(active)
    {
      plugins := plugins + [p];
    }

    method SetActiveLocked(p: Plugin, enabled: bool, setup: Setup) returns (ok: bool)
      modifies this, git, git.notes
      ensures plugins == old(plugins)
      ensures (State(), ok) == Switched(old(State()), p, enabled, setup)
    {
      if p.Plain? {
        active := active[p.id := enabled];
        return true;
      }
      if (GIT in active && active[GIT]) == enabled {
        return true;
      }
      if enabled {
        ok := git.Enable(setup);
        if !ok {
          return false;
        }
      } else {
        git.Disable();
      }
      active := active[GIT := enabled];
      return true;
    }

    method Lookup(id: string) returns (p: Option<Plugin>)
      ensures p == Find(plugins, id)
    {
      var i := 0;
      while i < |plugins|
        invariant 0 <= i <= |plugins|
        invariant Find(plugins, id) == Find(plugins[i..], id)
      {
        if Id(plugins[i]) == id {
          return Some(plugins[i]);
        }
        i := i + 1;
      }
      return None;
    }

    method SetEnabled(id: string, enabled: bool, setup: Setup) returns (ok: bool)
      modifies this, git, git.notes
      ensures plugins == old(plugins)
      ensures (State(), ok) == Next(old(State()), plugins, Call.SetEnabled(id, enabled, setup))
    {
      var p := Lookup(id);
      if p.None? {
        return false;
      }
      ok := SetActiveLocked(p.value, enabled, setup);
    }

    method Restart(id: string, setup: Setup) returns (ok: bool)
      modifies this, git, git.notes
      ensures plugins == old(plugins)
      ensures (State(), ok) == Next(old(State()), plugins, Call.Restart(id, setup))
    {
      var p := Lookup(id);
      if p.None? {
        return false;
      }
      if id !in active || !active[id] {
        return true;
      }
      ok := SetActiveLocked(p.value, false, setup);
      if ok {
        ok := SetActiveLocked(p.value, true, setup);
      }
    }

    method CloseAll(setup: Setup)
      modifies this, git, git.notes
      ensures plugins == old(plugins)
      ensures State() == Next(old(State()), plugins, Call.CloseAll(setup)).0
    {
      var i := 0;
      while i < |plugins|
        invariant 0 <= i <= |plugins| && plugins == old(plugins)
        invariant State() == ShutOff(old(State()), plugins[..i], setup)
      {
        assert plugins[..i + 1][..i] == plugins[..i];
        if Id(plugins[i]) in active && active[Id(plugins[i])] {
          var ok := SetActiveLocked(plugins[i], false, setup);
        }
        i := i + 1;
      }
      ghost var shut := State();
      assert plugins[..i] == plugins;
      i := 0;
      while i < |plugins|
        invariant 0 <= i <= |plugins| && plugins == old(plugins)
        invariant State() == Closed(shut, plugins[..i])
      {
        assert plugins[..i + 1][..i] == plugins[..i];
        if plugins[i].Git? {
          git.Disable();
        }
        i := i + 1;
      }
      assert plugins[..i] == plugins;
    }
  }
}
