/** The reader/writer lock around the attached history, the path locks it meets
    (packages/core/service.go), and the plugin lifecycle that attaches and detaches
    it (packages/plugins/manager.go, packages/plugins/builtin/git_history.go), as
    one state machine: any number of threads record, edit, restore, set, detach,
    toggle and close, one lock or field access at a time. A recording that a
    debounce timer starts, however late, is a recording like any other. */
module HistoryLock {
  import opened Wrappers

  type Thread = nat

  /** One opened backend; every Enable opens a new one. */
  type Handle = nat

  /** What an administrator or the server asks of the plugin manager. */
  datatype Job = TurnOn | TurnOff | Again | CloseAll

  /** The uses of the write lock; DetachHistory can be passed no backend. */
  datatype Access = Set(h: Handle) | Detach(h: Handle) | DetachNil

  /** Who called SetHistory or DetachHistory, or Disable: somebody directly,
      Enable, Disable under the manager's mutex, Close without it. */
  datatype Caller = Direct | ByEnable | ByDisable(job: Job) | ByClose

  /** What a use of the history is part of: nothing, a SaveNote or DeleteNote that
      holds its path's lock, or a RestoreNote that holds the read lock, too. The
      last use of a RestoreNote records the restore; the one before it, if there is
      one, records what is about to be overwritten. */
  datatype Site = Alone | ForEdit(path: string) | ForRestore(h: Handle, path: string, last: bool)

  /** Where a reader stands. Asking, Looking, Running and Leaving are recordDetail,
      or History, which only looks; the others are RestoreNote. At Restoring it has
      its path and compares; at Owing it has still to record the restore; at
      Releasing it gives its path up. */
  datatype Reader =
    | Asking(site: Site)
    | Looking(site: Site)
    | Running(h: Handle, site: Site)
    | Leaving(site: Site)
    | RestoreAsking(path: string)
    | RestoreLooking(path: string)
    | Fetching(h: Handle, path: string)
    | Reaching(h: Handle, path: string)
    | Restoring(h: Handle, path: string)
    | Owing(h: Handle, path: string)
    | Releasing(path: string)
    | RestoreLeaving

  /** Where a SaveNote or DeleteNote stands outside its use of the history: at its
      path's lock, inside it and still free to fail, inside it with a use of the
      history to come, on its way out. A SaveNote always has one to come: it
      records what it wrote, or looks up who wrote the version it conflicts with. */
  datatype Editor = AtPath(path: string, saving: bool) | InPath(path: string) | Owed(path: string) | Out(path: string)

  /** Where a writer stands: announced from Pending on, holding the lock from
      Inside on, its work done at Finishing. */
  datatype Spot = Wanting | Pending | Inside | Finishing

  /** Where a lifecycle call stands when it is not inside the note service. Disable
      tests the plugin's field at Disabling and reads it once more at Passing, to
      pass it on. */
  datatype Manager =
    | AtMutex(job: Job)
    | Deciding(job: Job)
    | Opening
    | Disabling(caller: Caller)
    | Passing(caller: Caller)
    | Clearing(caller: Caller)
    | Ending(job: Job)

  datatype Phase =
    | Idle
    | Reading(at: Reader)
    | Editing(place: Editor)
    | Writing(spot: Spot, access: Access, caller: Caller)
    | Managing(on: Manager)

  /** `pending` announced itself as the writer: it waits for the readers to leave
      and no new reader enters. `owned` and `active` are the plugin's and the
      manager's view; `commits` says on which backend each commit was made. */
  datatype State = State(
    attached: Option<Handle>,
    readers: multiset<Thread>,
    pending: Option<Thread>,
    paths: map<string, Thread>,
    mutex: Option<Thread>,
    owned: Option<Handle>,
    active: bool,
    unused: nat,
    commits: seq<Handle>,
    phases: map<Thread, Phase>)

  /** `ok` settles what the thread's phase leaves open: whether a deleted file is
      there, a revision is found, a restore has no file to overwrite rather than an
      equal one, a recording commits, an open succeeds. */
  datatype Step =
    | Record(t: Thread)
    | Edit(t: Thread, path: string, saving: bool)
    | Restore(t: Thread, path: string)
    | Call(t: Thread, access: Access)
    | Manage(t: Thread, job: Job)
    | Go(t: Thread, ok: bool)

  function PhaseOf(s: State, t: Thread): Phase {
    if t in s.phases then s.phases[t] else Idle
  }

  function Moved(s: State, t: Thread, phase: Phase): State {
    s.(phases := s.phases[t := phase])
  }

  predicate Initial(s: State) {
    && s.attached.None? && s.readers == multiset{} && s.pending.None? && s.mutex.None? && s.paths == map[]
    && s.owned.None? && !s.active && s.commits == [] && s.phases == map[]
  }

  /** RLock, which waits while a writer is announced, and RUnlock. */
  function ReadLocked(s: State, t: Thread, phase: Phase): State {
    if s.pending.Some? then s else Moved(s.(readers := s.readers + multiset{t}), t, phase)
  }

  function ReadUnlocked(s: State, t: Thread, phase: Phase): State {
    Moved(s.(readers := s.readers - multiset{t}), t, phase)
  }

  function AfterLeaving(site: Site): Phase {
    match site
    case Alone => Idle
    case ForEdit(path) => Editing(Out(path))
    case ForRestore(h, path, last) => Reading(if last then Releasing(path) else Owing(h, path))
  }

  /** A mutex on one path. */
  function PathLocked(s: State, t: Thread, path: string, phase: Phase): State {
    if path in s.paths then s else Moved(s.(paths := s.paths[path := t]), t, phase)
  }

  /** recordDetail, History and RestoreNote. */
  function ReaderNext(s: State, t: Thread, at: Reader, ok: bool): State {
    match at
    case Asking(site) => ReadLocked(s, t, Reading(Looking(site)))
    case Looking(site) =>
      Moved(s, t, Reading(if s.attached.None? || !ok then Leaving(site) else Running(s.attached.value, site)))
    case Running(h, site) =>
      Moved(s.(commits := if ok then s.commits + [h] else s.commits), t, Reading(Leaving(site)))
    case Leaving(site) => ReadUnlocked(s, t, AfterLeaving(site))
    case RestoreAsking(path) => ReadLocked(s, t, Reading(RestoreLooking(path)))
    case RestoreLooking(path) =>
      Moved(s, t, Reading(if s.attached.None? then RestoreLeaving else Fetching(s.attached.value, path)))
    case Fetching(h, path) => Moved(s, t, Reading(if ok then Reaching(h, path) else RestoreLeaving))
    case Reaching(h, path) => PathLocked(s, t, path, Reading(Restoring(h, path)))
    case Restoring(h, path) => Moved(s, t, Reading(if ok then Owing(h, path) else Releasing(path)))
    case Owing(h, path) => Moved(s, t, Reading(Asking(ForRestore(h, path, true))))
    case Releasing(path) => Moved(s.(paths := s.paths - {path}), t, Reading(RestoreLeaving))
    case RestoreLeaving => ReadUnlocked(s, t, Idle)
  }

  /** SaveNote and DeleteNote around their use of the history. */
  function EditorNext(s: State, t: Thread, place: Editor, ok: bool): State {
    match place
    case AtPath(path, saving) => PathLocked(s, t, path,
        Editing(if saving && path != "" then Owed(path) else InPath(path)))
    case InPath(path) => Moved(s, t, Editing(if ok then Owed(path) else Out(path)))
    case Owed(path) => Moved(s, t, Reading(Asking(ForEdit(path))))
    case Out(path) => Moved(s.(paths := s.paths - {path}), t, Idle)
  }

  /** What SetHistory and DetachHistory do under the write lock. */
  function Applied(attached: Option<Handle>, access: Access): Option<Handle> {
    match access
    case Set(h) => Some(h)
    case Detach(h) => if attached == Some(h) then None else attached
    case DetachNil => attached
  }

  /** SetHistory and DetachHistory. */
  function WriterNext(s: State, t: Thread, spot: Spot, access: Access, caller: Caller): State {
    match spot
    case Wanting =>
      if s.pending.Some? then s else Moved(s.(pending := Some(t)), t, Writing(Pending, access, caller))
    case Pending =>
      if s.readers != multiset{} then s else Moved(s, t, Writing(Inside, access, caller))
    case Inside => Moved(s.(attached := Applied(s.attached, access)), t, Writing(Finishing, access, caller))
    case Finishing =>
      var r := s.(pending := None);
      (match caller
       case Direct => Moved(r, t, Idle)
       case ByEnable => Moved(r.(active := true), t, Managing(Ending(TurnOn)))
       case ByDisable(_) => Moved(r, t, Managing(Clearing(caller)))
       case ByClose => Moved(r, t, Managing(Clearing(caller))))
  }

  /** SetEnabled, Restart and CloseAll, and the plugin's Enable, Disable and
      Close. CloseAll gives the mutex back before it closes the plugin. */
  function ManagerNext(s: State, t: Thread, on: Manager, ok: bool): State {
    match on
    case AtMutex(job) => if s.mutex.Some? then s else Moved(s.(mutex := Some(t)), t, Managing(Deciding(job)))
    case Deciding(job) =>
      Moved(s, t, Managing(if job.TurnOn? == s.active then Ending(job)
                           else if job.TurnOn? then Opening else Disabling(ByDisable(job))))
    case Opening =>
      if !ok then Moved(s, t, Managing(Ending(TurnOn)))
      else Moved(s.(owned := Some(s.unused), unused := s.unused + 1), t, Writing(Wanting, Set(s.unused), ByEnable))
    case Disabling(caller) =>
      Moved(s, t, Managing(if s.owned.None? then Clearing(caller) else Passing(caller)))
    case Passing(caller) =>
      Moved(s, t, Writing(Wanting, if s.owned.None? then DetachNil else Detach(s.owned.value), caller))
    case Clearing(caller) =>
      var r := s.(owned := None);
      (match caller
       case ByDisable(job) => Moved(r.(active := false), t, Managing(if job.Again? then Opening else Ending(job)))
       case _ => Moved(r, t, Idle))
    case Ending(job) => Moved(s.(mutex := None), t, if job.CloseAll? then Managing(Disabling(ByClose)) else Idle)
  }

  /** The state after a step; a step that cannot be taken changes nothing. */
  function Next(s: State, step: Step): State {
    var phase := PhaseOf(s, step.t);
    match step
    case Record(t) =>
      if phase.Idle? then Moved(s, t, Reading(Asking(Alone)))
      else if phase.Reading? && phase.at.Restoring? then
        Moved(s, t, Reading(Asking(ForRestore(phase.at.h, phase.at.path, false))))
      else s
    case Edit(t, path, saving) => if phase.Idle? then Moved(s, t, Editing(AtPath(path, saving))) else s
    case Restore(t, path) => if phase.Idle? then Moved(s, t, Reading(RestoreAsking(path))) else s
    case Call(t, access) => if phase.Idle? then Moved(s, t, Writing(Wanting, access, Direct)) else s
    case Manage(t, job) => if phase.Idle? then Moved(s, t, Managing(AtMutex(job))) else s
    case Go(t, ok) =>
      match phase
      case Idle => s
      case Reading(at) => ReaderNext(s, t, at, ok)
      case Editing(place) => EditorNext(s, t, place, ok)
      case Writing(spot, access, caller) => WriterNext(s, t, spot, access, caller)
      case Managing(on) => ManagerNext(s, t, on, ok)
  }

  lemma ReaderConcernsOne(s: State, t: Thread, at: Reader, ok: bool, u: Thread)
    requires u != t
    ensures PhaseOf(ReaderNext(s, t, at, ok), u) == PhaseOf(s, u)
  {
  }

  lemma EditorConcernsOne(s: State, t: Thread, place: Editor, ok: bool, u: Thread)
    requires u != t
    ensures PhaseOf(EditorNext(s, t, place, ok), u) == PhaseOf(s, u)
  {
  }

  lemma WriterConcernsOne(s: State, t: Thread, spot: Spot, access: Access, caller: Caller, u: Thread)
    requires u != t
    ensures PhaseOf(WriterNext(s, t, spot, access, caller), u) == PhaseOf(s, u)
  {
  }

  lemma ManagerConcernsOne(s: State, t: Thread, on: Manager, ok: bool, u: Thread)
    requires u != t
    ensures PhaseOf(ManagerNext(s, t, on, ok), u) == PhaseOf(s, u)
  {
  }

  /** A step concerns one thread only. */
  lemma OthersStay(s: State, step: Step, u: Thread)
    requires u != step.t
    ensures PhaseOf(Next(s, step), u) == PhaseOf(s, u)
  {
    if step.Go? {
      match PhaseOf(s, step.t)
      case Idle =>
      case Reading(at) => ReaderConcernsOne(s, step.t, at, step.ok, u);
      case Editing(place) => EditorConcernsOne(s, step.t, place, step.ok, u);
      case Writing(spot, access, caller) => WriterConcernsOne(s, step.t, spot, access, caller, u);
      case Managing(on) => ManagerConcernsOne(s, step.t, on, step.ok, u);
    }
  }

  function Run(start: State, steps: seq<Step>): State {
    if steps == [] then start else Next(Run(start, steps[..|steps| - 1]), steps[|steps| - 1])
  }

  lemma RunOneMore(start: State, steps: seq<Step>, step: Step)
    ensures Run(start, steps + [step]) == Next(Run(start, steps), step)
  {
    assert (steps + [step])[..|steps|] == steps;
  }

  lemma LastOfConcat<T>(a: seq<T>, b: seq<T>)
    requires b != []
    ensures a + b == (a + b[..|b| - 1]) + [b[|b| - 1]] && b == b[..|b| - 1] + [b[|b| - 1]]
  {
  }

  lemma {:induction false} RunAppend(start: State, before: seq<Step>, after: seq<Step>)
    ensures Run(start, before + after) == Run(Run(start, before), after)
  {
    if after == [] {
      assert before + after == before;
    } else {
      var init, last := after[..|after| - 1], after[|after| - 1];
      RunAppend(start, before, init);
      LastOfConcat(before, after);
      RunOneMore(start, before + init, last);
      RunOneMore(Run(start, before), init, last);
    }
  }

  lemma Chain(s: State, a: seq<Step>, r: State, b: seq<Step>, q: State)
    requires Run(s, a) == r && Run(r, b) == q
    ensures Run(s, a + b) == q
  {
    RunAppend(s, a, b);
  }

  // ------------------------------------------------------ one thread at a time

  /** The same thread goes on, n times. */
  function Onwards(t: Thread, n: nat): (steps: seq<Step>)
    ensures |steps| == n && forall i :: 0 <= i < n ==> steps[i] == Go(t, true)
  {
    seq(n, _ => Go(t, true))
  }

  lemma {:induction false} Goes(s: State, t: Thread, n: nat)
    requires n > 0
    ensures Run(s, Onwards(t, n)) == Run(Next(s, Go(t, true)), Onwards(t, n - 1))
  {
    assert Onwards(t, n) == [Go(t, true)] + Onwards(t, n - 1);
    RunAppend(s, [Go(t, true)], Onwards(t, n - 1));
    assert Run(s, [Go(t, true)]) == Next(Run(s, []), Go(t, true));
  }

  lemma ManagerGoes(s: State, t: Thread, on: Manager, r: State, n: nat)
    requires PhaseOf(s, t) == Managing(on) && ManagerNext(s, t, on, true) == r
    ensures Run(s, Onwards(t, n + 1)) == Run(r, Onwards(t, n))
  {
    Goes(s, t, n + 1);
  }

  lemma WriterGoes(s: State, t: Thread, spot: Spot, access: Access, caller: Caller, r: State, n: nat)
    requires PhaseOf(s, t) == Writing(spot, access, caller) && WriterNext(s, t, spot, access, caller) == r
    ensures Run(s, Onwards(t, n + 1)) == Run(r, Onwards(t, n))
  {
    Goes(s, t, n + 1);
  }

  lemma ReaderGoesOn(s: State, t: Thread, at: Reader, r: State, n: nat)
    requires PhaseOf(s, t) == Reading(at) && ReaderNext(s, t, at, true) == r
    ensures Run(s, Onwards(t, n + 1)) == Run(r, Onwards(t, n))
  {
    Goes(s, t, n + 1);
  }

  lemma Begins(s: State, step: Step, r: State, t: Thread, n: nat)
    requires Next(s, step) == r
    ensures Run(s, [step] + Onwards(t, n)) == Run(r, Onwards(t, n))
  {
    RunAppend(s, [step], Onwards(t, n));
    assert Run(s, [step]) == Next(Run(s, []), step);
  }

  lemma MovedTwice(s: State, t: Thread, a: Phase, b: Phase)
    ensures Moved(Moved(s, t, a), t, b) == Moved(s, t, b)
  {
    assert s.phases[t := a][t := b] == s.phases[t := b];
  }

  lemma WriterEnters(s: State, t: Thread, access: Access, caller: Caller, n: nat)
    requires PhaseOf(s, t) == Writing(Wanting, access, caller) && s.pending.None? && s.readers == multiset{}
    ensures Run(s, Onwards(t, n + 2))
            == Run(Moved(s.(pending := Some(t)), t, Writing(Inside, access, caller)), Onwards(t, n))
  {
    var s1 := Moved(s.(pending := Some(t)), t, Writing(Pending, access, caller));
    var s2 := Moved(s1, t, Writing(Inside, access, caller));
    WriterGoes(s, t, Wanting, access, caller, s1, n + 1);
    WriterGoes(s1, t, Pending, access, caller, s2, n);
    MovedTwice(s.(pending := Some(t)), t, Writing(Pending, access, caller), Writing(Inside, access, caller));
  }

  /** A writer that meets nobody goes through the lock in three steps. */
  lemma WriterApplies(s: State, t: Thread, access: Access, caller: Caller, n: nat)
    requires PhaseOf(s, t) == Writing(Wanting, access, caller) && s.pending.None? && s.readers == multiset{}
    ensures var r := s.(attached := Applied(s.attached, access), pending := Some(t));
            Run(s, Onwards(t, n + 3)) == Run(Moved(r, t, Writing(Finishing, access, caller)), Onwards(t, n))
  {
    var s2 := Moved(s.(pending := Some(t)), t, Writing(Inside, access, caller));
    var r := s.(attached := Applied(s.attached, access), pending := Some(t));
    WriterEnters(s, t, access, caller, n + 1);
    MovedTwice(r, t, Writing(Inside, access, caller), Writing(Finishing, access, caller));
    WriterGoes(s2, t, Inside, access, caller, Moved(r, t, Writing(Finishing, access, caller)), n);
  }

  // --------------------------------------------------------------- the lock

  function Held(site: Site): nat {
    if site.ForRestore? then 1 else 0
  }

  /** How often a thread holds the read lock. */
  function Holds(at: Reader): nat {
    match at
    case Asking(site) => Held(site)
    case Looking(site) => 1 + Held(site)
    case Running(_, site) => 1 + Held(site)
    case Leaving(site) => 1 + Held(site)
    case RestoreAsking(_) => 0
    case _ => 1
  }

  function Depth(phase: Phase): nat {
    if phase.Reading? then Holds(phase.at) else 0
  }

  predicate Announced(phase: Phase) {
    phase.Writing? && !phase.spot.Wanting?
  }

  predicate HasWriteLock(phase: Phase) {
    phase.Writing? && (phase.spot.Inside? || phase.spot.Finishing?)
  }

  function BackendOf(site: Site): Option<Handle> {
    if site.ForRestore? then Some(site.h) else None
  }

  function Within(at: Reader): Option<Handle> {
    match at
    case Asking(site) => BackendOf(site)
    case Looking(site) => BackendOf(site)
    case Running(_, site) => BackendOf(site)
    case Leaving(site) => BackendOf(site)
    case Fetching(h, _) => Some(h)
    case Reaching(h, _) => Some(h)
    case Restoring(h, _) => Some(h)
    case Owing(h, _) => Some(h)
    case _ => None
  }

  /** The thread is working on the backend: recording on it, or inside a
      RestoreNote that read from it. */
  predicate Uses(phase: Phase, h: Handle) {
    phase.Reading? && (Within(phase.at) == Some(h) || (phase.at.Running? && phase.at.h == h))
  }

  predicate UsesOnly(at: Reader, attached: Option<Handle>) {
    (Within(at).Some? ==> Within(at) == attached) && (at.Running? ==> attached == Some(at.h))
  }

  predicate Detached(phase: Phase, h: Handle) {
    phase.Writing? && phase.spot.Finishing? && phase.access == Detach(h)
  }

  /** What holds of every thread: its share of the read lock, its announcement,
      the readers being gone while it writes, the backend it uses being the
      attached one, and a finished access having had its effect. */
  ghost predicate Relies(s: State, t: Thread) {
    var phase := PhaseOf(s, t);
    && s.readers[t] == Depth(phase)
    && (s.pending == Some(t) <==> Announced(phase))
    && (HasWriteLock(phase) ==> s.readers == multiset{})
    && (phase.Reading? ==> UsesOnly(phase.at, s.attached))
    && (phase.Writing? && phase.spot.Finishing? ==> Applied(s.attached, phase.access) == s.attached)
  }

  ghost predicate LockKept(s: State) {
    forall t: Thread :: Relies(s, t)
  }

  /** A step that leaves the attached backend, the announcement and the other
      threads' shares alone. */
  lemma OthersRely(s: State, r: State, t: Thread)
    requires LockKept(s)
    requires forall u: Thread :: u != t ==> PhaseOf(r, u) == PhaseOf(s, u) && r.readers[u] == s.readers[u]
    requires forall u: Thread :: u != t ==> (r.pending == Some(u) <==> s.pending == Some(u))
    requires r.attached == s.attached
    requires s.readers == multiset{} && s.pending.Some? && s.pending != Some(t) ==> r.readers == multiset{}
    ensures forall u: Thread :: u != t ==> Relies(r, u)
  {
    forall u: Thread | u != t ensures Relies(r, u) {
      assert Relies(s, u);
      if HasWriteLock(PhaseOf(s, u)) {
        assert s.pending == Some(u);
      }
    }
  }

  /** A thread takes the read lock, or gives one hold up, or moves on between. */
  ghost predicate HoldChanges(s: State, r: State, t: Thread, phase: Phase) {
    && r == Moved(s.(readers := r.readers, commits := r.commits, paths := r.paths), t, phase)
    && (r.readers == s.readers || r.readers == s.readers - multiset{t}
        || (s.pending.None? && r.readers == s.readers + multiset{t}))
    && r.readers[t] == Depth(phase) && !phase.Writing?
    && (phase.Reading? ==> UsesOnly(phase.at, s.attached))
  }

  lemma HoldChangeKeepsLock(s: State, r: State, t: Thread, phase: Phase)
    requires LockKept(s) && !PhaseOf(s, t).Writing? && HoldChanges(s, r, t, phase)
    ensures LockKept(r)
  {
    assert Relies(s, t);
    OthersRely(s, r, t);
    assert Relies(r, t);
  }

  lemma ReadLockHolds(s: State, t: Thread, phase: Phase)
    requires Depth(phase) == s.readers[t] + 1 && !phase.Writing? && (phase.Reading? ==> UsesOnly(phase.at, s.attached))
    ensures var r := ReadLocked(s, t, phase);
            r == s || HoldChanges(s, r, t, phase)
  {
  }

  lemma ReadUnlockHolds(s: State, t: Thread, phase: Phase)
    requires s.readers[t] == Depth(phase) + 1 && !phase.Writing? && (phase.Reading? ==> UsesOnly(phase.at, s.attached))
    ensures HoldChanges(s, ReadUnlocked(s, t, phase), t, phase)
  {
  }

  lemma SameHolds(s: State, r: State, t: Thread, phase: Phase)
    requires r == Moved(s.(commits := r.commits, paths := r.paths), t, phase)
    requires s.readers[t] == Depth(phase) && !phase.Writing? && (phase.Reading? ==> UsesOnly(phase.at, s.attached))
    ensures HoldChanges(s, r, t, PhaseOf(r, t))
  {
  }

  predicate IsRestore(at: Reader) {
    !at.Asking? && !at.Looking? && !at.Running? && !at.Leaving?
  }

  lemma RecordHolds(s: State, t: Thread, at: Reader, ok: bool)
    requires s.readers[t] == Holds(at) && UsesOnly(at, s.attached) && !IsRestore(at)
    ensures var r := ReaderNext(s, t, at, ok);
            r == s || HoldChanges(s, r, t, PhaseOf(r, t))
  {
    var r := ReaderNext(s, t, at, ok);
    if at.Asking? {
      ReadLockHolds(s, t, Reading(Looking(at.site)));
    } else if at.Leaving? {
      ReadUnlockHolds(s, t, AfterLeaving(at.site));
    } else {
      SameHolds(s, r, t, PhaseOf(r, t));
    }
  }

  lemma RestoreHolds(s: State, t: Thread, at: Reader, ok: bool)
    requires s.readers[t] == Holds(at) && UsesOnly(at, s.attached) && IsRestore(at)
    ensures var r := ReaderNext(s, t, at, ok);
            r == s || HoldChanges(s, r, t, PhaseOf(r, t))
  {
    var r := ReaderNext(s, t, at, ok);
    if at.RestoreAsking? {
      ReadLockHolds(s, t, Reading(RestoreLooking(at.path)));
    } else if at.RestoreLeaving? {
      ReadUnlockHolds(s, t, Idle);
    } else if r != s {
      SameHolds(s, r, t, PhaseOf(r, t));
    }
  }

  lemma ReaderHolds(s: State, t: Thread, at: Reader, ok: bool)
    requires s.readers[t] == Holds(at) && UsesOnly(at, s.attached)
    ensures var r := ReaderNext(s, t, at, ok);
            r == s || HoldChanges(s, r, t, PhaseOf(r, t))
  {
    if IsRestore(at) {
      RestoreHolds(s, t, at, ok);
    } else {
      RecordHolds(s, t, at, ok);
    }
  }

  lemma EditorHolds(s: State, t: Thread, place: Editor, ok: bool)
    requires s.readers[t] == 0
    ensures var r := EditorNext(s, t, place, ok);
            r == s || HoldChanges(s, r, t, PhaseOf(r, t))
  {
    var r := EditorNext(s, t, place, ok);
    if r != s {
      SameHolds(s, r, t, PhaseOf(r, t));
    }
  }

  lemma WriterKeepsLock(s: State, t: Thread)
    requires LockKept(s) && PhaseOf(s, t).Writing?
    ensures LockKept(Next(s, Go(t, true)))
  {
    var r := Next(s, Go(t, true));
    assert Relies(s, t);
    if PhaseOf(s, t).spot.Inside? {
      forall u: Thread ensures Relies(r, u) {
        assert Relies(s, u);
        assert Depth(PhaseOf(s, u)) == 0;
      }
    } else {
      OthersRely(s, r, t);
      assert Relies(r, t);
    }
  }

  lemma ManagerHoldsNothing(s: State, t: Thread, on: Manager, ok: bool)
    requires PhaseOf(s, t) == Managing(on)
    ensures var r := ManagerNext(s, t, on, ok);
            && r.readers == s.readers && r.pending == s.pending && r.attached == s.attached && r.commits == s.commits
            && !PhaseOf(r, t).Reading? && !Announced(PhaseOf(r, t))
  {
  }

  lemma ManagerKeepsLock(s: State, t: Thread, ok: bool)
    requires LockKept(s) && PhaseOf(s, t).Managing?
    ensures LockKept(Next(s, Go(t, ok)))
  {
    var r := Next(s, Go(t, ok));
    assert Relies(s, t);
    ManagerHoldsNothing(s, t, PhaseOf(s, t).on, ok);
    forall u: Thread | u != t ensures PhaseOf(r, u) == PhaseOf(s, u) {
      OthersStay(s, Go(t, ok), u);
    }
    OthersRely(s, r, t);
    assert Relies(r, t);
  }

  lemma NextKeepsLock(s: State, step: Step)
    requires LockKept(s)
    ensures LockKept(Next(s, step))
  {
    var r := Next(s, step);
    var t := step.t;
    var phase := PhaseOf(s, t);
    assert Relies(s, t);
    if !step.Go? {
      OthersRely(s, r, t);
      assert Relies(r, t);
    } else if phase.Reading? {
      ReaderHolds(s, t, phase.at, step.ok);
      if r != s {
        HoldChangeKeepsLock(s, r, t, PhaseOf(r, t));
      }
    } else if phase.Editing? {
      EditorHolds(s, t, phase.place, step.ok);
      if r != s {
        HoldChangeKeepsLock(s, r, t, PhaseOf(r, t));
      }
    } else if phase.Writing? {
      WriterKeepsLock(s, t);
    } else if phase.Managing? {
      ManagerKeepsLock(s, t, step.ok);
    }
  }

  lemma {:induction false} RunKeepsLock(start: State, steps: seq<Step>)
    requires Initial(start)
    ensures LockKept(Run(start, steps))
  {
    if steps == [] {
      forall t: Thread ensures Relies(start, t) {}
    } else {
      RunKeepsLock(start, steps[..|steps| - 1]);
      NextKeepsLock(Run(start, steps[..|steps| - 1]), steps[|steps| - 1]);
    }
  }

  /** While one thread is inside the write lock, no other is, and nobody reads. */
  lemma WriterIsAlone(start: State, steps: seq<Step>, t: Thread, u: Thread)
    requires Initial(start)
    requires var s := Run(start, steps);
             HasWriteLock(PhaseOf(s, t)) && (Announced(PhaseOf(s, u)) || Depth(PhaseOf(s, u)) > 0)
    ensures t == u
  {
    RunKeepsLock(start, steps);
    assert Relies(Run(start, steps), t) && Relies(Run(start, steps), u);
  }

  // ------------------------------------------------------ quiet after detach

  /** The step is the assignment of SetHistory(h). */
  predicate Sets(s: State, step: Step, h: Handle) {
    var phase := PhaseOf(s, step.t);
    step.Go? && phase.Writing? && phase.spot.Inside? && phase.access == Set(h)
  }

  ghost predicate NeverSets(s: State, after: seq<Step>, h: Handle) {
    forall i :: 0 <= i < |after| ==> !Sets(Run(s, after[..i]), after[i], h)
  }

  lemma NeverSetsPrefix(s: State, after: seq<Step>, h: Handle)
    requires |after| > 0 && NeverSets(s, after, h)
    ensures NeverSets(s, after[..|after| - 1], h)
    ensures !Sets(Run(s, after[..|after| - 1]), after[|after| - 1], h)
  {
    var init := after[..|after| - 1];
    forall i | 0 <= i < |init| ensures !Sets(Run(s, init[..i]), init[i], h) {
      assert init[..i] == after[..i];
    }
  }

  ghost predicate QuietSince(s: State, r: State, h: Handle) {
    && r.attached != Some(h)
    && (forall u: Thread :: !Uses(PhaseOf(r, u), h))
    && s.commits <= r.commits
    && h !in r.commits[|s.commits|..]
  }

  /** A step attaches h only by setting it, and commits on a backend only where
      its thread records. */
  lemma StepAttaches(s: State, step: Step, h: Handle)
    requires s.attached != Some(h) && !Sets(s, step, h)
    ensures Next(s, step).attached != Some(h)
  {
  }

  lemma StepCommits(s: State, step: Step, h: Handle)
    requires !Uses(PhaseOf(s, step.t), h)
    ensures var r := Next(s, step);
            s.commits <= r.commits && h !in r.commits[|s.commits|..]
  {
  }

  lemma TailGrows(a: seq<Handle>, b: seq<Handle>, c: seq<Handle>, h: Handle)
    requires a <= b <= c && h !in b[|a|..] && h !in c[|b|..]
    ensures a <= c && h !in c[|a|..]
  {
    assert c[|a|..] == b[|a|..] + c[|b|..];
  }

  lemma QuietStep(s: State, r: State, step: Step, h: Handle)
    requires LockKept(r) && QuietSince(s, r, h) && !Sets(r, step, h)
    ensures QuietSince(s, Next(r, step), h)
  {
    var q := Next(r, step);
    NextKeepsLock(r, step);
    StepAttaches(r, step, h);
    StepCommits(r, step, h);
    forall u: Thread ensures !Uses(PhaseOf(q, u), h) {
      assert Relies(q, u);
    }
    TailGrows(s.commits, r.commits, q.commits, h);
  }

  lemma {:induction false} QuietRun(s: State, after: seq<Step>, h: Handle)
    requires LockKept(s) && s.attached != Some(h) && NeverSets(s, after, h)
    ensures QuietSince(s, Run(s, after), h) && LockKept(Run(s, after))
  {
    if after == [] {
      forall u: Thread ensures !Uses(PhaseOf(s, u), h) {
        assert Relies(s, u);
      }
    } else {
      var init := after[..|after| - 1];
      NeverSetsPrefix(s, after, h);
      QuietRun(s, init, h);
      QuietStep(s, Run(s, init), after[|after| - 1], h);
      NextKeepsLock(Run(s, init), after[|after| - 1]);
    }
  }

  /** Once DetachHistory(h) is done under the write lock, and so once it has
      returned, whoever attached h and whatever runs beside it: until some thread
      sets h again, h is not attached, no thread records on it or restores from
      it, none starts to, and no commit is made on it. */
  lemma QuietAfterDetach(start: State, before: seq<Step>, after: seq<Step>, t: Thread, h: Handle)
    requires Initial(start)
    requires Detached(PhaseOf(Run(start, before), t), h)
    requires NeverSets(Run(start, before), after, h)
    ensures QuietSince(Run(start, before), Run(start, before + after), h)
  {
    RunKeepsLock(start, before);
    assert Relies(Run(start, before), t);
    QuietRun(Run(start, before), after, h);
    RunAppend(start, before, after);
  }

  // ------------------------------------------------------------ path locks

  function PathIn(site: Site): Option<string> {
    if site.Alone? then None else Some(site.path)
  }

  /** The path whose lock a thread holds. */
  function PathHeld(phase: Phase): Option<string> {
    match phase
    case Reading(at) =>
      (match at
       case Asking(site) => PathIn(site)
       case Looking(site) => PathIn(site)
       case Running(_, site) => PathIn(site)
       case Leaving(site) => PathIn(site)
       case Restoring(_, path) => Some(path)
       case Owing(_, path) => Some(path)
       case Releasing(path) => Some(path)
       case _ => None)
    case Editing(place) => if place.AtPath? then None else Some(place.path)
    case _ => None
  }

  ghost predicate PathsOf(s: State, t: Thread) {
    forall p :: PathHeld(PhaseOf(s, t)) == Some(p) <==> p in s.paths && s.paths[p] == t
  }

  ghost predicate PathsKept(s: State) {
    forall t: Thread :: PathsOf(s, t)
  }

  /** The path locks after a thread that held `was` has come to hold `now`. */
  function PathsAfter(paths: map<string, Thread>, t: Thread, was: Option<string>, now: Option<string>)
    : map<string, Thread>
  {
    if was == now then paths else if now.Some? then paths[now.value := t] else paths - {was.value}
  }

  /** A step takes the free lock of one path for its thread, gives one up that the
      thread has, or leaves the path locks alone. */
  predicate PathChange(s: State, r: State, t: Thread) {
    var was, now := PathHeld(PhaseOf(s, t)), PathHeld(PhaseOf(r, t));
    r.paths == PathsAfter(s.paths, t, was, now) && (was != now && now.Some? ==> was.None? && now.value !in s.paths)
  }

  lemma SamePath(s: State, r: State, t: Thread, phase: Phase)
    requires r == Moved(s.(readers := r.readers, commits := r.commits), t, phase)
             && PathHeld(phase) == PathHeld(PhaseOf(s, t))
    ensures PathChange(s, r, t)
  {
  }

  lemma RecordPaths(s: State, t: Thread, at: Reader, ok: bool)
    requires PhaseOf(s, t) == Reading(at) && !IsRestore(at)
    ensures PathChange(s, ReaderNext(s, t, at, ok), t)
  {
    var r := ReaderNext(s, t, at, ok);
    if r != s {
      SamePath(s, r, t, PhaseOf(r, t));
    }
  }

  lemma RestorePaths(s: State, t: Thread, at: Reader, ok: bool)
    requires PhaseOf(s, t) == Reading(at) && IsRestore(at)
    ensures PathChange(s, ReaderNext(s, t, at, ok), t)
  {
    var r := ReaderNext(s, t, at, ok);
    if r != s && !at.Reaching? && !at.Releasing? {
      SamePath(s, r, t, PhaseOf(r, t));
    }
  }

  lemma ReaderPaths(s: State, t: Thread, at: Reader, ok: bool)
    requires PhaseOf(s, t) == Reading(at)
    ensures PathChange(s, ReaderNext(s, t, at, ok), t)
  {
    if IsRestore(at) {
      RestorePaths(s, t, at, ok);
    } else {
      RecordPaths(s, t, at, ok);
    }
  }

  lemma EditorPaths(s: State, t: Thread, place: Editor, ok: bool)
    requires PhaseOf(s, t) == Editing(place)
    ensures PathChange(s, EditorNext(s, t, place, ok), t)
  {
  }

  lemma WriterPaths(s: State, t: Thread, spot: Spot, access: Access, caller: Caller)
    requires PhaseOf(s, t) == Writing(spot, access, caller)
    ensures PathChange(s, WriterNext(s, t, spot, access, caller), t)
  {
  }

  lemma ManagerPaths(s: State, t: Thread, on: Manager, ok: bool)
    requires PhaseOf(s, t) == Managing(on)
    ensures PathChange(s, ManagerNext(s, t, on, ok), t)
  {
  }

  lemma NextPaths(s: State, step: Step)
    ensures PathChange(s, Next(s, step), step.t)
  {
    if step.Go? {
      match PhaseOf(s, step.t)
      case Idle =>
      case Reading(at) => ReaderPaths(s, step.t, at, step.ok);
      case Editing(place) => EditorPaths(s, step.t, place, step.ok);
      case Writing(spot, access, caller) => WriterPaths(s, step.t, spot, access, caller);
      case Managing(on) => ManagerPaths(s, step.t, on, step.ok);
    }
  }

  lemma ChangeKeepsPaths(s: State, r: State, t: Thread)
    requires PathsKept(s) && PathChange(s, r, t)
    requires forall u: Thread :: u != t ==> PhaseOf(r, u) == PhaseOf(s, u)
    ensures PathsKept(r)
  {
    assert PathsOf(s, t);
    forall u: Thread ensures PathsOf(r, u) {
      assert PathsOf(s, u);
    }
  }

  lemma NextKeepsPaths(s: State, step: Step)
    requires PathsKept(s)
    ensures PathsKept(Next(s, step))
  {
    NextPaths(s, step);
    forall u: Thread | u != step.t ensures PhaseOf(Next(s, step), u) == PhaseOf(s, u) {
      OthersStay(s, step, u);
    }
    ChangeKeepsPaths(s, Next(s, step), step.t);
  }

  /** A path's lock is held by exactly the thread that is inside its call. */
  lemma {:induction false} RunKeepsPaths(start: State, steps: seq<Step>)
    requires Initial(start)
    ensures PathsKept(Run(start, steps))
  {
    if steps == [] {
      forall t: Thread ensures PathsOf(start, t) {}
    } else {
      RunKeepsPaths(start, steps[..|steps| - 1]);
      NextKeepsPaths(Run(start, steps[..|steps| - 1]), steps[|steps| - 1]);
    }
  }

  // ------------------------------------------- when the write lock is reached

  /** A RestoreNote that holds the read lock and asks for it a second time, or is
      bound to. */
  predicate MustAskAgain(phase: Phase) {
    phase.Reading?
    && (phase.at.Owing?
        || (phase.at.Asking? && phase.at.site.ForRestore?)
        || ((phase.at.Looking? || phase.at.Running? || phase.at.Leaving?) && phase.at.site.ForRestore?
            && !phase.at.site.last))
  }

  /** A SaveNote or DeleteNote inside the path's lock that asks for the read lock,
      or is bound to. */
  predicate MustAsk(phase: Phase, path: string) {
    phase == Reading(Asking(ForEdit(path))) || phase == Editing(Owed(path))
  }

  /** A RestoreNote that waits, holding the read lock, for the path of such an
      edit. */
  predicate BehindAsker(s: State, v: Thread) {
    var phase := PhaseOf(s, v);
    phase.Reading? && phase.at.Reaching? && phase.at.path in s.paths
    && MustAsk(PhaseOf(s, s.paths[phase.at.path]), phase.at.path)
  }

  predicate WaitsToWrite(phase: Phase) {
    phase.Writing? && phase.spot.Pending?
  }

  /** While a writer is announced, asking gets nobody in. */
  lemma AgainStays(s: State, step: Step, t: Thread)
    requires s.pending.Some? && MustAskAgain(PhaseOf(s, t))
    ensures MustAskAgain(PhaseOf(Next(s, step), t))
  {
    if step.t != t {
      OthersStay(s, step, t);
    }
  }

  lemma AskerStays(s: State, step: Step, t: Thread, path: string)
    requires s.pending.Some? && MustAsk(PhaseOf(s, t), path)
    ensures MustAsk(PhaseOf(Next(s, step), t), path)
  {
    if step.t != t {
      OthersStay(s, step, t);
    }
  }

  lemma WaiterStays(s: State, step: Step, u: Thread)
    requires WaitsToWrite(PhaseOf(s, u)) && s.readers != multiset{}
    ensures PhaseOf(Next(s, step), u) == PhaseOf(s, u)
  {
    if step.t != u {
      OthersStay(s, step, u);
    }
  }

  lemma ReacherStays(s: State, step: Step, t: Thread)
    requires PhaseOf(s, t).Reading? && PhaseOf(s, t).at.Reaching? && PhaseOf(s, t).at.path in s.paths
    ensures PhaseOf(Next(s, step), t) == PhaseOf(s, t)
  {
    if step.t != t {
      OthersStay(s, step, t);
    }
  }

  ghost predicate Kept(s: State) {
    LockKept(s) && PathsKept(s)
  }

  lemma NextKept(s: State, step: Step)
    requires Kept(s)
    ensures Kept(Next(s, step))
  {
    NextKeepsLock(s, step);
    NextKeepsPaths(s, step);
  }

  /** A thread that blocks the writer for good: it must ask again, or waits behind
      an edit that must ask. */
  predicate Blocks(s: State, v: Thread) {
    MustAskAgain(PhaseOf(s, v)) || BehindAsker(s, v)
  }

  ghost predicate Deadlocked(s: State) {
    exists v: Thread :: Blocks(s, v)
  }

  lemma StuckStep(s: State, step: Step, v: Thread, u: Thread)
    requires Kept(s) && Blocks(s, v) && WaitsToWrite(PhaseOf(s, u))
    ensures Blocks(Next(s, step), v) && WaitsToWrite(PhaseOf(Next(s, step), u))
  {
    assert Relies(s, v) && Relies(s, u);
    assert s.readers[v] > 0;
    WaiterStays(s, step, u);
    if MustAskAgain(PhaseOf(s, v)) {
      AgainStays(s, step, v);
    } else {
      var path := PhaseOf(s, v).at.path;
      var w := s.paths[path];
      ReacherStays(s, step, v);
      AskerStays(s, step, w, path);
      NextKeepsPaths(s, step);
      assert PathsOf(Next(s, step), w);
    }
  }

  lemma {:induction false} StuckForever(s: State, after: seq<Step>, v: Thread, u: Thread)
    requires Kept(s) && Blocks(s, v) && WaitsToWrite(PhaseOf(s, u))
    ensures Kept(Run(s, after)) && Blocks(Run(s, after), v) && WaitsToWrite(PhaseOf(Run(s, after), u))
  {
    if after == [] {
    } else {
      var init := after[..|after| - 1];
      StuckForever(s, init, v, u);
      StuckStep(Run(s, init), after[|after| - 1], v, u);
      NextKept(Run(s, init), after[|after| - 1]);
    }
  }

  /** How far a thread that need not ask is from holding neither lock. */
  function Rank(phase: Phase): nat {
    match phase
    case Reading(at) =>
      (match at
       case Looking(_) => 7
       case Running(_, _) => 6
       case Leaving(_) => 5
       case RestoreLooking(_) => 6
       case Fetching(_, _) => 5
       case Reaching(_, _) => 4
       case Restoring(_, _) => 3
       case Releasing(_) => 2
       case RestoreLeaving => 1
       case _ => 0)
    case Editing(place) => if place.InPath? then 2 else if place.Out? then 1 else 0
    case _ => 0
  }

  /** The announced writer waits, and nobody blocks it for good. */
  ghost predicate Draining(s: State, u: Thread) {
    Kept(s) && WaitsToWrite(PhaseOf(s, u)) && forall v: Thread :: !Blocks(s, v)
  }

  /** A thread that holds a lock, waits for none, and need not ask. */
  predicate Movable(s: State, v: Thread) {
    var phase := PhaseOf(s, v);
    Rank(phase) > 0 && !MustAskAgain(phase) && (phase.Reading? && phase.at.Reaching? ==> phase.at.path !in s.paths)
  }

  /** A phase that neither blocks nor is waited behind. */
  predicate Clear(phase: Phase) {
    && !MustAskAgain(phase) && !(phase.Editing? && phase.place.Owed?)
    && !(phase.Reading? && (phase.at.Asking? || phase.at.Reaching?))
  }

  lemma ReaderFallsBack(s: State, v: Thread, at: Reader)
    requires PhaseOf(s, v) == Reading(at) && s.readers[v] == Holds(at) && Movable(s, v)
    ensures var r := ReaderNext(s, v, at, false);
            && (r.readers == s.readers || r.readers == s.readers - multiset{v})
            && Clear(PhaseOf(r, v)) && Rank(PhaseOf(r, v)) < Rank(Reading(at))
  {
  }

  lemma EditorFallsBack(s: State, v: Thread, place: Editor)
    requires PhaseOf(s, v) == Editing(place) && Movable(s, v)
    ensures var r := EditorNext(s, v, place, false);
            r.readers == s.readers && Clear(PhaseOf(r, v)) && Rank(PhaseOf(r, v)) < Rank(Editing(place))
  {
  }

  /** A movable thread that takes the shorter way comes closer to its end, takes
      no read lock, and lets nobody block. */
  lemma ThreadGoes(s: State, u: Thread, v: Thread)
    requires Draining(s, u) && Movable(s, v)
    ensures var r := Next(s, Go(v, false));
            && Draining(r, u) && r.readers <= s.readers
            && Rank(PhaseOf(r, v)) < Rank(PhaseOf(s, v))
            && (forall w: Thread :: w != v ==> PhaseOf(r, w) == PhaseOf(s, w))
            && (forall p :: p in s.paths && s.paths[p] == v && p in r.paths ==> r.paths[p] == v)
  {
    var r := Next(s, Go(v, false));
    assert Relies(s, v);
    if PhaseOf(s, v).Reading? {
      ReaderFallsBack(s, v, PhaseOf(s, v).at);
    } else {
      EditorFallsBack(s, v, PhaseOf(s, v).place);
    }
    NextKept(s, Go(v, false));
    NextPaths(s, Go(v, false));
    forall w: Thread | w != v ensures PhaseOf(r, w) == PhaseOf(s, w) {
      OthersStay(s, Go(v, false), w);
    }
    forall w: Thread ensures !Blocks(r, w) {
      NobodyBlocks(s, r, v, w);
    }
  }

  lemma NobodyBlocks(s: State, r: State, v: Thread, w: Thread)
    requires !Blocks(s, w) && PathsKept(s) && PathsKept(r)
    requires Clear(PhaseOf(r, v))
    requires forall x: Thread :: x != v ==> PhaseOf(r, x) == PhaseOf(s, x)
    ensures !Blocks(r, w)
  {
    var phase := PhaseOf(r, w);
    if phase.Reading? && phase.at.Reaching? && phase.at.path in r.paths {
      var x := r.paths[phase.at.path];
      assert PathsOf(r, x) && PathsOf(s, x);
    }
  }

  /** The holder of the path that v waits for gives it up. */
  lemma {:induction false} PathFreed(s: State, u: Thread, v: Thread, path: string) returns (steps: seq<Step>)
    requires Draining(s, u) && path in s.paths
    requires PhaseOf(s, v).Reading? && PhaseOf(s, v).at.Reaching? && PhaseOf(s, v).at.path == path
    ensures var r := Run(s, steps);
            && Draining(r, u) && path !in r.paths && r.readers <= s.readers
            && PhaseOf(r, v) == PhaseOf(s, v)
    decreases Rank(PhaseOf(s, s.paths[path]))
  {
    var w := s.paths[path];
    assert PathsOf(s, w) && !Blocks(s, v) && !Blocks(s, w);
    HolderMoves(s, w, path);
    var r := Next(s, Go(w, false));
    ThreadGoes(s, u, w);
    steps := [Go(w, false)];
    assert Run(s, steps) == Next(Run(s, []), Go(w, false));
    if path in r.paths {
      var rest := PathFreed(r, u, v, path);
      RunAppend(s, steps, rest);
      steps := steps + rest;
    }
  }

  lemma HolderMoves(s: State, w: Thread, path: string)
    requires PathHeld(PhaseOf(s, w)) == Some(path) && !MustAskAgain(PhaseOf(s, w)) && !MustAsk(PhaseOf(s, w), path)
    ensures Movable(s, w)
  {
  }

  lemma ReaderMoves(s: State, v: Thread)
    requires LockKept(s) && s.readers[v] > 0 && !MustAskAgain(PhaseOf(s, v))
    ensures PhaseOf(s, v).Reading? && (!PhaseOf(s, v).at.Reaching? ==> Movable(s, v)) && Rank(PhaseOf(s, v)) > 0
  {
    assert Relies(s, v);
  }

  /** A reader that waits at most for its path gives up all its holds. */
  lemma {:induction false} ReaderLeaves(s: State, u: Thread, v: Thread) returns (steps: seq<Step>)
    requires Draining(s, u) && s.readers[v] > 0
    ensures var r := Run(s, steps);
            Draining(r, u) && r.readers <= s.readers && r.readers[v] == 0
    decreases Rank(PhaseOf(s, v))
  {
    assert !Blocks(s, v);
    ReaderMoves(s, v);
    var first := [];
    if PhaseOf(s, v).at.Reaching? && PhaseOf(s, v).at.path in s.paths {
      first := PathFreed(s, u, v, PhaseOf(s, v).at.path);
    }
    var r := Run(s, first);
    assert Relies(r, v);
    ThreadGoes(r, u, v);
    steps := first + [Go(v, false)];
    RunOneMore(s, first, Go(v, false));
    var q := Run(s, steps);
    if q.readers[v] > 0 {
      var rest := ReaderLeaves(q, u, v);
      RunAppend(s, steps, rest);
      steps := steps + rest;
    }
  }

  lemma {:induction false} WriterGetsIn(s: State, u: Thread) returns (steps: seq<Step>)
    requires Draining(s, u)
    ensures HasWriteLock(PhaseOf(Run(s, steps), u))
    decreases |s.readers|
  {
    if s.readers == multiset{} {
      steps := [Go(u, true)];
      assert Run(s, steps) == Next(Run(s, []), Go(u, true));
    } else {
      var v :| v in s.readers;
      var first := ReaderLeaves(s, u, v);
      var r := Run(s, first);
      assert s.readers == r.readers + (s.readers - r.readers);
      assert v in s.readers - r.readers;
      var rest := WriterGetsIn(r, u);
      steps := first + rest;
      RunAppend(s, first, rest);
    }
  }

  ghost predicate CanStillWrite(s: State, u: Thread) {
    exists after :: HasWriteLock(PhaseOf(Run(s, after), u))
  }

  /** The write lock that a SetHistory or DetachHistory waits for can still be
      reached exactly when no RestoreNote that holds the read lock must ask for it a
      second time, or waits for the path of an edit that must ask for it. What the
      calls have not decided yet, whether a revision or a file is there and whether
      contents are equal, is open; what they are bound to do is not. */
  lemma WriteLockReachable(start: State, steps: seq<Step>, u: Thread)
    requires Initial(start) && WaitsToWrite(PhaseOf(Run(start, steps), u))
    ensures CanStillWrite(Run(start, steps), u) <==> !Deadlocked(Run(start, steps))
  {
    RunKeepsLock(start, steps);
    RunKeepsPaths(start, steps);
    var s := Run(start, steps);
    if Draining(s, u) {
      var after := WriterGetsIn(s, u);
    } else {
      var v: nat :| Blocks(s, v);
      forall after ensures !HasWriteLock(PhaseOf(Run(s, after), u)) {
        StuckForever(s, after, v, u);
      }
    }
  }

  /** The first way to get stuck: a RestoreNote holds the read lock when a detach
      announces itself, and then records. */
  lemma RestoreMeetsDetach(s: State, h: Handle, path: string)
    requires s.attached == Some(h) && s.pending.None? && path !in s.paths && PhaseOf(s, 0).Idle? && PhaseOf(s, 1).Idle?
    ensures var r := Run(s, [Restore(0, path)] + Onwards(0, 4) + ([Call(1, Detach(h))] + Onwards(1, 1)) + [Record(0)]);
            MustAskAgain(PhaseOf(r, 0)) && WaitsToWrite(PhaseOf(r, 1))
  {
    var first, second := [Restore(0, path)] + Onwards(0, 4), [Call(1, Detach(h))] + Onwards(1, 1);
    RestoreEnters(s, h, path);
    var s2 := Run(s, first);
    DetachWaits(s2, h);
    var s3 := Moved(s2.(pending := Some(1)), 1, Writing(Pending, Detach(h), Direct));
    Chain(s, first, s2, second, s3);
    RunOneMore(s, first + second, Record(0));
    RestoreRecords(s3, h, path);
  }

  lemma RestoreEnters(s: State, h: Handle, path: string)
    requires s.attached == Some(h) && s.pending.None? && path !in s.paths && PhaseOf(s, 0).Idle? && PhaseOf(s, 1).Idle?
    ensures var r := Run(s, [Restore(0, path)] + Onwards(0, 4));
            PhaseOf(r, 0) == Reading(Restoring(h, path)) && PhaseOf(r, 1).Idle? && r.pending.None?
  {
    RestoreReaches(s, h, path, 1);
    var s1 := Moved(s.(readers := s.readers + multiset{0}), 0, Reading(Reaching(h, path)));
    var s2 := Moved(s1.(paths := s.paths[path := 0]), 0, Reading(Restoring(h, path)));
    ReaderGoesOn(s1, 0, Reaching(h, path), s2, 0);
  }

  lemma RestoreRecords(s: State, h: Handle, path: string)
    requires PhaseOf(s, 0) == Reading(Restoring(h, path)) && WaitsToWrite(PhaseOf(s, 1))
    ensures MustAskAgain(PhaseOf(Next(s, Record(0)), 0)) && WaitsToWrite(PhaseOf(Next(s, Record(0)), 1))
  {
  }

  function EditIn(s: State, path: string): State {
    Moved(s.(paths := s.paths[path := 2]), 2, Editing(Owed(path)))
  }

  lemma EditThenRestore(s: State, h: Handle, path: string)
    requires s.attached == Some(h) && s.pending.None? && path !in s.paths && path != ""
    requires PhaseOf(s, 0).Idle? && PhaseOf(s, 2).Idle?
    ensures Run(s, [Edit(2, path, true)] + Onwards(2, 1) + ([Restore(0, path)] + Onwards(0, 3)))
         == Moved(EditIn(s, path).(readers := s.readers + multiset{0}), 0, Reading(Reaching(h, path)))
  {
    var q := Moved(EditIn(s, path).(readers := s.readers + multiset{0}), 0, Reading(Reaching(h, path)));
    EditEnters(s, path);
    RestoreReaches(EditIn(s, path), h, path, 0);
    Chain(s, [Edit(2, path, true)] + Onwards(2, 1), EditIn(s, path), [Restore(0, path)] + Onwards(0, 3), q);
  }

  /** The second: the RestoreNote waits for the path of a SaveNote that has not
      come to its recording yet. */
  lemma EditMeetsRestore(s: State, h: Handle, path: string)
    requires s.attached == Some(h) && s.pending.None? && path !in s.paths && path != ""
    requires PhaseOf(s, 0).Idle? && PhaseOf(s, 1).Idle? && PhaseOf(s, 2).Idle?
    ensures var r := Run(s, [Edit(2, path, true)] + Onwards(2, 1) + ([Restore(0, path)] + Onwards(0, 3))
                            + ([Call(1, Detach(h))] + Onwards(1, 1)) + [Go(2, true)]);
            BehindAsker(r, 0) && WaitsToWrite(PhaseOf(r, 1))
  {
    var both, detach := [Edit(2, path, true)] + Onwards(2, 1) + ([Restore(0, path)] + Onwards(0, 3)),
        [Call(1, Detach(h))] + Onwards(1, 1);
    EditThenRestore(s, h, path);
    var s2 := Run(s, both);
    DetachWaits(s2, h);
    RunAppend(s, both, detach);
    RunOneMore(s, both + detach, Go(2, true));
    EditorAsks(Moved(s2.(pending := Some(1)), 1, Writing(Pending, Detach(h), Direct)), path);
  }

  lemma EditorAsks(s: State, path: string)
    requires PhaseOf(s, 2) == Editing(Owed(path))
    ensures Next(s, Go(2, true)) == Moved(s, 2, Reading(Asking(ForEdit(path))))
  {
  }

  lemma EditEnters(s: State, path: string)
    requires path !in s.paths && path != "" && PhaseOf(s, 2).Idle?
    ensures Run(s, [Edit(2, path, true)] + Onwards(2, 1)) == EditIn(s, path)
  {
    var s1 := Moved(s, 2, Editing(AtPath(path, true)));
    Begins(s, Edit(2, path, true), s1, 2, 1);
    Goes(s1, 2, 1);
    MovedTwice(s.(paths := s.paths[path := 2]), 2, Editing(AtPath(path, true)), Editing(Owed(path)));
  }

  lemma RestoreReaches(s: State, h: Handle, path: string, n: nat)
    requires s.attached == Some(h) && s.pending.None? && PhaseOf(s, 0).Idle?
    ensures Run(s, [Restore(0, path)] + Onwards(0, n + 3))
         == Run(Moved(s.(readers := s.readers + multiset{0}), 0, Reading(Reaching(h, path))), Onwards(0, n))
  {
    var r := s.(readers := s.readers + multiset{0});
    var s1 := Moved(s, 0, Reading(RestoreAsking(path)));
    Begins(s, Restore(0, path), s1, 0, n + 3);
    ReaderGoesOn(s1, 0, RestoreAsking(path),
        Moved(Moved(r, 0, Reading(RestoreAsking(path))), 0, Reading(RestoreLooking(path))), n + 2);
    MovedTwice(r, 0, Reading(RestoreAsking(path)), Reading(RestoreLooking(path)));
    RestoreFetches(Moved(r, 0, Reading(RestoreLooking(path))), h, path, n);
    MovedTwice(r, 0, Reading(RestoreLooking(path)), Reading(Reaching(h, path)));
  }

  lemma RestoreFetches(s: State, h: Handle, path: string, n: nat)
    requires s.attached == Some(h) && PhaseOf(s, 0) == Reading(RestoreLooking(path))
    ensures Run(s, Onwards(0, n + 2)) == Run(Moved(s, 0, Reading(Reaching(h, path))), Onwards(0, n))
  {
    var s1 := Moved(s, 0, Reading(Fetching(h, path)));
    ReaderGoesOn(s, 0, RestoreLooking(path), s1, n + 1);
    ReaderGoesOn(s1, 0, Fetching(h, path), Moved(s1, 0, Reading(Reaching(h, path))), n);
    MovedTwice(s, 0, Reading(Fetching(h, path)), Reading(Reaching(h, path)));
  }

  lemma DetachWaits(s: State, h: Handle)
    requires s.pending.None? && PhaseOf(s, 1).Idle?
    ensures Run(s, [Call(1, Detach(h))] + Onwards(1, 1))
            == Moved(s.(pending := Some(1)), 1, Writing(Pending, Detach(h), Direct))
  {
    var s1 := Moved(s, 1, Writing(Wanting, Detach(h), Direct));
    Begins(s, Call(1, Detach(h)), s1, 1, 1);
    WriterGoes(s1, 1, Wanting, Detach(h), Direct,
        Moved(s1.(pending := Some(1)), 1, Writing(Pending, Detach(h), Direct)), 0);
    MovedTwice(s.(pending := Some(1)), 1, Writing(Wanting, Detach(h), Direct), Writing(Pending, Detach(h), Direct));
  }

  lemma SetReturns(s: State, h: Handle)
    requires PhaseOf(s, 1) == Writing(Finishing, Set(h), Direct)
    ensures Run(s, Onwards(1, 1)) == Moved(s.(pending := None), 1, Idle)
  {
    WriterGoes(s, 1, Finishing, Set(h), Direct, Moved(s.(pending := None), 1, Idle), 0);
  }

  lemma SetAlone(s: State, h: Handle)
    requires PhaseOf(s, 1) == Writing(Wanting, Set(h), Direct) && s.pending.None? && s.readers == multiset{}
    ensures Run(s, Onwards(1, 4)) == Moved(s.(attached := Some(h)), 1, Idle)
  {
    WriterApplies(s, 1, Set(h), Direct, 1);
    SetReturns(Moved(s.(attached := Some(h), pending := Some(1)), 1, Writing(Finishing, Set(h), Direct)), h);
    MovedTwice(s.(attached := Some(h)), 1, Writing(Finishing, Set(h), Direct), Idle);
  }

  /** From the start, thread 1 attaches a backend. */
  lemma Attaches(start: State, h: Handle)
    requires Initial(start)
    ensures Run(start, [Call(1, Set(h))] + Onwards(1, 4)) == Moved(start.(attached := Some(h)), 1, Idle)
  {
    var s1 := Moved(start, 1, Writing(Wanting, Set(h), Direct));
    Begins(start, Call(1, Set(h)), s1, 1, 4);
    SetAlone(s1, h);
    MovedTwice(start.(attached := Some(h)), 1, Writing(Wanting, Set(h), Direct), Idle);
  }

  lemma BlockedIsStuck(start: State, steps: seq<Step>, u: Thread, v: Thread)
    requires Initial(start) && WaitsToWrite(PhaseOf(Run(start, steps), u)) && Blocks(Run(start, steps), v)
    ensures Deadlocked(Run(start, steps)) && !CanStillWrite(Run(start, steps), u)
  {
    WriteLockReachable(start, steps, u);
  }

  /** Both are reached from the start, for every backend and path, and there the
      detach never gets in. */
  lemma DeadlocksHappen(start: State, h: Handle, path: string) returns (again: seq<Step>, behind: seq<Step>)
    requires Initial(start) && path != ""
    ensures MustAskAgain(PhaseOf(Run(start, again), 0)) && WaitsToWrite(PhaseOf(Run(start, again), 1))
    ensures !CanStillWrite(Run(start, again), 1)
    ensures BehindAsker(Run(start, behind), 0) && WaitsToWrite(PhaseOf(Run(start, behind), 1))
    ensures !CanStillWrite(Run(start, behind), 1)
  {
    var attach := [Call(1, Set(h))] + Onwards(1, 4);
    var s := Moved(start.(attached := Some(h)), 1, Idle);
    var restore := [Restore(0, path)] + Onwards(0, 4) + ([Call(1, Detach(h))] + Onwards(1, 1)) + [Record(0)];
    var edit := [Edit(2, path, true)] + Onwards(2, 1) + ([Restore(0, path)] + Onwards(0, 3))
                + ([Call(1, Detach(h))] + Onwards(1, 1)) + [Go(2, true)];
    Attaches(start, h);
    RestoreMeetsDetach(s, h, path);
    EditMeetsRestore(s, h, path);
    again, behind := attach + restore, attach + edit;
    Chain(start, attach, s, restore, Run(s, restore));
    Chain(start, attach, s, edit, Run(s, edit));
    BlockedIsStuck(start, again, 1, 0);
    BlockedIsStuck(start, behind, 1, 0);
  }
}
