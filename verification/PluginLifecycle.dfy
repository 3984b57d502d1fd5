/** packages/plugins/manager.go and packages/plugins/builtin/git_history.go: the
    lifecycle of the plugin that owns the change history, over every interleaving
    of HistoryLock in which SetHistory and DetachHistory are called by the plugin
    only. CloseAll closes the plugin outside the manager's mutex. */
module PluginLifecycle {
  import opened Wrappers
  import opened HistoryLock
  import PM = PluginManager

  /** Between taking the manager's mutex and giving it back. */
  predicate HasMutex(phase: Phase) {
    match phase
    case Writing(_, _, caller) => caller.ByEnable? || caller.ByDisable?
    case Managing(on) =>
      (match on
       case AtMutex(_) => false
       case Disabling(caller) => caller.ByDisable?
       case Passing(caller) => caller.ByDisable?
       case Clearing(caller) => caller.ByDisable?
       case _ => true)
    case _ => false
  }

  /** Only the plugin calls SetHistory and DetachHistory. */
  predicate Shaped(phase: Phase) {
    match phase
    case Writing(_, access, caller) => !caller.Direct? && (caller.ByEnable? <==> access.Set?)
    case Managing(Disabling(caller)) => caller.ByDisable? || caller.ByClose?
    case Managing(Passing(caller)) => caller.ByDisable? || caller.ByClose?
    case Managing(Clearing(caller)) => caller.ByDisable? || caller.ByClose?
    case _ => true
  }

  /** Enable has put its backend in the plugin's field and not yet attached it. */
  predicate AboutToSet(phase: Phase) {
    phase.Writing? && phase.access.Set? && !phase.spot.Finishing?
  }

  /** What a lifecycle call may rely on under the mutex: Close may clear the
      plugin's field and detach beside it, and nothing else. */
  predicate Knows(s: State, phase: Phase) {
    match phase
    case Writing(spot, access, caller) =>
      && (caller.ByEnable? && access.Set? && !spot.Finishing? ==> s.owned.None? || s.owned == Some(access.h))
      && (caller.ByDisable? && access.DetachNil? ==> s.owned.None?)
      && (caller.ByDisable? && access.Detach? && !spot.Finishing? ==>
            (s.owned.None? || s.owned == Some(access.h)) && (s.attached.None? || s.attached == Some(access.h)))
      && (caller.ByDisable? && access.Detach? && spot.Finishing? ==> s.attached.None?)
    case Managing(Clearing(ByDisable(_))) => s.attached.None? || s.owned.None?
    case Managing(Ending(TurnOff)) => !s.active
    case _ => true
  }

  ghost predicate Sees(s: State, t: Thread) {
    var phase := PhaseOf(s, t);
    (s.mutex == Some(t) <==> HasMutex(phase)) && Shaped(phase) && Knows(s, phase)
  }

  /** The plugin's field is empty or names the attached backend, unless Enable is
      about to attach another; and what it names is active or being enabled. */
  predicate Linked(s: State) {
    && (s.attached.Some? && s.owned.Some? && s.owned != s.attached ==>
          s.mutex.Some? && AboutToSet(PhaseOf(s, s.mutex.value)))
    && (s.attached.Some? && s.owned == s.attached && !s.active ==>
          s.mutex.Some? && PhaseOf(s, s.mutex.value).Writing? && PhaseOf(s, s.mutex.value).caller.ByEnable?)
  }

  ghost predicate Tied(s: State) {
    LockKept(s) && Linked(s) && forall t: Thread :: Sees(s, t)
  }

  /** A backend is attached that the plugin has forgotten. */
  predicate Orphaned(s: State) {
    s.attached.Some? && s.owned.None?
  }

  predicate ClosesNow(s: State, step: Step) {
    step.Go? && PhaseOf(s, step.t) == Managing(Clearing(ByClose))
  }

  /** Enable's SetHistory takes effect. */
  predicate AttachesNow(s: State, step: Step) {
    var phase := PhaseOf(s, step.t);
    step.Go? && phase.Writing? && phase.spot.Inside? && phase.access.Set?
  }

  /** A lifecycle call relies on the shared fields only under the mutex. */
  lemma KnowsUnderMutex(s: State, phase: Phase)
    requires !HasMutex(phase)
    ensures Knows(s, phase)
  {
  }

  /** A step of one thread: it may change the shared fields if it has the mutex,
      and otherwise only empty them. */
  ghost predicate Moderate(s: State, r: State, t: Thread) {
    && (forall u: Thread :: u != t ==> (r.mutex == Some(u) <==> s.mutex == Some(u)))
    && (s.mutex == Some(t) || r.mutex == Some(t)
        || (r.mutex == s.mutex && r.active == s.active
            && (r.owned == s.owned || r.owned.None?) && (r.attached == s.attached || r.attached.None?)))
  }

  lemma OneThreadMoves(s: State, r: State, t: Thread)
    requires Tied(s) && LockKept(r) && Moderate(s, r, t) && Sees(r, t) && Linked(r)
    requires forall u: Thread :: u != t ==> PhaseOf(r, u) == PhaseOf(s, u)
    ensures Tied(r)
  {
    forall u: Thread ensures Sees(r, u) {
      assert Sees(s, u);
      if u != t && !HasMutex(PhaseOf(s, u)) {
        KnowsUnderMutex(r, PhaseOf(s, u));
      }
    }
  }

  lemma ReaderSees(s: State, t: Thread, at: Reader, ok: bool)
    requires Tied(s) && PhaseOf(s, t) == Reading(at)
    ensures var r := ReaderNext(s, t, at, ok);
            Moderate(s, r, t) && Sees(r, t) && Linked(r)
  {
    assert Sees(s, t) && Relies(s, t);
    var r := ReaderNext(s, t, at, ok);
    ReaderHolds(s, t, at, ok);
    KnowsUnderMutex(r, PhaseOf(r, t));
  }

  lemma EditorSees(s: State, t: Thread, place: Editor, ok: bool)
    requires Tied(s) && PhaseOf(s, t) == Editing(place)
    ensures var r := EditorNext(s, t, place, ok);
            Moderate(s, r, t) && Sees(r, t) && Linked(r)
  {
    assert Sees(s, t);
    KnowsUnderMutex(EditorNext(s, t, place, ok), PhaseOf(EditorNext(s, t, place, ok), t));
  }

  lemma WriterSees(s: State, t: Thread, spot: Spot, access: Access, caller: Caller)
    requires Tied(s) && PhaseOf(s, t) == Writing(spot, access, caller)
    ensures var r := WriterNext(s, t, spot, access, caller);
            Moderate(s, r, t) && Sees(r, t) && Linked(r)
  {
    assert Sees(s, t) && Relies(s, t);
  }

  lemma ManagerSees(s: State, t: Thread, on: Manager, ok: bool)
    requires Tied(s) && PhaseOf(s, t) == Managing(on)
    ensures var r := ManagerNext(s, t, on, ok);
            Moderate(s, r, t) && Sees(r, t) && Linked(r)
  {
    assert Sees(s, t);
  }

  lemma BeginSees(s: State, step: Step)
    requires Tied(s) && !step.Go? && !step.Call?
    ensures var r := Next(s, step);
            Moderate(s, r, step.t) && Sees(r, step.t) && Linked(r)
  {
    assert Sees(s, step.t);
  }

  lemma NextTied(s: State, step: Step)
    requires Tied(s) && !step.Call?
    ensures Tied(Next(s, step))
  {
    if !step.Go? {
      BeginSees(s, step);
    } else {
      match PhaseOf(s, step.t)
      case Idle => assert Sees(s, step.t);
      case Reading(at) => ReaderSees(s, step.t, at, step.ok);
      case Editing(place) => EditorSees(s, step.t, place, step.ok);
      case Writing(spot, access, caller) => WriterSees(s, step.t, spot, access, caller);
      case Managing(on) => ManagerSees(s, step.t, on, step.ok);
    }
    var r := Next(s, step);
    NextKeepsLock(s, step);
    forall u: Thread | u != step.t ensures PhaseOf(r, u) == PhaseOf(s, u) {
      OthersStay(s, step, u);
    }
    OneThreadMoves(s, r, step.t);
  }

  /** No call reaches SetHistory or DetachHistory but through the plugin. */
  ghost predicate PluginOnly(steps: seq<Step>) {
    forall i :: 0 <= i < |steps| ==> !steps[i].Call?
  }

  /** Over every interleaving, Closes included: the plugin's field never names
      another backend than the attached one but for the moment an Enable takes. */
  lemma {:induction false} RunTied(start: State, steps: seq<Step>)
    requires Initial(start) && PluginOnly(steps)
    ensures Tied(Run(start, steps))
  {
    RunKeepsLock(start, steps);
    if steps == [] {
      forall t: Thread ensures Sees(start, t) {}
    } else {
      var n := |steps| - 1;
      RunTied(start, steps[..n]);
      NextTied(Run(start, steps[..n]), steps[n]);
    }
  }

  // ------------------------------------------------ how a backend is orphaned

  /** The two steps that orphan a backend: Close clears the field while it is
      attached, and Enable attaches it after Close has cleared the field. */
  predicate Orphans(s: State, step: Step) {
    (ClosesNow(s, step) && s.attached.Some?) || (AttachesNow(s, step) && s.owned.None?)
  }

  lemma OrphanedExactly(s: State, step: Step)
    requires Tied(s) && !step.Call? && !Orphaned(s)
    ensures Orphaned(Next(s, step)) <==> Orphans(s, step)
  {
    assert Sees(s, step.t);
    var phase := PhaseOf(s, step.t);
    if step.Go? && phase.Reading? {
      assert Relies(s, step.t);
      ReaderHolds(s, step.t, phase.at, step.ok);
    }
  }

  /** So a run without these two steps never orphans a backend. */
  lemma {:induction false} RunUnorphaned(start: State, steps: seq<Step>)
    requires Initial(start) && PluginOnly(steps)
    requires forall i :: 0 <= i < |steps| ==> !Orphans(Run(start, steps[..i]), steps[i])
    ensures !Orphaned(Run(start, steps))
  {
    if steps == [] {
    } else {
      var n := |steps| - 1;
      var init := steps[..n];
      forall i | 0 <= i < |init| ensures !Orphans(Run(start, init[..i]), init[i]) {
        assert init[..i] == steps[..i];
      }
      RunUnorphaned(start, init);
      RunTied(start, init);
      OrphanedExactly(Run(start, init), steps[n]);
    }
  }

  // ----------------------------------------------- what switching off leaves

  /** Close's DetachHistory(h) takes effect. */
  predicate CloseDetaches(s: State, step: Step, h: Handle) {
    step.Go? && PhaseOf(s, step.t) == Writing(Inside, Detach(h), ByClose)
  }

  ghost predicate DetachedMeanwhile(s: State, steps: seq<Step>, h: Handle) {
    exists i :: 0 <= i < |steps| && CloseDetaches(Run(s, steps[..i]), steps[i], h)
  }

  lemma DetachedOneMore(s: State, steps: seq<Step>, step: Step, h: Handle)
    ensures DetachedMeanwhile(s, steps + [step], h)
       <==> DetachedMeanwhile(s, steps, h) || CloseDetaches(Run(s, steps), step, h)
  {
    var more := steps + [step];
    assert forall i :: 0 <= i < |steps| ==> more[..i] == steps[..i] && more[i] == steps[i];
    assert more[..|steps|] == steps && more[|steps|] == step;
    if DetachedMeanwhile(s, steps, h) {
      var i :| 0 <= i < |steps| && CloseDetaches(Run(s, steps[..i]), steps[i], h);
      assert CloseDetaches(Run(s, more[..i]), more[i], h);
    }
  }

  /** SetEnabled(false) has read a backend from the field and is on its way to
      detach it. */
  predicate OnTheWay(phase: Phase, owned: Option<Handle>) {
    && phase.Writing? && phase.caller == ByDisable(TurnOff) && phase.access.Detach? && !phase.spot.Finishing?
    && owned == Some(phase.access.h)
  }

  /** It has nothing more to do about the attached backend: it has detached, or
      found the field empty. */
  predicate Past(phase: Phase) {
    || (phase.Writing? && phase.caller == ByDisable(TurnOff)
        && (phase.access.DetachNil? || (phase.access.Detach? && phase.spot.Finishing?)))
    || phase == Managing(Clearing(ByDisable(TurnOff)))
    || phase == Managing(Ending(TurnOff))
  }

  /** It has returned, and the thread does something else. */
  predicate Elsewhere(phase: Phase) {
    !phase.Managing? && !phase.Writing?
  }

  /** What holds of the calling thread t after its last read in state s, when Close has
      (d) or has not detached that backend since. */
  predicate Since(s: State, q: State, t: Thread, d: bool) {
    || OnTheWay(PhaseOf(q, t), s.owned)
    || Elsewhere(PhaseOf(q, t))
    || (&& Past(PhaseOf(q, t))
        && (q.attached.None? <==> !Orphaned(s) || d)
        && (q.attached.Some? ==> q.attached == s.attached))
  }

  lemma ReaderElsewhere(q: State, t: Thread, at: Reader, ok: bool)
    requires PhaseOf(q, t) == Reading(at)
    ensures Elsewhere(PhaseOf(ReaderNext(q, t, at, ok), t)) && ReaderNext(q, t, at, ok).attached == q.attached
  {
  }

  lemma ElsewhereStays(q: State, step: Step, t: Thread)
    requires Elsewhere(PhaseOf(q, t)) && !step.Call? && !(step.Manage? && step.t == t)
    ensures Elsewhere(PhaseOf(Next(q, step), t))
  {
    if step.t != t {
      OthersStay(q, step, t);
    } else if step.Go? && PhaseOf(q, t).Reading? {
      ReaderElsewhere(q, t, PhaseOf(q, t).at, step.ok);
    }
  }

  /** Beside the thread that has the mutex, only Close takes a backend away. */
  lemma OthersDetach(q: State, step: Step, t: Thread)
    requires Tied(q) && q.mutex == Some(t) && step.t != t && !step.Call?
    ensures var r := Next(q, step);
            r.attached == if q.attached.Some? && CloseDetaches(q, step, q.attached.value) then None else q.attached
  {
    var phase := PhaseOf(q, step.t);
    assert Sees(q, step.t);
    if step.Go? && phase.Reading? {
      ReaderElsewhere(q, step.t, phase.at, step.ok);
    }
  }

  lemma SinceStep(s: State, q: State, step: Step, t: Thread, d: bool)
    requires Tied(q) && Since(s, q, t, d) && !step.Call? && !(step.Manage? && step.t == t)
    ensures Since(s, Next(q, step), t, d || (s.attached.Some? && CloseDetaches(q, step, s.attached.value)))
  {
    assert Sees(q, t);
    if Elsewhere(PhaseOf(q, t)) {
      ElsewhereStays(q, step, t);
    } else if step.t != t {
      OthersStay(q, step, t);
      OthersDetach(q, step, t);
    } else {
      OwnStep(s, q, step, t, d);
    }
  }

  lemma OwnWrite(s: State, q: State, t: Thread, spot: Spot, access: Access, caller: Caller, d: bool)
    requires Tied(q) && Since(s, q, t, d) && PhaseOf(q, t) == Writing(spot, access, caller)
    ensures Since(s, WriterNext(q, t, spot, access, caller), t, d)
  {
    assert Sees(q, t);
  }

  lemma OwnManage(s: State, q: State, t: Thread, on: Manager, ok: bool, d: bool)
    requires Since(s, q, t, d) && PhaseOf(q, t) == Managing(on)
    ensures Since(s, ManagerNext(q, t, on, ok), t, d)
  {
  }

  lemma OwnStep(s: State, q: State, step: Step, t: Thread, d: bool)
    requires Tied(q) && Since(s, q, t, d) && !Elsewhere(PhaseOf(q, t))
    requires step.t == t && !step.Call? && !step.Manage?
    ensures Since(s, Next(q, step), t, d)
  {
    if step.Go? {
      match PhaseOf(q, t)
      case Writing(spot, access, caller) => OwnWrite(s, q, t, spot, access, caller, d);
      case Managing(on) => OwnManage(s, q, t, on, step.ok, d);
      case _ =>
    }
  }

  lemma {:induction false} SinceRun(s: State, q: State, mid: seq<Step>, t: Thread)
    requires Tied(q) && Since(s, q, t, false) && PluginOnly(mid)
    requires forall i :: 0 <= i < |mid| ==> !(mid[i].Manage? && mid[i].t == t)
    ensures Tied(Run(q, mid))
    ensures Since(s, Run(q, mid), t, s.attached.Some? && DetachedMeanwhile(q, mid, s.attached.value))
  {
    if mid == [] {
    } else {
      var init, last := mid[..|mid| - 1], mid[|mid| - 1];
      SinceRun(s, q, init, t);
      assert mid == init + [last];
      if s.attached.Some? {
        DetachedOneMore(q, init, last, s.attached.value);
        SinceStep(s, Run(q, init), last, t, DetachedMeanwhile(q, init, s.attached.value));
      } else {
        SinceStep(s, Run(q, init), last, t, false);
      }
      NextTied(Run(q, init), last);
    }
  }

  /** Disable looks at the plugin's field for the last time: it finds it empty when
      it tests it, or reads it again to pass it on. */
  predicate LastLook(s: State, t: Thread) {
    || PhaseOf(s, t) == Managing(Passing(ByDisable(TurnOff)))
    || (PhaseOf(s, t) == Managing(Disabling(ByDisable(TurnOff))) && s.owned.None?)
  }

  lemma LookIsSince(s: State, t: Thread, ok: bool)
    requires Tied(s) && LastLook(s, t)
    ensures Since(s, Next(s, Go(t, ok)), t, false)
  {
    assert Sees(s, t);
  }

  /** What SetEnabled("git-history", false) of an active plugin leaves, over every
      interleaving, decided where Disable looks at the plugin's field for the last
      time: when the call is done, nothing is attached if and only if the field was
      set then, or nothing was attached then, or a Close has detached that very
      backend in the meantime. */
  lemma SwitchOffExactly(start: State, before: seq<Step>, ok: bool, mid: seq<Step>, t: Thread)
    requires Initial(start) && PluginOnly(before) && PluginOnly(mid)
    requires LastLook(Run(start, before), t)
    requires forall i :: 0 <= i < |mid| ==> !(mid[i].Manage? && mid[i].t == t)
    requires PhaseOf(Run(start, before + [Go(t, ok)] + mid), t) == Managing(Ending(TurnOff))
    ensures var s := Run(start, before);
            Run(start, before + [Go(t, ok)] + mid).attached.None?
            <==> s.owned.Some? || s.attached.None?
                 || DetachedMeanwhile(Run(start, before + [Go(t, ok)]), mid, s.attached.value)
  {
    var s := Run(start, before);
    RunTied(start, before);
    LookIsSince(s, t, ok);
    NextTied(s, Go(t, ok));
    RunOneMore(start, before, Go(t, ok));
    RunAppend(start, before + [Go(t, ok)], mid);
    SinceRun(s, Run(start, before + [Go(t, ok)]), mid, t);
  }

  /** Every such call comes to a last look: where Disable tests the field and finds
      it set, it goes on to read it again. */
  lemma TestThenLook(s: State, t: Thread, ok: bool)
    requires PhaseOf(s, t) == Managing(Disabling(ByDisable(TurnOff)))
    ensures LastLook(s, t) || LastLook(Next(s, Go(t, ok)), t)
  {
  }

  // ------------------------------------------------------------ off is quiet

  /** Enable gets its backend and goes on to attach it. */
  predicate Opens(s: State, step: Step) {
    step.Go? && step.ok && PhaseOf(s, step.t) == Managing(Opening)
  }

  ghost predicate NeverOpens(s: State, after: seq<Step>) {
    forall i :: 0 <= i < |after| ==> !Opens(Run(s, after[..i]), after[i])
  }

  predicate Setting(phase: Phase) {
    phase.Writing? && phase.access.Set?
  }

  /** Nothing is attached, nobody is about to attach anything, and nobody works on
      a backend. */
  ghost predicate Off(s: State) {
    && LockKept(s) && s.attached.None?
    && (forall u: Thread :: !Setting(PhaseOf(s, u)))
  }

  lemma OffUsesNothing(s: State, u: Thread, h: Handle)
    requires Off(s)
    ensures !Uses(PhaseOf(s, u), h)
  {
    assert Relies(s, u);
  }

  lemma OffCommits(s: State, step: Step)
    requires Off(s)
    ensures Next(s, step).commits == s.commits
  {
    var phase := PhaseOf(s, step.t);
    if phase.Reading? && phase.at.Running? {
      OffUsesNothing(s, step.t, phase.at.h);
    }
  }

  lemma ReaderSetsNothing(s: State, t: Thread, at: Reader, ok: bool)
    ensures var r := ReaderNext(s, t, at, ok);
            r == s || (!Setting(PhaseOf(r, t)) && r.attached == s.attached)
  {
  }

  lemma EditorSetsNothing(s: State, t: Thread, place: Editor, ok: bool)
    ensures var r := EditorNext(s, t, place, ok);
            r == s || (!Setting(PhaseOf(r, t)) && r.attached == s.attached)
  {
  }

  lemma WriterSetsNothing(s: State, t: Thread, spot: Spot, access: Access, caller: Caller)
    requires !access.Set? && s.attached.None?
    ensures var r := WriterNext(s, t, spot, access, caller);
            r == s || (!Setting(PhaseOf(r, t)) && r.attached.None?)
  {
  }

  lemma ManagerSetsNothing(s: State, t: Thread, on: Manager, ok: bool)
    requires !(ok && on.Opening?)
    ensures var r := ManagerNext(s, t, on, ok);
            r == s || (!Setting(PhaseOf(r, t)) && r.attached == s.attached)
  {
  }

  lemma OffPhase(s: State, step: Step)
    requires !Setting(PhaseOf(s, step.t)) && s.attached.None? && !Opens(s, step) && !step.Call?
    ensures !Setting(PhaseOf(Next(s, step), step.t)) && Next(s, step).attached.None?
  {
    if step.Go? {
      match PhaseOf(s, step.t)
      case Idle =>
      case Reading(at) => ReaderSetsNothing(s, step.t, at, step.ok);
      case Editing(place) => EditorSetsNothing(s, step.t, place, step.ok);
      case Writing(spot, access, caller) => WriterSetsNothing(s, step.t, spot, access, caller);
      case Managing(on) => ManagerSetsNothing(s, step.t, on, step.ok);
    }
  }

  lemma OffStep(s: State, step: Step)
    requires Off(s) && !Opens(s, step) && !step.Call?
    ensures Off(Next(s, step)) && Next(s, step).commits == s.commits
  {
    var r := Next(s, step);
    NextKeepsLock(s, step);
    OffCommits(s, step);
    OffPhase(s, step);
    forall u: Thread ensures !Setting(PhaseOf(r, u)) {
      if u != step.t {
        OthersStay(s, step, u);
      }
    }
  }

  lemma {:induction false} OffRun(s: State, after: seq<Step>)
    requires Off(s) && NeverOpens(s, after) && PluginOnly(after)
    ensures Off(Run(s, after)) && Run(s, after).commits == s.commits
  {
    if after == [] {
    } else {
      var n := |after| - 1;
      var init := after[..n];
      forall i | 0 <= i < |init| ensures !Opens(Run(s, init[..i]), init[i]) {
        assert init[..i] == after[..i];
      }
      OffRun(s, init);
      assert !Opens(Run(s, after[..n]), after[n]);
      OffStep(Run(s, init), after[n]);
    }
  }

  /** When a switching off is done, under the mutex: it is off if and only if no
      backend is orphaned. */
  lemma EndedIsOff(s: State, t: Thread)
    requires Tied(s) && PhaseOf(s, t) == Managing(Ending(TurnOff))
    ensures Off(s) <==> !Orphaned(s)
  {
    assert Sees(s, t);
    forall u: Thread ensures !Setting(PhaseOf(s, u)) {
      assert Sees(s, u);
    }
  }

  /** Once SetEnabled("git-history", false) is done and about to give the mutex
      back, and has left no backend orphaned, until the next Enable opens one:
      nothing is attached, no thread records or restores on any backend, and no
      commit is made, over every interleaving of recordings, edits, restores and
      lifecycle calls. */
  lemma OffIsQuiet(start: State, before: seq<Step>, after: seq<Step>, t: Thread)
    requires Initial(start) && PluginOnly(before)
    requires PhaseOf(Run(start, before), t) == Managing(Ending(TurnOff)) && !Orphaned(Run(start, before))
    requires PluginOnly(after) && NeverOpens(Run(start, before), after)
    ensures var r := Run(start, before + after);
            && r.attached.None?
            && r.commits == Run(start, before).commits
            && forall u: Thread, h: Handle :: !Uses(PhaseOf(r, u), h)
  {
    RunTied(start, before);
    var s := Run(start, before);
    EndedIsOff(s, t);
    OffRun(s, after);
    RunAppend(start, before, after);
    forall u: Thread, h: Handle ensures !Uses(PhaseOf(Run(s, after), u), h) {
      OffUsesNothing(Run(s, after), u, h);
    }
  }

  /** No commit is made until the next Enable. */
  ghost predicate StaysQuiet(s: State) {
    forall after :: PluginOnly(after) && NeverOpens(s, after) ==> Run(s, after).commits == s.commits
  }

  lemma {:induction false} Above(threads: set<Thread>) returns (b: Thread)
    ensures forall t :: t in threads ==> t < b
  {
    if threads == {} {
      b := 0;
    } else {
      var t :| t in threads;
      var rest := Above(threads - {t});
      b := if t < rest then rest else t + 1;
      forall u | u in threads ensures u < b {
        assert u == t || u in threads - {t};
      }
    }
  }

  /** The promise, and exactly when it is kept: when a switching off is done and no
      writer is announced, no commit is made until the next Enable if and only if
      no backend is orphaned. */
  lemma QuietExactly(start: State, before: seq<Step>, t: Thread)
    requires Initial(start) && PluginOnly(before)
    requires PhaseOf(Run(start, before), t) == Managing(Ending(TurnOff)) && Run(start, before).pending.None?
    ensures StaysQuiet(Run(start, before)) <==> !Orphaned(Run(start, before))
  {
    var s := Run(start, before);
    if Orphaned(s) {
      var v := Above(s.phases.Keys);
      var after := [Record(v)] + Onwards(v, 3);
      RecordCommits(s, v, s.attached.value);
      RecordOpensNothing(s, v, 3);
      assert PluginOnly(after) && |Run(s, after).commits| == |s.commits| + 1;
    } else {
      forall after | PluginOnly(after) && NeverOpens(s, after) ensures Run(s, after).commits == s.commits {
        OffIsQuiet(start, before, after, t);
        RunAppend(start, before, after);
      }
    }
  }

  // ------------------------------------------------- Close against an Enable

  lemma CloseGivesMutexBack(s: State)
    requires PhaseOf(s, 0) == Managing(Ending(CloseAll)) && s.owned.None?
    ensures Run(s, Onwards(0, 2)) == Moved(s.(mutex := None), 0, Managing(Clearing(ByClose)))
  {
    var s1 := Moved(s.(mutex := None), 0, Managing(Disabling(ByClose)));
    ManagerGoes(s, 0, Ending(CloseAll), s1, 1);
    ManagerGoes(s1, 0, Disabling(ByClose), Moved(s1, 0, Managing(Clearing(ByClose))), 0);
    MovedTwice(s.(mutex := None), 0, Managing(Disabling(ByClose)), Managing(Clearing(ByClose)));
  }

  lemma EnableReturns(s: State, t: Thread, h: Handle)
    requires PhaseOf(s, t) == Writing(Finishing, Set(h), ByEnable)
    ensures Run(s, Onwards(t, 2)) == Moved(s.(active := true, mutex := None, pending := None), t, Idle)
  {
    var s1 := Moved(s.(active := true, pending := None), t, Managing(Ending(TurnOn)));
    WriterGoes(s, t, Finishing, Set(h), ByEnable, s1, 1);
    ManagerGoes(s1, t, Ending(TurnOn), Moved(s1.(mutex := None), t, Idle), 0);
    MovedTwice(s.(active := true, mutex := None, pending := None), t, Managing(Ending(TurnOn)), Idle);
  }

  lemma EnableSets(s: State, t: Thread, h: Handle)
    requires PhaseOf(s, t) == Writing(Wanting, Set(h), ByEnable) && s.pending.None? && s.readers == multiset{}
    ensures Run(s, Onwards(t, 5)) == Moved(s.(attached := Some(h), active := true, mutex := None), t, Idle)
  {
    WriterApplies(s, t, Set(h), ByEnable, 2);
    EnableReturns(Moved(s.(attached := Some(h), pending := Some(t)), t, Writing(Finishing, Set(h), ByEnable)), t, h);
    MovedTwice(s.(attached := Some(h), active := true, mutex := None), t, Writing(Finishing, Set(h), ByEnable), Idle);
  }

  function Opened(s: State, t: Thread): State {
    Moved(s.(owned := Some(s.unused), unused := s.unused + 1), t, Writing(Wanting, Set(s.unused), ByEnable))
  }

  lemma EnableOpens(s: State, t: Thread)
    requires PhaseOf(s, t) == Managing(Opening) && s.pending.None? && s.readers == multiset{}
    ensures Run(s, Onwards(t, 6)) == Moved(SwitchedOn(s).(mutex := None), t, Idle)
  {
    OpeningGoes(s, t);
    OpenedSets(s, t);
  }

  lemma OpeningGoes(s: State, t: Thread)
    requires PhaseOf(s, t) == Managing(Opening)
    ensures Run(s, Onwards(t, 6)) == Run(Opened(s, t), Onwards(t, 5))
  {
    ManagerGoes(s, t, Opening, Opened(s, t), 5);
  }

  lemma OpenedSets(s: State, t: Thread)
    requires s.pending.None? && s.readers == multiset{}
    ensures Run(Opened(s, t), Onwards(t, 5)) == Moved(SwitchedOn(s).(mutex := None), t, Idle)
  {
    EnableSets(Opened(s, t), t, s.unused);
    MovedTwice(SwitchedOn(s).(mutex := None), t, Writing(Wanting, Set(s.unused), ByEnable), Idle);
  }

  function SwitchedOn(s: State): State {
    s.(attached := Some(s.unused), owned := Some(s.unused), unused := s.unused + 1, active := true)
  }

  lemma ManagerEnters(s: State, t: Thread, job: Job, on: Manager, n: nat)
    requires s.mutex.None? && PhaseOf(s, t).Idle?
    requires on == if job.TurnOn? == s.active then Ending(job)
                   else if job.TurnOn? then Opening else Disabling(ByDisable(job))
    ensures Run(s, [Manage(t, job)] + Onwards(t, n + 2))
            == Run(Moved(s.(mutex := Some(t)), t, Managing(on)), Onwards(t, n))
  {
    var s1 := Moved(s, t, Managing(AtMutex(job)));
    var s2 := Moved(s.(mutex := Some(t)), t, Managing(Deciding(job)));
    Begins(s, Manage(t, job), s1, t, n + 2);
    MovedTwice(s.(mutex := Some(t)), t, Managing(AtMutex(job)), Managing(Deciding(job)));
    ManagerGoes(s1, t, AtMutex(job), s2, n + 1);
    ManagerGoes(s2, t, Deciding(job), Moved(s2, t, Managing(on)), n);
    MovedTwice(s.(mutex := Some(t)), t, Managing(Deciding(job)), Managing(on));
  }

  /** Thread 0 closes all plugins while the history is off, up to the clearing of
      the plugin's field. */
  lemma CloseIsLate(s: State)
    requires Initial(s)
    ensures Run(s, [Manage(0, CloseAll)] + Onwards(0, 4)) == Moved(s, 0, Managing(Clearing(ByClose)))
  {
    var s1 := Moved(s.(mutex := Some(0)), 0, Managing(Ending(CloseAll)));
    ManagerEnters(s, 0, CloseAll, Ending(CloseAll), 2);
    CloseGivesMutexBack(s1);
    assert s1.(mutex := None) == Moved(s, 0, Managing(Ending(CloseAll)));
    MovedTwice(s, 0, Managing(Ending(CloseAll)), Managing(Clearing(ByClose)));
  }

  /** A thread switches the history on, all the way. */
  lemma EnableCompletes(s: State, t: Thread)
    requires s.mutex.None? && s.pending.None? && s.readers == multiset{} && !s.active && PhaseOf(s, t).Idle?
    ensures Run(s, [Manage(t, TurnOn)] + Onwards(t, 8)) == Moved(SwitchedOn(s), t, Idle)
  {
    ManagerEnters(s, t, TurnOn, Opening, 6);
    EnableOpens(Moved(s.(mutex := Some(t)), t, Managing(Opening)), t);
    MovedTwice(SwitchedOn(s), t, Managing(Opening), Idle);
  }

  /** Where a job goes on once Disable is done. */
  function AfterDisable(job: Job): Phase {
    Managing(if job.Again? then Opening else Ending(job))
  }

  lemma DisableClears(s: State, t: Thread, h: Handle, job: Job, n: nat)
    requires PhaseOf(s, t) == Writing(Finishing, Detach(h), ByDisable(job))
    ensures Run(s, Onwards(t, n + 2))
         == Run(Moved(s.(owned := None, active := false, pending := None), t, AfterDisable(job)), Onwards(t, n))
  {
    var clearing := Managing(Clearing(ByDisable(job)));
    var s1 := Moved(s.(pending := None), t, clearing);
    WriterGoes(s, t, Finishing, Detach(h), ByDisable(job), s1, n + 1);
    ManagerGoes(s1, t, Clearing(ByDisable(job)), Moved(s1.(owned := None, active := false), t, AfterDisable(job)), n);
    MovedTwice(s.(owned := None, active := false, pending := None), t, clearing, AfterDisable(job));
  }

  lemma DisableWrites(s: State, t: Thread, h: Handle, job: Job, n: nat)
    requires PhaseOf(s, t) == Writing(Wanting, Detach(h), ByDisable(job)) && s.pending.None?
             && s.readers == multiset{}
    requires s.attached == Some(h)
    ensures Run(s, Onwards(t, n + 5)) == Run(Moved(SwitchedOff(s), t, AfterDisable(job)), Onwards(t, n))
  {
    var r, finishing := s.(attached := None, pending := Some(t)), Writing(Finishing, Detach(h), ByDisable(job));
    WriterApplies(s, t, Detach(h), ByDisable(job), n + 2);
    DisableClears(Moved(r, t, finishing), t, h, job, n);
    MovedTwice(SwitchedOff(s), t, finishing, AfterDisable(job));
  }

  function SwitchedOff(s: State): State {
    s.(attached := None, owned := None, active := false)
  }

  /** Disable tests the field and reads it, with nobody in between. */
  lemma FieldRead(s: State, t: Thread, caller: Caller, n: nat)
    requires s.owned.Some? && PhaseOf(s, t) == Managing(Disabling(caller))
    ensures Run(s, Onwards(t, n + 2))
            == Run(Moved(s, t, Writing(Wanting, Detach(s.owned.value), caller)), Onwards(t, n))
  {
    var s1 := Moved(s, t, Managing(Passing(caller)));
    ManagerGoes(s, t, Disabling(caller), s1, n + 1);
    ManagerGoes(s1, t, Passing(caller), Moved(s1, t, Writing(Wanting, Detach(s.owned.value), caller)), n);
    MovedTwice(s, t, Managing(Passing(caller)), Writing(Wanting, Detach(s.owned.value), caller));
  }

  lemma DisableDetaches(s: State, t: Thread, job: Job, n: nat)
    requires s.attached.Some? && s.owned == s.attached && s.pending.None? && s.readers == multiset{}
    requires PhaseOf(s, t) == Managing(Disabling(ByDisable(job)))
    ensures Run(s, Onwards(t, n + 7)) == Run(Moved(SwitchedOff(s), t, AfterDisable(job)), Onwards(t, n))
  {
    FieldRead(s, t, ByDisable(job), n + 5);
    DisableWorks(s, t, s.attached.value, job, n);
  }

  lemma DisableWorks(s: State, t: Thread, h: Handle, job: Job, n: nat)
    requires s.attached == Some(h) && s.pending.None? && s.readers == multiset{}
    ensures Run(Moved(s, t, Writing(Wanting, Detach(h), ByDisable(job))), Onwards(t, n + 5))
         == Run(Moved(SwitchedOff(s), t, AfterDisable(job)), Onwards(t, n))
  {
    DisableWrites(Moved(s, t, Writing(Wanting, Detach(h), ByDisable(job))), t, h, job, n);
    MovedTwice(SwitchedOff(s), t, Writing(Wanting, Detach(h), ByDisable(job)), AfterDisable(job));
  }

  /** A job that switches the plugin off first, from the start to there. */
  lemma DisableCompletes(s: State, t: Thread, job: Job, n: nat)
    requires s.mutex.None? && s.pending.None? && s.readers == multiset{} && s.active && PhaseOf(s, t).Idle?
    requires s.attached.Some? && s.owned == s.attached && !job.TurnOn?
    ensures Run(s, [Manage(t, job)] + Onwards(t, n + 9))
         == Run(Moved(SwitchedOff(s).(mutex := Some(t)), t, AfterDisable(job)), Onwards(t, n))
  {
    ManagerEnters(s, t, job, Disabling(ByDisable(job)), n + 7);
    DisableDetaches(Moved(s.(mutex := Some(t)), t, Managing(Disabling(ByDisable(job)))), t, job, n);
    MovedTwice(SwitchedOff(s).(mutex := Some(t)), t, Managing(Disabling(ByDisable(job))), AfterDisable(job));
  }

  /** SetEnabled(id, false), all the way. */
  lemma SwitchOffCompletes(s: State, t: Thread)
    requires s.mutex.None? && s.pending.None? && s.readers == multiset{} && s.active && PhaseOf(s, t).Idle?
    requires s.attached.Some? && s.owned == s.attached
    ensures Run(s, [Manage(t, TurnOff)] + Onwards(t, 10)) == Moved(SwitchedOff(s), t, Idle)
  {
    var r := Moved(SwitchedOff(s).(mutex := Some(t)), t, Managing(Ending(TurnOff)));
    DisableCompletes(s, t, TurnOff, 1);
    ManagerGoes(r, t, Ending(TurnOff), Moved(r.(mutex := None), t, Idle), 0);
    MovedTwice(SwitchedOff(s), t, Managing(Ending(TurnOff)), Idle);
  }

  /** Restart of an active plugin, all the way. */
  lemma RestartCompletes(s: State, t: Thread)
    requires s.mutex.None? && s.pending.None? && s.readers == multiset{} && s.active && PhaseOf(s, t).Idle?
    requires s.attached.Some? && s.owned == s.attached
    ensures Run(s, [Manage(t, Again)] + Onwards(t, 15)) == Moved(SwitchedOn(SwitchedOff(s)), t, Idle)
  {
    var r := SwitchedOff(s).(mutex := Some(t));
    DisableCompletes(s, t, Again, 6);
    EnableOpens(Moved(r, t, Managing(Opening)), t);
    MovedTwice(SwitchedOn(r).(mutex := None), t, Managing(Opening), Idle);
  }

  /** CloseAll with an active plugin, all the way. */
  lemma CloseAllCompletes(s: State, t: Thread)
    requires s.mutex.None? && s.pending.None? && s.readers == multiset{} && s.active && PhaseOf(s, t).Idle?
    requires s.attached.Some? && s.owned == s.attached
    ensures Run(s, [Manage(t, CloseAll)] + Onwards(t, 12)) == Moved(SwitchedOff(s), t, Idle)
  {
    var r := Moved(SwitchedOff(s).(mutex := Some(t)), t, Managing(Ending(CloseAll)));
    DisableCompletes(s, t, CloseAll, 3);
    ClosesNothing(r, t);
    MovedTwice(SwitchedOff(s), t, Managing(Ending(CloseAll)), Idle);
  }

  /** The Close behind it finds nothing to detach. */
  lemma ClosesNothing(s: State, t: Thread)
    requires PhaseOf(s, t) == Managing(Ending(CloseAll)) && s.owned.None?
    ensures Run(s, Onwards(t, 3)) == Moved(s.(mutex := None), t, Idle)
  {
    var r := s.(mutex := None);
    var s1, s2 := Moved(r, t, Managing(Disabling(ByClose))), Moved(r, t, Managing(Clearing(ByClose)));
    ManagerGoes(s, t, Ending(CloseAll), s1, 2);
    MovedTwice(r, t, Managing(Disabling(ByClose)), Managing(Clearing(ByClose)));
    ManagerGoes(s1, t, Disabling(ByClose), s2, 1);
    ManagerGoes(s2, t, Clearing(ByClose), Moved(s2, t, Idle), 0);
    MovedTwice(r, t, Managing(Clearing(ByClose)), Idle);
  }

  /** The lifecycle fields of a state, as PluginManager has them, with the debounce
      that an attached backend was set with. */
  function View(s: State, seconds: int): PM.Life {
    PM.Life(s.attached, if s.attached.Some? then seconds else 0, s.owned, map[PM.GIT := s.active])
  }

  /** Taken without a pause, the steps of SetEnabled do what the manager's method
      does. */
  lemma SwitchAlone(s: State, t: Thread, on: bool, setup: PM.Setup)
    requires s.mutex.None? && s.pending.None? && s.readers == multiset{} && PhaseOf(s, t).Idle?
    requires s.active != on && (s.active ==> s.attached.Some? && s.owned == s.attached)
    requires PM.Usable(setup) && setup.backend == Some(s.unused)
    ensures var r := Run(s, [Manage(t, if on then TurnOn else TurnOff)] + Onwards(t, if on then 8 else 10));
            && View(r, setup.debounce.value) == PM.Switched(View(s, setup.debounce.value), PM.Git, on, setup).0
            && PhaseOf(r, t).Idle? && r.commits == s.commits
  {
    if on {
      EnableCompletes(s, t);
    } else {
      SwitchOffCompletes(s, t);
    }
  }

  /** So do those of Restart and CloseAll. */
  lemma RestartAlone(s: State, t: Thread, setup: PM.Setup)
    requires s.mutex.None? && s.pending.None? && s.readers == multiset{} && PhaseOf(s, t).Idle?
    requires s.active && s.attached.Some? && s.owned == s.attached
    requires PM.Usable(setup) && setup.backend == Some(s.unused)
    ensures var r := Run(s, [Manage(t, Again)] + Onwards(t, 15));
            && View(r, setup.debounce.value) == PM.Restarted(View(s, setup.debounce.value), PM.Git, setup).0
            && PhaseOf(r, t).Idle? && r.commits == s.commits
  {
    RestartCompletes(s, t);
  }

  lemma CloseAllAlone(s: State, t: Thread, setup: PM.Setup)
    requires s.mutex.None? && s.pending.None? && s.readers == multiset{} && PhaseOf(s, t).Idle?
    requires s.active && s.attached.Some? && s.owned == s.attached
    requires PM.Usable(setup)
    ensures var r := Run(s, [Manage(t, CloseAll)] + Onwards(t, 12));
            && View(r, setup.debounce.value)
               == PM.Next(View(s, setup.debounce.value), [PM.Git], PM.Call.CloseAll(setup)).0
            && PhaseOf(r, t).Idle? && r.commits == s.commits
  {
    CloseAllCompletes(s, t);
    PM.CloseAllOfOne(View(s, setup.debounce.value), setup);
  }

  lemma DisableForgets(s: State)
    requires PhaseOf(s, 2) == Managing(Disabling(ByDisable(TurnOff))) && s.owned.None?
    ensures Run(s, Onwards(2, 2)) == Moved(s.(active := false), 2, Managing(Ending(TurnOff)))
  {
    var s1 := Moved(s, 2, Managing(Clearing(ByDisable(TurnOff))));
    ManagerGoes(s, 2, Disabling(ByDisable(TurnOff)), s1, 1);
    ManagerGoes(s1, 2, Clearing(ByDisable(TurnOff)), Moved(s1.(active := false), 2, Managing(Ending(TurnOff))), 0);
    MovedTwice(s.(active := false), 2, Managing(Clearing(ByDisable(TurnOff))), Managing(Ending(TurnOff)));
  }

  /** Thread 2 switches it off after the field was cleared. */
  lemma DisableMisses(s: State)
    requires s.mutex.None? && s.active && s.owned.None? && PhaseOf(s, 2).Idle?
    ensures Run(s, [Manage(2, TurnOff)] + Onwards(2, 4))
         == Moved(s.(mutex := Some(2), active := false), 2, Managing(Ending(TurnOff)))
  {
    ManagerEnters(s, 2, TurnOff, Disabling(ByDisable(TurnOff)), 2);
    DisableForgets(Moved(s.(mutex := Some(2)), 2, Managing(Disabling(ByDisable(TurnOff)))));
    MovedTwice(s.(mutex := Some(2), active := false), 2, Managing(Disabling(ByDisable(TurnOff))),
        Managing(Ending(TurnOff)));
  }

  lemma RecordEnds(s: State, t: Thread, h: Handle)
    requires PhaseOf(s, t) == Reading(Looking(Alone)) && s.attached == Some(h)
    ensures Run(s, Onwards(t, 2)).commits == s.commits + [h]
  {
    var s1 := Moved(s, t, Reading(Running(h, Alone)));
    ReaderGoesOn(s, t, Looking(Alone), s1, 1);
    ReaderGoesOn(s1, t, Running(h, Alone), Moved(s1.(commits := s.commits + [h]), t, Reading(Leaving(Alone))), 0);
  }

  /** A thread records. */
  lemma RecordCommits(s: State, t: Thread, h: Handle)
    requires s.attached == Some(h) && s.pending.None? && PhaseOf(s, t).Idle?
    ensures Run(s, [Record(t)] + Onwards(t, 3)).commits == s.commits + [h]
  {
    var s1 := Moved(s, t, Reading(Asking(Alone)));
    var s2 := Moved(s1.(readers := s.readers + multiset{t}), t, Reading(Looking(Alone)));
    Begins(s, Record(t), s1, t, 3);
    ReaderGoesOn(s1, t, Asking(Alone), s2, 2);
    RecordEnds(s2, t, h);
  }

  /** No thread but the recording one moves, so nothing is opened. */
  lemma RecordOpensNothing(s: State, t: Thread, n: nat)
    requires PhaseOf(s, t).Idle?
    ensures NeverOpens(s, [Record(t)] + Onwards(t, n))
  {
    var steps := [Record(t)] + Onwards(t, n);
    forall i | 0 <= i < |steps| ensures !Opens(Run(s, steps[..i]), steps[i]) {
      StaysElsewhere(s, steps[..i], t);
    }
  }

  lemma {:induction false} StaysElsewhere(s: State, steps: seq<Step>, t: Thread)
    requires Elsewhere(PhaseOf(s, t))
    requires forall i :: 0 <= i < |steps| ==> !steps[i].Call? && !(steps[i].Manage? && steps[i].t == t)
    ensures Elsewhere(PhaseOf(Run(s, steps), t))
  {
    if steps == [] {
    } else {
      StaysElsewhere(s, steps[..|steps| - 1], t);
      ElsewhereStays(Run(s, steps[..|steps| - 1]), steps[|steps| - 1], t);
    }
  }

  /** Thread 0 closes while the plugin is off and stops before the clearing; thread
      1 switches it on. */
  const ENABLE_MEETS_CLOSE: seq<Step> := [Manage(0, CloseAll)] + Onwards(0, 4) + ([Manage(1, TurnOn)] + Onwards(1, 8))

  /** Thread 0 clears the field; thread 2 switches the plugin off. */
  const CLEAR_THEN_DISABLE: seq<Step> := Onwards(0, 1) + ([Manage(2, TurnOff)] + Onwards(2, 4))

  lemma AttachedAgain(start: State)
    requires Initial(start)
    ensures Run(start, ENABLE_MEETS_CLOSE)
         == Moved(SwitchedOn(Moved(start, 0, Managing(Clearing(ByClose)))), 1, Idle)
  {
    CloseIsLate(start);
    EnableCompletes(Moved(start, 0, Managing(Clearing(ByClose))), 1);
    RunAppend(start, [Manage(0, CloseAll)] + Onwards(0, 4), [Manage(1, TurnOn)] + Onwards(1, 8));
  }

  lemma LeftAttached(s: State)
    requires PhaseOf(s, 0) == Managing(Clearing(ByClose)) && PhaseOf(s, 2).Idle? && s.mutex.None? && s.active
    ensures Run(s, CLEAR_THEN_DISABLE)
         == Moved(Moved(s, 0, Idle).(owned := None, mutex := Some(2), active := false), 2, Managing(Ending(TurnOff)))
  {
    var cleared := Moved(s.(owned := None), 0, Idle);
    ManagerGoes(s, 0, Clearing(ByClose), cleared, 0);
    DisableMisses(cleared);
    RunAppend(s, Onwards(0, 1), [Manage(2, TurnOff)] + Onwards(2, 4));
  }

  /** A run that orphans a backend: CloseAll closes the plugin after it gave the
      mutex back. When an Enable comes in between, Close clears the field of a
      plugin that is attached again, the next SetEnabled("git-history", false)
      detaches nothing and reports success, and the next save is committed. */
  lemma CloseAgainstEnable(start: State) returns (before: seq<Step>, after: seq<Step>)
    requires Initial(start)
    ensures PluginOnly(before) && PluginOnly(after) && Orphaned(Run(start, before))
    ensures PhaseOf(Run(start, before), 2) == Managing(Ending(TurnOff)) && !Run(start, before).active
    ensures NeverOpens(Run(start, before), after)
    ensures Run(start, before).commits == [] && Run(start, before + after).commits == [start.unused]
  {
    before := ENABLE_MEETS_CLOSE + CLEAR_THEN_DISABLE;
    after := [Record(3)] + Onwards(3, 3);
    LeftBehind(start);
    StepsAreThePlugins();
    var s := Run(start, before);
    RecordCommits(s, 3, start.unused);
    RecordOpensNothing(s, 3, 3);
    Chain(start, before, s, after, Run(s, after));
  }

  lemma StepsAreThePlugins()
    ensures PluginOnly(ENABLE_MEETS_CLOSE + CLEAR_THEN_DISABLE) && PluginOnly([Record(3)] + Onwards(3, 3))
  {
  }

  lemma LeftBehind(start: State)
    requires Initial(start)
    ensures var s := Run(start, ENABLE_MEETS_CLOSE + CLEAR_THEN_DISABLE);
            && s.attached == Some(start.unused) && Orphaned(s) && !s.active && s.pending.None? && s.commits == []
            && PhaseOf(s, 2) == Managing(Ending(TurnOff)) && PhaseOf(s, 3).Idle?
  {
    AttachedAgain(start);
    ClosingShape(start);
    var s := Run(start, ENABLE_MEETS_CLOSE);
    LeftAttached(s);
    RunAppend(start, ENABLE_MEETS_CLOSE, CLEAR_THEN_DISABLE);
  }

  lemma ClosingShape(start: State)
    requires Initial(start)
    ensures var s := Moved(SwitchedOn(Moved(start, 0, Managing(Clearing(ByClose)))), 1, Idle);
            && PhaseOf(s, 0) == Managing(Clearing(ByClose)) && PhaseOf(s, 2).Idle? && PhaseOf(s, 3).Idle?
            && s.mutex.None? && s.active && s.pending.None? && s.commits == [] && s.attached == Some(start.unused)
  {
  }

  // --------------------------------------------- Close that does its work whole

  lemma CloseReachesDisable(s: State)
    requires s.mutex.None? && !s.active && PhaseOf(s, 0).Idle?
    ensures Run(s, [Manage(0, CloseAll)] + Onwards(0, 3)) == Moved(s, 0, Managing(Disabling(ByClose)))
  {
    var s1 := Moved(s.(mutex := Some(0)), 0, Managing(Ending(CloseAll)));
    ManagerEnters(s, 0, CloseAll, Ending(CloseAll), 1);
    ManagerGoes(s1, 0, Ending(CloseAll), Moved(s1.(mutex := None), 0, Managing(Disabling(ByClose))), 0);
    MovedTwice(s, 0, Managing(Ending(CloseAll)), Managing(Disabling(ByClose)));
  }

  lemma CloseEnds(s: State, h: Handle)
    requires PhaseOf(s, 0) == Writing(Finishing, Detach(h), ByClose)
    ensures Run(s, Onwards(0, 2)) == Moved(s.(owned := None, pending := None), 0, Idle)
  {
    var s1 := Moved(s.(pending := None), 0, Managing(Clearing(ByClose)));
    WriterGoes(s, 0, Finishing, Detach(h), ByClose, s1, 1);
    ManagerGoes(s1, 0, Clearing(ByClose), Moved(s1.(owned := None), 0, Idle), 0);
    MovedTwice(s.(owned := None, pending := None), 0, Managing(Clearing(ByClose)), Idle);
  }

  lemma CloseWrites(s: State, h: Handle)
    requires PhaseOf(s, 0) == Writing(Wanting, Detach(h), ByClose) && s.pending.None? && s.readers == multiset{}
    requires s.attached == Some(h)
    ensures Run(s, Onwards(0, 5)) == Moved(s.(attached := None, owned := None), 0, Idle)
  {
    var r := s.(attached := None, pending := Some(0));
    WriterApplies(s, 0, Detach(h), ByClose, 2);
    CloseEnds(Moved(r, 0, Writing(Finishing, Detach(h), ByClose)), h);
    MovedTwice(s.(attached := None, owned := None), 0, Writing(Finishing, Detach(h), ByClose), Idle);
  }

  lemma CloseDoesItsWork(s: State)
    requires PhaseOf(s, 0) == Managing(Disabling(ByClose)) && s.pending.None? && s.readers == multiset{}
    requires s.attached.Some? && s.owned == s.attached
    ensures Run(s, Onwards(0, 7)) == Moved(s.(attached := None, owned := None), 0, Idle)
  {
    FieldRead(s, 0, ByClose, 5);
    CloseWorks(s, s.attached.value);
  }

  lemma CloseWorks(s: State, h: Handle)
    requires s.attached == Some(h) && s.pending.None? && s.readers == multiset{}
    ensures Run(Moved(s, 0, Writing(Wanting, Detach(h), ByClose)), Onwards(0, 5))
         == Moved(s.(attached := None, owned := None), 0, Idle)
  {
    CloseWrites(Moved(s, 0, Writing(Wanting, Detach(h), ByClose)), h);
    MovedTwice(s.(attached := None, owned := None), 0, Writing(Wanting, Detach(h), ByClose), Idle);
  }

  /** Thread 0 closes while the plugin is off and stops before the test; thread 1
      switches it on; thread 0 goes on to its end. */
  const CLOSE_IS_WHOLE: seq<Step> :=
    [Manage(0, CloseAll)] + Onwards(0, 3) + ([Manage(1, TurnOn)] + Onwards(1, 8)) + Onwards(0, 7)

  function FieldEmptied(start: State): State {
    var on := Moved(SwitchedOn(Moved(start, 0, Managing(Disabling(ByClose)))), 1, Idle);
    Moved(on.(attached := None, owned := None), 0, Idle)
  }

  lemma CloseIsWhole(start: State)
    requires Initial(start)
    ensures Run(start, CLOSE_IS_WHOLE) == FieldEmptied(start)
  {
    var close, enable := [Manage(0, CloseAll)] + Onwards(0, 3), [Manage(1, TurnOn)] + Onwards(1, 8);
    var s1 := Moved(start, 0, Managing(Disabling(ByClose)));
    var s2 := Moved(SwitchedOn(s1), 1, Idle);
    CloseReachesDisable(start);
    EnableCompletes(s1, 1);
    CloseDoesItsWork(s2);
    Chain(start, close, s1, enable, s2);
    Chain(start, close + enable, s2, Onwards(0, 7), FieldEmptied(start));
  }

  lemma TestFindsNothing(s: State)
    requires s.mutex.None? && s.active && s.owned.None? && s.attached.None? && PhaseOf(s, 2).Idle?
    ensures var r := Run(s, [Manage(2, TurnOff)] + Onwards(2, 2));
            && PhaseOf(r, 2) == Managing(Disabling(ByDisable(TurnOff))) && r.active && r.owned.None? && r.attached.None?
            && PhaseOf(Run(r, Onwards(2, 2)), 2) == Managing(Ending(TurnOff)) && Run(r, Onwards(2, 2)).attached.None?
  {
    ManagerEnters(s, 2, TurnOff, Disabling(ByDisable(TurnOff)), 0);
    DisableForgets(Moved(s.(mutex := Some(2)), 2, Managing(Disabling(ByDisable(TurnOff)))));
  }

  /** A field that is empty at the test does not mean that something stays
      attached: here a Close has done its work whole, on a plugin that was switched
      on after CloseAll found it off, before thread 2 switches it off. */
  lemma FieldEmptyYetOff(start: State)
    requires Initial(start)
    ensures var before := CLOSE_IS_WHOLE + ([Manage(2, TurnOff)] + Onwards(2, 2));
            var s, r := Run(start, before), Run(start, before + Onwards(2, 2));
            && PhaseOf(s, 2) == Managing(Disabling(ByDisable(TurnOff))) && s.active && s.owned.None?
            && PhaseOf(r, 2) == Managing(Ending(TurnOff)) && r.attached.None?
  {
    CloseIsWhole(start);
    TestFindsNothing(FieldEmptied(start));
    RunAppend(start, CLOSE_IS_WHOLE, [Manage(2, TurnOff)] + Onwards(2, 2));
    RunAppend(start, CLOSE_IS_WHOLE + ([Manage(2, TurnOff)] + Onwards(2, 2)), Onwards(2, 2));
  }

  // ------------------------------------- Close between the test and the reading

  lemma WriterIgnores(s: State, n: nat)
    requires PhaseOf(s, 2) == Writing(Wanting, DetachNil, ByDisable(TurnOff)) && s.pending.None?
             && s.readers == multiset{}
    ensures Run(s, Onwards(2, n + 4)) == Run(Moved(s, 2, Managing(Clearing(ByDisable(TurnOff)))), Onwards(2, n))
  {
    var finishing, clearing := Writing(Finishing, DetachNil, ByDisable(TurnOff)),
        Managing(Clearing(ByDisable(TurnOff)));
    var r := Moved(s.(pending := Some(2)), 2, finishing);
    WriterApplies(s, 2, DetachNil, ByDisable(TurnOff), n + 1);
    WriterGoes(r, 2, Finishing, DetachNil, ByDisable(TurnOff), Moved(r.(pending := None), 2, clearing), n);
    MovedTwice(s, 2, finishing, clearing);
  }

  lemma PassesNil(s: State)
    requires PhaseOf(s, 2) == Managing(Passing(ByDisable(TurnOff))) && s.owned.None?
    requires s.pending.None? && s.readers == multiset{}
    ensures Run(s, Onwards(2, 6)) == Run(Moved(s, 2, Managing(Clearing(ByDisable(TurnOff)))), Onwards(2, 1))
  {
    var wanting := Writing(Wanting, DetachNil, ByDisable(TurnOff));
    ManagerGoes(s, 2, Passing(ByDisable(TurnOff)), Moved(s, 2, wanting), 5);
    WriterIgnores(Moved(s, 2, wanting), 1);
    MovedTwice(s, 2, wanting, Managing(Clearing(ByDisable(TurnOff))));
  }

  lemma ClearsNothing(s: State)
    requires PhaseOf(s, 2) == Managing(Clearing(ByDisable(TurnOff))) && s.owned.None?
    ensures Run(s, Onwards(2, 1)) == Moved(s.(active := false), 2, Managing(Ending(TurnOff)))
  {
    ManagerGoes(s, 2, Clearing(ByDisable(TurnOff)), Moved(s.(active := false), 2, Managing(Ending(TurnOff))), 0);
  }

  /** Thread 2 has tested the field, finds it empty when it passes it on, and ends. */
  lemma PassesNothing(s: State)
    requires PhaseOf(s, 2) == Managing(Passing(ByDisable(TurnOff))) && s.owned.None?
    requires s.pending.None? && s.readers == multiset{}
    ensures Run(s, Onwards(2, 6)) == Moved(s.(active := false), 2, Managing(Ending(TurnOff)))
  {
    PassesNil(s);
    ClearsNothing(Moved(s, 2, Managing(Clearing(ByDisable(TurnOff)))));
    MovedTwice(s.(active := false), 2, Managing(Clearing(ByDisable(TurnOff))), Managing(Ending(TurnOff)));
  }

  /** Thread 2 comes to the test, and makes it. */
  const UP_TO_TEST: seq<Step> := ENABLE_MEETS_CLOSE + ([Manage(2, TurnOff)] + Onwards(2, 2))

  lemma ReachesTest(s: State)
    requires s.mutex.None? && s.active && PhaseOf(s, 2).Idle?
    ensures Run(s, [Manage(2, TurnOff)] + Onwards(2, 2))
         == Moved(s.(mutex := Some(2)), 2, Managing(Disabling(ByDisable(TurnOff))))
  {
    ManagerEnters(s, 2, TurnOff, Disabling(ByDisable(TurnOff)), 0);
    assert Onwards(2, 0) == [];
  }

  lemma ClearedAfterTest(s: State)
    requires PhaseOf(s, 2) == Managing(Disabling(ByDisable(TurnOff))) && PhaseOf(s, 0) == Managing(Clearing(ByClose))
    requires s.owned.Some? && s.pending.None? && s.readers == multiset{}
    ensures var r := Run(s, Onwards(2, 1) + Onwards(0, 1) + Onwards(2, 6));
            PhaseOf(r, 2) == Managing(Ending(TurnOff)) && r.attached == s.attached && r.owned.None?
  {
    var s1 := Moved(s, 2, Managing(Passing(ByDisable(TurnOff))));
    var s2 := Moved(s1.(owned := None), 0, Idle);
    ManagerGoes(s, 2, Disabling(ByDisable(TurnOff)), s1, 0);
    ManagerGoes(s1, 0, Clearing(ByClose), s2, 0);
    PassesNothing(s2);
    Chain(s, Onwards(2, 1), s1, Onwards(0, 1), s2);
    RunAppend(s, Onwards(2, 1) + Onwards(0, 1), Onwards(2, 6));
  }

  /** Nor does a field that is set at the test mean that the backend is detached:
      Disable reads the field once more to pass it on, and when a Close clears it
      in between, SetEnabled("git-history", false) detaches nothing and reports
      success. */
  lemma FieldSetYetAttached(start: State)
    requires Initial(start)
    ensures PluginOnly(UP_TO_TEST + (Onwards(2, 1) + Onwards(0, 1) + Onwards(2, 6)))
    ensures var s := Run(start, UP_TO_TEST);
            var r := Run(start, UP_TO_TEST + (Onwards(2, 1) + Onwards(0, 1) + Onwards(2, 6)));
            && PhaseOf(s, 2) == Managing(Disabling(ByDisable(TurnOff)))
            && s.active && s.owned == s.attached && s.owned.Some?
            && PhaseOf(r, 2) == Managing(Ending(TurnOff)) && Orphaned(r)
  {
    var s0 := Moved(SwitchedOn(Moved(start, 0, Managing(Clearing(ByClose)))), 1, Idle);
    AttachedAgain(start);
    ClosingShape(start);
    ReachesTest(s0);
    var s := Moved(s0.(mutex := Some(2)), 2, Managing(Disabling(ByDisable(TurnOff))));
    Chain(start, ENABLE_MEETS_CLOSE, s0, [Manage(2, TurnOff)] + Onwards(2, 2), s);
    ClearedAfterTest(s);
    RunAppend(start, UP_TO_TEST, Onwards(2, 1) + Onwards(0, 1) + Onwards(2, 6));
  }
}
