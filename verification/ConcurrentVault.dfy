/** The locked mutation protocol of packages/core/service.go: any number of
    SaveNote, DeleteNote and RestoreNote calls, split into their lock, file and
    commit steps and interleaved at will with listings, purges and the
    recordings the file watcher makes without taking the path lock. History is
    attached and nobody else writes to the vault. */
module ConcurrentVault {
  import opened Wrappers
  import opened Slices
  import opened Repository
  import opened Trash
  import opened NoteService
  import Paths
  import FM = Frontmatter

  type Thread = nat

  /** A call, by the note path it works on. */
  datatype Call =
    | Save(path: string, text: string, base: Option<Digest>)
    | Delete(path: string)
    | Restore(path: string, rev: string)

  /** Where a thread stands, and the content it is about to place (None for a
      delete). */
  datatype Phase =
    | Idle
    | Waiting(call: Call, content: Option<string>)
    | Locked(call: Call, content: Option<string>)
    | Snapshotting(call: Call, content: Option<string>)
    | Cleared(call: Call, content: Option<string>)
    | Placed(call: Call, content: Option<string>)
    | Leaving(call: Call)

  /** One change of a file: what it displaced, what it placed, and the digest it
      was based on. */
  datatype Write = Write(path: string, base: Option<Digest>, displaced: Option<string>, placed: Option<string>)

  datatype State = State(
    first: Tree,
    repo: Repo,
    locks: map<string, Thread>,
    phases: map<Thread, Phase>,
    writes: seq<Write>)

  datatype Step =
    | Start(t: Thread, call: Call)
    | Acquire(t: Thread)
    | Check(t: Thread)
    | Snapshot(t: Thread, now: int)
    | Place(t: Thread)
    | Commit(t: Thread, actor: string, now: int)
    | Release(t: Thread)
    | Watch(path: string, action: string, now: int)
    | List
    | Purge(paths: set<string>)

  function PhaseOf(s: State, t: Thread): Phase {
    if t in s.phases then s.phases[t] else Idle
  }

  function ContentOf(tree: Tree, p: string): Option<string> {
    if p in tree then Some(tree[p]) else None
  }

  /** A vault whose files are all recorded, with nobody at work. */
  predicate Initial(s: State) {
    s.repo.disk == Head(s.repo.log) == s.first && s.locks == map[] && s.phases == map[] && s.writes == []
  }

  function Moved(s: State, t: Thread, phase: Phase): State {
    s.(phases := s.phases[t := phase])
  }

  function With(tree: Tree, p: string, content: Option<string>): Tree {
    if content.Some? then tree[p := content.value] else tree - {p}
  }

  function Base(call: Call): Option<Digest> {
    if call.Save? then call.base else None
  }

  /** Entering a call; a restore reads its revision before it takes the lock. */
  function Entered(s: State, t: Thread, call: Call): State {
    if call.path == "" then s
    else
      match call
      case Save(_, text, _) => Moved(s, t, Waiting(call, Some(text)))
      case Delete(_) => Moved(s, t, Waiting(call, None))
      case Restore(p, rev) =>
        var content := FileAt(s.repo.log, p, rev);
        if content.None? then s else Moved(s, t, Waiting(call, content))
  }

  /** The decision each call makes under its lock. */
  function Checked(s: State, t: Thread, call: Call, content: Option<string>): State {
    var current := ContentOf(s.repo.disk, call.path);
    match call
    case Save(_, _, base) =>
      if base.Some? && current.Some? && Of(current.value) != base.value then Moved(s, t, Leaving(call))
      else Moved(s, t, Cleared(call, content))
    case Delete(_) => Moved(s, t, if current.None? then Leaving(call) else Cleared(call, content))
    case Restore(_, _) =>
      if current.None? then Moved(s, t, Cleared(call, content))
      else if current == content then Moved(s, t, Leaving(call))
      else Moved(s, t, Snapshotting(call, content))
  }

  function Action(call: Call): string {
    match call
    case Save(_, _, _) => "save"
    case Delete(_) => "delete"
    case Restore(_, _) => "restore"
  }

  function Detail(call: Call): string {
    if call.Restore? then call.rev else ""
  }

  /** The state after a step; a step that cannot be taken changes nothing. */
  function Next(s: State, step: Step): State {
    match step
    case Start(t, call) => if PhaseOf(s, t).Idle? then Entered(s, t, call) else s
    case Acquire(t) =>
      (match PhaseOf(s, t)
       case Waiting(call, content) =>
         if call.path in s.locks then s
         else Moved(s.(locks := s.locks[call.path := t]), t, Locked(call, content))
       case _ => s)
    case Check(t) =>
      (match PhaseOf(s, t)
       case Locked(call, content) => Checked(s, t, call, content)
       case _ => s)
    case Snapshot(t, now) =>
      (match PhaseOf(s, t)
       case Snapshotting(call, content) =>
         Moved(s.(repo := Recorded(s.repo, ACTOR_EXTERNAL, call.path, "save", "", now)), t, Cleared(call, content))
       case _ => s)
    case Place(t) =>
      (match PhaseOf(s, t)
       case Cleared(call, content) =>
         var p := call.path;
         var w := Write(p, Base(call), ContentOf(s.repo.disk, p), content);
         Moved(s.(repo := s.repo.(disk := With(s.repo.disk, p, content)), writes := s.writes + [w]), t,
             Placed(call, content))
       case _ => s)
    case Commit(t, actor, now) =>
      (match PhaseOf(s, t)
       case Placed(call, content) =>
         Moved(s.(repo := Recorded(s.repo, Author(actor), call.path, Action(call), Detail(call), now)), t,
             Leaving(call))
       case _ => s)
    case Release(t) =>
      (match PhaseOf(s, t)
       case Leaving(call) => Moved(s.(locks := s.locks - {call.path}), t, Idle)
       case _ => s)
    case Watch(path, action, now) => s.(repo := Recorded(s.repo, ACTOR_EXTERNAL, path, action, "", now))
    case List => s.(repo := Listed(s.repo))
    case Purge(paths) => s.(repo := Purged(s.repo, paths))
  }

  function Run(start: State, steps: seq<Step>): State {
    if steps == [] then start else Next(Run(start, steps[..|steps| - 1]), steps[|steps| - 1])
  }

  // -------------------------------------------------------------- invariant

  predicate Holding(phase: Phase) {
    !phase.Idle? && !phase.Waiting?
  }

  /** What a thread may rely on where it stands. */
  ghost predicate Relies(s: State, t: Thread) {
    var phase := PhaseOf(s, t);
    && (Holding(phase) ==> phase.call.path in s.locks && s.locks[phase.call.path] == t)
    && (Holding(phase) && !phase.Placed? ==> !Differs(s.repo, phase.call.path))
    && (phase.Cleared? && Base(phase.call).Some? ==>
          var current := ContentOf(s.repo.disk, phase.call.path);
          current.Some? ==> Of(current.value) == Base(phase.call).value)
  }

  ghost predicate Owned(s: State, p: string) {
    p in s.locks ==> Holding(PhaseOf(s, s.locks[p])) && PhaseOf(s, s.locks[p]).call.path == p
  }

  /** Every thread can rely on its phase, every held lock has its holder, and a
      path nobody holds is the same on disk and in HEAD. */
  ghost predicate Settled(s: State) {
    && (forall t: Thread :: Relies(s, t))
    && (forall p :: Owned(s, p))
    && (forall p :: p !in s.locks ==> !Differs(s.repo, p))
  }

  /** Recording a path settles it and leaves every other path as it was. */
  lemma RecordSettles(s: Repo, actor: string, p: string, action: string, detail: string, now: int)
    ensures var r := Recorded(s, actor, p, action, detail, now);
            && r.disk == s.disk
            && !Differs(r, p)
            && (forall q :: q != p ==> (Differs(r, q) <==> Differs(s, q)))
            && s.log <= r.log
  {
  }

  lemma PlaceElsewhere(s: Repo, p: string, content: Option<string>)
    ensures forall q :: q != p ==> (Differs(s.(disk := With(s.disk, p, content)), q) <==> Differs(s, q))
  {
  }

  /** A step of one thread that leaves other paths alone keeps the others'
      reliance. */
  lemma OthersRely(s: State, r: State, t: Thread, p: string)
    requires Settled(s)
    requires forall u: Thread :: u != t ==> PhaseOf(r, u) == PhaseOf(s, u)
    requires p in s.locks ==> s.locks[p] == t
    requires forall q :: q != p ==> (q in r.locks <==> q in s.locks) && (q in s.locks ==> r.locks[q] == s.locks[q])
    requires forall q :: q != p ==> (Differs(r.repo, q) <==> Differs(s.repo, q))
    requires forall q :: q != p ==> ContentOf(r.repo.disk, q) == ContentOf(s.repo.disk, q)
    ensures forall u: Thread :: u != t ==> Relies(r, u)
  {
    forall u: Thread | u != t ensures Relies(r, u) {
      assert Relies(s, u);
      var phase := PhaseOf(s, u);
      if Holding(phase) {
        assert phase.call.path != p;
      }
    }
  }

  lemma StartSettled(s: State, step: Step)
    requires Settled(s) && step.Start?
    ensures Settled(Next(s, step))
  {
    var r := Next(s, step);
    forall u: Thread ensures Relies(r, u) {
      assert Relies(s, u);
    }
    forall p ensures Owned(r, p) {
      assert Owned(s, p);
    }
  }

  lemma AcquireSettled(s: State, step: Step)
    requires Settled(s) && step.Acquire?
    ensures Settled(Next(s, step))
  {
    var phase := PhaseOf(s, step.t);
    if phase.Waiting? && phase.call.path !in s.locks {
      var r := Next(s, step);
      var p := phase.call.path;
      OthersRely(s, r, step.t, p);
      assert !Differs(s.repo, p);
      forall q ensures Owned(r, q) {
        assert Owned(s, q);
      }
    }
  }

  lemma CheckSettled(s: State, step: Step)
    requires Settled(s) && step.Check?
    ensures Settled(Next(s, step))
  {
    var phase := PhaseOf(s, step.t);
    if phase.Locked? {
      var r := Next(s, step);
      assert Relies(s, step.t);
      OthersRely(s, r, step.t, phase.call.path);
      forall q ensures Owned(r, q) {
        assert Owned(s, q);
      }
    }
  }

  /** Snapshot and Commit: the holder records its own path. */
  lemma RecordingSettled(s: State, r: State, t: Thread, phase: Phase, actor: string, action: string, detail: string,
      now: int)
    requires Settled(s) && Holding(PhaseOf(s, t)) && Holding(phase) && !phase.Placed?
    requires phase.call == PhaseOf(s, t).call
    requires phase.Cleared? ==> Base(phase.call).None?
    requires r == Moved(s.(repo := Recorded(s.repo, actor, phase.call.path, action, detail, now)), t, phase)
    ensures Settled(r)
  {
    var p := phase.call.path;
    assert Relies(s, t);
    RecordSettles(s.repo, actor, p, action, detail, now);
    OthersRely(s, r, t, p);
    forall q ensures Owned(r, q) {
      assert Owned(s, q);
    }
  }

  lemma PlaceSettled(s: State, step: Step)
    requires Settled(s) && step.Place?
    ensures Settled(Next(s, step))
  {
    var phase := PhaseOf(s, step.t);
    if phase.Cleared? {
      var r := Next(s, step);
      var p := phase.call.path;
      assert Relies(s, step.t);
      PlaceElsewhere(s.repo, p, phase.content);
      OthersRely(s, r, step.t, p);
      forall q ensures Owned(r, q) {
        assert Owned(s, q);
      }
    }
  }

  lemma ReleaseSettled(s: State, step: Step)
    requires Settled(s) && step.Release?
    ensures Settled(Next(s, step))
  {
    var phase := PhaseOf(s, step.t);
    if phase.Leaving? {
      var r := Next(s, step);
      var p := phase.call.path;
      assert Relies(s, step.t);
      OthersRely(s, r, step.t, p);
      forall q ensures Owned(r, q) {
        assert Owned(s, q);
      }
    }
  }

  /** Recordings and index changes outside the locks disturb nobody. */
  lemma BackgroundSettled(s: State, step: Step)
    requires Settled(s) && (step.Watch? || step.List? || step.Purge?)
    ensures Settled(Next(s, step))
  {
    var r := Next(s, step);
    if step.Watch? {
      RecordSettles(s.repo, ACTOR_EXTERNAL, step.path, step.action, "", step.now);
    }
    assert forall q :: Differs(r.repo, q) ==> Differs(s.repo, q);
    forall u: Thread ensures Relies(r, u) {
      assert Relies(s, u);
    }
    forall q ensures Owned(r, q) {
      assert Owned(s, q);
    }
  }

  /** A restore only snapshots; it is never based on a digest. */
  ghost predicate Shaped(s: State) {
    forall t: Thread :: PhaseOf(s, t).Snapshotting? ==> PhaseOf(s, t).call.Restore?
  }

  lemma NextShaped(s: State, step: Step)
    requires Shaped(s)
    ensures Shaped(Next(s, step))
  {
    var r := Next(s, step);
    forall t: Thread | PhaseOf(r, t).Snapshotting? ensures PhaseOf(r, t).call.Restore? {
      assert PhaseOf(s, t).Snapshotting? ==> PhaseOf(s, t).call.Restore?;
    }
  }

  lemma NextSettled(s: State, step: Step)
    requires Settled(s) && Shaped(s)
    ensures Settled(Next(s, step))
  {
    match step
    case Start(_, _) => StartSettled(s, step);
    case Acquire(_) => AcquireSettled(s, step);
    case Check(_) => CheckSettled(s, step);
    case Snapshot(t, now) =>
      var phase := PhaseOf(s, t);
      if phase.Snapshotting? {
        RecordingSettled(s, Next(s, step), t, Cleared(phase.call, phase.content), ACTOR_EXTERNAL, "save", "", now);
      }
    case Place(_) => PlaceSettled(s, step);
    case Commit(t, actor, now) =>
      var phase := PhaseOf(s, t);
      if phase.Placed? {
        RecordingSettled(s, Next(s, step), t, Leaving(phase.call), Author(actor), Action(phase.call),
            Detail(phase.call), now);
      }
    case Release(_) => ReleaseSettled(s, step);
    case _ => BackgroundSettled(s, step);
  }

  lemma {:induction false} RunSettled(start: State, steps: seq<Step>)
    requires Initial(start)
    ensures Settled(Run(start, steps)) && Shaped(Run(start, steps))
  {
    if steps == [] {
    } else {
      RunSettled(start, steps[..|steps| - 1]);
      NextSettled(Run(start, steps[..|steps| - 1]), steps[|steps| - 1]);
      NextShaped(Run(start, steps[..|steps| - 1]), steps[|steps| - 1]);
    }
  }

  /** In every reachable state a path whose lock is free has the same content, or
      none, on disk and in HEAD. */
  lemma DiskAndHeadAgree(start: State, steps: seq<Step>, p: string)
    requires Initial(start)
    ensures var s := Run(start, steps);
            p !in s.locks ==> ContentOf(s.repo.disk, p) == ContentOf(Head(s.repo.log), p)
  {
    RunSettled(start, steps);
    assert p !in Run(start, steps).locks ==> !Differs(Run(start, steps).repo, p);
  }

  /** Two threads are never inside calls on the same path. */
  lemma MutualExclusion(start: State, steps: seq<Step>, t: Thread, u: Thread)
    requires Initial(start)
    requires var s := Run(start, steps);
             Holding(PhaseOf(s, t)) && Holding(PhaseOf(s, u)) && PhaseOf(s, t).call.path == PhaseOf(s, u).call.path
    ensures t == u
  {
    RunSettled(start, steps);
    assert Relies(Run(start, steps), t) && Relies(Run(start, steps), u);
  }

  // ------------------------------------------------ the trash index meanwhile

  /** Every step records, lists, purges or leaves log and index alone. */
  lemma NextSound(s: State, step: Step)
    requires s.repo.index.Some? && Sound(s.repo.log, Entries(s.repo))
    ensures var r := Next(s, step).repo;
            r.index.Some? && Sound(r.log, Entries(r))
  {
    var phase := if step.Watch? || step.List? || step.Purge? then Idle else PhaseOf(s, step.t);
    match step
    case Snapshot(t, now) =>
      if phase.Snapshotting? {
        RecordSound(s.repo, ACTOR_EXTERNAL, phase.call.path, "save", "", now);
      }
    case Commit(t, actor, now) =>
      if phase.Placed? {
        RecordSound(s.repo, Author(actor), phase.call.path, Action(phase.call), Detail(phase.call), now);
      }
    case Watch(path, action, now) => RecordSound(s.repo, ACTOR_EXTERNAL, path, action, "", now);
    case List => FilterSound(s.repo.log, Entries(s.repo), AbsentFrom(s.repo.disk));
    case Purge(paths) => FilterSound(s.repo.log, Entries(s.repo), NotAmong(paths));
    case _ =>
  }

  /** At every interleaving each trash entry is the one last deletion of its path:
      listed once, absent from HEAD, its content in the tree at restoreRev. */
  lemma {:induction false} RunSound(start: State, steps: seq<Step>)
    requires start.repo.index.Some? && Sound(start.repo.log, Entries(start.repo))
    ensures var r := Run(start, steps).repo;
            r.index.Some? && Sound(r.log, Entries(r))
  {
    if steps == [] {
    } else {
      RunSound(start, steps[..|steps| - 1]);
      NextSound(Run(start, steps[..|steps| - 1]), steps[|steps| - 1]);
    }
  }

  // ------------------------------------------------------- no update is lost

  /** The version of a path after a list of writes. */
  function Version(first: Tree, writes: seq<Write>, p: string): Option<string> {
    if writes == [] then ContentOf(first, p)
    else if writes[|writes| - 1].path == p then writes[|writes| - 1].placed
    else Version(first, writes[..|writes| - 1], p)
  }

  /** Some commit holds this content at the path. */
  ghost predicate Kept(log: seq<Commit>, p: string, c: string) {
    exists k :: 0 <= k < |log| && ContentOf(log[k].tree, p) == Some(c)
  }

  /** The write displaced the version right before it, that is the version it was
      based on, and history keeps it. */
  ghost predicate Careful(s: State, i: nat)
    requires i < |s.writes|
  {
    var w := s.writes[i];
    && w.displaced == Version(s.first, s.writes[..i], w.path)
    && (w.base.Some? && w.displaced.Some? ==> Of(w.displaced.value) == w.base.value)
    && (w.displaced.Some? ==> Kept(s.repo.log, w.path, w.displaced.value))
  }

  ghost predicate Chained(s: State) {
    && (forall p :: ContentOf(s.repo.disk, p) == Version(s.first, s.writes, p))
    && (forall i :: 0 <= i < |s.writes| ==> Careful(s, i))
  }

  lemma KeptLonger(log: seq<Commit>, more: seq<Commit>, p: string, c: string)
    requires log <= more && Kept(log, p, c)
    ensures Kept(more, p, c)
  {
    var k :| 0 <= k < |log| && ContentOf(log[k].tree, p) == Some(c);
    assert more[k] == log[k];
  }

  /** A step that writes no file and only lets the log grow. */
  lemma QuietStepChained(s: State, r: State)
    requires Chained(s)
    requires r.first == s.first && r.writes == s.writes && r.repo.disk == s.repo.disk && s.repo.log <= r.repo.log
    ensures Chained(r)
  {
    forall i | 0 <= i < |r.writes| ensures Careful(r, i) {
      assert Careful(s, i);
      var w := s.writes[i];
      if w.displaced.Some? {
        KeptLonger(s.repo.log, r.repo.log, w.path, w.displaced.value);
      }
    }
  }

  lemma PlaceChained(s: State, t: Thread)
    requires Chained(s) && Settled(s) && PhaseOf(s, t).Cleared?
    ensures Chained(Next(s, Place(t)))
  {
    var phase := PhaseOf(s, t);
    var r := Next(s, Place(t));
    var p := phase.call.path;
    var n := |s.writes|;
    assert Relies(s, t);
    assert r.writes[..n] == s.writes;
    forall i | 0 <= i < |r.writes| ensures Careful(r, i) {
      assert r.writes[..i] == s.writes[..i];
      if i < n {
        assert Careful(s, i);
      } else {
        PlacedIsCareful(s, t, phase);
      }
    }
    forall q ensures ContentOf(r.repo.disk, q) == Version(r.first, r.writes, q) {
      assert ContentOf(s.repo.disk, q) == Version(s.first, s.writes, q);
    }
  }

  lemma PlacedIsCareful(s: State, t: Thread, phase: Phase)
    requires Chained(s) && Settled(s) && phase == PhaseOf(s, t) && phase.Cleared?
    ensures Careful(Next(s, Place(t)), |s.writes|)
  {
    var r := Next(s, Place(t));
    var p := phase.call.path;
    assert Relies(s, t);
    assert r.writes[..|s.writes|] == s.writes;
    assert ContentOf(s.repo.disk, p) == Version(s.first, s.writes, p);
    if p in s.repo.disk {
      assert ContentOf(s.repo.log[|s.repo.log| - 1].tree, p) == Some(s.repo.disk[p]);
    }
  }

  lemma NextChained(s: State, step: Step)
    requires Chained(s) && Settled(s)
    ensures Chained(Next(s, step))
  {
    var r := Next(s, step);
    if step.Place? && PhaseOf(s, step.t).Cleared? {
      PlaceChained(s, step.t);
    } else {
      QuietStepChained(s, r);
    }
  }

  lemma {:induction false} RunChained(start: State, steps: seq<Step>)
    requires Initial(start)
    ensures Chained(Run(start, steps)) && Run(start, steps).first == start.first
  {
    if steps == [] {
    } else {
      RunChained(start, steps[..|steps| - 1]);
      RunSettled(start, steps[..|steps| - 1]);
      NextChained(Run(start, steps[..|steps| - 1]), steps[|steps| - 1]);
    }
  }

  /** Over every interleaving, each write displaces exactly the version of its
      path that came right before it; a save based on a digest only ever
      displaces the version it was based on. */
  lemma NoLostUpdate(start: State, steps: seq<Step>, i: nat)
    requires Initial(start) && i < |Run(start, steps).writes|
    ensures var s := Run(start, steps);
            var w := s.writes[i];
            && w.displaced == Version(start.first, s.writes[..i], w.path)
            && (w.base.Some? && w.displaced.Some? ==> Of(w.displaced.value) == w.base.value)
  {
    RunChained(start, steps);
    assert Careful(Run(start, steps), i);
  }

  /** No content that a call displaced is lost: some commit holds it. */
  lemma NothingIsLost(start: State, steps: seq<Step>, i: nat)
    requires Initial(start) && i < |Run(start, steps).writes|
    ensures var s := Run(start, steps);
            s.writes[i].displaced.Some? ==> Kept(s.repo.log, s.writes[i].path, s.writes[i].displaced.value)
  {
    RunChained(start, steps);
    assert Careful(Run(start, steps), i);
  }

  lemma {:induction false} VersionWasPlaced(first: Tree, writes: seq<Write>, i: nat, p: string)
    requires i < |writes| && writes[i].path == p
    ensures exists k :: i <= k < |writes| && writes[k].path == p && writes[k].placed == Version(first, writes, p)
  {
    var n := |writes| - 1;
    if writes[n].path != p {
      VersionWasPlaced(first, writes[..n], i, p);
      var k :| i <= k < n && writes[..n][k].path == p && writes[..n][k].placed == Version(first, writes[..n], p);
      assert writes[k].path == p;
    } else {
      assert writes[n].placed == Version(first, writes, p);
    }
  }

  /** Two saves from the same base both go through on an existing note only if
      that very content was put back between them. */
  lemma SameBaseTwice(start: State, steps: seq<Step>, i: nat, j: nat)
    requires Initial(start) && i < j < |Run(start, steps).writes|
    requires var ws := Run(start, steps).writes;
             ws[i].path == ws[j].path && ws[i].base.Some? && ws[i].base == ws[j].base
             && ws[i].displaced.Some? && ws[j].displaced.Some?
    ensures var ws := Run(start, steps).writes;
            exists k :: i <= k < j && ws[k].path == ws[i].path && ws[k].placed == ws[i].displaced
  {
    var s := Run(start, steps);
    var ws := s.writes;
    RunChained(start, steps);
    assert Careful(s, i) && Careful(s, j);
    assert ws[i].displaced == ws[j].displaced;
    VersionWasPlaced(s.first, ws[..j], i, ws[i].path);
    var k :| i <= k < j && ws[..j][k].path == ws[i].path && ws[..j][k].placed == Version(s.first, ws[..j], ws[i].path);
    assert ws[k] == ws[..j][k];
  }

  /** A save inside its lock that found another version than its base, or is on
      its way out, or out already. */
  ghost predicate Refused(s: State, t: Thread) {
    match PhaseOf(s, t)
    case Idle => true
    case Leaving(_) => true
    case Locked(call, _) =>
      call.Save? && call.base.Some? && call.path in s.repo.disk && Of(s.repo.disk[call.path]) != call.base.value
    case _ => false
  }

  predicate TakenBy(step: Step, t: Thread) {
    match step
    case Watch(_, _, _) => false
    case List => false
    case Purge(_) => false
    case _ => step.t == t
  }

  lemma RefusedStep(s: State, t: Thread, step: Step)
    requires Settled(s) && Shaped(s) && Refused(s, t) && !(step.Start? && step.t == t)
    ensures Refused(Next(s, step), t)
    ensures TakenBy(step, t) ==> Next(s, step).repo == s.repo && Next(s, step).writes == s.writes
  {
    assert Relies(s, t);
    if step.Place? && step.t != t {
      assert Relies(s, step.t);
    }
  }

  lemma RunLonger(start: State, before: seq<Step>, after: seq<Step>)
    requires after != []
    ensures Run(start, before + after) == Next(Run(start, before + after[..|after| - 1]), after[|after| - 1])
  {
    LastApart(before, after);
    RunSnoc(start, before + after[..|after| - 1], after[|after| - 1]);
  }

  lemma RunSnoc(start: State, steps: seq<Step>, step: Step)
    ensures Run(start, steps + [step]) == Next(Run(start, steps), step)
  {
    assert (steps + [step])[..|steps|] == steps;
  }

  lemma {:induction false} StaysRefused(start: State, before: seq<Step>, after: seq<Step>, t: Thread)
    requires Initial(start) && Refused(Run(start, before), t)
    requires forall i :: 0 <= i < |after| ==> !(after[i].Start? && after[i].t == t)
    ensures Refused(Run(start, before + after), t)
  {
    if after == [] {
      assert before + after == before;
    } else {
      var init := after[..|after| - 1];
      StaysRefused(start, before, init, t);
      RunSettled(start, before + init);
      RunLonger(start, before, after);
      RefusedStep(Run(start, before + init), t, after[|after| - 1]);
    }
  }

  /** A conflicting save changes no file, no commit and no index entry: from the
      moment it finds the conflict until its thread starts another call, whatever
      the other threads do meanwhile, none of its own steps changes the
      repository or writes. */
  lemma ConflictChangesNothing(start: State, before: seq<Step>, after: seq<Step>, t: Thread, step: Step)
    requires Initial(start) && Refused(Run(start, before), t)
    requires forall i :: 0 <= i < |after| ==> !(after[i].Start? && after[i].t == t)
    requires TakenBy(step, t) && !step.Start?
    ensures Refused(Run(start, before + after), t)
    ensures var s := Run(start, before + after);
            Next(s, step).repo == s.repo && Next(s, step).writes == s.writes
  {
    StaysRefused(start, before, after, t);
    RunSettled(start, before + after);
    RefusedStep(Run(start, before + after), t, step);
  }

  // -------------------------------------------------- what was sent is placed

  /** A save is about to place the text it was sent, a delete nothing; what was
      placed stands until it is committed. */
  ghost predicate Faithful(s: State, t: Thread) {
    match PhaseOf(s, t)
    case Idle => true
    case Leaving(_) => true
    case phase =>
      && (phase.call.Save? ==> phase.content == Some(phase.call.text))
      && (phase.call.Delete? ==> phase.content == None)
      && (phase.Placed? ==> ContentOf(s.repo.disk, phase.call.path) == phase.content)
  }

  lemma OwnStepFaithful(s: State, step: Step, t: Thread)
    requires Faithful(s, t) && TakenBy(step, t)
    ensures Faithful(Next(s, step), t)
  {
  }

  lemma OtherStepFaithful(s: State, step: Step, t: Thread)
    requires Settled(s) && Faithful(s, t) && !TakenBy(step, t)
    ensures Faithful(Next(s, step), t)
  {
    assert Relies(s, t);
    assert PhaseOf(Next(s, step), t) == PhaseOf(s, t);
    if step.Place? {
      assert Relies(s, step.t);
    } else {
      assert Next(s, step).repo.disk == s.repo.disk;
    }
  }

  lemma NextFaithful(s: State, step: Step, t: Thread)
    requires Settled(s) && Faithful(s, t)
    ensures Faithful(Next(s, step), t)
  {
    if TakenBy(step, t) {
      OwnStepFaithful(s, step, t);
    } else {
      OtherStepFaithful(s, step, t);
    }
  }

  lemma {:induction false} RunFaithful(start: State, steps: seq<Step>, t: Thread)
    requires Initial(start)
    ensures Faithful(Run(start, steps), t)
  {
    if steps == [] {
    } else {
      RunFaithful(start, steps[..|steps| - 1], t);
      RunSettled(start, steps[..|steps| - 1]);
      NextFaithful(Run(start, steps[..|steps| - 1]), steps[|steps| - 1], t);
    }
  }

  /** Over every interleaving, the very text that a save was sent is what its step
      writes at its path and nowhere else, what still stands there when it comes to
      record it, and what HEAD holds once it has. */
  lemma SaveLands(start: State, steps: seq<Step>, t: Thread, actor: string, now: int)
    requires Initial(start)
    requires var phase := PhaseOf(Run(start, steps), t);
             (phase.Cleared? || phase.Placed?) && phase.call.Save?
    ensures var s := Run(start, steps);
            var (p, text) := (PhaseOf(s, t).call.path, PhaseOf(s, t).call.text);
            var r := if PhaseOf(s, t).Cleared? then Next(s, Place(t)) else Next(s, Step.Commit(t, actor, now));
            && r.repo.disk == s.repo.disk[p := text]
            && (PhaseOf(s, t).Placed? ==> ContentOf(Head(r.repo.log), p) == Some(text))
  {
    RunFaithful(start, steps, t);
    var s := Run(start, steps);
    var p := PhaseOf(s, t).call.path;
    assert Faithful(s, t);
    if PhaseOf(s, t).Placed? {
      RecordSettles(s.repo, Author(actor), p, "save", "", now);
      assert s.repo.disk == s.repo.disk[p := s.repo.disk[p]];
    }
  }

  /** A restore is about to place, or has placed, what its revision holds. */
  ghost predicate Sourced(s: State, t: Thread) {
    match PhaseOf(s, t)
    case Idle => true
    case Leaving(_) => true
    case phase =>
      phase.call.Restore? ==>
        phase.content.Some? && FileAt(s.repo.log, phase.call.path, phase.call.rev) == phase.content
  }

  lemma LogGrows(s: State, step: Step)
    ensures s.repo.log <= Next(s, step).repo.log
  {
  }

  lemma OwnStepSourced(s: State, step: Step, t: Thread)
    requires Sourced(s, t) && TakenBy(step, t) && (step.Snapshot? || step.Commit?)
    ensures Sourced(Next(s, step), t)
  {
    LogGrows(s, step);
    StaysSourced(s, Next(s, step), t);
  }

  /** What a thread has read it can still read from the longer log. */
  lemma StaysSourced(s: State, r: State, t: Thread)
    requires Sourced(s, t) && s.repo.log <= r.repo.log
    ensures Sourced(r.(phases := s.phases), t)
  {
    var phase := PhaseOf(s, t);
    if !phase.Idle? && !phase.Leaving? && phase.call.Restore? {
      FileAtLonger(s.repo.log, r.repo.log, phase.call.path, phase.call.rev);
    }
  }

  lemma OtherStepSourced(s: State, step: Step, t: Thread)
    requires Sourced(s, t) && !TakenBy(step, t)
    ensures Sourced(Next(s, step), t)
  {
    LogGrows(s, step);
    StaysSourced(s, Next(s, step), t);
    assert PhaseOf(Next(s, step), t) == PhaseOf(s, t);
  }

  lemma NextSourced(s: State, step: Step, t: Thread)
    requires Sourced(s, t)
    ensures Sourced(Next(s, step), t)
  {
    if !TakenBy(step, t) {
      OtherStepSourced(s, step, t);
    } else if step.Snapshot? || step.Commit? {
      OwnStepSourced(s, step, t);
    }
  }

  lemma {:induction false} RunSourced(start: State, steps: seq<Step>, t: Thread)
    requires Initial(start)
    ensures Sourced(Run(start, steps), t)
  {
    if steps == [] {
    } else {
      RunSourced(start, steps[..|steps| - 1], t);
      NextSourced(Run(start, steps[..|steps| - 1]), steps[|steps| - 1], t);
    }
  }

  /** Over every interleaving, what the revision holds is what a restore writes at
      its path and nowhere else, and a delete takes its file away; so it stands until
      it is recorded, and HEAD holds it, or no longer holds it, then. */
  lemma RestoreAndDeleteLand(start: State, steps: seq<Step>, t: Thread, actor: string, now: int)
    requires Initial(start)
    requires var phase := PhaseOf(Run(start, steps), t);
             (phase.Cleared? || phase.Placed?) && !phase.call.Save?
    ensures var s := Run(start, steps);
            var (call, p) := (PhaseOf(s, t).call, PhaseOf(s, t).call.path);
            var due := if call.Restore? then FileAt(s.repo.log, p, call.rev) else None;
            var r := if PhaseOf(s, t).Cleared? then Next(s, Place(t)) else Next(s, Step.Commit(t, actor, now));
            && (call.Restore? ==> due.Some?)
            && r.repo.disk == With(s.repo.disk, p, due)
            && (PhaseOf(s, t).Placed? ==> ContentOf(Head(r.repo.log), p) == due)
  {
    RunFaithful(start, steps, t);
    RunSourced(start, steps, t);
    var s := Run(start, steps);
    assert Faithful(s, t) && Sourced(s, t);
    if PhaseOf(s, t).Placed? {
      CommitHolds(s, t, actor, now);
    }
  }

  lemma CommitHolds(s: State, t: Thread, actor: string, now: int)
    requires PhaseOf(s, t).Placed?
    ensures var r, p := Next(s, Step.Commit(t, actor, now)).repo, PhaseOf(s, t).call.path;
            r.disk == s.repo.disk == With(s.repo.disk, p, ContentOf(s.repo.disk, p))
                && ContentOf(Head(r.log), p) == ContentOf(s.repo.disk, p)
  {
    var p := PhaseOf(s, t).call.path;
    RecordSettles(s.repo, Author(actor), p, Action(PhaseOf(s, t).call), Detail(PhaseOf(s, t).call), now);
  }

  // --------------------------------------------- the steps and the whole call

  /** One call from start to release with nothing in between; a step that does
      not apply is skipped. */
  function Alone(s: State, t: Thread, call: Call, actor: string, now: int): State {
    var s1 := Next(s, Start(t, call));
    var s2 := Next(s1, Acquire(t));
    var s3 := Next(s2, Check(t));
    var s4 := Next(s3, Snapshot(t, now));
    var s5 := Next(s4, Place(t));
    var s6 := Next(s5, Step.Commit(t, actor, now));
    Next(s6, Release(t))
  }

  lemma Enters(s: State, t: Thread, call: Call, content: Option<string>)
    requires PhaseOf(s, t).Idle? && call.path !in s.locks
    requires Entered(s, t, call) == Moved(s, t, Waiting(call, content))
    ensures Next(Next(s, Start(t, call)), Acquire(t))
         == Moved(s.(locks := s.locks[call.path := t]), t, Locked(call, content))
  {
  }

  /** Where the three last steps leave the repository of a call that may write. */
  function Effect(repo: Repo, call: Call, content: Option<string>, actor: string, now: int): Repo {
    Recorded(repo.(disk := With(repo.disk, call.path, content)), Author(actor), call.path, Action(call),
        Detail(call), now)
  }

  lemma Finishes(s: State, t: Thread, call: Call, content: Option<string>, actor: string, now: int)
    requires PhaseOf(s, t) == Cleared(call, content)
    ensures var r := Next(Next(Next(s, Place(t)), Step.Commit(t, actor, now)), Release(t));
            r.repo == Effect(s.repo, call, content, actor, now) && PhaseOf(r, t).Idle?
                && r.locks == s.locks - {call.path}
  {
  }

  lemma Leaves(s: State, t: Thread, call: Call, actor: string, now: int)
    requires PhaseOf(s, t) == Leaving(call)
    ensures var r := Next(Next(Next(Next(s, Snapshot(t, now)), Place(t)), Step.Commit(t, actor, now)), Release(t));
            r.repo == s.repo && PhaseOf(r, t).Idle? && r.locks == s.locks - {call.path}
  {
  }

  /** What a call decides and does between its lock and its release, on the
      repository alone. */
  function Decided(repo: Repo, call: Call, content: Option<string>, actor: string, now: int): Repo {
    var p := call.path;
    var current := ContentOf(repo.disk, p);
    match call
    case Save(_, _, base) =>
      if base.Some? && current.Some? && Of(current.value) != base.value then repo
      else Effect(repo, call, content, actor, now)
    case Delete(_) => if current.None? then repo else Effect(repo, call, content, actor, now)
    case Restore(_, _) =>
      if current.None? then Effect(repo, call, content, actor, now)
      else if current == content then repo
      else Effect(Recorded(repo, ACTOR_EXTERNAL, p, "save", "", now), call, content, actor, now)
  }

  lemma AloneDecides(s: State, t: Thread, call: Call, content: Option<string>, actor: string, now: int)
    requires PhaseOf(s, t).Idle? && call.path !in s.locks
    requires Entered(s, t, call) == Moved(s, t, Waiting(call, content))
    ensures var r := Alone(s, t, call, actor, now);
            r.repo == Decided(s.repo, call, content, actor, now) && PhaseOf(r, t).Idle? && r.locks == s.locks
  {
    Enters(s, t, call, content);
    var locked := Moved(s.(locks := s.locks[call.path := t]), t, Locked(call, content));
    var checked := Checked(locked, t, call, content);
    assert Next(locked, Check(t)) == checked;
    assert checked.locks - {call.path} == s.locks;
    ChecksAsDecided(locked, t, call, content);
    Ends(checked, t, call, content, actor, now);
  }

  lemma ChecksAsDecided(s: State, t: Thread, call: Call, content: Option<string>)
    ensures var r, current := Checked(s, t, call, content), ContentOf(s.repo.disk, call.path);
            && r.repo == s.repo && r.locks == s.locks
            && PhaseOf(r, t) == match call
                                case Save(_, _, base) =>
                                  if base.Some? && current.Some? && Of(current.value) != base.value then Leaving(call)
                                  else Cleared(call, content)
                                case Delete(_) => if current.None? then Leaving(call) else Cleared(call, content)
                                case Restore(_, _) =>
                                  if current.None? then Cleared(call, content)
                                  else if current == content then Leaving(call)
                                  else Snapshotting(call, content)
  {
  }

  lemma Ends(s: State, t: Thread, call: Call, content: Option<string>, actor: string, now: int)
    requires var phase := PhaseOf(s, t);
             phase == Leaving(call) || phase == Cleared(call, content) || phase == Snapshotting(call, content)
    ensures var r := Next(Next(Next(Next(s, Snapshot(t, now)), Place(t)), Step.Commit(t, actor, now)), Release(t));
            && PhaseOf(r, t).Idle? && r.locks == s.locks - {call.path}
            && r.repo == match PhaseOf(s, t)
                         case Leaving(_) => s.repo
                         case Cleared(_, _) => Effect(s.repo, call, content, actor, now)
                         case _ => Effect(Recorded(s.repo, ACTOR_EXTERNAL, call.path, "save", "", now), call, content,
                                          actor, now)
  {
    if PhaseOf(s, t).Leaving? {
      Leaves(s, t, call, actor, now);
    } else {
      Finishes(Next(s, Snapshot(t, now)), t, call, content, actor, now);
    }
  }

  /** Taken without a pause, the steps of a save do what SaveNote does. */
  lemma AloneSave(s: State, t: Thread, rules: Rules, actor: string, path: string, content: string,
      base: Option<Digest>, stamp: string, now: int)
    requires PhaseOf(s, t).Idle? && path !in s.locks && path != "" && Paths.Normalize(path) == path
    ensures var r := Alone(s, t, Save(path, Stamped(rules, actor, content, stamp), base), actor, now);
            && r.repo == Saved(Vault(s.repo, Managed), rules, actor, path, content, base, stamp, now).0.repo
            && PhaseOf(r, t).Idle? && r.locks == s.locks
  {
    var text := Stamped(rules, actor, content, stamp);
    AloneDecides(s, t, Save(path, text, base), Some(text), actor, now);
  }

  /** The steps of a save, taken without a pause, leave the text that was sent on
      disk and in HEAD, carried on under its stamp where it is attributed. */
  lemma AloneSaveLands(s: State, t: Thread, rules: Rules, actor: string, path: string, content: string,
                       base: Option<Digest>, stamp: string, now: int)
    requires PhaseOf(s, t).Idle? && path !in s.locks && path != "" && Paths.Normalize(path) == path
    requires base.Some? && path in s.repo.disk ==> Of(s.repo.disk[path]) == base.value
    ensures var r := Alone(s, t, Save(path, Stamped(rules, actor, content, stamp), base), actor, now).repo;
            && path in r.disk && r.disk == s.repo.disk[path := r.disk[path]]
            && (if rules.trackAuthorship && actor != "" && actor != "external" then
                  && FM.CarriesOn(content, r.disk[path], SaveFields(stamp, actor), rules.yaml)
                  && FM.SaysAll(r.disk[path], SaveFields(stamp, actor))
                else r.disk[path] == content)
            && ContentOf(Head(r.log), path) == Some(r.disk[path])
  {
    AloneSave(s, t, rules, actor, path, content, base, stamp, now);
    SavedText(Vault(s.repo, Managed), rules, actor, path, content, base, stamp, now);
  }

  lemma AloneDelete(s: State, t: Thread, actor: string, path: string, now: int)
    requires PhaseOf(s, t).Idle? && path !in s.locks && path != "" && Paths.Normalize(path) == path
    ensures var r := Alone(s, t, Delete(path), actor, now);
            && r.repo == Deleted(Vault(s.repo, Managed), actor, path, now).0.repo
            && PhaseOf(r, t).Idle? && r.locks == s.locks
  {
    AloneDecides(s, t, Delete(path), None, actor, now);
  }

  lemma AloneRestore(s: State, t: Thread, actor: string, path: string, rev: string, now: int)
    requires PhaseOf(s, t).Idle? && path !in s.locks && path != "" && Paths.Normalize(path) == path
    ensures var r := Alone(s, t, Restore(path, rev), actor, now);
            && r.repo == Restored(Vault(s.repo, Managed), actor, path, rev, now).0.repo
            && PhaseOf(r, t).Idle? && r.locks == s.locks
  {
    var content := FileAt(s.repo.log, path, rev);
    if content.Some? {
      AloneDecides(s, t, Restore(path, rev), content, actor, now);
      assert Recorded(s.repo, ACTOR_EXTERNAL, path, "save", "", now).disk == s.repo.disk;
    } else {
      assert Entered(s, t, Restore(path, rev)) == s;
    }
  }
}
