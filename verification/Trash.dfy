/** packages/history/trash.go: the operations on the trash index over whole runs,
    and the log scan it refines. */
module Trash {
  import opened Wrappers
  import opened Text
  import opened Slices
  import opened Repository

  // --------------------------------------------------------- record keeps it

  lemma NewDeletion(s: Repo, actor: string, path: string, action: string, detail: string, now: int)
    requires Differs(s, path) && path !in s.disk
    ensures IsDeletion(Recorded(s, actor, path, action, detail, now).log, path, |s.log|)
  {
  }

  /** A path that was just committed as present is no deletion. */
  lemma NoDeletion(log: seq<Commit>, c: Commit, p: string)
    requires p in c.tree
    ensures forall d :: !IsDeletion(log + [c], p, d)
  {
    assert (log + [c])[|log|] == c;
  }

  lemma DescribesOn(log: seq<Commit>, c: Commit, e: Entry)
    requires Describes(log, e)
    requires e.path in c.tree <==> e.path in Head(log)
    ensures Describes(log + [c], e)
  {
    var d: nat :| DescribedBy(log, e, d);
    OtherDeletions(log, c, e.path, d);
    assert DescribedBy(log + [c], e, d);
  }

  lemma RecordSound(s: Repo, actor: string, path: string, action: string, detail: string, now: int)
    requires Sound(s.log, Entries(s))
    ensures var r := Recorded(s, actor, path, action, detail, now);
            Sound(r.log, Entries(r))
  {
    if Differs(s, path) {
      var r := Recorded(s, actor, path, action, detail, now);
      var c := NewCommit(s, actor, path, action, detail, now);
      var kept := Filter(NotPath(path), Entries(s));
      FilterNotPath(Entries(s), path);
      forall i | 0 <= i < |Entries(r)| ensures Describes(r.log, Entries(r)[i]) {
        if i < |kept| {
          assert Entries(r)[i] == kept[i];
          assert kept[i] in Entries(s);
          DescribesOn(s.log, c, kept[i]);
        } else {
          NewDeletion(s, actor, path, action, detail, now);
          assert DescribedBy(r.log, Entries(r)[i], |s.log|);
        }
      }
    }
  }

  lemma RecordComplete(s: Repo, actor: string, path: string, action: string, detail: string, now: int)
    requires UniquePaths(Entries(s)) && Complete(s.log, Entries(s))
    ensures var r := Recorded(s, actor, path, action, detail, now);
            Complete(r.log, Entries(r))
  {
    if Differs(s, path) {
      var r := Recorded(s, actor, path, action, detail, now);
      var c := NewCommit(s, actor, path, action, detail, now);
      var kept := Filter(NotPath(path), Entries(s));
      FilterNotPath(Entries(s), path);
      forall p, d | IsDeletion(r.log, p, d) ensures Covers(Entries(r), p) {
        if p != path {
          OtherDeletions(s.log, c, p, d);
          assert Covers(kept, p);
          var i :| 0 <= i < |kept| && kept[i].path == p;
          assert Entries(r)[i] == kept[i];
        } else if path in s.disk {
          NoDeletion(s.log, c, path);
        } else {
          assert Entries(r)[|kept|].path == path;
        }
      }
    }
  }

  // ------------------------------------------------------------ other moves

  function AbsentFrom(disk: Tree): Entry -> bool {
    (e: Entry) => e.path !in disk
  }

  /** Deleted: the listing heals the index of files that are back. */
  function Listed(s: Repo): Repo {
    if s.index.None? then s else s.(index := Some(Filter(AbsentFrom(s.disk), s.index.value)))
  }

  function NotAmong(paths: set<string>): Entry -> bool {
    (e: Entry) => e.path !in paths
  }

  /** PurgeDeleted. */
  function Purged(s: Repo, paths: set<string>): Repo {
    if paths == {} then s else s.(index := Some(Filter(NotAmong(paths), Entries(s))))
  }

  /** validTrashEntry. */
  function Restorable(s: Repo): Entry -> bool {
    (e: Entry) => e.path != "" && e.restoreRev != "" && e.path !in s.disk && FileAt(s.log, e.path, e.restoreRev).Some?
  }

  const SCAN_MAX_WALK: nat := 2000

  function Horizon(log: seq<Commit>): nat {
    if |log| > SCAN_MAX_WALK then |log| - SCAN_MAX_WALK else 0
  }

  function ScanEntry(p: string, c: Commit, d: nat): Entry
    requires d > 0
  {
    Entry(p, c.author, c.time, Hash(d - 1), Hash(d))
  }

  /** scanDeleted from commit k - 1 down to lo. */
  function ScanDown(s: Repo, k: nat, lo: nat, seen: set<string>): seq<Entry>
    requires lo <= k <= |s.log|
    decreases k
  {
    if k == lo then []
    else
      var gone := DeleteLabel(s.log[k - 1]);
      if gone.None? || gone.value in seen || gone.value in s.purged then ScanDown(s, k - 1, lo, seen)
      else
        var rest := ScanDown(s, k - 1, lo, seen + {gone.value});
        if gone.value in s.disk || k == 1 then rest
        else [ScanEntry(gone.value, s.log[k - 1], k - 1)] + rest
  }

  function Scan(s: Repo): seq<Entry> {
    ScanDown(s, |s.log|, Horizon(s.log), {})
  }

  /** initTrashIndex: migrate when there is no index file, validate otherwise. */
  function Reopened(s: Repo): Repo {
    s.(index := Some(if s.index.None? then Scan(s) else Filter(Restorable(s), s.index.value)))
  }

  /** Any filter keeps the index sound. */
  lemma FilterSound(log: seq<Commit>, entries: seq<Entry>, keep: Entry -> bool)
    requires Sound(log, entries)
    ensures Sound(log, Filter(keep, entries))
  {
    UniqueFilter(keep, entries);
    FilterMembers(keep, entries);
    var kept := Filter(keep, entries);
    forall i | 0 <= i < |kept| ensures Describes(log, kept[i]) {
      assert kept[i] in kept;
      assert kept[i] in entries;
    }
  }

  /** The content of a trash entry is there to restore. */
  lemma DescribedIsRestorable(log: seq<Commit>, e: Entry)
    requires Describes(log, e)
    ensures FileAt(log, e.path, e.restoreRev).Some? && e.restoreRev != ""
    ensures e.path !in Head(log)
  {
    var d: nat :| DescribedBy(log, e, d);
    FindHash(|log|, d - 1);
    assert e.path !in log[|log| - 1].tree;
  }

  /** What a listing, a purge and a re-open leave of the index: the entries whose
      file is not back; those not named; those whose file is not back and whose
      content is still there to restore. Nothing else changes. */
  lemma LeavesExactly(s: Repo, paths: set<string>, e: Entry)
    ensures e in Entries(Listed(s)) <==> e in Entries(s) && e.path !in s.disk
    ensures e in Entries(Purged(s, paths)) <==> e in Entries(s) && e.path !in paths
    ensures s.index.Some? ==>
              (e in Entries(Reopened(s)) <==>
               && e in Entries(s) && e.path != "" && e.restoreRev != "" && e.path !in s.disk
               && FileAt(s.log, e.path, e.restoreRev).Some?)
    ensures forall r :: r in {Listed(s), Purged(s, paths), Reopened(s)} ==>
              r.disk == s.disk && r.log == s.log && r.purged == s.purged
  {
    FilterMembers(AbsentFrom(s.disk), Entries(s));
    FilterMembers(NotAmong(paths), Entries(s));
    FilterMembers(Restorable(s), Entries(s));
  }

  /** A fresh repository has committed what is on disk and lists nothing. */
  lemma FreshAgrees(disk: Tree, now: int)
    ensures var s := Fresh(disk, now);
            s.disk == disk && Head(s.log) == disk && Entries(s) == [] && s.index.Some?
  {
  }

  // -------------------------------------------------------------------- runs

  datatype Op =
    | Edit(path: string, content: Option<string>)
    | Record(actor: string, path: string, action: string, detail: string, now: int)
    | List
    | Purge(paths: set<string>)
    | Reopen

  function Apply(s: Repo, op: Op): Repo {
    match op
    case Edit(path, None) => s.(disk := s.disk - {path})
    case Edit(path, Some(content)) => s.(disk := s.disk[path := content])
    case Record(actor, path, action, detail, now) => Recorded(s, actor, path, action, detail, now)
    case List => Listed(s)
    case Purge(paths) => Purged(s, paths)
    case Reopen => Reopened(s)
  }

  /** Open on a directory without a repository: one snapshot commit when there is
      anything to commit, and an empty index. */
  function Fresh(disk: Tree, now: int): Repo {
    Repo(disk, if disk == map[] then [] else [Commit(disk, "init: vault snapshot", "local", now)], Some([]), {})
  }

  function Run(start: Repo, ops: seq<Op>): Repo {
    if ops == [] then start else Apply(Run(start, ops[..|ops| - 1]), ops[|ops| - 1])
  }

  lemma ApplySound(s: Repo, op: Op)
    requires s.index.Some? && Sound(s.log, Entries(s))
    ensures Apply(s, op).index.Some? && Sound(Apply(s, op).log, Entries(Apply(s, op)))
  {
    match op
    case Edit(_, _) =>
    case Record(actor, path, action, detail, now) => RecordSound(s, actor, path, action, detail, now);
    case List => FilterSound(s.log, Entries(s), AbsentFrom(s.disk));
    case Purge(paths) => FilterSound(s.log, Entries(s), NotAmong(paths));
    case Reopen => FilterSound(s.log, Entries(s), Restorable(s));
  }

  /** After any run of recordings, outside edits, listings, purges and re-opens,
      every trash entry is the one last deletion of its path: absent from HEAD,
      listed once, its content reachable at restoreRev. */
  lemma {:induction false} TrashSound(disk: Tree, now: int, ops: seq<Op>)
    ensures var s := Run(Fresh(disk, now), ops);
            s.index.Some? && Sound(s.log, Entries(s))
  {
    if ops == [] {
    } else {
      TrashSound(disk, now, ops[..|ops| - 1]);
      ApplySound(Run(Fresh(disk, now), ops[..|ops| - 1]), ops[|ops| - 1]);
    }
  }

  /** Nothing that is gone from HEAD is back on disk unrecorded. */
  predicate Quiet(s: Repo) {
    forall p :: p in s.disk ==> p in Head(s.log)
  }

  /** No file has an empty name. */
  predicate Named(s: Repo) {
    "" !in s.disk && forall i :: 0 <= i < |s.log| ==> "" !in s.log[i].tree
  }

  /** Runs that never drop an entry on purpose: no purge, and the index is listed
      and re-opened only when no deleted file is back on disk. */
  ghost predicate Undisturbed(start: Repo, ops: seq<Op>) {
    ops == [] ||
    (var init, op := ops[..|ops| - 1], ops[|ops| - 1];
     && Undisturbed(start, init)
     && !op.Purge?
     && (op.Edit? ==> op.path != "")
     && (op.List? || op.Reopen? ==> Quiet(Run(start, init))))
  }

  ghost predicate Exact(s: Repo) {
    s.index.Some? && Named(s) && Sound(s.log, Entries(s)) && Complete(s.log, Entries(s))
  }

  /** A quiet re-open or listing drops nothing. */
  lemma QuietKeepsAll(s: Repo)
    requires Exact(s) && Quiet(s)
    ensures Filter(AbsentFrom(s.disk), Entries(s)) == Entries(s)
    ensures Filter(Restorable(s), Entries(s)) == Entries(s)
  {
    forall e | e in Entries(s) ensures Restorable(s)(e) {
      var i :| 0 <= i < |Entries(s)| && Entries(s)[i] == e;
      DescribedIsRestorable(s.log, e);
      NamedEntry(s, e);
    }
    FilterAll(AbsentFrom(s.disk), Entries(s));
    FilterAll(Restorable(s), Entries(s));
  }

  lemma NamedEntry(s: Repo, e: Entry)
    requires Named(s) && Describes(s.log, e)
    ensures e.path != ""
  {
    var d: nat :| DescribedBy(s.log, e, d);
    assert e.path in s.log[d - 1].tree;
  }

  lemma ApplyExact(s: Repo, op: Op)
    requires Exact(s) && !op.Purge? && (op.Edit? ==> op.path != "") && (op.List? || op.Reopen? ==> Quiet(s))
    ensures Exact(Apply(s, op))
  {
    ApplySound(s, op);
    match op
    case Edit(_, _) =>
    case Record(actor, path, action, detail, now) =>
      RecordComplete(s, actor, path, action, detail, now);
      assert Named(Apply(s, op)) by { RecordNamed(s, actor, path, action, detail, now); }
    case List => QuietKeepsAll(s);
    case Reopen => QuietKeepsAll(s);
  }

  lemma RecordNamed(s: Repo, actor: string, path: string, action: string, detail: string, now: int)
    requires Named(s)
    ensures Named(Recorded(s, actor, path, action, detail, now))
  {
    var c := NewCommit(s, actor, path, action, detail, now);
    assert "" !in Head(s.log);
    assert "" !in c.tree;
  }

  lemma FreshExact(disk: Tree, now: int)
    requires "" !in disk
    ensures Exact(Fresh(disk, now))
  {
  }

  /** In such a run the index holds exactly the last deletions: for every path
      and pair of revisions, an entry is there if and only if that commit took
      the path away and it has not come back. */
  lemma {:induction false} TrashExact(disk: Tree, now: int, ops: seq<Op>)
    requires "" !in disk && Undisturbed(Fresh(disk, now), ops)
    ensures Exact(Run(Fresh(disk, now), ops))
  {
    if ops == [] {
      FreshExact(disk, now);
    } else {
      TrashExact(disk, now, ops[..|ops| - 1]);
      ApplyExact(Run(Fresh(disk, now), ops[..|ops| - 1]), ops[|ops| - 1]);
    }
  }

  // ------------------------------------------------- the index and the scan

  /** The entries list this deletion of the path. */
  ghost predicate Lists(entries: seq<Entry>, p: string, restoreRev: string, deleteRev: string) {
    exists i :: 0 <= i < |entries| && entries[i].path == p && entries[i].restoreRev == restoreRev
        && entries[i].deleteRev == deleteRev
  }

  /** A sound and complete index lists the last deletions and nothing else. */
  lemma ExactLists(log: seq<Commit>, entries: seq<Entry>, p: string, restoreRev: string, deleteRev: string)
    requires Sound(log, entries) && Complete(log, entries)
    ensures Lists(entries, p, restoreRev, deleteRev)
       <==> exists d: nat :: IsDeletion(log, p, d) && restoreRev == Hash(d - 1) && deleteRev == Hash(d)
  {
    if Lists(entries, p, restoreRev, deleteRev) {
      var i :| 0 <= i < |entries| && entries[i].path == p && entries[i].restoreRev == restoreRev
          && entries[i].deleteRev == deleteRev;
      var d: nat :| DescribedBy(log, entries[i], d);
      assert IsDeletion(log, p, d);
    }
    if d: nat :| IsDeletion(log, p, d) && restoreRev == Hash(d - 1) && deleteRev == Hash(d) {
      var i :| 0 <= i < |entries| && entries[i].path == p;
      var d': nat :| DescribedBy(log, entries[i], d');
      DeletionUnique(log, p, d);
      assert d' == d;
    }
  }

  /** Commit d is the newest below k that says it deletes the path. */
  ghost predicate NewestLabel(log: seq<Commit>, p: string, d: nat, k: nat)
    requires k <= |log|
  {
    d < k && DeleteLabel(log[d]) == Some(p) && forall j :: d < j < k ==> DeleteLabel(log[j]) != Some(p)
  }

  ghost predicate ScanFinds(s: Repo, k: nat, lo: nat, seen: set<string>, e: Entry, d: nat)
    requires lo <= k <= |s.log|
  {
    && lo <= d && d > 0
    && NewestLabel(s.log, e.path, d, k)
    && e.path !in seen && e.path !in s.purged && e.path !in s.disk
    && e == ScanEntry(e.path, s.log[d], d)
  }

  ghost predicate FindsSome(s: Repo, k: nat, lo: nat, seen: set<string>, e: Entry)
    requires lo <= k <= |s.log|
  {
    exists d: nat :: ScanFinds(s, k, lo, seen, e, d)
  }

  /** What the walk returns: for each path not purged and not on disk, its newest
      delete commit within the walk. */
  lemma {:induction false} ScanDownFinds(s: Repo, k: nat, lo: nat, seen: set<string>, e: Entry)
    requires lo <= k <= |s.log|
    ensures e in ScanDown(s, k, lo, seen) <==> FindsSome(s, k, lo, seen, e)
    decreases k
  {
    if k > lo {
      var gone := DeleteLabel(s.log[k - 1]);
      if gone.None? || gone.value in seen || gone.value in s.purged {
        ScanDownFinds(s, k - 1, lo, seen, e);
        SkipFinds(s, k, lo, seen, e);
      } else {
        ScanDownFinds(s, k - 1, lo, seen + {gone.value}, e);
        TakeFinds(s, k, lo, seen, e, ScanDown(s, k - 1, lo, seen + {gone.value}));
      }
    }
  }

  lemma TakeFinds(s: Repo, k: nat, lo: nat, seen: set<string>, e: Entry, rest: seq<Entry>)
    requires lo < k <= |s.log| && DeleteLabel(s.log[k - 1]).Some?
    requires var p := DeleteLabel(s.log[k - 1]).value;
             && p !in seen && p !in s.purged
             && (e in rest <==> FindsSome(s, k - 1, lo, seen + {p}, e))
    ensures var p := DeleteLabel(s.log[k - 1]).value;
            FindsSome(s, k, lo, seen, e)
            <==> e in if p in s.disk || k == 1 then rest else [ScanEntry(p, s.log[k - 1], k - 1)] + rest
  {
    var p := DeleteLabel(s.log[k - 1]).value;
    forall d: nat
      ensures ScanFinds(s, k, lo, seen, e, d) <==>
              ScanFinds(s, k - 1, lo, seen + {p}, e, d)
              || (d == k - 1 && d > 0 && p !in s.disk && e == ScanEntry(p, s.log[d], d))
    {
      TakeCommit(s, k, lo, seen, e, d);
    }
    if k > 1 {
      assert p !in s.disk && e == ScanEntry(p, s.log[k - 1], k - 1) ==> ScanFinds(s, k, lo, seen, e, k - 1);
    }
  }

  lemma SkipFinds(s: Repo, k: nat, lo: nat, seen: set<string>, e: Entry)
    requires lo < k <= |s.log|
    requires DeleteLabel(s.log[k - 1]).None? || DeleteLabel(s.log[k - 1]).value in seen
             || DeleteLabel(s.log[k - 1]).value in s.purged
    ensures FindsSome(s, k, lo, seen, e) <==> FindsSome(s, k - 1, lo, seen, e)
  {
    if FindsSome(s, k, lo, seen, e) {
      var d: nat :| ScanFinds(s, k, lo, seen, e, d);
      assert ScanFinds(s, k - 1, lo, seen, e, d);
    }
    if FindsSome(s, k - 1, lo, seen, e) {
      var d: nat :| ScanFinds(s, k - 1, lo, seen, e, d);
      assert ScanFinds(s, k, lo, seen, e, d);
    }
  }

  lemma TakeCommit(s: Repo, k: nat, lo: nat, seen: set<string>, e: Entry, d: nat)
    requires lo < k <= |s.log| && DeleteLabel(s.log[k - 1]).Some?
    requires DeleteLabel(s.log[k - 1]).value !in seen && DeleteLabel(s.log[k - 1]).value !in s.purged
    ensures var p := DeleteLabel(s.log[k - 1]).value;
            ScanFinds(s, k, lo, seen, e, d) <==>
            ScanFinds(s, k - 1, lo, seen + {p}, e, d)
            || (d == k - 1 && d > 0 && p !in s.disk && e == ScanEntry(p, s.log[d], d))
  {
  }

  ghost predicate Removes(log: seq<Commit>, d: nat, p: string) {
    1 <= d < |log| && p in log[d - 1].tree && p !in log[d].tree
  }

  /** A commit is labelled `delete: p` exactly when it removes p. */
  ghost predicate Labelled(log: seq<Commit>) {
    forall d: nat, p: string :: d < |log| ==> (DeleteLabel(log[d]) == Some(p) <==> Removes(log, d, p))
  }

  /** The same paths on disk and in HEAD. */
  predicate DiskAgrees(s: Repo) {
    s.disk.Keys == Head(s.log).Keys
  }

  /** Absent at the end and not removed since, a path was absent all along. */
  lemma {:induction false} AbsentSince(log: seq<Commit>, p: string, d: nat, j: nat)
    requires d <= j < |log| && p !in Head(log)
    requires forall i :: d < i < |log| ==> !Removes(log, i, p)
    ensures p !in log[j].tree
    decreases |log| - j
  {
    if j + 1 < |log| {
      AbsentSince(log, p, d, j + 1);
      assert !Removes(log, j + 1, p);
    }
  }

  /** Under honest labels the newest delete commit of a path that is gone is its
      last deletion. */
  lemma NewestIsDeletion(log: seq<Commit>, p: string, d: nat)
    requires Labelled(log)
    ensures NewestLabel(log, p, d, |log|) && p !in Head(log) <==> IsDeletion(log, p, d)
  {
    if NewestLabel(log, p, d, |log|) && p !in Head(log) {
      assert Removes(log, d, p);
      forall i | d < i < |log| ensures !Removes(log, i, p) {
        assert DeleteLabel(log[i]) != Some(p);
      }
      forall j | d <= j < |log| ensures p !in log[j].tree {
        AbsentSince(log, p, d, j);
      }
    }
    if IsDeletion(log, p, d) {
      assert Removes(log, d, p);
      forall j | d < j < |log| ensures DeleteLabel(log[j]) != Some(p) {
        assert p !in log[j - 1].tree;
        assert !Removes(log, j, p);
      }
    }
  }

  /** The log scan lists exactly the last deletions within its horizon whose path
      was never purged. */
  lemma ScanLists(s: Repo, p: string, restoreRev: string, deleteRev: string)
    requires Labelled(s.log) && DiskAgrees(s)
    ensures Lists(Scan(s), p, restoreRev, deleteRev)
       <==> exists d: nat :: && d >= Horizon(s.log) && IsDeletion(s.log, p, d) && p !in s.purged
                             && restoreRev == Hash(d - 1) && deleteRev == Hash(d)
  {
    var n, lo := |s.log|, Horizon(s.log);
    if Lists(Scan(s), p, restoreRev, deleteRev) {
      var i :| 0 <= i < |Scan(s)| && Scan(s)[i].path == p && Scan(s)[i].restoreRev == restoreRev
          && Scan(s)[i].deleteRev == deleteRev;
      ScanDownFinds(s, n, lo, {}, Scan(s)[i]);
      var d: nat :| ScanFinds(s, n, lo, {}, Scan(s)[i], d);
      NewestIsDeletion(s.log, p, d);
    }
    if d: nat :| && d >= lo && IsDeletion(s.log, p, d) && p !in s.purged
                 && restoreRev == Hash(d - 1) && deleteRev == Hash(d) {
      NewestIsDeletion(s.log, p, d);
      var e := ScanEntry(p, s.log[d], d);
      assert ScanFinds(s, n, lo, {}, e, d);
      ScanDownFinds(s, n, lo, {}, e);
    }
  }

  /** The index refines the scan it replaced: within the horizon and apart from
      purged paths the two list the same deletions, and the index also keeps the
      ones the scan can no longer reach. */
  lemma IndexRefinesScan(s: Repo, p: string, restoreRev: string, deleteRev: string)
    requires Exact(s) && Labelled(s.log) && DiskAgrees(s)
    ensures Lists(Scan(s), p, restoreRev, deleteRev)
       <==> Lists(Entries(s), p, restoreRev, deleteRev) && p !in s.purged
            && exists d: nat :: d >= Horizon(s.log) && deleteRev == Hash(d) && IsDeletion(s.log, p, d)
    ensures |s.log| <= SCAN_MAX_WALK && s.purged == {} ==>
              (Lists(Scan(s), p, restoreRev, deleteRev) <==> Lists(Entries(s), p, restoreRev, deleteRev))
  {
    ScanLists(s, p, restoreRev, deleteRev);
    ExactLists(s.log, Entries(s), p, restoreRev, deleteRev);
    if d: nat :| IsDeletion(s.log, p, d) {
      DeletionUnique(s.log, p, d);
    }
  }

  // ---------------------------------------------------------- honest labels

  /** A recording under one of the program's actions, called delete exactly when
      the file is gone. */
  predicate HonestRecord(s: Repo, op: Op)
    requires op.Record?
  {
    && PlainAction(op.action) && NL !in op.path && NL !in op.detail
    && (op.action == "delete" <==> op.path !in s.disk)
  }

  ghost predicate Honest(start: Repo, ops: seq<Op>) {
    ops == [] ||
    (&& Honest(start, ops[..|ops| - 1])
     && (ops[|ops| - 1].Record? ==> HonestRecord(Run(start, ops[..|ops| - 1]), ops[|ops| - 1])))
  }

  lemma AppendLabelled(log: seq<Commit>, c: Commit)
    requires Labelled(log)
    requires forall p :: DeleteLabel(c) == Some(p) <==> Removes(log + [c], |log|, p)
    ensures Labelled(log + [c])
  {
    var more := log + [c];
    forall d: nat, p: string | d < |more|
      ensures DeleteLabel(more[d]) == Some(p) <==> Removes(more, d, p)
    {
      if d < |log| {
        assert Removes(log, d, p) <==> Removes(more, d, p);
        assert DeleteLabel(log[d]) == Some(p) <==> Removes(log, d, p);
      }
    }
  }

  lemma RecordLabelled(s: Repo, op: Op)
    requires Labelled(s.log) && op.Record? && HonestRecord(s, op)
    ensures Labelled(Apply(s, op).log)
  {
    if Differs(s, op.path) {
      var c := NewCommit(s, op.actor, op.path, op.action, op.detail, op.now);
      LabelRoundTrip(op.action, op.path, op.detail, c);
      AppendLabelled(s.log, c);
    }
  }

  lemma SnapshotLabel()
    ensures DeleteLabel(Commit(map[], "init: vault snapshot", "local", 0)).None?
    ensures forall tree: Tree, now: int :: DeleteLabel(Commit(tree, "init: vault snapshot", "local", now)).None?
  {
    var c := Commit(map[], "init: vault snapshot", "local", 0);
    assert "init: vault snapshot" == Message("init", "vault snapshot", "");
    LabelRoundTrip("init", "vault snapshot", "", c);
  }

  lemma {:induction false} RunLabelled(disk: Tree, now: int, ops: seq<Op>)
    requires Honest(Fresh(disk, now), ops)
    ensures Labelled(Run(Fresh(disk, now), ops).log)
  {
    if ops == [] {
      SnapshotLabel();
    } else {
      RunLabelled(disk, now, ops[..|ops| - 1]);
      if ops[|ops| - 1].Record? {
        RecordLabelled(Run(Fresh(disk, now), ops[..|ops| - 1]), ops[|ops| - 1]);
      }
    }
  }

  lemma {:induction false} RunNeverPurges(disk: Tree, now: int, ops: seq<Op>)
    ensures Run(Fresh(disk, now), ops).purged == {}
  {
    if ops == [] {
    } else {
      RunNeverPurges(disk, now, ops[..|ops| - 1]);
    }
  }

  /** From a fresh repository, over every honest run that purges nothing and is
      listed only when quiet: whenever disk and HEAD hold the same paths, the
      index and the log scan list the same deletions within the scan's horizon,
      and simply the same while the log is no longer than that. */
  lemma RunRefinesScan(disk: Tree, now: int, ops: seq<Op>, p: string, restoreRev: string, deleteRev: string)
    requires "" !in disk && Undisturbed(Fresh(disk, now), ops) && Honest(Fresh(disk, now), ops)
    requires DiskAgrees(Run(Fresh(disk, now), ops))
    ensures var s := Run(Fresh(disk, now), ops);
            && (Lists(Scan(s), p, restoreRev, deleteRev)
                <==> Lists(Entries(s), p, restoreRev, deleteRev)
                     && exists d: nat :: d >= Horizon(s.log) && deleteRev == Hash(d) && IsDeletion(s.log, p, d))
            && (|s.log| <= SCAN_MAX_WALK ==>
                  (Lists(Scan(s), p, restoreRev, deleteRev) <==> Lists(Entries(s), p, restoreRev, deleteRev)))
  {
    TrashExact(disk, now, ops);
    RunLabelled(disk, now, ops);
    RunNeverPurges(disk, now, ops);
    IndexRefinesScan(Run(Fresh(disk, now), ops), p, restoreRev, deleteRev);
  }
}
