/** packages/history: the vault's git repository as an append-only list of
    commits, the trash index Record keeps beside it, and the log scan the index
    replaced. */
module Repository {
  import opened Wrappers
  import opened Text
  import opened Numerals
  import opened Slices

  type Tree = map<string, string>

  datatype Commit = Commit(tree: Tree, message: string, author: string, time: int)

  /** core.DeletedFile. */
  datatype Entry = Entry(path: string, actor: string, time: int, restoreRev: string, deleteRev: string)

  /** The vault directory, the log, the index file (None: there is no file) and
      the legacy list of purged paths. */
  datatype Repo = Repo(disk: Tree, log: seq<Commit>, index: Option<seq<Entry>>, purged: set<string>)

  // ---------------------------------------------------------------- revisions

  const ZERO_HASH: string := "0"

  /** The hash of the i-th commit: distinct commits have distinct hashes. */
  function Hash(i: nat): string {
    "h" + Decimal(i)
  }

  lemma HashInjective(i: nat, j: nat)
    requires Hash(i) == Hash(j)
    ensures i == j
  {
    assert Hash(i)[1..] == Decimal(i) && Hash(j)[1..] == Decimal(j);
    DecimalInjective(i, j);
  }

  /** commitAt: the commit a hash names among the first n. */
  function FindRev(n: nat, rev: string): (r: Option<nat>)
    ensures r.Some? ==> r.value < n && Hash(r.value) == rev
  {
    if n == 0 then None else if Hash(n - 1) == rev then Some(n - 1) else FindRev(n - 1, rev)
  }

  lemma {:induction false} FindHash(n: nat, i: nat)
    requires i < n
    ensures FindRev(n, Hash(i)) == Some(i)
  {
    if Hash(n - 1) == Hash(i) {
      HashInjective(n - 1, i);
    } else {
      FindHash(n - 1, i);
    }
  }

  /** The tree of HEAD; empty before the first commit. */
  function Head(log: seq<Commit>): Tree {
    if log == [] then map[] else log[|log| - 1].tree
  }

  /** FileAt. */
  function FileAt(log: seq<Commit>, path: string, rev: string): Option<string> {
    match FindRev(|log|, rev)
    case None => None
    case Some(i) => if path in log[i].tree then Some(log[i].tree[path]) else None
  }

  /** A hash names its commit: the file is what that commit holds. */
  lemma FileAtCommit(log: seq<Commit>, path: string, d: nat)
    requires d < |log|
    ensures FileAt(log, path, Hash(d)) == if path in log[d].tree then Some(log[d].tree[path]) else None
  {
    FindHash(|log|, d);
  }

  /** And so it stays, however long the log grows. */
  lemma FileAtLonger(log: seq<Commit>, more: seq<Commit>, path: string, rev: string)
    requires log <= more && FileAt(log, path, rev).Some?
    ensures FileAt(more, path, rev) == FileAt(log, path, rev)
  {
    var i := FindRev(|log|, rev).value;
    FindHash(|more|, i);
    assert more[i] == log[i];
  }

  // ----------------------------------------------------------------- messages

  const TRAILER: string := "Restored-From: "

  function Message(action: string, path: string, detail: string): string {
    var line := action + ": " + path;
    if detail == "" then line else line + "\n\n" + TRAILER + detail + "\n"
  }

  function FirstLine(message: string): string {
    Split(message, NL)[0]
  }

  /** The path a commit says it deletes, by its first line. */
  function DeleteLabel(c: Commit): Option<string> {
    var msg := FirstLine(c.message);
    if "delete: " <= msg then Some(TrimPrefix(msg, "delete: ")) else None
  }

  function SourceIn(lines: seq<string>): string {
    if lines == [] then ""
    else if TRAILER <= lines[0] then TrimSpace(TrimPrefix(lines[0], TRAILER))
    else SourceIn(lines[1..])
  }

  /** revisionFrom's source revision. */
  function SourceRev(c: Commit): string {
    SourceIn(Split(c.message, NL))
  }

  /** The actions the program records under: nothing a message could be misread
      by. */
  predicate PlainAction(action: string) {
    NL !in action && ':' !in action
  }

  lemma {:induction false} SourceInAppend(xs: seq<string>, ys: seq<string>)
    requires forall i :: 0 <= i < |xs| ==> !(TRAILER <= xs[i])
    ensures SourceIn(xs + ys) == SourceIn(ys)
  {
    if xs == [] {
      assert xs + ys == ys;
    } else {
      assert (xs + ys)[1..] == xs[1..] + ys;
      SourceInAppend(xs[1..], ys);
    }
  }

  lemma BlankThenLine(last: string)
    requires NL !in last
    ensures Split("\n" + last + "\n", NL) == ["", last, ""]
  {
    SplitCons(last, NL, "");
    assert last + [NL] + "" == last + "\n";
    SplitCons("", NL, last + "\n");
    assert "" + [NL] + (last + "\n") == "\n" + last + "\n";
  }

  lemma TrailerLines(line: string, last: string)
    requires NL !in last
    ensures Split(line + "\n\n" + last + "\n", NL) == Split(line, NL) + ["", last, ""]
  {
    BlankThenLine(last);
    SplitAppend(line, NL, "\n" + last + "\n");
    assert line + "\n\n" + last + "\n" == line + [NL] + ("\n" + last + "\n");
  }

  lemma MessageLines(action: string, path: string, detail: string)
    requires NL !in detail
    ensures var lines := Split(action + ": " + path, NL);
            Split(Message(action, path, detail), NL)
            == if detail == "" then lines else lines + ["", TRAILER + detail, ""]
  {
    if detail != "" {
      var line := action + ": " + path;
      TrailerLines(line, TRAILER + detail);
      assert line + "\n\n" + (TRAILER + detail) + "\n" == line + "\n\n" + TRAILER + detail + "\n";
    }
  }

  /** The trailer carries the source revision, as long as no line of the path
      looks like a trailer itself. */
  lemma SourceRoundTrip(action: string, path: string, detail: string, c: Commit)
    requires c.message == Message(action, path, detail)
    requires NL !in detail && TrimSpace(detail) == detail
    requires forall i :: 0 <= i < |Split(action + ": " + path, NL)| ==> !(TRAILER <= Split(action + ": " + path, NL)[i])
    ensures SourceRev(c) == detail
  {
    MessageLines(action, path, detail);
    var lines := Split(action + ": " + path, NL);
    if detail == "" {
      SourceInAppend(lines, []);
      assert lines + [] == lines;
    } else {
      var tail := ["", TRAILER + detail, ""];
      SourceInAppend(lines, tail);
      assert tail[1..] == [TRAILER + detail, ""];
      assert TrimPrefix(TRAILER + detail, TRAILER) == detail;
    }
  }

  /** A commit is labelled as a delete exactly when that is its action. */
  lemma LabelRoundTrip(action: string, path: string, detail: string, c: Commit)
    requires c.message == Message(action, path, detail)
    requires PlainAction(action) && NL !in path && NL !in detail
    ensures DeleteLabel(c) == if action == "delete" then Some(path) else None
  {
    MessageStarts(action, path, detail);
    LabelText(action, path);
  }

  lemma MessageStarts(action: string, path: string, detail: string)
    requires NL !in action && NL !in path && NL !in detail
    ensures Split(Message(action, path, detail), NL)[0] == action + ": " + path
  {
    MessageLines(action, path, detail);
    var line := action + ": " + path;
    assert NL !in line;
    IndexOfFirst(line, NL);
    assert Split(line, NL) == [line];
  }

  lemma LabelText(action: string, path: string)
    requires ':' !in action
    ensures var line := action + ": " + path;
            && ("delete: " <= line <==> action == "delete")
            && (action == "delete" ==> TrimPrefix(line, "delete: ") == path)
  {
    var line := action + ": " + path;
    PrefixToColon("delete", action, " " + path);
    assert line == action + ":" + (" " + path);
    if action == "delete" {
      assert line == "delete: " + path;
    } else {
      assert "delete: "[..7] == "delete" + ":";
    }
  }

  // ------------------------------------------------------------------- record

  function Entries(s: Repo): seq<Entry> {
    if s.index.None? then [] else s.index.value
  }

  function NotPath(p: string): Entry -> bool {
    (e: Entry) => e.path != p
  }

  /** updateTrashIndex. */
  function UpdatedIndex(entries: seq<Entry>, e: Entry, deleted: bool): seq<Entry> {
    Filter(NotPath(e.path), entries) + if deleted then [e] else []
  }

  /** Something to commit: disk and HEAD differ at the path. */
  predicate Differs(s: Repo, path: string) {
    if path in s.disk then !(path in Head(s.log) && Head(s.log)[path] == s.disk[path])
    else path in Head(s.log)
  }

  function Author(actor: string): string {
    if actor == "" then "local" else actor
  }

  function NewCommit(s: Repo, actor: string, path: string, action: string, detail: string, now: int): Commit {
    var tree := if path in s.disk then Head(s.log)[path := s.disk[path]] else Head(s.log) - {path};
    Commit(tree, Message(action, path, detail), Author(actor), now)
  }

  function ParentHash(log: seq<Commit>): string {
    if log == [] then ZERO_HASH else Hash(|log| - 1)
  }

  /** Record, in managed mode. */
  function Recorded(s: Repo, actor: string, path: string, action: string, detail: string, now: int): Repo {
    if !Differs(s, path) then s
    else
      var entry := Entry(path, actor, now, ParentHash(s.log), Hash(|s.log|));
      s.(log := s.log + [NewCommit(s, actor, path, action, detail, now)],
         index := Some(UpdatedIndex(Entries(s), entry, path !in s.disk)))
  }

  // ---------------------------------------------------- what the trash means

  /** Commit d took the path away, and it has not come back since. */
  ghost predicate IsDeletion(log: seq<Commit>, p: string, d: nat) {
    && 1 <= d < |log|
    && p in log[d - 1].tree
    && forall j :: d <= j < |log| ==> p !in log[j].tree
  }

  /** The entry is about that commit: its revisions, its author, its time. */
  ghost predicate DescribedBy(log: seq<Commit>, e: Entry, d: nat) {
    && IsDeletion(log, e.path, d) && e.restoreRev == Hash(d - 1) && e.deleteRev == Hash(d)
    && Author(e.actor) == log[d].author && e.time == log[d].time
  }

  ghost predicate Describes(log: seq<Commit>, e: Entry) {
    exists d :: DescribedBy(log, e, d)
  }

  predicate UniquePaths(entries: seq<Entry>) {
    forall i, j :: 0 <= i < j < |entries| ==> entries[i].path != entries[j].path
  }

  predicate Covers(entries: seq<Entry>, p: string) {
    exists i :: 0 <= i < |entries| && entries[i].path == p
  }

  /** Each entry is the one last deletion of its path, at most once per path. */
  ghost predicate Sound(log: seq<Commit>, entries: seq<Entry>) {
    && UniquePaths(entries)
    && forall i :: 0 <= i < |entries| ==> Describes(log, entries[i])
  }

  /** And every path that is gone has its entry. */
  ghost predicate Complete(log: seq<Commit>, entries: seq<Entry>) {
    forall p, d :: IsDeletion(log, p, d) ==> Covers(entries, p)
  }

  /** A path has one last deletion at most. */
  lemma DeletionUnique(log: seq<Commit>, p: string, d: nat)
    requires IsDeletion(log, p, d)
    ensures forall d' :: IsDeletion(log, p, d') ==> d' == d
  {
    forall d' | 1 <= d' < |log| && d' != d ensures !IsDeletion(log, p, d') {
      assert d < d' ==> p !in log[d' - 1].tree;
      assert d' < d ==> p in log[d - 1].tree;
    }
  }

  /** A commit that leaves a path alone leaves its deletion as it was. */
  lemma OtherDeletions(log: seq<Commit>, c: Commit, q: string, d: nat)
    requires q in c.tree <==> q in Head(log)
    ensures IsDeletion(log + [c], q, d) <==> IsDeletion(log, q, d)
  {
    var more := log + [c];
    if IsDeletion(log, q, d) {
      assert q !in log[|log| - 1].tree;
    }
    if IsDeletion(more, q, d) {
      assert more[|log|] == c;
      assert more[d - 1] == log[d - 1];
      assert forall j :: d <= j < |log| ==> more[j] == log[j] && q !in more[j].tree;
    }
  }

  lemma {:induction false} FilterNotPath(entries: seq<Entry>, p: string)
    requires UniquePaths(entries)
    ensures var kept := Filter(NotPath(p), entries);
            && UniquePaths(kept)
            && (forall q :: Covers(kept, q) <==> Covers(entries, q) && q != p)
            && (forall i :: 0 <= i < |kept| ==> kept[i] in entries && kept[i].path != p)
  {
    UniqueFilter(NotPath(p), entries);
    FilterMembers(NotPath(p), entries);
    var kept := Filter(NotPath(p), entries);
    assert forall i :: 0 <= i < |kept| ==> kept[i] in kept;
    forall q | Covers(entries, q) && q != p ensures Covers(kept, q) {
      var i :| 0 <= i < |entries| && entries[i].path == q;
      assert entries[i] in kept;
    }
  }

  lemma {:induction false} UniqueFilter(keep: Entry -> bool, entries: seq<Entry>)
    requires UniquePaths(entries)
    ensures UniquePaths(Filter(keep, entries))
  {
    if entries == [] {
    } else {
      var init := entries[..|entries| - 1];
      UniqueFilter(keep, init);
      FilterMembers(keep, init);
      var kept := Filter(keep, init);
      forall i | 0 <= i < |kept| ensures kept[i].path != entries[|entries| - 1].path {
        assert kept[i] in init;
      }
    }
  }
}
