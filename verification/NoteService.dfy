/** packages/core/service.go: the note mutations, one at a time, over the vault
    directory and the history attached to it. What happens when calls interleave
    is the subject of ConcurrentVault. */
module NoteService {
  import opened Wrappers
  import opened Text
  import opened Paths
  import opened Naming
  import opened Numerals
  import opened Slices
  import opened Repository
  import opened Trash
  import opened GitHistory
  import FM = Frontmatter

  const ACTOR_EXTERNAL: string := "external"

  /** HashContent is injective: a digest is the content it was taken of, or some
      other text a client sent. */
  datatype Digest = Of(content: string) | Other(text: string)

  datatype History = Off | Managed | External

  datatype Outcome =
    | Done
    | Conflict(hash: Digest, content: string)
    | NotFound
    | Unchanged
    | HistoryDisabled
    | Failed

  datatype Vault = Vault(repo: Repo, history: History)

  /** What the service is configured with. */
  datatype Rules = Rules(trackAuthorship: bool, autoFrontmatter: bool, yaml: string -> FM.Yaml<string>)

  // ------------------------------------------------------------- operations

  /** recordDetail. */
  function Noted(v: Vault, actor: string, p: string, action: string, detail: string, now: int): Vault {
    if v.history.Managed? then v.(repo := Recorded(v.repo, Author(actor), p, action, detail, now)) else v
  }

  function Written(v: Vault, p: string, content: string): Vault {
    v.(repo := v.repo.(disk := v.repo.disk[p := content]))
  }

  predicate Attributes(rules: Rules, actor: string) {
    rules.trackAuthorship && actor != "" && actor != ACTOR_EXTERNAL
  }

  function Stamped(rules: Rules, actor: string, content: string, stamp: string): string {
    if Attributes(rules, actor)
    then FM.Upsert(content, [FM.Field("updated", stamp), FM.Field("updated_by", actor)], rules.yaml)
    else content
  }

  /** SaveNote; the empty path is the vault directory itself, which cannot be
      written. */
  function Saved(v: Vault, rules: Rules, actor: string, path: string, content: string, base: Option<Digest>,
      stamp: string, now: int)
    : (Vault, Outcome)
  {
    var p := Normalize(path);
    var disk := v.repo.disk;
    if p == "" then (v, Failed)
    else if base.Some? && p in disk && Of(disk[p]) != base.value then (v, Conflict(Of(disk[p]), disk[p]))
    else (Noted(Written(v, p, Stamped(rules, actor, content, stamp)), actor, p, "save", "", now), Done)
  }

  /** DeleteNote. */
  function Deleted(v: Vault, actor: string, path: string, now: int): (Vault, Outcome) {
    var p := Normalize(path);
    if p == "" then (v, Failed)
    else if p !in v.repo.disk then (v, NotFound)
    else (Noted(v.(repo := v.repo.(disk := v.repo.disk - {p})), actor, p, "delete", "", now), Done)
  }

  /** RestoreNote. */
  function Restored(v: Vault, actor: string, path: string, rev: string, now: int): (Vault, Outcome) {
    if v.history.Off? then (v, HistoryDisabled)
    else
      var p := Normalize(path);
      match FileAt(v.repo.log, p, rev)
      case None => (v, NotFound)
      case Some(content) =>
        if p !in v.repo.disk then (Noted(Written(v, p, content), actor, p, "restore", rev, now), Done)
        else if v.repo.disk[p] == content then (v, Unchanged)
        else
          var snapshot := Noted(v, ACTOR_EXTERNAL, p, "save", "", now);
          (Noted(Written(snapshot, p, content), actor, p, "restore", rev, now), Done)
  }

  // -------------------------------------------------------- what a save leaves

  /** The two fields an attributed save writes. */
  function SaveFields(stamp: string, actor: string): seq<FM.Field> {
    [FM.Field("updated", stamp), FM.Field("updated_by", actor)]
  }

  lemma SaveFieldsRead(stamp: string, actor: string)
    ensures SaveFields(stamp, actor) != []
    ensures FM.WellKeyed(SaveFields(stamp, actor)) && FM.NewlineFree(SaveFields(stamp, actor))
  {
  }

  lemma StampedText(rules: Rules, actor: string, content: string, stamp: string)
    ensures var text := Stamped(rules, actor, content, stamp);
            if rules.trackAuthorship && actor != "" && actor != "external" then
              FM.CarriesOn(content, text, SaveFields(stamp, actor), rules.yaml)
                  && FM.SaysAll(text, SaveFields(stamp, actor))
            else text == content
  {
    var fields := SaveFields(stamp, actor);
    if rules.trackAuthorship && actor != "" && actor != "external" {
      SaveFieldsRead(stamp, actor);
      FM.UpsertCarries(content, fields, rules.yaml);
      FM.UpsertSays(content, fields, rules.yaml);
    }
  }

  /** What a successful SaveNote leaves at its path, and only there: without
      attribution the very text that was sent; with attribution that text carried
      on, under a header that says when and by whom. In managed mode HEAD holds the
      same, committed under the author's name; otherwise the log is untouched. */
  lemma SavedText(v: Vault, rules: Rules, actor: string, path: string, content: string, base: Option<Digest>,
                  stamp: string, now: int)
    requires Saved(v, rules, actor, path, content, base, stamp, now).1 == Done
    ensures var p, r := Normalize(path), Saved(v, rules, actor, path, content, base, stamp, now).0.repo;
            && p in r.disk && r.disk == v.repo.disk[p := r.disk[p]]
            && (if rules.trackAuthorship && actor != "" && actor != "external" then
                  && FM.CarriesOn(content, r.disk[p], SaveFields(stamp, actor), rules.yaml)
                  && FM.SaysAll(r.disk[p], SaveFields(stamp, actor))
                else r.disk[p] == content)
            && (v.history.Managed? ==> p in Head(r.log) && Head(r.log)[p] == r.disk[p])
            && (v.history.Managed? && r.log != v.repo.log ==>
                  CommitIs(r.log, v.repo.log, if actor == "" then "local" else actor, "save: " + p, now))
            && (!v.history.Managed? ==> r.log == v.repo.log && r.index == v.repo.index)
  {
    StampedText(rules, actor, content, stamp);
    SavePlaces(v, rules, actor, path, content, base, stamp, now);
    WrittenHolds(v, actor, Normalize(path), Stamped(rules, actor, content, stamp), now);
  }

  lemma WrittenHolds(v: Vault, actor: string, p: string, text: string, now: int)
    ensures var r := Noted(Written(v, p, text), actor, p, "save", "", now).repo;
            && p in r.disk && r.disk[p] == text && r.disk == v.repo.disk[p := text]
            && (v.history.Managed? ==> p in Head(r.log) && Head(r.log)[p] == text)
            && (v.history.Managed? && r.log != v.repo.log ==>
                  CommitIs(r.log, v.repo.log, if actor == "" then "local" else actor, "save: " + p, now))
            && (!v.history.Managed? ==> r.log == v.repo.log && r.index == v.repo.index)
  {
    NotedHolds(Written(v, p, text), actor, p, "save", now);
    assert "save" + ": " == "save: ";
  }

  lemma SavePlaces(v: Vault, rules: Rules, actor: string, path: string, content: string, base: Option<Digest>,
                   stamp: string, now: int)
    requires Saved(v, rules, actor, path, content, base, stamp, now).1 == Done
    ensures Saved(v, rules, actor, path, content, base, stamp, now).0
         == Noted(Written(v, Normalize(path), Stamped(rules, actor, content, stamp)), actor, Normalize(path), "save",
             "",
                  now)
  {
  }

  lemma NotedHolds(v: Vault, actor: string, p: string, action: string, now: int)
    requires p in v.repo.disk
    ensures var r := Noted(v, actor, p, action, "", now).repo;
            && r.disk == v.repo.disk
            && (v.history.Managed? ==> p in Head(r.log) && Head(r.log)[p] == r.disk[p])
            && (v.history.Managed? && r.log != v.repo.log ==>
                  CommitIs(r.log, v.repo.log, if actor == "" then "local" else actor, action + ": " + p, now))
            && (!v.history.Managed? ==> r.log == v.repo.log && r.index == v.repo.index)
  {
  }

  /** One commit was added, by this author, with this message, at this time. */
  predicate CommitIs(log: seq<Commit>, was: seq<Commit>, author: string, message: string, now: int) {
    && |log| == |was| + 1 && log[..|was|] == was
    && log[|was|].author == author && log[|was|].message == message && log[|was|].time == now
  }

  /** A save is refused exactly where the empty path or another version than the
      one it is based on stands against it; then nothing changes, and a conflict
      names the version that is there. */
  lemma SaveOutcome(v: Vault, rules: Rules, actor: string, path: string, content: string, base: Option<Digest>,
                    stamp: string, now: int)
    ensures var p, disk := Normalize(path), v.repo.disk;
            var (r, outcome) := Saved(v, rules, actor, path, content, base, stamp, now);
            var foreign := base.Some? && p in disk && Of(disk[p]) != base.value;
            && (outcome == Done <==> p != "" && !foreign)
            && (outcome != Done ==> r == v)
            && (outcome.Conflict? <==> p != "" && foreign)
            && (outcome.Conflict? ==> outcome.hash == Of(disk[p]) && outcome.content == disk[p])
  {
  }

  /** A delete takes the file away, on disk and in HEAD, and nothing else; without
      a file it changes nothing. */
  lemma DeleteOutcome(v: Vault, actor: string, path: string, now: int)
    ensures var p := Normalize(path);
            var (r, outcome) := Deleted(v, actor, path, now);
            && (outcome == Done <==> p != "" && p in v.repo.disk)
            && (outcome == NotFound <==> p != "" && p !in v.repo.disk)
            && (outcome != Done ==> r == v)
            && (outcome == Done ==> r.repo.disk == v.repo.disk - {p})
            && (outcome == Done && v.history.Managed? ==> p !in Head(r.repo.log))
            && (outcome == Done && !v.history.Managed? ==> r.repo.log == v.repo.log && r.repo.index == v.repo.index)
  {
  }

  /** A restore is refused exactly without history, without that file in that
      revision, or with that very content in place; else the content is put in
      place, on disk and in HEAD, and nothing else. */
  lemma RestoreOutcome(v: Vault, actor: string, path: string, rev: string, now: int)
    ensures var p := Normalize(path);
            var found := FileAt(v.repo.log, p, rev);
            var (r, outcome) := Restored(v, actor, path, rev, now);
            && (outcome == HistoryDisabled <==> v.history.Off?)
            && (outcome == NotFound <==> !v.history.Off? && found.None?)
            && (outcome == Done <==>
                  !v.history.Off? && found.Some? && !(p in v.repo.disk && v.repo.disk[p] == found.value))
            && (outcome != Done ==> r == v)
            && (outcome == Done ==> r.repo.disk == v.repo.disk[p := found.value])
            && (outcome == Done && v.history.Managed? ==> p in Head(r.repo.log) && Head(r.repo.log)[p] == found.value)
  {
    var p := Normalize(path);
    var content := FileAt(v.repo.log, p, rev);
    if content.Some? {
      var snapshot := Noted(v, ACTOR_EXTERNAL, p, "save", "", now);
      NotedKeepsDisk(v, ACTOR_EXTERNAL, p, "save", "", now);
      RestoreHolds(v, actor, p, content.value, rev, now);
      RestoreHolds(snapshot, actor, p, content.value, rev, now);
    }
  }

  lemma RestoreHolds(v: Vault, actor: string, p: string, content: string, rev: string, now: int)
    ensures var r := Noted(Written(v, p, content), actor, p, "restore", rev, now).repo;
            && r.disk == v.repo.disk[p := content]
            && (v.history.Managed? ==> p in Head(r.log) && Head(r.log)[p] == content)
  {
    NotedKeepsDisk(Written(v, p, content), actor, p, "restore", rev, now);
  }

  // ------------------------------------------------------ restore loses nothing

  /** Whatever RestoreNote overwrites, recorded or not, is what the parent of the
      restore commit holds at the path; the commit itself holds the restored
      content and names its source. */
  lemma RestoreLosesNothing(v: Vault, actor: string, path: string, rev: string, now: int)
    requires v.history.Managed? && Restored(v, actor, path, rev, now).1 == Done
    requires Normalize(path) in v.repo.disk
    ensures var p, r := Normalize(path), Restored(v, actor, path, rev, now).0.repo;
            && FileAt(v.repo.log, p, rev) == Some(r.disk[p])
            && |r.log| >= 2
            && p in r.log[|r.log| - 2].tree && r.log[|r.log| - 2].tree[p] == v.repo.disk[p]
            && p in Head(r.log) && Head(r.log)[p] == r.disk[p]
            && r.log[|r.log| - 1].message == Message("restore", p, rev)
            && v.repo.log <= r.log
            && r.disk == v.repo.disk[p := r.disk[p]]
  {
    var p := Normalize(path);
    var content := FileAt(v.repo.log, p, rev).value;
    var s := Noted(v, ACTOR_EXTERNAL, p, "save", "", now).repo;
    RestoreSteps(v, actor, path, rev, now);
    RecordHolds(v.repo, Author(ACTOR_EXTERNAL), p, "save", "", now);
    RecordCommits(s.(disk := s.disk[p := content]), Author(actor), p, "restore", rev, now);
  }

  lemma RestoreSteps(v: Vault, actor: string, path: string, rev: string, now: int)
    requires v.history.Managed? && Restored(v, actor, path, rev, now).1 == Done && Normalize(path) in v.repo.disk
    ensures var p, content := Normalize(path), FileAt(v.repo.log, Normalize(path), rev);
            var s := Recorded(v.repo, Author(ACTOR_EXTERNAL), p, "save", "", now);
            && content.Some? && v.repo.disk[p] != content.value && s.disk == v.repo.disk
            && Restored(v, actor, path, rev, now).0.repo
               == Recorded(s.(disk := s.disk[p := content.value]), Author(actor), p, "restore", rev, now)
  {
  }

  lemma RecordHolds(s: Repo, actor: string, p: string, action: string, detail: string, now: int)
    requires p in s.disk
    ensures var r := Recorded(s, actor, p, action, detail, now);
            p in Head(r.log) && Head(r.log)[p] == s.disk[p] && r.disk == s.disk && s.log <= r.log
  {
  }

  lemma RecordCommits(s: Repo, actor: string, p: string, action: string, detail: string, now: int)
    requires p in s.disk && Differs(s, p)
    ensures var r := Recorded(s, actor, p, action, detail, now);
            && |r.log| == |s.log| + 1 && s.log == r.log[..|s.log|] && r.disk == s.disk
            && r.log[|s.log|].message == Message(action, p, detail)
            && p in Head(r.log) && Head(r.log)[p] == s.disk[p]
  {
  }

  /** When the contents already match, nothing changes at all. */
  lemma RestoreUnchanged(v: Vault, actor: string, path: string, rev: string, now: int)
    requires !v.history.Off?
    ensures var p := Normalize(path);
            var content := FileAt(v.repo.log, p, rev);
            content.Some? && p in v.repo.disk && v.repo.disk[p] == content.value
            <==> Restored(v, actor, path, rev, now).1 == Unchanged
    ensures Restored(v, actor, path, rev, now).1 == Unchanged ==> Restored(v, actor, path, rev, now).0 == v
  {
  }

  // ------------------------------------------------- delete and restore again

  /** The path is gone, and its trash entry points at a commit that holds c. */
  ghost predicate Waiting(s: Repo, p: string, c: string) {
    && s.index.Some? && Sound(s.log, Entries(s))
    && p !in s.disk && p !in Head(s.log)
    && exists i, d: nat :: 0 <= i < |Entries(s)| && HoldsFor(s.log, Entries(s)[i], p, c, d)
  }

  ghost predicate HoldsFor(log: seq<Commit>, e: Entry, p: string, c: string, d: nat) {
    e.path == p && DescribedBy(log, e, d) && log[d - 1].tree[p] == c
  }

  /** A recording that finds the file gone makes its path wait. */
  lemma RecordedDeletionWaits(s: Repo, actor: string, p: string, now: int)
    requires s.index.Some? && Sound(s.log, Entries(s)) && p !in s.disk && p in Head(s.log)
    ensures Waiting(Recorded(s, actor, p, "delete", "", now), p, Head(s.log)[p])
  {
    var r := Recorded(s, actor, p, "delete", "", now);
    RecordSound(s, actor, p, "delete", "", now);
    NewDeletion(s, actor, p, "delete", "", now);
    var kept := Filter(NotPath(p), Entries(s));
    var i, d := |kept|, |s.log|;
    assert Entries(r)[i] == Entry(p, actor, now, Hash(d - 1), Hash(d));
    assert r.log[d - 1] == s.log[d - 1];
    assert HoldsFor(r.log, Entries(r)[i], p, Head(s.log)[p], d);
  }

  lemma DeleteWaits(v: Vault, actor: string, path: string, now: int)
    requires v.history.Managed? && v.repo.index.Some? && Sound(v.repo.log, Entries(v.repo))
    requires var p := Normalize(path);
             p != "" && p in v.repo.disk && p in Head(v.repo.log)
    ensures Deleted(v, actor, path, now).1 == Done
    ensures Waiting(Deleted(v, actor, path, now).0.repo, Normalize(path), Head(v.repo.log)[Normalize(path)])
  {
    var p := Normalize(path);
    RecordedDeletionWaits(v.repo.(disk := v.repo.disk - {p}), Author(actor), p, now);
  }

  /** An operation that does not touch the path. */
  predicate Elsewhere(op: Op, p: string) {
    match op
    case Edit(path, _) => path != p
    case Record(_, path, _, _, _) => path != p
    case Purge(paths) => p !in paths
    case _ => true
  }

  lemma HoldsForOn(log: seq<Commit>, c: Commit, e: Entry, p: string, content: string, d: nat)
    requires HoldsFor(log, e, p, content, d)
    requires p in c.tree <==> p in Head(log)
    ensures HoldsFor(log + [c], e, p, content, d)
  {
    OtherDeletions(log, c, p, d);
  }

  lemma FilterKeepsEntry(entries: seq<Entry>, keep: Entry -> bool, i: nat)
    requires i < |entries| && keep(entries[i])
    ensures exists j :: 0 <= j < |Filter(keep, entries)| && Filter(keep, entries)[j] == entries[i]
  {
    FilterMembers(keep, entries);
    assert entries[i] in Filter(keep, entries);
  }

  lemma FilterWaits(s: Repo, p: string, c: string, keep: Entry -> bool)
    requires Waiting(s, p, c)
    requires forall e :: e in Entries(s) && e.path == p ==> keep(e)
    ensures Waiting(s.(index := Some(Filter(keep, Entries(s)))), p, c)
  {
    var i, d: nat :| 0 <= i < |Entries(s)| && HoldsFor(s.log, Entries(s)[i], p, c, d);
    FilterSound(s.log, Entries(s), keep);
    FilterKeepsEntry(Entries(s), keep, i);
    var r := s.(index := Some(Filter(keep, Entries(s))));
    var j :| 0 <= j < |Entries(r)| && Entries(r)[j] == Entries(s)[i];
    assert HoldsFor(r.log, Entries(r)[j], p, c, d);
  }

  lemma RecordWaits(s: Repo, op: Op, p: string, c: string)
    requires Waiting(s, p, c) && op.Record? && op.path != p
    ensures Waiting(Apply(s, op), p, c)
  {
    ApplySound(s, op);
    if Differs(s, op.path) {
      var i, d: nat :| 0 <= i < |Entries(s)| && HoldsFor(s.log, Entries(s)[i], p, c, d);
      var r := Apply(s, op);
      var commit := NewCommit(s, op.actor, op.path, op.action, op.detail, op.now);
      HoldsForOn(s.log, commit, Entries(s)[i], p, c, d);
      FilterKeepsEntry(Entries(s), NotPath(op.path), i);
      var kept := Filter(NotPath(op.path), Entries(s));
      var j :| 0 <= j < |kept| && kept[j] == Entries(s)[i];
      assert Entries(r)[j] == kept[j];
      assert HoldsFor(r.log, Entries(r)[j], p, c, d);
    }
  }

  lemma ElsewhereWaits(s: Repo, op: Op, p: string, c: string)
    requires Waiting(s, p, c) && Elsewhere(op, p) && p != ""
    ensures Waiting(Apply(s, op), p, c)
  {
    match op
    case Edit(path, content) =>
      var i, d: nat :| 0 <= i < |Entries(s)| && HoldsFor(s.log, Entries(s)[i], p, c, d);
      var r := Apply(s, op);
      assert HoldsFor(r.log, Entries(r)[i], p, c, d);
    case Record(_, _, _, _, _) => RecordWaits(s, op, p, c);
    case List => FilterWaits(s, p, c, AbsentFrom(s.disk));
    case Purge(paths) =>
      if paths != {} { FilterWaits(s, p, c, NotAmong(paths)); }
    case Reopen =>
      forall e | e in Entries(s) && e.path == p ensures Restorable(s)(e) {
        DescribedIsRestorable(s.log, e);
      }
      FilterWaits(s, p, c, Restorable(s));
  }

  lemma {:induction false} RunWaits(s: Repo, ops: seq<Op>, p: string, c: string)
    requires Waiting(s, p, c) && p != ""
    requires forall i :: 0 <= i < |ops| ==> Elsewhere(ops[i], p)
    ensures Waiting(Run(s, ops), p, c)
  {
    if ops == [] {
    } else {
      RunWaits(s, ops[..|ops| - 1], p, c);
      ElsewhereWaits(Run(s, ops[..|ops| - 1]), ops[|ops| - 1], p, c);
    }
  }

  /** RestoreDeleted: heal the listing, find the path's entry, restore from it. */
  ghost predicate RestoredFromTrash(v: Vault, actor: string, p: string, now: int, r: Vault, outcome: Outcome) {
    if v.history.Off? then r == v && outcome == HistoryDisabled
    else
      var listed := v.(repo := Listed(v.repo));
      if exists e :: e in Entries(listed.repo) && e.path == p
      then exists e :: && e in Entries(listed.repo) && e.path == p
                       && (r, outcome) == Restored(listed, actor, p, e.restoreRev, now)
      else r == listed && outcome == NotFound
  }

  lemma RestoresEntry(v: Vault, actor: string, p: string, now: int, e: Entry, r: Vault, outcome: Outcome)
    requires !v.history.Off?
    requires var listed := v.(repo := Listed(v.repo));
             && e in Entries(listed.repo) && e.path == p
             && (r, outcome) == Restored(listed, actor, p, e.restoreRev, now)
    ensures RestoredFromTrash(v, actor, p, now, r, outcome)
  {
  }

  lemma RestoresNothing(v: Vault, actor: string, p: string, now: int, deleted: seq<Entry>)
    requires !v.history.Off?
    requires multiset(deleted) == multiset(Entries(Listed(v.repo)))
    requires forall i :: 0 <= i < |deleted| ==> deleted[i].path != p
    ensures RestoredFromTrash(v, actor, p, now, v.(repo := Listed(v.repo)), NotFound)
  {
    SameMembers(deleted, Entries(Listed(v.repo)));
  }

  /** RestoreDeleted always has an outcome. */
  lemma RestoreEnds(v: Vault, actor: string, p: string, now: int) returns (r: Vault, outcome: Outcome)
    ensures RestoredFromTrash(v, actor, p, now, r, outcome)
  {
    var listed := v.(repo := Listed(v.repo));
    if v.history.Off? {
      r, outcome := v, HistoryDisabled;
    } else if e :| e in Entries(listed.repo) && e.path == p {
      r, outcome := Restored(listed, actor, p, e.restoreRev, now).0, Restored(listed, actor, p, e.restoreRev, now).1;
    } else {
      r, outcome := listed, NotFound;
    }
  }

  /** An entry of a waiting path gives back its content. */
  lemma WaitingEntry(s: Repo, p: string, c: string, e: Entry)
    requires Waiting(s, p, c) && e in Entries(s) && e.path == p
    ensures FileAt(s.log, p, e.restoreRev) == Some(c)
    ensures exists d: nat :: d < |s.log| && e.restoreRev == Hash(d)
  {
    var i, d: nat :| 0 <= i < |Entries(s)| && HoldsFor(s.log, Entries(s)[i], p, c, d);
    var j :| 0 <= j < |Entries(s)| && Entries(s)[j] == e;
    assert i == j;
    FindHash(|s.log|, d - 1);
  }

  lemma NoEntryAfter(s: Repo, actor: string, p: string, action: string, detail: string, now: int)
    requires UniquePaths(Entries(s)) && Differs(s, p) && p in s.disk
    ensures !Covers(Entries(Recorded(s, actor, p, action, detail, now)), p)
  {
    FilterNotPath(Entries(s), p);
    var kept := Filter(NotPath(p), Entries(s));
    assert kept + [] == kept;
  }

  /** Restoring a waiting path under its normal name. */
  lemma RestoreWaiting(v: Vault, actor: string, p: string, c: string, now: int, r: Vault, outcome: Outcome)
    requires v.history.Managed? && Waiting(v.repo, p, c) && Normalize(p) == p
    requires RestoredFromTrash(v, actor, p, now, r, outcome)
    ensures outcome == Done
    ensures p in r.repo.disk && r.repo.disk[p] == c
    ensures p in Head(r.repo.log) && Head(r.repo.log)[p] == c
    ensures !Covers(Entries(r.repo), p)
    ensures exists e :: e in Entries(v.repo) && e.path == p
                        && r.repo.log[|r.repo.log| - 1].message == Message("restore", p, e.restoreRev)
  {
    var e := ChosenEntry(v, actor, p, c, now, r, outcome);
    RestoreEntry(v.(repo := Listed(v.repo)), actor, p, c, e, now);
  }

  lemma ChosenEntry(v: Vault, actor: string, p: string, c: string, now: int, r: Vault, outcome: Outcome)
    returns (e: Entry)
    requires v.history.Managed? && Waiting(v.repo, p, c) && RestoredFromTrash(v, actor, p, now, r, outcome)
    ensures Waiting(Listed(v.repo), p, c)
    ensures e in Entries(Listed(v.repo)) && e in Entries(v.repo) && e.path == p
    ensures (r, outcome) == Restored(v.(repo := Listed(v.repo)), actor, p, e.restoreRev, now)
  {
    var listed := v.(repo := Listed(v.repo));
    ListedWaits(v.repo, p, c);
    e :| e in Entries(listed.repo) && e.path == p && (r, outcome) == Restored(listed, actor, p, e.restoreRev, now);
  }

  lemma ListedWaits(s: Repo, p: string, c: string)
    requires Waiting(s, p, c)
    ensures Waiting(Listed(s), p, c)
    ensures exists e :: e in Entries(Listed(s)) && e.path == p
    ensures forall e :: e in Entries(Listed(s)) ==> e in Entries(s)
  {
    FilterWaits(s, p, c, AbsentFrom(s.disk));
    FilterMembers(AbsentFrom(s.disk), Entries(s));
    var l := Listed(s);
    var i, d: nat :| 0 <= i < |Entries(l)| && HoldsFor(l.log, Entries(l)[i], p, c, d);
    assert Entries(l)[i] in Entries(l);
  }

  lemma RestoreEntry(v: Vault, actor: string, p: string, c: string, e: Entry, now: int)
    requires v.history.Managed? && Waiting(v.repo, p, c) && Normalize(p) == p && e in Entries(v.repo) && e.path == p
    ensures var (r, outcome) := Restored(v, actor, p, e.restoreRev, now);
            && outcome == Done
            && p in r.repo.disk && r.repo.disk[p] == c
            && p in Head(r.repo.log) && Head(r.repo.log)[p] == c
            && !Covers(Entries(r.repo), p)
            && r.repo.log[|r.repo.log| - 1].message == Message("restore", p, e.restoreRev)
  {
    WaitingEntry(v.repo, p, c, e);
    var w := Written(v, p, c).repo;
    assert Differs(w, p);
    NoEntryAfter(w, Author(actor), p, "restore", e.restoreRev, now);
  }

  /** The round trip: a note that disk and HEAD agree on is deleted, anything
      happens elsewhere (edits, recordings, listings, purges of other paths,
      re-opens), and RestoreDeleted brings it back on disk and in HEAD, in a
      commit made from the trash entry's revision, with no entry left. */
  lemma DeleteRestoreRoundTrip(v: Vault, actor: string, p: string, c: string, now: int,
                               ops: seq<Op>, restorer: string, later: int, r: Vault, outcome: Outcome)
    requires v.history.Managed? && v.repo.index.Some? && Sound(v.repo.log, Entries(v.repo))
    requires p != "" && Normalize(p) == p
    requires p in v.repo.disk && v.repo.disk[p] == c && p in Head(v.repo.log) && Head(v.repo.log)[p] == c
    requires forall i :: 0 <= i < |ops| ==> Elsewhere(ops[i], p)
    requires var gone := Run(Deleted(v, actor, p, now).0.repo, ops);
             RestoredFromTrash(Vault(gone, Managed), restorer, p, later, r, outcome)
    ensures outcome == Done
    ensures p in r.repo.disk && r.repo.disk[p] == c
    ensures p in Head(r.repo.log) && Head(r.repo.log)[p] == c
    ensures !Covers(Entries(r.repo), p)
    ensures exists e :: e in Entries(Run(Deleted(v, actor, p, now).0.repo, ops)) && e.path == p
                        && r.repo.log[|r.repo.log| - 1].message == Message("restore", p, e.restoreRev)
                        && (NL !in p ==> SourceRev(r.repo.log[|r.repo.log| - 1]) == e.restoreRev)
  {
    DeleteWaits(v, actor, p, now);
    var s := Deleted(v, actor, p, now).0.repo;
    RunWaits(s, ops, p, c);
    RestoreWaiting(Vault(Run(s, ops), Managed), restorer, p, c, later, r, outcome);
    var e :| e in Entries(Run(s, ops)) && e.path == p
        && r.repo.log[|r.repo.log| - 1].message == Message("restore", p, e.restoreRev);
    WaitingEntry(Run(s, ops), p, c, e);
    var d: nat :| d < |Run(s, ops).log| && e.restoreRev == Hash(d);
    if NL !in p {
      RestoreNamesSource(r.repo.log[|r.repo.log| - 1], p, d);
    }
  }

  /** A file of any name can be in the trash, but only one whose name is a normal
      note path comes back: RestoreDeleted restores a waiting path if and only if
      NormalizeNotePath leaves its name alone. */
  lemma RestorableIffNormal(v: Vault, actor: string, p: string, c: string, now: int, r: Vault, outcome: Outcome)
    requires v.history.Managed? && Waiting(v.repo, p, c) && RestoredFromTrash(v, actor, p, now, r, outcome)
    ensures (p in r.repo.disk && r.repo.disk[p] == c) <==> Normalize(p) == p
  {
    if Normalize(p) == p {
      RestoreWaiting(v, actor, p, c, now, r, outcome);
    } else {
      var e := ChosenEntry(v, actor, p, c, now, r, outcome);
      RestoreElsewhere(v.(repo := Listed(v.repo)), actor, p, e.restoreRev, now);
    }
  }

  lemma RestoreElsewhere(v: Vault, actor: string, p: string, rev: string, now: int)
    requires Normalize(p) != p
    ensures p in Restored(v, actor, p, rev, now).0.repo.disk <==> p in v.repo.disk
  {
    var q, content := Normalize(p), FileAt(v.repo.log, Normalize(p), rev);
    if content.Some? {
      var snapshot := Noted(v, ACTOR_EXTERNAL, q, "save", "", now);
      NotedKeepsDisk(v, ACTOR_EXTERNAL, q, "save", "", now);
      NotedKeepsDisk(Written(v, q, content.value), actor, q, "restore", rev, now);
      NotedKeepsDisk(Written(snapshot, q, content.value), actor, q, "restore", rev, now);
    }
  }

  lemma NotedKeepsDisk(v: Vault, actor: string, p: string, action: string, detail: string, now: int)
    ensures Noted(v, actor, p, action, detail, now).repo.disk == v.repo.disk
  {
  }

  /** An attachment that was deleted outside the program is such a file: whatever
      its name, it is looked for under a note's name. */
  lemma AttachmentIsNotNormal(p: string)
    requires Plain(p) && TrimSpace(p) == p && !IsMarkdown(p)
    ensures Normalize(p) == p + ".md"
  {
    assert Join([p], '/') == p;
    NormalKeepsPlain([p]);
  }

  /** An attachment in a fresh vault whose removal the file watcher reports. */
  function AttachmentRemoved(disk: Tree, now: int, p: string, later: int): Repo {
    Run(Fresh(disk, now), [Edit(p, None), Record(ACTOR_EXTERNAL, p, "delete", "", later)])
  }

  lemma RemovedWaits(disk: Tree, now: int, p: string, later: int)
    requires p in disk
    ensures Waiting(AttachmentRemoved(disk, now, p, later), p, disk[p])
  {
    var first, both := [Edit(p, None)], [Edit(p, None), Record(ACTOR_EXTERNAL, p, "delete", "", later)];
    var s := Run(Fresh(disk, now), first);
    assert first[..0] == [] && both[..1] == first;
    assert Run(Fresh(disk, now), []) == Fresh(disk, now);
    assert s == Fresh(disk, now).(disk := disk - {p});
    TrashSound(disk, now, first);
    RecordedDeletionWaits(s, ACTOR_EXTERNAL, p, later);
  }

  /** It waits in the trash and can be listed there, and RestoreDeleted does not
      bring it back. */
  lemma AttachmentIsLost(disk: Tree, now: int, p: string, later: int, actor: string, last: int, r: Vault,
      outcome: Outcome)
    requires p in disk && Plain(p) && TrimSpace(p) == p && !IsMarkdown(p)
    requires RestoredFromTrash(Vault(AttachmentRemoved(disk, now, p, later), Managed), actor, p, last, r, outcome)
    ensures Waiting(AttachmentRemoved(disk, now, p, later), p, disk[p])
    ensures !(p in r.repo.disk && r.repo.disk[p] == disk[p])
  {
    RemovedWaits(disk, now, p, later);
    AttachmentIsNotNormal(p);
    RestorableIffNormal(Vault(AttachmentRemoved(disk, now, p, later), Managed), actor, p, disk[p], last, r, outcome);
  }

  /** img.png is such a name. */
  lemma ImageIsAttachment()
    ensures Plain("img.png") && TrimSpace("img.png") == "img.png" && !IsMarkdown("img.png")
  {
    TrimRightFixed("img.png");
    var lower := ToLower("img.png");
    assert lower[6] == 'g';
  }

  lemma HashIsOneWord(d: nat)
    ensures NL !in Hash(d) && TrimSpace(Hash(d)) == Hash(d)
  {
    DecimalDigits(d);
    assert Hash(d)[0] == 'h';
    assert forall i :: 1 <= i < |Hash(d)| ==> Hash(d)[i] == Decimal(d)[i - 1];
    TrimRightFixed(Hash(d));
  }

  /** The commit of a restore names the revision it was made from. */
  lemma RestoreNamesSource(c: Commit, p: string, d: nat)
    requires c.message == Message("restore", p, Hash(d)) && NL !in p
    ensures SourceRev(c) == Hash(d)
  {
    HashIsOneWord(d);
    var line := "restore" + ": " + p;
    assert NL !in line;
    IndexOfFirst(line, NL);
    assert Split(line, NL) == [line];
    assert line[0] == 'r' && TRAILER[0] == 'R';
    SourceRoundTrip("restore", p, Hash(d), c);
  }

  // --------------------------------------------------------- creating notes

  function Prepared(rules: Rules, actor: string, title: string, content: string, stamp: string): string {
    var begun :=
      if FM.ReadLines(content, rules.yaml).0 == None && rules.autoFrontmatter
      then "---\n" + "title: \"" + FM.EscapeAll(title) + "\"\n" + "created: " + stamp + "\n"
           + "tags: []\n---\n\n" + content
      else content;
    if Attributes(rules, actor) then FM.Upsert(begun, [FM.Field("created_by", actor)], rules.yaml) else begun
  }

  /** A text with the default header of a new note. */
  predicate Headed(text: string, title: string, stamp: string, content: string) {
    var lines := Split(text, NL);
    && FM.HeaderEnds(lines, 4) && FM.HeaderSays(lines, 4, "title", title)
    && lines[2] == "created: " + stamp && lines[3] == "tags: []" && HasSuffix(text, content)
  }

  function DefaultHeader(title: string, stamp: string): seq<string> {
    [FM.FieldLine(FM.Field("title", title)), "created: " + stamp, "tags: []"]
  }

  /** Texts put together in one order or the other, by pieces. */
  lemma Regroup(first: string, t: string, c: string, g: string, f: string, content: string)
    ensures first + "\n" + (t + "\n" + (c + "\n" + (g + "\n"))) + f + "\n" + ("\n" + content)
         == (first + "\n") + (t + "\n") + (c + "\n") + (g + "\n" + f + "\n" + "\n") + content
  {
  }

  lemma TitleLine(title: string)
    ensures "title: \"" + FM.EscapeAll(title) + "\"\n" == FM.FieldLine(FM.Field("title", title)) + "\n"
  {
    var e := FM.EscapeAll(title);
    assert "title: \"" == "title" + ": \"" && "\"\n" == "\"" + "\n";
    assert FM.FieldLine(FM.Field("title", title)) == "title" + ": \"" + e + "\"";
  }

  lemma Grouped(a: string, b: string, c: string, d: string, e: string, f: string, g: string, h: string, i: string)
    ensures a + b + c + d + e + f + g + h + i == a + (b + c + d) + (e + f + g) + h + i
  {
  }

  lemma TerminatedThree(t: string, c: string, g: string)
    ensures FM.Terminated([t, c, g]) == t + "\n" + (c + "\n" + (g + "\n"))
  {
    assert [t, c, g][1..] == [c, g] && [c, g][1..] == [g] && [g][1..] == [];
    assert FM.Terminated([g]) == g + "\n" + "";
    assert FM.Terminated([c, g]) == c + "\n" + (g + "\n");
  }

  lemma DefaultText(title: string, stamp: string, content: string)
    ensures "---\n" + "title: \"" + FM.EscapeAll(title) + "\"\n" + "created: " + stamp + "\n" + "tags: []\n---\n\n"
            + content
         == "---" + "\n" + FM.Terminated(DefaultHeader(title, stamp)) + "---" + "\n" + ("\n" + content)
  {
    var t, c, g, e := FM.FieldLine(FM.Field("title", title)), "created: " + stamp, "tags: []", FM.EscapeAll(title);
    TitleLine(title);
    TerminatedThree(t, c, g);
    Regroup("---", t, c, g, "---", content);
    Grouped("---\n", "title: \"", e, "\"\n", "created: ", stamp, "\n", "tags: []\n---\n\n", content);
    assert "tags: []\n---\n\n" == g + "\n" + "---" + "\n" + "\n";
    assert "---\n" == "---" + "\n";
  }

  lemma DefaultIsHeader(title: string, stamp: string)
    requires NL !in stamp
    ensures FM.IsHeader("---", DefaultHeader(title, stamp), "---")
  {
    TrimRightFixed("---");
    FM.FieldLineShape(FM.Field("title", title));
    VisibleHead("created: " + stamp, 'c');
    VisibleHead("tags: []", 't');
    assert ("---")[3..] == "";
  }

  /** Text that begins with a letter is no fence. */
  lemma VisibleHead(line: string, c: char)
    requires line != "" && line[0] == c && !IsSpace(c) && c != '-' && c != '.'
    ensures TrimSpace(line) != "---" && TrimSpace(line) != "..."
  {
    TrimRightShape(line);
    assert TrimLeft(line) == line;
  }

  lemma DefaultHeaded(title: string, stamp: string, content: string)
    requires NL !in stamp
    ensures var text := "---" + "\n" + FM.Terminated(DefaultHeader(title, stamp)) + "---" + "\n" + ("\n" + content);
            Headed(text, title, stamp, content)
  {
    var header := DefaultHeader(title, stamp);
    DefaultIsHeader(title, stamp);
    FM.DocumentLines("---", header, "---", "\n" + content);
    var lines := ["---"] + header + ["---"] + Split("\n" + content, NL);
    FM.HeaderFence("---", header, "---", Split("\n" + content, NL));
    FM.FieldLineSays(FM.Field("title", title));
    assert lines[1] == header[0] && lines[2] == header[1] && lines[3] == header[2];
    assert FM.Says(lines[1], "title", title);
  }

  /** How the text stands before it is attributed: with autoFrontmatter, a text
      without frontmatter gets a header that says its title and when it was
      created. */
  predicate Begun(rules: Rules, title: string, stamp: string, content: string, text: string) {
    if rules.autoFrontmatter && FM.ReadLines(content, rules.yaml).0.None? then Headed(text, title, stamp, content)
    else text == content
  }

  lemma DefaultBegins(rules: Rules, title: string, stamp: string, content: string) returns (text: string)
    requires NL !in stamp
    ensures Begun(rules, title, stamp, content, text)
    ensures Prepared(rules, "", title, content, stamp) == text
    ensures HasSuffix(text, content)
    ensures FM.ReadLines(text, rules.yaml).0.Some? ==>
              HasSuffix(FM.ReadLines(text, rules.yaml).1, Visible(rules, content))
  {
    text := content;
    if rules.autoFrontmatter && FM.ReadLines(content, rules.yaml).0.None? {
      DefaultText(title, stamp, content);
      text := "---" + "\n" + FM.Terminated(DefaultHeader(title, stamp)) + "---" + "\n" + ("\n" + content);
      DefaultHeaded(title, stamp, content);
      DefaultIsHeader(title, stamp);
      FM.DocumentRead("---", DefaultHeader(title, stamp), "---", "\n" + content, rules.yaml);
    }
  }

  /** What of a text a reader sees: its body, if it has frontmatter. */
  function Visible(rules: Rules, content: string): string {
    if FM.ReadLines(content, rules.yaml).0.None? then content else FM.ReadLines(content, rules.yaml).1
  }

  lemma BylineReads(actor: string)
    ensures FM.WellKeyed([FM.Field("created_by", actor)]) && FM.NewlineFree([FM.Field("created_by", actor)])
  {
  }

  /** The text that was begun, with or without attribution. */
  lemma BeginsAndCarries(rules: Rules, actor: string, content: string, mid: string)
    requires HasSuffix(mid, content)
    requires mid != content && FM.ReadLines(mid, rules.yaml).0.Some? ==>
               HasSuffix(FM.ReadLines(mid, rules.yaml).1, Visible(rules, content))
    ensures var byline := [FM.Field("created_by", actor)];
            var text := if Attributes(rules, actor) then FM.Upsert(mid, byline, rules.yaml) else mid;
            && HasSuffix(text, Visible(rules, content))
            && (Attributes(rules, actor) ==> FM.CarriesOn(mid, text, byline, rules.yaml) && FM.SaysAll(text, byline))
  {
    var byline := [FM.Field("created_by", actor)];
    var shown := Visible(rules, content);
    FM.ReadIsTail(content, rules.yaml);
    FM.SuffixOfSuffix(mid, content, shown);
    if Attributes(rules, actor) {
      var text, read := FM.Upsert(mid, byline, rules.yaml), FM.ReadLines(mid, rules.yaml);
      BylineReads(actor);
      FM.UpsertCarries(mid, byline, rules.yaml);
      FM.UpsertSays(mid, byline, rules.yaml);
      FM.SuffixOfSuffix(text, if read.0.Some? then read.1 else mid, shown);
    }
  }

  /** What CreateNote writes: the text begun as above and, with attribution,
      carried on under a header that says by whom. Either way the text that was
      given, cut of its own header, stands at the end. */
  lemma PreparedText(rules: Rules, actor: string, title: string, content: string, stamp: string)
    requires NL !in stamp
    ensures var text, byline := Prepared(rules, actor, title, content, stamp), [FM.Field("created_by", actor)];
            && HasSuffix(text, Visible(rules, content))
            && exists mid ::
                 && Begun(rules, title, stamp, content, mid)
                 && (if rules.trackAuthorship && actor != "" && actor != "external"
                     then FM.CarriesOn(mid, text, byline, rules.yaml) && FM.SaysAll(text, byline)
                     else text == mid)
  {
    var mid := DefaultBegins(rules, title, stamp, content);
    assert Begun(rules, title, stamp, content, mid);
    BeginsAndCarries(rules, actor, content, mid);
  }

  /** NoteService over a vault directory and the git history it may be attached
      to. */
  class Service {
    const git: Git
    const rules: Rules
    var history: History

    ghost predicate Valid()
      reads this
    {
      (history.Managed? ==> git.managed) && (history.External? ==> !git.managed)
    }

    function Abs(): Vault
      reads this, git
    {
      Vault(git.Abs(), history)
    }

    constructor (git: Git, rules: Rules)
      ensures Valid() && this.git == git && this.rules == rules
      ensures Abs() == Vault(git.Abs(), Off)
    {
      this.git, this.rules, this.history := git, rules, Off;
    }

    method RecordDetail(actor: string, p: string, action: string, detail: string, now: int)
      requires Valid()
      modifies git
      ensures Valid() && Abs() == Noted(old(Abs()), actor, p, action, detail, now)
    {
      if history.Off? {
        return;
      }
      var who := if actor == "" then "local" else actor;
      git.RecordPath(who, p, action, detail, now);
    }

    method SaveNote(actor: string, path: string, content: string, base: Option<Digest>, stamp: string, now: int)
      returns (outcome: Outcome)
      requires Valid()
      modifies git
      ensures Valid() && (Abs(), outcome) == Saved(old(Abs()), rules, actor, path, content, base, stamp, now)
    {
      var p := Normalize(path);
      if p == "" {
        return Failed;
      }
      var existed := p in git.disk;
      if base.Some? && existed {
        var current := git.disk[p];
        if Of(current) != base.value {
          return Conflict(Of(current), current);
        }
      }
      var text := content;
      if rules.trackAuthorship && actor != "" && actor != ACTOR_EXTERNAL {
        text := FM.UpsertFrontmatterFields(content, [FM.Field("updated", stamp), FM.Field("updated_by", actor)],
            rules.yaml);
      }
      git.disk := git.disk[p := text];
      RecordDetail(actor, p, "save", "", now);
      return Done;
    }

    method DeleteNote(actor: string, path: string, now: int) returns (outcome: Outcome)
      requires Valid()
      modifies git
      ensures Valid() && (Abs(), outcome) == Deleted(old(Abs()), actor, path, now)
    {
      var p := Normalize(path);
      if p == "" {
        return Failed;
      }
      if p !in git.disk {
        return NotFound;
      }
      git.disk := git.disk - {p};
      RecordDetail(actor, p, "delete", "", now);
      return Done;
    }

    method RestoreNote(actor: string, path: string, rev: string, now: int) returns (outcome: Outcome)
      requires Valid()
      modifies git
      ensures Valid() && (Abs(), outcome) == Restored(old(Abs()), actor, path, rev, now)
    {
      if history.Off? {
        return HistoryDisabled;
      }
      var p := Normalize(path);
      var content := FileAt(git.log, p, rev);
      if content.None? {
        return NotFound;
      }
      if p in git.disk {
        if git.disk[p] == content.value {
          return Unchanged;
        }
        RecordDetail(ACTOR_EXTERNAL, p, "save", "", now);
      }
      git.disk := git.disk[p := content.value];
      RecordDetail(actor, p, "restore", rev, now);
      return Done;
    }

    /** The whole trash listing. */
    method ListDeleted() returns (deleted: seq<Entry>)
      requires Valid()
      modifies git
      ensures Valid() && Abs() == old(Abs()).(repo := Listed(old(Abs()).repo))
      ensures multiset(deleted) == multiset(Entries(Abs().repo))
    {
      deleted := git.Deleted(0);
    }

    method RestoreDeleted(actor: string, p: string, now: int) returns (outcome: Outcome)
      requires Valid()
      modifies git
      ensures Valid() && RestoredFromTrash(old(Abs()), actor, p, now, Abs(), outcome)
    {
      if history.Off? {
        return HistoryDisabled;
      }
      var deleted := ListDeleted();
      ghost var was, listed := old(Abs()), Abs();
      SameMembers(deleted, Entries(listed.repo));
      for i := 0 to |deleted|
        invariant Abs() == listed && Valid()
        invariant forall j :: 0 <= j < i ==> deleted[j].path != p
      {
        if deleted[i].path == p {
          assert deleted[i] in deleted;
          outcome := RestoreNote(actor, p, deleted[i].restoreRev, now);
          RestoresEntry(was, actor, p, now, deleted[i], Abs(), outcome);
          return;
        }
      }
      RestoresNothing(was, actor, p, now, deleted);
      return NotFound;
    }

    /** The text of a new note: a default header, and who created it. */
    method Prepare(name: string, body: string, actor: string, stamp: string) returns (content: string)
      ensures content == Prepared(rules, actor, name, body, stamp)
    {
      content := body;
      var fm, _ := FM.SplitFrontmatter(content, rules.yaml);
      if fm == None && rules.autoFrontmatter {
        content := "---\n" + "title: \"" + FM.EscapeAll(name) + "\"\n" + "created: " + stamp + "\n"
            + "tags: []\n---\n\n" + content;
      }
      if rules.trackAuthorship && actor != "" && actor != ACTOR_EXTERNAL {
        content := FM.UpsertFrontmatterFields(content, [FM.Field("created_by", actor)], rules.yaml);
      }
    }

    /** CreateNote: the note lands where no file was, so nothing is overwritten. A
        missing body is a template that failed to render. When a configured folder
        starts with a slash, so may the numbered paths; the file is found and
        written all the same, and what git makes of the recording is left open. */
    method CreateNote(actor: string, title: string, folder: string, body: Option<string>, stamp: string, now: int)
      returns (p: string, outcome: Outcome)
      requires Valid()
      modifies git
      ensures Valid()
      ensures outcome == Done ==>
                && TrimSpace(title) != "" && body.Some?
                && Located(p) !in old(git.disk)
                && (exists i: nat :: i <= |old(git.disk)| + 1 && p == Candidate(folder, FileName(TrimSpace(title)), i)
                                     && forall k :: 0 <= k < i ==>
                                          Located(Candidate(folder, FileName(TrimSpace(title)), k)) in old(git.disk))
                && git.disk == old(git.disk)[Located(p) := Prepared(rules, actor, TrimSpace(title), body.value, stamp)]
                && (!("/" <= p) ==>
                      Abs() == Noted(old(Abs()).(repo := old(Abs()).repo.(disk := git.disk)),
                                     actor, p, "create", "", now))
      ensures outcome != Done ==> Abs() == old(Abs())
      ensures forall q :: q in old(git.disk) ==> q in git.disk && git.disk[q] == old(git.disk[q])
      ensures outcome == Done <==> TrimSpace(title) != "" && body.Some? && !("../" <= p)
    {
      var name := TrimSpace(title);
      if name == "" {
        return "", Failed;
      }
      FileNameIsSafe(name);
      var i;
      p, i := FreePath(folder, FileName(name), git.disk.Keys);
      if body.None? {
        return p, Failed;
      }
      var content := Prepare(name, body.value, actor, stamp);
      if "../" <= p {
        return p, Failed;
      }
      assert |git.disk.Keys| == |git.disk|;
      git.disk := git.disk[Located(p) := content];
      if !("/" <= p) {
        RecordDetail(actor, p, "create", "", now);
      }
      return p, Done;
    }
  }
}
