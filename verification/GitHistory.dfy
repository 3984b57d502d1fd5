/** packages/history: the Git type, its methods proved against the functions on
    the repository state. */
module GitHistory {
  import opened Wrappers
  import opened Slices
  import opened Repository
  import opened Trash

  class Git {
    const managed: bool
    var disk: Tree
    var log: seq<Commit>
    var index: Option<seq<Entry>>
    var purged: set<string>

    function Abs(): Repo
      reads this
    {
      Repo(disk, log, index, purged)
    }

    /** Open in managed mode on a directory that holds no repository yet. */
    constructor Init(disk: Tree, now: int)
      ensures managed && Abs() == Fresh(disk, now)
    {
      managed := true;
      this.disk := disk;
      log := if disk == map[] then [] else [Commit(disk, "init: vault snapshot", "local", now)];
      index, purged := Some([]), {};
    }

    function LoadTrash(): seq<Entry>
      reads this
    {
      if index.None? then [] else index.value
    }

    /** The in-place filter of a freshly loaded index. */
    method Keep(entries: seq<Entry>, keep: Entry -> bool) returns (kept: seq<Entry>)
      ensures kept == Filter(keep, entries)
    {
      var slice := new Entry[|entries|](i requires 0 <= i < |entries| => entries[i]);
      assert slice[..|entries|] == entries;
      var k := Compact(slice, |entries|, keep);
      kept := slice[..k];
    }

    method UpdateTrashIndex(entry: Entry, deleted: bool)
      modifies this`index
      ensures index == Some(UpdatedIndex(old(LoadTrash()), entry, deleted))
    {
      var kept := Keep(LoadTrash(), NotPath(entry.path));
      assert kept + [] == kept;
      if deleted {
        kept := kept + [entry];
      }
      index := Some(kept);
    }

    /** Record: commit the path when disk and HEAD differ on it, then patch the
        trash index. */
    method RecordPath(actor: string, path: string, action: string, detail: string, now: int)
      modifies this
      ensures Abs() == if managed then Recorded(old(Abs()), actor, path, action, detail, now) else old(Abs())
    {
      if !managed {
        return;
      }
      var exists_ := path in disk;
      var head := Head(log);
      var inHead := path in head;
      if !exists_ && !inHead {
        return;
      }
      if exists_ && inHead && disk[path] == head[path] {
        return;
      }
      var tree := if exists_ then head[path := disk[path]] else head - {path};
      var parent := ParentHash(log);
      var hash := Hash(|log|);
      log := log + [Commit(tree, Message(action, path, detail), Author(actor), now)];
      UpdateTrashIndex(Entry(path, actor, now, parent, hash), !exists_);
    }

    /** scanDeleted: the walk over the log, newest first. */
    method ScanDeleted() returns (out: seq<Entry>)
      ensures out == Scan(Abs())
    {
      out := [];
      if log == [] {
        return;
      }
      var walked := 0;
      var seen: set<string> := {};
      var k := |log|;
      while k > 0
        invariant walked == |log| - k && Horizon(log) <= k <= |log|
        invariant Scan(Abs()) == out + ScanDown(Abs(), k, Horizon(log), seen)
      {
        walked := walked + 1;
        if walked > SCAN_MAX_WALK {
          break;
        }
        var c := log[k - 1];
        var gone := DeleteLabel(c);
        k := k - 1;
        if gone.None? || gone.value in seen || gone.value in purged {
          continue;
        }
        seen := seen + {gone.value};
        if gone.value in disk || k == 0 {
          continue;
        }
        out := out + [ScanEntry(gone.value, c, k)];
      }
      assert k == Horizon(log);
    }

    /** initTrashIndex. */
    method InitTrashIndex()
      modifies this
      ensures Abs() == Reopened(old(Abs()))
    {
      if index.None? {
        var entries := ScanDeleted();
        index := Some(entries);
        return;
      }
      var entries := LoadTrash();
      var valid := Keep(entries, Restorable(Abs()));
      if |valid| != |entries| {
        index := Some(valid);
      } else {
        FilterSameLength(Restorable(Abs()), entries);
      }
    }

    /** The self-heal of Deleted: files that are back leave the index. */
    method Heal() returns (valid: seq<Entry>)
      modifies this`index
      ensures Abs() == Listed(old(Abs())) && valid == LoadTrash()
    {
      var entries := LoadTrash();
      valid := Keep(entries, AbsentFrom(disk));
      if |valid| != |entries| {
        index := Some(valid);
      } else {
        FilterSameLength(AbsentFrom(disk), entries);
      }
    }

    /** Deleted: heal the index, then list it newest first, up to the limit. What is
        listed was in the index and is not on disk; without a limit that is all of
        it, and what the limit cuts off is no newer than what is listed. */
    method Deleted(limit: int) returns (out: seq<Entry>)
      modifies this`index
      ensures Abs() == Listed(old(Abs()))
      ensures Newest(out)
      ensures limit <= 0 || limit >= |LoadTrash()| ==> multiset(out) == multiset(LoadTrash())
      ensures 0 < limit < |LoadTrash()| ==> |out| == limit && multiset(out) <= multiset(LoadTrash())
      ensures NewestGone(out, old(LoadTrash()), disk, limit)
    {
      ghost var was := LoadTrash();
      var valid := Heal();
      FilterMembers(AbsentFrom(disk), was);
      assert forall e :: e in valid <==> e in was && e.path !in disk;
      out := NewestFirst(valid);
      SameMembers(out, valid);
      if limit > 0 && |out| > limit {
        PrefixWithin(out, limit);
        PrefixNewest(out, limit);
        out := out[..limit];
      }
    }

    /** PurgeDeleted. */
    method PurgeDeleted(paths: seq<string>)
      modifies this
      ensures Abs() == Purged(old(Abs()), set p | p in paths)
    {
      if |paths| == 0 {
        return;
      }
      var drop := set p | p in paths;
      assert paths[0] in drop;
      var kept := Keep(LoadTrash(), NotAmong(drop));
      index := Some(kept);
    }
  }

  /** The entries listed were in the index and are not on disk; all such are listed,
      or as many as the limit allows, and then none that is newer is missing. */
  ghost predicate NewestGone(out: seq<Entry>, index: seq<Entry>, disk: Tree, limit: int) {
    && (forall e :: e in out ==> e in index && e.path !in disk)
    && (forall e :: e in index && e.path !in disk && e !in out ==> 0 < limit == |out|)
    && (forall e, o :: e in index && e.path !in disk && e !in out && o in out ==> o.time >= e.time)
  }

  predicate Newest(entries: seq<Entry>) {
    forall i, j :: 0 <= i < j < |entries| ==> entries[i].time >= entries[j].time
  }

  lemma PrefixWithin(entries: seq<Entry>, n: nat)
    requires n <= |entries|
    ensures multiset(entries[..n]) <= multiset(entries)
  {
    assert entries == entries[..n] + entries[n..];
  }

  lemma SameMembers(a: seq<Entry>, b: seq<Entry>)
    requires multiset(a) == multiset(b)
    ensures forall e :: e in a <==> e in b
  {
    assert forall e :: e in a <==> e in multiset(a);
    assert forall e :: e in b <==> e in multiset(b);
  }

  lemma PrefixNewest(entries: seq<Entry>, n: nat)
    requires Newest(entries) && n <= |entries|
    ensures forall e :: e in entries[..n] ==> e in entries
    ensures forall e, o :: e in entries && e !in entries[..n] && o in entries[..n] ==> o.time >= e.time
  {
    assert entries == entries[..n] + entries[n..];
    forall e, o | e in entries && e !in entries[..n] && o in entries[..n] ensures o.time >= e.time {
      var i :| n <= i < |entries| && entries[i] == e;
      var j :| 0 <= j < n && entries[j] == o;
    }
  }

  /** sort.Slice by time, newest first; this one inserts. */
  method NewestFirst(entries: seq<Entry>) returns (r: seq<Entry>)
    ensures Newest(r) && |r| == |entries|
    ensures multiset(r) == multiset(entries)
  {
    r := [];
    for n := 0 to |entries|
      invariant Newest(r) && |r| == n
      invariant multiset(r) == multiset(entries[..n])
    {
      assert entries[..n + 1] == entries[..n] + [entries[n]];
      r := InsertByTime(r, entries[n]);
    }
    assert entries[..|entries|] == entries;
  }

  method InsertByTime(sorted: seq<Entry>, e: Entry) returns (r: seq<Entry>)
    requires Newest(sorted)
    ensures Newest(r) && |r| == |sorted| + 1 && multiset(r) == multiset(sorted) + multiset{e}
  {
    var k := 0;
    while k < |sorted| && sorted[k].time >= e.time
      invariant k <= |sorted|
      invariant forall i :: 0 <= i < k ==> sorted[i].time >= e.time
    {
      k := k + 1;
    }
    assert sorted == sorted[..k] + sorted[k..];
    r := sorted[..k] + [e] + sorted[k..];
  }
}
