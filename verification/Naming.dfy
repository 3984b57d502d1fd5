/** CreateNote's choice of a path (packages/core/service.go): the file name made
    from a title and the numbered names tried until one is free. */
module Naming {
  import opened Text
  import opened Paths
  import opened Numerals

  predicate Unsafe(c: char) {
    c in "\\/:*?\"<>|"
  }

  /** unsafeFilename.ReplaceAllString(title, "-"): each run becomes one dash. */
  function ReplaceUnsafe(s: string): string
    decreases |s|
  {
    if s == "" then ""
    else if !Unsafe(s[0]) then [s[0]] + ReplaceUnsafe(s[1..])
    else "-" + ReplaceUnsafe(SkipUnsafe(s[1..]))
  }

  function SkipUnsafe(s: string): (r: string)
    ensures |r| <= |s|
  {
    if s != "" && Unsafe(s[0]) then SkipUnsafe(s[1..]) else s
  }

  function FileName(title: string): string {
    TrimSpace(ReplaceUnsafe(title))
  }

  /** The i-th path tried for a name. */
  function Candidate(folder: string, name: string, i: nat): string {
    if i == 0 then TrimPrefix(Clean("/" + PathJoin(folder, name + ".md")), "/")
    else PathJoin(folder, Numbered(name, i))
  }

  /** Where the vault looks for a path: one leading slash is dropped. */
  function Located(p: string): string {
    TrimPrefix(p, "/")
  }

  function Numbered(name: string, i: nat): string {
    name + " " + Decimal(i) + ".md"
  }

  // ------------------------------------------------------------- file names

  lemma {:induction false} ReplacedIsSafe(s: string)
    ensures forall i :: 0 <= i < |ReplaceUnsafe(s)| ==> !Unsafe(ReplaceUnsafe(s)[i])
    decreases |s|
  {
    if s == "" {
    } else {
      if Unsafe(s[0]) {
        ReplacedIsSafe(SkipUnsafe(s[1..]));
      } else {
        ReplacedIsSafe(s[1..]);
      }
    }
  }

  predicate Safe(s: string) {
    forall i :: 0 <= i < |s| ==> !Unsafe(s[i])
  }

  /** Safe text is kept as it is. */
  lemma {:induction false} SafeKept(s: string)
    requires Safe(s)
    ensures ReplaceUnsafe(s) == s
  {
    if s != "" {
      SafeKept(s[1..]);
    }
  }

  lemma {:induction false} SkipsRun(run: string, rest: string)
    requires forall i :: 0 <= i < |run| ==> Unsafe(run[i])
    requires rest == "" || !Unsafe(rest[0])
    ensures SkipUnsafe(run + rest) == rest
  {
    if run == "" {
      assert run + rest == rest;
    } else {
      SkipsRun(run[1..], rest);
      assert (run + rest)[1..] == run[1..] + rest;
    }
  }

  /** Between safe text and the rest, a run of unsafe characters becomes one dash. */
  lemma {:induction false} RunBecomesDash(safe: string, run: string, rest: string)
    requires Safe(safe) && run != "" && forall i :: 0 <= i < |run| ==> Unsafe(run[i])
    requires rest == "" || !Unsafe(rest[0])
    ensures ReplaceUnsafe(safe + run + rest) == safe + "-" + ReplaceUnsafe(rest)
    decreases |safe|
  {
    var s := safe + run + rest;
    if safe == "" {
      assert s[1..] == run[1..] + rest && s[0] == run[0];
      SkipsRun(run[1..], rest);
    } else {
      RunBecomesDash(safe[1..], run, rest);
      assert s[1..] == safe[1..] + run + rest && s[0] == safe[0];
      assert safe == [safe[0]] + safe[1..];
    }
  }

  lemma {:induction false} TrimmedWithin(s: string, c: char)
    requires c !in s
    ensures c !in TrimSpace(s)
  {
    TrimLeftHead(s);
    TrimRightShape(TrimLeft(s));
    var l := TrimLeft(s);
    assert l == s[|s| - |l|..];
    assert forall i :: 0 <= i < |l| ==> l[i] in s;
    assert forall i :: 0 <= i < |TrimRight(l)| ==> TrimRight(l)[i] == l[i];
  }

  /** A file name holds none of the characters that file systems refuse. */
  lemma FileNameIsSafe(title: string)
    ensures Safe(FileName(title)) && '/' !in FileName(title)
  {
    ReplacedIsSafe(title);
    forall c: char | Unsafe(c) ensures c !in FileName(title) {
      assert c !in ReplaceUnsafe(title);
      TrimmedWithin(ReplaceUnsafe(title), c);
    }
  }

  // ---------------------------------------------------------- the paths tried

  /** In a folder given without detours, the paths tried are the name there, and
      then the name with a number behind it. */
  lemma TriedInFolder(folder: seq<string>, name: string, i: nat)
    requires folder != [] && '/' !in name
    requires AllPlain(folder)
    ensures Candidate(Join(folder, '/'), name, 0) == Join(folder, '/') + "/" + name + ".md"
    ensures i > 0 ==> Candidate(Join(folder, '/'), name, i) == Join(folder, '/') + "/" + name + " " + Decimal(i) + ".md"
  {
    var dir := Join(folder, '/');
    assert (name + ".md")[|name|] == '.' && |name + ".md"| >= 3;
    FirstInFolder(folder, name + ".md");
    assert dir + "/" + (name + ".md") == dir + "/" + name + ".md";
    if i > 0 {
      NumberedPlain(name, i);
      JoinedPath(folder, Numbered(name, i));
      NumberedText(dir, name, i);
    }
  }

  lemma NumberedText(dir: string, name: string, i: nat)
    ensures dir + "/" + Numbered(name, i) == dir + "/" + name + " " + Decimal(i) + ".md"
  {
  }

  lemma FirstInFolder(folder: seq<string>, e: string)
    requires folder != [] && Plain(e) && AllPlain(folder)
    ensures TrimPrefix(Clean("/" + PathJoin(Join(folder, '/'), e)), "/") == Join(folder, '/') + "/" + e
  {
    JoinedPath(folder, e);
    PlainPath(folder + [e]);
    var p := Join(folder, '/') + "/" + e;
    assert ("/" + p)[1..] == p;
  }

  lemma JoinedPath(folder: seq<string>, e: string)
    requires folder != [] && Plain(e) && AllPlain(folder)
    ensures PathJoin(Join(folder, '/'), e) == Join(folder, '/') + "/" + e == Join(folder + [e], '/')
  {
    JoinedText(folder, e);
    PlainPath(folder);
    PlainPath(folder + [e]);
  }

  // -------------------------------------------------------------- injectivity

  lemma {:induction false} CleanOntoSnoc(kept: seq<string>, elems: seq<string>, e: string, rooted: bool)
    requires Plain(e)
    ensures CleanOnto(kept, elems + [e], rooted) == CleanOnto(kept, elems, rooted) + [e]
    decreases |elems|
  {
    if elems == [] {
      assert [e][1..] == [];
      assert elems + [e] == [e];
    } else {
      assert (elems + [e])[0] == elems[0] && (elems + [e])[1..] == elems[1..] + [e];
      var rest := elems[1..];
      var h := elems[0];
      if h == "" || h == "." {
        CleanOntoSnoc(kept, rest, e, rooted);
      } else if h == ".." {
        if kept != [] && kept[|kept| - 1] != ".." {
          CleanOntoSnoc(kept[..|kept| - 1], rest, e, rooted);
        } else if rooted {
          CleanOntoSnoc(kept, rest, e, rooted);
        } else {
          CleanOntoSnoc(kept + [h], rest, e, rooted);
        }
      } else {
        CleanOntoSnoc(kept + [h], rest, e, rooted);
      }
    }
  }

  lemma {:induction false} JoinedLast(elems: seq<string>, e: string)
    requires '/' !in e
    ensures AfterSlash(Join(elems + [e], '/')) == e
    ensures AfterSlash("/" + Join(elems + [e], '/')) == e
  {
    if elems == [] {
      assert elems + [e] == [e];
      AfterSlashLast("", e);
      assert "" + "/" + e == "/" + e;
    } else {
      JoinedText(elems, e);
      AfterSlashLast(Join(elems, '/'), e);
      AfterSlashLast("/" + Join(elems, '/'), e);
      assert "/" + (Join(elems, '/') + "/" + e) == "/" + Join(elems, '/') + "/" + e;
    }
  }

  lemma {:induction false} JoinedText(elems: seq<string>, e: string)
    requires elems != []
    ensures Join(elems + [e], '/') == Join(elems, '/') + "/" + e
  {
    assert (elems + [e])[1..] == elems[1..] + [e];
    if |elems| > 1 {
      JoinedText(elems[1..], e);
      JoinCons(elems[0], elems[1..] + [e], '/');
      assert [elems[0]] + (elems[1..] + [e]) == elems + [e];
      Regroup(elems[0], Join(elems[1..], '/'), e);
    } else {
      JoinCons(elems[0], [e], '/');
      assert [elems[0]] + [e] == elems + [e];
    }
  }

  lemma Regroup(a: string, b: string, e: string)
    ensures a + ['/'] + (b + "/" + e) == a + ['/'] + b + "/" + e
  {
  }

  /** A joined path ends in the element joined. */
  lemma JoinEndsIn(dir: string, e: string)
    requires Plain(e)
    ensures AfterSlash(PathJoin(dir, e)) == e
  {
    if dir == "" {
      IndexOfFirst(e, '/');
      assert Split(e, '/') == [] + [e];
      CleanOntoSnoc([], [], e, false);
      AfterSlashLast("", e);
      assert Clean(e) == e;
    } else {
      IndexOfFirst(e, '/');
      SplitAppend(dir, '/', e);
      var p := dir + "/" + e;
      var rooted := p[0] == '/';
      CleanOntoSnoc([], Split(dir, '/'), e, rooted);
      JoinedLast(CleanOnto([], Split(dir, '/'), rooted), e);
      JoinedNotEmpty(CleanOnto([], Split(dir, '/'), rooted), e);
    }
  }

  lemma JoinedNotEmpty(elems: seq<string>, e: string)
    requires e != ""
    ensures Join(elems + [e], '/') != ""
  {
    if elems == [] {
      assert elems + [e] == [e];
    } else {
      JoinedText(elems, e);
    }
  }

  lemma NumberedPlain(name: string, i: nat)
    requires '/' !in name
    ensures Plain(Numbered(name, i))
  {
    DecimalDigits(i);
    var e := Numbered(name, i);
    assert |e| >= 5;
    assert e == name + (" " + Decimal(i) + ".md");
  }

  lemma {:induction false} AfterSlashLocated(p: string)
    ensures AfterSlash(Located(p)) == AfterSlash(p)
  {
    if p == "" || p[|p| - 1] == '/' || p[0] != '/' {
      if p != "" && p[0] == '/' && |p| > 1 {
        assert Located(p) == p[1..] && p[1..][|p| - 2] == '/';
      }
    } else {
      var init := p[..|p| - 1];
      AfterSlashLocated(init);
      assert Located(p) == p[1..] && Located(init) == init[1..] && p[1..][..|p| - 2] == init[1..];
    }
  }

  /** Different numbers give different places. */
  lemma CandidatesInjective(folder: string, name: string, i: nat, j: nat)
    requires '/' !in name && i > 0 && j > 0
    requires Located(Candidate(folder, name, i)) == Located(Candidate(folder, name, j))
    ensures i == j
  {
    var a, b := Numbered(name, i), Numbered(name, j);
    NumberedPlain(name, i);
    NumberedPlain(name, j);
    JoinEndsIn(folder, a);
    JoinEndsIn(folder, b);
    AfterSlashLocated(Candidate(folder, name, i));
    AfterSlashLocated(Candidate(folder, name, j));
    assert a == b;
    assert a[|name| + 1..|a| - 3] == Decimal(i);
    assert b[|name| + 1..|b| - 3] == Decimal(j);
    DecimalInjective(i, j);
  }

  /** The places of the first n numbered candidates. */
  function Tried(folder: string, name: string, n: nat): set<string> {
    if n == 0 then {} else Tried(folder, name, n - 1) + {Located(Candidate(folder, name, n))}
  }

  lemma {:induction false} TriedMembers(folder: string, name: string, n: nat)
    ensures forall x :: x in Tried(folder, name, n) ==>
              exists k :: 1 <= k <= n && x == Located(Candidate(folder, name, k))
  {
    if n == 0 {
    } else {
      TriedMembers(folder, name, n - 1);
    }
  }

  lemma NextIsNew(folder: string, name: string, n: nat)
    requires '/' !in name && n > 0
    ensures Located(Candidate(folder, name, n)) !in Tried(folder, name, n - 1)
  {
    TriedMembers(folder, name, n - 1);
    forall k | 1 <= k <= n - 1 ensures Located(Candidate(folder, name, k)) != Located(Candidate(folder, name, n)) {
      if Located(Candidate(folder, name, k)) == Located(Candidate(folder, name, n)) {
        CandidatesInjective(folder, name, k, n);
      }
    }
  }

  lemma {:induction false} TriedSize(folder: string, name: string, n: nat)
    requires '/' !in name
    ensures |Tried(folder, name, n)| == n
  {
    if n == 0 {
    } else {
      TriedSize(folder, name, n - 1);
      NextIsNew(folder, name, n);
    }
  }

  /** Pigeonhole: if the first i candidates are all taken, the vault has at least
      i - 1 entries. */
  lemma TakenBound(folder: string, name: string, entries: set<string>, i: nat)
    requires '/' !in name
    requires forall k :: 0 <= k < i ==> Located(Candidate(folder, name, k)) in entries
    ensures i <= |entries| + 1
  {
    if i > 0 {
      TriedSize(folder, name, i - 1);
      TriedMembers(folder, name, i - 1);
      SubsetSize(Tried(folder, name, i - 1), entries);
    }
  }

  /** CreateNote's loop: the first free candidate, found after at most one more
      step than there are entries in the vault. */
  method FreePath(folder: string, name: string, entries: set<string>) returns (p: string, i: nat)
    requires '/' !in name
    ensures p == Candidate(folder, name, i) && Located(p) !in entries
    ensures forall k :: 0 <= k < i ==> Located(Candidate(folder, name, k)) in entries
    ensures i <= |entries| + 1
  {
    p := Candidate(folder, name, 0);
    i := 0;
    while Located(p) in entries
      invariant p == Candidate(folder, name, i)
      invariant forall k :: 0 <= k < i ==> Located(Candidate(folder, name, k)) in entries
      invariant i <= |entries| + 1
      decreases |entries| + 1 - i
    {
      i := i + 1;
      p := PathJoin(folder, Numbered(name, i));
      TakenBound(folder, name, entries, i);
    }
  }

  lemma {:induction false} SubsetSize<T>(a: set<T>, b: set<T>)
    requires a <= b
    ensures |a| <= |b|
  {
    if a == {} {
    } else {
      var x :| x in a;
      SubsetSize(a - {x}, b - {x});
    }
  }
}
