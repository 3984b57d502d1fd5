/** Go's path package and the note-path helpers, on slash-separated names. */
module Paths {
  import opened Text

  /** path.Base. */
  function Base(p: string): string {
    if p == "" then "."
    else
      var q := TrimSlashes(p);
      if q == "" then "/" else AfterSlash(q)
  }

  function TrimSlashes(p: string): string {
    if p != "" && p[|p| - 1] == '/' then TrimSlashes(p[..|p| - 1]) else p
  }

  /** The text after the last slash. */
  function AfterSlash(p: string): string {
    if p == "" then ""
    else if p[|p| - 1] == '/' then ""
    else AfterSlash(p[..|p| - 1]) + [p[|p| - 1]]
  }

  /** path.Ext: from the last dot of the last element. */
  function Ext(p: string): string {
    if p == "" || p[|p| - 1] == '/' then ""
    else if p[|p| - 1] == '.' then "."
    else
      var e := Ext(p[..|p| - 1]);
      if e == "" then "" else e + [p[|p| - 1]]
  }

  /** The elements path.Clean keeps, one at a time: empty ones and "." go, ".."
      takes back the element before it unless there is none. */
  function CleanOnto(kept: seq<string>, elems: seq<string>, rooted: bool): seq<string>
    decreases |elems|
  {
    if elems == [] then kept
    else
      var e, rest := elems[0], elems[1..];
      if e == "" || e == "." then CleanOnto(kept, rest, rooted)
      else if e == ".." then
        if kept != [] && kept[|kept| - 1] != ".." then CleanOnto(kept[..|kept| - 1], rest, rooted)
        else if rooted then CleanOnto(kept, rest, rooted)
        else CleanOnto(kept + [e], rest, rooted)
      else CleanOnto(kept + [e], rest, rooted)
  }

  /** path.Clean. */
  function Clean(p: string): string {
    if p == "" then "."
    else
      var rooted := p[0] == '/';
      var kept := Join(CleanOnto([], Split(p, '/'), rooted), '/');
      if rooted then "/" + kept else if kept == "" then "." else kept
  }

  /** path.Join of two elements. */
  function PathJoin(dir: string, elem: string): string {
    if dir == "" then (if elem == "" then "" else Clean(elem))
    else if elem == "" then Clean(dir)
    else Clean(dir + "/" + elem)
  }

  predicate IsMarkdown(p: string) {
    HasSuffix(ToLower(p), ".md")
  }

  /** NormalizeNotePath. */
  function Normalize(p: string): string {
    var q := TrimPrefix(Clean("/" + TrimSpace(p)), "/");
    if q == "" then q
    else if IsMarkdown(q) then q
    else q + ".md"
  }

  // ---------------------------------------------------------- the last element

  lemma {:induction false} AfterSlashLast(s: string, e: string)
    requires '/' !in e
    ensures AfterSlash(s + "/" + e) == e && AfterSlash(e) == e
  {
    if e == "" {
      assert s + "/" + e == s + "/";
    } else {
      var init := e[..|e| - 1];
      AfterSlashLast(s, init);
      assert (s + "/" + e)[..|s + "/" + e| - 1] == s + "/" + init;
      assert (s + "/" + e)[|s + "/" + e| - 1] == e[|e| - 1];
      assert e == init + [e[|e| - 1]];
    }
  }

  /** A folder with its closing slash, or none. */
  predicate IsFolder(dir: string) {
    dir == "" || dir[|dir| - 1] == '/'
  }

  /** A name of one element. */
  predicate IsName(e: string) {
    e != "" && '/' !in e
  }

  /** The last element of a path is the name behind its folder. */
  lemma BaseIsName(dir: string, name: string)
    requires IsFolder(dir) && IsName(name)
    ensures Base(dir + name) == name
  {
    var p := dir + name;
    assert p[|p| - 1] == name[|name| - 1];
    assert TrimSlashes(p) == p;
    if dir == "" {
      assert p == name;
      AfterSlashLast("", name);
    } else {
      var d := dir[..|dir| - 1];
      AfterSlashLast(d, name);
      assert p == d + "/" + name;
    }
  }

  /** The extension of a path is what follows the last dot of its name, with the
      dot. */
  lemma {:induction false} ExtIsLastDot(stem: string, e: string)
    requires '.' !in e && '/' !in e
    ensures Ext(stem + "." + e) == "." + e
  {
    var p := stem + "." + e;
    if e != "" {
      ExtIsLastDot(stem, e[..|e| - 1]);
      assert p[..|p| - 1] == stem + "." + e[..|e| - 1];
      assert p[|p| - 1] == e[|e| - 1];
      assert "." + e == "." + e[..|e| - 1] + [e[|e| - 1]];
    } else {
      assert p[|p| - 1] == '.';
    }
  }

  lemma {:induction false} ExtWithoutDot(dir: string, name: string)
    requires IsFolder(dir) && '.' !in name && '/' !in name
    ensures Ext(dir + name) == ""
  {
    var p := dir + name;
    if name == "" {
      assert p == dir;
    } else {
      ExtWithoutDot(dir, name[..|name| - 1]);
      assert p[..|p| - 1] == dir + name[..|name| - 1] && p[|p| - 1] == name[|name| - 1];
    }
  }

  // ------------------------------------------------------------- clean paths

  /** An element that path.Clean keeps. */
  predicate Plain(e: string) {
    e != "" && e != "." && e != ".." && '/' !in e
  }

  predicate AllPlain(elems: seq<string>) {
    forall i :: 0 <= i < |elems| ==> Plain(elems[i])
  }

  lemma {:induction false} CleanOntoPlain(kept: seq<string>, elems: seq<string>)
    requires AllPlain(kept) && forall i :: 0 <= i < |elems| ==> '/' !in elems[i]
    ensures AllPlain(CleanOnto(kept, elems, true))
    decreases |elems|
  {
    if elems != [] {
      var e, rest := elems[0], elems[1..];
      if e == "" || e == "." {
        CleanOntoPlain(kept, rest);
      } else if e == ".." {
        CleanOntoPlain(if kept != [] then kept[..|kept| - 1] else kept, rest);
      } else {
        CleanOntoPlain(kept + [e], rest);
      }
    }
  }

  lemma {:induction false} CleanOntoFixed(kept: seq<string>, elems: seq<string>, rooted: bool)
    requires AllPlain(elems)
    ensures CleanOnto(kept, elems, rooted) == kept + elems
    decreases |elems|
  {
    if elems != [] {
      CleanOntoFixed(kept + [elems[0]], elems[1..], rooted);
      assert kept + elems == kept + [elems[0]] + elems[1..];
    }
  }

  /** An element and the `..` behind it might as well not be there. */
  lemma {:induction false} DetourDrops(kept: seq<string>, before: seq<string>, e: string, rest: seq<string>,
      rooted: bool)
    requires Plain(e)
    ensures CleanOnto(kept, before + [e, ".."] + rest, rooted) == CleanOnto(kept, before + rest, rooted)
    decreases |before|
  {
    var a, d := before + [e, ".."] + rest, before + rest;
    if before == [] {
      assert d == rest && a[1..] == [".."] + rest && ([".."] + rest)[1..] == rest;
      assert (kept + [e])[..|kept|] == kept;
    } else {
      var more := before[1..];
      assert a[1..] == more + [e, ".."] + rest && d[1..] == more + rest;
      DetourDrops(kept, more, e, rest, rooted);
      DetourDrops(kept + [before[0]], more, e, rest, rooted);
      if kept != [] {
        DetourDrops(kept[..|kept| - 1], more, e, rest, rooted);
      }
    }
  }

  /** So might an empty element or a dot. */
  lemma {:induction false} BlankDrops(kept: seq<string>, before: seq<string>, e: string, rest: seq<string>,
      rooted: bool)
    requires e == "" || e == "."
    ensures CleanOnto(kept, before + [e] + rest, rooted) == CleanOnto(kept, before + rest, rooted)
    decreases |before|
  {
    var b, d := before + [e] + rest, before + rest;
    if before == [] {
      assert d == rest && b[1..] == rest;
    } else {
      var more := before[1..];
      assert b[1..] == more + [e] + rest && d[1..] == more + rest;
      BlankDrops(kept, more, e, rest, rooted);
      BlankDrops(kept + [before[0]], more, e, rest, rooted);
      if kept != [] {
        BlankDrops(kept[..|kept| - 1], more, e, rest, rooted);
      }
    }
  }

  lemma LowerEnded(s: string)
    ensures ToLower(s + ".md") == ToLower(s) + ".md"
  {
    LowerAppend(s, ".md");
    assert ToLower(".md") == ".md";
  }

  lemma JoinNotEmpty(elems: seq<string>)
    requires elems != [] && AllPlain(elems)
    ensures Join(elems, '/') != "" && Join(elems, '/')[0] == elems[0][0]
  {
    if |elems| > 1 {
      assert Join(elems, '/') == elems[0] + ['/'] + Join(elems[1..], '/');
    }
  }

  /** A path without detours is clean already, with or without a slash before it. */
  lemma PlainPath(elems: seq<string>)
    requires elems != [] && AllPlain(elems)
    ensures Clean(Join(elems, '/')) == Join(elems, '/') != ""
    ensures Clean("/" + Join(elems, '/')) == "/" + Join(elems, '/')
    ensures Join(elems, '/')[0] != '/'
  {
    var p := Join(elems, '/');
    JoinNotEmpty(elems);
    SplitJoin(elems, '/');
    CleanOntoFixed([], elems, false);
    assert [] + elems == elems;
    SplitCons("", '/', p);
    assert "" + ['/'] + p == "/" + p;
    assert ([""] + elems)[1..] == elems;
    CleanOntoFixed([], elems, true);
  }

  /** A normalized path is empty, or it stays inside the vault and names a note: no
      element of it is empty, a dot or `..`, and it ends in .md in some case. */
  lemma NormalStaysInside(p: string)
    ensures var q := Normalize(p);
            q == "" || (AllPlain(Split(q, '/')) && IsMarkdown(q))
  {
    var t := TrimSpace(p);
    var elems := CleanOnto([], Split("/" + t, '/'), true);
    SplitFree("/" + t, '/');
    CleanOntoPlain([], Split("/" + t, '/'));
    var q := Join(elems, '/');
    assert Clean("/" + t) == "/" + q && TrimPrefix("/" + q, "/") == q;
    if elems != [] {
      SplitJoin(elems, '/');
      JoinNotEmpty(elems);
      if !IsMarkdown(q) {
        EndedPlain(elems);
      }
    }
  }

  lemma {:induction false} JoinOnto(elems: seq<string>, end: string)
    requires elems != []
    ensures Join(elems[..|elems| - 1] + [elems[|elems| - 1] + end], '/') == Join(elems, '/') + end
  {
    var n := |elems| - 1;
    var more := elems[..n] + [elems[n] + end];
    if n > 0 {
      JoinOnto(elems[1..], end);
      assert more[1..] == elems[1..][..n - 1] + [elems[1..][n - 1] + end];
      assert elems[0] + ['/'] + (Join(elems[1..], '/') + end) == elems[0] + ['/'] + Join(elems[1..], '/') + end;
    }
  }

  lemma EndedPlain(elems: seq<string>)
    requires elems != [] && AllPlain(elems)
    ensures AllPlain(Split(Join(elems, '/') + ".md", '/')) && IsMarkdown(Join(elems, '/') + ".md")
  {
    var n := |elems| - 1;
    var more := elems[..n] + [elems[n] + ".md"];
    JoinOnto(elems, ".md");
    EndedName(elems[..n], elems[n]);
    SplitJoin(more, '/');
    EndedIsMarkdown(Join(elems, '/'));
  }

  lemma EndedName(before: seq<string>, e: string)
    requires Plain(e) && AllPlain(before)
    ensures AllPlain(before + [e + ".md"])
  {
  }

  lemma EndedIsMarkdown(p: string)
    ensures IsMarkdown(p + ".md")
  {
    LowerEnded(p);
  }

  /** A path given without detours and outer white space stays as it is, but for the
      ending where that is missing. */
  lemma NormalKeepsPlain(elems: seq<string>)
    requires elems != [] && AllPlain(elems) && TrimSpace(Join(elems, '/')) == Join(elems, '/')
    ensures var p := Join(elems, '/');
            Normalize(p) == if IsMarkdown(p) then p else p + ".md"
  {
    PlainPath(elems);
    assert ("/" + Join(elems, '/'))[1..] == Join(elems, '/');
  }
}
