/** packages/links/index.go: the wiki-link index, its layered resolver and the
    three queries over it. Parsing a note into aliases and links is an input. */
module Links {
  import opened Wrappers
  import opened Text
  import opened Paths
  import opened Slices
  import opened Sums

  datatype Link = Link(raw: string, fragment: string, alias: string, embed: bool)

  datatype Index = Index(
    byName: map<string, string>,
    byAlias: map<string, string>,
    files: set<string>,
    outgoing: map<string, seq<Link>>)

  const EMPTY := Index(map[], map[], {}, map[])

  /** nameKey: the lower-case basename without its extension. */
  function NameKey(p: string): string {
    ToLower(TrimSuffix(Base(p), Ext(Base(p))))
  }

  function FileKey(p: string): string {
    ToLower(Base(p))
  }

  // ---------------------------------------------------------------- updates

  function DropIf(m: map<string, string>, key: string, target: string): map<string, string> {
    if key in m && m[key] == target then m - {key} else m
  }

  function DropTarget(m: map<string, string>, target: string): map<string, string> {
    map k | k in m && m[k] != target :: m[k]
  }

  function Removed(s: Index, p: string): Index {
    Index(DropIf(DropIf(s.byName, NameKey(p), p), FileKey(p), p),
          DropTarget(s.byAlias, p),
          s.files - {p},
          s.outgoing - {p})
  }

  function WithAliases(m: map<string, string>, aliases: seq<string>, p: string): map<string, string> {
    if aliases == [] then m
    else WithAliases(m, aliases[..|aliases| - 1], p)[ToLower(aliases[|aliases| - 1]) := p]
  }

  function Updated(s: Index, p: string, aliases: seq<string>, links: seq<Link>): Index {
    var r := Removed(s, p);
    Index(r.byName[NameKey(p) := p], WithAliases(r.byAlias, aliases, p), r.files + {p}, r.outgoing[p := links])
  }

  lemma UpdatedIs(s: Index, p: string, aliases: seq<string>, links: seq<Link>)
    ensures var r := Removed(s, p);
            Updated(s, p, aliases, links)
            == Index(r.byName[NameKey(p) := p], WithAliases(r.byAlias, aliases, p), r.files + {p},
                r.outgoing[p := links])
  {
  }

  function Registered(s: Index, p: string): Index {
    s.(files := s.files + {p}, byName := s.byName[FileKey(p) := p])
  }

  // --------------------------------------------------------------- resolver

  /** The key of the name a target ends in. */
  function TargetName(target: string): string {
    ToLower(Base(TrimSuffix(ToLower(target), ".md")))
  }

  /** resolveLocked: exact path, exact path with .md, name (with the path suffix
      when the target has a folder), whole name, alias. */
  function Resolve(s: Index, target: string): Option<string> {
    var lower, name := ToLower(target), TargetName(target);
    if target in s.files then Some(target)
    else if target + ".md" in s.files then Some(target + ".md")
    else if name in s.byName
         && ('/' !in target
             || HasSuffix(ToLower(s.byName[name]), lower + ".md")
             || HasSuffix(ToLower(s.byName[name]), lower)) then Some(s.byName[name])
    else if lower in s.byName then Some(s.byName[lower])
    else if lower in s.byAlias then Some(s.byAlias[lower])
    else None
  }

  /** The exported Resolve. */
  function ResolveTarget(s: Index, target: string): Option<string> {
    var t := TrimSpace(target);
    if t == "" then None else Resolve(s, t)
  }

  // -------------------------------------------------------------- invariant

  /** Names, aliases and sources point at indexed files only, and every name
      key is one of the two key forms of the path it stands for. */
  ghost predicate Live(s: Index) {
    && (forall k :: k in s.byName ==>
          s.byName[k] in s.files && (k == NameKey(s.byName[k]) || k == FileKey(s.byName[k])))
    && (forall k :: k in s.byAlias ==> s.byAlias[k] in s.files)
    && s.outgoing.Keys <= s.files
  }

  /** A path known under two keys only is gone once both are dropped. */
  lemma DropBoth(m: map<string, string>, a: string, b: string, p: string)
    requires forall k :: k in m && m[k] == p ==> k == a || k == b
    ensures var r := DropIf(DropIf(m, a, p), b, p);
            && (forall k :: k in r ==> k in m && r[k] == m[k] && r[k] != p)
            && (forall k :: k in m && m[k] != p ==> k in r)
  {
  }

  lemma RemovedLive(s: Index, p: string)
    requires Live(s)
    ensures Live(Removed(s, p))
    ensures p !in Removed(s, p).files
  {
    DropBoth(s.byName, NameKey(p), FileKey(p), p);
    var r := Removed(s, p);
    assert forall k :: k in r.byName ==> k in s.byName && r.byName[k] == s.byName[k] && r.byName[k] != p;
    assert forall k :: k in r.byAlias ==> k in s.byAlias && r.byAlias[k] == s.byAlias[k] && r.byAlias[k] != p;
  }

  lemma ResolveLive(s: Index, target: string)
    requires Live(s)
    ensures Resolve(s, target).Some? ==> Resolve(s, target).value in s.files
    ensures target in s.files ==> Resolve(s, target) == Some(target)
  {
  }

  lemma {:induction false} WithAliasesLive(m: map<string, string>, aliases: seq<string>, p: string, files: set<string>)
    requires p in files && forall k :: k in m ==> m[k] in files
    ensures forall k :: k in WithAliases(m, aliases, p) ==> WithAliases(m, aliases, p)[k] in files
  {
    if aliases == [] {
    } else {
      WithAliasesLive(m, aliases[..|aliases| - 1], p, files);
    }
  }

  lemma UpdatedLive(s: Index, p: string, aliases: seq<string>, links: seq<Link>)
    requires Live(s)
    ensures Live(Updated(s, p, aliases, links))
  {
    RemovedLive(s, p);
    WithAliasesLive(Removed(s, p).byAlias, aliases, p, s.files + {p});
  }

  datatype Change =
    | Update(path: string, aliases: seq<string>, links: seq<Link>)
    | Register(path: string)
    | Remove(path: string)

  function Apply(s: Index, c: Change): Index {
    match c
    case Update(p, aliases, links) => Updated(s, p, aliases, links)
    case Register(p) => Registered(s, p)
    case Remove(p) => Removed(s, p)
  }

  function Run(changes: seq<Change>): Index {
    if changes == [] then EMPTY else Apply(Run(changes[..|changes| - 1]), changes[|changes| - 1])
  }

  lemma {:induction false} RunLive(changes: seq<Change>)
    ensures Live(Run(changes))
  {
    if changes == [] {
    } else {
      var s, c := Run(changes[..|changes| - 1]), changes[|changes| - 1];
      RunLive(changes[..|changes| - 1]);
      match c
      case Update(p, aliases, links) => UpdatedLive(s, p, aliases, links);
      case Register(p) =>
      case Remove(p) => RemovedLive(s, p);
    }
  }

  /** After any sequence of changes a target resolves only to an indexed file,
      and every indexed path resolves to itself. */
  lemma ResolvesOnlyToLiveFiles(changes: seq<Change>, target: string)
    ensures var s := Run(changes);
            && (Resolve(s, target).Some? ==> Resolve(s, target).value in s.files)
            && (target in s.files ==> Resolve(s, target) == Some(target))
  {
    RunLive(changes);
    ResolveLive(Run(changes), target);
  }

  /** Once a path is removed, nothing resolves to it: no path, name or alias. */
  lemma RemovedNeverResolves(changes: seq<Change>, p: string, target: string)
    ensures Resolve(Run(changes + [Remove(p)]), target) != Some(p)
    ensures ResolveTarget(Run(changes + [Remove(p)]), target) != Some(p)
  {
    assert (changes + [Remove(p)])[..|changes|] == changes;
    RunLive(changes);
    RemovedLive(Run(changes), p);
    ResolveLive(Removed(Run(changes), p), target);
    ResolveLive(Removed(Run(changes), p), TrimSpace(target));
  }

  // ------------------------------------------------------ what a target reaches

  /** The note called name, in the folder front + folder. */
  function NotePath(front: string, folder: string, name: string): string {
    front + folder + name + ".md"
  }

  /** A folder and a name as a link may give them; the front may end inside an
      element as long as the link names a folder. */
  predicate Placed(front: string, folder: string, name: string) {
    IsName(name) && IsFolder(folder) && IsFolder(front + folder)
  }

  /** The target gives folder and name in any case, with the ending or, where that
      is plain, without. */
  predicate NamesNote(folder: string, name: string, target: string) {
    || SameText(target, folder + name + ".md")
    || (SameText(target, folder + name) && !IsMarkdown(folder + name))
  }

  /** The path ends in the text, in any case. */
  predicate EndsInText(p: string, text: string) {
    |text| <= |p| && SameText(p[|p| - |text|..], text)
  }

  lemma LowerTwice(s: string)
    ensures ToLower(ToLower(s)) == ToLower(s)
  {
    LowerExactly(ToLower(s), s);
  }

  lemma LowerName(folder: string, name: string)
    requires IsFolder(folder) && IsName(name)
    ensures IsFolder(ToLower(folder)) && IsName(ToLower(name))
  {
  }

  lemma WithoutEnding(name: string)
    ensures TrimSuffix(name + ".md", Ext(name + ".md")) == name
  {
    ExtIsLastDot(name, "md");
    assert name + "." + "md" == name + ".md" && "." + "md" == ".md";
    assert (name + ".md")[..|name|] == name;
  }

  /** The keys of a note are its name and its file name, in lower case. */
  lemma NoteKeys(dir: string, name: string)
    requires IsFolder(dir) && IsName(name)
    ensures NameKey(dir + name + ".md") == ToLower(name)
    ensures FileKey(dir + name + ".md") == ToLower(name + ".md")
  {
    assert dir + name + ".md" == dir + (name + ".md");
    BaseIsName(dir, name + ".md");
    WithoutEnding(name);
  }

  /** The name a target asks for is what stands behind its last slash, with or
      without the ending. */
  lemma TargetNames(folder: string, name: string, target: string)
    requires IsFolder(folder) && IsName(name)
    requires NamesNote(folder, name, target)
    ensures TargetName(target) == ToLower(name)
  {
    var f, n, lower := ToLower(folder), ToLower(name), ToLower(target);
    LowerName(folder, name);
    LowerAppend(folder, name);
    BaseIsName(f, n);
    LowerTwice(name);
    if SameText(target, folder + name + ".md") {
      LowerExactly(target, folder + name + ".md");
      LowerEnded(folder + name);
      assert lower == f + n + ".md";
      assert lower[..|lower| - 3] == f + n;
    } else {
      LowerExactly(target, folder + name);
      assert lower == f + n;
    }
  }

  lemma SameLast(p: string, text: string)
    ensures HasSuffix(ToLower(p), ToLower(text)) <==> EndsInText(p, text)
  {
    if |text| <= |p| {
      var k := |p| - |text|;
      LowerExactly(p[k..], text);
      LowerAppend(p[..k], p[k..]);
      assert p == p[..k] + p[k..];
      assert ToLower(p)[k..] == ToLower(p[k..]);
    }
  }

  lemma SameLasts(p: string, target: string)
    ensures HasSuffix(ToLower(p), ToLower(target)) <==> EndsInText(p, target)
    ensures HasSuffix(ToLower(p), ToLower(target) + ".md") <==> EndsInText(p, target + ".md")
  {
    SameLast(p, target);
    SameLast(p, target + ".md");
    LowerEnded(target);
  }

  lemma SameEnd(front: string, text: string, target: string)
    requires SameText(target, text)
    ensures EndsInText(front + text, target)
  {
    assert (front + text)[|front|..] == text;
  }

  lemma SameOnto(a: string, b: string, end: string)
    requires SameText(a, b)
    ensures SameText(a + end, b + end)
  {
  }

  lemma LastChange(changes: seq<Change>, c: Change)
    ensures Run(changes + [c]) == Apply(Run(changes), c)
  {
    assert (changes + [c])[..|changes|] == changes;
  }

  /** Where the name key leads: to the path it stands for, if the target ends it. */
  lemma KeyReaches(s: Index, target: string, p: string)
    requires TargetName(target) in s.byName && s.byName[TargetName(target)] == p
    requires EndsInText(p, target) || EndsInText(p, target + ".md")
    ensures target !in s.files && target + ".md" !in s.files ==> Resolve(s, target) == Some(p)
  {
    SameLasts(p, target);
  }

  lemma NoteEnds(front: string, folder: string, name: string, target: string)
    requires SameText(target, folder + name + ".md") || SameText(target, folder + name)
    ensures EndsInText(NotePath(front, folder, name), target)
            || EndsInText(NotePath(front, folder, name), target + ".md")
  {
    assert NotePath(front, folder, name) == front + (folder + name + ".md");
    if SameText(target, folder + name + ".md") {
      SameEnd(front, folder + name + ".md", target);
    } else {
      SameOnto(target, folder + name, ".md");
      SameEnd(front, folder + name + ".md", target + ".md");
    }
  }

  /** Right after its update a note is reached by its name, by any folder and name
      it ends in, with or without the ending and in any case; only an indexed path
      that is written just so comes first. */
  lemma NameReaches(changes: seq<Change>, front: string, folder: string, name: string, aliases: seq<string>,
                    links: seq<Link>, target: string)
    requires Placed(front, folder, name)
    requires NamesNote(folder, name, target)
    ensures var p := NotePath(front, folder, name);
            var s := Run(changes + [Update(p, aliases, links)]);
            target !in s.files && target + ".md" !in s.files ==> Resolve(s, target) == Some(p)
  {
    var p := NotePath(front, folder, name);
    LastChange(changes, Update(p, aliases, links));
    NoteKeys(front + folder, name);
    TargetNames(folder, name, target);
    NoteEnds(front, folder, name, target);
    KeyReaches(Run(changes + [Update(p, aliases, links)]), target, p);
  }

  /** A note whose name itself ends in .md is reached by it unless a note without
      that ending has been indexed. */
  lemma WholeNameReaches(changes: seq<Change>, dir: string, name: string, aliases: seq<string>, links: seq<Link>,
                         target: string)
    requires IsFolder(dir) && IsName(name) && SameText(target, name)
    ensures var p := NotePath(dir, "", name);
            var s := Run(changes + [Update(p, aliases, links)]);
            target !in s.files && target + ".md" !in s.files && TargetName(target) !in s.byName ==>
              Resolve(s, target) == Some(p)
  {
    var p := NotePath(dir, "", name);
    LastChange(changes, Update(p, aliases, links));
    assert dir + "" == dir;
    NoteKeys(dir, name);
    LowerExactly(target, name);
  }

  lemma RegisteredLeads(s: Index, p: string, target: string)
    requires TargetName(target) == FileKey(p) && EndsInText(p, target)
    ensures var r := Registered(s, p);
            target !in r.files && target + ".md" !in r.files ==> Resolve(r, target) == Some(p)
  {
    KeyReaches(Registered(s, p), target, p);
  }

  /** A registered file is reached by its whole name and by any folder and name it
      ends in, in any case. */
  lemma FileReached(changes: seq<Change>, front: string, folder: string, name: string, target: string)
    requires Placed(front, folder, name) && SameText(target, folder + name) && !IsMarkdown(folder + name)
    ensures var p := front + folder + name;
            var s := Run(changes + [Register(p)]);
            target !in s.files && target + ".md" !in s.files ==> Resolve(s, target) == Some(p)
  {
    LastChange(changes, Register(front + folder + name));
    FileMeant(front, folder, name, target);
    RegisteredLeads(Run(changes), front + folder + name, target);
  }

  lemma FileMeant(front: string, folder: string, name: string, target: string)
    requires Placed(front, folder, name) && SameText(target, folder + name) && !IsMarkdown(folder + name)
    ensures TargetName(target) == FileKey(front + folder + name) && EndsInText(front + folder + name, target)
  {
    BaseIsName(front + folder, name);
    TargetNames(folder, name, target);
    FileEnds(front, folder, name, target);
  }

  lemma FileEnds(front: string, folder: string, name: string, target: string)
    requires SameText(target, folder + name)
    ensures EndsInText(front + folder + name, target)
  {
    assert front + folder + name == front + (folder + name);
    SameEnd(front, folder + name, target);
  }

  /** A registered file whose name ends in .md is first looked up without. */
  lemma MarkdownFileReached(changes: seq<Change>, dir: string, name: string, target: string)
    requires IsFolder(dir) && IsName(name) && SameText(target, name)
    ensures var s := Run(changes + [Register(dir + name)]);
            target !in s.files && target + ".md" !in s.files && TargetName(target) !in s.byName ==>
              Resolve(s, target) == Some(dir + name)
  {
    LastChange(changes, Register(dir + name));
    BaseIsName(dir, name);
    LowerExactly(target, name);
  }

  lemma {:induction false} AliasesKnown(m: map<string, string>, aliases: seq<string>, p: string)
    ensures forall i :: 0 <= i < |aliases| ==>
              ToLower(aliases[i]) in WithAliases(m, aliases, p) && WithAliases(m, aliases, p)[ToLower(aliases[i])] == p
    ensures forall k :: k in WithAliases(m, aliases, p) ==>
              (exists i :: 0 <= i < |aliases| && ToLower(aliases[i]) == k)
                  || (k in m && WithAliases(m, aliases, p)[k] == m[k])
  {
    if aliases == [] {
    } else {
      var init := aliases[..|aliases| - 1];
      AliasesKnown(m, init, p);
      forall k | k in WithAliases(m, init, p)
        ensures (exists i :: 0 <= i < |aliases| && ToLower(aliases[i]) == k)
                || (k in m && WithAliases(m, init, p)[k] == m[k])
      {
        if i :| 0 <= i < |init| && ToLower(init[i]) == k {
          assert aliases[i] == init[i];
        }
      }
      assert ToLower(aliases[|aliases| - 1]) in WithAliases(m, aliases, p);
    }
  }

  /** No name takes the target: the key of its last element is not known, or the
      target names a folder the path known by it does not end in; nor is the whole
      target known. */
  predicate NoNameTakes(s: Index, target: string) {
    var key := TargetName(target);
    && (key in s.byName ==>
          '/' in target && !EndsInText(s.byName[key], target) && !EndsInText(s.byName[key], target + ".md"))
    && ToLower(target) !in s.byName
  }

  /** Right after its update a note is reached by each of its aliases, in any case,
      unless an indexed path or a name takes the target. */
  lemma AliasReaches(changes: seq<Change>, p: string, aliases: seq<string>, links: seq<Link>, i: nat, target: string)
    requires i < |aliases| && SameText(target, aliases[i])
    ensures var s := Run(changes + [Update(p, aliases, links)]);
            target !in s.files && target + ".md" !in s.files && NoNameTakes(s, target) ==> Resolve(s, target) == Some(p)
  {
    LastChange(changes, Update(p, aliases, links));
    AliasesKnown(Removed(Run(changes), p).byAlias, aliases, p);
    LowerExactly(target, aliases[i]);
    AliasLeads(Run(changes + [Update(p, aliases, links)]), target);
  }

  lemma AliasLeads(s: Index, target: string)
    requires ToLower(target) in s.byAlias
    ensures target !in s.files && target + ".md" !in s.files && NoNameTakes(s, target) ==>
              Resolve(s, target) == Some(s.byAlias[ToLower(target)])
  {
    if TargetName(target) in s.byName {
      SameLasts(s.byName[TargetName(target)], target);
    }
  }

  /** Right after its update nothing else reaches a note: what does is its path,
      with or without the ending, its name, with a folder it ends in or none, or
      one of its aliases. */
  lemma ReachedOnlySo(changes: seq<Change>, dir: string, name: string, aliases: seq<string>, links: seq<Link>,
                      target: string)
    requires IsFolder(dir) && IsName(name)
    requires Resolve(Run(changes + [Update(dir + name + ".md", aliases, links)]), target) == Some(dir + name + ".md")
    ensures var p := dir + name + ".md";
            || target == p || target == dir + name
            || (TargetName(target) == ToLower(name)
                && ('/' in target ==> EndsInText(p, target) || EndsInText(p, target + ".md")))
            || SameText(target, name)
            || exists i :: 0 <= i < |aliases| && SameText(target, aliases[i])
  {
    var p := dir + name + ".md";
    LastChange(changes, Update(p, aliases, links));
    NoteKeys(dir, name);
    RunLive(changes);
    LeadsOnlySo(Run(changes), p, aliases, links, target);
    LowerExactly(target, name);
    if target + ".md" == p {
      assert target == p[..|p| - 3] == dir + name;
    }
  }

  lemma LeadsOnlySo(s: Index, p: string, aliases: seq<string>, links: seq<Link>, target: string)
    requires Live(s) && Resolve(Updated(s, p, aliases, links), target) == Some(p)
    ensures || target == p || target + ".md" == p
            || (TargetName(target) == NameKey(p)
                && ('/' in target ==> EndsInText(p, target) || EndsInText(p, target + ".md")))
            || ToLower(target) == NameKey(p)
            || exists i :: 0 <= i < |aliases| && SameText(target, aliases[i])
  {
    KeysOf(s, p, aliases, links, target);
    ResolvedHow(Updated(s, p, aliases, links), target);
    SameLasts(p, target);
  }

  /** The five ways a target resolves. */
  lemma ResolvedHow(s: Index, target: string)
    requires Resolve(s, target).Some?
    ensures var p := Resolve(s, target).value;
            || target == p || target + ".md" == p
            || (TargetName(target) in s.byName && s.byName[TargetName(target)] == p
                && ('/' in target ==>
                      HasSuffix(ToLower(p), ToLower(target) + ".md") || HasSuffix(ToLower(p), ToLower(target))))
            || (ToLower(target) in s.byName && s.byName[ToLower(target)] == p)
            || (ToLower(target) in s.byAlias && s.byAlias[ToLower(target)] == p)
  {
  }

  lemma KeysOf(s: Index, p: string, aliases: seq<string>, links: seq<Link>, target: string)
    requires Live(s)
    ensures var r := Updated(s, p, aliases, links);
            && (forall k :: k in r.byName && r.byName[k] == p ==> k == NameKey(p))
            && (ToLower(target) in r.byAlias && r.byAlias[ToLower(target)] == p ==>
                  exists i :: 0 <= i < |aliases| && SameText(target, aliases[i]))
  {
    DropBoth(s.byName, NameKey(p), FileKey(p), p);
    AliasesKnown(Removed(s, p).byAlias, aliases, p);
    forall i | 0 <= i < |aliases| && ToLower(aliases[i]) == ToLower(target) ensures SameText(target, aliases[i]) {
      LowerExactly(target, aliases[i]);
    }
  }

  // ---------------------------------------------------------------- queries

  function IsBroken(s: Index): Link -> bool {
    (l: Link) => l.raw != "" && Resolve(s, l.raw).None?
  }

  function IsFragment(): Link -> bool {
    (l: Link) => l.raw == ""
  }

  function IsResolved(s: Index): Link -> bool {
    (l: Link) => l.raw != "" && Resolve(s, l.raw).Some?
  }

  /** How many links of a note pass a test. */
  function CountOf(s: Index, test: Link -> bool): string -> nat {
    (src: string) => if src in s.outgoing then |Filter(test, s.outgoing[src])| else 0
  }

  function LinksOf(s: Index): string -> nat {
    (src: string) => if src in s.outgoing then |s.outgoing[src]| else 0
  }

  function BrokenMap(s: Index): map<string, seq<Link>> {
    map src | src in s.outgoing && Filter(IsBroken(s), s.outgoing[src]) != [] :: Filter(IsBroken(s), s.outgoing[src])
  }

  function LengthIn(m: map<string, seq<Link>>): string -> nat {
    (src: string) => if src in m then |m[src]| else 0
  }

  ghost predicate LinksTo(s: Index, src: string, p: string) {
    src in s.outgoing && exists i :: 0 <= i < |s.outgoing[src]| && Resolve(s, s.outgoing[src][i].raw) == Some(p)
  }

  lemma {:induction false} Partition(s: Index, links: seq<Link>)
    ensures |links| == |Filter(IsFragment(), links)| + |Filter(IsBroken(s), links)| + |Filter(IsResolved(s), links)|
  {
    if links == [] {
    } else {
      Partition(s, links[..|links| - 1]);
    }
  }

  /** The broken count of Stats is the number of links BrokenLinks lists, and
      the total splits into fragment-only, broken and resolved links. */
  lemma Conservation(s: Index)
    ensures var keys := s.outgoing.Keys;
            && Sum(keys, CountOf(s, IsBroken(s))) == Sum(BrokenMap(s).Keys, LengthIn(BrokenMap(s)))
            && Sum(keys, LinksOf(s))
            == Sum(keys, CountOf(s, IsFragment())) + Sum(keys, CountOf(s, IsBroken(s)))
                + Sum(keys, CountOf(s, IsResolved(s)))
  {
    var keys := s.outgoing.Keys;
    forall src | src in keys
      ensures LinksOf(s)(src)
              == CountOf(s, IsFragment())(src) + CountOf(s, IsBroken(s))(src) + CountOf(s, IsResolved(s))(src)
    {
      Partition(s, s.outgoing[src]);
    }
    SumOfThree(keys, LinksOf(s), CountOf(s, IsFragment()), CountOf(s, IsBroken(s)), CountOf(s, IsResolved(s)));
    SumDropZeros(keys, BrokenMap(s).Keys, CountOf(s, IsBroken(s)));
    SumSame(BrokenMap(s).Keys, CountOf(s, IsBroken(s)), LengthIn(BrokenMap(s)));
  }

  // --------------------------------------------------- what the queries make of it

  /** A change leaves the links of every other note alone, and an update gives a
      note the links it was read with. */
  lemma LinksStand(changes: seq<Change>, c: Change, src: string)
    ensures var s, r := Run(changes), Run(changes + [c]);
            && (src != c.path || c.Register? ==>
                  (src in r.outgoing <==> src in s.outgoing)
                      && (src in r.outgoing ==> r.outgoing[src] == s.outgoing[src]))
            && (c.Update? ==> c.path in r.outgoing && r.outgoing[c.path] == c.links)
            && (c.Remove? ==> c.path !in r.outgoing)
  {
    LastChange(changes, c);
  }

  /** A link that reaches a note is a backlink of it and not a broken link. */
  lemma ReachedIsLinked(s: Index, src: string, i: nat, p: string)
    requires src in s.outgoing && i < |s.outgoing[src]| && Resolve(s, s.outgoing[src][i].raw) == Some(p)
    ensures LinksTo(s, src, p)
    ensures src in BrokenMap(s) ==> s.outgoing[src][i] !in BrokenMap(s)[src]
  {
    FilterMembers(IsBroken(s), s.outgoing[src]);
  }

  /** The broken links of a note are its links with a target that reaches nothing. */
  lemma BrokenExactly(s: Index, src: string, l: Link)
    ensures src in BrokenMap(s) && l in BrokenMap(s)[src]
       <==> src in s.outgoing && l in s.outgoing[src] && l.raw != "" && Resolve(s, l.raw).None?
  {
    if src in s.outgoing {
      FilterMembers(IsBroken(s), s.outgoing[src]);
    }
  }

  /** So once a note has been updated, every other note that has a link to its name
      is among its backlinks, and that link is not among the broken ones. */
  lemma NamedLinkCounts(changes: seq<Change>, front: string, folder: string, name: string, aliases: seq<string>,
                        links: seq<Link>, src: string, i: nat)
    requires Placed(front, folder, name) && src != NotePath(front, folder, name)
    requires var s := Run(changes);
             src in s.outgoing && i < |s.outgoing[src]| && NamesNote(folder, name, s.outgoing[src][i].raw)
    ensures var p, target := NotePath(front, folder, name), Run(changes).outgoing[src][i].raw;
            var s := Run(changes + [Update(p, aliases, links)]);
            target !in s.files && target + ".md" !in s.files ==>
              && LinksTo(s, src, p)
              && (src in BrokenMap(s) ==> Run(changes).outgoing[src][i] !in BrokenMap(s)[src])
  {
    var p, target := NotePath(front, folder, name), Run(changes).outgoing[src][i].raw;
    var s := Run(changes + [Update(p, aliases, links)]);
    NameReaches(changes, front, folder, name, aliases, links, target);
    LinksStand(changes, Update(p, aliases, links), src);
    if target !in s.files && target + ".md" !in s.files {
      ReachedIsLinked(s, src, i, p);
    }
  }

  // --------------------------------------------------------------- the index

  class LinkIndex {
    var byName: map<string, string>
    var byAlias: map<string, string>
    var files: set<string>
    var outgoing: map<string, seq<Link>>

    function State(): Index
      reads this
    {
      Index(byName, byAlias, files, outgoing)
    }

    constructor ()
      ensures State() == EMPTY
    {
      byName, byAlias, files, outgoing := map[], map[], {}, map[];
    }

    method RemoveLocked(p: string)
      modifies this
      ensures State() == Removed(old(State()), p)
    {
      files := files - {p};
      outgoing := outgoing - {p};
      if NameKey(p) in byName && byName[NameKey(p)] == p {
        byName := byName - {NameKey(p)};
      }
      if FileKey(p) in byName && byName[FileKey(p)] == p {
        byName := byName - {FileKey(p)};
      }
      DropAliases(p);
    }

    /** The loop over all aliases. */
    method DropAliases(p: string)
      modifies this`byAlias
      ensures byAlias == DropTarget(old(byAlias), p)
    {
      var todo := byAlias.Keys;
      ghost var before := byAlias;
      while todo != {}
        invariant todo <= before.Keys
        invariant byAlias == map k | k in before && (k in todo || before[k] != p) :: before[k]
        decreases todo
      {
        var alias :| alias in todo;
        todo := todo - {alias};
        if byAlias[alias] == p {
          byAlias := byAlias - {alias};
        }
      }
      assert byAlias == DropTarget(before, p);
    }

    method Update(p: string, aliases: seq<string>, links: seq<Link>)
      modifies this
      ensures State() == Updated(old(State()), p, aliases, links)
    {
      ghost var was := State();
      RemoveLocked(p);
      files := files + {p};
      byName := byName[NameKey(p) := p];
      AddAliases(aliases, p);
      outgoing := outgoing[p := links];
      UpdatedIs(was, p, aliases, links);
    }

    method AddAliases(aliases: seq<string>, p: string)
      modifies this`byAlias
      ensures byAlias == WithAliases(old(byAlias), aliases, p)
    {
      assert aliases[..0] == [];
      for i := 0 to |aliases|
        invariant byAlias == WithAliases(old(byAlias), aliases[..i], p)
      {
        assert aliases[..i + 1][..i] == aliases[..i];
        byAlias := byAlias[ToLower(aliases[i]) := p];
      }
      assert aliases[..|aliases|] == aliases;
    }

    method RegisterFile(p: string)
      modifies this
      ensures State() == Registered(old(State()), p)
    {
      files := files + {p};
      byName := byName[FileKey(p) := p];
    }

    method Remove(p: string)
      modifies this
      ensures State() == Removed(old(State()), p)
    {
      RemoveLocked(p);
    }

    /** Backlinks: each other note with a link resolving to p, once, and no more. */
    method Backlinks(p: string) returns (sources: seq<string>)
      ensures forall src :: src in sources <==> src != p && LinksTo(State(), src, p)
      ensures forall i, j :: 0 <= i < j < |sources| ==> sources[i] != sources[j]
    {
      sources := [];
      var todo := outgoing.Keys;
      while todo != {}
        invariant todo <= outgoing.Keys
        invariant forall src ::
                    src in sources <==> src in outgoing && src !in todo && src != p && LinksTo(State(), src, p)
        invariant forall i, j :: 0 <= i < j < |sources| ==> sources[i] != sources[j]
        decreases todo
      {
        var src :| src in todo;
        todo := todo - {src};
        if src == p {
          continue;
        }
        var found := HasLinkTo(outgoing[src], p);
        if found {
          sources := sources + [src];
        }
      }
    }

    method HasLinkTo(links: seq<Link>, p: string) returns (found: bool)
      ensures found <==> exists i :: 0 <= i < |links| && Resolve(State(), links[i].raw) == Some(p)
    {
      for i := 0 to |links|
        invariant forall j :: 0 <= j < i ==> Resolve(State(), links[j].raw) != Some(p)
      {
        if Resolve(State(), links[i].raw) == Some(p) {
          return true;
        }
      }
      return false;
    }

    method BrokenOf(links: seq<Link>) returns (broken: seq<Link>)
      ensures broken == Filter(IsBroken(State()), links)
    {
      broken := [];
      assert links[..0] == [];
      for i := 0 to |links|
        invariant broken == Filter(IsBroken(State()), links[..i])
      {
        var l := links[i];
        assert links[..i + 1] == links[..i] + [l];
        FilterSnoc(IsBroken(State()), links[..i], l);
        if l.raw == "" {
          continue;
        }
        if Resolve(State(), l.raw).None? {
          broken := broken + [l];
        }
      }
      assert links[..|links|] == links;
    }

    method BrokenLinks() returns (broken: map<string, seq<Link>>)
      ensures broken == BrokenMap(State())
    {
      broken := map[];
      var todo := outgoing.Keys;
      while todo != {}
        invariant todo <= outgoing.Keys
        invariant broken == map src | src in BrokenMap(State()) && src !in todo :: BrokenMap(State())[src]
        decreases todo
      {
        var src :| src in todo;
        todo := todo - {src};
        var bad := BrokenOf(outgoing[src]);
        if bad != [] {
          broken := broken[src := bad];
        }
      }
    }

    /** Stats' own loop over a note's links, counting on. */
    method CountBroken(links: seq<Link>, before: nat) returns (broken: nat)
      ensures broken == before + |Filter(IsBroken(State()), links)|
    {
      broken := before;
      assert links[..0] == [];
      for i := 0 to |links|
        invariant broken == before + |Filter(IsBroken(State()), links[..i])|
      {
        assert links[..i + 1] == links[..i] + [links[i]];
        FilterSnoc(IsBroken(State()), links[..i], links[i]);
        if links[i].raw == "" {
          continue;
        }
        if Resolve(State(), links[i].raw).None? {
          broken := broken + 1;
        }
      }
      assert links[..|links|] == links;
    }

    /** Stats, whatever the order of the walk. */
    method Stats() returns (total: nat, broken: nat)
      ensures total == Sum(outgoing.Keys, LinksOf(State()))
      ensures broken == Sum(outgoing.Keys, CountOf(State(), IsBroken(State())))
    {
      total, broken := 0, 0;
      var todo := outgoing.Keys;
      ghost var done: set<string> := {};
      while todo != {}
        invariant todo + done == outgoing.Keys && todo !! done
        invariant total == Sum(done, LinksOf(State()))
        invariant broken == Sum(done, CountOf(State(), IsBroken(State())))
        decreases todo
      {
        var src :| src in todo;
        todo := todo - {src};
        total := total + |outgoing[src]|;
        broken := CountBroken(outgoing[src], broken);
        SumAddOne(done, src, LinksOf(State()));
        SumAddOne(done, src, CountOf(State(), IsBroken(State())));
        done := done + {src};
      }
      assert done == outgoing.Keys;
    }
  }
}
