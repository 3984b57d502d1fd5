/** packages/search/index.go: the documents and the inverted index that Index and
    Remove keep, and what every sequence of the two leaves. */
module SearchIndex {
  import opened Tokens

  type Docs = map<string, Doc>
  type Inverted = map<string, Counts>

  // ------------------------------------------------------------------ state

  datatype State = State(docs: Docs, inverted: Inverted)

  const EMPTY := State(map[], map[])

  function Posting(inv: Inverted, t: string, p: string): nat {
    if t in inv then Get(inv[t], p) else 0
  }

  /** The postings are exactly the positive weights of the listed paths, and no
      posting list is empty. */
  ghost predicate Mirrors(paths: set<string>, weight: (string, string) -> nat, inv: Inverted) {
    && (forall t :: t in inv ==> inv[t] != map[])
    && (forall t, p :: t in inv && p in inv[t] ==> p in paths && inv[t][p] == weight(p, t) && inv[t][p] > 0)
    && (forall p, t :: p in paths && weight(p, t) > 0 ==> t in inv && p in inv[t])
  }

  function WeightIn(docs: Docs): (string, string) -> nat {
    (p: string, t: string) => if p in docs then Weight(docs[p], t) else 0
  }

  /** The index says of every token and path exactly what the documents say. */
  ghost predicate Agrees(docs: Docs, inv: Inverted) {
    && (forall p :: p in docs ==> docs[p].path == p)
    && Mirrors(docs.Keys, WeightIn(docs), inv)
  }

  function WithoutPath(m: Counts, path: string): Counts {
    m - {path}
  }

  /** removeLocked. */
  function Removed(s: State, path: string): State {
    if path !in s.docs then s
    else State(s.docs - {path}, Dropped(s.inverted, path))
  }

  /** The postings of a document added to an index that does not hold it. */
  function Posted(inv: Inverted, tokens: Counts, path: string): Inverted {
    map t | t in inv.Keys + tokens.Keys ::
      if t in tokens then (if t in inv then inv[t] else map[])[path := tokens[t]] else inv[t]
  }

  function Indexed(s: State, doc: Doc, tokens: Counts): State {
    var r := Removed(s, doc.path);
    State(r.docs[doc.path := doc], Posted(r.inverted, tokens, doc.path))
  }

  function Dropped(inv: Inverted, path: string): Inverted {
    map t | t in inv && WithoutPath(inv[t], path) != map[] :: WithoutPath(inv[t], path)
  }

  lemma DroppedMirrors(paths: set<string>, weight: (string, string) -> nat, inv: Inverted, path: string)
    requires Mirrors(paths, weight, inv)
    ensures Mirrors(paths - {path}, weight, Dropped(inv, path))
  {
    forall p, t | p in paths - {path} && weight(p, t) > 0
      ensures t in Dropped(inv, path) && p in Dropped(inv, path)[t]
    {
      assert p in WithoutPath(inv[t], path);
    }
  }

  lemma PostedMirrors(paths: set<string>, weight: (string, string) -> nat, inv: Inverted, tokens: Counts, path: string)
    requires Mirrors(paths, weight, inv) && path !in paths
    requires forall t :: (t in tokens <==> weight(path, t) > 0) && (t in tokens ==> tokens[t] == weight(path, t))
    ensures Mirrors(paths + {path}, weight, Posted(inv, tokens, path))
  {
    var r := Posted(inv, tokens, path);
    forall t | t in r ensures r[t] != map[] {
      if t in tokens { assert path in r[t]; }
    }
    forall t, p | t in r && p in r[t] ensures p in paths + {path} && r[t][p] == weight(p, t) && r[t][p] > 0 {
      if p != path { assert t in inv && p in inv[t]; }
    }
    forall p, t | p in paths + {path} && weight(p, t) > 0 ensures t in r && p in r[t] {
      if p != path { assert t in inv && p in inv[t]; }
    }
  }

  lemma MirrorsSameWeights(paths: set<string>, v: (string, string) -> nat, w: (string, string) -> nat, inv: Inverted)
    requires Mirrors(paths, v, inv)
    requires forall p, t :: p in paths ==> v(p, t) == w(p, t)
    ensures Mirrors(paths, w, inv)
  {
  }

  lemma MirrorsDetermined(paths: set<string>, weight: (string, string) -> nat, a: Inverted, b: Inverted)
    requires Mirrors(paths, weight, a) && Mirrors(paths, weight, b)
    ensures forall t :: t in a ==> t in b && a[t] == b[t]
  {
    forall t | t in a ensures t in b && a[t] == b[t] {
      var p :| p in a[t];
      assert weight(p, t) > 0;
      assert t in b && p in b[t];
      forall q
        ensures q in a[t] <==> q in b[t]
        ensures q in a[t] ==> a[t][q] == weight(q, t) && b[t][q] == weight(q, t)
      {
        assert q in paths && weight(q, t) > 0 ==> q in a[t] && q in b[t];
      }
      assert a[t] == b[t];
    }
  }

  lemma RemovedAgrees(s: State, path: string)
    requires Agrees(s.docs, s.inverted)
    ensures Agrees(Removed(s, path).docs, Removed(s, path).inverted)
    ensures path !in Removed(s, path).docs
  {
    if path in s.docs {
      DroppedMirrors(s.docs.Keys, WeightIn(s.docs), s.inverted, path);
      var docs := s.docs - {path};
      assert docs.Keys == s.docs.Keys - {path};
      MirrorsSameWeights(docs.Keys, WeightIn(s.docs), WeightIn(docs), Dropped(s.inverted, path));
    }
  }

  lemma IndexedAgrees(s: State, doc: Doc, tokens: Counts)
    requires Agrees(s.docs, s.inverted) && WeightsOf(tokens, doc)
    ensures Agrees(Indexed(s, doc, tokens).docs, Indexed(s, doc, tokens).inverted)
  {
    RemovedAgrees(s, doc.path);
    var r := Removed(s, doc.path);
    var docs := r.docs[doc.path := doc];
    MirrorsSameWeights(r.docs.Keys, WeightIn(r.docs), WeightIn(docs), r.inverted);
    PostedMirrors(r.docs.Keys, WeightIn(docs), r.inverted, tokens, doc.path);
    assert docs.Keys == r.docs.Keys + {doc.path};
  }

  /** The documents determine the index. */
  lemma IndexDetermined(docs: Docs, a: Inverted, b: Inverted)
    requires Agrees(docs, a) && Agrees(docs, b)
    ensures a == b
  {
    MirrorsDetermined(docs.Keys, WeightIn(docs), a, b);
    MirrorsDetermined(docs.Keys, WeightIn(docs), b, a);
  }

  // ------------------------------------------------------------------- runs

  datatype Change = Index(doc: Doc, tokens: Counts) | Remove(path: string)

  function Apply(s: State, c: Change): State {
    match c
    case Index(doc, tokens) => Indexed(s, doc, tokens)
    case Remove(path) => Removed(s, path)
  }

  function Run(changes: seq<Change>): State {
    if changes == [] then EMPTY else Apply(Run(changes[..|changes| - 1]), changes[|changes| - 1])
  }

  /** Each document is indexed under its own weights. */
  ghost predicate Weighed(changes: seq<Change>) {
    forall i :: 0 <= i < |changes| && changes[i].Index? ==> WeightsOf(changes[i].tokens, changes[i].doc)
  }

  /** The documents that survive a sequence of changes. */
  function Surviving(changes: seq<Change>): Docs {
    if changes == [] then map[]
    else
      var docs := Surviving(changes[..|changes| - 1]);
      match changes[|changes| - 1]
      case Index(doc, _) => docs[doc.path := doc]
      case Remove(path) => docs - {path}
  }

  /** Whatever was indexed, re-indexed and removed before, the index holds the
      surviving documents and agrees with them. */
  lemma {:induction false} RunAgrees(changes: seq<Change>)
    requires Weighed(changes)
    ensures Run(changes).docs == Surviving(changes)
    ensures Agrees(Run(changes).docs, Run(changes).inverted)
  {
    if changes == [] {
    } else {
      var s, c := Run(changes[..|changes| - 1]), changes[|changes| - 1];
      RunAgrees(changes[..|changes| - 1]);
      ApplyAgrees(s, c);
    }
  }

  lemma IndexedDocs(s: State, doc: Doc, tokens: Counts)
    ensures Indexed(s, doc, tokens).docs == s.docs[doc.path := doc]
  {
    assert (s.docs - {doc.path})[doc.path := doc] == s.docs[doc.path := doc];
    assert doc.path !in s.docs ==> s.docs - {doc.path} == s.docs;
  }

  lemma ApplyAgrees(s: State, c: Change)
    requires Agrees(s.docs, s.inverted) && (c.Index? ==> WeightsOf(c.tokens, c.doc))
    ensures Agrees(Apply(s, c).docs, Apply(s, c).inverted)
    ensures Apply(s, c).docs == match c
                                case Index(doc, _) => s.docs[doc.path := doc]
                                case Remove(path) => s.docs - {path}
  {
    match c
    case Index(doc, tokens) =>
      IndexedAgrees(s, doc, tokens);
      IndexedDocs(s, doc, tokens);
    case Remove(path) => RemovedAgrees(s, path);
  }

  /** The state depends on the surviving documents only: any two histories that
      leave the same documents leave the same index, a fresh build included. */
  lemma HistoryIndependent(changes: seq<Change>, others: seq<Change>)
    requires Weighed(changes) && Weighed(others) && Surviving(changes) == Surviving(others)
    ensures Run(changes) == Run(others)
  {
    RunAgrees(changes);
    RunAgrees(others);
    IndexDetermined(Surviving(changes), Run(changes).inverted, Run(others).inverted);
  }
}
