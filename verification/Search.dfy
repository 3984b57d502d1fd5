/** packages/search/index.go: the methods of Index, and Search proved to return
    what a scan of all documents would, ranked and cut off. */
module Search {
  import opened Wrappers
  import opened Text
  import opened Sums
  import opened Tokens
  import opened Query
  import opened SearchIndex

  /** strconv.ParseFloat as far as matching needs it: a finite number or None. */
  type Number = string -> Option<real>

  // ---------------------------------------------------------------- requests

  datatype Request = Request(
    terms: seq<string>,
    tags: seq<string>,
    paths: seq<string>,
    props: seq<PropertyFilter>)

  function Sorted(r: Request, field: string): Request {
    if "tag:" <= field then r.(tags := r.tags + [TrimPrefix(field, "tag:")])
    else if "path:" <= field then r.(paths := r.paths + [TrimPrefix(field, "path:")])
    else if "prop:" <= field then
      match Parsed(TrimPrefix(field, "prop:"))
      case Some(filter) => r.(props := r.props + [filter])
      case None => r
    else r.(terms := r.terms + [NormalizeToken(field)])
  }

  function RequestOf(fields: seq<string>): Request {
    if fields == [] then Request([], [], [], [])
    else Sorted(RequestOf(fields[..|fields| - 1]), fields[|fields| - 1])
  }

  /** Something was asked for at all. */
  predicate Asks(req: Request) {
    req.terms != [] || req.tags != [] || req.paths != [] || req.props != []
  }

  // ----------------------------------------------------------------- filters

  predicate TagMatches(tag: string, f: string) {
    ToLower(tag) == ToLower(f) || f + "/" <= ToLower(tag)
  }

  predicate PassesTag(doc: Doc, f: string) {
    exists j :: 0 <= j < |doc.tags| && TagMatches(doc.tags[j], f)
  }

  predicate PassesTags(doc: Doc, filters: seq<string>) {
    forall i :: 0 <= i < |filters| ==> PassesTag(doc, filters[i])
  }

  predicate PassesPath(doc: Doc, filters: seq<string>) {
    forall i :: 0 <= i < |filters| ==> Contains(ToLower(doc.path), filters[i])
  }

  /** comparePropertyValues: as numbers when both are, else by bytes. */
  predicate Compares(a: string, b: string, op: string, num: Number) {
    var less := if num(a).Some? && num(b).Some? then num(a).value < num(b).value else Less(a, b);
    var greater := if num(a).Some? && num(b).Some? then num(a).value > num(b).value else Less(b, a);
    match op
    case ">" => greater
    case ">=" => !less
    case "<" => less
    case "<=" => !greater
    case _ => false
  }

  predicate ValueMatches(value: Value, f: PropertyFilter, num: Number) {
    match value
    case Nil => f.op == "=" && f.value == ""
    case List(items) => exists i :: 0 <= i < |items| && ValueMatches(items[i], f, num)
    case Strings(texts) => exists i :: 0 <= i < |texts| && TextMatches(texts[i], f, num)
    case Scalar(text) => TextMatches(text, f, num)
  }

  predicate TextMatches(raw: string, f: PropertyFilter, num: Number) {
    var text := ToLower(raw);
    if f.op == "=" then text == f.value
    else if f.op == ":" then Contains(text, f.value)
    else Compares(text, f.value, f.op, num)
  }

  predicate PassesProps(doc: Doc, filters: seq<PropertyFilter>, num: Number) {
    forall i :: 0 <= i < |filters| ==>
                  filters[i].key in doc.frontmatter && ValueMatches(doc.frontmatter[filters[i].key], filters[i], num)
  }

  method MatchesTags(doc: Doc, filters: seq<string>) returns (ok: bool)
    ensures ok <==> PassesTags(doc, filters)
  {
    for i := 0 to |filters|
      invariant PassesTags(doc, filters[..i])
    {
      var found := false;
      for j := 0 to |doc.tags|
        invariant !found
        invariant forall k :: 0 <= k < j ==> !TagMatches(doc.tags[k], filters[i])
      {
        if TagMatches(doc.tags[j], filters[i]) {
          found := true;
          break;
        }
      }
      if !found {
        return false;
      }
    }
    assert filters[..|filters|] == filters;
    return true;
  }

  method MatchesPath(doc: Doc, filters: seq<string>) returns (ok: bool)
    ensures ok <==> PassesPath(doc, filters)
  {
    var lower := ToLower(doc.path);
    for i := 0 to |filters|
      invariant forall k :: 0 <= k < i ==> Contains(lower, filters[k])
    {
      if !Contains(lower, filters[i]) {
        return false;
      }
    }
    return true;
  }

  method MatchesProperties(doc: Doc, filters: seq<PropertyFilter>, num: Number) returns (ok: bool)
    ensures ok <==> PassesProps(doc, filters, num)
  {
    for i := 0 to |filters|
      invariant PassesProps(doc, filters[..i], num)
    {
      if filters[i].key !in doc.frontmatter {
        return false;
      }
      if !ValueMatches(doc.frontmatter[filters[i].key], filters[i], num) {
        return false;
      }
    }
    return true;
  }

  predicate Passes(doc: Doc, req: Request, num: Number) {
    PassesTags(doc, req.tags) && PassesPath(doc, req.paths) && PassesProps(doc, req.props, num)
  }

  // ------------------------------------------------------- scan of documents

  function PrefixWeight(doc: Doc, term: string): string -> nat {
    (t: string) => if t != term && term <= t then Weight(doc, t) else 0
  }

  /** What one term scores in a document, doubled: its weight, and half the
      weight of every other word it begins when prefixes count. */
  ghost function TermScore(doc: Doc, term: string, prefix: bool): nat {
    2 * Weight(doc, term)
    + if prefix && |term| >= 2 then Sum(DocTokens(doc), PrefixWeight(doc, term)) else 0
  }

  /** Only the last term also counts as a prefix. */
  ghost function NthScore(doc: Doc, terms: seq<string>, i: nat): nat
    requires i < |terms|
  {
    TermScore(doc, terms[i], i == |terms| - 1)
  }

  ghost function ScoreUpTo(doc: Doc, terms: seq<string>, n: nat): nat
    requires n <= |terms|
  {
    if n == 0 then 0 else ScoreUpTo(doc, terms, n - 1) + NthScore(doc, terms, n - 1)
  }

  ghost predicate HitsUpTo(doc: Doc, terms: seq<string>, n: nat)
    requires n <= |terms|
  {
    forall i :: 0 <= i < n ==> NthScore(doc, terms, i) > 0
  }

  /** A document found by reading it: every term scores, every filter passes. */
  ghost predicate Found(doc: Doc, req: Request, num: Number) {
    Asks(req) && HitsUpTo(doc, req.terms, |req.terms|) && Passes(doc, req, num)
  }

  /** The value is the text, or a list that has it among its items. */
  predicate Shows(value: Value, text: string) {
    match value
    case Nil => false
    case Scalar(t) => t == text
    case Strings(texts) => text in texts
    case List(items) => Scalar(text) in items
  }

  /** A filter that the text matches is matched by every value that shows it. */
  lemma ShownMatches(value: Value, text: string, f: PropertyFilter, num: Number)
    requires Shows(value, text) && TextMatches(text, f, num)
    ensures ValueMatches(value, f, num)
  {
    match value
    case List(items) =>
      var i :| 0 <= i < |items| && items[i] == Scalar(text);
      assert ValueMatches(items[i], f, num);
    case _ =>
  }

  lemma OnlyFilter(query: string, f: PropertyFilter)
    requires ReadsAs(query, f)
    ensures RequestOf(Fields(query)) == Request([], [], [], [f])
  {
    var fields := Fields(query);
    assert fields[..0] == [];
    assert RequestOf(fields) == Sorted(RequestOf([]), fields[0]);
  }

  lemma FoundByFilter(doc: Doc, f: PropertyFilter, num: Number)
    ensures Found(doc, Request([], [], [], [f]), num)
       <==> f.key in doc.frontmatter && ValueMatches(doc.frontmatter[f.key], f, num)
  {
    assert [f][0] == f;
  }

  /** Clicking a property of a note searches for it. When the printed query reads
      back, the note itself is found exactly if its key is in lower case, or the
      note has the key a second time in lower case, with a matching value: the
      query is lower-cased, the keys of the note are not. */
  lemma ClickedNoteFound(doc: Doc, key: string, text: string, num: Number)
    requires key in doc.frontmatter && Shows(doc.frontmatter[key], text)
    requires KeyReads(key, "=") && QuoteFree(text)
    ensures var lower := ToLower(key);
            Found(doc, Printed(key, text), num)
            <==> lower == key
                 || (lower in doc.frontmatter
                     && ValueMatches(doc.frontmatter[lower], PropertyFilter(lower, ToLower(text), "="), num))
  {
    var f := PropertyFilter(ToLower(key), ToLower(text), "=");
    PropertyQueryRoundTrip(key, text);
    OnlyFilter(PropertyQuery(key, text), f);
    FoundByFilter(doc, f, num);
    if ToLower(key) == key {
      ShownMatches(doc.frontmatter[key], text, f, num);
    }
  }

  /** What the query printed for a property asks for. */
  function Printed(key: string, text: string): Request {
    RequestOf(Fields(PropertyQuery(key, text)))
  }

  /** Every note that shows the text under the key is found. */
  ghost predicate FindsAll(key: string, text: string, num: Number) {
    forall doc: Doc :: key in doc.frontmatter && Shows(doc.frontmatter[key], text) ==>
      Found(doc, Printed(key, text), num)
  }

  /** The request asks for something, and for nothing but that property. */
  ghost predicate Fits(req: Request, key: string, text: string, num: Number) {
    && Asks(req) && req.terms == [] && req.tags == []
    && (forall i :: 0 <= i < |req.paths| ==> req.paths[i] == "")
    && (forall i :: 0 <= i < |req.props| ==> req.props[i].key == key && TextMatches(text, req.props[i], num))
  }

  /** A note that has the property and nothing else. */
  function Bare(key: string, text: string): Doc {
    Doc("", "", [], [], "", map[key := Scalar(text)])
  }

  lemma BareHasNoTerms(key: string, text: string, term: string, prefix: bool)
    ensures TermScore(Bare(key, text), term, prefix) == 0
  {
    var doc := Bare(key, text);
    assert Words("") == [];
    assert DocTokens(doc) == {} by {
      forall t ensures t !in DocTokens(doc) { DocTokensWeigh(doc, t); }
    }
  }

  lemma NoTags(doc: Doc, filters: seq<string>)
    requires doc.tags == []
    ensures PassesTags(doc, filters) ==> filters == []
  {
    if filters != [] {
      assert !PassesTag(doc, filters[0]);
    }
  }

  lemma NoTerms(key: string, text: string, terms: seq<string>)
    ensures HitsUpTo(Bare(key, text), terms, |terms|) ==> terms == []
  {
    if terms != [] {
      BareHasNoTerms(key, text, terms[0], 0 == |terms| - 1);
      assert NthScore(Bare(key, text), terms, 0) == 0;
    }
  }

  lemma BareFitsOnly(req: Request, key: string, text: string, num: Number)
    requires Found(Bare(key, text), req, num)
    ensures Fits(req, key, text, num)
  {
    var doc := Bare(key, text);
    NoTerms(key, text, req.terms);
    NoTags(doc, req.tags);
    forall i | 0 <= i < |req.paths| ensures req.paths[i] == "" {
      assert Contains(ToLower(doc.path), req.paths[i]);
    }
    forall i | 0 <= i < |req.props| ensures req.props[i].key == key && TextMatches(text, req.props[i], num) {
      assert req.props[i].key in doc.frontmatter;
    }
  }

  lemma FitFinds(doc: Doc, req: Request, key: string, text: string, num: Number)
    requires Fits(req, key, text, num) && key in doc.frontmatter && Shows(doc.frontmatter[key], text)
    ensures Found(doc, req, num)
  {
    forall i | 0 <= i < |req.props|
      ensures req.props[i].key in doc.frontmatter && ValueMatches(doc.frontmatter[req.props[i].key], req.props[i], num)
    {
      ShownMatches(doc.frontmatter[key], text, req.props[i], num);
    }
  }

  /** For every key and text: every note that shows the text under the key is found
      by the query printed for them if and only if that query asks for nothing
      else. */
  lemma ClickedNotesFound(key: string, text: string, num: Number)
    ensures FindsAll(key, text, num) <==> Fits(Printed(key, text), key, text, num)
  {
    if FindsAll(key, text, num) {
      assert Shows(Bare(key, text).frontmatter[key], text);
      BareFitsOnly(Printed(key, text), key, text, num);
    }
    if Fits(Printed(key, text), key, text, num) {
      forall doc: Doc | key in doc.frontmatter && Shows(doc.frontmatter[key], text)
        ensures Found(doc, Printed(key, text), num)
      {
        FitFinds(doc, Printed(key, text), key, text, num);
      }
    }
  }

  /** The first field's filter is the first one asked for. */
  lemma {:induction false} FirstFilter(fields: seq<string>, f: PropertyFilter)
    requires fields != [] && "prop:" <= fields[0] && Parsed(TrimPrefix(fields[0], "prop:")) == Some(f)
    ensures RequestOf(fields).props != [] && RequestOf(fields).props[0] == f
  {
    var init := fields[..|fields| - 1];
    if init == [] {
      assert fields[0][0] == 'p' && fields[0][1] == 'r';
      assert RequestOf(init) == Request([], [], [], []);
    } else {
      FirstFilter(init, f);
    }
  }

  /** A query that is one field asks at most for that field's filter. */
  lemma OneField(fields: seq<string>)
    requires |fields| == 1 && "prop:" <= fields[0]
    ensures RequestOf(fields).terms == [] && RequestOf(fields).tags == [] && RequestOf(fields).paths == []
    ensures match Parsed(TrimPrefix(fields[0], "prop:"))
            case None => RequestOf(fields).props == []
            case Some(f) => RequestOf(fields).props == [f]
  {
    assert fields[..0] == [];
    assert fields[0][0] == 'p' && fields[0][1] == 'r';
    assert RequestOf([]) == Request([], [], [], []);
    assert RequestOf(fields) == Sorted(RequestOf([]), fields[0]);
  }

  lemma QuoteFreeTail(s: string, i: nat)
    requires QuoteFree(s) && i <= |s|
    ensures QuoteFree(s[i..])
  {
  }

  /** If the only field is read as a filter on the key itself, the key reads. */
  lemma OneFieldReads(key: string, text: string, f: PropertyFilter)
    requires var fields := Fields(PropertyQuery(key, text));
             |fields| == 1 && Parsed(TrimPrefix(fields[0], "prop:")) == Some(f)
    requires f.key == key
    ensures KeyReads(key, "=") && ToLower(key) == key && f.op == "=" && QuoteFree(f.value)
  {
    var fields := Fields(PropertyQuery(key, text));
    PrintedStarts(key, text);
    FieldsClean(PropertyQuery(key, text), 0);
    var raw := fields[0][5..];
    QuoteFreeTail(fields[0], 5);
    ValueInside(raw);
    ParsedExactly(raw, f);
    assert key == raw[..|key|] && IsLower(key);
    LowerFixed(key);
    if !SpaceFree(key) {
      var i := FirstSpace(key);
      SpacedKeySplits(key, "=", text, i);
    }
    var w := fields[0][5 + |key| + 1..];
    FieldBehindKey(fields[0], key);
    KeyWasCut(key, w, f);
  }

  lemma FieldBehindKey(field: string, key: string)
    requires "prop:" + key + "=" <= field
    ensures field[5..] == key + "=" + field[5 + |key| + 1..]
  {
    var p := "prop:" + key + "=";
    assert field == p + field[|p|..];
  }

  /** If the key reads, the first filter asked for is the one printed, up to what
      becomes of the text. */
  lemma KeyFilterFirst(key: string, text: string) returns (w: string)
    requires KeyReads(key, "=")
    ensures QuoteFree(w) && Printed(key, text).props != []
    ensures Printed(key, text).props[0] == PropertyFilter(ToLower(key), w, "=")
  {
    var fields := Fields(PropertyQuery(key, text));
    PrintedStarts(key, text);
    FieldsClean(PropertyQuery(key, text), 0);
    w := fields[0][5 + |key| + 1..];
    QuoteFreeTail(fields[0], 5 + |key| + 1);
    FieldBehindKey(fields[0], ToLower(key));
    LowerKey(key, "=");
    ParseBack(ToLower(key), "=", w);
    FirstFilter(fields, PropertyFilter(ToLower(key), w, "="));
  }

  lemma FitsReads(key: string, text: string, num: Number)
    requires |Fields(PropertyQuery(key, text))| == 1 || KeyReads(key, "=")
    requires Fits(Printed(key, text), key, text, num)
    ensures KeyReads(key, "=") && QuoteFree(text) && ToLower(key) == key
  {
    ToLowerKeeps(text);
    if KeyReads(key, "=") {
      var w := KeyFilterFirst(key, text);
      assert TextMatches(text, Printed(key, text).props[0], num);
    } else {
      PrintedStarts(key, text);
      OneField(Fields(PropertyQuery(key, text)));
      var f := Printed(key, text).props[0];
      OneFieldReads(key, text, f);
    }
  }

  /** Where the printed query is one field, or its key reads: every note that shows
      the text under the key is found if and only if the key reads, the text has no
      quote, and the key is in lower case. */
  lemma ClickFindsExactly(key: string, text: string, num: Number)
    requires |Fields(PropertyQuery(key, text))| == 1 || KeyReads(key, "=")
    ensures FindsAll(key, text, num) <==> KeyReads(key, "=") && QuoteFree(text) && ToLower(key) == key
  {
    ClickedNotesFound(key, text, num);
    if Fits(Printed(key, text), key, text, num) {
      FitsReads(key, text, num);
    }
    if KeyReads(key, "=") && QuoteFree(text) && ToLower(key) == key {
      PropertyQueryRoundTrip(key, text);
      OnlyFilter(PropertyQuery(key, text), PropertyFilter(key, ToLower(text), "="));
    }
  }

  lemma AnyPathFindsAll(key: string, text: string, num: Number)
    requires Printed(key, text) == Request([], [], [""], [])
    ensures FindsAll(key, text, num)
  {
    ClickedNotesFound(key, text, num);
  }

  lemma StrayRequest()
    ensures Printed("a path: prop:", "x") == Request([], [], [""], [])
  {
    StrayFields();
    StraySorted("a", "=x");
  }

  /** Else a query can fall apart and lose its filter: the one printed for the key
      "a path: prop:" asks for any path, and so finds every note. */
  lemma StrayQueryFindsAll(num: Number)
    ensures FindsAll("a path: prop:", "x", num) && !KeyReads("a path: prop:", "=")
  {
    StrayKey();
    StrayRequest();
    AnyPathFindsAll("a path: prop:", "x", num);
  }

  lemma OneMoreField(fields: seq<string>, field: string)
    ensures RequestOf(fields + [field]) == Sorted(RequestOf(fields), field)
  {
    assert (fields + [field])[..|fields|] == fields;
  }

  lemma SortedProp(r: Request, rest: string)
    requires Parsed(rest).None?
    ensures Sorted(r, "prop:" + rest) == r
  {
    OnlyProp(rest);
  }

  lemma SortedPath(r: Request)
    ensures Sorted(r, "path:") == r.(paths := r.paths + [""])
  {
    assert "path:"[0] == 'p';
  }

  lemma StraySorted(first: string, third: string)
    requires Parsed(first).None? && Parsed(third).None?
    ensures RequestOf(["prop:" + first] + ["path:"] + ["prop:" + third]) == Request([], [], [""], [])
  {
    var a, b := "prop:" + first, "prop:" + third;
    SortedProp(RequestOf([]), first);
    OneMoreField([], a);
    assert [] + [a] == [a];
    OneMoreField([a], "path:");
    SortedPath(RequestOf([]));
    SortedProp(RequestOf([a] + ["path:"]), third);
    OneMoreField([a] + ["path:"], b);
  }

  ghost function Score(doc: Doc, req: Request): nat {
    if req.terms == [] then 2 else ScoreUpTo(doc, req.terms, |req.terms|)
  }

  // ------------------------------------------------------------------ ranking

  datatype Hit = Hit(path: string, score: nat)

  predicate Before(a: Hit, b: Hit) {
    a.score > b.score || (a.score == b.score && Less(a.path, b.path))
  }

  predicate Ordered(hits: seq<Hit>) {
    forall i, j :: 0 <= i < j < |hits| ==> Before(hits[i], hits[j])
  }

  lemma BeforeOrder(a: Hit, b: Hit)
    ensures !(Before(a, b) && Before(b, a)) && !Before(a, a)
    ensures Before(a, b) || Before(b, a) || a == b
  {
    LessTotal(a.path, b.path);
    LessTotal(a.path, a.path);
  }

  lemma BeforeTransitive(a: Hit, b: Hit, c: Hit)
    requires Before(a, b) && Before(b, c)
    ensures Before(a, c)
  {
    if a.score == b.score == c.score {
      LessTransitive(a.path, b.path, c.path);
    }
  }

  /** The complete ranked answer of the scan. */
  ghost predicate Ranking(hits: seq<Hit>, docs: Docs, req: Request, num: Number) {
    && Ordered(hits)
    && forall h :: h in hits <==> h.path in docs && Found(docs[h.path], req, num) && h.score == Score(docs[h.path], req)
  }

  lemma {:induction false} OrderedUnique(a: seq<Hit>, b: seq<Hit>)
    requires Ordered(a) && Ordered(b)
    requires forall h :: h in a <==> h in b
    ensures a == b
  {
    if a == [] {
      assert forall i :: 0 <= i < |b| ==> b[i] in b;
    } else {
      assert a[0] in b;
      assert b != [] && b[0] in a;
      BeforeOrder(a[0], b[0]);
      assert a[0] == b[0];
      forall h ensures h in a[1..] <==> h in b[1..] {
        BeforeOrder(a[0], a[0]);
        assert h in a <==> h == a[0] || h in a[1..];
        assert h in b <==> h == b[0] || h in b[1..];
      }
      OrderedUnique(a[1..], b[1..]);
    }
  }

  /** There is one ranking: the answer depends on the documents, the query and
      the limit, not on the order in which maps are walked. */
  lemma RankingUnique(a: seq<Hit>, b: seq<Hit>, docs: Docs, req: Request, num: Number)
    requires Ranking(a, docs, req, num) && Ranking(b, docs, req, num)
    ensures a == b
  {
    OrderedUnique(a, b);
  }

  /** sort.Slice: any sorting method; this one inserts. */
  method SortHits(hits: seq<Hit>) returns (r: seq<Hit>)
    requires forall i, j :: 0 <= i < j < |hits| ==> hits[i].path != hits[j].path
    ensures Ordered(r)
    ensures forall h :: h in r <==> h in hits
  {
    r := [];
    for n := 0 to |hits|
      invariant Ordered(r)
      invariant forall h :: h in r <==> h in hits[..n]
    {
      assert hits[..n + 1] == hits[..n] + [hits[n]];
      assert hits[n] !in r;
      r := Insert(r, hits[n]);
    }
    assert hits[..|hits|] == hits;
  }

  method Insert(sorted: seq<Hit>, h: Hit) returns (r: seq<Hit>)
    requires Ordered(sorted) && h !in sorted
    ensures Ordered(r)
    ensures forall x :: x in r <==> x == h || x in sorted
  {
    var k := 0;
    while k < |sorted| && Before(sorted[k], h)
      invariant k <= |sorted|
      invariant forall i :: 0 <= i < k ==> Before(sorted[i], h)
    {
      k := k + 1;
    }
    r := sorted[..k] + [h] + sorted[k..];
    InsertOrdered(sorted, h, k);
    InsertMembers(sorted, h, k);
  }

  lemma InsertOrdered(sorted: seq<Hit>, h: Hit, k: nat)
    requires Ordered(sorted) && h !in sorted && k <= |sorted|
    requires forall i :: 0 <= i < k ==> Before(sorted[i], h)
    requires k < |sorted| ==> !Before(sorted[k], h)
    ensures Ordered(sorted[..k] + [h] + sorted[k..])
  {
    forall i | k <= i < |sorted| ensures Before(h, sorted[i]) {
      BeforeOrder(sorted[k], h);
      if i > k {
        BeforeTransitive(h, sorted[k], sorted[i]);
      }
    }
  }

  lemma InsertMembers(sorted: seq<Hit>, h: Hit, k: nat)
    requires k <= |sorted|
    ensures forall x :: x in sorted[..k] + [h] + sorted[k..] <==> x == h || x in sorted
  {
    assert sorted == sorted[..k] + sorted[k..];
  }

  // ------------------------------------------------------ scores by postings

  /** The weights a term meets as a proper prefix, for one path. */
  function PrefixPosting(inv: Inverted, term: string, p: string): string -> nat {
    (t: string) => if t != term && term <= t then Posting(inv, t, p) else 0
  }

  /** A score map: the given score for every path, zero ones left out. */
  ghost predicate Scores(m: Counts, score: string -> nat) {
    forall p :: Get(m, p) == score(p) && (p in m ==> m[p] > 0)
  }

  /** out[path] += k * tf for every posting, in any order. */
  method AddScaled(out: Counts, m: Counts, k: nat) returns (r: Counts)
    requires k > 0
    requires (forall p :: p in out ==> out[p] > 0) && (forall p :: p in m ==> m[p] > 0)
    ensures forall p :: Get(r, p) == Get(out, p) + k * Get(m, p)
    ensures forall p :: p in r ==> r[p] > 0
  {
    r := out;
    var todo := m.Keys;
    while todo != {}
      invariant todo <= m.Keys
      invariant forall p :: Get(r, p) == Get(out, p) + if p in m && p !in todo then k * m[p] else 0
      invariant forall p :: p in r ==> r[p] > 0
      decreases todo
    {
      var p :| p in todo;
      todo := todo - {p};
      r := r[p := Get(r, p) + k * m[p]];
    }
  }

  ghost function PostedScore(inv: Inverted, term: string, tokens: set<string>): string -> nat {
    (p: string) => 2 * Posting(inv, term, p) + Sum(tokens, PrefixPosting(inv, term, p))
  }

  /** No posting is zero. */
  ghost predicate Positive(inv: Inverted) {
    forall t, p :: t in inv && p in inv[t] ==> inv[t][p] > 0
  }

  /** termScores. */
  method TermScores(inv: Inverted, term: string, prefix: bool) returns (out: Counts)
    requires Positive(inv)
    ensures Scores(out, PostedScore(inv, term, if prefix && |term| >= 2 then inv.Keys else {}))
  {
    out := map[];
    if term in inv {
      out := AddScaled(out, inv[term], 2);
    }
    assert Scores(out, PostedScore(inv, term, {}));
    if prefix && |term| >= 2 {
      out := AddPrefixes(inv, term, out);
    }
  }

  /** The walk over all tokens for the ones the term begins. */
  method AddPrefixes(inv: Inverted, term: string, exact: Counts) returns (out: Counts)
    requires Positive(inv) && Scores(exact, PostedScore(inv, term, {}))
    ensures Scores(out, PostedScore(inv, term, inv.Keys))
  {
    out := exact;
    var todo := inv.Keys;
    ghost var done: set<string> := {};
    while todo != {}
      invariant todo + done == inv.Keys && todo !! done
      invariant Scores(out, PostedScore(inv, term, done))
      decreases todo
    {
      var t :| t in todo;
      todo := todo - {t};
      ghost var before := out;
      if t != term && term <= t {
        out := AddScaled(out, inv[t], 1);
      }
      OneMoreToken(inv, term, done, t, before, out);
      done := done + {t};
    }
    assert done == inv.Keys;
  }

  lemma OneMoreToken(inv: Inverted, term: string, done: set<string>, t: string, before: Counts, out: Counts)
    requires Scores(before, PostedScore(inv, term, done)) && t in inv && t !in done
    requires forall p :: Get(out, p) == Get(before, p) + if t != term && term <= t then Get(inv[t], p) else 0
    requires forall p :: p in out ==> out[p] > 0
    ensures Scores(out, PostedScore(inv, term, done + {t}))
  {
    forall p ensures Get(out, p) == PostedScore(inv, term, done + {t})(p) {
      SumAddOne(done, t, PrefixPosting(inv, term, p));
      assert Get(before, p) == PostedScore(inv, term, done)(p);
    }
  }

  lemma PostingIsWeight(docs: Docs, inv: Inverted, t: string, p: string)
    requires Agrees(docs, inv)
    ensures Posting(inv, t, p) == if p in docs then Weight(docs[p], t) else 0
    ensures Posting(inv, t, p) > 0 ==> t in inv
  {
    assert WeightIn(docs)(p, t) == if p in docs then Weight(docs[p], t) else 0;
    if p in docs && Weight(docs[p], t) > 0 {
      assert t in inv && p in inv[t];
    }
  }

  /** A document's own words are all in the index, and no other word of the
      index weighs anything in it. */
  lemma PrefixesScanned(docs: Docs, inv: Inverted, term: string, p: string)
    requires Agrees(docs, inv) && p in docs
    ensures Sum(inv.Keys, PrefixPosting(inv, term, p)) == Sum(DocTokens(docs[p]), PrefixWeight(docs[p], term))
  {
    var f, g, tokens := PrefixPosting(inv, term, p), PrefixWeight(docs[p], term), DocTokens(docs[p]);
    forall t
      ensures f(t) == g(t)
      ensures t in tokens ==> t in inv
      ensures t !in tokens ==> g(t) == 0
    {
      PostingIsWeight(docs, inv, t, p);
      DocTokensWeigh(docs[p], t);
    }
    SumDropZeros(inv.Keys, tokens, f);
    SumSame(tokens, f, g);
  }

  lemma NoPrefixes(docs: Docs, inv: Inverted, term: string, p: string)
    requires Agrees(docs, inv) && p !in docs
    ensures Sum(inv.Keys, PrefixPosting(inv, term, p)) == 0
  {
    forall t ensures PrefixPosting(inv, term, p)(t) == 0 {
      PostingIsWeight(docs, inv, t, p);
    }
    SumZero(inv.Keys, PrefixPosting(inv, term, p));
  }

  /** What the postings add up to is what the scan of the document adds up to. */
  lemma PostedIsScanned(docs: Docs, inv: Inverted, term: string, prefix: bool, p: string)
    requires Agrees(docs, inv)
    ensures PostedScore(inv, term, if prefix && |term| >= 2 then inv.Keys else {})(p)
         == if p in docs then TermScore(docs[p], term, prefix) else 0
  {
    PostingIsWeight(docs, inv, term, p);
    if p in docs {
      PrefixesScanned(docs, inv, term, p);
    } else {
      NoPrefixes(docs, inv, term, p);
    }
  }

  /** The scores of the documents every one of the first n terms hits. */
  ghost predicate Scanned(m: Counts, docs: Docs, terms: seq<string>, n: nat)
    requires n <= |terms|
  {
    && m.Keys == (set p | p in docs && HitsUpTo(docs[p], terms, n))
    && forall p :: p in m ==> m[p] == ScoreUpTo(docs[p], terms, n)
  }

  /** Scores of a term, as the scan gives them. */
  ghost predicate TermScanned(m: Counts, docs: Docs, terms: seq<string>, i: nat)
    requires i < |terms|
  {
    forall p :: (p in m <==> p in docs && NthScore(docs[p], terms, i) > 0)
        && (p in m ==> m[p] == NthScore(docs[p], terms, i))
  }

  lemma TermScoresScanned(m: Counts, docs: Docs, inv: Inverted, terms: seq<string>, i: nat)
    requires Agrees(docs, inv) && i < |terms|
    requires Scores(m, PostedScore(inv, terms[i], if i == |terms| - 1 && |terms[i]| >= 2 then inv.Keys else {}))
    ensures TermScanned(m, docs, terms, i)
  {
    forall p
      ensures p in m <==> p in docs && NthScore(docs[p], terms, i) > 0
      ensures p in m ==> m[p] == NthScore(docs[p], terms, i)
    {
      PostedIsScanned(docs, inv, terms[i], i == |terms| - 1, p);
    }
  }

  lemma FirstScanned(m: Counts, docs: Docs, terms: seq<string>)
    requires |terms| > 0 && TermScanned(m, docs, terms, 0)
    ensures Scanned(m, docs, terms, 1)
  {
  }

  /** Keep the paths in both maps and add their scores. */
  method Intersect(scores: Counts, extra: Counts) returns (r: Counts)
    ensures r.Keys == scores.Keys * extra.Keys
    ensures forall p :: p in r ==> r[p] == scores[p] + extra[p]
  {
    r := scores;
    var todo := scores.Keys;
    while todo != {}
      invariant todo <= scores.Keys
      invariant r.Keys == set p | p in scores && (p in todo || p in extra)
      invariant forall p :: p in r ==> r[p] == if p in todo then scores[p] else scores[p] + extra[p]
      decreases todo
    {
      var p :| p in todo;
      todo := todo - {p};
      if p in extra {
        r := r[p := r[p] + extra[p]];
      } else {
        r := r - {p};
      }
    }
  }

  lemma HitsSplit(doc: Doc, terms: seq<string>, i: nat)
    requires i < |terms|
    ensures HitsUpTo(doc, terms, i + 1) <==> HitsUpTo(doc, terms, i) && NthScore(doc, terms, i) > 0
    ensures ScoreUpTo(doc, terms, i + 1) == ScoreUpTo(doc, terms, i) + NthScore(doc, terms, i)
  {
  }

  lemma IntersectHits(docs: Docs, terms: seq<string>, i: nat, a: set<string>, b: set<string>)
    requires i < |terms|
    requires a == set p | p in docs && HitsUpTo(docs[p], terms, i)
    requires forall p :: p in b <==> p in docs && NthScore(docs[p], terms, i) > 0
    ensures a * b == set p | p in docs && HitsUpTo(docs[p], terms, i + 1)
  {
    forall p | p in docs
      ensures HitsUpTo(docs[p], terms, i + 1) <==> p in a && p in b
    {
      HitsSplit(docs[p], terms, i);
    }
  }

  lemma IntersectScanned(scores: Counts, extra: Counts, r: Counts, docs: Docs, terms: seq<string>, i: nat)
    requires i < |terms| && Scanned(scores, docs, terms, i) && TermScanned(extra, docs, terms, i)
    requires r.Keys == scores.Keys * extra.Keys
    requires forall p :: p in r ==> r[p] == scores[p] + extra[p]
    ensures Scanned(r, docs, terms, i + 1)
  {
    IntersectHits(docs, terms, i, scores.Keys, extra.Keys);
    forall p | p in r ensures r[p] == ScoreUpTo(docs[p], terms, i + 1) {
      assert p in scores && p in extra;
      HitsSplit(docs[p], terms, i);
    }
  }

  lemma AgreesPositive(docs: Docs, inv: Inverted)
    requires Agrees(docs, inv)
    ensures Positive(inv)
  {
    MirrorsPositive(docs.Keys, WeightIn(docs), inv);
  }

  lemma MirrorsPositive(paths: set<string>, weight: (string, string) -> nat, inv: Inverted)
    requires Mirrors(paths, weight, inv)
    ensures Positive(inv)
  {
    forall t, p | t in inv && p in inv[t] ensures inv[t][p] > 0 {
      assert inv[t][p] == weight(p, t);
    }
  }

  // ---------------------------------------------------------------- the index

  class Index {
    var docs: Docs
    var inverted: Inverted
    const num: Number

    ghost predicate Valid()
      reads this
    {
      Agrees(docs, inverted)
    }

    function Abs(): State
      reads this
    {
      State(docs, inverted)
    }

    constructor (num: Number)
      ensures Valid() && Abs() == EMPTY && this.num == num
    {
      this.num := num;
      docs, inverted := map[], map[];
    }

    method RemoveLocked(path: string)
      modifies this
      ensures Abs() == Removed(old(Abs()), path)
    {
      if path !in docs {
        return;
      }
      docs := docs - {path};
      ghost var before := inverted;
      var todo := inverted.Keys;
      while todo != {}
        invariant todo <= before.Keys && docs == old(docs) - {path}
        invariant forall t :: t in inverted <==> t in before && (t in todo || WithoutPath(before[t], path) != map[])
        invariant forall t :: t in inverted ==>
                    inverted[t] == if t in todo then before[t] else WithoutPath(before[t], path)
        decreases todo
      {
        var token :| token in todo;
        todo := todo - {token};
        var m := WithoutPath(inverted[token], path);
        inverted := if m == map[] then inverted - {token} else inverted[token := m];
      }
      assert inverted == Dropped(before, path);
    }

    /** Index: adds or replaces a document under its own weights. */
    method Add(doc: Doc)
      requires Valid()
      modifies this
      ensures Valid() && docs == old(docs)[doc.path := doc]
      ensures forall tokens :: WeightsOf(tokens, doc) ==> Abs() == Indexed(old(Abs()), doc, tokens)
    {
      var tokens := TokenWeights(doc);
      IndexedAgrees(Abs(), doc, tokens);
      forall other | WeightsOf(other, doc) ensures other == tokens {
        WeightsUnique(other, tokens, doc);
      }
      RemoveLocked(doc.path);
      assert docs[doc.path := doc] == old(docs)[doc.path := doc];
      docs := docs[doc.path := doc];
      PostAll(tokens, doc.path);
    }

    method PostAll(tokens: Counts, path: string)
      modifies this`inverted
      ensures inverted == Posted(old(inverted), tokens, path)
    {
      ghost var bare := inverted;
      var todo := tokens.Keys;
      while todo != {}
        invariant todo <= tokens.Keys
        invariant inverted.Keys == bare.Keys + (tokens.Keys - todo)
        invariant forall t :: t in inverted ==>
                    (inverted[t] ==
                     if t in tokens && t !in todo then (if t in bare then bare[t] else map[])[path := tokens[t]]
                     else bare[t])
        decreases todo
      {
        var token :| token in todo;
        todo := todo - {token};
        var m := if token in inverted then inverted[token] else map[];
        inverted := inverted[token := m[path := tokens[token]]];
      }
      assert inverted == Posted(bare, tokens, path);
    }

    method Remove(path: string)
      requires Valid()
      modifies this
      ensures Valid() && Abs() == Removed(old(Abs()), path)
      ensures docs == old(docs) - {path}
    {
      RemovedAgrees(Abs(), path);
      RemoveLocked(path);
    }

    method Classify(query: string) returns (req: Request)
      ensures req == RequestOf(Fields(query))
    {
      var fields := SplitQuery(query);
      req := Request([], [], [], []);
      assert fields[..0] == [];
      for i := 0 to |fields|
        invariant req == RequestOf(fields[..i])
      {
        assert fields[..i + 1][..i] == fields[..i];
        var field := fields[i];
        if "tag:" <= field {
          req := req.(tags := req.tags + [TrimPrefix(field, "tag:")]);
        } else if "path:" <= field {
          req := req.(paths := req.paths + [TrimPrefix(field, "path:")]);
        } else if "prop:" <= field {
          var filter := ParsePropertyFilter(TrimPrefix(field, "prop:"));
          if filter.Some? {
            req := req.(props := req.props + [filter.value]);
          }
        } else {
          req := req.(terms := req.terms + [NormalizeToken(field)]);
        }
      }
      assert fields[..|fields|] == fields;
    }

    /** The scores of the documents that every term hits. */
    method ScoreTerms(terms: seq<string>) returns (scores: Counts)
      requires Valid() && terms != []
      ensures Scanned(scores, docs, terms, |terms|)
    {
      AgreesPositive(docs, inverted);
      scores := TermScores(inverted, terms[0], 0 == |terms| - 1);
      TermScoresScanned(scores, docs, inverted, terms, 0);
      FirstScanned(scores, docs, terms);
      for i := 1 to |terms|
        invariant Scanned(scores, docs, terms, i)
      {
        var extra := TermScores(inverted, terms[i], i == |terms| - 1);
        TermScoresScanned(extra, docs, inverted, terms, i);
        ghost var before := scores;
        scores := Intersect(scores, extra);
        IntersectScanned(before, extra, scores, docs, terms, i);
      }
    }

    method ScoreAll() returns (scores: Counts)
      ensures scores == map p | p in docs :: 2 as nat
    {
      scores := map[];
      var todo := docs.Keys;
      while todo != {}
        invariant todo <= docs.Keys
        invariant scores == map p | p in docs && p !in todo :: 2 as nat
        decreases todo
      {
        var p :| p in todo;
        todo := todo - {p};
        scores := scores[p := 2];
      }
    }

    /** The scored documents that pass the filters, in any order. */
    method Collect(scores: Counts, req: Request) returns (hits: seq<Hit>)
      requires scores.Keys <= docs.Keys
      ensures forall h :: h in hits <==> h.path in scores && h.score == scores[h.path] && Passes(docs[h.path], req, num)
      ensures forall i, j :: 0 <= i < j < |hits| ==> hits[i].path != hits[j].path
    {
      hits := [];
      var todo := scores.Keys;
      while todo != {}
        invariant todo <= scores.Keys
        invariant forall h ::
                    h in hits <==>
                    h.path in scores && h.path !in todo && h.score == scores[h.path] && Passes(docs[h.path], req, num)
        invariant forall i, j :: 0 <= i < j < |hits| ==> hits[i].path != hits[j].path
        decreases todo
      {
        var p :| p in todo;
        assert forall i :: 0 <= i < |hits| ==> hits[i] in hits && hits[i].path != p;
        todo := todo - {p};
        var tags := MatchesTags(docs[p], req.tags);
        var path := MatchesPath(docs[p], req.paths);
        var props := MatchesProperties(docs[p], req.props, num);
        if !tags || !path || !props {
          continue;
        }
        hits := hits + [Hit(p, scores[p])];
      }
    }

    /** All hits of a request, ranked. */
    method Answer(req: Request) returns (full: seq<Hit>)
      requires Valid() && Asks(req)
      ensures Ranking(full, docs, req, num)
    {
      var scores: Counts;
      if req.terms == [] {
        scores := ScoreAll();
      } else {
        scores := ScoreTerms(req.terms);
      }
      var hits := Collect(scores, req);
      full := SortHits(hits);
    }

    /** Search: the first limit entries of the one ranking of the documents a
        scan would find, with the scan's scores. */
    method Search(query: string, limit: nat) returns (results: seq<Hit>)
      requires Valid()
      ensures exists full ::
                && Ranking(full, docs, RequestOf(Fields(query)), num)
                && results == if |full| > limit then full[..limit] else full
      ensures forall i, j :: 0 <= i < j < |results| ==>
                || results[i].score > results[j].score
                || (results[i].score == results[j].score && Less(results[i].path, results[j].path))
    {
      var req := Classify(query);
      if req.terms == [] && req.tags == [] && req.paths == [] && req.props == [] {
        results := [];
        assert Ranking([], docs, req, num);
        return;
      }
      var full := Answer(req);
      results := if |full| > limit then full[..limit] else full;
    }
  }
}
