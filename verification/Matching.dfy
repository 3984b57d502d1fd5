/** What the fields of a query find, said of the notes themselves: words, tags,
    paths and property filters with each operator (packages/search/index.go). */
module Matching {
  import opened Text
  import opened Slices
  import opened Sums
  import opened Tokens
  import opened Query
  import opened Search

  // ------------------------------------------------------------ property filters

  /** A request for one property filter. */
  function Asked(key: string, op: string, value: string): Request {
    Request([], [], [], [PropertyFilter(key, value, op)])
  }

  /** The note with this value under the key. */
  function Having(doc: Doc, key: string, value: Value): Doc {
    doc.(frontmatter := doc.frontmatter[key := value])
  }

  lemma TextDecides(doc: Doc, key: string, text: string, op: string, value: string, num: Number)
    ensures Found(Having(doc, key, Scalar(text)), Asked(key, op, value), num)
       <==> TextMatches(text, PropertyFilter(key, value, op), num)
  {
    FoundByFilter(Having(doc, key, Scalar(text)), PropertyFilter(key, value, op), num);
  }

  /** Where both the note's text and the value asked for are numbers, the four
      comparisons find the note by the order of the numbers. */
  lemma NumbersCompare(doc: Doc, key: string, text: string, value: string, num: Number)
    requires num(ToLower(text)).Some? && num(value).Some?
    ensures var note, x, y := Having(doc, key, Scalar(text)), num(ToLower(text)).value, num(value).value;
            && (Found(note, Asked(key, ">", value), num) <==> x > y)
            && (Found(note, Asked(key, ">=", value), num) <==> x >= y)
            && (Found(note, Asked(key, "<", value), num) <==> x < y)
            && (Found(note, Asked(key, "<=", value), num) <==> x <= y)
  {
    TextDecides(doc, key, text, ">", value, num);
    TextDecides(doc, key, text, ">=", value, num);
    TextDecides(doc, key, text, "<", value, num);
    TextDecides(doc, key, text, "<=", value, num);
  }

  /** One text comes before the other: the first byte they differ in is smaller, or
      it is the other's beginning. */
  ghost predicate Earlier(a: string, b: string) {
    exists k: nat :: FirstLess(a, b, k)
  }

  /** Where one of them is no number, by the byte order of the two texts, the note's
      in lower case. */
  lemma TextsCompare(doc: Doc, key: string, text: string, value: string, num: Number)
    requires num(ToLower(text)).None? || num(value).None?
    ensures var note, lower := Having(doc, key, Scalar(text)), ToLower(text);
            && (Found(note, Asked(key, ">", value), num) <==> Earlier(value, lower))
            && (Found(note, Asked(key, ">=", value), num) <==> Earlier(value, lower) || lower == value)
            && (Found(note, Asked(key, "<", value), num) <==> Earlier(lower, value))
            && (Found(note, Asked(key, "<=", value), num) <==> Earlier(lower, value) || lower == value)
  {
    TextDecides(doc, key, text, ">", value, num);
    TextDecides(doc, key, text, ">=", value, num);
    TextDecides(doc, key, text, "<", value, num);
    TextDecides(doc, key, text, "<=", value, num);
    LessExactly(ToLower(text), value);
    LessExactly(value, ToLower(text));
    LessTotal(ToLower(text), value);
  }

  /** `<` and `>=` exclude and complete each other, and so do `>` and `<=`. */
  lemma ComparisonsComplete(doc: Doc, key: string, text: string, value: string, num: Number)
    ensures var note := Having(doc, key, Scalar(text));
            && (Found(note, Asked(key, "<", value), num) <==> !Found(note, Asked(key, ">=", value), num))
            && (Found(note, Asked(key, ">", value), num) <==> !Found(note, Asked(key, "<=", value), num))
  {
    if num(ToLower(text)).Some? && num(value).Some? {
      NumbersCompare(doc, key, text, value, num);
    } else {
      TextsCompare(doc, key, text, value, num);
      LessExactly(ToLower(text), value);
      LessExactly(value, ToLower(text));
      LessTotal(ToLower(text), value);
    }
  }

  /** Typed into the dialog, for a key that reads and a value without quotes: the
      query `prop:key>value` finds the notes beyond the value, and so on. */
  lemma TypedComparison(doc: Doc, key: string, op: string, text: string, value: string, num: Number)
    requires op in [">", ">=", "<", "<="] && KeyReads(key, op) && QuoteFree(value) && !Lengthens(op, value)
    ensures Found(Having(doc, ToLower(key), Scalar(text)), RequestOf(Fields(Suggestion(key, op, value))), num)
       <==> Found(Having(doc, ToLower(key), Scalar(text)), Asked(ToLower(key), op, ToLower(value)), num)
  {
    SuggestionRoundTrip(key, op, value);
    OnlyFilter(Suggestion(key, op, value), PropertyFilter(ToLower(key), ToLower(value), op));
  }

  /** `=` asks for the whole text, `:` for a part of it. */
  lemma EqualOrPart(doc: Doc, key: string, text: string, value: string, num: Number)
    ensures var note := Having(doc, key, Scalar(text));
            && (Found(note, Asked(key, "=", value), num) <==> ToLower(text) == value)
            && (Found(note, Asked(key, ":", value), num) <==> exists i: nat :: OccursAt(ToLower(text), value, i))
  {
    TextDecides(doc, key, text, "=", value, num);
    TextDecides(doc, key, text, ":", value, num);
    ContainsExactly(ToLower(text), value);
  }

  /** A note with a list is found when one with some item of it in its place is; an
      empty value only where `=` asks for nothing; without the key, never. */
  lemma SomeItemDoes(doc: Doc, key: string, items: seq<Value>, texts: seq<string>, op: string, value: string,
                     num: Number)
    ensures Found(Having(doc, key, List(items)), Asked(key, op, value), num)
       <==> exists i :: 0 <= i < |items| && Found(Having(doc, key, items[i]), Asked(key, op, value), num)
    ensures Found(Having(doc, key, Strings(texts)), Asked(key, op, value), num)
       <==> exists i :: 0 <= i < |texts| && Found(Having(doc, key, Scalar(texts[i])), Asked(key, op, value), num)
    ensures Found(Having(doc, key, Nil), Asked(key, op, value), num) <==> op == "=" && value == ""
    ensures Found(doc, Asked(key, op, value), num) ==> key in doc.frontmatter
  {
    var f := PropertyFilter(key, value, op);
    FoundByFilter(doc, f, num);
    FoundByFilter(Having(doc, key, List(items)), f, num);
    FoundByFilter(Having(doc, key, Strings(texts)), f, num);
    FoundByFilter(Having(doc, key, Nil), f, num);
    forall i | 0 <= i < |items|
      ensures Found(Having(doc, key, items[i]), Asked(key, op, value), num) <==> ValueMatches(items[i], f, num)
    {
      FoundByFilter(Having(doc, key, items[i]), f, num);
    }
    forall i | 0 <= i < |texts|
      ensures Found(Having(doc, key, Scalar(texts[i])), Asked(key, op, value), num) <==> TextMatches(texts[i], f, num)
    {
      TextDecides(doc, key, texts[i], op, value, num);
    }
  }

  // ------------------------------------------------------------- tags and paths

  /** A tag filter finds the notes that have the tag, in any case, or a tag below
      it. */
  lemma TagFinds(doc: Doc, f: string, num: Number)
    ensures Found(doc, Request([], [f], [], []), num)
       <==> exists j :: 0 <= j < |doc.tags| && (SameText(doc.tags[j], f) || Below(doc.tags[j], f))
  {
    assert [f][0] == f;
    assert PassesTags(doc, [f]) <==> PassesTag(doc, f);
    forall j | 0 <= j < |doc.tags|
      ensures TagMatches(doc.tags[j], f) <==> SameText(doc.tags[j], f) || Below(doc.tags[j], f)
    {
      LowerExactly(doc.tags[j], f);
    }
  }

  /** The tag starts with this one, in lower case, and a slash. */
  predicate Below(tag: string, f: string) {
    |f| < |tag| && ToLower(tag[..|f|]) == f && tag[|f|] == '/'
  }

  /** A path filter finds the notes whose path has it as a part. */
  lemma PathFinds(doc: Doc, f: string, num: Number)
    ensures Found(doc, Request([], [], [f], []), num) <==> exists i: nat :: OccursAt(ToLower(doc.path), f, i)
  {
    assert [f][0] == f;
    ContainsExactly(ToLower(doc.path), f);
  }

  // ---------------------------------------------------------------------- words

  /** The words of a note are those of its body and title, and of its tags and
      aliases. */
  lemma NoteWords(doc: Doc, t: string)
    ensures t in DocTokens(doc)
       <==> t in Words(doc.body) || t in Words(doc.title)
            || (exists i :: 0 <= i < |doc.tags| && t in Words(doc.tags[i]))
            || (exists i :: 0 <= i < |doc.aliases| && t in Words(doc.aliases[i]))
  {
    WordsOfSome(doc.tags, t);
    WordsOfSome(doc.aliases, t);
  }

  lemma {:induction false} WordsOfSome(texts: seq<string>, t: string)
    ensures t in WordsOfAll(texts) <==> exists i :: 0 <= i < |texts| && t in Words(texts[i])
  {
    if texts == [] {
    } else {
      var init := texts[..|texts| - 1];
      WordsOfSome(init, t);
      assert forall i :: 0 <= i < |init| ==> init[i] == texts[i];
    }
  }

  /** A word of the note begins with the term: it is the term, or a longer one if
      the term has two characters. */
  ghost predicate HasWordFrom(doc: Doc, term: string) {
    exists w :: w in DocTokens(doc) && (w == term || (|term| >= 2 && term <= w))
  }

  lemma TermHits(doc: Doc, term: string)
    ensures TermScore(doc, term, false) > 0 <==> term in DocTokens(doc)
    ensures TermScore(doc, term, true) > 0 <==> HasWordFrom(doc, term)
  {
    DocTokensWeigh(doc, term);
    var f := PrefixWeight(doc, term);
    SumZero(DocTokens(doc), f);
    forall w | w in DocTokens(doc) ensures f(w) > 0 <==> w != term && term <= w {
      DocTokensWeigh(doc, w);
    }
  }

  /** A query of terms finds the notes that have all of them as words, the last one
      as the beginning of a word. */
  lemma TermsFind(doc: Doc, terms: seq<string>, num: Number)
    ensures Found(doc, Request(terms, [], [], []), num)
       <==> terms != [] && (forall i :: 0 <= i < |terms| - 1 ==> terms[i] in DocTokens(doc))
            && HasWordFrom(doc, terms[|terms| - 1])
  {
    if terms != [] {
      AllHit(doc, terms);
    }
  }

  lemma AllHit(doc: Doc, terms: seq<string>)
    requires terms != []
    ensures HitsUpTo(doc, terms, |terms|)
       <==> (forall i :: 0 <= i < |terms| - 1 ==> terms[i] in DocTokens(doc)) && HasWordFrom(doc, terms[|terms| - 1])
  {
    forall i | 0 <= i < |terms|
      ensures NthScore(doc, terms, i) > 0
         <==> if i == |terms| - 1 then HasWordFrom(doc, terms[i]) else terms[i] in DocTokens(doc)
    {
      TermHits(doc, terms[i]);
    }
    HitsSplit(doc, terms, |terms| - 1);
  }

  /** A request finds the notes that each of its parts would find. */
  lemma FoundByAll(doc: Doc, req: Request, num: Number)
    requires Asks(req)
    ensures Found(doc, req, num) <==>
            && (req.terms != [] ==> Found(doc, Request(req.terms, [], [], []), num))
            && (forall f :: f in req.tags ==> Found(doc, Request([], [f], [], []), num))
            && (forall f :: f in req.paths ==> Found(doc, Request([], [], [f], []), num))
            && (forall f :: f in req.props ==> Found(doc, Request([], [], [], [f]), num))
  {
    forall f: string ensures PassesTags(doc, [f]) <==> PassesTag(doc, f) {
      assert [f][0] == f;
    }
    forall f: string ensures PassesPath(doc, [f]) <==> Contains(ToLower(doc.path), f) {
      assert [f][0] == f;
    }
    forall f: PropertyFilter { FoundByFilter(doc, f, num); }
  }

  /** In a one-word query a note scores, doubled, twice its weight for the word
      itself, and once its weight for a longer word. */
  lemma ExactCountsTwice(doc: Doc, term: string)
    requires forall w :: w in DocTokens(doc) && term <= w ==> w == term
    ensures Score(doc, Request([term], [], [], [])) == 2 * Weight(doc, term)
  {
    SumZero(DocTokens(doc), PrefixWeight(doc, term));
    OneTerm(doc, term);
  }

  lemma LongerCountsOnce(doc: Doc, term: string, longer: string)
    requires |term| >= 2 && term <= longer && term != longer
    requires forall w :: w in DocTokens(doc) && term <= w ==> w == longer
    ensures Score(doc, Request([term], [], [], [])) == Weight(doc, longer)
  {
    var f := PrefixWeight(doc, term);
    DocTokensWeigh(doc, term);
    DocTokensWeigh(doc, longer);
    OneTerm(doc, term);
    SumZero(DocTokens(doc) - {longer}, f);
    if longer in DocTokens(doc) {
      SumPick(DocTokens(doc), longer, f);
    } else {
      SumZero(DocTokens(doc), f);
    }
  }

  lemma OneTerm(doc: Doc, term: string)
    ensures Score(doc, Request([term], [], [], [])) == TermScore(doc, term, true)
  {
    assert ScoreUpTo(doc, [term], 0) == 0;
    assert NthScore(doc, [term], 0) == TermScore(doc, term, true);
  }

  /** A word in the title weighs as much as five times in the body, whatever else
      the note holds. */
  lemma TitleWorthFive(doc: Doc, t: string, title: string, body: string)
    requires t in Words(doc.title) && t !in Words(title)
    requires Frequency(Words(body), t) == Frequency(Words(doc.body), t) + 5
    ensures Weight(doc.(title := title, body := body), t) == Weight(doc, t)
  {
  }

  // ---------------------------------------------------------- what a query asks for

  predicate Filtered(field: string) {
    "tag:" <= field || "path:" <= field || "prop:" <= field
  }

  /** Both requests in one. */
  function Both(a: Request, b: Request): Request {
    Request(a.terms + b.terms, a.tags + b.tags, a.paths + b.paths, a.props + b.props)
  }

  lemma SortedBoth(a: Request, b: Request, field: string)
    ensures Sorted(Both(a, b), field) == Both(a, Sorted(b, field))
  {
    assert forall x: seq<string>, y: seq<string>, t: string :: x + y + [t] == x + (y + [t]);
    assert forall x: seq<PropertyFilter>, y: seq<PropertyFilter>, t: PropertyFilter :: x + y + [t] == x + (y + [t]);
  }

  lemma LastField(a: seq<string>, b: seq<string>)
    requires b != []
    ensures RequestOf(a + b) == Sorted(RequestOf(a + b[..|b| - 1]), b[|b| - 1])
  {
    LastApart(a, b);
    OneMoreField(a + b[..|b| - 1], b[|b| - 1]);
  }

  /** Fields ask for their parts one after the other. */
  lemma {:induction false} RequestAppends(a: seq<string>, b: seq<string>)
    ensures RequestOf(a + b) == Both(RequestOf(a), RequestOf(b))
  {
    if b == [] {
      assert a + b == a;
    } else {
      var init, field := b[..|b| - 1], b[|b| - 1];
      RequestAppends(a, init);
      SortedBoth(RequestOf(a), RequestOf(init), field);
      LastField(a, b);
    }
  }

  /** What a field that starts with tag: or path: asks for stands behind the colon,
      and so does the filter of one that starts with prop:; any other field is a
      term, taken as a word. */
  lemma FieldAsks(text: string, field: string)
    ensures RequestOf(["tag:" + text]) == Request([], [text], [], [])
    ensures RequestOf(["path:" + text]) == Request([], [], [text], [])
    ensures RequestOf(["prop:" + text])
         == Request([], [], [], if Parsed(text).Some? then [Parsed(text).value] else [])
    ensures !Filtered(field) ==> RequestOf([field]) == Request([NormalizeToken(field)], [], [], [])
  {
    OneMoreField([], "tag:" + text);
    OneMoreField([], "path:" + text);
    OneMoreField([], "prop:" + text);
    OneMoreField([], field);
    assert forall f: string :: [] + [f] == [f];
    assert ("tag:" + text)[0] == 't' && ("path:" + text)[0] == 'p' && ("path:" + text)[1] == 'a';
    assert ("prop:" + text)[0] == 'p' && ("prop:" + text)[1] == 'r';
  }

  /** Taken as a word, a field is in lower case and without anything but letters and
      digits. */
  lemma {:induction false} WordTaken(a: string, b: string, c: char)
    ensures NormalizeToken(a + b) == NormalizeToken(a) + NormalizeToken(b)
    ensures NormalizeToken([c]) == if IsWordChar(c) then ToLower([c]) else ""
  {
    assert [c][..0] == "";
    assert NormalizeToken([c]) == NormalizeToken("") + if IsWordChar(c) then [LowerChar(c)] else "";
    if b == "" {
      assert a + b == a;
    } else {
      WordTaken(a, b[..|b| - 1], c);
      assert (a + b)[..|a + b| - 1] == a + b[..|b| - 1];
    }
  }

  lemma {:induction false} WordKept(s: string)
    requires forall i :: 0 <= i < |s| ==> IsWordChar(s[i])
    ensures NormalizeToken(s) == ToLower(s)
  {
    if s != "" {
      WordKept(s[..|s| - 1]);
      LowerAppend(s[..|s| - 1], [s[|s| - 1]]);
      assert s == s[..|s| - 1] + [s[|s| - 1]];
    }
  }

  /** Typing a word of a note, in any case, finds the note from the second character
      on. */
  lemma TypingFinds(doc: Doc, w: string, query: string, num: Number)
    requires w in DocTokens(doc) && 2 <= |query| <= |w| && SameText(query, w[..|query|])
    ensures Found(doc, RequestOf(Fields(query)), num)
  {
    WordShape(doc, w);
    var part := w[..|query|];
    LowerExactly(query, part);
    LowerExactly(part, part);
    assert ToLower(query) == part;
    TypedField(query, part);
    FieldAsks("", part);
    WordKept(part);
    assert part <= w;
    assert [part][|[part]| - 1] == part;
    TermsFind(doc, [part], num);
  }

  predicate LowerWord(s: string) {
    forall i :: 0 <= i < |s| ==> IsWordChar(s[i]) && !Capital(s[i])
  }

  lemma TypedField(query: string, part: string)
    requires ToLower(query) == part && part != "" && LowerWord(part)
    ensures Fields(query) == [part] && !Filtered(part)
  {
    FeedText(FRESH, part);
    assert "" + part == part;
    assert Flush(FRESH.(b := part)).fields == [part];
    WordUnfiltered(part);
  }

  lemma WordUnfiltered(part: string)
    requires LowerWord(part)
    ensures !Filtered(part)
  {
    assert "tag:"[3] == ':' && "path:"[4] == ':' && "prop:"[4] == ':';
  }

  /** The words of a note are in lower case. */
  lemma WordShape(doc: Doc, w: string)
    requires w in DocTokens(doc)
    ensures LowerWord(w)
  {
    NoteWords(doc, w);
    forall text: string | w in Words(text) ensures LowerWord(w) {
      WordInLower(text, w);
    }
  }

  lemma WordInLower(text: string, w: string)
    requires w in Words(text)
    ensures LowerWord(w)
  {
    WordsAreRuns(text);
    var spans: seq<Span> :| ListsAll(text, spans, Words(text));
    var k :| 0 <= k < |Words(text)| && Words(text)[k] == w;
    ListedLower(text, spans, Words(text), k);
  }

  lemma ListedLower(text: string, spans: seq<Span>, words: seq<string>, k: nat)
    requires ListsAll(text, spans, words) && k < |words|
    ensures LowerWord(words[k])
  {
    assert IsRun(text, spans[k]);
    LowerRun(text[spans[k].from..spans[k].to]);
  }

  lemma LowerRun(part: string)
    requires forall i :: 0 <= i < |part| ==> IsWordChar(part[i])
    ensures LowerWord(ToLower(part))
  {
  }
}
