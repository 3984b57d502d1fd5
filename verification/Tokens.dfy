/** Tokens and term weights of packages/search/index.go: what a document
    contributes to the index. */
module Tokens {
  import opened Text
  import opened Slices

  type Counts = map<string, nat>

  datatype Value =
    | Nil
    | Scalar(text: string)
    | List(items: seq<Value>)
    | Strings(texts: seq<string>)

  datatype Doc = Doc(
    path: string,
    title: string,
    tags: seq<string>,
    aliases: seq<string>,
    body: string,
    frontmatter: map<string, Value>)

  function Get(m: Counts, k: string): nat {
    if k in m then m[k] else 0
  }

  predicate IsWordChar(c: char) {
    ('a' <= c <= 'z') || ('A' <= c <= 'Z') || ('0' <= c <= '9')
  }

  // ------------------------------------------------------------ tokenizing

  /** The words met so far and the one being read. */
  datatype Reader = Reader(words: seq<string>, b: string)

  function EndWord(r: Reader): Reader {
    Reader(if |r.b| >= 2 then r.words + [r.b] else r.words, "")
  }

  function Read(text: string): Reader {
    if text == "" then Reader([], "")
    else
      var r, c := Read(text[..|text| - 1]), text[|text| - 1];
      if IsWordChar(c) then r.(b := r.b + [LowerChar(c)]) else EndWord(r)
  }

  /** The lower-case runs of letters and digits, at least two characters long. */
  function Words(text: string): seq<string> {
    EndWord(Read(text)).words
  }

  datatype Span = Span(from: nat, to: nat)

  /** A run of letters and digits that cannot be made longer. */
  predicate IsRun(text: string, s: Span) {
    && s.from < s.to <= |text|
    && (forall i :: s.from <= i < s.to ==> IsWordChar(text[i]))
    && (s.from == 0 || !IsWordChar(text[s.from - 1]))
    && (s.to == |text| || !IsWordChar(text[s.to]))
  }

  /** The words are, in order and in lower case, exactly the runs of two or more
      characters that end before the limit. */
  ghost predicate Lists(text: string, spans: seq<Span>, words: seq<string>, limit: nat) {
    && |spans| == |words|
    && (forall k :: 0 <= k < |spans| ==>
          IsRun(text, spans[k]) && spans[k].from + 2 <= spans[k].to < limit
              && words[k] == ToLower(text[spans[k].from..spans[k].to]))
    && (forall k, l :: 0 <= k < l < |spans| ==> spans[k].to < spans[l].from)
    && (forall s: Span :: IsRun(text, s) && s.from + 2 <= s.to < limit ==> s in spans)
  }

  /** The last, unfinished run starts here. */
  predicate TailFrom(text: string, from: nat) {
    && from <= |text| && (forall i :: from <= i < |text| ==> IsWordChar(text[i]))
    && (from == 0 || !IsWordChar(text[from - 1]))
  }

  lemma TailUnique(text: string, from: nat, s: Span)
    requires TailFrom(text, from) && IsRun(text, s) && s.to >= from
    ensures s == Span(from, |text|)
  {
  }

  /** Runs that end before the last character see no more of it. */
  lemma ShorterRuns(text: string, more: string, limit: nat, s: Span)
    requires limit <= |text| <= |more| && more[..|text|] == text && s.to < limit
    ensures IsRun(text, s) <==> IsRun(more, s)
  {
    assert forall i :: 0 <= i < |text| ==> more[i] == text[i];
  }

  lemma ListsLonger(text: string, more: string, spans: seq<Span>, words: seq<string>, limit: nat)
    requires limit <= |text| <= |more| && more[..|text|] == text && Lists(text, spans, words, limit)
    ensures Lists(more, spans, words, limit)
  {
    forall s: Span | s.to < limit ensures IsRun(text, s) <==> IsRun(more, s) {
      ShorterRuns(text, more, limit, s);
    }
    forall k | 0 <= k < |spans| ensures more[spans[k].from..spans[k].to] == text[spans[k].from..spans[k].to] {
      assert more[spans[k].from..spans[k].to] == more[..|text|][spans[k].from..spans[k].to];
    }
  }

  /** All its words, up to the end of the text. */
  ghost predicate ListsAll(text: string, spans: seq<Span>, words: seq<string>) {
    Lists(text, spans, words, |text| + 1)
  }

  lemma ShortTail(text: string, spans: seq<Span>, words: seq<string>, from: nat)
    requires TailFrom(text, from) && |text| < from + 2 && Lists(text, spans, words, from)
    ensures ListsAll(text, spans, words)
  {
    forall s: Span | IsRun(text, s) && s.from + 2 <= s.to ensures s in spans {
      if s.to >= from {
        TailUnique(text, from, s);
      }
    }
  }

  lemma LongTail(text: string, spans: seq<Span>, words: seq<string>, from: nat)
    requires TailFrom(text, from) && from + 2 <= |text| && Lists(text, spans, words, from)
    ensures ListsAll(text, spans + [Span(from, |text|)], words + [ToLower(text[from..])])
  {
    var all := spans + [Span(from, |text|)];
    assert all[|spans|] == Span(from, |text|) && text[from..|text|] == text[from..];
    forall s: Span | IsRun(text, s) && s.from + 2 <= s.to ensures s in all {
      if s.to >= from {
        TailUnique(text, from, s);
      } else {
        assert s in spans;
      }
    }
  }

  /** Ending a word lists the last run, too, if it is long enough. */
  lemma EndLists(text: string, spans: seq<Span>, r: Reader, from: nat) returns (all: seq<Span>)
    requires TailFrom(text, from) && r.b == ToLower(text[from..]) && Lists(text, spans, r.words, from)
    ensures ListsAll(text, all, EndWord(r).words)
  {
    if |r.b| >= 2 {
      all := spans + [Span(from, |text|)];
      LongTail(text, spans, r.words, from);
    } else {
      all := spans;
      ShortTail(text, spans, r.words, from);
    }
  }

  lemma {:induction false} ReadLists(text: string) returns (spans: seq<Span>, from: nat)
    ensures TailFrom(text, from) && Read(text).b == ToLower(text[from..]) && Lists(text, spans, Read(text).words, from)
  {
    if text == "" {
      spans, from := [], 0;
    } else {
      var init, c := text[..|text| - 1], text[|text| - 1];
      spans, from := ReadLists(init);
      if IsWordChar(c) {
        ListsLonger(init, text, spans, Read(init).words, from);
        assert text[from..] == init[from..] + [c];
      } else {
        spans := EndLists(init, spans, Read(init), from);
        EndedLists(init, text, spans, EndWord(Read(init)).words);
        from := |text|;
      }
    }
  }

  lemma EndedLists(init: string, text: string, spans: seq<Span>, words: seq<string>)
    requires |text| == |init| + 1 && text[..|init|] == init && !IsWordChar(text[|init|])
    requires ListsAll(init, spans, words)
    ensures Lists(text, spans, words, |text|)
  {
    assert forall i :: 0 <= i < |init| ==> text[i] == init[i];
    forall s: Span | s.to <= |init| ensures IsRun(init, s) <==> IsRun(text, s) {
    }
    forall k | 0 <= k < |spans| ensures text[spans[k].from..spans[k].to] == init[spans[k].from..spans[k].to] {
      assert text[spans[k].from..spans[k].to] == text[..|init|][spans[k].from..spans[k].to];
    }
  }

  /** What tokenize reads, for every text: its maximal runs of letters and digits,
      at least two long, each once, in order and in lower case. */
  lemma WordsAreRuns(text: string)
    ensures exists spans :: ListsAll(text, spans, Words(text))
  {
    var spans, from := ReadLists(text);
    var all := EndLists(text, spans, Read(text), from);
    assert ListsAll(text, all, Words(text));
  }

  function Frequency(words: seq<string>, t: string): nat {
    if words == [] then 0
    else Frequency(words[..|words| - 1], t) + if words[|words| - 1] == t then 1 else 0
  }

  predicate CountsOf(m: Counts, words: seq<string>) {
    && (forall t :: t in m ==> m[t] == Frequency(words, t) > 0)
    && (forall t :: t in words ==> t in m)
  }

  lemma {:induction false} FrequencyPositive(words: seq<string>, t: string)
    ensures Frequency(words, t) > 0 <==> t in words
  {
    if words == [] {
    } else {
      FrequencyPositive(words[..|words| - 1], t);
      assert words == words[..|words| - 1] + [words[|words| - 1]];
    }
  }

  lemma CountsGet(m: Counts, words: seq<string>, t: string)
    requires CountsOf(m, words)
    ensures Get(m, t) == Frequency(words, t)
    ensures t in m <==> t in words
  {
    FrequencyPositive(words, t);
  }

  method Bump(tokens: Counts, b: string, ghost words: seq<string>) returns (r: Counts)
    requires CountsOf(tokens, words)
    ensures CountsOf(r, if |b| >= 2 then words + [b] else words)
  {
    r := tokens;
    if |b| >= 2 {
      CountsGet(tokens, words, b);
      r := tokens[b := Get(tokens, b) + 1];
      assert (words + [b])[..|words|] == words;
    }
  }

  /** tokenize: how often each word occurs. */
  method Tokenize(text: string) returns (tokens: Counts)
    ensures CountsOf(tokens, Words(text))
  {
    tokens := map[];
    var b := "";
    assert text[..0] == "";
    for i := 0 to |text|
      invariant b == Read(text[..i]).b
      invariant CountsOf(tokens, Read(text[..i]).words)
    {
      assert text[..i + 1][..i] == text[..i];
      if IsWordChar(text[i]) {
        b := b + [LowerChar(text[i])];
      } else {
        tokens := Bump(tokens, b, Read(text[..i]).words);
        b := "";
      }
    }
    assert text[..|text|] == text;
    tokens := Bump(tokens, b, Read(text).words);
  }

  /** normalizeToken. */
  function NormalizeToken(s: string): string {
    if s == "" then ""
    else NormalizeToken(s[..|s| - 1]) + if IsWordChar(s[|s| - 1]) then [LowerChar(s[|s| - 1])] else ""
  }

  // --------------------------------------------------------------- weights

  function HasWord(t: string): string -> bool {
    (text: string) => t in Words(text)
  }

  /** What a document gives a term: its frequency in the body, and 5 for the
      title and for each tag and alias that contains it. */
  function Weight(doc: Doc, t: string): nat {
    Frequency(Words(doc.body), t)
    + (if t in Words(doc.title) then 5 else 0)
    + 5 * |Filter(HasWord(t), doc.tags)|
    + 5 * |Filter(HasWord(t), doc.aliases)|
  }

  /** The weights a document is indexed under: exactly its positive ones. */
  ghost predicate WeightsOf(m: Counts, doc: Doc) {
    forall t :: (t in m <==> Weight(doc, t) > 0) && (t in m ==> m[t] == Weight(doc, t))
  }

  lemma WeightsUnique(m: Counts, n: Counts, doc: Doc)
    requires WeightsOf(m, doc) && WeightsOf(n, doc)
    ensures m == n
  {
  }

  /** Five more for each of a set of tokens, whatever the order of the walk. */
  method Boost(tokens: Counts, more: set<string>) returns (r: Counts)
    ensures r.Keys == tokens.Keys + more
    ensures forall t :: t in r ==> r[t] == Get(tokens, t) + if t in more then 5 else 0
  {
    r := tokens;
    var todo := more;
    while todo != {}
      invariant todo <= more
      invariant r.Keys == tokens.Keys + (more - todo)
      invariant forall t :: t in r ==> r[t] == Get(tokens, t) + if t in more - todo then 5 else 0
      decreases todo
    {
      var t :| t in todo;
      todo := todo - {t};
      r := r[t := Get(r, t) + 5];
    }
  }

  method BoostAll(tokens: Counts, texts: seq<string>) returns (r: Counts)
    requires forall t :: t in tokens ==> tokens[t] > 0
    ensures forall t :: Get(r, t) == Get(tokens, t) + 5 * |Filter(HasWord(t), texts)|
    ensures forall t :: t in r ==> r[t] > 0
  {
    r := tokens;
    assert texts[..0] == [];
    for i := 0 to |texts|
      invariant forall t :: t in r ==> r[t] > 0
      invariant forall t :: Get(r, t) == Get(tokens, t) + 5 * |Filter(HasWord(t), texts[..i])|
    {
      ghost var before := r;
      var words := Tokenize(texts[i]);
      r := Boost(r, words.Keys);
      assert texts[..i + 1] == texts[..i] + [texts[i]];
      forall t
        ensures Get(r, t)
             == Get(before, t) + 5 * (|Filter(HasWord(t), texts[..i + 1])| - |Filter(HasWord(t), texts[..i])|)
      {
        FilterSnoc(HasWord(t), texts[..i], texts[i]);
        CountsGet(words, Words(texts[i]), t);
      }
    }
    assert texts[..|texts|] == texts;
  }

  /** The token weights Index computes for a document. */
  method TokenWeights(doc: Doc) returns (tokens: Counts)
    ensures WeightsOf(tokens, doc)
  {
    var body := Tokenize(doc.body);
    var title := Tokenize(doc.title);
    tokens := Boost(body, title.Keys);
    forall t ensures Get(tokens, t) == Frequency(Words(doc.body), t) + if t in Words(doc.title) then 5 else 0 {
      CountsGet(body, Words(doc.body), t);
      CountsGet(title, Words(doc.title), t);
    }
    tokens := BoostAll(tokens, doc.tags);
    tokens := BoostAll(tokens, doc.aliases);
    assert forall t :: Get(tokens, t) == Weight(doc, t);
    assert forall t :: t in tokens ==> tokens[t] == Get(tokens, t);
  }

  function WordSet(text: string): set<string> {
    var words := Words(text);
    set t | t in words
  }

  /** Every word of a list of texts. */
  function WordsOfAll(texts: seq<string>): set<string> {
    if texts == [] then {}
    else WordsOfAll(texts[..|texts| - 1]) + WordSet(texts[|texts| - 1])
  }

  /** Every word of a document. */
  function DocTokens(doc: Doc): set<string> {
    WordSet(doc.body) + WordSet(doc.title) + WordsOfAll(doc.tags) + WordsOfAll(doc.aliases)
  }

  lemma {:induction false} WordsOfAllCounted(texts: seq<string>, t: string)
    ensures t in WordsOfAll(texts) <==> |Filter(HasWord(t), texts)| > 0
  {
    if texts == [] {
    } else {
      WordsOfAllCounted(texts[..|texts| - 1], t);
    }
  }

  /** The words of a document are exactly its tokens of positive weight. */
  lemma DocTokensWeigh(doc: Doc, t: string)
    ensures t in DocTokens(doc) <==> Weight(doc, t) > 0
  {
    FrequencyPositive(Words(doc.body), t);
    WordsOfAllCounted(doc.tags, t);
    WordsOfAllCounted(doc.aliases, t);
  }
}
